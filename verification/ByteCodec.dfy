/** Bytes, and fixed-width big- and little-endian numbers with their inverses. */
module ByteCodec {

  type Byte = b: int | 0 <= b < 256
  type Bytes = seq<Byte>

  /** The number of values a `width`-byte word can hold. */
  function Span(width: nat): (n: nat)
    ensures n > 0
  {
    if width == 0 then 1 else 256 * Span(width - 1)
  }

  lemma SpanMonotone(a: nat, b: nat)
    requires a <= b
    ensures Span(a) <= Span(b)
  {
    if a < b {
      SpanMonotone(a, b - 1);
    }
  }

  function BigEndian(n: nat, width: nat): (bs: Bytes)
    requires n < Span(width)
    ensures |bs| == width
    decreases n, width
  {
    if width == 0 then [] else BigEndian(n / 256, width - 1) + [n % 256]
  }

  function FromBigEndian(bs: Bytes): (n: nat)
    ensures n < Span(|bs|)
  {
    if bs == [] then 0
    else 256 * FromBigEndian(bs[..|bs| - 1]) + bs[|bs| - 1]
  }

  lemma {:induction false} BigEndianRoundTrip(n: nat, width: nat)
    requires n < Span(width)
    ensures FromBigEndian(BigEndian(n, width)) == n
    decreases width
  {
    if width > 0 {
      var bs := BigEndian(n, width);
      BigEndianRoundTrip(n / 256, width - 1);
      assert bs[..width - 1] == BigEndian(n / 256, width - 1);
    }
  }

  function LittleEndian(n: nat, width: nat): (bs: Bytes)
    requires n < Span(width)
    ensures |bs| == width
    decreases n, width
  {
    if width == 0 then [] else [n % 256] + LittleEndian(n / 256, width - 1)
  }

  function FromLittleEndian(bs: Bytes): (n: nat)
    ensures n < Span(|bs|)
  {
    if bs == [] then 0 else bs[0] + 256 * FromLittleEndian(bs[1..])
  }

  lemma {:induction false} LittleEndianRoundTrip(n: nat, width: nat)
    requires n < Span(width)
    ensures FromLittleEndian(LittleEndian(n, width)) == n
    decreases width
  {
    if width > 0 {
      LittleEndianRoundTrip(n / 256, width - 1);
      assert LittleEndian(n, width)[1..] == LittleEndian(n / 256, width - 1);
    }
  }

  /** The same width and the same value mean the same little-endian bytes. */
  lemma {:induction false} LittleEndianOfBytes(bs: Bytes)
    ensures LittleEndian(FromLittleEndian(bs), |bs|) == bs
  {
    if bs != [] {
      LittleEndianOfBytes(bs[1..]);
      var n := FromLittleEndian(bs);
      assert n % 256 == bs[0] && n / 256 == FromLittleEndian(bs[1..]);
    }
  }

  /** `part` stands in `whole` at position `at`. */
  ghost predicate Holds(whole: Bytes, at: int, part: Bytes) {
    0 <= at && at + |part| <= |whole| && whole[at..at + |part|] == part
  }

  lemma HoldsSplit(whole: Bytes, at: int, left: Bytes, right: Bytes)
    requires Holds(whole, at, left + right)
    ensures Holds(whole, at, left) && Holds(whole, at + |left|, right)
  {
    var both := left + right;
    assert whole[at..at + |both|] == both;
    assert left == both[..|left|] && right == both[|left|..];
    assert whole[at..at + |left|] == whole[at..at + |both|][..|left|];
    assert whole[at + |left|..at + |both|] == whole[at..at + |both|][|left|..];
  }
}
