/**
  Byte formats of the relay depository: the Borsh form of a transfer request (which is what the
  allocator signs and what names the used-request account), the domain separator's preimage, and
  the depository account's data.
 */
module RelayBytes {
  import opened ByteCodec
  import opened Wrappers

  type Key = k: Bytes | |k| == 32 witness seq(32, _ => 0)
  type U64 = n: int | 0 <= n < 0x1_0000_0000_0000_0000
  type I64 = n: int | -0x8000_0000_0000_0000 <= n < 0x8000_0000_0000_0000

  datatype TransferRequest = TransferRequest(
    domain: Key,
    recipient: Key,
    token: Option<Key>,
    amount: U64,
    nonce: U64,
    expiration: I64,
    vaultAddress: Key)

  // ---------- numbers and options ----------

  lemma U64Span()
    ensures Span(8) == 0x1_0000_0000_0000_0000
  {
  }

  function U64Bytes(n: U64): (bs: Bytes)
    ensures |bs| == 8
  {
    U64Span();
    LittleEndian(n, 8)
  }

  function ReadU64(bs: Bytes): U64
    requires |bs| == 8
  {
    U64Span();
    FromLittleEndian(bs)
  }

  lemma U64RoundTrip(n: U64)
    ensures ReadU64(U64Bytes(n)) == n
  {
    U64Span();
    LittleEndianRoundTrip(n, 8);
  }

  lemma U64OfBytes(bs: Bytes)
    requires |bs| == 8
    ensures U64Bytes(ReadU64(bs)) == bs
  {
    U64Span();
    LittleEndianOfBytes(bs);
  }

  /** Two's complement. */
  function Unsigned(n: I64): U64 { if n < 0 then n + 0x1_0000_0000_0000_0000 else n }

  function Signed(n: U64): I64 {
    if n < 0x8000_0000_0000_0000 then n else n - 0x1_0000_0000_0000_0000
  }

  function OptionBytes(k: Option<Key>): Bytes {
    match k
    case None => [0]
    case Some(key) => [1] + key
  }

  /** The option at the front of `bs`, and what follows it; other tags than 0 and 1 are refused. */
  function ReadOption(bs: Bytes): Option<(Option<Key>, Bytes)> {
    if |bs| >= 1 && bs[0] == 0 then Some((None, bs[1..]))
    else if |bs| >= 33 && bs[0] == 1 then Some((Some(bs[1..33]), bs[33..]))
    else None
  }

  lemma OptionRoundTrip(k: Option<Key>, rest: Bytes)
    ensures ReadOption(OptionBytes(k) + rest) == Some((k, rest))
  {
    var bs := OptionBytes(k) + rest;
    match k
    case None => assert bs[1..] == rest;
    case Some(key) => assert bs[1..33] == key && bs[33..] == rest;
  }

  // ---------- the transfer request ----------

  function RequestTail(r: TransferRequest): (bs: Bytes)
    ensures |bs| == 56
  {
    U64Bytes(r.amount) + U64Bytes(r.nonce) + U64Bytes(Unsigned(r.expiration)) + r.vaultAddress
  }

  /** The bytes `get_hash` hashes. */
  function RequestBytes(r: TransferRequest): Bytes {
    r.domain + r.recipient + (OptionBytes(r.token) + RequestTail(r))
  }

  function ReadRequest(bs: Bytes): Option<TransferRequest> {
    if |bs| < 64 then None
    else match ReadOption(bs[64..])
      case Some((token, tail)) =>
        if |tail| != 56 then None
        else Some(TransferRequest(
                    bs[..32], bs[32..64], token,
                    ReadU64(tail[..8]), ReadU64(tail[8..16]), Signed(ReadU64(tail[16..24])),
                    tail[24..]))
      case None => None
  }

  /** The hashed bytes determine the request. */
  lemma RequestRoundTrip(r: TransferRequest)
    ensures ReadRequest(RequestBytes(r)) == Some(r)
  {
    hide U64Bytes, ReadU64;
    var bs, tail := RequestBytes(r), RequestTail(r);
    OptionRoundTrip(r.token, tail);
    assert bs[..32] == r.domain && bs[32..64] == r.recipient;
    assert bs[64..] == OptionBytes(r.token) + tail;
    assert tail[..8] == U64Bytes(r.amount) && tail[8..16] == U64Bytes(r.nonce);
    assert tail[16..24] == U64Bytes(Unsigned(r.expiration)) && tail[24..] == r.vaultAddress;
    U64RoundTrip(r.amount);
    U64RoundTrip(r.nonce);
    U64RoundTrip(Unsigned(r.expiration));
  }

  lemma RequestInjective(r: TransferRequest, q: TransferRequest)
    requires RequestBytes(r) == RequestBytes(q)
    ensures r == q
  {
    RequestRoundTrip(r);
    RequestRoundTrip(q);
  }

  // ---------- the domain separator ----------

  /** `b"RelayDepository"`. */
  const DOMAIN_NAME: Bytes := [82, 101, 108, 97, 121, 68, 101, 112, 111, 115, 105, 116, 111, 114, 121]
  /** `b"1"`. */
  const DOMAIN_VERSION: Bytes := [49]

  function DomainPreimage(chainId: Bytes, programId: Key): Bytes {
    DOMAIN_NAME + DOMAIN_VERSION + chainId + programId
  }

  /** The name and version are fixed and the program id has a fixed width, so nothing is ambiguous. */
  lemma DomainInjective(c: Bytes, p: Key, d: Bytes, q: Key)
    ensures DomainPreimage(c, p) == DomainPreimage(d, q) <==> c == d && p == q
  {
    if DomainPreimage(c, p) == DomainPreimage(d, q) {
      var x, y := DomainPreimage(c, p), DomainPreimage(d, q);
      assert |x| == 48 + |c| && |y| == 48 + |d|;
      assert x[16..16 + |c|] == c && y[16..16 + |d|] == d;
      assert x[16 + |c|..] == p && y[16 + |d|..] == q;
    }
  }

  // ---------- the depository account ----------

  datatype Config = Config(owner: Key, allocator: Key, vaultBump: Byte, domain: Option<Key>)

  const DISCRIMINATOR: Bytes := [0x80, 0x35, 0x9c, 0xbd, 0xf3, 0x53, 0xf5, 0x6b]
  const LEGACY_SIZE := 73
  /** `8 + RelayDepository::INIT_SPACE`. */
  const CURRENT_SIZE := 106

  function LegacyBytes(c: Config): (bs: Bytes)
    ensures |bs| == LEGACY_SIZE
  {
    DISCRIMINATOR + c.owner + c.allocator + [c.vaultBump]
  }

  function AccountBytes(c: Config): Bytes { LegacyBytes(c) + OptionBytes(c.domain) }

  /** How the account is loaded: bytes after the last field are ignored. */
  function LoadAccount(data: Bytes): Option<Config> {
    if |data| < LEGACY_SIZE || data[..8] != DISCRIMINATOR then None
    else match ReadOption(data[73..])
      case Some((domain, _)) => Some(Config(data[8..40], data[40..72], data[72], domain))
      case None => None
  }

  lemma LoadBack(c: Config, rest: Bytes)
    ensures LoadAccount(AccountBytes(c) + rest) == Some(c)
  {
    var data := AccountBytes(c) + rest;
    OptionRoundTrip(c.domain, rest);
    assert data[..8] == DISCRIMINATOR && data[8..40] == c.owner && data[40..72] == c.allocator;
    assert data[73..] == OptionBytes(c.domain) + rest;
  }

  /** A legacy account has no byte for the domain's tag, so it cannot be loaded. */
  lemma LegacyNotLoadable(data: Bytes)
    requires |data| == LEGACY_SIZE
    ensures LoadAccount(data) == None
  {
  }

  /** Writing an account back overwrites its front and keeps whatever the space holds beyond. */
  function StoreAccount(data: Bytes, c: Config): Bytes
    requires |AccountBytes(c)| <= |data|
  {
    AccountBytes(c) + data[|AccountBytes(c)|..]
  }
}
