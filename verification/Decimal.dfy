/** Natural numbers as decimal strings, and the money subtraction that works on the strings. */
module Decimal {

  predicate IsDigit(c: char) { '0' <= c <= '9' }

  predicate Digits(s: string) { forall i | 0 <= i < |s| :: IsDigit(s[i]) }

  /** What `BigInt.toString` prints and the money patterns accept: no leading zero. */
  predicate Canonical(s: string) { s != "" && Digits(s) && (s[0] != '0' || |s| == 1) }

  function DigitOf(c: char): (d: nat)
    requires IsDigit(c)
    ensures d < 10
  {
    c as int - '0' as int
  }

  function DigitChar(d: nat): (c: char)
    requires d < 10
    ensures IsDigit(c) && DigitOf(c) == d
  {
    ('0' as int + d) as char
  }

  function Value(s: string): nat
    requires Digits(s)
  {
    if s == "" then 0 else 10 * Value(s[..|s| - 1]) + DigitOf(s[|s| - 1])
  }

  function Print(n: nat): string {
    if n < 10 then [DigitChar(n)] else Print(n / 10) + [DigitChar(n % 10)]
  }

  function Pow10(n: nat): (p: nat)
    ensures p > 0
  {
    if n == 0 then 1 else 10 * Pow10(n - 1)
  }

  function Monus(a: int, b: int): nat { if a > b then a - b else 0 }

  // ---------- printing and reading ----------

  lemma {:induction false} ValueOfPrint(n: nat)
    ensures Canonical(Print(n)) && Value(Print(n)) == n
    ensures n > 0 ==> Print(n)[0] != '0'
  {
    if n >= 10 {
      ValueOfPrint(n / 10);
      assert Print(n)[..|Print(n)| - 1] == Print(n / 10);
    }
  }

  lemma {:induction false} PrintOfValue(s: string)
    requires Canonical(s)
    ensures Print(Value(s)) == s
  {
    var front := s[..|s| - 1];
    assert s == front + [s[|s| - 1]];
    if front != "" {
      PrintOfValue(front);
      PositiveValue(front);
    } else {
      assert Value(front) == 0;
    }
  }

  lemma {:induction false} PositiveValue(s: string)
    requires Digits(s) && s != "" && s[0] != '0'
    ensures Value(s) > 0
  {
    if |s| > 1 {
      PositiveValue(s[..|s| - 1]);
    }
  }

  lemma PrintInjective(m: nat, n: nat)
    requires Print(m) == Print(n)
    ensures m == n
  {
    ValueOfPrint(m);
    ValueOfPrint(n);
  }

  // ---------- order ----------

  lemma {:induction false} ValueBelow(s: string)
    requires Digits(s)
    ensures Value(s) < Pow10(|s|)
  {
    if s != "" {
      ValueBelow(s[..|s| - 1]);
    }
  }

  lemma {:induction false} ValueAbove(s: string)
    requires Digits(s) && s != "" && s[0] != '0'
    ensures Value(s) >= Pow10(|s| - 1)
  {
    if |s| > 1 {
      ValueAbove(s[..|s| - 1]);
    } else {
      assert Value(s[..0]) == 0;
    }
  }

  lemma {:induction false} Pow10Monotone(a: nat, b: nat)
    requires a <= b
    ensures Pow10(a) <= Pow10(b)
  {
    if a < b {
      Pow10Monotone(a, b - 1);
    }
  }

  /** Fewer digits, smaller number. */
  lemma ShorterIsSmaller(a: string, b: string)
    requires Canonical(a) && Canonical(b) && |a| < |b|
    ensures Value(a) < Value(b)
  {
    ValueBelow(a);
    ValueAbove(b);
    Pow10Monotone(|a|, |b| - 1);
  }

  /** Exactly the values below 10^n print with at most n digits. */
  lemma DigitCount(v: nat, n: nat)
    requires n > 0
    ensures |Print(v)| <= n <==> v < Pow10(n)
  {
    ValueOfPrint(v);
    ValueBelow(Print(v));
    if |Print(v)| <= n {
      Pow10Monotone(|Print(v)|, n);
    } else {
      ValueAbove(Print(v));
      Pow10Monotone(n, |Print(v)| - 1);
    }
  }

  /** Lexicographic comparison of strings of one length: the first difference decides. */
  function Lex(a: string, b: string): int
    requires Digits(a) && Digits(b) && |a| == |b|
  {
    if a == "" then 0
    else
      var first := Lex(a[..|a| - 1], b[..|b| - 1]);
      if first != 0 then first else DigitOf(a[|a| - 1]) - DigitOf(b[|b| - 1])
  }

  lemma {:induction false} LexIsNumeric(a: string, b: string)
    requires Digits(a) && Digits(b) && |a| == |b|
    ensures Lex(a, b) < 0 <==> Value(a) < Value(b)
    ensures Lex(a, b) == 0 <==> Value(a) == Value(b)
  {
    if a != "" {
      LexIsNumeric(a[..|a| - 1], b[..|b| - 1]);
    }
  }

  // ---------- leading digits ----------

  lemma EmptyValue()
    ensures Value("") == 0 && Pow10(0) == 1
  {
  }

  lemma PowStep(n: nat)
    ensures Pow10(n + 1) == 10 * Pow10(n)
  {
  }

  lemma {:induction false} ValueFront(c: char, s: string)
    requires IsDigit(c) && Digits(s)
    ensures Digits([c] + s)
    ensures Value([c] + s) == DigitOf(c) * Pow10(|s|) + Value(s)
  {
    hide Pow10;
    var whole := [c] + s;
    if s == "" {
      assert whole[..0] == "";
      EmptyValue();
    } else {
      var front := s[..|s| - 1];
      ValueFront(c, front);
      assert whole[..|whole| - 1] == [c] + front;
      TenTimes(DigitOf(c), Pow10(|front|));
      PowStep(|front|);
    }
  }

  lemma TenTimes(d: nat, p: nat)
    ensures 10 * (d * p) == d * (10 * p)
  {
  }

  function StripZeros(s: string): string {
    if s != "" && s[0] == '0' then StripZeros(s[1..]) else s
  }

  /** `replace(/^0+/, "") || "0"`. */
  function Trimmed(s: string): string { if StripZeros(s) == "" then "0" else StripZeros(s) }

  lemma {:induction false} TrimmedIsPrint(s: string)
    requires Digits(s)
    ensures Trimmed(s) == Print(Value(s))
  {
    hide Value, Print, Pow10;
    if s == "" {
      EmptyValue();
      ZeroPrints();
    } else if s[0] == '0' {
      TrimmedIsPrint(s[1..]);
      ValueFront(s[0], s[1..]);
      assert s == [s[0]] + s[1..];
    } else {
      PrintOfValue(s);
    }
  }

  lemma ZeroPrints()
    ensures Print(0) == "0"
  {
  }

  // ---------- subtraction on the strings ----------

  /** The digit of `s` that stands `offset` places before its last one, and 0 beyond its front. */
  function DigitAt(s: string, offset: nat): (d: nat)
    requires Digits(s)
    ensures d < 10
  {
    if offset < |s| then DigitOf(s[|s| - 1 - offset]) else 0
  }

  /** The value of the last `n` digits. */
  function Low(s: string, n: nat): nat
    requires Digits(s)
  {
    if n == 0 then 0 else DigitAt(s, n - 1) * Pow10(n - 1) + Low(s, n - 1)
  }

  lemma {:induction false} LowIsValue(s: string, n: nat)
    requires Digits(s)
    ensures n >= |s| ==> Low(s, n) == Value(s)
    ensures n < |s| ==> Low(s, n) == Value(s[|s| - n..])
  {
    if n > 0 {
      LowIsValue(s, n - 1);
      if n <= |s| {
        var tail := s[|s| - (n - 1)..];
        ValueFront(s[|s| - n], tail);
        assert s[|s| - n..] == [s[|s| - n]] + tail;
        assert n == |s| ==> s[0..] == s;
      }
    } else {
      assert s[|s|..] == "";
    }
  }

  /** One column of the subtraction, with its borrow. */
  lemma Column(d: nat, x: nat, y: nat, borrow: nat, next: nat, p: nat, low: int, result: int, other: int)
    requires d == x - y - borrow + 10 * next
    requires result == low - other + borrow * p
    ensures d * p + result == (x * p + low) - (y * p + other) + next * (10 * p)
  {
    assert d * p == x * p - y * p - borrow * p + next * (10 * p);
  }

  method SubtractAtZero(minuend: string, subtrahend: string) returns (r: string)
    requires Canonical(minuend) && Canonical(subtrahend)
    ensures r == Print(Monus(Value(minuend), Value(subtrahend)))
  {
    if |minuend| < |subtrahend| {
      ShorterIsSmaller(minuend, subtrahend);
      return "0";
    }
    if |minuend| == |subtrahend| {
      LexIsNumeric(minuend, subtrahend);
      if Lex(minuend, subtrahend) <= 0 {
        return "0";
      }
    } else {
      ShorterIsSmaller(subtrahend, minuend);
    }
    assert Value(minuend) > Value(subtrahend);
    hide Value, Canonical, Partial, DigitAt;
    var borrow: nat := 0;
    var result := "";
    var offset := 0;
    FirstColumn(minuend, subtrahend);
    while offset < |minuend|
      invariant 0 <= offset <= |minuend| && |result| == offset
      invariant borrow <= 1 && Partial(minuend, subtrahend, result, borrow)
    {
      var digit := DigitAt(minuend, offset) - DigitAt(subtrahend, offset) - borrow;
      var next := if digit < 0 then 1 else 0;
      if digit < 0 {
        digit := digit + 10;
      }
      NextColumn(minuend, subtrahend, result, borrow, digit, next);
      result := [DigitChar(digit)] + result;
      borrow := next;
      offset := offset + 1;
    }
    LastColumn(minuend, subtrahend, result, borrow);
    TrimmedIsPrint(result);
    r := Trimmed(result);
  }

  lemma LowStep(s: string, n: nat)
    requires Digits(s)
    ensures Low(s, n + 1) == DigitAt(s, n) * Pow10(n) + Low(s, n)
    ensures Low(s, 0) == 0
  {
  }

  /** The digits so far are the difference of the last places, but for the borrow. */
  predicate Partial(minuend: string, subtrahend: string, result: string, borrow: nat)
    requires Digits(minuend) && Digits(subtrahend)
  {
    && borrow <= 1 && Digits(result)
    && Value(result)
      == Low(minuend, |result|) - Low(subtrahend, |result|) + borrow * Pow10(|result|)
  }

  lemma NextColumn(minuend: string, subtrahend: string, result: string, borrow: nat, digit: nat, next: nat)
    requires Digits(minuend) && Digits(subtrahend) && Partial(minuend, subtrahend, result, borrow)
    requires digit < 10 && next <= 1
    requires digit == DigitAt(minuend, |result|) - DigitAt(subtrahend, |result|) - borrow + 10 * next
    ensures Partial(minuend, subtrahend, [DigitChar(digit)] + result, next)
  {
    hide Value, Pow10, Low, DigitAt;
    var offset := |result|;
    ValueFront(DigitChar(digit), result);
    LowStep(minuend, offset);
    LowStep(subtrahend, offset);
    Column(digit, DigitAt(minuend, offset), DigitAt(subtrahend, offset), borrow, next,
           Pow10(offset), Low(minuend, offset), Value(result), Low(subtrahend, offset));
    PowStep(offset);
  }

  lemma FirstColumn(minuend: string, subtrahend: string)
    requires Digits(minuend) && Digits(subtrahend)
    ensures Partial(minuend, subtrahend, "", 0)
  {
    LowStep(minuend, 0);
    LowStep(subtrahend, 0);
    EmptyValue();
  }

  /** When every column is done, nothing is left to borrow. */
  lemma LastColumn(minuend: string, subtrahend: string, result: string, borrow: nat)
    requires Digits(minuend) && Digits(subtrahend) && Partial(minuend, subtrahend, result, borrow)
    requires |subtrahend| <= |minuend| == |result| && Value(minuend) > Value(subtrahend)
    ensures Digits(result) && Value(result) == Value(minuend) - Value(subtrahend)
  {
    hide Value, Pow10, Low;
    LowIsValue(minuend, |result|);
    LowIsValue(subtrahend, |result|);
    NoFinalBorrow(result, borrow, Value(minuend) - Value(subtrahend));
  }

  /** A borrow left over would need more digits than the result has. */
  lemma NoFinalBorrow(result: string, borrow: nat, difference: int)
    requires Digits(result) && borrow <= 1 && difference > 0
    requires Value(result) == difference + borrow * Pow10(|result|)
    ensures borrow == 0
  {
    ValueBelow(result);
  }
}
