/**
  Money as the operator types and reads it: micro-amounts with a decimal comma, up to six digits
  after it, and thousands points only in what is shown.
 */
module GermanMoney {
  import opened Decimal
  import opened Wrappers

  const MICRO := 6

  function Zeros(n: nat): (s: string)
    ensures |s| == n && Digits(s)
  {
    if n == 0 then "" else "0" + Zeros(n - 1)
  }

  function PadStart(s: string, n: nat): string { if |s| >= n then s else Zeros(n - |s|) + s }

  function PadEnd(s: string, n: nat): string { if |s| >= n then s else s + Zeros(n - |s|) }

  /** `replace(/0+$/, "")`. */
  function StripEnd(s: string): string {
    if s != "" && s[|s| - 1] == '0' then StripEnd(s[..|s| - 1]) else s
  }

  /** The first comma, or the length. */
  function CommaAt(s: string): (i: nat)
    ensures i <= |s| && (i < |s| ==> s[i] == ',') && forall j | 0 <= j < i :: s[j] != ','
  {
    if s == "" || s[0] == ',' then 0 else 1 + CommaAt(s[1..])
  }

  // ---------- parsing and printing ----------

  /** The pattern of `parseGermanUsd`, and its amount in micro-units. */
  function ParseGermanUsd(s: string): Option<string> {
    var i := CommaAt(s);
    if !Canonical(s[..i]) then None
    else if i == |s| then Some(Print(Value(s) * Pow10(MICRO)))
    else
      var fraction := s[i + 1..];
      if !Digits(fraction) || !(1 <= |fraction| <= MICRO) then None
      else Some(Print(Value(s[..i]) * Pow10(MICRO) + Value(PadEnd(fraction, MICRO))))
  }

  /** The digits after the comma: at least two, trailing zeros beyond that left out. */
  function Fraction(rest: nat, decimals: nat): string {
    PadEnd(StripEnd(PadStart(Print(rest), decimals)), 2)
  }

  function GermanMoneyFormValue(value: Option<string>): string {
    if value.None? || !Canonical(value.value) then ""
    else
      var amount := Value(value.value);
      Print(amount / Pow10(MICRO)) + "," + Fraction(amount % Pow10(MICRO), MICRO)
  }

  lemma {:induction false} ZerosValue(n: nat, s: string)
    requires Digits(s)
    ensures Digits(Zeros(n) + s) && Value(Zeros(n) + s) == Value(s)
  {
    if n == 0 {
      assert Zeros(0) + s == s;
    } else {
      ZerosValue(n - 1, s);
      assert Zeros(n) + s == ['0'] + (Zeros(n - 1) + s);
      ValueFront('0', Zeros(n - 1) + s);
    }
  }

  lemma {:induction false} StripEndIsPrefix(s: string)
    ensures |StripEnd(s)| <= |s| && s == StripEnd(s) + Zeros(|s| - |StripEnd(s)|)
  {
    if s != "" && s[|s| - 1] == '0' {
      StripEndIsPrefix(s[..|s| - 1]);
      var k := |s| - 1 - |StripEnd(s)|;
      ZerosSnoc(k);
      assert s == s[..|s| - 1] + "0" == StripEnd(s) + Zeros(k) + "0";
    }
  }

  lemma {:induction false} ZerosSnoc(n: nat)
    ensures Zeros(n) + "0" == Zeros(n + 1)
  {
    if n > 0 {
      ZerosSnoc(n - 1);
      assert Zeros(n) + "0" == "0" + (Zeros(n - 1) + "0");
    }
  }

  lemma {:induction false} ZerosAdd(a: nat, b: nat)
    ensures Zeros(a) + Zeros(b) == Zeros(a + b)
  {
    if a > 0 {
      ZerosAdd(a - 1, b);
      assert Zeros(a) + Zeros(b) == "0" + (Zeros(a - 1) + Zeros(b));
    } else {
      assert Zeros(0) + Zeros(b) == Zeros(b);
    }
  }

  lemma PadStartBack(rest: nat, decimals: nat)
    requires decimals > 0 && rest < Pow10(decimals)
    ensures var full := PadStart(Print(rest), decimals);
      |full| == decimals && Digits(full) && Value(full) == rest
  {
    hide Pow10, Value, Print, Canonical;
    ValueOfPrint(rest);
    CanonicalDigits(Print(rest));
    DigitCount(rest, decimals);
    ZerosValue(decimals - |Print(rest)|, Print(rest));
  }

  /** Stripping zeros and padding to two leaves a prefix that pads to the whole again. */
  lemma StripPadBack(full: string)
    requires |full| >= 2
    ensures var f := PadEnd(StripEnd(full), 2);
      2 <= |f| <= |full| && f == full[..|f|] && PadEnd(f, |full|) == full
  {
    hide StripEnd, Zeros;
    StripEndIsPrefix(full);
    var kept := StripEnd(full);
    var f := PadEnd(kept, 2);
    var added, missing := Zeros(|f| - |kept|), Zeros(|full| - |f|);
    ZerosAdd(|f| - |kept|, |full| - |f|);
    assert f == kept + added by { if |f| == |kept| { assert added == ""; } }
    assert f + missing == kept + (added + missing) == full;
    if |f| == |full| { assert missing == ""; }
  }

  /** The fraction has all its digits back once it is padded to the full width again. */
  lemma FractionBack(rest: nat, decimals: nat)
    requires 2 <= decimals && rest < Pow10(decimals)
    ensures var f := Fraction(rest, decimals);
      && Digits(f) && 2 <= |f| <= decimals
      && Digits(PadEnd(f, decimals)) && Value(PadEnd(f, decimals)) == rest
  {
    hide Pow10, Value, Print, StripEnd, PadEnd, PadStart;
    PadStartBack(rest, decimals);
    StripPadBack(PadStart(Print(rest), decimals));
  }

  lemma CommaAfter(whole: string, rest: string)
    requires ',' !in whole
    ensures CommaAt(whole + "," + rest) == |whole|
    ensures (whole + "," + rest)[..|whole|] == whole && (whole + "," + rest)[|whole| + 1..] == rest
  {
    var s := whole + "," + rest;
    assert s[|whole|] == ',';
    assert forall j | 0 <= j < |whole| :: s[j] == whole[j] && whole[j] in whole;
  }

  lemma NoComma(s: string)
    requires Digits(s)
    ensures ',' !in s
  {
  }

  /** Every canonical amount survives the form: what it shows parses to what was stored. */
  lemma FormRoundTrip(value: string)
    requires Canonical(value)
    ensures ParseGermanUsd(GermanMoneyFormValue(Some(value))) == Some(value)
  {
    hide Pow10, Value, Print, Fraction, PadEnd, Canonical;
    CanonicalDigits(value);
    var amount := Value(value);
    var whole, rest := amount / Pow10(MICRO), amount % Pow10(MICRO);
    ValueOfPrint(whole);
    CanonicalDigits(Print(whole));
    NoComma(Print(whole));
    FractionBack(rest, MICRO);
    CommaAfter(Print(whole), Fraction(rest, MICRO));
    assert whole * Pow10(MICRO) + rest == amount;
    PrintOfValue(value);
  }

  lemma CanonicalDigits(s: string)
    requires Canonical(s)
    ensures Digits(s)
  {
  }

  // ---------- showing ----------

  /** Thousands points, as German number formatting sets them. */
  function Grouped(s: string): string {
    if |s| <= 3 then s else Grouped(s[..|s| - 3]) + "." + s[|s| - 3..]
  }

  function WithoutPoints(s: string): string {
    if s == "" then "" else if s[0] == '.' then WithoutPoints(s[1..]) else [s[0]] + WithoutPoints(s[1..])
  }

  /** The sign that is shown is the typographic minus. */
  function FormatAtomic(value: string, decimals: nat, unit: string): Option<string> {
    var negative := value != "" && value[0] == '-';
    var digits := if negative then value[1..] else value;
    if !Canonical(digits) || value == "-0" then None
    else
      Some((if negative then "\U{2212}" else "") + Parts(Value(digits), Pow10(decimals), decimals) + " " + unit)
  }

  /** The units before the comma, in groups, and what is left of one after it. */
  function Parts(amount: nat, scale: nat, decimals: nat): string
    requires scale > 0
  {
    Grouped(Print(amount / scale)) + "," + Fraction(amount % scale, decimals)
  }

  lemma {:induction false} WithoutPointsConcat(a: string, b: string)
    ensures WithoutPoints(a + b) == WithoutPoints(a) + WithoutPoints(b)
  {
    if a == "" {
      assert a + b == b;
    } else {
      assert (a + b)[1..] == a[1..] + b;
      WithoutPointsConcat(a[1..], b);
    }
  }

  lemma {:induction false} NoPoints(s: string)
    requires '.' !in s
    ensures WithoutPoints(s) == s
  {
    if s != "" {
      NoPoints(s[1..]);
      assert s == [s[0]] + s[1..];
    }
  }

  lemma {:induction false} GroupedBack(s: string)
    requires Digits(s)
    ensures WithoutPoints(Grouped(s)) == s && ',' !in Grouped(s)
  {
    hide WithoutPoints;
    NoPoints(s);
    NoComma(s);
    if |s| > 3 {
      var front, back := s[..|s| - 3], s[|s| - 3..];
      GroupedBack(front);
      NoPoints(back);
      WithoutPointsConcat(Grouped(front) + ".", back);
      WithoutPointsConcat(Grouped(front), ".");
      assert WithoutPoints(".") == "" by { PointOnly(); }
      assert s == front + back;
    }
  }

  lemma PointOnly()
    ensures WithoutPoints(".") == ""
  {
  }

  /** What is shown of an amount, thousands points aside, is what the form would hold. */
  lemma ShownIsTyped(value: string)
    requires Canonical(value)
    ensures FormatAtomic(value, MICRO, "USD").Some?
    ensures WithoutPoints(FormatAtomic(value, MICRO, "USD").value)
      == GermanMoneyFormValue(Some(value)) + " USD"
  {
    hide Pow10, Value, Print, Fraction, Grouped, WithoutPoints, PadEnd;
    var amount := Value(value);
    var whole, fraction := Print(amount / Pow10(MICRO)), Fraction(amount % Pow10(MICRO), MICRO);
    ValueOfPrint(amount / Pow10(MICRO));
    GroupedBack(whole);
    FractionBack(amount % Pow10(MICRO), MICRO);
    var tail := "," + fraction + " USD";
    assert tail == "," + fraction + " " + "USD";
    NoPoints(tail);
    WithoutPointsConcat(Grouped(whole), tail);
    var parts := Parts(amount, Pow10(MICRO), MICRO);
    assert parts + " " + "USD" == Grouped(whole) + tail;
    assert "" + parts == parts;
    assert FormatAtomic(value, MICRO, "USD").value == parts + " " + "USD";
  }

  /** Two amounts are never shown alike. */
  lemma ShownApart(v: string, w: string)
    requires Canonical(v) && Canonical(w) && FormatAtomic(v, MICRO, "USD") == FormatAtomic(w, MICRO, "USD")
    ensures v == w
  {
    hide FormatAtomic, WithoutPoints, GermanMoneyFormValue, ParseGermanUsd, Canonical;
    ShownIsTyped(v);
    ShownIsTyped(w);
    var a, b := GermanMoneyFormValue(Some(v)), GermanMoneyFormValue(Some(w));
    assert a == (a + " USD")[..|a|] && b == (b + " USD")[..|b|];
    FormRoundTrip(v);
    FormRoundTrip(w);
  }

  // ---------- typing ----------

  predicate Typable(c: char) { IsDigit(c) || c == ',' }

  function Sanitized(s: string): (r: string)
    ensures forall c | c in r :: Typable(c)
  {
    if s == "" then "" else if Typable(s[0]) then [s[0]] + Sanitized(s[1..]) else Sanitized(s[1..])
  }

  function WithoutCommas(s: string): (r: string)
    ensures forall c | c in r :: c in s && c != ','
  {
    if s == "" then "" else if s[0] == ',' then WithoutCommas(s[1..]) else [s[0]] + WithoutCommas(s[1..])
  }

  function Take(s: string, n: nat): string { if |s| <= n then s else s[..n] }

  function GermanMoneyInput(s: string): string {
    var sanitized := Sanitized(s);
    var i := CommaAt(sanitized);
    if i == |sanitized| then sanitized
    else sanitized[..i] + "," + Take(WithoutCommas(sanitized[i + 1..]), MICRO)
  }

  /** What the field can hold: digits, and at most one comma with at most six digits after it. */
  predicate Tidy(s: string) {
    var i := CommaAt(s);
    Digits(s[..i]) && (i < |s| ==> Digits(s[i + 1..]) && |s[i + 1..]| <= MICRO)
  }

  lemma {:induction false} SanitizedSame(s: string)
    requires forall c | c in s :: Typable(c)
    ensures Sanitized(s) == s
  {
    if s != "" {
      assert s[0] in s;
      SanitizedSame(s[1..]);
      assert s == [s[0]] + s[1..];
    }
  }

  lemma {:induction false} WithoutCommasSame(s: string)
    requires ',' !in s
    ensures WithoutCommas(s) == s
  {
    if s != "" {
      WithoutCommasSame(s[1..]);
      assert s == [s[0]] + s[1..];
    }
  }

  lemma FractionTidies(t: string)
    requires forall c | c in t :: Typable(c)
    ensures Digits(Take(WithoutCommas(t), MICRO))
  {
    var all := WithoutCommas(t);
    forall j | 0 <= j < |all| ensures IsDigit(all[j]) { assert all[j] in all; }
  }

  lemma InputTidies(s: string)
    ensures Tidy(GermanMoneyInput(s))
  {
    hide WithoutCommas, Sanitized;
    var sanitized := Sanitized(s);
    var i := CommaAt(sanitized);
    forall j | 0 <= j < i ensures IsDigit(sanitized[j]) { assert sanitized[j] in sanitized; }
    if i < |sanitized| {
      FractionTidies(sanitized[i + 1..]);
      NoComma(sanitized[..i]);
      CommaAfter(sanitized[..i], Take(WithoutCommas(sanitized[i + 1..]), MICRO));
    }
  }

  lemma TidyIsTypable(s: string)
    requires Tidy(s)
    ensures forall c | c in s :: Typable(c)
  {
    var i := CommaAt(s);
    forall j | 0 <= j < |s| ensures Typable(s[j]) {
      assert j < i ==> s[j] == s[..i][j];
      assert j > i ==> s[j] == s[i + 1..][j - i - 1];
    }
  }

  lemma TidyStays(s: string)
    requires Tidy(s)
    ensures GermanMoneyInput(s) == s
  {
    hide WithoutCommas, Sanitized, Typable;
    TidyIsTypable(s);
    SanitizedSame(s);
    var i := CommaAt(s);
    if i < |s| {
      NoComma(s[i + 1..]);
      WithoutCommasSame(s[i + 1..]);
      assert s == s[..i] + "," + s[i + 1..];
    }
  }

  /** The field leaves alone exactly what is tidy, so correcting twice is correcting once. */
  lemma InputFixedPoints(s: string)
    ensures GermanMoneyInput(s) == s <==> Tidy(s)
    ensures GermanMoneyInput(GermanMoneyInput(s)) == GermanMoneyInput(s)
  {
    hide Tidy, GermanMoneyInput;
    InputTidies(s);
    TidyStays(GermanMoneyInput(s));
    if Tidy(s) { TidyStays(s); }
  }

  /** It never touches an amount that would be accepted. */
  lemma ParseableStays(s: string)
    requires ParseGermanUsd(s).Some?
    ensures GermanMoneyInput(s) == s
  {
    hide Value, Print, Pow10, PadEnd;
    TidyStays(s);
  }

  // ---------- the form ----------

  /** The configuration as the response states it; counts and limits may be missing. */
  datatype OperatorState = OperatorState(
    allowedPackIds: seq<string>,
    requestedOrders: Option<nat>, maxBoostersPerCycle: Option<nat>, intervalMinutes: Option<nat>,
    maxUnitPrice: Option<string>, maxCycleBudget: Option<string>, max24HourBudget: Option<string>)

  datatype FormState = FormState(
    allowedPackIds: seq<string>, requestedOrders: string, maxBoostersPerCycle: string, intervalMinutes: string,
    maxUnitPrice: string, maxCycleBudget: string, max24HourBudget: string, note: string)

  /** What the two snapshots print; a form that does not parse prints itself. */
  datatype Snapshot =
    | Valid(
        allowedPackIds: seq<string>,
        requestedOrders: Option<nat>, maxBoostersPerCycle: Option<nat>, intervalMinutes: Option<nat>,
        maxUnitPrice: Option<string>, maxCycleBudget: Option<string>, max24HourBudget: Option<string>)
    | Broken(form: FormState)

  function Or(count: Option<nat>, fallback: nat): nat { if count.Some? then count.value else fallback }

  function FormFromState(state: OperatorState): FormState {
    FormState(
      state.allowedPackIds, Print(Or(state.requestedOrders, 0)), Print(Or(state.maxBoostersPerCycle, 1)),
      Print(Or(state.intervalMinutes, 20)), GermanMoneyFormValue(state.maxUnitPrice),
      GermanMoneyFormValue(state.maxCycleBudget), GermanMoneyFormValue(state.max24HourBudget), "")
  }

  /** `Number` of a count, as far as the form fills it in. */
  function NumberOf(s: string): nat { if Digits(s) then Value(s) else 0 }

  function SnapshotFromForm(sort: seq<string> -> seq<string>, form: FormState): Snapshot {
    var price, cycle, day := ParseGermanUsd(form.maxUnitPrice), ParseGermanUsd(form.maxCycleBudget),
                             ParseGermanUsd(form.max24HourBudget);
    if price.None? || cycle.None? || day.None? then Broken(form)
    else
      Valid(sort(form.allowedPackIds), Some(NumberOf(form.requestedOrders)),
            Some(NumberOf(form.maxBoostersPerCycle)), Some(NumberOf(form.intervalMinutes)), price, cycle, day)
  }

  function SnapshotFromState(sort: seq<string> -> seq<string>, state: OperatorState): Snapshot {
    Valid(sort(state.allowedPackIds), state.requestedOrders, state.maxBoostersPerCycle, state.intervalMinutes,
          state.maxUnitPrice, state.maxCycleBudget, state.max24HourBudget)
  }

  predicate IsSet(limit: Option<string>) { limit.Some? && Canonical(limit.value) }

  lemma LimitThroughForm(limit: Option<string>)
    ensures ParseGermanUsd(GermanMoneyFormValue(limit)) == if IsSet(limit) then limit else None
    ensures IsSet(limit) ==> limit.Some?
  {
    hide Value, Print, Pow10, Fraction, PadEnd;
    if IsSet(limit) {
      FormRoundTrip(limit.value);
    }
  }

  lemma NumberBack(n: nat)
    ensures NumberOf(Print(n)) == n
  {
    ValueOfPrint(n);
  }

  predicate CountsPresent(state: OperatorState) {
    state.requestedOrders.Some? && state.maxBoostersPerCycle.Some? && state.intervalMinutes.Some?
  }

  predicate LimitsSet(state: OperatorState) {
    IsSet(state.maxUnitPrice) && IsSet(state.maxCycleBudget) && IsSet(state.max24HourBudget)
  }

  /**
    A form just filled in from the stored configuration shows no unsaved changes exactly when all
    three limits are set and no count is missing: the form fills a missing one in, the snapshot does
    not.
   */
  lemma NoFalseChanges(sort: seq<string> -> seq<string>, state: OperatorState)
    ensures SnapshotFromForm(sort, FormFromState(state)) == SnapshotFromState(sort, state)
      <==> LimitsSet(state) && CountsPresent(state)
  {
    hide ParseGermanUsd, GermanMoneyFormValue, IsSet, NumberOf, Print;
    LimitThroughForm(state.maxUnitPrice);
    LimitThroughForm(state.maxCycleBudget);
    LimitThroughForm(state.max24HourBudget);
    NumberBack(Or(state.requestedOrders, 0));
    NumberBack(Or(state.maxBoostersPerCycle, 1));
    NumberBack(Or(state.intervalMinutes, 20));
  }

  /** A limit that is not set, or a count that is missing, is enough for unsaved changes. */
  lemma FalseChanges(sort: seq<string> -> seq<string>)
    ensures exists state ::
      !LimitsSet(state) && CountsPresent(state)
      && SnapshotFromForm(sort, FormFromState(state)) != SnapshotFromState(sort, state)
    ensures exists state ::
      LimitsSet(state) && !CountsPresent(state)
      && SnapshotFromForm(sort, FormFromState(state)) != SnapshotFromState(sort, state)
  {
    hide SnapshotFromForm, SnapshotFromState, FormFromState;
    var unset := OperatorState([], Some(0), Some(1), Some(20), None, Some("1"), Some("1"));
    var missing := OperatorState([], None, Some(1), Some(20), Some("1"), Some("1"), Some("1"));
    NoFalseChanges(sort, unset);
    NoFalseChanges(sort, missing);
  }
}
