/** `localeCompare`: it orders texts, though it may take different ones for equal. */
module Collating {

  type Collation = (string, string) -> int

  ghost predicate TotalPreorder(compare: Collation) {
    && (forall a: string, b: string :: compare(a, b) < 0 <==> compare(b, a) > 0)
    && (forall a: string, b: string, c: string ::
          compare(a, b) <= 0 && compare(b, c) <= 0 ==> compare(a, c) <= 0)
  }

  lemma Total(compare: Collation, a: string, b: string, c: string)
    requires TotalPreorder(compare)
    ensures compare(a, a) >= 0 && (compare(a, b) >= 0 || compare(b, a) >= 0)
    ensures compare(a, b) >= 0 && compare(b, c) >= 0 ==> compare(a, c) >= 0
    ensures compare(a, b) < 0 && compare(b, c) <= 0 ==> compare(a, c) < 0
    ensures compare(a, b) <= 0 && compare(b, c) < 0 ==> compare(a, c) < 0
  {
    assert compare(c, b) <= 0 && compare(b, a) <= 0 ==> compare(c, a) <= 0;
    assert compare(b, c) <= 0 && compare(c, a) <= 0 ==> compare(b, a) <= 0;
    assert compare(c, a) <= 0 && compare(a, b) <= 0 ==> compare(c, b) <= 0;
    assert compare(a, c) < 0 <==> compare(c, a) > 0;
  }
}
