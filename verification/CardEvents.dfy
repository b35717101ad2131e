/** Merging observations of cards: one event per identity, the newest, in order of first appearance. */
module CardEvents {
  import opened Collating
  import opened Decimal
  import opened Wrappers

  /** `rest` stands for the members merging never looks at; `observedAt` is in milliseconds. */
  datatype CardEvent = CardEvent(
    cycleId: string, operationId: string, packIndex: nat, memo: Option<string>, mint: Option<string>,
    observedAt: int, sequence: string, rest: seq<string>)

  // ---------- identity ----------

  function OperationIdentityKey(e: CardEvent): string {
    e.cycleId + " " + e.operationId + " " + Print(e.packIndex)
  }

  predicate SameIdentity(a: CardEvent, b: CardEvent) {
    a.cycleId == b.cycleId && a.operationId == b.operationId && a.packIndex == b.packIndex
  }

  lemma {:induction false} PrintHasNoSpace(n: nat)
    ensures ' ' !in Print(n)
  {
    if n >= 10 {
      PrintHasNoSpace(n / 10);
    }
  }

  lemma SpaceAfter(t: string, a: string, x: string)
    requires ' ' !in a && t == a + " " + x
    ensures |a| < |t| && t[|a|] == ' ' && t[..|a|] == a && t[|a| + 1..] == x
    ensures forall i | 0 <= i < |a| :: t[i] != ' '
  {
  }

  lemma SpaceBefore(t: string, x: string, a: string)
    requires ' ' !in a && t == x + " " + a
    ensures |x| < |t| && t[|x|] == ' ' && t[..|x|] == x && t[|x| + 1..] == a
    ensures forall i | |x| < i < |t| :: t[i] != ' '
  {
    forall i | |x| < i < |t| ensures t[i] != ' ' {
      assert t[i] == a[i - |x| - 1];
    }
  }

  predicate SameKey(a: CardEvent, b: CardEvent) { OperationIdentityKey(a) == OperationIdentityKey(b) }

  /** The key ends in a number, so equal keys agree in it and in what stands before it. */
  lemma KeyEnd(a: CardEvent, b: CardEvent)
    requires SameKey(a, b)
    ensures a.packIndex == b.packIndex
    ensures a.cycleId + " " + a.operationId == b.cycleId + " " + b.operationId
  {
    PrintHasNoSpace(a.packIndex);
    PrintHasNoSpace(b.packIndex);
    var key := OperationIdentityKey(a);
    SpaceBefore(key, a.cycleId + " " + a.operationId, Print(a.packIndex));
    SpaceBefore(key, b.cycleId + " " + b.operationId, Print(b.packIndex));
    PrintInjective(a.packIndex, b.packIndex);
  }

  /** The key separates identities whose cycle ids hold no space; the operation ids may. */
  lemma KeySeparates(a: CardEvent, b: CardEvent)
    requires ' ' !in a.cycleId && ' ' !in b.cycleId
    ensures SameKey(a, b) <==> SameIdentity(a, b)
  {
    if SameKey(a, b) {
      KeyEnd(a, b);
      var front := a.cycleId + " " + a.operationId;
      SpaceAfter(front, a.cycleId, a.operationId);
      SpaceAfter(front, b.cycleId, b.operationId);
    }
  }

  /** With one space only there is one way to read the key. */
  lemma PlainKeyIsOwn(a: CardEvent, b: CardEvent)
    requires ' ' !in a.cycleId && ' ' !in a.operationId && SameKey(a, b)
    ensures SameIdentity(a, b)
  {
    KeyEnd(a, b);
    var front := a.cycleId + " " + a.operationId;
    SpaceAfter(front, a.cycleId, a.operationId);
    SpaceBefore(front, a.cycleId, a.operationId);
    assert front[|b.cycleId|] == ' ' && front[..|b.cycleId|] == b.cycleId;
    assert front[|b.cycleId| + 1..] == b.operationId;
  }

  lemma SplitAt(s: string, i: nat)
    requires i < |s| && s[i] == ' '
    ensures s == s[..i] + " " + s[i + 1..]
  {
  }

  /** Read at another space, a key belongs to a second identity. */
  lemma TwinCollides(a: CardEvent)
    requires ' ' in a.cycleId || ' ' in a.operationId
    ensures exists b: CardEvent :: SameKey(a, b) && !SameIdentity(a, b)
  {
    var front := a.cycleId + " " + a.operationId;
    if ' ' in a.cycleId {
      var i: nat :| i < |a.cycleId| && a.cycleId[i] == ' ';
      SplitAt(a.cycleId, i);
      var b := a.(cycleId := a.cycleId[..i], operationId := a.cycleId[i + 1..] + " " + a.operationId);
      assert front == b.cycleId + " " + b.operationId;
      assert |b.cycleId| < |a.cycleId|;
      assert SameKey(a, b) && !SameIdentity(a, b);
    } else {
      var i: nat :| i < |a.operationId| && a.operationId[i] == ' ';
      SplitAt(a.operationId, i);
      var b := a.(cycleId := a.cycleId + " " + a.operationId[..i], operationId := a.operationId[i + 1..]);
      assert front == b.cycleId + " " + b.operationId;
      assert |b.cycleId| > |a.cycleId|;
      assert SameKey(a, b) && !SameIdentity(a, b);
    }
  }

  /** An identity shares its key with another one exactly if one of its two ids holds a space. */
  lemma KeyIsOwnIff(a: CardEvent)
    ensures (exists b: CardEvent :: SameKey(a, b) && !SameIdentity(a, b))
      <==> ' ' in a.cycleId || ' ' in a.operationId
  {
    if ' ' in a.cycleId || ' ' in a.operationId {
      TwinCollides(a);
    } else {
      forall b: CardEvent | SameKey(a, b) ensures SameIdentity(a, b) {
        PlainKeyIsOwn(a, b);
      }
    }
  }

  const MAX_TEXT_LENGTH := 512

  predicate IsBounded(s: string) { 1 <= |s| <= MAX_TEXT_LENGTH }

  /** The ids as a validated event has them. */
  predicate HasBoundedIds(e: CardEvent) { IsBounded(e.cycleId) && IsBounded(e.operationId) }

  /** The two ids as the key begins. */
  function Front(e: CardEvent): string { e.cycleId + " " + e.operationId }

  /** Another space than the one between the ids parts the front into two texts within the bounds. */
  predicate PartsElsewhere(e: CardEvent, i: int) {
    && 0 <= i < |Front(e)| && i != |e.cycleId|
    && Front(e)[i] == ' ' && IsBounded(Front(e)[..i]) && IsBounded(Front(e)[i + 1..])
  }

  lemma PartedCollides(a: CardEvent, i: nat)
    requires PartsElsewhere(a, i)
    ensures var b := a.(cycleId := Front(a)[..i], operationId := Front(a)[i + 1..]);
      HasBoundedIds(b) && SameKey(a, b) && !SameIdentity(a, b)
  {
    SplitAt(Front(a), i);
    var b := a.(cycleId := Front(a)[..i], operationId := Front(a)[i + 1..]);
    assert Front(b) == Front(a);
  }

  lemma CollisionParts(a: CardEvent, b: CardEvent)
    requires SameKey(a, b) && !SameIdentity(a, b) && HasBoundedIds(b)
    ensures PartsElsewhere(a, |b.cycleId|)
  {
    KeyEnd(a, b);
    var i := |b.cycleId|;
    assert Front(a) == Front(b) && Front(b)[i] == ' ';
    assert Front(b)[..i] == b.cycleId && Front(b)[i + 1..] == b.operationId;
  }

  /**
    Among validated events, whose ids have 1 to 512 characters, an identity shares its key exactly
    if its two ids can be parted at another space into two such ids.
   */
  lemma BoundedKeyIsOwnIff(a: CardEvent)
    ensures (exists b: CardEvent :: HasBoundedIds(b) && SameKey(a, b) && !SameIdentity(a, b))
      <==> exists i :: PartsElsewhere(a, i)
  {
    if i :| PartsElsewhere(a, i) {
      PartedCollides(a, i);
    }
    forall b: CardEvent | HasBoundedIds(b) && SameKey(a, b) && !SameIdentity(a, b)
      ensures exists i :: PartsElsewhere(a, i)
    {
      CollisionParts(a, b);
    }
  }

  /** A space at the edge of an id collides with nothing that is validated; one inside does. */
  lemma BoundsMatter()
    ensures exists a: CardEvent :: HasBoundedIds(a) && ' ' in a.cycleId && !exists i :: PartsElsewhere(a, i)
    ensures exists a: CardEvent :: HasBoundedIds(a) && exists i :: PartsElsewhere(a, i)
  {
    var edge := CardEvent(" x", "y", 0, None, None, 0, "", []);
    var inside := edge.(cycleId := "x z");
    assert edge.cycleId[0] == ' ' && Front(edge) == " x y" && Front(inside) == "x z y";
    forall i ensures !PartsElsewhere(edge, i) {
      assert i == 0 ==> Front(edge)[..i] == "";
    }
    assert Front(inside)[..1] == "x" && Front(inside)[2..] == "z y";
    assert HasBoundedIds(inside) && PartsElsewhere(inside, 1);
  }

  // ---------- merging ----------

  predicate IsNewerEvent(compare: Collation, candidate: CardEvent, current: CardEvent) {
    if candidate.observedAt != current.observedAt then candidate.observedAt > current.observedAt
    else compare(candidate.sequence, current.sequence) >= 0
  }

  predicate Agree(a: CardEvent, b: CardEvent) { a.memo == b.memo && a.mint == b.mint }

  /** The place of the event with this key, or the length. */
  function Place(table: seq<CardEvent>, e: CardEvent): (i: nat)
    ensures i <= |table|
    ensures i < |table| ==> SameKey(table[i], e)
    ensures forall j | 0 <= j < i :: !SameKey(table[j], e)
  {
    if table == [] || SameKey(table[0], e) then 0 else 1 + Place(table[1..], e)
  }

  function Add(compare: Collation, table: seq<CardEvent>, e: CardEvent): Option<seq<CardEvent>> {
    var i := Place(table, e);
    if i == |table| then Some(table + [e])
    else if !Agree(table[i], e) then None
    else if IsNewerEvent(compare, e, table[i]) then Some(table[i := e])
    else Some(table)
  }

  function AddAll(compare: Collation, table: seq<CardEvent>, events: seq<CardEvent>): Option<seq<CardEvent>>
    decreases |events|
  {
    if events == [] then Some(table)
    else
      match Add(compare, table, events[0])
      case None => None
      case Some(next) => AddAll(compare, next, events[1..])
  }

  function Merge(compare: Collation, events: seq<CardEvent>): Option<seq<CardEvent>> {
    AddAll(compare, [], events)
  }

  predicate DistinctKeys(table: seq<CardEvent>) {
    forall i, j | 0 <= i < j < |table| :: !SameKey(table[i], table[j])
  }

  /** The `Map` of the source and the order in which its keys were first set hold this table. */
  ghost predicate Holds(byIdentity: map<string, CardEvent>, order: seq<string>, table: seq<CardEvent>) {
    && |order| == |table|
    && (forall i | 0 <= i < |table| :: order[i] == OperationIdentityKey(table[i]))
    && (forall key :: key in byIdentity <==> key in order)
    && (forall i | 0 <= i < |order| :: byIdentity[order[i]] == table[i])
    && DistinctKeys(table)
  }

  lemma Found(byIdentity: map<string, CardEvent>, order: seq<string>, table: seq<CardEvent>, e: CardEvent)
    requires Holds(byIdentity, order, table)
    ensures OperationIdentityKey(e) in byIdentity <==> Place(table, e) < |table|
    ensures OperationIdentityKey(e) in byIdentity ==>
      table[Place(table, e)] == byIdentity[OperationIdentityKey(e)]
  {
    hide OperationIdentityKey;
    var key := OperationIdentityKey(e);
    if key in byIdentity {
      var i :| 0 <= i < |order| && order[i] == key;
      assert SameKey(table[i], e);
    }
    assert Place(table, e) < |table| ==> order[Place(table, e)] in order;
  }

  lemma Appended(byIdentity: map<string, CardEvent>, order: seq<string>, table: seq<CardEvent>, e: CardEvent)
    requires Holds(byIdentity, order, table) && OperationIdentityKey(e) !in byIdentity
    ensures var key := OperationIdentityKey(e); Holds(byIdentity[key := e], order + [key], table + [e])
  {
    hide OperationIdentityKey;
    Found(byIdentity, order, table, e);
  }

  lemma Replaced(byIdentity: map<string, CardEvent>, order: seq<string>, table: seq<CardEvent>, e: CardEvent)
    requires Holds(byIdentity, order, table) && OperationIdentityKey(e) in byIdentity
    ensures Place(table, e) < |table|
    ensures Holds(byIdentity[OperationIdentityKey(e) := e], order, table[Place(table, e) := e])
  {
    hide OperationIdentityKey;
    Found(byIdentity, order, table, e);
  }

  method MergeCardEvents(compare: Collation, events: seq<CardEvent>) returns (r: Option<seq<CardEvent>>)
    ensures r == Merge(compare, events)
  {
    var byIdentity: map<string, CardEvent> := map[];
    var order: seq<string> := [];
    ghost var table: seq<CardEvent> := [];
    var n := 0;
    while n < |events|
      invariant 0 <= n <= |events|
      invariant Merge(compare, events) == AddAll(compare, table, events[n..])
      invariant Holds(byIdentity, order, table)
    {
      hide Holds, OperationIdentityKey, IsNewerEvent;
      var event := events[n];
      var key := OperationIdentityKey(event);
      assert events[n..][0] == event && events[n..][1..] == events[n + 1..];
      Found(byIdentity, order, table, event);
      if key !in byIdentity {
        Appended(byIdentity, order, table, event);
        byIdentity := byIdentity[key := event];
        order := order + [key];
        table := table + [event];
      } else {
        var current := byIdentity[key];
        if !Agree(current, event) { return None; }
        if IsNewerEvent(compare, event, current) {
          Replaced(byIdentity, order, table, event);
          byIdentity := byIdentity[key := event];
          table := table[Place(table, event) := event];
        }
      }
      n := n + 1;
    }
    assert events[n..] == [];
    var values := seq(|order|, i requires 0 <= i < |order| && order[i] in byIdentity => byIdentity[order[i]]);
    assert values == table;
    return Some(values);
  }

  // ---------- an incremental fold ----------

  lemma AddDistinct(compare: Collation, table: seq<CardEvent>, e: CardEvent)
    requires DistinctKeys(table) && Add(compare, table, e).Some?
    ensures DistinctKeys(Add(compare, table, e).value)
  {
  }

  lemma {:induction false} AddAllDistinct(compare: Collation, table: seq<CardEvent>, events: seq<CardEvent>)
    requires DistinctKeys(table) && AddAll(compare, table, events).Some?
    ensures DistinctKeys(AddAll(compare, table, events).value)
    decreases |events|
  {
    if events != [] {
      AddDistinct(compare, table, events[0]);
      AddAllDistinct(compare, Add(compare, table, events[0]).value, events[1..]);
    }
  }

  lemma {:induction false} AddAllSplit(compare: Collation, table: seq<CardEvent>, a: seq<CardEvent>, b: seq<CardEvent>)
    ensures AddAll(compare, table, a + b)
      == match AddAll(compare, table, a) case None => None case Some(t) => AddAll(compare, t, b)
    decreases |a|
  {
    if a == [] {
      assert a + b == b;
    } else {
      assert (a + b)[1..] == a[1..] + b && (a + b)[0] == a[0];
      if Add(compare, table, a[0]).Some? {
        AddAllSplit(compare, Add(compare, table, a[0]).value, a[1..], b);
      }
    }
  }

  lemma {:induction false} AddAllAppends(compare: Collation, table: seq<CardEvent>, more: seq<CardEvent>)
    requires DistinctKeys(table + more)
    ensures AddAll(compare, table, more) == Some(table + more)
    decreases |more|
  {
    if more == [] {
      assert table + more == table;
    } else {
      forall i | 0 <= i < |table| ensures !SameKey(table[i], more[0]) {
        assert (table + more)[i] == table[i] && (table + more)[|table|] == more[0];
      }
      assert table + [more[0]] + more[1..] == table + more;
      AddAllAppends(compare, table + [more[0]], more[1..]);
    }
  }

  /** Merging again changes nothing. */
  lemma MergeIdempotent(compare: Collation, events: seq<CardEvent>)
    requires Merge(compare, events).Some?
    ensures Merge(compare, Merge(compare, events).value) == Merge(compare, events)
  {
    AddAllDistinct(compare, [], events);
    var table := Merge(compare, events).value;
    assert [] + table == table;
    AddAllAppends(compare, [], table);
  }

  /** Merging can be done in instalments: what has been merged stands for all it was merged from. */
  lemma MergeIncremental(compare: Collation, a: seq<CardEvent>, b: seq<CardEvent>)
    ensures Merge(compare, a + b)
      == match Merge(compare, a) case None => None case Some(merged) => Merge(compare, merged + b)
  {
    AddAllSplit(compare, [], a, b);
    if Merge(compare, a).Some? {
      MergeIdempotent(compare, a);
      AddAllSplit(compare, [], Merge(compare, a).value, b);
    }
  }

  // ---------- what is kept ----------

  predicate AllAgree(events: seq<CardEvent>) {
    forall i, j | 0 <= i < j < |events| :: SameKey(events[i], events[j]) ==> Agree(events[i], events[j])
  }

  /** `events[k]` beats every other observation of its identity, the last one winning ties. */
  predicate Latest(compare: Collation, events: seq<CardEvent>, k: nat)
    requires k < |events|
  {
    && (forall j | 0 <= j <= k :: SameKey(events[j], events[k]) ==> IsNewerEvent(compare, events[k], events[j]))
    && (forall j | k < j < |events| :: SameKey(events[j], events[k]) ==> !IsNewerEvent(compare, events[j], events[k]))
  }

  /** The keys in order of first appearance. */
  function FirstKeys(events: seq<CardEvent>): seq<string> {
    if events == [] then []
    else
      var before, key := FirstKeys(events[..|events| - 1]), OperationIdentityKey(events[|events| - 1]);
      if key in before then before else before + [key]
  }

  predicate IsLatest(compare: Collation, events: seq<CardEvent>, e: CardEvent) {
    exists k :: 0 <= k < |events| && events[k] == e && Latest(compare, events, k)
  }

  function Keys(table: seq<CardEvent>): seq<string> {
    seq(|table|, i requires 0 <= i < |table| => OperationIdentityKey(table[i]))
  }

  /** The table after these events. */
  predicate Describes(compare: Collation, table: seq<CardEvent>, events: seq<CardEvent>) {
    Keys(table) == FirstKeys(events) && forall e | e in table :: IsLatest(compare, events, e)
  }

  lemma {:induction false} FirstKeysAreAll(events: seq<CardEvent>, k: nat)
    requires k < |events|
    ensures OperationIdentityKey(events[k]) in FirstKeys(events)
  {
    if k < |events| - 1 {
      FirstKeysAreAll(events[..|events| - 1], k);
    }
  }

  lemma NewerOrder(compare: Collation, a: CardEvent, b: CardEvent, c: CardEvent)
    requires TotalPreorder(compare)
    ensures IsNewerEvent(compare, a, a)
    ensures IsNewerEvent(compare, a, b) || IsNewerEvent(compare, b, a)
    ensures IsNewerEvent(compare, a, b) && IsNewerEvent(compare, b, c) ==> IsNewerEvent(compare, a, c)
  {
    hide TotalPreorder;
    Total(compare, a.sequence, b.sequence, c.sequence);
  }

  /** What was latest stays so when an event of another identity follows. */
  lemma LatestStays(compare: Collation, before: seq<CardEvent>, e: CardEvent, kept: CardEvent)
    requires IsLatest(compare, before, kept)
    requires !SameKey(kept, e) || !IsNewerEvent(compare, e, kept)
    ensures IsLatest(compare, before + [e], kept)
  {
    hide OperationIdentityKey, IsNewerEvent;
    var k :| 0 <= k < |before| && before[k] == kept && Latest(compare, before, k);
    assert (before + [e])[k] == kept && Latest(compare, before + [e], k);
  }

  lemma NewestIsLatest(compare: Collation, before: seq<CardEvent>, e: CardEvent, kept: CardEvent)
    requires TotalPreorder(compare) && IsLatest(compare, before, kept) && SameKey(kept, e)
    requires IsNewerEvent(compare, e, kept)
    ensures IsLatest(compare, before + [e], e)
  {
    hide OperationIdentityKey, IsNewerEvent, TotalPreorder;
    var k :| 0 <= k < |before| && before[k] == kept && Latest(compare, before, k);
    var events := before + [e];
    forall j | 0 <= j < |events| && SameKey(events[j], e) ensures IsNewerEvent(compare, e, events[j]) {
      NewerOrder(compare, e, kept, events[j]);
      NewerOrder(compare, kept, events[j], e);
      if j < |before| { assert events[j] == before[j]; }
    }
    assert events[|before|] == e && Latest(compare, events, |before|);
  }

  lemma FirstIsLatest(compare: Collation, before: seq<CardEvent>, e: CardEvent)
    requires TotalPreorder(compare)
    requires forall j | 0 <= j < |before| :: !SameKey(before[j], e)
    ensures IsLatest(compare, before + [e], e)
  {
    hide OperationIdentityKey, IsNewerEvent, TotalPreorder;
    NewerOrder(compare, e, e, e);
    var events := before + [e];
    assert events[|before|] == e && Latest(compare, events, |before|);
  }

  lemma MergeLast(compare: Collation, before: seq<CardEvent>, e: CardEvent)
    ensures Merge(compare, before + [e])
      == match Merge(compare, before) case None => None case Some(table) => Add(compare, table, e)
  {
    hide Add;
    AddAllSplit(compare, [], before, [e]);
    if Merge(compare, before).Some? {
      var next := Add(compare, Merge(compare, before).value, e);
      assert [e][1..] == [];
    }
  }

  /** Whether the table knows the key is whether it has appeared. */
  lemma KnownKey(compare: Collation, table: seq<CardEvent>, before: seq<CardEvent>, e: CardEvent)
    requires Describes(compare, table, before)
    ensures (Place(table, e) == |table|) <==> OperationIdentityKey(e) !in FirstKeys(before)
    ensures Place(table, e) == |table| ==> forall j | 0 <= j < |before| :: !SameKey(before[j], e)
  {
    hide OperationIdentityKey, IsLatest;
    forall j | 0 <= j < |before| ensures OperationIdentityKey(before[j]) in FirstKeys(before) {
      FirstKeysAreAll(before, j);
    }
    var key, keys := OperationIdentityKey(e), Keys(table);
    if key in keys {
      var i :| 0 <= i < |keys| && keys[i] == key;
      assert SameKey(table[i], e);
    }
    assert Place(table, e) < |table| ==> keys[Place(table, e)] == key;
  }

  lemma AgreeExtends(compare: Collation, table: seq<CardEvent>, before: seq<CardEvent>, e: CardEvent)
    requires Describes(compare, table, before) && AllAgree(before)
    ensures AllAgree(before + [e]) <==> Place(table, e) == |table| || Agree(table[Place(table, e)], e)
  {
    hide OperationIdentityKey, FirstKeys, Latest;
    KnownKey(compare, table, before, e);
    var events := before + [e];
    if Place(table, e) < |table| {
      var kept := table[Place(table, e)];
      assert kept in table && IsLatest(compare, before, kept);
      var k :| 0 <= k < |before| && before[k] == kept && Latest(compare, before, k);
      assert events[k] == kept && events[|before|] == e;
      if Agree(kept, e) {
        forall j | 0 <= j < |before| && SameKey(before[j], e) ensures Agree(before[j], e) {
          assert SameKey(before[j], before[k]);
        }
        assert forall i, j | 0 <= i < j < |events| ::
          SameKey(events[i], events[j]) ==> Agree(events[i], events[j]);
      }
    } else {
      assert forall i | 0 <= i < |before| :: events[i] == before[i];
    }
    assert AllAgree(events) ==> forall i, j | 0 <= i < j < |before| :: events[i] == before[i] && events[j] == before[j];
  }

  lemma DescribesExtends(compare: Collation, table: seq<CardEvent>, before: seq<CardEvent>, e: CardEvent)
    requires TotalPreorder(compare) && Describes(compare, table, before) && DistinctKeys(table)
    requires Add(compare, table, e).Some?
    ensures Describes(compare, Add(compare, table, e).value, before + [e])
  {
    hide OperationIdentityKey, IsNewerEvent, IsLatest, Latest, TotalPreorder;
    KnownKey(compare, table, before, e);
    var i := Place(table, e);
    var after := Add(compare, table, e).value;
    assert (before + [e])[..|before|] == before;
    if i == |table| {
      FirstIsLatest(compare, before, e);
      assert Keys(after) == Keys(table) + [OperationIdentityKey(e)];
    } else {
      assert Keys(after) == Keys(table);
      assert table[i] in table;
      if IsNewerEvent(compare, e, table[i]) {
        NewestIsLatest(compare, before, e, table[i]);
      } else {
        LatestStays(compare, before, e, table[i]);
      }
    }
    forall j | 0 <= j < |table| && j != i ensures IsLatest(compare, before + [e], table[j]) {
      assert table[j] in table && !SameKey(table[j], e);
      LatestStays(compare, before, e, table[j]);
    }
  }

  /**
    Merging succeeds exactly when observations of one identity agree on memo and mint, and then
    keeps of each identity the newest observation, the last one on a tie, in the order in which the
    identities first appeared.
   */
  lemma {:induction false} MergeKeepsLatest(compare: Collation, events: seq<CardEvent>)
    requires TotalPreorder(compare)
    ensures Merge(compare, events).Some? <==> AllAgree(events)
    ensures Merge(compare, events).Some? ==> Describes(compare, Merge(compare, events).value, events)
    decreases |events|
  {
    hide TotalPreorder, IsLatest, Add, OperationIdentityKey;
    if events != [] {
      var before, e := events[..|events| - 1], events[|events| - 1];
      assert events == before + [e];
      MergeKeepsLatest(compare, before);
      MergeLast(compare, before, e);
      if Merge(compare, before).Some? {
        var table := Merge(compare, before).value;
        AddAllDistinct(compare, [], before);
        AgreeExtends(compare, table, before, e);
        AddSucceeds(compare, table, e);
        if Add(compare, table, e).Some? {
          DescribesExtends(compare, table, before, e);
        }
      } else {
        assert forall i | 0 <= i < |before| :: events[i] == before[i];
      }
    }
  }

  lemma AddSucceeds(compare: Collation, table: seq<CardEvent>, e: CardEvent)
    ensures Add(compare, table, e).Some? <==> Place(table, e) == |table| || Agree(table[Place(table, e)], e)
  {
  }
}
