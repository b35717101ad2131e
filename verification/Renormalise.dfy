/**
  Reading what has been read: when a second reader accepts the output of a first one, and that it
  then returns it unchanged.  With one kind for both this is idempotence, with two kinds it is the
  upgrade of an older schema to a newer one.
 */
module Renormalise {
  import opened Schema
  import opened Wrappers

  /** Whatever leaf `a` returns is returned unchanged by leaf `b`, if it is short enough for it. */
  predicate LeafFollows(a: Leaf, b: Leaf) {
    if a.Emit? then b.Emit? && a.given == b.taken == b.given
    else a == b || (a == AnyMoney && b == Money) || (a.OneOf? && b.TextIn? && a.names <= b.texts)
  }

  /** Never returns `undefined`. */
  predicate Definite(k: Kind) { k.Is? && !k.leaf.Emit? && !k.leaf.TextIn? }

  predicate Follows(a: Kind, b: Kind)
  {
    match (a, b)
    case (Is(x), Is(y)) => LeafFollows(x, y)
    case (Is(x), Nullable(_)) => x == AlwaysNull
    case (Nullable(x), Nullable(y)) => Follows(x, y)
    case (Maybe(x), Maybe(y)) => Definite(x) && Follows(x, y)
    case (Maybe(x), Nullable(y)) => Follows(x, y)
    case (List(m, x), List(n, y)) => m <= n && Follows(x, y)
    case (Record(ms, _, _, cs), Record(ns, allowed, required, ds)) =>
      && ms.Keys == ns.Keys
      && ns.Keys <= allowed
      && required <= AlwaysKeys(ns)
      && (forall key | key in ms :: (ms[key].Req? <==> ns[key].Req?) && Follows(ms[key].kind, ns[key].kind))
      && (forall d | d in ds :: d in cs)
    case _ => false
  }

  /**
    The only ways an output of `a` can be too long for `b`: a printed URL, and an amount that was
    derived rather than read.
   */
  predicate Fits(a: Kind, b: Kind, w: Js)
  {
    match (a, b)
    case (Is(x), Is(y)) =>
      && (y == ImageUrl && w.Str? ==> 1 <= |w.s| <= MAX_TEXT)
      && (x == AnyMoney && y == Money && w.Str? ==> |w.s| <= MAX_DIGITS)
    case (Nullable(x), Nullable(y)) => w == Null || Fits(x, y, w)
    case (Maybe(x), Maybe(y)) => w == Null || Fits(x, y, w)
    case (Maybe(x), Nullable(y)) => w == Null || Fits(x, y, w)
    case (List(_, x), List(_, y)) => w.Arr? ==> forall v | v in w.items :: Fits(x, y, v)
    case (Record(ms, _, _, _), Record(ns, _, _, _)) =>
      w.Obj? ==>
        forall key | key in ms && key in ns && key in w.fields ::
          Fits(ms[key].kind, ns[key].kind, w.fields[key])
    case _ => true
  }

  /** `b` returns `w`, an output of `a`, unchanged if it fits, and otherwise rejects it. */
  ghost predicate Settles(h: Host, a: Kind, b: Kind, w: Js) {
    Read(h, b, w) == if Fits(a, b, w) then Some(w) else None
  }

  // ---------- the theorem ----------

  lemma LeafSettles(h: Host, a: Leaf, b: Leaf, v: Js)
    requires Sane(h) && LeafFollows(a, b) && Accepts(h, a, v)
    ensures Settles(h, Is(a), Is(b), Given(h, a, v))
  {
    if a == ImageUrl {
      assert UrlStays(h, v.s);
    } else if a.OneOf? {
      assert h.text(Str(v.s)) == v.s;
    }
  }

  lemma NullSettles(h: Host, x: Kind, y: Kind)
    ensures Settles(h, Nullable(x), Nullable(y), Null)
    ensures Settles(h, Maybe(x), Maybe(y), Null) && Settles(h, Maybe(x), Nullable(y), Null)
    ensures Settles(h, Is(AlwaysNull), Nullable(y), Null)
  {
  }

  lemma SomeSettles(h: Host, x: Kind, y: Kind, w: Js)
    requires Settles(h, x, y, w)
    ensures Settles(h, Nullable(x), Nullable(y), w) && Settles(h, Maybe(x), Nullable(y), w)
    ensures w != Undefined ==> Settles(h, Maybe(x), Maybe(y), w)
  {
  }

  lemma DefiniteResult(h: Host, k: Kind, v: Js)
    requires Definite(k) && Read(h, k, v).Some?
    ensures Read(h, k, v).value != Undefined
  {
  }

  lemma {:induction false} ReadSettles(h: Host, a: Kind, b: Kind, v: Js)
    requires Sane(h) && Follows(a, b) && Read(h, a, v).Some?
    ensures Settles(h, a, b, Read(h, a, v).value)
    decreases a, 1
  {
    hide Accepts, Given, Passes, ReadItems, Settles, Fits, Definite;
    match (a, b)
    case (Is(x), Is(y)) => LeafReads(h, x, v); LeafSettles(h, x, y, v);
    case (Is(x), Nullable(y)) => LeafReads(h, x, v); NullSettles(h, a, y);
    case (Nullable(x), Nullable(y)) =>
      NullSettles(h, x, y);
      if v != Null {
        ReadSettles(h, x, y, v);
        SomeSettles(h, x, y, Read(h, x, v).value);
      }
    case (Maybe(x), Maybe(y)) =>
      NullSettles(h, x, y);
      if v != Null && v != Undefined {
        DefiniteResult(h, x, v);
        ReadSettles(h, x, y, v);
        SomeSettles(h, x, y, Read(h, x, v).value);
      }
    case (Maybe(x), Nullable(y)) =>
      NullSettles(h, x, y);
      if v != Null && v != Undefined {
        ReadSettles(h, x, y, v);
        SomeSettles(h, x, y, Read(h, x, v).value);
      }
    case (List(_, _), List(_, _)) => ListSettles(h, a, b, v);
    case (Record(_, _, _, _), Record(_, _, _, _)) => RecordSettles(h, a, b, v);
  }

  lemma LeafReads(h: Host, leaf: Leaf, v: Js)
    requires Read(h, Is(leaf), v).Some?
    ensures Accepts(h, leaf, v) && Read(h, Is(leaf), v) == Some(Given(h, leaf, v))
    ensures leaf == AlwaysNull ==> Read(h, Is(leaf), v) == Some(Null)
  {
  }

  lemma ListSettles(h: Host, a: Kind, b: Kind, v: Js)
    requires Sane(h) && Follows(a, b) && a.List? && b.List? && Read(h, a, v).Some?
    ensures Settles(h, a, b, Read(h, a, v).value)
    decreases a, 0
  {
    hide Accepts, Given, Passes, Sane;
    ItemsSettle(h, a.item, b.item, v.items);
  }

  lemma {:induction false} ItemsSettle(h: Host, a: Kind, b: Kind, items: seq<Js>)
    requires Sane(h) && Follows(a, b) && ReadItems(h, a, items).Some?
    ensures var out := ReadItems(h, a, items).value;
      && |out| == |items|
      && ReadItems(h, b, out) == if forall x | x in out :: Fits(a, b, x) then Some(out) else None
    decreases a, 2 + |items|
  {
    hide Accepts, Given, Passes, Read, Follows, Fits, Sane;
    if items != [] {
      ReadSettles(h, a, b, items[0]);
      ItemsSettle(h, a, b, items[1..]);
      var first, rest := Read(h, a, items[0]).value, ReadItems(h, a, items[1..]).value;
      var out := ReadItems(h, a, items).value;
      assert out == [first] + rest && out[1..] == rest;
      assert (forall x | x in out :: Fits(a, b, x))
        <==> Fits(a, b, first) && forall x | x in rest :: Fits(a, b, x);
    }
  }

  lemma RecordSettles(h: Host, a: Kind, b: Kind, v: Js)
    requires Sane(h) && Follows(a, b) && a.Record? && b.Record? && Read(h, a, v).Some?
    ensures Settles(h, a, b, Read(h, a, v).value)
    decreases a, 0
  {
    hide Accepts, Given, Passes;
    var out := Read(h, a, v).value.fields;
    forall key | key in out
      ensures Settles(h, a.members[key].kind, b.members[key].kind, out[key])
    {
      ReadSettles(h, a.members[key].kind, b.members[key].kind, Get(v.fields, key));
    }
    FollowsParts(a, b);
    RecordAgain(h, a, b, out);
  }

  /** Records with the same members, where `b` lets every output of `a` through but for the members. */
  predicate SameShape(a: Kind, b: Kind) {
    && a.Record? && b.Record?
    && a.members.Keys == b.members.Keys <= b.allowed
    && b.required <= AlwaysKeys(b.members) == AlwaysKeys(a.members)
    && (forall key | key in a.members :: a.members[key].Req? <==> b.members[key].Req?)
    && (forall d | d in b.checks :: d in a.checks)
  }

  lemma RecordAgain(h: Host, a: Kind, b: Kind, out: map<Key, Js>)
    requires SameShape(a, b)
    requires AlwaysKeys(a.members) <= out.Keys <= a.members.Keys
    requires forall key | key in out :: Settles(h, a.members[key].kind, b.members[key].kind, out[key])
    requires forall c | c in a.checks :: Passes(h, c, out)
    ensures Settles(h, a, b, Obj(out))
  {
    hide Accepts, Given, Passes, Follows, Read, ReadItems, Fits, AlwaysKeys, Built;
    FitsParts(a, b, out);
    if Fits(a, b, Obj(out)) {
      ReadRecord(h, b, out);
    } else {
      var key :| key in a.members && key in b.members && key in out
        && !Fits(a.members[key].kind, b.members[key].kind, out[key]);
      ReadRecordNone(h, b, out, key);
    }
  }

  lemma FitsParts(a: Kind, b: Kind, out: map<Key, Js>)
    requires a.Record? && b.Record?
    ensures Fits(a, b, Obj(out)) <==>
      forall key | key in a.members && key in b.members && key in out ::
        Fits(a.members[key].kind, b.members[key].kind, out[key])
  {
  }

  /** A record whose members are all their own normal form is its own. */
  lemma ReadRecord(h: Host, b: Kind, out: map<Key, Js>)
    requires b.Record? && out.Keys <= b.allowed && b.required <= out.Keys
    requires AlwaysKeys(b.members) <= out.Keys <= b.members.Keys
    requires forall key | key in out :: Read(h, b.members[key].kind, out[key]) == Some(out[key])
    requires forall c | c in b.checks :: Passes(h, c, out)
    ensures Read(h, b, Obj(out)) == Some(Obj(out))
  {
    hide Accepts, Given, Passes, ReadItems;
    forall key | key in b.members ensures Built(b.members, out, key) <==> key in out {
      if b.members[key].Req? { assert key in AlwaysKeys(b.members); }
    }
    var again := map key | key in b.members && Built(b.members, out, key) ::
      Read(h, b.members[key].kind, Get(out, key)).value;
    assert again == out;
  }

  /** A record whose members are all read is read as the record of what they give. */
  lemma ReadBuilds(h: Host, k: Kind, source: map<Key, Js>, out: map<Key, Js>)
    requires k.Record? && source.Keys <= k.allowed && k.required <= source.Keys
    requires out.Keys <= k.members.Keys && forall key: Key :: key in out <==> Built(k.members, source, key)
    requires forall key | key in out :: Read(h, k.members[key].kind, Get(source, key)) == Some(out[key])
    requires forall c | c in k.checks :: Passes(h, c, out)
    ensures Read(h, k, Obj(source)) == Some(Obj(out))
  {
    hide Accepts, Given, Passes, ReadItems, Built;
    var built := map key | key in k.members && Built(k.members, source, key) ::
      Read(h, k.members[key].kind, Get(source, key)).value;
    assert built == out;
  }

  lemma ReadRecordNone(h: Host, b: Kind, out: map<Key, Js>, key: Key)
    requires b.Record? && key in b.members && key in out
    requires Read(h, b.members[key].kind, out[key]).None?
    ensures Read(h, b, Obj(out)).None?
  {
    hide Accepts, Given, Passes, ReadItems;
    assert Built(b.members, out, key) && Read(h, b.members[key].kind, Get(out, key)).None?;
  }

  lemma FollowsParts(a: Kind, b: Kind)
    requires a.Record? && b.Record? && Follows(a, b)
    ensures SameShape(a, b)
  {
  }

  // ---------- kinds that follow themselves ----------

  /** A current schema: every key listed, nothing rewritten. */
  predicate Regular(k: Kind) {
    match k
    case Is(leaf) => leaf.Emit? ==> leaf.taken == leaf.given
    case Nullable(some) => Regular(some)
    case Maybe(some) => Definite(some)
    case List(_, item) => Regular(item)
    case Record(ms, allowed, required, _) =>
      && ms.Keys <= allowed
      && required <= AlwaysKeys(ms)
      && forall key | key in ms :: Regular(ms[key].kind)
  }

  lemma {:induction false} RegularFollows(k: Kind)
    requires Regular(k)
    ensures Follows(k, k)
  {
    match k
    case Nullable(some) => RegularFollows(some);
    case List(_, item) => RegularFollows(item);
    case Record(ms, _, _, _) =>
      forall key | key in ms ensures Follows(ms[key].kind, ms[key].kind) {
        RegularFollows(ms[key].kind);
      }
    case _ =>
  }

  // ---------- where nothing can grow ----------

  /** No image URL and no derived amount anywhere inside. */
  predicate Plain(a: Kind, b: Kind) {
    match (a, b)
    case (Is(x), Is(y)) => y != ImageUrl && !(x == AnyMoney && y == Money)
    case (Nullable(x), Nullable(y)) => Plain(x, y)
    case (Maybe(x), Maybe(y)) => Plain(x, y)
    case (Maybe(x), Nullable(y)) => Plain(x, y)
    case (List(_, x), List(_, y)) => Plain(x, y)
    case (Record(ms, _, _, _), Record(ns, _, _, _)) =>
      forall key | key in ms && key in ns :: Plain(ms[key].kind, ns[key].kind)
    case _ => true
  }

  lemma {:induction false} PlainFits(a: Kind, b: Kind, w: Js)
    requires Plain(a, b)
    ensures Fits(a, b, w)
  {
    match (a, b)
    case (Nullable(x), Nullable(y)) => PlainFits(x, y, w);
    case (Maybe(x), Maybe(y)) => PlainFits(x, y, w);
    case (Maybe(x), Nullable(y)) => PlainFits(x, y, w);
    case (List(_, x), List(_, y)) =>
      if w.Arr? {
        forall v | v in w.items ensures Fits(x, y, v) {
          PlainFits(x, y, v);
        }
      }
    case (Record(ms, _, _, _), Record(ns, _, _, _)) =>
      if w.Obj? {
        forall key | key in ms && key in ns && key in w.fields
          ensures Fits(ms[key].kind, ns[key].kind, w.fields[key])
        {
          PlainFits(ms[key].kind, ns[key].kind, w.fields[key]);
        }
      }
    case _ =>
  }

  // ---------- records, member by member ----------

  lemma RecordFollows(a: Kind, b: Kind)
    requires SameShape(a, b)
    requires forall key | key in a.members :: Follows(a.members[key].kind, b.members[key].kind)
    ensures Follows(a, b)
  {
  }

  lemma RecordPlain(a: Kind, b: Kind)
    requires a.Record? && b.Record?
    requires forall key | key in a.members && key in b.members :: Plain(a.members[key].kind, b.members[key].kind)
    ensures Plain(a, b)
  {
  }

  lemma ListFollows(max: nat, a: Kind, b: Kind)
    ensures Follows(a, b) ==> Follows(List(max, a), List(max, b))
    ensures Plain(a, b) ==> Plain(List(max, a), List(max, b))
    ensures Follows(a, b) ==> Follows(Nullable(a), Nullable(b))
    ensures Plain(a, b) ==> Plain(Nullable(a), Nullable(b))
  {
  }

  /** With every member but `at` plain, a record fits if that one does. */
  lemma FitsAt(a: Kind, b: Kind, out: map<Key, Js>, at: set<Key>)
    requires a.Record? && b.Record?
    requires forall key | key in a.members && key in b.members && key !in at ::
      Plain(a.members[key].kind, b.members[key].kind)
    ensures Fits(a, b, Obj(out)) <==>
      forall key | key in at && key in a.members && key in b.members && key in out ::
        Fits(a.members[key].kind, b.members[key].kind, out[key])
  {
    hide Fits, Plain;
    FitsParts(a, b, out);
    forall key | key in a.members && key in b.members && key in out && key !in at
      ensures Fits(a.members[key].kind, b.members[key].kind, out[key])
    {
      PlainFits(a.members[key].kind, b.members[key].kind, out[key]);
    }
  }

  lemma NullableFits(a: Kind, b: Kind, v: Js)
    ensures Fits(Nullable(a), Nullable(b), v) <==> v == Null || Fits(a, b, v)
  {
  }

  lemma NonRecordFits(a: Kind, b: Kind, v: Js)
    requires a.Record? && b.Record? && !v.Obj?
    ensures Fits(a, b, v)
  {
  }

  lemma MemberRead(h: Host, k: Kind, source: map<Key, Js>, key: Key)
    requires k.Record? && Read(h, k, Obj(source)).Some? && key in k.members && k.members[key].Req?
    ensures var out := Read(h, k, Obj(source)).value;
      && out.Obj? && key in out.fields
      && Read(h, k.members[key].kind, Get(source, key)) == Some(out.fields[key])
  {
    hide Accepts, Given, Passes, ReadItems;
    assert Built(k.members, source, key);
  }

  lemma EmitRead(h: Host, taken: Js, given: Js, v: Js)
    ensures Read(h, Is(Emit(taken, given)), v).Some? ==> Read(h, Is(Emit(taken, given)), v) == Some(given)
  {
  }

  lemma {:induction false} ItemsRead(h: Host, k: Kind, items: seq<Js>)
    requires ReadItems(h, k, items).Some?
    ensures var out := ReadItems(h, k, items).value;
      |out| == |items| && forall i | 0 <= i < |items| :: Read(h, k, items[i]) == Some(out[i])
  {
    hide Read;
    if items != [] {
      ItemsRead(h, k, items[1..]);
    }
  }

  lemma NullableRead(h: Host, k: Kind, v: Js)
    requires k.Record? && Read(h, Nullable(k), v).Some?
    ensures v == Null || v.Obj?
    ensures v == Null ==> Read(h, Nullable(k), v) == Some(Null)
  {
  }

  /** `v` is its own normal form under `k`. */
  ghost predicate Reads(h: Host, k: Kind, v: Js) { Read(h, k, v) == Some(v) }

  lemma ReadsIsRead(h: Host)
    ensures forall k: Kind, v: Js :: Reads(h, k, v) <==> Read(h, k, v) == Some(v)
  {
  }

  /** What is known of a record that has been read. */
  lemma RecordRead(h: Host, k: Kind, source: map<Key, Js>)
    requires k.Record? && Read(h, k, Obj(source)).Some?
    ensures Read(h, k, Obj(source)).value.Obj?
    ensures var out := Read(h, k, Obj(source)).value.fields;
      && AlwaysKeys(k.members) <= out.Keys <= k.members.Keys
      && (forall c | c in k.checks :: Passes(h, c, out))
      && (forall key | key in out :: Read(h, k.members[key].kind, Get(source, key)) == Some(out[key]))
  {
    hide Accepts, Given, Passes, ReadItems;
  }

  lemma SomeRead(h: Host, k: Kind, v: Js)
    requires k.Record? && Read(h, Nullable(k), v).Some? && v != Null
    ensures Read(h, k, v) == Read(h, Nullable(k), v) && Read(h, k, v).value.Obj?
  {
    hide Accepts, Given, Passes, ReadItems;
  }
}
