/**
  The direct check of a JSON document against a schema: type, const, required, properties and items.
  Values are Python's, as the JSON parser makes them.
 */
module SchemaInspector {
  import opened Decimal
  import opened Wrappers

  datatype Value =
    | Null
    | Bool(b: bool)
    | Int(n: int)
    | Float(r: real)
    | Str(s: string)
    | List(items: seq<Value>)
    | Dict(fields: map<string, Value>)

  datatype TypeName = ObjectType | ArrayType | StringType | IntegerType | NumberType | BooleanType | NullType

  /** A missing `type` and an empty list of types are the same: nothing is checked. */
  datatype Schema = Schema(
    types: seq<TypeName>, constant: Option<Value>, required: seq<string>, properties: seq<Property>,
    items: Option<Schema>)

  /** An entry of the `properties` dictionary, whose keys are distinct. */
  datatype Property = Property(key: string, schema: Schema)

  /** With what was expected, and what was found in its place. */
  datatype Reason = WrongType(expected: seq<TypeName>, actual: string) | WrongConst(constant: Value) | MissingKey

  datatype Issue = Issue(path: string, reason: Reason)

  // ---------- Python's notions ----------

  /** `bool` is a subclass of `int`, but is no integer and no number here. */
  predicate IsInstance(v: Value, t: TypeName) {
    match t
    case ObjectType => v.Dict?
    case ArrayType => v.List?
    case StringType => v.Str?
    case IntegerType => v.Int?
    case NumberType => v.Int? || v.Float?
    case BooleanType => v.Bool?
    case NullType => v.Null?
  }

  predicate IsNumber(v: Value) { v.Bool? || v.Int? || v.Float? }

  function NumberOf(v: Value): real
    requires IsNumber(v)
  {
    match v
    case Bool(b) => if b then 1.0 else 0.0
    case Int(n) => n as real
    case Float(r) => r
  }

  /** Python's `==`: numbers and booleans compare by amount. */
  predicate Equal(a: Value, b: Value)
    decreases a
  {
    if IsNumber(a) && IsNumber(b) then NumberOf(a) == NumberOf(b)
    else
      match (a, b)
      case (List(xs), List(ys)) =>
        |xs| == |ys| && forall i | 0 <= i < |xs| :: Equal(xs[i], ys[i])
      case (Dict(x), Dict(y)) =>
        x.Keys == y.Keys && forall key | key in x :: Equal(x[key], y[key])
      case _ => a == b
  }

  /** `type(value).__name__`, but for `None`. */
  function TypeText(v: Value): string {
    match v
    case Null => "null"
    case Bool(_) => "bool"
    case Int(_) => "int"
    case Float(_) => "float"
    case Str(_) => "str"
    case List(_) => "list"
    case Dict(_) => "dict"
  }

  predicate TypeOk(v: Value, s: Schema) { s.types == [] || exists t | t in s.types :: IsInstance(v, t) }

  predicate ConstOk(v: Value, s: Schema) { s.constant.Some? ==> Equal(v, s.constant.value) }

  // ---------- conforming ----------

  predicate Conforms(v: Value, s: Schema)
    decreases s
  {
    && TypeOk(v, s)
    && ConstOk(v, s)
    && (v.Dict? ==>
          && (forall key | key in s.required :: key in v.fields)
          && (forall p | p in s.properties :: p.key in v.fields ==> Conforms(v.fields[p.key], p.schema)))
    && (v.List? && s.items.Some? ==> forall i | 0 <= i < |v.items| :: Conforms(v.items[i], s.items.value))
  }

  // ---------- findings, by place ----------

  datatype Step = Key(key: string) | Index(i: nat)

  datatype Finding = Finding(at: seq<Step>, reason: Reason)

  /** What is wrong with the node at this place, by going there. */
  predicate Explains(v: Value, s: Schema, f: Finding)
    decreases |f.at|
  {
    if f.at == [] then
      if TypeOk(v, s) then !ConstOk(v, s) && f.reason == WrongConst(s.constant.value)
      else f.reason == WrongType(s.types, TypeText(v))
    else
      && TypeOk(v, s)
      && (match f.at[0]
          case Key(key) =>
            v.Dict? && if key in v.fields then
              exists p | p in s.properties :: p.key == key && Explains(v.fields[key], p.schema, f.(at := f.at[1..]))
            else
              f == Finding([Key(key)], MissingKey) && key in s.required
          case Index(i) =>
            && v.List? && i < |v.items| && s.items.Some?
            && Explains(v.items[i], s.items.value, f.(at := f.at[1..])))
  }

  function Under(step: Step, fs: seq<Finding>): (r: seq<Finding>)
    ensures |r| == |fs| && forall i | 0 <= i < |fs| :: r[i] == Finding([step] + fs[i].at, fs[i].reason)
  {
    seq(|fs|, i requires 0 <= i < |fs| => Finding([step] + fs[i].at, fs[i].reason))
  }

  function Findings(v: Value, s: Schema): seq<Finding>
    decreases s, 1, 0
  {
    if !TypeOk(v, s) then [Finding([], WrongType(s.types, TypeText(v)))]
    else
      (if ConstOk(v, s) then [] else [Finding([], WrongConst(s.constant.value))])
      + (if v.Dict? then RequiredFindings(v.fields, s.required, |s.required|)
                         + PropertyFindings(v.fields, s, |s.properties|)
         else if v.List? && s.items.Some? then ItemFindings(v.items, s.items.value, |v.items|)
         else [])
  }

  function RequiredFindings(fields: map<string, Value>, required: seq<string>, n: nat): seq<Finding>
    requires n <= |required|
  {
    if n == 0 then []
    else
      RequiredFindings(fields, required, n - 1)
      + (if required[n - 1] in fields then [] else [Finding([Key(required[n - 1])], MissingKey)])
  }

  function PropertyFindings(fields: map<string, Value>, s: Schema, n: nat): seq<Finding>
    requires n <= |s.properties|
    decreases s, 0, n
  {
    if n == 0 then []
    else
      var p := s.properties[n - 1];
      PropertyFindings(fields, s, n - 1)
      + (if p.key in fields then Under(Key(p.key), Findings(fields[p.key], p.schema)) else [])
  }

  function ItemFindings(items: seq<Value>, s: Schema, n: nat): seq<Finding>
    requires n <= |items|
    decreases s, 2, n
  {
    if n == 0 then []
    else ItemFindings(items, s, n - 1) + Under(Index(n - 1), Findings(items[n - 1], s))
  }

  // ---------- the two agree ----------

  lemma {:induction false} RequiredExact(fields: map<string, Value>, required: seq<string>, n: nat, f: Finding)
    requires n <= |required|
    ensures f in RequiredFindings(fields, required, n)
      <==> exists i :: 0 <= i < n && required[i] !in fields && f == Finding([Key(required[i])], MissingKey)
  {
    if n > 0 {
      RequiredExact(fields, required, n - 1, f);
    }
  }

  lemma InUnder(step: Step, fs: seq<Finding>, f: Finding)
    ensures f in Under(step, fs) <==> f.at != [] && f.at[0] == step && f.(at := f.at[1..]) in fs
  {
    if f.at != [] && f.at[0] == step && f.(at := f.at[1..]) in fs {
      var i :| 0 <= i < |fs| && fs[i] == f.(at := f.at[1..]);
      assert [step] + fs[i].at == f.at;
      assert Under(step, fs)[i] == f;
    }
    if f in Under(step, fs) {
      var i :| 0 <= i < |fs| && Under(step, fs)[i] == f;
      assert f.at[1..] == fs[i].at;
    }
  }

  /** Exactly the findings that going to their place confirms. */
  lemma {:induction false} FindingsExact(v: Value, s: Schema, f: Finding)
    ensures f in Findings(v, s) <==> Explains(v, s, f)
    decreases s, 1, 0
  {
    hide TypeOk, ConstOk;
    if TypeOk(v, s) {
      if v.Dict? {
        RequiredExact(v.fields, s.required, |s.required|, f);
        PropertiesExact(v, s, |s.properties|, f);
      } else if v.List? && s.items.Some? {
        ItemsExact(v, s, |v.items|, f);
      }
      ByPlace(v, s, f);
    }
  }

  /** A finding of the node itself, of a missing key, or of a child. */
  lemma ByPlace(v: Value, s: Schema, f: Finding)
    requires TypeOk(v, s)
    ensures Explains(v, s, f)
      <==> || (!ConstOk(v, s) && f == Finding([], WrongConst(s.constant.value)))
           || (v.Dict? && MissingAt(v.fields, s, f))
           || (v.Dict? && InProperty(v.fields, s, |s.properties|, f))
           || (v.List? && s.items.Some? && InItem(v.items, s.items.value, |v.items|, f))
  {
    hide TypeOk, ConstOk;
    if v.Dict? && f.at != [] && f.at[0].Key? && f.at[0].key in v.fields {
      var key, rest := f.at[0].key, f.(at := f.at[1..]);
      if exists p :: p in s.properties && p.key == key && Explains(v.fields[key], p.schema, rest) {
        var p :| p in s.properties && p.key == key && Explains(v.fields[key], p.schema, rest);
        var i :| 0 <= i < |s.properties| && s.properties[i] == p;
      }
    }
  }

  predicate MissingAt(fields: map<string, Value>, s: Schema, f: Finding) {
    exists i :: 0 <= i < |s.required| && s.required[i] !in fields && f == Finding([Key(s.required[i])], MissingKey)
  }

  predicate InProperty(fields: map<string, Value>, s: Schema, n: nat, f: Finding)
    requires n <= |s.properties|
  {
    f.at != [] && exists i | 0 <= i < n ::
      && s.properties[i].key in fields && f.at[0] == Key(s.properties[i].key)
      && Explains(fields[s.properties[i].key], s.properties[i].schema, f.(at := f.at[1..]))
  }

  predicate InItem(items: seq<Value>, s: Schema, n: nat, f: Finding)
    requires n <= |items|
  {
    f.at != [] && f.at[0].Index? && f.at[0].i < n && Explains(items[f.at[0].i], s, f.(at := f.at[1..]))
  }

  lemma {:induction false} PropertiesExact(v: Value, s: Schema, n: nat, f: Finding)
    requires v.Dict? && n <= |s.properties|
    ensures f in PropertyFindings(v.fields, s, n) <==> InProperty(v.fields, s, n, f)
    decreases s, 0, n
  {
    hide Explains, Findings, Under;
    if n > 0 {
      var p := s.properties[n - 1];
      PropertiesExact(v, s, n - 1, f);
      if p.key in v.fields {
        InUnder(Key(p.key), Findings(v.fields[p.key], p.schema), f);
        FindingsExact(v.fields[p.key], p.schema, f.(at := if f.at == [] then [] else f.at[1..]));
      }
    }
  }

  lemma {:induction false} ItemsExact(v: Value, s: Schema, n: nat, f: Finding)
    requires v.List? && s.items.Some? && n <= |v.items|
    ensures f in ItemFindings(v.items, s.items.value, n) <==> InItem(v.items, s.items.value, n, f)
    decreases s, 0, n
  {
    hide Explains, Findings, Under;
    if n > 0 {
      ItemsExact(v, s, n - 1, f);
      InUnder(Index(n - 1), Findings(v.items[n - 1], s.items.value), f);
      FindingsExact(v.items[n - 1], s.items.value, f.(at := if f.at == [] then [] else f.at[1..]));
    }
  }

  // ---------- no findings, no violation ----------

  lemma {:induction false} NoFindings(v: Value, s: Schema)
    ensures Findings(v, s) == [] <==> Conforms(v, s)
    decreases s, 1, 0
  {
    hide TypeOk, ConstOk;
    if TypeOk(v, s) {
      if v.Dict? {
        NoRequired(v.fields, s.required, |s.required|);
        NoProperties(v, s, |s.properties|);
      } else if v.List? && s.items.Some? {
        NoItems(v, s, |v.items|);
      }
    }
  }

  lemma {:induction false} NoRequired(fields: map<string, Value>, required: seq<string>, n: nat)
    requires n <= |required|
    ensures RequiredFindings(fields, required, n) == [] <==> forall i | 0 <= i < n :: required[i] in fields
  {
    if n > 0 {
      NoRequired(fields, required, n - 1);
    }
  }

  lemma {:induction false} NoProperties(v: Value, s: Schema, n: nat)
    requires v.Dict? && n <= |s.properties|
    ensures PropertyFindings(v.fields, s, n) == [] <==>
      forall i | 0 <= i < n :: s.properties[i].key in v.fields ==>
        Conforms(v.fields[s.properties[i].key], s.properties[i].schema)
    decreases s, 0, n
  {
    hide Conforms, Findings, Under;
    if n > 0 {
      var p := s.properties[n - 1];
      NoProperties(v, s, n - 1);
      if p.key in v.fields {
        NoFindings(v.fields[p.key], p.schema);
        UnderSize(Key(p.key), Findings(v.fields[p.key], p.schema));
      }
    }
  }

  lemma {:induction false} NoItems(v: Value, s: Schema, n: nat)
    requires v.List? && s.items.Some? && n <= |v.items|
    ensures ItemFindings(v.items, s.items.value, n) == [] <==>
      forall i | 0 <= i < n :: Conforms(v.items[i], s.items.value)
    decreases s, 0, n
  {
    hide Conforms, Findings, Under;
    if n > 0 {
      NoItems(v, s, n - 1);
      NoFindings(v.items[n - 1], s.items.value);
      UnderSize(Index(n - 1), Findings(v.items[n - 1], s.items.value));
    }
  }

  lemma UnderSize(step: Step, fs: seq<Finding>)
    ensures Under(step, fs) == [] <==> fs == []
  {
  }

  // ---------- the method, and how it writes places ----------

  function StepText(step: Step): string {
    match step
    case Key(key) => "." + key
    case Index(i) => "[" + Print(i) + "]"
  }

  function Text(at: seq<Step>): string {
    if at == [] then "" else StepText(at[0]) + Text(at[1..])
  }

  function Render(path: string, fs: seq<Finding>): (r: seq<Issue>)
    ensures |r| == |fs| && forall i | 0 <= i < |fs| :: r[i] == Issue(path + Text(fs[i].at), fs[i].reason)
  {
    seq(|fs|, i requires 0 <= i < |fs| => Issue(path + Text(fs[i].at), fs[i].reason))
  }

  lemma RenderConcat(path: string, a: seq<Finding>, b: seq<Finding>)
    ensures Render(path, a + b) == Render(path, a) + Render(path, b)
  {
  }

  lemma TextUnder(path: string, step: Step, at: seq<Step>)
    ensures path + Text([step] + at) == (path + StepText(step)) + Text(at)
  {
    hide StepText;
    assert ([step] + at)[1..] == at;
    assert Text([step] + at) == StepText(step) + Text(at);
  }

  lemma RenderUnder(path: string, step: Step, fs: seq<Finding>)
    ensures Render(path, Under(step, fs)) == Render(path + StepText(step), fs)
  {
    hide StepText, Text;
    forall i | 0 <= i < |fs|
      ensures Render(path, Under(step, fs))[i] == Render(path + StepText(step), fs)[i]
    {
      TextUnder(path, step, fs[i].at);
    }
  }

  lemma RenderOne(path: string, f: Finding)
    ensures Render(path, [f]) == [Issue(path + Text(f.at), f.reason)] && Render(path, []) == []
  {
  }

  lemma OneStep(key: string)
    ensures Text([Key(key)]) == "." + key && Text([]) == ""
  {
    assert [Key(key)][1..] == [];
  }

  method Inspect(value: Value, schema: Schema, path: string) returns (issues: seq<Issue>)
    ensures issues == Render(path, Findings(value, schema))
    decreases schema
  {
    hide TypeOk, Equal, Render, Text, StepText, Under;
    OneStep("");
    if !TypeOk(value, schema) {
      RenderOne(path, Finding([], WrongType(schema.types, TypeText(value))));
      assert path + "" == path;
      return [Issue(path, WrongType(schema.types, TypeText(value)))];
    }
    issues := [];
    var expected := if schema.constant.Some? then schema.constant.value else Null;
    RenderOne(path, Finding([], WrongConst(expected)));
    assert path + "" == path;
    if !ConstOk(value, schema) { issues := issues + [Issue(path, WrongConst(expected))]; }
    ghost var done := if ConstOk(value, schema) then [] else [Finding([], WrongConst(expected))];
    assert issues == Render(path, done);
    if value.Dict? {
      var missing := InspectRequired(value.fields, schema, path);
      var wrong := InspectProperties(value.fields, schema, path);
      RenderConcat(path, RequiredFindings(value.fields, schema.required, |schema.required|),
                   PropertyFindings(value.fields, schema, |schema.properties|));
      RenderConcat(path, done, RequiredFindings(value.fields, schema.required, |schema.required|)
                               + PropertyFindings(value.fields, schema, |schema.properties|));
      issues := issues + missing + wrong;
    }
    if value.List? && schema.items.Some? {
      var wrong := InspectItems(value.items, schema, path);
      RenderConcat(path, done, ItemFindings(value.items, schema.items.value, |value.items|));
      issues := issues + wrong;
    }
  }

  method InspectRequired(fields: map<string, Value>, schema: Schema, path: string) returns (issues: seq<Issue>)
    ensures issues == Render(path, RequiredFindings(fields, schema.required, |schema.required|))
  {
    hide Render, Text, StepText;
    issues := [];
    RenderOne(path, Finding([], MissingKey));
    var n := 0;
    while n < |schema.required|
      invariant 0 <= n <= |schema.required|
      invariant issues == Render(path, RequiredFindings(fields, schema.required, n))
    {
      var key := schema.required[n];
      if key !in fields {
        RenderConcat(path, RequiredFindings(fields, schema.required, n), [Finding([Key(key)], MissingKey)]);
        RenderOne(path, Finding([Key(key)], MissingKey));
        OneStep(key);
        issues := issues + [Issue(path + ("." + key), MissingKey)];
      }
      n := n + 1;
    }
  }

  method InspectProperties(fields: map<string, Value>, schema: Schema, path: string) returns (issues: seq<Issue>)
    ensures issues == Render(path, PropertyFindings(fields, schema, |schema.properties|))
    decreases schema, 0
  {
    hide Render, Text, Under, Findings;
    issues := [];
    RenderOne(path, Finding([], MissingKey));
    var n := 0;
    while n < |schema.properties|
      invariant 0 <= n <= |schema.properties|
      invariant issues == Render(path, PropertyFindings(fields, schema, n))
    {
      var p := schema.properties[n];
      if p.key in fields {
        var more := Inspect(fields[p.key], p.schema, path + ("." + p.key));
        RenderUnder(path, Key(p.key), Findings(fields[p.key], p.schema));
        RenderConcat(path, PropertyFindings(fields, schema, n),
                     Under(Key(p.key), Findings(fields[p.key], p.schema)));
        issues := issues + more;
      }
      n := n + 1;
    }
  }

  method InspectItems(items: seq<Value>, schema: Schema, path: string) returns (issues: seq<Issue>)
    requires schema.items.Some?
    ensures issues == Render(path, ItemFindings(items, schema.items.value, |items|))
    decreases schema, 0
  {
    hide Render, Text, Under, Findings;
    issues := [];
    RenderOne(path, Finding([], MissingKey));
    var child := schema.items.value;
    var index := 0;
    while index < |items|
      invariant 0 <= index <= |items|
      invariant issues == Render(path, ItemFindings(items, child, index))
    {
      var more := Inspect(items[index], child, path + ("[" + Print(index) + "]"));
      RenderUnder(path, Index(index), Findings(items[index], child));
      RenderConcat(path, ItemFindings(items, child, index), Under(Index(index), Findings(items[index], child)));
      issues := issues + more;
      index := index + 1;
    }
  }

  /**
    The checker is sound and complete: it reports nothing exactly on values that conform, and each
    report stands for a violation found by going to its place.
   */
  lemma SoundAndComplete(v: Value, s: Schema, path: string)
    ensures Render(path, Findings(v, s)) == [] <==> Conforms(v, s)
    ensures forall i | 0 <= i < |Findings(v, s)| ::
      && Explains(v, s, Findings(v, s)[i])
      && Render(path, Findings(v, s))[i].path == path + Text(Findings(v, s)[i].at)
    ensures forall f: Finding :: Explains(v, s, f) ==> f in Findings(v, s)
  {
    NoFindings(v, s);
    forall f: Finding ensures f in Findings(v, s) <==> Explains(v, s, f) {
      FindingsExact(v, s, f);
    }
  }
}
