/** The type-directed transformer behind `Convert.toBundleSchema` and
    `Convert.bundleSchemaToJson` (packages/databricks-vscode/src/bundle/BundleSchema.ts).

    `Transform` is the recursion of the source. `Conforms` says independently
    which values a descriptor describes. The theorems relate the two, and say
    exactly when casting and uncasting a value gives the value back. */
module BundleSchema {
  import opened Wrappers

  // ---------------------------------------------------------------- values

  /** A JavaScript value as JSON.parse and the transformer produce it. The
      fields of an object are its own properties; their order is not modelled. */
  datatype Value =
    | Undefined
    | Null
    | Bool(b: bool)
    | Number(n: real)
    | Str(s: string)
    | Arr(items: seq<Value>)
    | Obj(fields: map<string, Value>)

  /** `hasOwnProperty(val, key) ? val[key] : undefined` */
  function Lookup(fields: map<string, Value>, key: string): Value {
    if key in fields then fields[key] else Undefined
  }

  /** Assigning to this key changes an object's prototype, never an own property. */
  const PROTO := "__proto__"

  function SetOwn(fields: map<string, Value>, key: string, v: Value): map<string, Value> {
    if key == PROTO then fields else fields[key := v]
  }

  // ----------------------------------------------------------- descriptors

  datatype Kind = StringKind | NumberKind | BoolKind | UndefinedKind

  datatype Prop = Prop(json: string, js: string, typ: Descriptor)

  datatype Descriptor =
    | Any
    | NullType
    | Never
    | Primitive(kind: Kind)
    | Enum(cases: seq<string>)
    | Ref(name: string)
    | Union(members: seq<Descriptor>)
    | ArrayOf(element: Descriptor)
    | ObjectOf(props: seq<Prop>, additional: Descriptor)

  /** `typeMap`, with a rank per entry that certifies that following
      references (through unions too) always ends. */
  datatype Environment = Environment(types: map<string, Descriptor>, rank: map<string, nat>)

  function HeadRank(rank: map<string, nat>, t: Descriptor): nat {
    match t
    case Ref(name) => if name in rank then rank[name] + 1 else 1
    case Union(members) => MaxHeadRank(rank, members)
    case _ => 0
  }

  function MaxHeadRank(rank: map<string, nat>, ts: seq<Descriptor>): (r: nat)
    ensures forall i | 0 <= i < |ts| :: HeadRank(rank, ts[i]) <= r
  {
    if ts == [] then 0
    else
      var here := HeadRank(rank, ts[0]);
      var rest := MaxHeadRank(rank, ts[1..]);
      assert forall i | 1 <= i < |ts| :: ts[i] == ts[1..][i - 1];
      if here > rest then here else rest
  }

  predicate WellRanked(env: Environment) {
    && env.types.Keys == env.rank.Keys
    && forall name | name in env.types :: HeadRank(env.rank, env.types[name]) <= env.rank[name]
  }

  type Env = env: Environment | WellRanked(env) witness Environment(map[], map[])

  /** The `while (typeof typ === "object" && typ.ref !== undefined)` loop. After
      it, the special tests for "any", null and false are behind us: a string
      or a boolean found in the map is an exemplar of a primitive type, and
      null makes the loop itself throw, so that nothing matches. A missing
      entry is `undefined`. */
  function Resolve(env: Env, name: string): (t: Descriptor)
    ensures !t.Ref? && !t.Any? && !t.Never? && !t.NullType?
    ensures name in env.rank ==> HeadRank(env.rank, t) <= env.rank[name]
    ensures name !in env.rank ==> HeadRank(env.rank, t) == 0
    decreases if name in env.rank then env.rank[name] + 1 else 1
  {
    if name !in env.types then Primitive(UndefinedKind)
    else
      match env.types[name]
      case Ref(next) => Resolve(env, next)
      case Any => Primitive(StringKind)
      case Never => Primitive(BoolKind)
      case NullType => Union([])
      case t => t
  }

  // ---------------------------------------------------------- property maps

  datatype Direction = JsonToJS | JSToJson

  datatype Entry = Entry(from: string, to: string, typ: Descriptor)

  function EntryOf(p: Prop, dir: Direction): Entry {
    match dir
    case JsonToJS => Entry(p.json, p.js, p.typ)
    case JSToJson => Entry(p.js, p.json, p.typ)
  }

  /** `map[e.from] = {key: e.to, typ: e.typ}` on an object with the given own
      properties: a known key keeps its place. */
  function PutEntry(entries: seq<Entry>, e: Entry): (r: seq<Entry>)
    requires DistinctKeys(entries)
    ensures DistinctKeys(r)
    ensures forall f :: f in r ==> f in entries || f == e
    ensures e.from != PROTO ==> e in r
    ensures forall f | f in entries && f.from != e.from :: f in r
    ensures (forall f | f in entries :: f.from != PROTO) ==> forall f | f in r :: f.from != PROTO
  {
    if e.from == PROTO then entries
    else if i :| 0 <= i < |entries| && entries[i].from == e.from then
      var r := entries[i := e];
      assert r[i] == e;
      assert forall j | 0 <= j < |entries| && j != i :: r[j] == entries[j];
      r
    else
      var r := entries + [e];
      assert r[|entries|] == e;
      assert forall j | 0 <= j < |entries| :: r[j] == entries[j];
      r
  }

  ghost predicate DistinctKeys(entries: seq<Entry>) {
    forall i, j | 0 <= i < j < |entries| :: entries[i].from != entries[j].from
  }

  /** `jsonToJSProps` / `jsToJSONProps` without their memo. */
  function PropEntries(props: seq<Prop>, dir: Direction): (r: seq<Entry>)
    ensures DistinctKeys(r)
    ensures forall e | e in r :: e.from != PROTO
  {
    if props == [] then []
    else
      var front, last := props[..|props| - 1], props[|props| - 1];
      PutEntry(PropEntries(front, dir), EntryOf(last, dir))
  }

  function KeysOf(entries: seq<Entry>): set<string> {
    set e | e in entries :: e.from
  }

  // -------------------------------------------------------------- transform

  predicate HasKind(v: Value, kind: Kind) {
    match kind
    case StringKind => v.Str?
    case NumberKind => v.Number?
    case BoolKind => v.Bool?
    case UndefinedKind => v.Undefined?
  }

  /** The first success, as the loop over the members of a union finds it. */
  function FirstSome(outcomes: seq<Option<Value>>): Option<Value> {
    if outcomes == [] then None
    else if outcomes[0].Some? then outcomes[0]
    else FirstSome(outcomes[1..])
  }

  predicate AllSome(outcomes: seq<Option<Value>>) {
    forall o :: o in outcomes ==> o.Some?
  }

  function Values(outcomes: seq<Option<Value>>): (r: seq<Value>)
    ensures |r| == |outcomes|
    ensures forall i | 0 <= i < |r| :: r[i] == outcomes[i].GetOr(Undefined)
  {
    seq(|outcomes|, i requires 0 <= i < |outcomes| => outcomes[i].GetOr(Undefined))
  }

  predicate AllFieldsSome(outcomes: map<string, Option<Value>>) {
    forall key | key in outcomes :: outcomes[key].Some?
  }

  /** The assignments `result[key] = ...` for the keys that are no properties. */
  function OwnFields(outcomes: map<string, Option<Value>>): map<string, Value> {
    map key | key in outcomes.Keys - {PROTO} :: outcomes[key].GetOr(Undefined)
  }

  /** The assignments `result[prop.key] = ...`, in order. */
  function Assign(entries: seq<Entry>, values: seq<Value>): map<string, Value>
    requires |entries| == |values|
  {
    if entries == [] then map[]
    else
      var last := |entries| - 1;
      SetOwn(Assign(entries[..last], values[..last]), entries[last].to, values[last])
  }

  /** `transform(val, typ, getProps)`; `None` where the source throws. */
  function Transform(env: Env, v: Value, t: Descriptor, dir: Direction): Option<Value>
    decreases if v.Undefined? then 0 else 1, v, HeadRank(env.rank, t), t, 1
  {
    match t
    case Any => Some(v)
    case NullType => if v.Null? then Some(v) else None
    case Never => None
    case Ref(name) => Transform(env, v, Resolve(env, name), dir)
    case Enum(cases) => if v.Str? && v.s in cases then Some(v) else None
    case Primitive(kind) => if HasKind(v, kind) then Some(v) else None
    case Union(_) => FirstSome(MemberOutcomes(env, v, t, dir))
    case ArrayOf(_) =>
      if !v.Arr? then None
      else
        var outcomes := ItemOutcomes(env, v, t, dir);
        if AllSome(outcomes) then Some(Arr(Values(outcomes))) else None
    case ObjectOf(props, _) =>
      if !v.Obj? then None
      else
        var known, others := KnownOutcomes(env, v, t, dir), OtherOutcomes(env, v, t, dir);
        if AllSome(known) && AllFieldsSome(others)
        then Some(Obj(Assign(PropEntries(props, dir), Values(known)) + OwnFields(others)))
        else None
  }

  /** The value tried against every member of a union. */
  function MemberOutcomes(env: Env, v: Value, t: Descriptor, dir: Direction): (r: seq<Option<Value>>)
    requires t.Union?
    ensures |r| == |t.members|
    decreases if v.Undefined? then 0 else 1, v, HeadRank(env.rank, t), t, 0
  {
    seq(|t.members|, i requires 0 <= i < |t.members| => Transform(env, v, t.members[i], dir))
  }

  /** Every item of an array against the element type. */
  function ItemOutcomes(env: Env, v: Value, t: Descriptor, dir: Direction): (r: seq<Option<Value>>)
    requires t.ArrayOf? && v.Arr?
    ensures |r| == |v.items|
    decreases if v.Undefined? then 0 else 1, v, HeadRank(env.rank, t), t, 0
  {
    seq(|v.items|, i requires 0 <= i < |v.items| => Transform(env, v.items[i], t.element, dir))
  }

  /** Every known property of an object against its type. */
  function KnownOutcomes(env: Env, v: Value, t: Descriptor, dir: Direction): (r: seq<Option<Value>>)
    requires t.ObjectOf? && v.Obj?
    ensures |r| == |PropEntries(t.props, dir)|
    decreases if v.Undefined? then 0 else 1, v, HeadRank(env.rank, t), t, 0
  {
    var entries := PropEntries(t.props, dir);
    seq(|entries|, i requires 0 <= i < |entries| =>
      Transform(env, Lookup(v.fields, entries[i].from), entries[i].typ, dir))
  }

  /** Every other key of an object against `additional`. */
  function OtherOutcomes(env: Env, v: Value, t: Descriptor, dir: Direction): map<string, Option<Value>>
    requires t.ObjectOf? && v.Obj?
    decreases if v.Undefined? then 0 else 1, v, HeadRank(env.rank, t), t, 0
  {
    map key | key in v.fields.Keys - KeysOf(PropEntries(t.props, dir)) :: Transform(env, v.fields[key], t.additional, dir)
  }

  // ------------------------------------------------------------ conformance

  /** Which values a descriptor describes: a reference stands for its entry, a
      union for any of its members, a missing property counts as undefined, and
      a key that is no property is judged by `additional`. */
  ghost predicate Conforms(env: Env, v: Value, t: Descriptor, dir: Direction)
    decreases if v.Undefined? then 0 else 1, v, HeadRank(env.rank, t), t
  {
    match t
    case Any => true
    case NullType => v.Null?
    case Never => false
    case Ref(name) => Conforms(env, v, Resolve(env, name), dir)
    case Enum(cases) => v.Str? && v.s in cases
    case Primitive(kind) => HasKind(v, kind)
    case Union(members) => exists m :: m in members && Conforms(env, v, m, dir)
    case ArrayOf(element) => v.Arr? && forall item :: item in v.items ==> Conforms(env, item, element, dir)
    case ObjectOf(props, additional) =>
      && v.Obj?
      && (forall e :: e in PropEntries(props, dir) ==> Conforms(env, Lookup(v.fields, e.from), e.typ, dir))
      && (forall key :: key in v.fields && key !in KeysOf(PropEntries(props, dir)) ==>
            Conforms(env, v.fields[key], additional, dir))
  }

  lemma {:induction false} FirstSomeFinds(outcomes: seq<Option<Value>>) returns (k: nat)
    requires exists i :: 0 <= i < |outcomes| && outcomes[i].Some?
    ensures k < |outcomes| && outcomes[k].Some? && FirstSome(outcomes) == outcomes[k]
    ensures forall i | 0 <= i < k :: outcomes[i].None?
  {
    if outcomes[0].Some? {
      k := 0;
    } else {
      var j := FirstSomeFinds(outcomes[1..]);
      k := j + 1;
    }
  }

  lemma {:induction false} FirstSomeIndex(outcomes: seq<Option<Value>>) returns (k: nat)
    requires FirstSome(outcomes).Some?
    ensures k < |outcomes| && outcomes[k].Some? && FirstSome(outcomes) == outcomes[k]
    ensures forall i | 0 <= i < k :: outcomes[i].None?
  {
    if outcomes[0].Some? {
      k := 0;
    } else {
      var j := FirstSomeIndex(outcomes[1..]);
      k := j + 1;
    }
  }

  /** The transformer succeeds on exactly the values that conform. */
  lemma {:induction false} TransformSucceedsIffConforms(env: Env, v: Value, t: Descriptor, dir: Direction)
    ensures Transform(env, v, t, dir).Some? <==> Conforms(env, v, t, dir)
    decreases if v.Undefined? then 0 else 1, v, HeadRank(env.rank, t), t
  {
    match t
    case Ref(name) => TransformSucceedsIffConforms(env, v, Resolve(env, name), dir);
    case Union(members) =>
      forall m | m in members
        ensures Transform(env, v, m, dir).Some? <==> Conforms(env, v, m, dir)
      {
        TransformSucceedsIffConforms(env, v, m, dir);
      }
      UnionOutcome(env, v, t, dir);
    case ArrayOf(element) =>
      if v.Arr? {
        forall item | item in v.items
          ensures Transform(env, item, element, dir).Some? <==> Conforms(env, item, element, dir)
        {
          TransformSucceedsIffConforms(env, item, element, dir);
        }
        ArrayOutcome(env, v, element, dir);
      }
    case ObjectOf(props, additional) =>
      if v.Obj? {
        var entries := PropEntries(props, dir);
        forall e | e in entries
          ensures Transform(env, Lookup(v.fields, e.from), e.typ, dir).Some?
             <==> Conforms(env, Lookup(v.fields, e.from), e.typ, dir)
        {
          TransformSucceedsIffConforms(env, Lookup(v.fields, e.from), e.typ, dir);
        }
        forall key | key in v.fields
          ensures Transform(env, v.fields[key], additional, dir).Some? <==> Conforms(env, v.fields[key], additional, dir)
        {
          TransformSucceedsIffConforms(env, v.fields[key], additional, dir);
        }
        KnownAccepted(env, v, t, dir);
        OthersAccepted(env, v, t, dir);
      }
    case _ =>
  }

  /** What `transformUnion` needs in order to succeed: some member. */
  lemma UnionOutcome(env: Env, v: Value, t: Descriptor, dir: Direction)
    requires t.Union?
    requires forall m | m in t.members :: Transform(env, v, m, dir).Some? <==> Conforms(env, v, m, dir)
    ensures Transform(env, v, t, dir).Some? <==> Conforms(env, v, t, dir)
  {
    var outcomes := MemberOutcomes(env, v, t, dir);
    if Transform(env, v, t, dir).Some? {
      var k := FirstSomeIndex(outcomes);
      assert t.members[k] in t.members;
    } else if Conforms(env, v, t, dir) {
      var i :| 0 <= i < |t.members| && Conforms(env, v, t.members[i], dir);
      assert outcomes[i].Some?;
      var k := FirstSomeFinds(outcomes);
    }
  }

  /** What `transformArray` needs in order to succeed, item by item. */
  lemma ArrayOutcome(env: Env, v: Value, element: Descriptor, dir: Direction)
    requires v.Arr?
    ensures Transform(env, v, ArrayOf(element), dir).Some?
       <==> forall item | item in v.items :: Transform(env, item, element, dir).Some?
  {
    var outcomes := ItemOutcomes(env, v, ArrayOf(element), dir);
    if AllSome(outcomes) {
      forall item | item in v.items
        ensures Transform(env, item, element, dir).Some?
      {
        var i :| 0 <= i < |v.items| && v.items[i] == item;
        assert outcomes[i] in outcomes;
      }
    } else {
      var i :| 0 <= i < |outcomes| && outcomes[i].None?;
      assert v.items[i] in v.items;
    }
  }

  lemma KnownAccepted(env: Env, v: Value, t: Descriptor, dir: Direction)
    requires v.Obj? && t.ObjectOf?
    ensures AllSome(KnownOutcomes(env, v, t, dir)) <==>
      forall e | e in PropEntries(t.props, dir) :: Transform(env, Lookup(v.fields, e.from), e.typ, dir).Some?
  {
    var entries, known := PropEntries(t.props, dir), KnownOutcomes(env, v, t, dir);
    if AllSome(known) {
      forall e | e in entries
        ensures Transform(env, Lookup(v.fields, e.from), e.typ, dir).Some?
      {
        var i :| 0 <= i < |entries| && entries[i] == e;
        assert known[i] in known;
      }
    } else {
      var i :| 0 <= i < |known| && known[i].None?;
      assert entries[i] in entries;
    }
  }

  lemma OthersAccepted(env: Env, v: Value, t: Descriptor, dir: Direction)
    requires v.Obj? && t.ObjectOf?
    ensures AllFieldsSome(OtherOutcomes(env, v, t, dir)) <==>
      forall key | key in v.fields && key !in KeysOf(PropEntries(t.props, dir)) ::
        Transform(env, v.fields[key], t.additional, dir).Some?
  {
    var others := OtherOutcomes(env, v, t, dir);
    forall key | key in v.fields && key !in KeysOf(PropEntries(t.props, dir))
      ensures key in others && others[key] == Transform(env, v.fields[key], t.additional, dir)
    {}
  }

  // ------------------------------------------------- what a cast does to values

  /** Every property has the same name on both sides, as all of `typeMap` has. */
  predicate JsonIsJs(t: Descriptor) {
    match t
    case Union(members) => forall m :: m in members ==> JsonIsJs(m)
    case ArrayOf(element) => JsonIsJs(element)
    case ObjectOf(props, additional) =>
      && JsonIsJs(additional)
      && forall p :: p in props ==> p.json == p.js && JsonIsJs(p.typ)
    case _ => true
  }

  predicate NamesAgree(env: Env) {
    forall name | name in env.types :: JsonIsJs(env.types[name])
  }

  /** `w` is `v` with some missing keys spelled out as undefined. */
  predicate Extends(w: Value, v: Value)
    decreases v
  {
    match v
    case Arr(items) =>
      w.Arr? && |w.items| == |items| && forall i | 0 <= i < |items| :: Extends(w.items[i], items[i])
    case Obj(fields) =>
      && w.Obj?
      && (forall key | key in fields :: key in w.fields && Extends(w.fields[key], fields[key]))
      && (forall key | key in w.fields && key !in fields :: w.fields[key] == Undefined)
    case _ => w == v
  }

  /** No object that the transformer takes apart has an own "__proto__" key.
      Values described by "any" are passed through and may have one. */
  ghost predicate ProtoSafe(env: Env, v: Value, t: Descriptor, dir: Direction)
    decreases if v.Undefined? then 0 else 1, v, HeadRank(env.rank, t), t
  {
    match t
    case Ref(name) => ProtoSafe(env, v, Resolve(env, name), dir)
    case Union(members) =>
      forall i | 0 <= i < |members| && Conforms(env, v, members[i], dir)
                 && (forall j | 0 <= j < i :: !Conforms(env, v, members[j], dir)) ::
        ProtoSafe(env, v, members[i], dir)
    case ArrayOf(element) => v.Arr? ==> forall item | item in v.items :: ProtoSafe(env, item, element, dir)
    case ObjectOf(props, additional) =>
      v.Obj? ==>
        && PROTO !in v.fields
        && (forall e | e in PropEntries(props, dir) :: ProtoSafe(env, Lookup(v.fields, e.from), e.typ, dir))
        && (forall key | key in v.fields && key !in KeysOf(PropEntries(props, dir)) ::
              ProtoSafe(env, v.fields[key], additional, dir))
    case _ => true
  }

  lemma {:induction false} IdentityEntries(props: seq<Prop>, dir: Direction)
    requires forall p | p in props :: p.json == p.js && JsonIsJs(p.typ)
    ensures PropEntries(props, dir) == PropEntries(props, JsonToJS)
    ensures forall e | e in PropEntries(props, dir) :: e.from == e.to && JsonIsJs(e.typ)
  {
    if props != [] {
      var front, last := props[..|props| - 1], props[|props| - 1];
      assert last in props;
      IdentityEntries(front, dir);
    }
  }

  lemma {:induction false} AssignKeys(entries: seq<Entry>, values: seq<Value>)
    requires |entries| == |values|
    requires forall e | e in entries :: e.from == e.to && e.from != PROTO
    ensures Assign(entries, values).Keys == KeysOf(entries)
  {
    if entries != [] {
      var last := |entries| - 1;
      LastEntry(entries);
      AssignKeys(entries[..last], values[..last]);
    }
  }

  lemma AssignIdentity(entries: seq<Entry>, values: seq<Value>)
    requires |entries| == |values| && DistinctKeys(entries)
    requires forall e | e in entries :: e.from == e.to && e.from != PROTO
    ensures Assign(entries, values).Keys == KeysOf(entries)
    ensures forall i | 0 <= i < |entries| :: Assign(entries, values)[entries[i].from] == values[i]
  {
    AssignKeys(entries, values);
    forall i | 0 <= i < |entries|
      ensures entries[i].from in Assign(entries, values) && Assign(entries, values)[entries[i].from] == values[i]
    {
      AssignedAt(entries, values, i);
    }
  }

  lemma {:induction false} AssignedAt(entries: seq<Entry>, values: seq<Value>, i: nat)
    requires i < |entries| == |values| && DistinctKeys(entries)
    requires forall e | e in entries :: e.from == e.to && e.from != PROTO
    ensures entries[i].from in Assign(entries, values) && Assign(entries, values)[entries[i].from] == values[i]
  {
    var last := |entries| - 1;
    LastEntry(entries);
    if i < last {
      AssignedAt(entries[..last], values[..last], i);
    }
  }

  lemma LastEntry(entries: seq<Entry>)
    requires entries != []
    ensures var last := |entries| - 1;
            && KeysOf(entries) == KeysOf(entries[..last]) + {entries[last].from}
            && entries[last] in entries
            && forall e | e in entries[..last] :: e in entries
  {
    assert entries == entries[..|entries| - 1] + [entries[|entries| - 1]];
  }

  lemma ObjectSucceeds(env: Env, v: Value, t: Descriptor, dir: Direction)
    requires v.Obj? && t.ObjectOf?
    requires AllSome(KnownOutcomes(env, v, t, dir)) && AllFieldsSome(OtherOutcomes(env, v, t, dir))
    ensures Transform(env, v, t, dir).Some?
  {}

  /** `transformObject` unfolded once. */
  lemma ObjectResult(env: Env, v: Value, t: Descriptor, dir: Direction, w: Value)
    requires v.Obj? && t.ObjectOf?
    requires Transform(env, v, t, dir) == Some(w)
    ensures AllSome(KnownOutcomes(env, v, t, dir)) && AllFieldsSome(OtherOutcomes(env, v, t, dir))
    ensures w == Obj(Assign(PropEntries(t.props, dir), Values(KnownOutcomes(env, v, t, dir)))
                     + OwnFields(OtherOutcomes(env, v, t, dir)))
  {}

  lemma KnownField(env: Env, v: Value, t: Descriptor, dir: Direction, w: Value, e: Entry)
    requires v.Obj? && t.ObjectOf? && JsonIsJs(t)
    requires Transform(env, v, t, dir) == Some(w)
    requires e in PropEntries(t.props, dir)
    ensures w.Obj? && e.from in w.fields
    ensures Transform(env, Lookup(v.fields, e.from), e.typ, dir) == Some(w.fields[e.from])
  {
    var entries, known := PropEntries(t.props, dir), KnownOutcomes(env, v, t, dir);
    ObjectResult(env, v, t, dir, w);
    IdentityEntries(t.props, dir);
    AssignIdentity(entries, Values(known));
    var i :| 0 <= i < |entries| && entries[i] == e;
    assert known[i] in known;
    assert e.from in KeysOf(entries);
    assert e.from !in OwnFields(OtherOutcomes(env, v, t, dir));
  }

  lemma OtherField(env: Env, v: Value, t: Descriptor, dir: Direction, w: Value, key: string)
    requires v.Obj? && t.ObjectOf?
    requires Transform(env, v, t, dir) == Some(w)
    requires key in v.fields && key != PROTO && key !in KeysOf(PropEntries(t.props, dir))
    ensures w.Obj? && key in w.fields
    ensures Transform(env, v.fields[key], t.additional, dir) == Some(w.fields[key])
  {
    var others := OtherOutcomes(env, v, t, dir);
    ObjectResult(env, v, t, dir, w);
    assert key in others && key in OwnFields(others);
  }

  lemma ResultKeys(env: Env, v: Value, t: Descriptor, dir: Direction, w: Value)
    requires v.Obj? && t.ObjectOf? && JsonIsJs(t)
    requires Transform(env, v, t, dir) == Some(w)
    ensures w.Obj? && w.fields.Keys == KeysOf(PropEntries(t.props, dir)) + (v.fields.Keys - {PROTO})
    ensures PROTO !in w.fields
  {
    var entries, known := PropEntries(t.props, dir), KnownOutcomes(env, v, t, dir);
    ObjectResult(env, v, t, dir, w);
    IdentityEntries(t.props, dir);
    AssignIdentity(entries, Values(known));
    assert OwnFields(OtherOutcomes(env, v, t, dir)).Keys == v.fields.Keys - KeysOf(entries) - {PROTO};
  }

  lemma {:induction false} ResolveNamesAgree(env: Env, name: string)
    requires NamesAgree(env)
    ensures JsonIsJs(Resolve(env, name))
    decreases if name in env.rank then env.rank[name] + 1 else 1
  {
    if name in env.types && env.types[name].Ref? {
      ResolveNamesAgree(env, env.types[name].name);
    }
  }

  lemma ExtendsItself(v: Value)
    ensures Extends(v, v)
  {}

  /** A cast gives the value itself, up to keys set to undefined, exactly when
      no object it takes apart has an own "__proto__" key. */
  lemma {:induction false} CastKeepsValueIffProtoSafe(env: Env, v: Value, t: Descriptor, dir: Direction, w: Value)
    requires NamesAgree(env) && JsonIsJs(t)
    requires Transform(env, v, t, dir) == Some(w)
    ensures Extends(w, v) <==> ProtoSafe(env, v, t, dir)
    decreases if v.Undefined? then 0 else 1, v, HeadRank(env.rank, t), t
  {
    match t
    case Ref(name) =>
      ResolveNamesAgree(env, name);
      CastKeepsValueIffProtoSafe(env, v, Resolve(env, name), dir, w);
    case Union(members) => CastKeepsUnion(env, v, t, dir, w);
    case ArrayOf(element) => CastKeepsArray(env, v, t, dir, w);
    case ObjectOf(props, additional) => CastKeepsObject(env, v, t, dir, w);
    case _ => ExtendsItself(v);
  }

  lemma {:induction false} CastKeepsUnion(env: Env, v: Value, t: Descriptor, dir: Direction, w: Value)
    requires NamesAgree(env) && JsonIsJs(t) && t.Union?
    requires Transform(env, v, t, dir) == Some(w)
    ensures Extends(w, v) <==> ProtoSafe(env, v, t, dir)
    decreases if v.Undefined? then 0 else 1, v, HeadRank(env.rank, t), t, 0
  {
    var k := FirstConforming(env, v, t, dir);
    assert t.members[k] in t.members;
    CastKeepsValueIffProtoSafe(env, v, t.members[k], dir, w);
    ProtoSafeOfFirst(env, v, t, dir, k);
  }

  lemma ProtoSafeOfFirst(env: Env, v: Value, t: Descriptor, dir: Direction, k: nat)
    requires t.Union? && k < |t.members| && Conforms(env, v, t.members[k], dir)
    requires forall j | 0 <= j < k :: !Conforms(env, v, t.members[j], dir)
    ensures ProtoSafe(env, v, t, dir) <==> ProtoSafe(env, v, t.members[k], dir)
  {}

  /** The member of a union that accepts the value, and that nothing before it does. */
  lemma FirstConforming(env: Env, v: Value, t: Descriptor, dir: Direction) returns (k: nat)
    requires t.Union? && Transform(env, v, t, dir).Some?
    ensures k < |t.members| && Transform(env, v, t, dir) == Transform(env, v, t.members[k], dir)
    ensures Conforms(env, v, t.members[k], dir)
    ensures forall j | 0 <= j < k :: !Conforms(env, v, t.members[j], dir)
  {
    var outcomes := MemberOutcomes(env, v, t, dir);
    k := FirstSomeIndex(outcomes);
    forall i | 0 <= i < |t.members|
      ensures outcomes[i].Some? <==> Conforms(env, v, t.members[i], dir)
    {
      TransformSucceedsIffConforms(env, v, t.members[i], dir);
    }
  }

  lemma {:induction false} CastKeepsArray(env: Env, v: Value, t: Descriptor, dir: Direction, w: Value)
    requires NamesAgree(env) && JsonIsJs(t) && t.ArrayOf?
    requires Transform(env, v, t, dir) == Some(w)
    ensures Extends(w, v) <==> ProtoSafe(env, v, t, dir)
    decreases if v.Undefined? then 0 else 1, v, HeadRank(env.rank, t), t, 0
  {
    var outcomes := ItemOutcomes(env, v, t, dir);
    forall i | 0 <= i < |v.items|
      ensures Extends(w.items[i], v.items[i]) <==> ProtoSafe(env, v.items[i], t.element, dir)
    {
      assert outcomes[i] in outcomes;
      CastKeepsValueIffProtoSafe(env, v.items[i], t.element, dir, w.items[i]);
    }
    assert (forall item | item in v.items :: ProtoSafe(env, item, t.element, dir))
      <==> forall i | 0 <= i < |v.items| :: ProtoSafe(env, v.items[i], t.element, dir);
  }

  lemma {:induction false} CastKeepsObject(env: Env, v: Value, t: Descriptor, dir: Direction, w: Value)
    requires NamesAgree(env) && JsonIsJs(t) && t.ObjectOf?
    requires Transform(env, v, t, dir) == Some(w)
    ensures Extends(w, v) <==> ProtoSafe(env, v, t, dir)
    decreases if v.Undefined? then 0 else 1, v, HeadRank(env.rank, t), t, 0
  {
    var entries := PropEntries(t.props, dir);
    IdentityEntries(t.props, dir);
    ResultKeys(env, v, t, dir, w);
    forall e | e in entries
      ensures Extends(w.fields[e.from], Lookup(v.fields, e.from)) <==> ProtoSafe(env, Lookup(v.fields, e.from), e.typ, dir)
    {
      KnownField(env, v, t, dir, w, e);
      CastKeepsValueIffProtoSafe(env, Lookup(v.fields, e.from), e.typ, dir, w.fields[e.from]);
    }
    forall key | key in v.fields && key != PROTO && key !in KeysOf(entries)
      ensures Extends(w.fields[key], v.fields[key]) <==> ProtoSafe(env, v.fields[key], t.additional, dir)
    {
      OtherField(env, v, t, dir, w, key);
      CastKeepsValueIffProtoSafe(env, v.fields[key], t.additional, dir, w.fields[key]);
    }
    ExtendsByField(v, w, entries);
  }

  /** An object extends another when it does so field by field. */
  lemma ExtendsByField(v: Value, w: Value, entries: seq<Entry>)
    requires v.Obj? && w.Obj? && w.fields.Keys == KeysOf(entries) + (v.fields.Keys - {PROTO})
    requires PROTO !in w.fields
    ensures Extends(w, v) <==>
      && PROTO !in v.fields
      && (forall e | e in entries :: Extends(w.fields[e.from], Lookup(v.fields, e.from)))
      && (forall key | key in v.fields && key !in KeysOf(entries) :: Extends(w.fields[key], v.fields[key]))
  {
    assert forall e | e in entries :: e.from in KeysOf(entries);
    assert forall key | key in KeysOf(entries) :: exists e :: e in entries && e.from == key;
  }

  // ------------------------------------------- what each descriptor stands for

  /** A type that is no name, and none of the special values that the lookup of a
      name steps over. */
  predicate IsPlain(t: Descriptor) {
    t.Enum? || t.Primitive? || t.Union? || t.ArrayOf? || t.ObjectOf?
  }

  /** A reference is what its entry is; only an entry that is "any", false or null,
      or missing, is read in another way. */
  lemma RefIsItsEntry(env: Env, v: Value, name: string, dir: Direction)
    ensures name in env.types && (IsPlain(env.types[name]) || env.types[name].Ref?) ==>
              Transform(env, v, Ref(name), dir) == Transform(env, v, env.types[name], dir)
    ensures name in env.types && env.types[name] == Any ==>
              Transform(env, v, Ref(name), dir) == if v.Str? then Some(v) else None
    ensures name in env.types && env.types[name] == Never ==>
              Transform(env, v, Ref(name), dir) == if v.Bool? then Some(v) else None
    ensures name in env.types && env.types[name] == NullType ==> Transform(env, v, Ref(name), dir) == None
    ensures name !in env.types ==> Transform(env, v, Ref(name), dir) == if v.Undefined? then Some(v) else None
  {
    if name in env.types && env.types[name] == NullType {
      assert Resolve(env, name) == Union([]);
      assert MemberOutcomes(env, v, Union([]), dir) == [];
    }
  }

  lemma SimpleTypes(env: Env, v: Value, cases: seq<string>, dir: Direction)
    ensures Transform(env, v, Any, dir) == Some(v) && Transform(env, v, Never, dir) == None
    ensures Transform(env, v, NullType, dir) == if v == Null then Some(v) else None
    ensures Transform(env, v, Primitive(StringKind), dir) == if v.Str? then Some(v) else None
    ensures Transform(env, v, Primitive(NumberKind), dir) == if v.Number? then Some(v) else None
    ensures Transform(env, v, Primitive(BoolKind), dir) == if v.Bool? then Some(v) else None
    ensures Transform(env, v, Primitive(UndefinedKind), dir) == if v == Undefined then Some(v) else None
    ensures Transform(env, v, Enum(cases), dir).Some? <==> exists c | c in cases :: v == Str(c)
    ensures Transform(env, v, Enum(cases), dir).Some? ==> Transform(env, v, Enum(cases), dir) == Some(v)
  {}

  /** The first member that accepts the value decides. */
  lemma UnionTakesFirst(env: Env, v: Value, members: seq<Descriptor>, dir: Direction, k: nat)
    requires k <= |members| && forall j | 0 <= j < k :: Transform(env, v, members[j], dir).None?
    requires k < |members| ==> Transform(env, v, members[k], dir).Some?
    ensures Transform(env, v, Union(members), dir) == if k < |members| then Transform(env, v, members[k], dir) else None
  {
    var outcomes := MemberOutcomes(env, v, Union(members), dir);
    assert Transform(env, v, Union(members), dir) == FirstSome(outcomes);
    if k < |members| {
      FirstSomeAt(outcomes, k);
    } else {
      FirstSomeFails(outcomes);
    }
  }

  /** Items in their order; one that is refused makes the whole fail. */
  lemma ArrayTakesEach(env: Env, v: Value, element: Descriptor, dir: Direction)
    ensures Transform(env, v, ArrayOf(element), dir).Some? <==>
            v.Arr? && forall i | 0 <= i < |v.items| :: Transform(env, v.items[i], element, dir).Some?
    ensures Transform(env, v, ArrayOf(element), dir).Some? ==>
              var w := Transform(env, v, ArrayOf(element), dir).value;
              && w.Arr? && |w.items| == |v.items|
              && forall i | 0 <= i < |v.items| :: Transform(env, v.items[i], element, dir) == Some(w.items[i])
  {
    if v.Arr? {
      var outcomes := ItemOutcomes(env, v, ArrayOf(element), dir);
      ArrayOutcome(env, v, element, dir);
      assert forall i | 0 <= i < |v.items| :: v.items[i] in v.items && outcomes[i] == Transform(env, v.items[i], element, dir);
      assert forall item | item in v.items :: exists i :: 0 <= i < |v.items| && v.items[i] == item;
    }
  }

  /** The name under which a property is read, and that under which it is written. */
  function SourceName(p: Prop, dir: Direction): string {
    if dir == JsonToJS then p.json else p.js
  }

  function TargetName(p: Prop, dir: Direction): string {
    if dir == JsonToJS then p.js else p.json
  }

  predicate DistinctNames(props: seq<Prop>) {
    && (forall i | 0 <= i < |props| :: props[i].json != "__proto__" && props[i].js != "__proto__")
    && (forall i, j | 0 <= i < j < |props| :: props[i].json != props[j].json && props[i].js != props[j].js)
  }

  predicate IsKnown(props: seq<Prop>, key: string, dir: Direction) {
    exists p :: p in props && SourceName(p, dir) == key
  }

  /** The value of a property, undefined when the object does not have it. */
  function ValueOf(v: Value, key: string): Value
    requires v.Obj?
  {
    if key in v.fields then v.fields[key] else Undefined
  }

  lemma {:induction false} EntriesAreProps(props: seq<Prop>, dir: Direction)
    requires DistinctNames(props)
    ensures |PropEntries(props, dir)| == |props|
    ensures forall i | 0 <= i < |props| ::
              PropEntries(props, dir)[i] == Entry(SourceName(props[i], dir), TargetName(props[i], dir), props[i].typ)
  {
    if props != [] {
      var front, last := props[..|props| - 1], props[|props| - 1];
      FrontIsDistinct(props);
      EntriesAreProps(front, dir);
      LastIsPut(props, dir);
    }
  }

  lemma FrontIsDistinct(props: seq<Prop>)
    requires props != [] && DistinctNames(props)
    ensures DistinctNames(props[..|props| - 1])
  {
    assert forall i | 0 <= i < |props| - 1 :: props[..|props| - 1][i] == props[i];
  }

  lemma LastIsPut(props: seq<Prop>, dir: Direction)
    requires props != [] && DistinctNames(props)
    requires var front := PropEntries(props[..|props| - 1], dir);
             |front| == |props| - 1 && forall i | 0 <= i < |front| :: front[i].from == SourceName(props[i], dir)
    ensures PropEntries(props, dir) == PropEntries(props[..|props| - 1], dir) + [EntryOf(props[|props| - 1], dir)]
  {
    PutNew(PropEntries(props[..|props| - 1], dir), EntryOf(props[|props| - 1], dir));
  }

  lemma PutNew(entries: seq<Entry>, e: Entry)
    requires DistinctKeys(entries) && e.from != PROTO && forall i | 0 <= i < |entries| :: entries[i].from != e.from
    ensures PutEntry(entries, e) == entries + [e]
  {}

  lemma {:induction false} AssignedTo(entries: seq<Entry>, values: seq<Value>, key: string)
    requires |entries| == |values| && forall e | e in entries :: e.to != PROTO
    requires forall i, j | 0 <= i < j < |entries| :: entries[i].to != entries[j].to
    ensures key in Assign(entries, values) <==> exists i :: 0 <= i < |entries| && entries[i].to == key
    ensures forall i | 0 <= i < |entries| && entries[i].to == key :: Get(Assign(entries, values), key) == Some(values[i])
  {
    if entries != [] {
      var last := |entries| - 1;
      LastEntry(entries);
      AssignedTo(entries[..last], values[..last], key);
      assert forall i | 0 <= i < last :: entries[..last][i] == entries[i];
    }
  }

  lemma EntriesAccepted(env: Env, v: Value, props: seq<Prop>, dir: Direction)
    requires v.Obj? && DistinctNames(props)
    ensures (forall e | e in PropEntries(props, dir) :: Transform(env, Lookup(v.fields, e.from), e.typ, dir).Some?) <==>
            (forall p | p in props :: Transform(env, ValueOf(v, SourceName(p, dir)), p.typ, dir).Some?)
  {
    var entries := PropEntries(props, dir);
    EntriesAreProps(props, dir);
    forall p | p in props
      ensures Entry(SourceName(p, dir), TargetName(p, dir), p.typ) in entries
    {
      var i :| 0 <= i < |props| && props[i] == p;
      assert entries[i] in entries;
    }
    forall e | e in entries
      ensures exists p :: p in props && e == Entry(SourceName(p, dir), TargetName(p, dir), p.typ)
    {
      var i :| 0 <= i < |entries| && entries[i] == e;
      assert props[i] in props;
    }
  }

  lemma ObjectAccepted(env: Env, v: Value, t: Descriptor, dir: Direction)
    requires t.ObjectOf?
    ensures Transform(env, v, t, dir).Some? <==>
            v.Obj? && AllSome(KnownOutcomes(env, v, t, dir)) && AllFieldsSome(OtherOutcomes(env, v, t, dir))
  {}

  /** An object is accepted when every property of its type is, a missing one as
      undefined, and every other key by the additional type. */
  lemma ObjectSucceedsIff(env: Env, v: Value, t: Descriptor, dir: Direction)
    requires t.ObjectOf? && DistinctNames(t.props)
    ensures Transform(env, v, t, dir).Some? <==>
      && v.Obj?
      && (forall p | p in t.props :: Transform(env, ValueOf(v, SourceName(p, dir)), p.typ, dir).Some?)
      && (forall key | key in v.fields && !IsKnown(t.props, key, dir) ::
            Transform(env, v.fields[key], t.additional, dir).Some?)
  {
    ObjectAccepted(env, v, t, dir);
    if v.Obj? {
      KnownAccepted(env, v, t, dir);
      OthersAccepted(env, v, t, dir);
      EntriesAccepted(env, v, t.props, dir);
      KnownIsKey(t.props, dir);
    }
  }

  lemma KnownIsKey(props: seq<Prop>, dir: Direction)
    requires DistinctNames(props)
    ensures forall key :: key in KeysOf(PropEntries(props, dir)) <==> IsKnown(props, key, dir)
  {
    EntriesAreProps(props, dir);
    var entries := PropEntries(props, dir);
    forall key
      ensures key in KeysOf(entries) <==> IsKnown(props, key, dir)
    {
      if IsKnown(props, key, dir) {
        var p :| p in props && SourceName(p, dir) == key;
        var i :| 0 <= i < |props| && props[i] == p;
        assert entries[i] in entries;
      }
      if key in KeysOf(entries) {
        var e :| e in entries && e.from == key;
        var i :| 0 <= i < |entries| && entries[i] == e;
        assert props[i] in props;
      }
    }
  }

  /** A key that is no property keeps its name, and its value wins over a property. */
  lemma OtherKeyIsKept(env: Env, v: Value, t: Descriptor, dir: Direction, w: Value, key: string)
    requires v.Obj? && t.ObjectOf? && DistinctNames(t.props) && Transform(env, v, t, dir) == Some(w)
    requires key in v.fields && !IsKnown(t.props, key, dir) && key != "__proto__"
    ensures w.Obj? && key in w.fields && Transform(env, v.fields[key], t.additional, dir) == Some(w.fields[key])
  {
    KnownIsKey(t.props, dir);
    OtherField(env, v, t, dir, w, key);
  }

  /** Each property is read under its name on one side and written under its name
      on the other, and nothing else is there. */
  lemma PropertyIsRenamed(env: Env, v: Value, t: Descriptor, dir: Direction, w: Value, key: string)
    requires v.Obj? && t.ObjectOf? && DistinctNames(t.props) && Transform(env, v, t, dir) == Some(w)
    requires key !in v.fields || IsKnown(t.props, key, dir) || key == "__proto__"
    ensures w.Obj? && (key in w.fields <==> exists i :: 0 <= i < |t.props| && TargetName(t.props[i], dir) == key)
    ensures forall i | 0 <= i < |t.props| && TargetName(t.props[i], dir) == key ::
              Transform(env, ValueOf(v, SourceName(t.props[i], dir)), t.props[i].typ, dir) == Some(w.fields[key])
  {
    var entries, known := PropEntries(t.props, dir), KnownOutcomes(env, v, t, dir);
    FieldOfKnown(env, v, t, dir, w, key);
    EntriesByTarget(t.props, dir, key);
    AssignedTo(entries, Values(known), key);
    forall i | 0 <= i < |t.props| && TargetName(t.props[i], dir) == key
      ensures Transform(env, ValueOf(v, SourceName(t.props[i], dir)), t.props[i].typ, dir) == Some(w.fields[key])
    {
      KnownAt(env, v, t, dir, i);
      assert known[i] in known;
      assert Get(Assign(entries, Values(known)), key) == Some(Values(known)[i]);
    }
  }

  lemma FieldOfKnown(env: Env, v: Value, t: Descriptor, dir: Direction, w: Value, key: string)
    requires v.Obj? && t.ObjectOf? && DistinctNames(t.props) && Transform(env, v, t, dir) == Some(w)
    requires key !in v.fields || IsKnown(t.props, key, dir) || key == "__proto__"
    ensures w.Obj? && AllSome(KnownOutcomes(env, v, t, dir))
    ensures Get(w.fields, key) == Get(Assign(PropEntries(t.props, dir), Values(KnownOutcomes(env, v, t, dir))), key)
  {
    ObjectResult(env, v, t, dir, w);
    KnownIsKey(t.props, dir);
    assert key !in OwnFields(OtherOutcomes(env, v, t, dir));
  }

  lemma KnownAt(env: Env, v: Value, t: Descriptor, dir: Direction, i: nat)
    requires v.Obj? && t.ObjectOf? && DistinctNames(t.props) && i < |t.props|
    ensures |KnownOutcomes(env, v, t, dir)| == |t.props| && PropEntries(t.props, dir)[i].to == TargetName(t.props[i], dir)
    ensures KnownOutcomes(env, v, t, dir)[i] ==
            Transform(env, ValueOf(v, SourceName(t.props[i], dir)), t.props[i].typ, dir)
  {
    EntriesAreProps(t.props, dir);
  }

  lemma EntriesByTarget(props: seq<Prop>, dir: Direction, key: string)
    requires DistinctNames(props)
    ensures var entries := PropEntries(props, dir);
            && (forall e | e in entries :: e.to != PROTO)
            && (forall i, j | 0 <= i < j < |entries| :: entries[i].to != entries[j].to)
            && ((exists i :: 0 <= i < |entries| && entries[i].to == key) <==>
                exists i :: 0 <= i < |props| && TargetName(props[i], dir) == key)
  {
    EntriesAreProps(props, dir);
    var entries := PropEntries(props, dir);
    assert forall i | 0 <= i < |props| :: entries[i].to == key <==> TargetName(props[i], dir) == key;
  }

  // ------------------------------------------------------------- round trip

  function Cast(env: Env, v: Value, t: Descriptor): Option<Value> {
    Transform(env, v, t, JsonToJS)
  }

  function Uncast(env: Env, v: Value, t: Descriptor): Option<Value> {
    Transform(env, v, t, JSToJson)
  }

  /** A cast reads the json name of a property and writes its js name; uncasting does
      the reverse. */
  lemma CastRenames(env: Env, v: Value, t: Descriptor, w: Value, i: nat)
    requires v.Obj? && t.ObjectOf? && DistinctNames(t.props) && i < |t.props|
    ensures var p := t.props[i];
            Cast(env, v, t) == Some(w) && p.js !in v.fields ==>
              && w.Obj? && p.js in w.fields
              && Cast(env, if p.json in v.fields then v.fields[p.json] else Undefined, p.typ) == Some(w.fields[p.js])
    ensures var p := t.props[i];
            Uncast(env, v, t) == Some(w) && p.json !in v.fields ==>
              && w.Obj? && p.json in w.fields
              && Uncast(env, if p.js in v.fields then v.fields[p.js] else Undefined, p.typ) == Some(w.fields[p.json])
  {
    var p := t.props[i];
    if Cast(env, v, t) == Some(w) && p.js !in v.fields {
      assert TargetName(p, JsonToJS) == p.js;
      PropertyIsRenamed(env, v, t, JsonToJS, w, p.js);
    }
    if Uncast(env, v, t) == Some(w) && p.json !in v.fields {
      assert TargetName(p, JSToJson) == p.json;
      PropertyIsRenamed(env, v, t, JSToJson, w, p.json);
    }
  }

  /** With one name per property, casting and uncasting are the same function. */
  lemma {:induction false} DirectionIrrelevant(env: Env, v: Value, t: Descriptor)
    requires NamesAgree(env) && JsonIsJs(t)
    ensures Uncast(env, v, t) == Cast(env, v, t)
    decreases if v.Undefined? then 0 else 1, v, HeadRank(env.rank, t), t
  {
    match t
    case Ref(name) =>
      ResolveNamesAgree(env, name);
      DirectionIrrelevant(env, v, Resolve(env, name));
    case Union(members) =>
      forall i | 0 <= i < |members|
        ensures Uncast(env, v, members[i]) == Cast(env, v, members[i])
      {
        assert members[i] in members;
        DirectionIrrelevant(env, v, members[i]);
      }
      assert MemberOutcomes(env, v, t, JSToJson) == MemberOutcomes(env, v, t, JsonToJS);
    case ArrayOf(element) =>
      if v.Arr? {
        forall i | 0 <= i < |v.items|
          ensures Uncast(env, v.items[i], element) == Cast(env, v.items[i], element)
        {
          DirectionIrrelevant(env, v.items[i], element);
        }
        assert ItemOutcomes(env, v, t, JSToJson) == ItemOutcomes(env, v, t, JsonToJS);
      }
    case ObjectOf(props, additional) =>
      if v.Obj? {
        IdentityEntries(props, JSToJson);
        var entries := PropEntries(props, JsonToJS);
        forall e | e in entries
          ensures Uncast(env, Lookup(v.fields, e.from), e.typ) == Cast(env, Lookup(v.fields, e.from), e.typ)
        {
          DirectionIrrelevant(env, Lookup(v.fields, e.from), e.typ);
        }
        forall key | key in v.fields
          ensures Uncast(env, v.fields[key], additional) == Cast(env, v.fields[key], additional)
        {
          DirectionIrrelevant(env, v.fields[key], additional);
        }
        assert KnownOutcomes(env, v, t, JSToJson) == KnownOutcomes(env, v, t, JsonToJS);
        assert OtherOutcomes(env, v, t, JSToJson) == OtherOutcomes(env, v, t, JsonToJS);
      }
    case _ =>
  }

  /** Spelling out a missing key never makes a value conform. */
  lemma {:induction false} ConformsMonotone(env: Env, w: Value, v: Value, t: Descriptor, dir: Direction)
    requires Extends(w, v) && Conforms(env, w, t, dir)
    ensures Conforms(env, v, t, dir)
    decreases if v.Undefined? then 0 else 1, v, HeadRank(env.rank, t), t
  {
    match t
    case Ref(name) => ConformsMonotone(env, w, v, Resolve(env, name), dir);
    case Union(members) =>
      var m :| m in members && Conforms(env, w, m, dir);
      ConformsMonotone(env, w, v, m, dir);
    case ArrayOf(element) =>
      forall i | 0 <= i < |v.items|
        ensures Conforms(env, v.items[i], element, dir)
      {
        assert w.items[i] in w.items;
        ConformsMonotone(env, w.items[i], v.items[i], element, dir);
      }
    case ObjectOf(props, additional) =>
      forall e | e in PropEntries(props, dir)
        ensures Conforms(env, Lookup(v.fields, e.from), e.typ, dir)
      {
        ConformsMonotone(env, Lookup(w.fields, e.from), Lookup(v.fields, e.from), e.typ, dir);
      }
      forall key | key in v.fields && key !in KeysOf(PropEntries(props, dir))
        ensures Conforms(env, v.fields[key], additional, dir)
      {
        ConformsMonotone(env, w.fields[key], v.fields[key], additional, dir);
      }
    case _ =>
  }

  lemma {:induction false} FirstSomeAt(outcomes: seq<Option<Value>>, k: nat)
    requires k < |outcomes| && outcomes[k].Some? && forall j | 0 <= j < k :: outcomes[j].None?
    ensures FirstSome(outcomes) == outcomes[k]
  {
    if k > 0 {
      FirstSomeAt(outcomes[1..], k - 1);
    }
  }

  lemma FirstSomeFails(outcomes: seq<Option<Value>>)
    requires forall i | 0 <= i < |outcomes| :: outcomes[i].None?
    ensures FirstSome(outcomes).None?
  {}

  /** Casting the result of a lossless cast changes nothing: every union picks
      the member it picked before, and every missing key is already there. */
  lemma {:induction false} LosslessCastIsSteady(env: Env, v: Value, t: Descriptor, w: Value)
    requires NamesAgree(env) && JsonIsJs(t)
    requires Cast(env, v, t) == Some(w) && Extends(w, v)
    ensures Cast(env, w, t) == Some(w)
    decreases if v.Undefined? then 0 else 1, v, HeadRank(env.rank, t), t
  {
    match t
    case Ref(name) =>
      ResolveNamesAgree(env, name);
      LosslessCastIsSteady(env, v, Resolve(env, name), w);
    case Union(members) =>
      var k := FirstConforming(env, v, t, JsonToJS);
      assert members[k] in members;
      LosslessCastIsSteady(env, v, members[k], w);
      var outcomes := MemberOutcomes(env, w, t, JsonToJS);
      forall j | 0 <= j < k
        ensures outcomes[j].None?
      {
        TransformSucceedsIffConforms(env, w, members[j], JsonToJS);
        if Conforms(env, w, members[j], JsonToJS) {
          ConformsMonotone(env, w, v, members[j], JsonToJS);
          assert false;
        }
      }
      FirstSomeAt(outcomes, k);
    case ArrayOf(element) =>
      var before, after := ItemOutcomes(env, v, t, JsonToJS), ItemOutcomes(env, w, t, JsonToJS);
      forall i | 0 <= i < |v.items|
        ensures after[i] == Some(w.items[i])
      {
        assert before[i] in before;
        LosslessCastIsSteady(env, v.items[i], element, w.items[i]);
      }
      assert Values(after) == w.items;
    case ObjectOf(props, additional) => LosslessObjectIsSteady(env, v, t, w);
    case _ =>
  }

  /** Casting the result of a cast changes nothing, when no object taken apart has
      an own "__proto__" key. */
  lemma CastIdempotent(env: Env, v: Value, t: Descriptor, w: Value)
    requires NamesAgree(env) && JsonIsJs(t)
    requires Cast(env, v, t) == Some(w) && ProtoSafe(env, v, t, JsonToJS)
    ensures Cast(env, w, t) == Some(w)
  {
    CastKeepsValueIffProtoSafe(env, v, t, JsonToJS, w);
    LosslessCastIsSteady(env, v, t, w);
  }

  /** No object that a cast takes apart has an own "__proto__" key, and each has all
      the properties of its type as keys. */
  ghost predicate Complete(env: Env, v: Value, t: Descriptor)
    decreases if v.Undefined? then 0 else 1, v, HeadRank(env.rank, t), t
  {
    match t
    case Ref(name) => Complete(env, v, Resolve(env, name))
    case Union(members) =>
      forall i | 0 <= i < |members| && Conforms(env, v, members[i], JsonToJS)
                 && (forall j | 0 <= j < i :: !Conforms(env, v, members[j], JsonToJS)) ::
        Complete(env, v, members[i])
    case ArrayOf(element) => v.Arr? ==> forall item | item in v.items :: Complete(env, item, element)
    case ObjectOf(props, additional) =>
      v.Obj? ==>
        && PROTO !in v.fields && KeysOf(PropEntries(props, JsonToJS)) <= v.fields.Keys
        && (forall e | e in PropEntries(props, JsonToJS) :: Complete(env, Lookup(v.fields, e.from), e.typ))
        && (forall key | key in v.fields && key !in KeysOf(PropEntries(props, JsonToJS)) ::
              Complete(env, v.fields[key], additional))
    case _ => true
  }

  /** A cast gives back the very value exactly when that is complete. */
  lemma {:induction false} CastReturnsItselfIff(env: Env, v: Value, t: Descriptor, w: Value)
    requires NamesAgree(env) && JsonIsJs(t) && Cast(env, v, t) == Some(w)
    ensures w == v <==> Complete(env, v, t)
    decreases if v.Undefined? then 0 else 1, v, HeadRank(env.rank, t), t
  {
    match t
    case Ref(name) =>
      ResolveNamesAgree(env, name);
      CastReturnsItselfIff(env, v, Resolve(env, name), w);
    case Union(members) =>
      var k := FirstConforming(env, v, t, JsonToJS);
      assert members[k] in members;
      CastReturnsItselfIff(env, v, members[k], w);
      CompleteOfFirst(env, v, t, k);
    case ArrayOf(element) =>
      var outcomes := ItemOutcomes(env, v, t, JsonToJS);
      forall i | 0 <= i < |v.items|
        ensures w.items[i] == v.items[i] <==> Complete(env, v.items[i], element)
      {
        assert outcomes[i] in outcomes;
        CastReturnsItselfIff(env, v.items[i], element, w.items[i]);
      }
      assert w.items == v.items <==> forall i | 0 <= i < |v.items| :: w.items[i] == v.items[i];
    case ObjectOf(props, additional) => ObjectReturnsItselfIff(env, v, t, w);
    case _ =>
  }

  lemma CompleteOfFirst(env: Env, v: Value, t: Descriptor, k: nat)
    requires t.Union? && k < |t.members| && Conforms(env, v, t.members[k], JsonToJS)
    requires forall j | 0 <= j < k :: !Conforms(env, v, t.members[j], JsonToJS)
    ensures Complete(env, v, t) <==> Complete(env, v, t.members[k])
  {}

  lemma {:induction false} ObjectReturnsItselfIff(env: Env, v: Value, t: Descriptor, w: Value)
    requires NamesAgree(env) && JsonIsJs(t) && t.ObjectOf? && Cast(env, v, t) == Some(w)
    ensures w == v <==> Complete(env, v, t)
    decreases if v.Undefined? then 0 else 1, v, HeadRank(env.rank, t), t, 0
  {
    var entries := PropEntries(t.props, JsonToJS);
    IdentityEntries(t.props, JsonToJS);
    ResultKeys(env, v, t, JsonToJS, w);
    forall e | e in entries
      ensures w.fields[e.from] == Lookup(v.fields, e.from) <==> Complete(env, Lookup(v.fields, e.from), e.typ)
    {
      KnownField(env, v, t, JsonToJS, w, e);
      CastReturnsItselfIff(env, Lookup(v.fields, e.from), e.typ, w.fields[e.from]);
    }
    forall key | key in v.fields && key != PROTO && key !in KeysOf(entries)
      ensures w.fields[key] == v.fields[key] <==> Complete(env, v.fields[key], t.additional)
    {
      OtherField(env, v, t, JsonToJS, w, key);
      CastReturnsItselfIff(env, v.fields[key], t.additional, w.fields[key]);
    }
    EqualByField(v, w, entries);
  }

  lemma EqualByField(v: Value, w: Value, entries: seq<Entry>)
    requires v.Obj? && w.Obj? && w.fields.Keys == KeysOf(entries) + (v.fields.Keys - {PROTO})
    requires PROTO !in w.fields
    ensures w == v <==>
      && PROTO !in v.fields && KeysOf(entries) <= v.fields.Keys
      && (forall e | e in entries :: w.fields[e.from] == Lookup(v.fields, e.from))
      && (forall key | key in v.fields && key !in KeysOf(entries) :: w.fields[key] == v.fields[key])
  {}

  /** The values that a cast leaves alone, without the transformer; so a cast is
      idempotent on the inputs whose result is one of these. */
  lemma CastFixesIff(env: Env, v: Value, t: Descriptor)
    requires NamesAgree(env) && JsonIsJs(t)
    ensures Cast(env, v, t) == Some(v) <==> Conforms(env, v, t, JsonToJS) && Complete(env, v, t)
  {
    TransformSucceedsIffConforms(env, v, t, JsonToJS);
    if Conforms(env, v, t, JsonToJS) {
      CastReturnsItselfIff(env, v, t, Cast(env, v, t).value);
    }
  }

  const STRICT := ObjectOf([Prop("b", "b", Primitive(UndefinedKind))], Primitive(BoolKind))

  const LOOSE := ObjectOf([], Any)

  lemma PickOfTwo(env: Env, v: Value, one: Descriptor, other: Descriptor)
    ensures Cast(env, v, Union([one, other])) ==
            if Cast(env, v, one).Some? then Cast(env, v, one) else Cast(env, v, other)
  {
    var outcomes := MemberOutcomes(env, v, Union([one, other]), JsonToJS);
    if Cast(env, v, one).Some? {
      FirstSomeAt(outcomes, 0);
    } else if Cast(env, v, other).Some? {
      FirstSomeAt(outcomes, 1);
    } else {
      FirstSomeFails(outcomes);
    }
  }

  lemma StrictEntries()
    ensures PropEntries(STRICT.props, JsonToJS) == [Entry("b", "b", Primitive(UndefinedKind))]
    ensures KeysOf(PropEntries(STRICT.props, JsonToJS)) == {"b"}
    ensures PropEntries(LOOSE.props, JsonToJS) == [] && KeysOf([]) == {}
  {
    assert STRICT.props[..0] == [] && PropEntries([], JsonToJS) == [];
  }

  lemma StrictAccepts(env: Env, v: Value)
    requires v.Obj? && "b" !in v.fields
    ensures Cast(env, v, STRICT).Some? <==> forall key | key in v.fields :: v.fields[key].Bool?
  {
    StrictEntries();
    TransformSucceedsIffConforms(env, v, STRICT, JsonToJS);
    forall key | key in v.fields
      ensures Conforms(env, v.fields[key], Primitive(BoolKind), JsonToJS) <==> v.fields[key].Bool?
    {}
  }

  lemma LooseKeepsTheRest(env: Env, v: Value, w: Value)
    requires v.Obj? && w.Obj? && w.fields == v.fields - {PROTO}
    ensures Cast(env, v, LOOSE) == Some(w)
  {
    StrictEntries();
    ObjectSucceeds(env, v, LOOSE, JsonToJS);
    var x := Cast(env, v, LOOSE).value;
    ResultKeys(env, v, LOOSE, JsonToJS, x);
    forall key | key in w.fields
      ensures x.fields[key] == w.fields[key]
    {
      OtherField(env, v, LOOSE, JsonToJS, x, key);
    }
    assert x.fields == w.fields;
  }

  lemma StrictAddsUndefined(env: Env, w: Value, x: Value)
    requires w.Obj? && "b" !in w.fields && Cast(env, w, STRICT) == Some(x)
    ensures x.Obj? && "b" in x.fields && x.fields["b"] == Undefined
  {
    var entry := Entry("b", "b", Primitive(UndefinedKind));
    StrictEntries();
    StrictAndLooseAgree();
    assert entry in PropEntries(STRICT.props, JsonToJS);
    KnownField(env, w, STRICT, JsonToJS, x, entry);
  }

  lemma StrictKeepsBool(env: Env, w: Value, x: Value, key: string)
    requires w.Obj? && Cast(env, w, STRICT) == Some(x)
    requires key in w.fields && key != PROTO && key != "b"
    ensures x.Obj? && key in x.fields && x.fields[key] == w.fields[key]
  {
    StrictEntries();
    OtherField(env, w, STRICT, JsonToJS, x, key);
  }

  lemma StrictSpellsOut(env: Env, w: Value, x: Value)
    requires w == Obj(map["a" := Bool(true)]) && x == Obj(map["a" := Bool(true), "b" := Undefined])
    ensures Cast(env, w, STRICT) == Some(x)
  {
    StrictAccepts(env, w);
    var y := Cast(env, w, STRICT).value;
    StrictKeys(env, w, y);
    StrictAddsUndefined(env, w, y);
    StrictKeepsBool(env, w, y, "a");
    assert y.fields.Keys == {"a", "b"} == x.fields.Keys;
    assert y.fields == x.fields;
  }

  lemma StrictKeys(env: Env, w: Value, y: Value)
    requires w.Obj? && PROTO !in w.fields && Cast(env, w, STRICT) == Some(y)
    ensures y.Obj? && y.fields.Keys == {"b"} + w.fields.Keys
  {
    StrictEntries();
    StrictAndLooseAgree();
    ResultKeys(env, w, STRICT, JsonToJS, y);
  }

  lemma StrictAndLooseAgree()
    ensures JsonIsJs(Union([STRICT, LOOSE]))
  {
    assert JsonIsJs(STRICT) && JsonIsJs(LOOSE);
  }

  /** With such a key it can: once the key is lost, an earlier member of the union
      accepts the result, and spells out a property of its own. */
  lemma ProtoKeyBreaksIdempotence(env: Env)
    ensures var t, v := Union([STRICT, LOOSE]), Obj(map[PROTO := Str("x"), "a" := Bool(true)]);
            var w, x := Obj(map["a" := Bool(true)]), Obj(map["a" := Bool(true), "b" := Undefined]);
            JsonIsJs(t) && Cast(env, v, t) == Some(w) && Cast(env, w, t) == Some(x) && x != w
  {
    StrictAndLooseAgree();
    var v := Obj(map[PROTO := Str("x"), "a" := Bool(true)]);
    var w, x := Obj(map["a" := Bool(true)]), Obj(map["a" := Bool(true), "b" := Undefined]);
    assert PROTO in v.fields && !v.fields[PROTO].Bool?;
    StrictAccepts(env, v);
    LooseKeepsTheRest(env, v, w);
    StrictSpellsOut(env, w, x);
    PickOfTwo(env, v, STRICT, LOOSE);
    PickOfTwo(env, w, STRICT, LOOSE);
    assert "b" in x.fields && "b" !in w.fields;
  }

  lemma {:induction false} LosslessObjectIsSteady(env: Env, v: Value, t: Descriptor, w: Value)
    requires NamesAgree(env) && JsonIsJs(t) && t.ObjectOf?
    requires Cast(env, v, t) == Some(w) && Extends(w, v)
    ensures Cast(env, w, t) == Some(w)
    decreases if v.Undefined? then 0 else 1, v, HeadRank(env.rank, t), t, 0
  {
    var entries := PropEntries(t.props, JsonToJS);
    IdentityEntries(t.props, JsonToJS);
    ResultKeys(env, v, t, JsonToJS, w);
    forall e | e in entries
      ensures e.from in w.fields && Cast(env, w.fields[e.from], e.typ) == Some(w.fields[e.from])
    {
      KnownField(env, v, t, JsonToJS, w, e);
      LosslessCastIsSteady(env, Lookup(v.fields, e.from), e.typ, w.fields[e.from]);
    }
    forall key | key in w.fields && key !in KeysOf(entries)
      ensures Cast(env, w.fields[key], t.additional) == Some(w.fields[key])
    {
      OtherField(env, v, t, JsonToJS, w, key);
      LosslessCastIsSteady(env, v.fields[key], t.additional, w.fields[key]);
    }
    ObjectFixed(env, t, w);
  }

  ghost predicate FieldsFixed(env: Env, t: Descriptor, w: Value)
    requires w.Obj? && t.ObjectOf?
  {
    && PROTO !in w.fields && KeysOf(PropEntries(t.props, JsonToJS)) <= w.fields.Keys
    && (forall e | e in PropEntries(t.props, JsonToJS) && e.from in w.fields ::
          Cast(env, w.fields[e.from], e.typ) == Some(w.fields[e.from]))
    && (forall key | key in w.fields && key !in KeysOf(PropEntries(t.props, JsonToJS)) ::
          Cast(env, w.fields[key], t.additional) == Some(w.fields[key]))
  }

  lemma FixedFieldsAccepted(env: Env, t: Descriptor, w: Value)
    requires w.Obj? && t.ObjectOf? && FieldsFixed(env, t, w)
    ensures Cast(env, w, t).Some?
  {
    var entries := PropEntries(t.props, JsonToJS);
    forall e | e in entries
      ensures e.from in w.fields && Lookup(w.fields, e.from) == w.fields[e.from]
    {
      assert e.from in KeysOf(entries);
    }
    KnownAccepted(env, w, t, JsonToJS);
    OthersAccepted(env, w, t, JsonToJS);
    ObjectSucceeds(env, w, t, JsonToJS);
  }

  lemma FixedFieldKept(env: Env, t: Descriptor, w: Value, x: Value, key: string)
    requires w.Obj? && t.ObjectOf? && JsonIsJs(t) && FieldsFixed(env, t, w)
    requires Cast(env, w, t) == Some(x) && key in w.fields
    ensures x.Obj? && key in x.fields && x.fields[key] == w.fields[key]
  {
    var entries := PropEntries(t.props, JsonToJS);
    if key in KeysOf(entries) {
      var e :| e in entries && e.from == key;
      KnownField(env, w, t, JsonToJS, x, e);
    } else {
      OtherField(env, w, t, JsonToJS, x, key);
    }
  }

  /** An object is a fixed point of its type when each of its fields is. */
  lemma {:induction false} ObjectFixed(env: Env, t: Descriptor, w: Value)
    requires w.Obj? && t.ObjectOf? && JsonIsJs(t) && FieldsFixed(env, t, w)
    ensures Cast(env, w, t) == Some(w)
  {
    FixedFieldsAccepted(env, t, w);
    var x := Cast(env, w, t).value;
    ResultKeys(env, w, t, JsonToJS, x);
    forall key | key in w.fields
      ensures x.fields[key] == w.fields[key]
    {
      FixedFieldKept(env, t, w, x, key);
    }
    assert x.fields == w.fields;
  }

  /** What JSON.parse can return. */
  predicate IsJson(v: Value) {
    match v
    case Undefined => false
    case Arr(items) => forall item :: item in items ==> IsJson(item)
    case Obj(fields) => forall key | key in fields :: IsJson(fields[key])
    case _ => true
  }

  /** The value that JSON.stringify writes: keys set to undefined are left out,
      and undefined items become null. */
  function Stringified(v: Value): Value {
    match v
    case Arr(items) =>
      Arr(seq(|items|, i requires 0 <= i < |items| => if items[i].Undefined? then Null else Stringified(items[i])))
    case Obj(fields) => Obj(map key | key in fields && !fields[key].Undefined? :: Stringified(fields[key]))
    case _ => v
  }

  /** `w` is `v` with some keys dropped and some missing keys spelled out. */
  predicate Trims(w: Value, v: Value)
    decreases v
  {
    match v
    case Arr(items) =>
      w.Arr? && |w.items| == |items| && forall i | 0 <= i < |items| :: Trims(w.items[i], items[i])
    case Obj(fields) =>
      && w.Obj?
      && forall key | key in w.fields ::
           if key in fields then Trims(w.fields[key], fields[key]) else w.fields[key] == Undefined
    case _ => w == v
  }

  lemma TrimsItself(v: Value)
    ensures Trims(v, v)
  {}

  lemma {:induction false} CastTrims(env: Env, v: Value, t: Descriptor, w: Value)
    requires NamesAgree(env) && JsonIsJs(t) && Cast(env, v, t) == Some(w)
    ensures Trims(w, v)
    decreases if v.Undefined? then 0 else 1, v, HeadRank(env.rank, t), t
  {
    match t
    case Ref(name) =>
      ResolveNamesAgree(env, name);
      CastTrims(env, v, Resolve(env, name), w);
    case Union(members) =>
      var k := FirstConforming(env, v, t, JsonToJS);
      assert members[k] in members;
      CastTrims(env, v, members[k], w);
    case ArrayOf(element) =>
      var outcomes := ItemOutcomes(env, v, t, JsonToJS);
      forall i | 0 <= i < |v.items|
        ensures Trims(w.items[i], v.items[i])
      {
        assert outcomes[i] in outcomes;
        CastTrims(env, v.items[i], element, w.items[i]);
      }
    case ObjectOf(props, additional) => CastObjectTrims(env, v, t, w);
    case _ => TrimsItself(v);
  }

  lemma {:induction false} CastObjectTrims(env: Env, v: Value, t: Descriptor, w: Value)
    requires NamesAgree(env) && JsonIsJs(t) && t.ObjectOf? && Cast(env, v, t) == Some(w)
    ensures Trims(w, v)
    decreases if v.Undefined? then 0 else 1, v, HeadRank(env.rank, t), t, 0
  {
    var entries := PropEntries(t.props, JsonToJS);
    IdentityEntries(t.props, JsonToJS);
    ResultKeys(env, v, t, JsonToJS, w);
    forall key | key in w.fields
      ensures if key in v.fields then Trims(w.fields[key], v.fields[key]) else w.fields[key] == Undefined
    {
      if key in KeysOf(entries) {
        var e :| e in entries && e.from == key;
        KnownField(env, v, t, JsonToJS, w, e);
        CastTrims(env, Lookup(v.fields, key), e.typ, w.fields[key]);
      } else {
        OtherField(env, v, t, JsonToJS, w, key);
        CastTrims(env, v.fields[key], t.additional, w.fields[key]);
      }
    }
  }

  lemma {:induction false} StringifiedExtension(w: Value, v: Value)
    requires Extends(w, v) && IsJson(v)
    ensures Stringified(w) == v
    decreases v
  {
    match v
    case Arr(items) =>
      forall i | 0 <= i < |items|
        ensures !w.items[i].Undefined? && Stringified(w.items[i]) == items[i]
      {
        assert items[i] in items;
        StringifiedExtension(w.items[i], items[i]);
      }
      assert Stringified(w).items == items;
    case Obj(fields) =>
      forall key | key in fields
        ensures !w.fields[key].Undefined? && Stringified(w.fields[key]) == fields[key]
      {
        StringifiedExtension(w.fields[key], fields[key]);
      }
      assert Stringified(w).fields == fields;
    case _ =>
  }

  lemma {:induction false} WrittenBackMeansKept(x: Value, w: Value, v: Value)
    requires IsJson(v) && Trims(w, v) && Trims(x, w) && Stringified(x) == v
    ensures Extends(w, v)
    decreases v
  {
    match v
    case Arr(items) =>
      forall i | 0 <= i < |items|
        ensures Extends(w.items[i], items[i])
      {
        assert items[i] in items && items[i] == Stringified(x).items[i];
        assert Trims(x.items[i], w.items[i]) && Trims(w.items[i], items[i]);
        WrittenBackMeansKept(x.items[i], w.items[i], items[i]);
      }
    case Obj(fields) =>
      forall key | key in fields
        ensures key in w.fields && Extends(w.fields[key], fields[key])
      {
        assert key in Stringified(x).fields;
        WrittenBackMeansKept(x.fields[key], w.fields[key], fields[key]);
      }
    case _ =>
  }

  /** `Convert.bundleSchemaToJson(Convert.toBundleSchema(json))` writes the parsed
      value back exactly when no object taken apart has an own "__proto__" key. */
  lemma ConvertRoundTripIffProtoSafe(env: Env, v: Value, t: Descriptor, w: Value)
    requires NamesAgree(env) && JsonIsJs(t) && IsJson(v)
    requires Cast(env, v, t) == Some(w)
    ensures ProtoSafe(env, v, t, JsonToJS) <==>
            Uncast(env, w, t).Some? && Stringified(Uncast(env, w, t).value) == v
    ensures ProtoSafe(env, v, t, JsonToJS) ==> Uncast(env, w, t) == Some(w)
  {
    CastKeepsValueIffProtoSafe(env, v, t, JsonToJS, w);
    DirectionIrrelevant(env, w, t);
    if Extends(w, v) {
      LosslessCastIsSteady(env, v, t, w);
      StringifiedExtension(w, v);
    } else if Cast(env, w, t).Some? {
      var x := Cast(env, w, t).value;
      CastTrims(env, v, t, w);
      CastTrims(env, w, t, x);
      if Stringified(x) == v {
        WrittenBackMeansKept(x, w, v);
        assert false;
      }
    }
  }

  /** The smallest input that does not come back: the key is read and checked,
      and then lost. */
  lemma ProtoKeyIsLost(env: Env)
    ensures var t, v := ObjectOf([], Any), Obj(map[PROTO := Null]);
            && Cast(env, v, t) == Some(Obj(map[]))
            && !ProtoSafe(env, v, t, JsonToJS)
  {
    var t, v := ObjectOf([], Any), Obj(map[PROTO := Null]);
    assert PropEntries([], JsonToJS) == [] && KeysOf([]) == {};
    ObjectSucceeds(env, v, t, JsonToJS);
    var w := Cast(env, v, t).value;
    ResultKeys(env, v, t, JsonToJS, w);
    assert w.fields.Keys == {};
    assert w.fields == map[];
  }

  // --------------------------------------------------------- the source's form

  /** The property maps memoised on the object descriptors of `typeMap`, by their
      properties. */
  class PropertyMaps {
    var jsonToJS: map<seq<Prop>, seq<Entry>>
    var jsToJSON: map<seq<Prop>, seq<Entry>>

    /** A memo holds what a fresh computation would give. */
    ghost predicate Valid()
      reads this
    {
      && (forall props | props in jsonToJS :: jsonToJS[props] == PropEntries(props, JsonToJS))
      && (forall props | props in jsToJSON :: jsToJSON[props] == PropEntries(props, JSToJson))
    }

    constructor ()
      ensures Valid() && jsonToJS == map[] && jsToJSON == map[]
    {
      jsonToJS, jsToJSON := map[], map[];
    }

    /** `jsonToJSProps(typ)` */
    method JsonToJSProps(props: seq<Prop>) returns (r: seq<Entry>)
      requires Valid()
      modifies this`jsonToJS
      ensures Valid() && r == PropEntries(props, JsonToJS)
      ensures jsonToJS == old(jsonToJS)[props := r]
      ensures props in old(jsonToJS) ==> r == old(jsonToJS)[props]
    {
      if props !in jsonToJS {
        r := BuildEntries(props, JsonToJS);
        jsonToJS := jsonToJS[props := r];
      } else {
        r := jsonToJS[props];
      }
    }

    /** `jsToJSONProps(typ)` */
    method JsToJSONProps(props: seq<Prop>) returns (r: seq<Entry>)
      requires Valid()
      modifies this`jsToJSON
      ensures Valid() && r == PropEntries(props, JSToJson)
      ensures jsToJSON == old(jsToJSON)[props := r]
      ensures props in old(jsToJSON) ==> r == old(jsToJSON)[props]
    {
      if props !in jsToJSON {
        r := BuildEntries(props, JSToJson);
        jsToJSON := jsToJSON[props := r];
      } else {
        r := jsToJSON[props];
      }
    }

    /** `getProps(typ)` */
    method GetProps(props: seq<Prop>, dir: Direction) returns (r: seq<Entry>)
      requires Valid()
      modifies this
      ensures Valid() && r == PropEntries(props, dir)
    {
      match dir
      case JsonToJS => r := JsonToJSProps(props);
      case JSToJson => r := JsToJSONProps(props);
    }
  }

  /** The `forEach` over the properties of a descriptor. */
  method BuildEntries(props: seq<Prop>, dir: Direction) returns (r: seq<Entry>)
    ensures r == PropEntries(props, dir)
  {
    r := [];
    for i := 0 to |props|
      invariant r == PropEntries(props[..i], dir)
    {
      assert props[..i + 1][..i] == props[..i];
      r := PutEntry(r, EntryOf(props[i], dir));
    }
    assert props[..|props|] == props;
  }

  /** `transform` with the loops of the source: a union stops at the first
      member that does not throw, an array and an object at the first failure. */
  method RunTransform(env: Env, v: Value, t: Descriptor, dir: Direction, memo: PropertyMaps) returns (r: Option<Value>)
    requires memo.Valid()
    modifies memo
    ensures memo.Valid() && r == Transform(env, v, t, dir)
    decreases if v.Undefined? then 0 else 1, v, HeadRank(env.rank, t), t, 1
  {
    match t
    case Ref(name) => r := RunTransform(env, v, Resolve(env, name), dir, memo);
    case Union(_) => r := RunUnion(env, v, t, dir, memo);
    case ArrayOf(_) =>
      if !v.Arr? { return None; }
      r := RunArray(env, v, t, dir, memo);
    case ObjectOf(_, _) =>
      if !v.Obj? { return None; }
      r := RunTransformObject(env, v, t, dir, memo);
    case _ => r := Transform(env, v, t, dir);
  }

  method RunUnion(env: Env, v: Value, t: Descriptor, dir: Direction, memo: PropertyMaps) returns (r: Option<Value>)
    requires t.Union? && memo.Valid()
    modifies memo
    ensures memo.Valid() && r == Transform(env, v, t, dir)
    decreases if v.Undefined? then 0 else 1, v, HeadRank(env.rank, t), t, 0, 0
  {
    ghost var outcomes := MemberOutcomes(env, v, t, dir);
    for i := 0 to |t.members|
      invariant memo.Valid()
      invariant forall j | 0 <= j < i :: outcomes[j].None?
    {
      r := RunTransform(env, v, t.members[i], dir, memo);
      if r.Some? {
        FirstSomeAt(outcomes, i);
        return;
      }
    }
    FirstSomeFails(outcomes);
    r := None;
  }

  method RunArray(env: Env, v: Value, t: Descriptor, dir: Direction, memo: PropertyMaps) returns (r: Option<Value>)
    requires v.Arr? && t.ArrayOf? && memo.Valid()
    modifies memo
    ensures memo.Valid() && r == Transform(env, v, t, dir)
    decreases if v.Undefined? then 0 else 1, v, HeadRank(env.rank, t), t, 0, 0
  {
    ghost var outcomes := ItemOutcomes(env, v, t, dir);
    var items: seq<Value> := [];
    for i := 0 to |v.items|
      invariant memo.Valid()
      invariant |items| == i && forall j | 0 <= j < i :: outcomes[j] == Some(items[j])
    {
      var item := RunTransform(env, v.items[i], t.element, dir, memo);
      if item.None? {
        assert outcomes[i] in outcomes;
        return None;
      }
      items := items + [item.value];
    }
    assert items == Values(outcomes);
    r := Some(Arr(items));
  }

  lemma AssignNext(entries: seq<Entry>, values: seq<Value>, i: nat)
    requires i < |entries| == |values|
    ensures Assign(entries[..i + 1], values[..i + 1]) == SetOwn(Assign(entries[..i], values[..i]), entries[i].to, values[i])
  {
    assert entries[..i + 1][..i] == entries[..i] && values[..i + 1][..i] == values[..i];
  }

  /** The object after the first `i` assignments. */
  function Assigned(props: seq<Entry>, known: seq<Option<Value>>, i: nat): map<string, Value>
    requires i <= |props| == |known|
  {
    Assign(props[..i], Values(known)[..i])
  }

  lemma AssignedNext(props: seq<Entry>, known: seq<Option<Value>>, i: nat)
    requires i < |props| == |known| && known[i].Some?
    ensures Assigned(props, known, i + 1) == SetOwn(Assigned(props, known, i), props[i].to, known[i].value)
  {
    AssignNext(props, Values(known), i);
  }

  lemma AssignedAll(props: seq<Entry>, known: seq<Option<Value>>)
    requires |props| == |known|
    ensures Assigned(props, known, 0) == map[] && Assigned(props, known, |props|) == Assign(props, Values(known))
  {
    assert props[..|props|] == props && Values(known)[..|props|] == Values(known);
  }

  method RunTransformObject(env: Env, v: Value, t: Descriptor, dir: Direction, memo: PropertyMaps)
      returns (r: Option<Value>)
    requires v.Obj? && t.ObjectOf? && memo.Valid()
    modifies memo
    ensures memo.Valid() && r == Transform(env, v, t, dir)
    decreases if v.Undefined? then 0 else 1, v, HeadRank(env.rank, t), t, 0, 2
  {
    var props := memo.GetProps(t.props, dir);
    var known := RunKnown(env, v, t, dir, memo, props, KnownOutcomes(env, v, t, dir));
    if known.None? { return None; }
    var others := RunOthers(env, v, t, dir, memo, v.fields.Keys - KeysOf(props), OtherOutcomes(env, v, t, dir));
    if others.None? { return None; }
    r := Some(Obj(known.value + others.value));
  }

  lemma AllSomeByIndex(outcomes: seq<Option<Value>>)
    ensures AllSome(outcomes) <==> forall i | 0 <= i < |outcomes| :: outcomes[i].Some?
  {
    assert forall i | 0 <= i < |outcomes| :: outcomes[i] in outcomes;
  }

  /** The first `forEach` of `transformObject`; `known` is what each property comes to. */
  method RunKnown(env: Env, v: Value, t: Descriptor, dir: Direction, memo: PropertyMaps, props: seq<Entry>,
                  ghost known: seq<Option<Value>>)
      returns (r: Option<map<string, Value>>)
    requires v.Obj? && t.ObjectOf? && memo.Valid() && |props| == |known|
    requires forall i | 0 <= i < |props| :: known[i] == Transform(env, Lookup(v.fields, props[i].from), props[i].typ, dir)
    modifies memo
    ensures memo.Valid() && (r.Some? <==> AllSome(known))
    ensures r.Some? ==> r.value == Assign(props, Values(known))
    decreases if v.Undefined? then 0 else 1, v, HeadRank(env.rank, t), t, 0, 1
  {
    var result: map<string, Value> := map[];
    AssignedAll(props, known);
    for i := 0 to |props|
      invariant memo.Valid()
      invariant forall j | 0 <= j < i :: known[j].Some?
      invariant result == Assigned(props, known, i)
    {
      var value := RunTransform(env, Lookup(v.fields, props[i].from), props[i].typ, dir, memo);
      if value.None? {
        AllSomeByIndex(known);
        return None;
      }
      AssignedNext(props, known, i);
      result := SetOwn(result, props[i].to, value.value);
    }
    AllSomeByIndex(known);
    r := Some(result);
  }

  /** The part of a finished object that comes from the given keys. */
  function Collected(outcomes: map<string, Option<Value>>, keys: set<string>): map<string, Value> {
    OwnFields(map key | key in outcomes.Keys * keys :: outcomes[key])
  }

  lemma CollectNext(outcomes: map<string, Option<Value>>, keys: set<string>, key: string)
    requires key in outcomes && outcomes[key].Some?
    ensures SetOwn(Collected(outcomes, keys), key, outcomes[key].value) == Collected(outcomes, keys + {key})
  {}

  lemma CollectAll(outcomes: map<string, Option<Value>>)
    ensures Collected(outcomes, outcomes.Keys) == OwnFields(outcomes)
  {
    assert (map key | key in outcomes.Keys * outcomes.Keys :: outcomes[key]) == outcomes;
  }

  /** The second `forEach`, over the keys that are no properties. */
  method RunOthers(env: Env, v: Value, t: Descriptor, dir: Direction, memo: PropertyMaps, keys: set<string>,
                   ghost others: map<string, Option<Value>>)
      returns (r: Option<map<string, Value>>)
    requires v.Obj? && t.ObjectOf? && memo.Valid() && others.Keys == keys <= v.fields.Keys
    requires others == OtherOutcomes(env, v, t, dir)
    modifies memo
    ensures memo.Valid() && (r.Some? <==> AllFieldsSome(others))
    ensures r.Some? ==> r.value == OwnFields(others)
    decreases if v.Undefined? then 0 else 1, v, HeadRank(env.rank, t), t, 0, 0
  {
    var remaining := keys;
    var result: map<string, Value> := map[];
    ghost var seen: set<string> := {};
    while remaining != {}
      invariant memo.Valid()
      invariant remaining + seen == keys
      invariant forall key | key in seen :: others[key].Some?
      invariant result == Collected(others, seen)
      decreases |remaining|
    {
      var key :| key in remaining;
      var value := RunTransform(env, v.fields[key], t.additional, dir, memo);
      if value.None? { return None; }
      CollectNext(others, seen, key);
      result := SetOwn(result, key, value.value);
      remaining := remaining - {key};
      seen := seen + {key};
    }
    CollectAll(others);
    r := Some(result);
  }
}
