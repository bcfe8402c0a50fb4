/**
 * The schema model: the records a manifest's `definitions` mapping is
 * turned into, the case-insensitive lookup of type tags, and the
 * flattening of a nested mapping into `/`-joined path keys.
 */
module Schema {
  import opened Wrappers
  import opened Text
  import opened Dict

  /** The kinds of constant group. `NONE` is a member too, so a manifest may name it. */
  datatype ConstType = NONE | ENUM | FLAGS | ALIASES

  function ConstTypeName(t: ConstType): string {
    match t
    case NONE => "NONE"
    case ENUM => "ENUM"
    case FLAGS => "FLAGS"
    case ALIASES => "ALIASES"
  }

  /** `ConstType[name]`: the member of that exact name, or `KeyError(name)`. */
  function ConstTypeNamed(name: string): (r: Result<ConstType>)
    ensures r.Ok? <==> exists t :: ConstTypeName(t) == name
    ensures r.Ok? ==> ConstTypeName(r.value) == name
    ensures r.Err? ==> r.error == KeyError(name)
  {
    if name == "NONE" then assert ConstTypeName(ConstType.NONE) == name; Ok(ConstType.NONE)
    else if name == "ENUM" then assert ConstTypeName(ENUM) == name; Ok(ENUM)
    else if name == "FLAGS" then assert ConstTypeName(FLAGS) == name; Ok(FLAGS)
    else if name == "ALIASES" then assert ConstTypeName(ALIASES) == name; Ok(ALIASES)
    else Err(KeyError(name))
  }

  /** How the components of a composite flag are combined. */
  datatype CompositionOp = NONE | OR

  function CompositionOpName(op: CompositionOp): string {
    match op
    case NONE => "NONE"
    case OR => "OR"
  }

  /** The integer value of the member; it indexes the rows of the join-token table. */
  function CompositionOpValue(op: CompositionOp): nat {
    match op
    case NONE => 0
    case OR => 1
  }

  /** `CompositionOp[name]`: the member of that exact name, or `KeyError(name)`. */
  function CompositionOpNamed(name: string): (r: Result<CompositionOp>)
    ensures r.Ok? <==> exists op :: CompositionOpName(op) == name
    ensures r.Ok? ==> CompositionOpName(r.value) == name
    ensures r.Err? ==> r.error == KeyError(name)
  {
    if name == "NONE" then assert CompositionOpName(CompositionOp.NONE) == name; Ok(CompositionOp.NONE)
    else if name == "OR" then assert CompositionOpName(OR) == name; Ok(OR)
    else Err(KeyError(name))
  }

  /** A definition's `values`: a list of names (ENUM, FLAGS) or a mapping of
      names to literals (ALIASES). A literal is kept as the text it prints as. */
  datatype Values = Names(names: seq<string>) | Literals(literals: seq<(string, string)>) {
    /** `for v in values`: the list's elements, or the mapping's keys. */
    function Iter(): (r: seq<string>)
      ensures Names? ==> r == names
      ensures Literals? ==> |r| == |literals| && forall i :: 0 <= i < |r| ==> r[i] == literals[i].0
    {
      match this
      case Names(ns) => ns
      case Literals(kv) => seq(|kv|, i requires 0 <= i < |kv| => kv[i].0)
    }
  }

  /** A composite flag: `{"components": [...], "op": "..."}`. */
  datatype Composite = Composite(components: seq<string>, op: string)

  /** One named group of constants and how to emit it. */
  datatype Definition = Definition(
    key: string,
    ctype: ConstType,
    values: Values,
    composites: seq<(string, Composite)>,
    asPreproc: bool,
    overrides: seq<(string, int)>)

  /** One entry of the manifest's `definitions` mapping, with each field
      absent (`None`) or present. */
  datatype DefObject = DefObject(
    typeTag: Option<string>,
    values: Option<Values>,
    composites: Option<seq<(string, Composite)>>,
    asPreproc: Option<bool>,
    overrides: Option<seq<(string, int)>>)

  predicate IsConstTypeTag(tag: string) {
    ConstTypeNamed(Upper(tag)).Ok?
  }

  /** The `Definition(...)` that `Schema.__init__` builds for one entry. */
  function DefinitionOf(key: string, obj: DefObject): (r: Result<Definition>)
    ensures r.Ok? <==> obj.typeTag.Some? && IsConstTypeTag(obj.typeTag.value) && obj.values.Some?
    ensures obj.typeTag.None? ==> r == Err(KeyError("type"))
    ensures obj.typeTag.Some? && !IsConstTypeTag(obj.typeTag.value) ==> r == Err(KeyError(Upper(obj.typeTag.value)))
    ensures obj.typeTag.Some? && IsConstTypeTag(obj.typeTag.value) && obj.values.None? ==> r == Err(KeyError("values"))
    ensures r.Ok? ==> r.value.key == key
    ensures r.Ok? ==> ConstTypeName(r.value.ctype) == Upper(obj.typeTag.value)
    ensures r.Ok? ==> r.value.values == obj.values.value
    ensures r.Ok? ==> r.value.composites == (if obj.composites.Some? then obj.composites.value else [])
    ensures r.Ok? ==> r.value.asPreproc == (obj.asPreproc.Some? && obj.asPreproc.value)
    ensures r.Ok? ==> r.value.overrides == (if obj.overrides.Some? then obj.overrides.value else [])
  {
    if obj.typeTag.None? then Err(KeyError("type"))
    else
      var ctype :- ConstTypeNamed(Upper(obj.typeTag.value));
      if obj.values.None? then Err(KeyError("values"))
      else Ok(Definition(key, ctype, obj.values.value,
                         obj.composites.GetOr([]),
                         obj.asPreproc.GetOr(false),
                         obj.overrides.GetOr([])))
  }

  /** The one field of a `Schema`: definitions by key, in manifest order. */
  datatype Schema = Schema(definitions: seq<(string, Definition)>)

  /** `Schema(defs)`: one definition per entry of `defs`, in order; the first
      entry that cannot be built raises its error. */
  function NewSchema(defs: seq<(string, DefObject)>): (r: Result<Schema>)
    ensures r.Ok? <==> forall i :: 0 <= i < |defs| ==> DefinitionOf(defs[i].0, defs[i].1).Ok?
    ensures r.Ok? ==> |r.value.definitions| == |defs|
    ensures r.Ok? ==> forall i :: 0 <= i < |defs| ==>
              r.value.definitions[i].0 == defs[i].0 &&
              r.value.definitions[i].1.key == defs[i].0 &&
              DefinitionOf(defs[i].0, defs[i].1) == Ok(r.value.definitions[i].1)
  {
    if defs == [] then Ok(Schema([]))
    else
      assert forall i :: 0 < i < |defs| ==> defs[i] == defs[1..][i - 1];
      var d :- DefinitionOf(defs[0].0, defs[0].1);
      var rest :- NewSchema(defs[1..]);
      var all := [(defs[0].0, d)] + rest.definitions;
      assert forall i :: 0 < i < |all| ==> all[i] == rest.definitions[i - 1];
      Ok(Schema(all))
  }

  /** `Schema(defs)` raises the error of the first entry that cannot be built. */
  lemma {:induction false} NewSchemaRaisesFirstError(defs: seq<(string, DefObject)>, i: nat)
    requires i < |defs|
    requires forall j :: 0 <= j < i ==> DefinitionOf(defs[j].0, defs[j].1).Ok?
    requires DefinitionOf(defs[i].0, defs[i].1).Err?
    ensures NewSchema(defs) == Err(DefinitionOf(defs[i].0, defs[i].1).error)
  {
    if i > 0 {
      assert forall j :: 0 <= j < i - 1 ==> defs[1..][j] == defs[j + 1];
      NewSchemaRaisesFirstError(defs[1..], i - 1);
    }
  }

  /** A manifest: just whether it has a `definitions` mapping, and that mapping. */
  datatype Manifest = Manifest(definitions: Option<seq<(string, DefObject)>>)

  /** `Schema.from_mapping(m)`: `KeyError` without a `definitions` mapping. */
  function FromMapping(m: Manifest): (r: Result<Schema>)
    ensures m.definitions.None? ==> r == Err(KeyError("definitions"))
    ensures m.definitions.Some? ==> (r.Ok? <==> forall i :: 0 <= i < |m.definitions.value| ==>
              DefinitionOf(m.definitions.value[i].0, m.definitions.value[i].1).Ok?)
    ensures m.definitions.Some? ==> r == NewSchema(m.definitions.value)
  {
    if m.definitions.None? then Err(KeyError("definitions")) else NewSchema(m.definitions.value)
  }

  /** Two texts equal up to ASCII case. */
  predicate EqualIgnoringCase(a: string, b: string) {
    |a| == |b| && forall i :: 0 <= i < |a| ==> ToUpper(a[i]) == ToUpper(b[i])
  }

  lemma UpperOfConstTypeName(t: ConstType)
    ensures Upper(ConstTypeName(t)) == ConstTypeName(t)
  {
    var name := ConstTypeName(t);
    assert forall i :: 0 <= i < |name| ==> IsUpper(name[i]);
  }

  /** A type tag selects member `t` exactly when it spells `t`'s name in any case. */
  lemma TypeTagIgnoresCase(tag: string, t: ConstType)
    ensures ConstTypeNamed(Upper(tag)) == Ok(t) <==> EqualIgnoringCase(tag, ConstTypeName(t))
  {
    var name := ConstTypeName(t);
    UpperOfConstTypeName(t);
    if EqualIgnoringCase(tag, name) {
      assert Upper(tag) == Upper(name);
    }
    if ConstTypeNamed(Upper(tag)) == Ok(t) {
      assert Upper(tag) == name;
      forall i | 0 <= i < |tag| ensures ToUpper(tag[i]) == ToUpper(name[i]) {
        assert ToUpper(tag[i]) == Upper(tag)[i] == Upper(name)[i];
      }
    }
  }

  /** A nested mapping with leaves of type `V` (anything but a mapping). */
  datatype Nested<V> = Leaf(value: V) | Mapping(entries: seq<(string, Nested<V>)>)

  /** The key `_flatten` gives entry `k` under `parent`. */
  function ChildKey(parent: string, sep: string, k: string): string {
    if parent != "" then parent + sep + k else k
  }

  /** The pairs `_flatten` collects from entry `i` of `n`. */
  function EntryItems<V>(n: Nested<V>, i: nat, parent: string, sep: string): seq<(string, V)>
    requires n.Mapping? && i < |n.entries|
    decreases n, 0, 0
  {
    var (k, v) := n.entries[i];
    var child := ChildKey(parent, sep, k);
    match v
    case Mapping(_) => Flattened(v, child, sep)
    case Leaf(x) => [(child, x)]
  }

  /** The pairs `_flatten` collects from the first `count` entries of `n`. */
  function FlattenItems<V>(n: Nested<V>, count: nat, parent: string, sep: string): seq<(string, V)>
    requires n.Mapping? && count <= |n.entries|
    decreases n, 1, count
  {
    if count == 0 then []
    else FlattenItems(n, count - 1, parent, sep) + EntryItems(n, count - 1, parent, sep)
  }

  /** `_flatten(n, parent, sep)`: the collected pairs made into a dict. */
  function Flattened<V>(n: Nested<V>, parent: string, sep: string): seq<(string, V)>
    requires n.Mapping?
    decreases n, 2, 0
  {
    DictOf(FlattenItems(n, |n.entries|, parent, sep))
  }

  /** `_flatten(d, parent, sep)`. */
  method Flatten<V>(d: seq<(string, Nested<V>)>, parent: string, sep: string) returns (r: seq<(string, V)>)
    ensures r == Flattened(Mapping(d), parent, sep)
    decreases Mapping(d)
  {
    var items: seq<(string, V)> := [];
    var i := 0;
    while i < |d|
      invariant 0 <= i <= |d|
      invariant items == FlattenItems(Mapping(d), i, parent, sep)
    {
      var (k, v) := d[i];
      var child := if parent != "" then parent + sep + k else k;
      if v.Mapping? {
        var sub := Flatten(v.entries, child, sep);
        items := items + sub;
      } else {
        items := items + [(child, v.value)];
      }
      i := i + 1;
    }
    r := DictOf(items);
  }

  /** The leaves under entry `i` of `n`, each with the keys leading to it. */
  function EntryPaths<V>(n: Nested<V>, i: nat, prefix: seq<string>): seq<(seq<string>, V)>
    requires n.Mapping? && i < |n.entries|
    decreases n, 0
  {
    var (k, v) := n.entries[i];
    match v
    case Mapping(e) => KeyPaths(v, |e|, prefix + [k])
    case Leaf(x) => [(prefix + [k], x)]
  }

  /** The leaves under the first `count` entries of `n`, each with the keys leading to it. */
  function KeyPaths<V>(n: Nested<V>, count: nat, prefix: seq<string>): seq<(seq<string>, V)>
    requires n.Mapping? && count <= |n.entries|
    decreases n, 1, count
  {
    if count == 0 then [] else KeyPaths(n, count - 1, prefix) + EntryPaths(n, count - 1, prefix)
  }

  /** Each path's keys joined with `sep`. */
  function JoinPaths<V>(kps: seq<(seq<string>, V)>, sep: string): (r: seq<(string, V)>)
    ensures |r| == |kps|
  {
    seq(|kps|, i requires 0 <= i < |kps| => (Join(kps[i].0, sep), kps[i].1))
  }

  lemma JoinPathsConcat<V>(a: seq<(seq<string>, V)>, b: seq<(seq<string>, V)>, sep: string)
    ensures JoinPaths(a + b, sep) == JoinPaths(a, sep) + JoinPaths(b, sep)
  {
  }

  /** No top-level key is the empty string: only there does an empty key
      change how the path is joined. */
  predicate TopKeysNonEmpty<V>(d: seq<(string, Nested<V>)>) {
    forall i :: 0 <= i < |d| ==> d[i].0 != ""
  }

  /** How `parent` stands for the keys `prefix` above it. */
  predicate ParentOf(parent: string, sep: string, prefix: seq<string>) {
    (prefix == [] && parent == "") || (prefix != [] && prefix[0] != "" && parent == Join(prefix, sep))
  }

  lemma ChildKeyJoins(parent: string, sep: string, prefix: seq<string>, k: string)
    requires ParentOf(parent, sep, prefix) && (prefix != [] || k != "")
    ensures ChildKey(parent, sep, k) == Join(prefix + [k], sep)
    ensures ParentOf(ChildKey(parent, sep, k), sep, prefix + [k])
  {
    if prefix == [] {
      assert prefix + [k] == [k];
    } else {
      JoinStartsWithFirst(prefix, sep);
      JoinSnoc(prefix, sep, k);
    }
  }

  lemma DistinctKeysConcat<V>(a: seq<(string, V)>, b: seq<(string, V)>)
    requires DistinctKeys(a + b)
    ensures DistinctKeys(a) && DistinctKeys(b)
  {
    forall i, j | 0 <= i < j < |b| ensures b[i].0 != b[j].0 {
      assert b[i] == (a + b)[|a| + i] && b[j] == (a + b)[|a| + j];
    }
    forall i, j | 0 <= i < j < |a| ensures a[i].0 != a[j].0 {
      assert a[i] == (a + b)[i] && a[j] == (a + b)[j];
    }
  }

  lemma {:induction false} EntryIsPaths<V>(n: Nested<V>, i: nat, parent: string, sep: string, prefix: seq<string>)
    requires n.Mapping? && i < |n.entries| && (prefix == [] ==> TopKeysNonEmpty(n.entries))
    requires ParentOf(parent, sep, prefix)
    requires DistinctKeys(JoinPaths(EntryPaths(n, i, prefix), sep))
    ensures EntryItems(n, i, parent, sep) == JoinPaths(EntryPaths(n, i, prefix), sep)
    decreases n, 0, 0
  {
    var (k, v) := n.entries[i];
    ChildKeyJoins(parent, sep, prefix, k);
    if v.Mapping? {
      FlattenItemsArePaths(v, |v.entries|, ChildKey(parent, sep, k), sep, prefix + [k]);
      DictOfDistinct(JoinPaths(EntryPaths(n, i, prefix), sep));
    }
  }

  lemma {:induction false} FlattenItemsArePaths<V>(n: Nested<V>, count: nat, parent: string, sep: string, prefix: seq<string>)
    requires n.Mapping? && count <= |n.entries| && (prefix == [] ==> TopKeysNonEmpty(n.entries))
    requires ParentOf(parent, sep, prefix)
    requires DistinctKeys(JoinPaths(KeyPaths(n, count, prefix), sep))
    ensures FlattenItems(n, count, parent, sep) == JoinPaths(KeyPaths(n, count, prefix), sep)
    decreases n, 1, count
  {
    if count > 0 {
      var before := KeyPaths(n, count - 1, prefix);
      var here := EntryPaths(n, count - 1, prefix);
      JoinPathsConcat(before, here, sep);
      DistinctKeysConcat(JoinPaths(before, sep), JoinPaths(here, sep));
      FlattenItemsArePaths(n, count - 1, parent, sep, prefix);
      EntryIsPaths(n, count - 1, parent, sep, prefix);
    }
  }

  /** Without empty top-level keys and path collisions, `_flatten` lists every leaf, in
      manifest order, under the `sep`-joined keys leading to it. */
  lemma FlattenJoinsKeyPaths<V>(d: seq<(string, Nested<V>)>, sep: string)
    requires TopKeysNonEmpty(d)
    requires DistinctKeys(JoinPaths(KeyPaths(Mapping(d), |d|, []), sep))
    ensures Flattened(Mapping(d), "", sep) == JoinPaths(KeyPaths(Mapping(d), |d|, []), sep)
  {
    FlattenItemsArePaths(Mapping(d), |d|, "", sep, []);
    DictOfDistinct(JoinPaths(KeyPaths(Mapping(d), |d|, []), sep));
  }

  lemma {:induction false} EntryLastLeaf<V>(n: Nested<V>, i: nat, parent: string, sep: string, prefix: seq<string>, x: string)
    requires n.Mapping? && i < |n.entries| && (prefix == [] ==> TopKeysNonEmpty(n.entries))
    requires ParentOf(parent, sep, prefix)
    ensures AgreeOn(EntryItems(n, i, parent, sep), JoinPaths(EntryPaths(n, i, prefix), sep), x)
    decreases n, 0, 0
  {
    var (k, v) := n.entries[i];
    ChildKeyJoins(parent, sep, prefix, k);
    if v.Mapping? {
      FlattenItemsLastLeaf(v, |v.entries|, ChildKey(parent, sep, k), sep, prefix + [k], x);
      LastValueOfDistinct(EntryItems(n, i, parent, sep), x);
    } else {
      assert EntryItems(n, i, parent, sep) == JoinPaths(EntryPaths(n, i, prefix), sep);
    }
  }

  lemma {:induction false} FlattenItemsLastLeaf<V>(n: Nested<V>, count: nat, parent: string, sep: string, prefix: seq<string>, x: string)
    requires n.Mapping? && count <= |n.entries| && (prefix == [] ==> TopKeysNonEmpty(n.entries))
    requires ParentOf(parent, sep, prefix)
    ensures AgreeOn(FlattenItems(n, count, parent, sep), JoinPaths(KeyPaths(n, count, prefix), sep), x)
    decreases n, 1, count
  {
    if count > 0 {
      var items := FlattenItems(n, count - 1, parent, sep);
      var part := EntryItems(n, count - 1, parent, sep);
      var before := JoinPaths(KeyPaths(n, count - 1, prefix), sep);
      var here := JoinPaths(EntryPaths(n, count - 1, prefix), sep);
      JoinPathsConcat(KeyPaths(n, count - 1, prefix), EntryPaths(n, count - 1, prefix), sep);
      assert FlattenItems(n, count, parent, sep) == items + part;
      assert JoinPaths(KeyPaths(n, count, prefix), sep) == before + here;
      FlattenItemsLastLeaf(n, count - 1, parent, sep, prefix, x);
      EntryLastLeaf(n, count - 1, parent, sep, prefix, x);
      AgreeOnConcat(items, part, before, here, x);
    }
  }

  lemma {:induction false} EntryKeyOrder<V>(n: Nested<V>, i: nat, parent: string, sep: string, prefix: seq<string>)
    requires n.Mapping? && i < |n.entries| && (prefix == [] ==> TopKeysNonEmpty(n.entries))
    requires ParentOf(parent, sep, prefix)
    ensures FirstKeys(EntryItems(n, i, parent, sep)) == FirstKeys(JoinPaths(EntryPaths(n, i, prefix), sep))
    decreases n, 0, 0
  {
    var (k, v) := n.entries[i];
    ChildKeyJoins(parent, sep, prefix, k);
    if v.Mapping? {
      FlattenItemsKeyOrder(v, |v.entries|, ChildKey(parent, sep, k), sep, prefix + [k]);
      FirstKeysOfDictOf(FlattenItems(v, |v.entries|, ChildKey(parent, sep, k), sep));
    } else {
      assert EntryItems(n, i, parent, sep) == JoinPaths(EntryPaths(n, i, prefix), sep);
    }
  }

  lemma {:induction false} FlattenItemsKeyOrder<V>(n: Nested<V>, count: nat, parent: string, sep: string, prefix: seq<string>)
    requires n.Mapping? && count <= |n.entries| && (prefix == [] ==> TopKeysNonEmpty(n.entries))
    requires ParentOf(parent, sep, prefix)
    ensures FirstKeys(FlattenItems(n, count, parent, sep)) == FirstKeys(JoinPaths(KeyPaths(n, count, prefix), sep))
    decreases n, 1, count
  {
    if count > 0 {
      var items := FlattenItems(n, count - 1, parent, sep);
      var part := EntryItems(n, count - 1, parent, sep);
      var before := JoinPaths(KeyPaths(n, count - 1, prefix), sep);
      var here := JoinPaths(EntryPaths(n, count - 1, prefix), sep);
      JoinPathsConcat(KeyPaths(n, count - 1, prefix), EntryPaths(n, count - 1, prefix), sep);
      assert FlattenItems(n, count, parent, sep) == items + part;
      assert JoinPaths(KeyPaths(n, count, prefix), sep) == before + here;
      FlattenItemsKeyOrder(n, count - 1, parent, sep, prefix);
      EntryKeyOrder(n, count - 1, parent, sep, prefix);
      FirstKeysConcat(items, part);
      FirstKeysConcat(before, here);
    }
  }

  /** Without empty top-level keys, `_flatten` binds exactly the joined paths
      of the leaves, in the order each path first appears, and a path shared
      by several leaves gets the last one's value. */
  lemma FlattenKeepsLastLeaf<V>(d: seq<(string, Nested<V>)>, sep: string, x: string)
    requires TopKeysNonEmpty(d)
    ensures HasKey(Flattened(Mapping(d), "", sep), x) <==> HasKey(JoinPaths(KeyPaths(Mapping(d), |d|, []), sep), x)
    ensures Lookup(Flattened(Mapping(d), "", sep), x) == LastValue(JoinPaths(KeyPaths(Mapping(d), |d|, []), sep), x)
    ensures Keys(Flattened(Mapping(d), "", sep)) == FirstKeys(JoinPaths(KeyPaths(Mapping(d), |d|, []), sep))
  {
    FlattenItemsLastLeaf(Mapping(d), |d|, "", sep, [], x);
    FlattenItemsKeyOrder(Mapping(d), |d|, "", sep, []);
  }

  /** An empty key directly under an empty parent adds nothing to the path. */
  lemma EmptyTopLevelKeyIsDropped()
    ensures Flattened(Mapping([("", Mapping([("b", Leaf(1))]))]), "", "/") == [("b", 1)]
  {
    var inner: Nested<int> := Mapping([("b", Leaf(1))]);
    assert EntryItems(inner, 0, "", "/") == [("b", 1)];
    assert FlattenItems(inner, 1, "", "/") == [("b", 1)];
    assert Flattened(inner, "", "/") == [("b", 1)] by {
      DictOfDistinct([("b", 1)]);
    }
    assert EntryItems(Mapping([("", inner)]), 0, "", "/") == [("b", 1)];
    assert FlattenItems(Mapping([("", inner)]), 1, "", "/") == [("b", 1)];
    DictOfDistinct([("b", 1)]);
  }

  /** An empty key below the top level is joined like any other. */
  lemma NestedEmptyKeyIsJoined()
    ensures Flattened(Mapping([("a", Mapping([("", Mapping([("b", Leaf(1))]))]))]), "", "/") == [("a//b", 1)]
  {
    var inner: Nested<int> := Mapping([("b", Leaf(1))]);
    var middle: Nested<int> := Mapping([("", inner)]);
    assert ChildKey("a", "/", "") == "a/";
    assert ChildKey("a/", "/", "b") == "a//b";
    assert EntryItems(inner, 0, "a/", "/") == [("a//b", 1)];
    assert FlattenItems(inner, 1, "a/", "/") == [("a//b", 1)];
    DictOfDistinct([("a//b", 1)]);
    assert Flattened(inner, "a/", "/") == [("a//b", 1)];
    assert EntryItems(middle, 0, "a", "/") == [("a//b", 1)];
    assert FlattenItems(middle, 1, "a", "/") == [("a//b", 1)];
    assert Flattened(middle, "a", "/") == [("a//b", 1)];
    assert EntryItems(Mapping([("a", middle)]), 0, "", "/") == [("a//b", 1)];
    assert FlattenItems(Mapping([("a", middle)]), 1, "", "/") == [("a//b", 1)];
  }
}
