/** The GraphQL schema elements the mapping produces (the type system of the
    GraphQL specification, October 2021, sections 3.5-3.12), and the way
    graphql-java's builders store them: fields, arguments, enum values and
    implemented interfaces are kept in insertion order, keyed by name, and
    adding an entry whose name is already present replaces it in place. */
module GraphQL {
  import opened Wrappers

  /** The built-in scalars `String`, `Boolean`, `Int`, `Float` (section 3.5). */
  datatype Scalar = GraphQLString | GraphQLBoolean | GraphQLInt | GraphQLFloat

  /** Named types, and the wrapping types `List` (3.11) and `NonNull` (3.12). */
  datatype QType =
    | Builtin(scalar: Scalar)
    | Ref(name: string)
    | List(elem: QType)
    | NonNull(inner: QType)
  {
    predicate IsNamed() { Builtin? || Ref? }

    /** The number of wrapping types around the named type. */
    function Depth(): nat
    {
      match this
      case Builtin(_) => 0
      case Ref(_) => 0
      case List(e) => e.Depth() + 1
      case NonNull(i) => i.Depth() + 1
    }
  }

  datatype Literal = BooleanValue(b: bool) | IntValue(i: int)

  datatype Argument = Argument(name: string, typ: QType, defaultValue: Option<Literal>)

  /** A field definition, recorded with the arguments handed to its builder, in order. */
  datatype FieldDef = FieldDef(name: string, typ: QType, argumentPuts: seq<Argument>)
  {
    /** The arguments of the built definition: the puts applied by name. */
    function Arguments(): seq<Argument>
    {
      PutAll([], argumentPuts, ArgumentName)
    }
  }

  datatype Coercing = IntCoercing | StringCoercing

  datatype ScalarType = ScalarType(name: string, coercing: Coercing)

  datatype EnumValue = EnumValue(name: string, value: string)

  /** A built type, recorded with the entries its builder was handed, in
      order; what the built type holds is those entries put by name. */
  datatype EnumType = EnumType(name: string, valuePuts: seq<EnumValue>)
  {
    function Values(): seq<EnumValue>
    {
      PutAll([], valuePuts, ValueName)
    }
  }

  datatype InterfaceType = InterfaceType(name: string, fieldPuts: seq<FieldDef>)
  {
    function Fields(): seq<FieldDef>
    {
      PutAll([], fieldPuts, FieldName)
    }
  }

  datatype ObjectType = ObjectType(name: string, interfacePuts: seq<string>, fieldPuts: seq<FieldDef>)
  {
    function Interfaces(): seq<string>
    {
      PutAll([], interfacePuts, Self)
    }

    function Fields(): seq<FieldDef>
    {
      PutAll([], fieldPuts, FieldName)
    }
  }

  /** A graphql-java type builder, as the log of the entries handed to it:
      `field(f)`, `withInterface(i)` and `value(v)` calls, in order. Building
      applies them as puts into the builder's name-keyed maps. */
  datatype InterfaceBuilder = InterfaceBuilder(name: string, fieldPuts: seq<FieldDef>)

  datatype ObjectBuilder = ObjectBuilder(name: string, interfacePuts: seq<string>, fieldPuts: seq<FieldDef>)

  datatype EnumBuilder = EnumBuilder(name: string, valuePuts: seq<EnumValue>)

  datatype NamedType =
    | ScalarDef(scalarType: ScalarType)
    | EnumDef(enumType: EnumType)
    | InterfaceDef(interfaceType: InterfaceType)
    | ObjectDef(objectType: ObjectType)

  /** What the mapping hands to `GraphQLSchema.Builder`: the additional types,
      the `Query` root and the `Mutation` root. */
  datatype Schema = Schema(additionalTypes: set<NamedType>, query: ObjectType, mutation: ObjectType)

  function FieldName(f: FieldDef): string { f.name }
  function ArgumentName(a: Argument): string { a.name }
  function ValueName(v: EnumValue): string { v.name }
  function Self(s: string): string { s }

  function Keys<T>(xs: seq<T>, key: T -> string): set<string>
  {
    set i | 0 <= i < |xs| :: key(xs[i])
  }

  predicate UniqueKeys<T>(xs: seq<T>, key: T -> string)
  {
    forall i, j :: 0 <= i < j < |xs| ==> key(xs[i]) != key(xs[j])
  }

  lemma KeysCons<T>(x: T, xs: seq<T>, key: T -> string)
    ensures Keys([x] + xs, key) == {key(x)} + Keys(xs, key)
  {
    var l := [x] + xs;
    forall n | n in Keys(xs, key) ensures n in Keys(l, key) {
      var i :| 0 <= i < |xs| && key(xs[i]) == n;
      assert l[i + 1] == xs[i];
    }
    assert l[0] == x;
  }

  lemma KeysSnoc<T>(xs: seq<T>, x: T, key: T -> string)
    ensures Keys(xs + [x], key) == Keys(xs, key) + {key(x)}
  {
    var l := xs + [x];
    forall n | n in Keys(xs, key) ensures n in Keys(l, key) {
      var i :| 0 <= i < |xs| && key(xs[i]) == n;
      assert l[i] == xs[i];
    }
    assert l[|xs|] == x;
  }

  lemma KeysAppend<T>(xs: seq<T>, ys: seq<T>, key: T -> string)
    ensures Keys(xs + ys, key) == Keys(xs, key) + Keys(ys, key)
  {
    var l := xs + ys;
    forall n | n in Keys(l, key) ensures n in Keys(xs, key) + Keys(ys, key) {
      var i :| 0 <= i < |l| && key(l[i]) == n;
      if i < |xs| { assert l[i] == xs[i]; } else { assert l[i] == ys[i - |xs|]; }
    }
    forall n | n in Keys(xs, key) + Keys(ys, key) ensures n in Keys(l, key) {
      if n in Keys(xs, key) {
        var i :| 0 <= i < |xs| && key(xs[i]) == n;
        assert l[i] == xs[i];
      } else {
        var i :| 0 <= i < |ys| && key(ys[i]) == n;
        assert l[|xs| + i] == ys[i];
      }
    }
  }

  /** The position of the last entry keyed `k`, or -1 when there is none. */
  function IndexOfKey<T>(xs: seq<T>, k: string, key: T -> string): (i: int)
    ensures -1 <= i < |xs|
    ensures i >= 0 ==> key(xs[i]) == k
    ensures i < 0 <==> k !in Keys(xs, key)
    decreases |xs|
  {
    if |xs| == 0 then -1
    else if key(xs[|xs| - 1]) == k then |xs| - 1
    else
      var init := xs[..|xs| - 1];
      assert xs == init + [xs[|xs| - 1]];
      KeysSnoc(init, xs[|xs| - 1], key);
      IndexOfKey(init, k, key)
  }

  /** A builder's `put` of one keyed entry (`LinkedHashMap.put` under the entry's
      name): an entry with the same name is replaced in place, otherwise the
      entry goes last. */
  function Put<T>(xs: seq<T>, x: T, key: T -> string): (r: seq<T>)
    ensures Keys(r, key) == Keys(xs, key) + {key(x)}
    ensures x in r
    ensures forall y :: y in r ==> y == x || y in xs
    ensures key(x) !in Keys(xs, key) ==> r == xs + [x]
    ensures |xs| <= |r| <= |xs| + 1
    ensures UniqueKeys(xs, key) ==> UniqueKeys(r, key)
  {
    var i := IndexOfKey(xs, key(x), key);
    if i < 0 then
      KeysSnoc(xs, x, key);
      xs + [x]
    else
      var r := xs[i := x];
      assert r[i] == x;
      assert Keys(r, key) == Keys(xs, key) by {
        forall n | n in Keys(xs, key) ensures n in Keys(r, key) {
          var j :| 0 <= j < |xs| && key(xs[j]) == n;
          assert key(r[j]) == n;
        }
      }
      r
  }

  /** A `put` keeps every position's name, and every entry of another name. */
  lemma PutPositions<T>(xs: seq<T>, x: T, key: T -> string)
    ensures forall i :: 0 <= i < |xs| && key(xs[i]) != key(x) ==> Put(xs, x, key)[i] == xs[i]
    ensures forall i :: 0 <= i < |xs| ==> key(Put(xs, x, key)[i]) == key(xs[i])
  {
  }

  /** A sequence of `put`s, in order (a builder's `arguments(list)`, or a run of `field(f)` calls). */
  function PutAll<T>(acc: seq<T>, xs: seq<T>, key: T -> string): (r: seq<T>)
    ensures Keys(r, key) == Keys(acc, key) + Keys(xs, key)
    ensures UniqueKeys(acc, key) ==> UniqueKeys(r, key)
    ensures forall y :: y in r ==> y in acc || y in xs
    decreases |xs|
  {
    if |xs| == 0 then acc
    else
      var init := xs[..|xs| - 1];
      assert xs == init + [xs[|xs| - 1]];
      KeysSnoc(init, xs[|xs| - 1], key);
      Put(PutAll(acc, init, key), xs[|xs| - 1], key)
  }

  lemma PutAllSnoc<T>(acc: seq<T>, xs: seq<T>, x: T, key: T -> string)
    ensures PutAll(acc, xs + [x], key) == Put(PutAll(acc, xs, key), x, key)
  {
    assert (xs + [x])[..|xs|] == xs;
  }

  /** With distinct names, none already present, the puts simply append. */
  lemma {:induction false} PutAllAppends<T>(acc: seq<T>, xs: seq<T>, key: T -> string)
    requires UniqueKeys(xs, key) && Keys(acc, key) !! Keys(xs, key)
    ensures PutAll(acc, xs, key) == acc + xs
    decreases |xs|
  {
    if |xs| > 0 {
      var init := xs[..|xs| - 1];
      var last := xs[|xs| - 1];
      assert xs == init + [last];
      KeysSnoc(init, last, key);
      assert key(last) !in Keys(init, key) by {
        forall i | 0 <= i < |init| ensures key(init[i]) != key(last) {
          assert init[i] == xs[i];
        }
      }
      PutAllAppends(acc, init, key);
      KeysAppend(acc, init, key);
      assert acc + init + [last] == acc + xs;
    }
  }

  /** A builder that starts empty and is given entries of distinct names keeps them all, in order. */
  lemma PutAllDistinct<T>(xs: seq<T>, key: T -> string)
    requires UniqueKeys(xs, key)
    ensures PutAll([], xs, key) == xs
  {
    var empty: seq<T> := [];
    assert Keys(empty, key) == {};
    PutAllAppends(empty, xs, key);
    assert empty + xs == xs;
  }

  /** An entry that no later entry of the same name replaces survives the puts. */
  lemma {:induction false} PutAllLastWins<T>(acc: seq<T>, xs: seq<T>, i: int, key: T -> string)
    requires 0 <= i < |xs|
    requires forall j :: i < j < |xs| ==> key(xs[j]) != key(xs[i])
    ensures xs[i] in PutAll(acc, xs, key)
    decreases |xs|
  {
    var init := xs[..|xs| - 1];
    var last := xs[|xs| - 1];
    assert xs == init + [last];
    PutAllSnoc(acc, init, last, key);
    if i < |xs| - 1 {
      PutAllLastWins(acc, init, i, key);
      var prev := PutAll(acc, init, key);
      var k :| 0 <= k < |prev| && prev[k] == init[i];
      PutPositions(prev, last, key);
      assert Put(prev, last, key)[k] == prev[k];
    }
  }

  /** Entries put last under distinct keys all survive. */
  lemma PutAllUniqueSuffix<T>(acc: seq<T>, xs: seq<T>, ys: seq<T>, key: T -> string)
    requires UniqueKeys(ys, key)
    ensures forall y :: y in ys ==> y in PutAll(acc, xs + ys, key)
  {
    var l := xs + ys;
    forall y | y in ys ensures y in PutAll(acc, l, key) {
      var k :| 0 <= k < |ys| && ys[k] == y;
      assert l[|xs| + k] == y;
      forall j | |xs| + k < j < |l| ensures key(l[j]) != key(l[|xs| + k]) {
        assert l[j] == ys[j - |xs|];
      }
      PutAllLastWins(acc, l, |xs| + k, key);
    }
  }

  /** The `PageInfo` object type, emitted once and shared by every paginated collection. */
  const PageInfoType: ObjectType := ObjectType("PageInfo", [], [
    FieldDef("nextSkip", Builtin(GraphQLInt), []),
    FieldDef("hasNext", NonNull(Builtin(GraphQLBoolean)), []),
    FieldDef("totalCount", NonNull(Builtin(GraphQLInt)), [])])

  /** `build()`: the type holds the builder's entries. */
  function BuildInterface(b: InterfaceBuilder): InterfaceType
  {
    InterfaceType(b.name, b.fieldPuts)
  }

  function BuildObject(b: ObjectBuilder): ObjectType
  {
    ObjectType(b.name, b.interfacePuts, b.fieldPuts)
  }

  function BuildEnum(b: EnumBuilder): EnumType
  {
    EnumType(b.name, b.valuePuts)
  }

  /** A built type keeps the builder's name and holds one entry per name
      handed to the builder. */
  lemma BuildInterfaceShape(b: InterfaceBuilder)
    ensures var t := BuildInterface(b);
      t.name == b.name && UniqueKeys(t.Fields(), FieldName) && Keys(t.Fields(), FieldName) == Keys(b.fieldPuts, FieldName)
  {
    var empty: seq<FieldDef> := [];
    assert UniqueKeys(empty, FieldName) && Keys(empty, FieldName) == {};
  }

  lemma BuildObjectShape(b: ObjectBuilder)
    ensures var t := BuildObject(b);
      && t.name == b.name && UniqueKeys(t.Fields(), FieldName) && UniqueKeys(t.Interfaces(), Self)
      && Keys(t.Fields(), FieldName) == Keys(b.fieldPuts, FieldName)
      && Keys(t.Interfaces(), Self) == Keys(b.interfacePuts, Self)
  {
    var noFields: seq<FieldDef> := [];
    var noNames: seq<string> := [];
    assert UniqueKeys(noFields, FieldName) && UniqueKeys(noNames, Self);
    assert Keys(noFields, FieldName) == {} && Keys(noNames, Self) == {};
  }

  lemma BuildEnumShape(b: EnumBuilder)
    ensures var t := BuildEnum(b);
      t.name == b.name && UniqueKeys(t.Values(), ValueName) && Keys(t.Values(), ValueName) == Keys(b.valuePuts, ValueName)
  {
    var empty: seq<EnumValue> := [];
    assert UniqueKeys(empty, ValueName) && Keys(empty, ValueName) == {};
  }
}
