/** The types `addBuilds` assembles that do not depend on the visitor's state:
    the paginated-collection wrapper, the subtype enums and the query fields. */
module Builds {
  import opened Strings
  import opened Sorting
  import opened Ecore
  import opened GraphQL
  import opened Naming

  /** The `all<Plural>` query field of a root class. */
  function QueryField(mm: Metamodel, c: Id): FieldDef
  {
    FieldDef(AllQueryFieldName(mm.Name(c)), List(Ref(mm.Name(c))), [])
  }

  /** The `<name>PaginatedCollection` object type. */
  function CollectionWrapper(name: string): ObjectType
  {
    ObjectType(PaginatedCollectionOf(name), [],
      [FieldDef("collection", NonNull(List(Ref(name))), []),
       FieldDef("pageInfo", NonNull(Ref(PageInfoType.name)), [])])
  }

  /** A wrapper has exactly the fields `collection: [T]!` and `pageInfo: PageInfo!`, in that order. */
  lemma CollectionWrapperFields(name: string)
    ensures CollectionWrapper(name).name == name + "PaginatedCollection"
    ensures CollectionWrapper(name).Interfaces() == []
    ensures CollectionWrapper(name).Fields() ==
      [FieldDef("collection", NonNull(List(Ref(name))), []), FieldDef("pageInfo", NonNull(Ref("PageInfo")), [])]
  {
    var fs := [FieldDef("collection", NonNull(List(Ref(name))), []), FieldDef("pageInfo", NonNull(Ref("PageInfo")), [])];
    assert UniqueKeys(fs, FieldName);
    PutAllDistinct(fs, FieldName);
  }

  /** `enum.value(n)` for each name: a value named `n` whose value is `n`. */
  function EnumValues(names: seq<string>): (vs: seq<EnumValue>)
    ensures |vs| == |names|
    ensures forall i :: 0 <= i < |names| ==> vs[i] == EnumValue(names[i], names[i])
  {
    seq(|names|, i requires 0 <= i < |names| => EnumValue(names[i], names[i]))
  }

  /** An enum built by adding the values `names` in order. */
  function NamesEnum(enumName: string, names: seq<string>): EnumType
  {
    EnumType(enumName, EnumValues(names))
  }

  /** The values of `vs` are in the order of `sk` applied to their names. */
  predicate ValuesSortedBy(vs: seq<EnumValue>, sk: string -> string)
  {
    forall i, j :: 0 <= i < j < |vs| ==> CompareTo(sk(vs[i].name), sk(vs[j].name)) <= 0
  }

  /** An enum built from `names` holds exactly those names, each once, and
      maps every name to itself. */
  lemma NamesEnumValues(enumName: string, names: seq<string>)
    ensures var vs := NamesEnum(enumName, names).Values();
      && UniqueKeys(vs, ValueName)
      && Keys(vs, ValueName) == set n | n in names
      && (forall v :: v in vs ==> v.value == v.name)
  {
    var all := EnumValues(names);
    var empty: seq<EnumValue> := [];
    assert Keys(empty, ValueName) == {};
    assert Keys(all, ValueName) == set n | n in names by {
      forall n | n in names ensures n in Keys(all, ValueName) {
        var i :| 0 <= i < |names| && names[i] == n;
        assert all[i].name == n;
      }
    }
  }

  /** Putting a value that sorts after every present one keeps the values sorted. */
  lemma PutValueSorted(prev: seq<EnumValue>, x: EnumValue, sk: string -> string)
    requires ValuesSortedBy(prev, sk)
    requires forall i :: 0 <= i < |prev| ==> CompareTo(sk(prev[i].name), sk(x.name)) <= 0
    ensures ValuesSortedBy(Put(prev, x, ValueName), sk)
  {
    var vs := Put(prev, x, ValueName);
    forall i, j | 0 <= i < j < |vs| ensures CompareTo(sk(vs[i].name), sk(vs[j].name)) <= 0 {
      assert ValueName(vs[i]) == ValueName(prev[i]);
      if j < |prev| {
        assert ValueName(vs[j]) == ValueName(prev[j]);
      } else {
        assert vs == prev + [x];
      }
    }
  }

  /** An enum built from a sorted permutation of `names` holds exactly those
      names, each once, in the order of `sk`, each valued by itself. */
  lemma SortedNamesEnum(enumName: string, names: seq<string>, sorted: seq<string>, sk: string -> string)
    requires multiset(sorted) == multiset(names)
    requires SortedBy(sorted, sk)
    ensures var vs := NamesEnum(enumName, sorted).Values();
      && UniqueKeys(vs, ValueName)
      && Keys(vs, ValueName) == set n | n in names
      && ValuesSortedBy(vs, sk)
      && (forall v :: v in vs ==> v.value == v.name)
  {
    NamesEnumValues(enumName, sorted);
    NamesEnumSorted(enumName, sorted, sk);
    forall n ensures n in sorted <==> n in names {
      assert n in multiset(sorted) <==> n in multiset(names);
    }
  }

  /** Building an enum from names in sorted order keeps the values sorted. */
  lemma {:induction false} NamesEnumSorted(enumName: string, names: seq<string>, sk: string -> string)
    requires SortedBy(names, sk)
    ensures ValuesSortedBy(NamesEnum(enumName, names).Values(), sk)
    decreases |names|
  {
    if |names| > 0 {
      var all := EnumValues(names);
      var init := names[..|names| - 1];
      var last := names[|names| - 1];
      assert SortedBy(init, sk);
      NamesEnumSorted(enumName, init, sk);
      NamesEnumValues(enumName, init);
      var prev := NamesEnum(enumName, init).Values();
      assert all[..|all| - 1] == EnumValues(init);
      assert NamesEnum(enumName, names).Values() == Put(prev, EnumValue(last, last), ValueName);
      forall i | 0 <= i < |prev| ensures CompareTo(sk(prev[i].name), sk(last)) <= 0 {
        assert ValueName(prev[i]) in Keys(prev, ValueName);
        var j :| 0 <= j < |init| && init[j] == prev[i].name;
        assert names[j] == init[j];
      }
      PutValueSorted(prev, EnumValue(last, last), sk);
    }
  }

  /** The `Query` type: one `all<Plural>` list field per root, and nothing else. */
  ghost predicate IsQueryType(mm: Metamodel, roots: set<Id>, q: ObjectType)
  {
    && q.name == "Query" && q.Interfaces() == []
    && UniqueKeys(q.Fields(), FieldName)
    && (forall f :: f in q.Fields() ==> exists c :: c in roots && f == QueryField(mm, c))
    && (forall c :: c in roots ==> AllQueryFieldName(mm.Name(c)) in Keys(q.Fields(), FieldName))
  }

  /** The `Query` type built from one `all<Plural>` field per root, in any order. */
  lemma QueryTypeShape(mm: Metamodel, roots: set<Id>, puts: seq<FieldDef>)
    requires forall f :: f in puts <==> exists c :: c in roots && f == QueryField(mm, c)
    ensures IsQueryType(mm, roots, ObjectType("Query", [], puts))
  {
    var q := ObjectType("Query", [], puts);
    BuildObjectShape(ObjectBuilder("Query", [], puts));
    forall c | c in roots ensures AllQueryFieldName(mm.Name(c)) in Keys(q.Fields(), FieldName) {
      assert QueryField(mm, c) in puts by {
        assert exists d :: d in roots && QueryField(mm, c) == QueryField(mm, d);
      }
      var i :| 0 <= i < |puts| && puts[i] == QueryField(mm, c);
      assert FieldName(puts[i]) in Keys(puts, FieldName);
    }
  }
}
