/** Inheritance flattening: every interface and object type receives the
    fields of its transitive supertypes that it does not already have by name. */
module Inheritance {
  import opened Ecore
  import opened GraphQL

  function GetOrEmpty<K, V>(m: map<K, seq<V>>, k: K): seq<V>
  {
    if k in m then m[k] else []
  }

  /** `fs[j]` is the first field of `fs` with its name. */
  predicate FirstOfName(fs: seq<FieldDef>, j: int)
    requires 0 <= j < |fs|
  {
    forall i :: 0 <= i < j ==> fs[i].name != fs[j].name
  }

  /** One step of `addSpecificFields`: add `f` unless a field of its name is present. */
  function AddIfAbsent(b: seq<FieldDef>, f: FieldDef): seq<FieldDef>
  {
    if f.name in Keys(b, FieldName) then b else b + [f]
  }

  /** `addSpecificFields(b, fs)` on the builder's field list. */
  function AddSpecific(b: seq<FieldDef>, fs: seq<FieldDef>): seq<FieldDef>
    decreases |fs|
  {
    if |fs| == 0 then b else AddSpecific(AddIfAbsent(b, fs[0]), fs[1..])
  }

  /** Existing fields are never replaced, and afterwards every name of `fs` is present. */
  lemma {:induction false} AddSpecificKeeps(b: seq<FieldDef>, fs: seq<FieldDef>)
    ensures var r := AddSpecific(b, fs);
      |b| <= |r| && r[..|b|] == b && Keys(r, FieldName) == Keys(b, FieldName) + Keys(fs, FieldName)
    decreases |fs|
  {
    if |fs| > 0 {
      var f := fs[0];
      var b' := AddIfAbsent(b, f);
      KeysSnoc(b, f, FieldName);
      KeysCons(f, fs[1..], FieldName);
      assert fs == [f] + fs[1..];
      AddSpecificKeeps(b', fs[1..]);
      var r := AddSpecific(b', fs[1..]);
      assert r[..|b'|] == b';
      assert b'[..|b|] == b;
      assert r[..|b|] == r[..|b'|][..|b|];
    }
  }

  /** Field names stay unique. */
  lemma {:induction false} AddSpecificUnique(b: seq<FieldDef>, fs: seq<FieldDef>)
    ensures UniqueKeys(b, FieldName) ==> UniqueKeys(AddSpecific(b, fs), FieldName)
    decreases |fs|
  {
    if |fs| > 0 && UniqueKeys(b, FieldName) {
      var f := fs[0];
      var b' := AddIfAbsent(b, f);
      if f.name !in Keys(b, FieldName) {
        forall i, j | 0 <= i < j < |b'| ensures b'[i].name != b'[j].name {
          if j == |b| {
            assert b'[i] == b[i];
          }
        }
      }
      AddSpecificUnique(b', fs[1..]);
    }
  }

  /** What is added is new by name, and it is the first field of `fs` with its
      name: the first field seen wins. */
  lemma {:induction false} AddSpecificFirstSeen(b: seq<FieldDef>, fs: seq<FieldDef>)
    ensures var r := AddSpecific(b, fs);
      forall k :: |b| <= k < |r| ==>
        r[k].name !in Keys(b, FieldName) &&
        exists j :: 0 <= j < |fs| && fs[j] == r[k] && FirstOfName(fs, j)
    decreases |fs|
  {
    if |fs| > 0 {
      var f := fs[0];
      var b' := AddIfAbsent(b, f);
      var r := AddSpecific(b', fs[1..]);
      assert r == AddSpecific(b, fs);
      AddSpecificKeeps(b', fs[1..]);
      AddSpecificFirstSeen(b', fs[1..]);
      KeysSnoc(b, f, FieldName);
      forall k | |b| <= k < |r|
        ensures r[k].name !in Keys(b, FieldName)
        ensures exists j :: 0 <= j < |fs| && fs[j] == r[k] && FirstOfName(fs, j)
      {
        if k < |b'| {
          assert b' == b + [f] && k == |b|;
          assert r[k] == r[..|b'|][k] == b'[k] == f;
          assert fs[0] == r[k] && FirstOfName(fs, 0);
        } else {
          var j :| 0 <= j < |fs[1..]| && fs[1..][j] == r[k] && FirstOfName(fs[1..], j);
          assert fs[j + 1] == r[k];
          assert f.name in Keys(b', FieldName);
          assert r[k].name != f.name;
          forall i | 0 <= i < j + 1 ensures fs[i].name != fs[j + 1].name {
            if i > 0 {
              assert fs[i] == fs[1..][i - 1];
            }
          }
          assert FirstOfName(fs, j + 1);
        }
      }
    }
  }

  /** The field names of the supertypes `supers`, looked up in `fields`. */
  function InheritedKeys(supers: seq<Id>, fields: map<Id, seq<FieldDef>>): set<string>
  {
    if |supers| == 0 then {}
    else Keys(GetOrEmpty(fields, supers[0]), FieldName) + InheritedKeys(supers[1..], fields)
  }

  lemma {:induction false} InheritedKeysMeaning(supers: seq<Id>, fields: map<Id, seq<FieldDef>>, n: string)
    ensures n in InheritedKeys(supers, fields) <==>
            exists s :: s in supers && n in Keys(GetOrEmpty(fields, s), FieldName)
  {
    if |supers| > 0 {
      InheritedKeysMeaning(supers[1..], fields, n);
      assert supers == [supers[0]] + supers[1..];
      if n in InheritedKeys(supers[1..], fields) {
        var s :| s in supers[1..] && n in Keys(GetOrEmpty(fields, s), FieldName);
        assert s in supers;
      }
      if exists s :: s in supers && n in Keys(GetOrEmpty(fields, s), FieldName) {
        var s :| s in supers && n in Keys(GetOrEmpty(fields, s), FieldName);
        if s != supers[0] {
          assert s in supers[1..];
        }
      }
    }
  }

  /** The builder's field list after `addSpecificFields` has run for each
      supertype in `getEAllSuperTypes()` order. */
  function Inherit(b: seq<FieldDef>, supers: seq<Id>, fields: map<Id, seq<FieldDef>>): (r: seq<FieldDef>)
    ensures |b| <= |r| && r[..|b|] == b
    ensures Keys(r, FieldName) == Keys(b, FieldName) + InheritedKeys(supers, fields)
    ensures UniqueKeys(b, FieldName) ==> UniqueKeys(r, FieldName)
    decreases |supers|
  {
    if |supers| == 0 then b
    else
      var b' := AddSpecific(b, GetOrEmpty(fields, supers[0]));
      AddSpecificKeeps(b, GetOrEmpty(fields, supers[0]));
      AddSpecificUnique(b, GetOrEmpty(fields, supers[0]));
      var r := Inherit(b', supers[1..], fields);
      assert r[..|b|] == b by {
        assert r[..|b'|] == b';
        assert b'[..|b|] == b;
        assert r[..|b|] == r[..|b'|][..|b|];
      }
      r
  }

  /** The field-inheritance invariant of an assembled type: its names are its
      own names plus every supertype's, its own fields are kept as they were
      (so an own field wins every name collision), and names stay unique. */
  lemma FlattenedTypeFields(own: seq<FieldDef>, supers: seq<Id>, fields: map<Id, seq<FieldDef>>)
    requires UniqueKeys(own, FieldName)
    ensures var r := Inherit(own, supers, fields);
      && UniqueKeys(r, FieldName)
      && (forall f :: f in own ==> f in r)
      && (forall n :: n in Keys(r, FieldName) <==>
            n in Keys(own, FieldName) || exists s :: s in supers && n in Keys(GetOrEmpty(fields, s), FieldName))
      && (forall i :: 0 <= i < |r| && r[i].name in Keys(own, FieldName) ==> r[i] in own)
  {
    var r := Inherit(own, supers, fields);
    forall n ensures n in Keys(r, FieldName) <==>
        n in Keys(own, FieldName) || exists s :: s in supers && n in Keys(GetOrEmpty(fields, s), FieldName)
    {
      InheritedKeysMeaning(supers, fields, n);
    }
    forall f | f in own ensures f in r {
      var i :| 0 <= i < |own| && own[i] == f;
      assert r[i] == f;
    }
    forall i | 0 <= i < |r| && r[i].name in Keys(own, FieldName) ensures r[i] in own {
      var j :| 0 <= j < |own| && own[j].name == r[i].name;
      assert r[j] == own[j];
    }
  }

  /** A type built from the flattened field log: names are unique and are its
      own names plus every supertype's; when its own names are unique, the
      built fields are the log itself, so no own field is replaced. */
  lemma BuiltFlattened(own: seq<FieldDef>, supers: seq<Id>, fields: map<Id, seq<FieldDef>>)
    ensures var r := PutAll([], Inherit(own, supers, fields), FieldName);
      && UniqueKeys(r, FieldName)
      && (forall n :: n in Keys(r, FieldName) <==>
            n in Keys(own, FieldName) || exists s :: s in supers && n in Keys(GetOrEmpty(fields, s), FieldName))
      && (UniqueKeys(own, FieldName) ==>
            && r == Inherit(own, supers, fields)
            && (forall f :: f in own ==> f in r)
            && (forall i :: 0 <= i < |r| && r[i].name in Keys(own, FieldName) ==> r[i] in own))
  {
    var empty: seq<FieldDef> := [];
    assert UniqueKeys(empty, FieldName) && Keys(empty, FieldName) == {};
    forall n ensures n in InheritedKeys(supers, fields) <==>
        exists s :: s in supers && n in Keys(GetOrEmpty(fields, s), FieldName)
    {
      InheritedKeysMeaning(supers, fields, n);
    }
    if UniqueKeys(own, FieldName) {
      FlattenedTypeFields(own, supers, fields);
      PutAllDistinct(Inherit(own, supers, fields), FieldName);
    }
  }
}
