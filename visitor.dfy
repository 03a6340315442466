/** The two-pass visitor that maps an Ecore metamodel to a GraphQL schema. */
module Visitor {
  import opened Wrappers
  import opened Strings
  import opened Sorting
  import opened Ecore
  import opened GraphQL
  import opened Naming
  import opened Mapping
  import opened Inheritance
  import opened Roots
  import opened Mutations
  import opened Builds

  /** The first pass registers classes and references; the second maps attributes and operations. */
  datatype Mode = MetaclassesOnly | Contents

  /** Instance classes of an `EDataType` that become an `Int`-coerced scalar. */
  const IntInstanceClasses: set<string> := {"long", "java.lang.Long", "java.math.BigDecimal"}

  /** The scalar an `EDataType` becomes, if it becomes one. */
  function ScalarFor(mm: Metamodel, dt: Id): (s: Option<ScalarType>)
    requires dt in mm.classifiers && mm.classifiers[dt].EDataType?
    ensures var d := mm.classifiers[dt];
      && (s.Some? <==> !d.hasTypeParameters && d.instanceClassName.Some? &&
                       d.instanceClassName.value in IntInstanceClasses + {"java.lang.String"})
      && (s.Some? ==> s.value.name == d.name &&
                      (s.value.coercing == IntCoercing <==> d.instanceClassName.value in IntInstanceClasses))
  {
    var d := mm.classifiers[dt];
    if d.hasTypeParameters then None
    else match d.instanceClassName
      case None => None
      case Some(ic) =>
        if ic == "long" || ic == "java.lang.Long" || ic == "java.math.BigDecimal" then Some(ScalarType(d.name, IntCoercing))
        else if ic == "java.lang.String" then Some(ScalarType(d.name, StringCoercing))
        else None
  }

  /** The names of the abstract classes among `supers`, in order. */
  function AbstractNames(mm: Metamodel, supers: seq<Id>): seq<string>
    decreases |supers|
  {
    if |supers| == 0 then []
    else
      var last := supers[|supers| - 1];
      AbstractNames(mm, supers[..|supers| - 1]) + (if mm.IsAbstract(last) then [mm.Name(last)] else [])
  }

  lemma {:induction false} AbstractNamesMeaning(mm: Metamodel, supers: seq<Id>, n: string)
    ensures n in AbstractNames(mm, supers) <==> exists s :: s in supers && mm.IsAbstract(s) && mm.Name(s) == n
    decreases |supers|
  {
    if |supers| > 0 {
      var init := supers[..|supers| - 1];
      var last := supers[|supers| - 1];
      assert supers == init + [last];
      AbstractNamesMeaning(mm, init, n);
      if exists s :: s in supers && mm.IsAbstract(s) && mm.Name(s) == n {
        var s :| s in supers && mm.IsAbstract(s) && mm.Name(s) == n;
        if s != last {
          assert s in init;
        }
      }
    }
  }

  /** The interfaces an object type implements: one type reference per
      abstract transitive supertype, keyed by name. */
  function ImplementedInterfaces(mm: Metamodel, c: Id): seq<string>
  {
    PutAll([], AbstractNames(mm, mm.Supers(c)), Self)
  }

  /** A concrete class implements, once each, exactly the interfaces of its abstract supertypes. */
  lemma ImplementedInterfacesMeaning(mm: Metamodel, c: Id)
    ensures UniqueKeys(ImplementedInterfaces(mm, c), Self)
    ensures forall n :: n in ImplementedInterfaces(mm, c) <==>
      exists s :: s in mm.Supers(c) && mm.IsAbstract(s) && mm.Name(s) == n
  {
    var r := ImplementedInterfaces(mm, c);
    var empty: seq<string> := [];
    assert Keys(empty, Self) == {};
    forall n ensures n in r <==> exists s :: s in mm.Supers(c) && mm.IsAbstract(s) && mm.Name(s) == n {
      AbstractNamesMeaning(mm, mm.Supers(c), n);
      assert n in r <==> n in Keys(r, Self) by {
        if n in r {
          var i :| 0 <= i < |r| && r[i] == n;
          assert Self(r[i]) == n;
        }
      }
      var an := AbstractNames(mm, mm.Supers(c));
      assert n in an <==> n in Keys(an, Self) by {
        if n in an {
          var i :| 0 <= i < |an| && an[i] == n;
          assert Self(an[i]) == n;
        }
      }
    }
  }

  /** The `identifier` detail reads "true", ignoring case. */
  predicate IsIdentifier(a: EAttribute)
  {
    a.identifierDetail.Some? && EqualsIgnoreCase("true", a.identifierDetail.value)
  }

  /** The non-abstract transitive supertypes of `c`. */
  function ConcreteSupers(mm: Metamodel, c: Id): set<Id>
  {
    set s | s in mm.Supers(c) && !mm.IsAbstract(s)
  }

  /** The key classes are sorted by: their name. */
  function NameOf(mm: Metamodel): Id -> string
  {
    (c: Id) => mm.Name(c)
  }

  /** The names of `cs`, in order. */
  function Names(mm: Metamodel, cs: seq<Id>): (ns: seq<string>)
    ensures |ns| == |cs|
    ensures forall i :: 0 <= i < |cs| ==> ns[i] == mm.Name(cs[i])
  {
    seq(|cs|, i requires 0 <= i < |cs| => mm.Name(cs[i]))
  }

  /** An inherited operation is a getter of a feature named like `r`, so `r` is skipped. */
  predicate GetterShadowed(mm: Metamodel, r: EReference)
    requires mm.ReferenceOk(r)
  {
    r.name in mm.classifiers[r.eContainingClass].eAllOperationGetters
  }

  /** The names of the classes `cs`. */
  function ClassNames(mm: Metamodel, cs: set<Id>): set<string>
  {
    set c | c in cs :: mm.Name(c)
  }

  /** Listing the classes of `cs` sorted by name gives their names sorted,
      and those names are the names of the set the list enumerates. */
  lemma SortedNames(mm: Metamodel, cs: seq<Id>, s: set<Id>)
    requires SortedBy(cs, NameOf(mm))
    requires forall c :: c in cs <==> c in s
    ensures SortedBy(Names(mm, cs), Self)
    ensures (set n | n in Names(mm, cs)) == ClassNames(mm, s)
  {
    var names := Names(mm, cs);
    forall i, j | 0 <= i < j < |names| ensures CompareTo(Self(names[i]), Self(names[j])) <= 0 {
      assert NameOf(mm)(cs[i]) == names[i] && NameOf(mm)(cs[j]) == names[j];
    }
    forall n ensures n in names <==> n in ClassNames(mm, s) {
      if n in ClassNames(mm, s) {
        var c :| c in s && mm.Name(c) == n;
        var i :| 0 <= i < |cs| && cs[i] == c;
        assert names[i] == n;
      }
    }
  }

  /** The target classes of the references `rs`. */
  function Targets(rs: seq<EReference>): set<Id>
  {
    set r | r in rs :: r.eReferenceType
  }

  /** The identifiers of those of `supers` that have an identifier list, in order. */
  function SuperIdentifiers(ids: map<Id, seq<FieldDef>>, supers: seq<Id>): seq<FieldDef>
    decreases |supers|
  {
    if |supers| == 0 then []
    else SuperIdentifiers(ids, supers[..|supers| - 1]) + GetOrEmpty(ids, supers[|supers| - 1])
  }

  lemma {:induction false} SuperIdentifiersMeaning(ids: map<Id, seq<FieldDef>>, supers: seq<Id>, f: FieldDef)
    ensures f in SuperIdentifiers(ids, supers) <==> exists s :: s in supers && s in ids && f in ids[s]
    decreases |supers|
  {
    if |supers| > 0 {
      var init := supers[..|supers| - 1];
      var last := supers[|supers| - 1];
      assert supers == init + [last];
      SuperIdentifiersMeaning(ids, init, f);
      if exists s :: s in supers && s in ids && f in ids[s] {
        var s :| s in supers && s in ids && f in ids[s];
        if s != last {
          assert s in init;
        }
      }
    }
  }

  /** The content objects the first pass registers: classes without type parameters. */
  predicate RegistersClass(mm: Metamodel, eo: EObject)
  {
    eo.ClassifierObj? && mm.IsClass(eo.id) && !mm.HasTypeParameters(eo.id)
  }

  /** The content objects that become fields of their containing class. */
  predicate IsFeature(eo: EObject)
  {
    eo.AttributeObj? || eo.ReferenceObj? || eo.OperationObj?
  }

  function Owner(eo: EObject): Id
    requires IsFeature(eo)
  {
    match eo
    case AttributeObj(a) => a.eContainingClass
    case ReferenceObj(r) => r.eContainingClass
    case OperationObj(o) => o.eContainingClass
  }

  /** A void operation without type parameters: the second pass dereferences
      its null return type. */
  predicate VoidReturn(eo: EObject)
  {
    eo.OperationObj? && !eo.operation.hasTypeParameters && eo.operation.IsVoid()
  }

  /** The classes registered by a pass over `contents`. */
  function ClassesIn(mm: Metamodel, contents: seq<EObject>): set<Id>
  {
    set eo | eo in contents && RegistersClass(mm, eo) :: eo.id
  }

  /** Every feature comes after its containing class, and that class has no
      type parameters, as in a pre-order walk of a metamodel whose feature
      owners are all plain classes. */
  predicate OwnersFirst(mm: Metamodel, contents: seq<EObject>)
  {
    forall i :: 0 <= i < |contents| && IsFeature(contents[i]) ==> Owner(contents[i]) in ClassesIn(mm, contents[..i])
  }

  class Ecore2GraphQLVisitor {
    const mm: Metamodel
    var mode: Mode
    var scalarBuilders: map<Id, ScalarType>
    var enumBuilders: map<Id, EnumBuilder>
    var interfaceBuilders: map<Id, InterfaceBuilder>
    var objectBuilders: map<Id, ObjectBuilder>
    var fields: map<Id, seq<FieldDef>>
    var identifiers: map<Id, seq<FieldDef>>
    var containments: map<Id, seq<EReference>>
    var mutations: set<MetaclassIdentifier2Containment>
    var interfaceTypes: map<Id, InterfaceType>
    var objectTypes: map<Id, ObjectType>
    var packages: set<PackageId>
    var allMetaclasses: set<Id>
    var containedMetaclasses: set<Id>
    var allSubclassReferences: set<Id>
    var allSubclassesMap: map<Id, set<Id>>

    /** What the first pass keeps about class `c`: it is registered exactly
        when it has a field, an identifier and a containment list; a
        registered class is a class without type parameters with one type
        builder, an interface exactly when it is abstract, named after the
        class and given the class's fields in order (an object builder first
        gets one interface reference per abstract supertype). */
    ghost predicate ClassState(c: Id)
      reads this`allMetaclasses, this`fields, this`identifiers, this`containments,
            this`interfaceBuilders, this`objectBuilders
    {
      && (c in fields <==> c in allMetaclasses)
      && (c in identifiers <==> c in allMetaclasses)
      && (c in containments <==> c in allMetaclasses)
      && (c in interfaceBuilders <==> c in allMetaclasses && mm.IsAbstract(c))
      && (c in objectBuilders <==> c in allMetaclasses && !mm.IsAbstract(c))
      && (c in allMetaclasses ==> mm.IsClass(c) && !mm.HasTypeParameters(c))
      && (c in interfaceBuilders ==> interfaceBuilders[c] == InterfaceBuilder(mm.Name(c), fields[c]))
      && (c in objectBuilders ==>
            objectBuilders[c] == ObjectBuilder(mm.Name(c), AbstractNames(mm, mm.Supers(c)), fields[c]))
    }

    /** `allSubclassesMap`, read through `getOrDefault`, lists `c` under `s`
        exactly when `c` is a registered class below `s`. */
    ghost predicate SubclassEntry(s: Id, c: Id)
      reads this`allSubclassesMap, this`allMetaclasses
    {
      c in SubclassesOf(s) <==> c in allMetaclasses && mm.IsSuper(s, c)
    }

    /** Enum builders belong to enums, scalar builders to supported data types. */
    ghost predicate DataTypeBuilders()
      reads this`enumBuilders, this`scalarBuilders
    {
      && (forall e :: e in enumBuilders ==> e in mm.classifiers && mm.classifiers[e].EEnum? && enumBuilders[e].name == mm.Name(e))
      && (forall dt :: dt in scalarBuilders ==>
            dt in mm.classifiers && mm.classifiers[dt].EDataType? && ScalarFor(mm, dt) == Some(scalarBuilders[dt]))
    }

    /** The state between construction and `addBuilds`, which has not run yet. */
    ghost predicate Valid()
      reads this
    {
      && (forall c :: ClassState(c))
      && (forall s, c :: SubclassEntry(s, c))
      && DataTypeBuilders()
      && interfaceTypes == map[] && objectTypes == map[] && mutations == {}
    }

    /** `allSubclassesMap.getOrDefault(t, new HashSet<>())`. */
    function SubclassesOf(t: Id): set<Id>
      reads this`allSubclassesMap
    {
      if t in allSubclassesMap then allSubclassesMap[t] else {}
    }

    /** The subclass set of `t` holds exactly the registered classes below `t`;
        in particular it never holds `t` itself. */
    lemma SubclassesOfMeaning(t: Id)
      requires Valid() && mm.WellFormed()
      ensures SubclassesOf(t) == set c | c in allMetaclasses && mm.IsSuper(t, c)
      ensures t !in SubclassesOf(t)
    {
      forall c ensures c in SubclassesOf(t) <==> c in allMetaclasses && mm.IsSuper(t, c) {
        assert SubclassEntry(t, c);
      }
      assert SubclassEntry(t, t);
    }

    constructor(mm: Metamodel)
      requires mm.WellFormed()
      ensures this.mm == mm && mode == MetaclassesOnly && Valid()
      ensures scalarBuilders == map[] && enumBuilders == map[] && interfaceBuilders == map[] && objectBuilders == map[]
      ensures fields == map[] && identifiers == map[] && containments == map[]
      ensures packages == {} && allMetaclasses == {} && containedMetaclasses == {}
      ensures allSubclassReferences == {} && allSubclassesMap == map[]
    {
      this.mm := mm;
      mode := MetaclassesOnly;
      scalarBuilders, enumBuilders := map[], map[];
      interfaceBuilders, objectBuilders := map[], map[];
      fields, identifiers, containments := map[], map[], map[];
      mutations := {};
      interfaceTypes, objectTypes := map[], map[];
      packages, allMetaclasses, containedMetaclasses := {}, {}, {};
      allSubclassReferences, allSubclassesMap := {}, map[];
    }

    method ContentMode()
      modifies this`mode
      ensures mode == Contents
    {
      mode := Contents;
    }

    method CaseEPackage(p: PackageId)
      requires Valid()
      modifies this`packages
      ensures packages == old(packages) + {p}
      ensures Valid()
    {
      packages := packages + {p};
    }

    /** Registers a scalar for a data type with a supported instance class. */
    method CaseEDataType(dt: Id)
      requires Valid() && dt in mm.classifiers && mm.classifiers[dt].EDataType?
      modifies this`scalarBuilders
      ensures ScalarFor(mm, dt).Some? ==> scalarBuilders == old(scalarBuilders)[dt := ScalarFor(mm, dt).value]
      ensures ScalarFor(mm, dt).None? ==> scalarBuilders == old(scalarBuilders)
      ensures Valid()
    {
      var d := mm.classifiers[dt];
      if d.hasTypeParameters {
        return;
      }
      if d.instanceClassName.None? {
        return;
      }
      var ic := d.instanceClassName.value;
      var b;
      if ic == "long" || ic == "java.lang.Long" || ic == "java.math.BigDecimal" {
        b := ScalarType(d.name, IntCoercing);
      } else if ic == "java.lang.String" {
        b := ScalarType(d.name, StringCoercing);
      } else {
        return;
      }
      scalarBuilders := scalarBuilders[dt := b];
    }

    /** Starts (or restarts) the enum of `e` with no values. */
    method CaseEEnum(e: Id)
      requires Valid() && e in mm.classifiers && mm.classifiers[e].EEnum?
      modifies this`enumBuilders
      ensures enumBuilders == old(enumBuilders)[e := EnumBuilder(mm.Name(e), [])]
      ensures Valid()
    {
      enumBuilders := enumBuilders[e := EnumBuilder(mm.Name(e), [])];
    }

    /** Adds the upper-cased literal name, valued by the literal, to its enum if the enum is started. */
    method CaseEEnumLiteral(l: EEnumLiteral)
      requires Valid()
      modifies this`enumBuilders
      ensures l.eEnum in old(enumBuilders) ==>
        enumBuilders == old(enumBuilders)[l.eEnum := old(enumBuilders)[l.eEnum].(valuePuts :=
          old(enumBuilders)[l.eEnum].valuePuts + [EnumValue(ToUpperCase(l.name), l.literal)])]
      ensures l.eEnum !in old(enumBuilders) ==> enumBuilders == old(enumBuilders)
      ensures Valid()
    {
      if l.eEnum in enumBuilders {
        var b := enumBuilders[l.eEnum];
        enumBuilders := enumBuilders[l.eEnum := b.(valuePuts := b.valuePuts + [EnumValue(ToUpperCase(l.name), l.literal)])];
      }
    }

    /** The `withInterface` calls for a new object type: one type reference
        per abstract supertype, in `getEAllSuperTypes()` order. */
    method InterfacesOf(c: Id) returns (names: seq<string>)
      ensures names == AbstractNames(mm, mm.Supers(c))
    {
      var supers := mm.Supers(c);
      names := [];
      var i := 0;
      while i < |supers|
        invariant 0 <= i <= |supers|
        invariant names == AbstractNames(mm, supers[..i])
      {
        assert supers[..i + 1][..i] == supers[..i];
        if mm.IsAbstract(supers[i]) {
          names := names + [mm.Name(supers[i])];
        }
        i := i + 1;
      }
      assert supers[..i] == supers;
    }

    /** Records `sub` as a subclass of `sup`. */
    method AddSubclass(sup: Id, sub: Id)
      modifies this`allSubclassesMap
      ensures allSubclassesMap == old(allSubclassesMap)[sup := old(SubclassesOf(sup)) + {sub}]
    {
      var subs := SubclassesOf(sup);
      allSubclassesMap := allSubclassesMap[sup := subs + {sub}];
    }
    /** `packages.contains(t.getEPackage())` for a classifier without type parameters. */
    predicate InModel(t: Id)
      reads this
    {
      t in mm.classifiers && mm.classifiers[t].ePackage in packages && !mm.classifiers[t].hasTypeParameters
    }

    /** `acceptEAttribute`: the attribute's type belongs to a visited package. */
    predicate AttributeAccepted(a: EAttribute)
      reads this
      requires mm.AttributeOk(a)
    {
      mm.classifiers[a.eAttributeType].ePackage in packages
    }

    /** An operation is mapped when neither it nor its return type has type
        parameters, it is not void, and its return type and every parameter
        type are in the model. */
    predicate OperationAccepted(o: EOperation)
      reads this
    {
      && !o.hasTypeParameters
      && !o.IsVoid() && InModel(o.eType.value)
      && forall p :: p in o.eParameters ==> InModel(p.eType)
    }

    /** Registers `c`: an interface builder when it is abstract, otherwise an
        object builder given its interface references, and empty field,
        identifier and containment lists. */
    method RegisterClass(c: Id)
      requires mm.IsClass(c) && !mm.HasTypeParameters(c)
      requires forall d :: ClassState(d)
      modifies this`interfaceBuilders, this`objectBuilders, this`fields, this`identifiers, this`containments,
               this`allMetaclasses
      ensures forall d :: ClassState(d)
      ensures mm.IsAbstract(c) ==>
        interfaceBuilders == old(interfaceBuilders)[c := InterfaceBuilder(mm.Name(c), [])] &&
        objectBuilders == old(objectBuilders)
      ensures !mm.IsAbstract(c) ==>
        objectBuilders == old(objectBuilders)[c := ObjectBuilder(mm.Name(c), AbstractNames(mm, mm.Supers(c)), [])] &&
        interfaceBuilders == old(interfaceBuilders)
      ensures fields == old(fields)[c := []] && identifiers == old(identifiers)[c := []]
      ensures containments == old(containments)[c := []]
      ensures allMetaclasses == old(allMetaclasses) + {c}
    {
      if mm.IsAbstract(c) {
        interfaceBuilders := interfaceBuilders[c := InterfaceBuilder(mm.Name(c), [])];
      } else {
        var interfaces := InterfacesOf(c);
        objectBuilders := objectBuilders[c := ObjectBuilder(mm.Name(c), interfaces, [])];
      }
      fields := fields[c := []];
      identifiers := identifiers[c := []];
      containments := containments[c := []];
      allMetaclasses := allMetaclasses + {c};
      forall d ensures ClassState(d) {
        assert old(ClassState(d));
      }
    }

    /** `addSubclass(sup, c)` for each supertype `sup` of `c`. */
    method IndexSubclasses(c: Id)
      modifies this`allSubclassesMap
      ensures forall s :: SubclassesOf(s) == old(SubclassesOf(s)) + (if mm.IsSuper(s, c) then {c} else {})
    {
      var supers := mm.Supers(c);
      ghost var index := allSubclassesMap;
      var i := 0;
      while i < |supers|
        invariant 0 <= i <= |supers|
        invariant forall s :: s in allSubclassesMap <==> s in index || s in supers[..i]
        invariant forall s :: s in allSubclassesMap ==>
          allSubclassesMap[s] == (if s in index then index[s] else {}) + (if s in supers[..i] then {c} else {})
      {
        AddSubclass(supers[i], c);
        assert supers[..i + 1] == supers[..i] + [supers[i]];
        i := i + 1;
      }
      assert supers[..i] == supers;
    }

    /** Registers class `c` and indexes it under each of its supertypes. */
    method RegisterMetaclass(c: Id)
      requires Valid() && mm.IsClass(c) && !mm.HasTypeParameters(c)
      modifies this`interfaceBuilders, this`objectBuilders, this`fields, this`identifiers, this`containments,
               this`allMetaclasses, this`allSubclassesMap
      ensures Valid()
      ensures
        && (mm.IsAbstract(c) ==>
              interfaceBuilders == old(interfaceBuilders)[c := InterfaceBuilder(mm.Name(c), [])] &&
              objectBuilders == old(objectBuilders))
        && (!mm.IsAbstract(c) ==>
              objectBuilders == old(objectBuilders)[c := ObjectBuilder(mm.Name(c), AbstractNames(mm, mm.Supers(c)), [])] &&
              interfaceBuilders == old(interfaceBuilders))
        && fields == old(fields)[c := []]
        && identifiers == old(identifiers)[c := []]
        && containments == old(containments)[c := []]
        && allMetaclasses == old(allMetaclasses) + {c}
        && (forall s :: SubclassesOf(s) == old(SubclassesOf(s)) + (if mm.IsSuper(s, c) then {c} else {}))
    {
      RegisterClass(c);
      IndexSubclasses(c);
      forall s, d ensures SubclassEntry(s, d) {
        assert old(SubclassEntry(s, d));
      }
    }

    /** First pass: registers `c` as an interface (abstract) or object type
        with empty field, identifier and containment lists, and indexes it
        under each of its supertypes. A class with type parameters is not
        handled. The second pass does nothing. */
    method CaseEClass(c: Id) returns (handled: bool)
      requires Valid() && mm.IsClass(c)
      modifies this`interfaceBuilders, this`objectBuilders, this`fields, this`identifiers, this`containments,
               this`allMetaclasses, this`allSubclassesMap
      ensures Valid()
      ensures handled <==> !mm.HasTypeParameters(c)
      ensures !handled || mode == Contents ==> unchanged(this)
      ensures handled && mode == MetaclassesOnly ==>
        && (mm.IsAbstract(c) ==>
              interfaceBuilders == old(interfaceBuilders)[c := InterfaceBuilder(mm.Name(c), [])] &&
              objectBuilders == old(objectBuilders))
        && (!mm.IsAbstract(c) ==>
              objectBuilders == old(objectBuilders)[c := ObjectBuilder(mm.Name(c), AbstractNames(mm, mm.Supers(c)), [])] &&
              interfaceBuilders == old(interfaceBuilders))
        && fields == old(fields)[c := []]
        && identifiers == old(identifiers)[c := []]
        && containments == old(containments)[c := []]
        && allMetaclasses == old(allMetaclasses) + {c}
        && (forall s :: SubclassesOf(s) == old(SubclassesOf(s)) + (if mm.IsSuper(s, c) then {c} else {}))
    {
      if mm.HasTypeParameters(c) {
        return false;
      }
      handled := true;
      if mode == Contents {
        return;
      }
      RegisterMetaclass(c);
    }

    /** Appends `f` to the fields of `c` and hands it to `c`'s type builder;
        fails when `c` was never registered. */
    method AddField(c: Id, f: FieldDef) returns (outcome: Outcome)
      requires Valid()
      modifies this`fields, this`interfaceBuilders, this`objectBuilders
      ensures Valid()
      ensures outcome.Fail? <==> c !in old(allMetaclasses)
      ensures outcome.Fail? ==> unchanged(this)
      ensures outcome.Pass? ==>
        && c in old(fields)
        && fields == old(fields)[c := old(fields)[c] + [f]]
        && (c in old(interfaceBuilders) ==> interfaceBuilders == old(interfaceBuilders)[c :=
              old(interfaceBuilders)[c].(fieldPuts := old(interfaceBuilders)[c].fieldPuts + [f])])
        && (c !in old(interfaceBuilders) ==> interfaceBuilders == old(interfaceBuilders))
        && (c in old(objectBuilders) ==> objectBuilders == old(objectBuilders)[c :=
              old(objectBuilders)[c].(fieldPuts := old(objectBuilders)[c].fieldPuts + [f])])
        && (c !in old(objectBuilders) ==> objectBuilders == old(objectBuilders))
    {
      assert ClassState(c);
      if c !in fields {
        return Fail("missing fields for " + mm.Name(c));
      }
      fields := fields[c := fields[c] + [f]];
      if c in interfaceBuilders {
        var ib := interfaceBuilders[c];
        interfaceBuilders := interfaceBuilders[c := ib.(fieldPuts := ib.fieldPuts + [f])];
      }
      if c in objectBuilders {
        var ob := objectBuilders[c];
        objectBuilders := objectBuilders[c := ob.(fieldPuts := ob.fieldPuts + [f])];
      }
      forall d ensures ClassState(d) {
        assert old(ClassState(d));
      }
      return Pass;
    }

    /** Appends `f` to the identifiers of `c`; fails when `c` was never registered. */
    method AddIdentifier(c: Id, f: FieldDef) returns (outcome: Outcome)
      requires Valid()
      modifies this`identifiers
      ensures Valid()
      ensures outcome.Fail? <==> c !in old(allMetaclasses)
      ensures outcome.Fail? ==> identifiers == old(identifiers)
      ensures outcome.Pass? ==> c in old(identifiers) && identifiers == old(identifiers)[c := old(identifiers)[c] + [f]]
    {
      assert ClassState(c);
      if c !in identifiers {
        return Fail("missing identifiers for " + mm.Name(c));
      }
      identifiers := identifiers[c := identifiers[c] + [f]];
      forall d ensures ClassState(d) {
        assert old(ClassState(d));
      }
      return Pass;
    }

    /** Appends `r` to the containments of `c`; fails when `c` was never registered. */
    method AddContainment(c: Id, r: EReference) returns (outcome: Outcome)
      requires Valid()
      modifies this`containments
      ensures Valid()
      ensures outcome.Fail? <==> c !in old(allMetaclasses)
      ensures outcome.Fail? ==> containments == old(containments)
      ensures outcome.Pass? ==> c in old(containments) && containments == old(containments)[c := old(containments)[c] + [r]]
    {
      assert ClassState(c);
      if c !in containments {
        return Fail("missing containements for " + mm.Name(c));
      }
      containments := containments[c := containments[c] + [r]];
      forall d ensures ClassState(d) {
        assert old(ClassState(d));
      }
      return Pass;
    }

    /** Second pass: an accepted attribute becomes a field of its class, and
        also an identifier when its `identifier` detail reads "true". */
    method CaseEAttribute(a: EAttribute) returns (outcome: Outcome)
      requires Valid() && mm.AttributeOk(a)
      modifies this`fields, this`interfaceBuilders, this`objectBuilders, this`identifiers
      ensures Valid()
      ensures mode == MetaclassesOnly || !AttributeAccepted(a) ==> outcome.Pass? && unchanged(this)
      ensures mode == Contents && AttributeAccepted(a) ==>
        var c, f := a.eContainingClass, AttributeField(mm, a);
        && (outcome.Fail? <==> c !in old(allMetaclasses))
        && (outcome.Pass? ==>
              && c in old(fields) && c in old(identifiers)
              && fields == old(fields)[c := old(fields)[c] + [f]]
              && identifiers == if IsIdentifier(a) then old(identifiers)[c := old(identifiers)[c] + [f]] else old(identifiers))
    {
      if mode == MetaclassesOnly {
        return Pass;
      }
      var c := a.eContainingClass;
      if mm.classifiers[a.eAttributeType].ePackage !in packages {
        return Pass;
      }
      var qt := ReferenceClassifierType(mm.Name(a.eAttributeType));
      var f := FieldDef(a.name, UpdateMultiplicity(a.multiplicity, qt), []);
      outcome := AddField(c, f);
      if outcome.Fail? {
        return;
      }
      if IsIdentifier(a) {
        outcome := AddIdentifier(c, f);
      } else {
        assert ClassState(c);
      }
    }

    /** A many-valued element is recorded as a collection reference to `t` and
        becomes a paginated collection; a single-valued one is left alone. */
    method AddCollectionFilteringAndSorting(fb: FieldDef, isMany: bool, t: Id) returns (f: FieldDef)
      requires Valid()
      modifies this`allSubclassReferences
      ensures Valid()
      ensures allSubclassReferences == old(allSubclassReferences) + (if isMany then {t} else {})
      ensures f == CollectionField(fb, isMany, mm.Name(t), SubclassesOf(t) != {})
    {
      f := fb;
      if isMany {
        allSubclassReferences := allSubclassReferences + {t};
        var args: seq<Argument> := [];
        if SubclassesOf(t) != {} {
          args := args + [Argument("type", Ref(InputNameOfAllSubtypesOf(mm.Name(t))), None)];
        }
        args := args + [Argument("filter", Builtin(GraphQLString), None)];
        args := args + [Argument("sort", Builtin(GraphQLString), None)];
        args := args + [Argument("reverse", Builtin(GraphQLBoolean), Some(BooleanValue(false)))];
        args := args + [Argument("skip", Builtin(GraphQLInt), Some(IntValue(0)))];
        args := args + [Argument("take", Builtin(GraphQLInt), Some(IntValue(-1)))];
        assert args == CollectionArguments(SubclassesOf(t) != {}, mm.Name(t));
        f := f.(argumentPuts := f.argumentPuts + args);
        f := f.(typ := NonNull(Ref(PaginatedCollectionOf(mm.Name(t)))));
      }
    }

    /** A containment marks its target and the target's concrete supertypes as
        contained and is recorded as a containment of its class. */
    method MarkContainment(r: EReference) returns (outcome: Outcome)
      requires Valid() && mm.ReferenceOk(r)
      modifies this`containedMetaclasses, this`containments
      ensures Valid()
      ensures containedMetaclasses == old(containedMetaclasses) + {r.eReferenceType} + ConcreteSupers(mm, r.eReferenceType)
      ensures outcome.Fail? <==> r.eContainingClass !in allMetaclasses
      ensures outcome.Pass? ==>
        && r.eContainingClass in old(containments)
        && containments == old(containments)[r.eContainingClass := old(containments)[r.eContainingClass] + [r]]
    {
      var rt := r.eReferenceType;
      containedMetaclasses := containedMetaclasses + {rt} + ConcreteSupers(mm, rt);
      outcome := AddContainment(r.eContainingClass, r);
    }

    /** A reference of a registered class, not shadowed by a getter, in the first pass. */
    method MapReference(r: EReference) returns (outcome: Outcome)
      requires Valid() && mm.ReferenceOk(r) && mode == MetaclassesOnly
      modifies this`containedMetaclasses, this`containments, this`allSubclassReferences,
               this`fields, this`interfaceBuilders, this`objectBuilders
      ensures Valid()
      ensures
        var c, rt := r.eContainingClass, r.eReferenceType;
        && containedMetaclasses == old(containedMetaclasses) + (if r.isContainment then {rt} + ConcreteSupers(mm, rt) else {})
        && (outcome.Fail? <==> c !in old(allMetaclasses))
        && (outcome.Pass? ==>
              && c in old(fields) && c in old(containments)
              && containments == (if r.isContainment then old(containments)[c := old(containments)[c] + [r]] else old(containments))
              && allSubclassReferences == old(allSubclassReferences) + (if r.multiplicity.isMany then {rt} else {})
              && fields == old(fields)[c := old(fields)[c] + [ReferenceField(mm, r, old(SubclassesOf(rt)) != {})]])
    {
      var c := r.eContainingClass;
      var rt := r.eReferenceType;
      if r.isContainment {
        outcome := MarkContainment(r);
        if outcome.Fail? {
          return;
        }
      }
      var qt := ReferenceClassifierType(mm.Name(rt));
      var fb := FieldDef(r.name, UpdateMultiplicity(r.multiplicity, qt), []);
      var f := AddCollectionFilteringAndSorting(fb, r.multiplicity.isMany, rt);
      assert f == ReferenceField(mm, r, old(SubclassesOf(rt)) != {});
      assert fields == old(fields) && allMetaclasses == old(allMetaclasses);
      outcome := AddField(c, f);
      assert old(ClassState(c));
    }

    /** First pass: a reference not shadowed by a getter becomes a field of its
        class; a containment also marks its target and the target's concrete
        supertypes as contained and is recorded as a containment of the class. */
    method CaseEReference(r: EReference) returns (outcome: Outcome)
      requires Valid() && mm.ReferenceOk(r)
      modifies this`containedMetaclasses, this`containments, this`allSubclassReferences,
               this`fields, this`interfaceBuilders, this`objectBuilders
      ensures Valid()
      ensures GetterShadowed(mm, r) || mode == Contents ==> outcome.Pass? && unchanged(this)
      ensures !GetterShadowed(mm, r) && mode == MetaclassesOnly ==>
        var c, rt := r.eContainingClass, r.eReferenceType;
        && containedMetaclasses == old(containedMetaclasses) + (if r.isContainment then {rt} + ConcreteSupers(mm, rt) else {})
        && (outcome.Fail? <==> c !in old(allMetaclasses))
        && (outcome.Pass? ==>
              && c in old(fields) && c in old(containments)
              && containments == (if r.isContainment then old(containments)[c := old(containments)[c] + [r]] else old(containments))
              && allSubclassReferences == old(allSubclassReferences) + (if r.multiplicity.isMany then {rt} else {})
              && fields == old(fields)[c := old(fields)[c] + [ReferenceField(mm, r, old(SubclassesOf(rt)) != {})]])
    {
      var c := r.eContainingClass;
      if r.name in mm.classifiers[c].eAllOperationGetters {
        return Pass;
      }
      if mode == Contents {
        return Pass;
      }
      outcome := MapReference(r);
    }

    /** The `argument(pb)` calls for an operation's field, one per parameter
        in order, or nothing when some parameter's type is outside the model. */
    method OperationArguments(o: EOperation) returns (args: Option<seq<Argument>>)
      requires mm.OperationOk(o)
      ensures args.Some? <==> forall p :: p in o.eParameters ==> InModel(p.eType)
      ensures args.Some? ==> args.value == ParameterArguments(mm, o.eParameters)
    {
      var ps := o.eParameters;
      var puts: seq<Argument> := [];
      var i := 0;
      while i < |ps|
        invariant 0 <= i <= |ps|
        invariant forall k :: 0 <= k < i ==> InModel(ps[k].eType)
        invariant puts == ParameterArguments(mm, ps[..i])
      {
        var p := ps[i];
        var pt := p.eType;
        if mm.classifiers[pt].ePackage !in packages || mm.classifiers[pt].hasTypeParameters {
          assert !InModel(ps[i].eType);
          return None;
        }
        var qpt := ReferenceClassifierType(mm.Name(pt));
        var pb: Argument;
        if p.multiplicity.isMany {
          pb := Argument(p.name, List(qpt), None);
        } else if p.multiplicity.isUnique || p.multiplicity.upperBound == 1 {
          pb := Argument(p.name, NonNull(qpt), None);
        } else {
          pb := Argument(p.name, qpt, None);
        }
        assert pb == ParameterArgument(mm, p);
        puts := puts + [pb];
        i := i + 1;
      }
      assert ps[..i] == ps;
      forall p | p in ps ensures InModel(p.eType) {
        var k :| 0 <= k < |ps| && ps[k] == p;
      }
      return Some(puts);
    }

    /** The field of an accepted operation, handed to its class. */
    method AddOperationField(o: EOperation, fieldName: string, qt: QType, args: seq<Argument>) returns (outcome: Outcome)
      requires Valid() && mm.OperationOk(o) && OperationAccepted(o)
      requires fieldName == (if o.getterOf.Some? then o.getterOf.value else o.name)
      requires qt == ReferenceClassifierType(mm.Name(o.eType.value))
      requires args == ParameterArguments(mm, o.eParameters)
      modifies this`allSubclassReferences, this`fields, this`interfaceBuilders, this`objectBuilders
      ensures Valid()
      ensures
        var c, t := o.eContainingClass, o.eType.value;
        && allSubclassReferences == old(allSubclassReferences) + (if o.multiplicity.isMany then {t} else {})
        && (outcome.Fail? <==> c !in old(allMetaclasses))
        && (outcome.Pass? ==>
              c in old(fields) && fields == old(fields)[c := old(fields)[c] + [OperationField(mm, o, old(SubclassesOf(t)) != {})]])
    {
      var t := o.eType.value;
      var fb := FieldDef(fieldName, UpdateMultiplicity(o.multiplicity, qt), args);
      var f := AddCollectionFilteringAndSorting(fb, o.multiplicity.isMany, t);
      assert f == OperationField(mm, o, old(SubclassesOf(t)) != {});
      outcome := AddField(o.eContainingClass, f);
    }

    /** Second pass: an accepted operation becomes a field of its class, named
        by its `getterOf` detail when present, with one argument per parameter.
        A void operation without type parameters aborts the pass: its null
        return type is dereferenced. */
    method CaseEOperation(o: EOperation) returns (outcome: Outcome)
      requires Valid() && mm.OperationOk(o)
      modifies this`allSubclassReferences, this`fields, this`interfaceBuilders, this`objectBuilders
      ensures Valid()
      ensures mode == Contents && !o.hasTypeParameters && o.IsVoid() ==> outcome.Fail? && unchanged(this)
      ensures mode == MetaclassesOnly || o.hasTypeParameters || (!o.IsVoid() && !OperationAccepted(o)) ==>
        outcome.Pass? && unchanged(this)
      ensures mode == Contents && OperationAccepted(o) ==>
        var c, t := o.eContainingClass, o.eType.value;
        && allSubclassReferences == old(allSubclassReferences) + (if o.multiplicity.isMany then {t} else {})
        && (outcome.Fail? <==> c !in old(allMetaclasses))
        && (outcome.Pass? ==>
              c in old(fields) && fields == old(fields)[c := old(fields)[c] + [OperationField(mm, o, old(SubclassesOf(t)) != {})]])
    {
      if mode == MetaclassesOnly || o.hasTypeParameters {
        return Pass;
      }
      if o.IsVoid() {
        return Fail("NullPointerException: return type of " + o.name);
      }
      var t := o.eType.value;
      if !InModel(t) {
        return Pass;
      }
      var fieldName := if o.getterOf.Some? then o.getterOf.value else o.name;
      var qt := ReferenceClassifierType(mm.Name(t));
      var args := OperationArguments(o);
      if args.None? {
        return Pass;
      }
      outcome := AddOperationField(o, fieldName, qt, args.value);
    }

    /** `doSwitch`: dispatches one object of the content tree to its case. */
    method DoSwitch(eo: EObject) returns (outcome: Outcome)
      requires Valid() && mm.ObjectOk(eo)
      modifies this
      ensures Valid() && mode == old(mode)
      ensures allMetaclasses == old(allMetaclasses) + (if mode == MetaclassesOnly && RegistersClass(mm, eo) then {eo.id} else {})
      ensures outcome.Fail? ==> (IsFeature(eo) && Owner(eo) !in allMetaclasses) || (mode == Contents && VoidReturn(eo))
      ensures mode == Contents && VoidReturn(eo) ==> outcome.Fail?
      ensures outcome.Fail? && mode == MetaclassesOnly ==> eo.ReferenceObj?
    {
      outcome := Pass;
      match eo
      case PackageObj(p) =>
        CaseEPackage(p);
      case ClassifierObj(id) =>
        if mm.classifiers[id].EDataType? {
          CaseEDataType(id);
        } else if mm.classifiers[id].EEnum? {
          CaseEEnum(id);
        } else {
          var _ := CaseEClass(id);
        }
      case LiteralObj(l) =>
        CaseEEnumLiteral(l);
      case AttributeObj(a) =>
        outcome := CaseEAttribute(a);
      case ReferenceObj(r) =>
        outcome := CaseEReference(r);
      case OperationObj(o) =>
        outcome := CaseEOperation(o);
      case OtherObj =>
    }

    /** The interface type `addBuilds` builds for the abstract class `c`: its
        own fields, then those of its supertypes it has no field of that name for. */
    function FlatInterface(c: Id): InterfaceType
      reads this`fields
      requires c in fields
    {
      BuildInterface(InterfaceBuilder(mm.Name(c), Inherit(fields[c], mm.Supers(c), fields)))
    }

    /** The object type `addBuilds` builds for the concrete class `c`. */
    function FlatObject(c: Id): ObjectType
      reads this`fields
      requires c in fields
    {
      BuildObject(ObjectBuilder(mm.Name(c), AbstractNames(mm, mm.Supers(c)), Inherit(fields[c], mm.Supers(c), fields)))
    }

    /** A flattened type has every field name of its class and of each
        supertype, once; an own field is never replaced by an inherited one
        when the class's own names are distinct. */
    lemma FlatTypeFields(c: Id)
      requires c in fields
      ensures var fs := FlatInterface(c).Fields();
        && FlatObject(c).Fields() == fs
        && UniqueKeys(fs, FieldName)
        && (forall n :: n in Keys(fs, FieldName) <==>
              n in Keys(fields[c], FieldName) ||
              exists s :: s in mm.Supers(c) && s in fields && n in Keys(fields[s], FieldName))
        && (UniqueKeys(fields[c], FieldName) ==>
              (forall f :: f in fields[c] ==> f in fs) &&
              (forall i :: 0 <= i < |fs| && fs[i].name in Keys(fields[c], FieldName) ==> fs[i] in fields[c]))
    {
      BuiltFlattened(fields[c], mm.Supers(c), fields);
      var empty: seq<FieldDef> := [];
      assert Keys(empty, FieldName) == {};
    }

    /** `addSpecificFields(b, fs)` on the builder's field log: each field of
        `fs` is handed to the builder unless the builder has a field of that
        name. */
    static method AddSpecificFields(puts: seq<FieldDef>, fs: seq<FieldDef>) returns (r: seq<FieldDef>)
      ensures r == AddSpecific(puts, fs)
      ensures |puts| <= |r| && r[..|puts|] == puts
      ensures Keys(r, FieldName) == Keys(puts, FieldName) + Keys(fs, FieldName)
    {
      r := puts;
      var i := 0;
      while i < |fs|
        invariant 0 <= i <= |fs|
        invariant AddSpecific(r, fs[i..]) == AddSpecific(puts, fs)
      {
        assert fs[i..][1..] == fs[i + 1..];
        if fs[i].name !in Keys(r, FieldName) {
          r := r + [fs[i]];
        }
        i := i + 1;
      }
      AddSpecificKeeps(puts, fs);
    }

    /** The `addSpecificFields` calls `addBuilds` makes for class `c`: one per
        supertype, in `getEAllSuperTypes()` order, with the supertype's fields
        or none. */
    method InheritFields(c: Id, own: seq<FieldDef>) returns (puts: seq<FieldDef>)
      ensures puts == Inherit(own, mm.Supers(c), fields)
    {
      var supers := mm.Supers(c);
      puts := own;
      var i := 0;
      while i < |supers|
        invariant 0 <= i <= |supers|
        invariant Inherit(puts, supers[i..], fields) == Inherit(own, supers, fields)
      {
        assert supers[i..][1..] == supers[i + 1..];
        var fs := if supers[i] in fields then fields[supers[i]] else [];
        puts := AddSpecificFields(puts, fs);
        i := i + 1;
      }
    }

    /** An interface builder once `addBuilds` has added the inherited fields of `c`. */
    function FlatInterfaceBuilder(c: Id, b: InterfaceBuilder): InterfaceBuilder
      reads this`fields
    {
      b.(fieldPuts := Inherit(b.fieldPuts, mm.Supers(c), fields))
    }

    /** An object builder once `addBuilds` has added the inherited fields of `c`. */
    function FlatObjectBuilder(c: Id, b: ObjectBuilder): ObjectBuilder
      reads this`fields
    {
      b.(fieldPuts := Inherit(b.fieldPuts, mm.Supers(c), fields))
    }

    /** Completes every interface builder with its inherited fields, builds it
        and records the built type. */
    method FlattenInterfaces()
      modifies this`interfaceBuilders, this`interfaceTypes
      ensures forall c :: c in interfaceBuilders <==> c in old(interfaceBuilders)
      ensures forall c :: c in interfaceTypes <==> c in old(interfaceTypes) || c in interfaceBuilders
      ensures forall c :: c in interfaceBuilders ==>
        && interfaceBuilders[c] == FlatInterfaceBuilder(c, old(interfaceBuilders)[c])
        && interfaceTypes[c] == BuildInterface(interfaceBuilders[c])
      ensures forall c :: c in interfaceTypes && c !in interfaceBuilders ==> interfaceTypes[c] == old(interfaceTypes)[c]
    {
      var builders, types := interfaceBuilders, interfaceTypes;
      ghost var builders0, types0 := builders, types;
      var todo := builders.Keys;
      while todo != {}
        invariant forall c :: c in builders <==> c in builders0
        invariant forall c :: c in types <==> c in types0 || (c in builders0 && c !in todo)
        invariant forall c :: c in todo ==> c in builders0 && builders[c] == builders0[c]
        invariant forall c :: c in builders0 && c !in todo ==>
          && builders[c] == FlatInterfaceBuilder(c, builders0[c])
          && types[c] == BuildInterface(builders[c])
        invariant forall c :: c in types && c !in builders0 ==> types[c] == types0[c]
        decreases todo
      {
        var c :| c in todo;
        var b := builders[c];
        var puts := InheritFields(c, b.fieldPuts);
        b := b.(fieldPuts := puts);
        builders := builders[c := b];
        types := types[c := BuildInterface(b)];
        todo := todo - {c};
      }
      interfaceBuilders, interfaceTypes := builders, types;
    }

    /** Completes every object builder with its inherited fields, builds it
        and records the built type. */
    method FlattenObjects()
      modifies this`objectBuilders, this`objectTypes
      ensures forall c :: c in objectBuilders <==> c in old(objectBuilders)
      ensures forall c :: c in objectTypes <==> c in old(objectTypes) || c in objectBuilders
      ensures forall c :: c in objectBuilders ==>
        && objectBuilders[c] == FlatObjectBuilder(c, old(objectBuilders)[c])
        && objectTypes[c] == BuildObject(objectBuilders[c])
      ensures forall c :: c in objectTypes && c !in objectBuilders ==> objectTypes[c] == old(objectTypes)[c]
    {
      var builders, types := objectBuilders, objectTypes;
      ghost var builders0, types0 := builders, types;
      var todo := builders.Keys;
      while todo != {}
        invariant forall c :: c in builders <==> c in builders0
        invariant forall c :: c in types <==> c in types0 || (c in builders0 && c !in todo)
        invariant forall c :: c in todo ==> c in builders0 && builders[c] == builders0[c]
        invariant forall c :: c in builders0 && c !in todo ==>
          && builders[c] == FlatObjectBuilder(c, builders0[c])
          && types[c] == BuildObject(builders[c])
        invariant forall c :: c in types && c !in builders0 ==> types[c] == types0[c]
        decreases todo
      {
        var c :| c in todo;
        var b := builders[c];
        var puts := InheritFields(c, b.fieldPuts);
        b := b.(fieldPuts := puts);
        builders := builders[c := b];
        types := types[c := BuildObject(b)];
        todo := todo - {c};
      }
      objectBuilders, objectTypes := builders, types;
    }

    /** The registered classes that are candidate roots, in the set's iteration order. */
    method CandidateMetaclasses() returns (found: seq<Id>)
      ensures forall c :: c in found <==> c in Candidates(mm, allMetaclasses, containedMetaclasses)
    {
      found := [];
      var todo := allMetaclasses;
      while todo != {}
        invariant todo <= allMetaclasses
        invariant forall c :: c in found <==> c in allMetaclasses && c !in todo && IsCandidate(mm, containedMetaclasses, c)
        decreases todo
      {
        var c :| c in todo;
        if IsCandidate(mm, containedMetaclasses, c) {
          found := found + [c];
        }
        todo := todo - {c};
      }
    }

    /** Keeps, in order, the candidates that are concrete or have a concrete
        candidate subclass. */
    static method KeepRoots(mm: Metamodel, candidates: seq<Id>) returns (roots: seq<Id>)
      requires SortedBy(candidates, NameOf(mm))
      ensures SortedBy(roots, NameOf(mm))
      ensures forall c :: c in roots <==> c in RootsOf(mm, set d | d in candidates)
    {
      roots := [];
      ghost var cands := set d | d in candidates;
      ghost var at: seq<nat> := [];
      var i := 0;
      while i < |candidates|
        invariant 0 <= i <= |candidates|
        invariant |at| == |roots|
        invariant forall k :: 0 <= k < |roots| ==> at[k] < i && roots[k] == candidates[at[k]]
        invariant SortedBy(roots, NameOf(mm))
        invariant forall c :: c in roots <==> c in candidates[..i] && RootAmong(mm, cands, c)
      {
        var c := candidates[i];
        assert candidates[..i + 1] == candidates[..i] + [c];
        if !mm.IsAbstract(c) || exists d :: d in candidates && !mm.IsAbstract(d) && mm.IsSuper(c, d) {
          roots, at := roots + [c], at + [i];
        }
        i := i + 1;
      }
      assert candidates[..i] == candidates;
    }

    /** The root metaclasses: the candidates sorted by name, then those that are
        concrete or have a concrete candidate subclass, keeping that order. */
    method RootMetaclasses() returns (roots: seq<Id>)
      ensures SortedBy(roots, NameOf(mm))
      ensures forall c :: c in roots <==> c in RootsOf(mm, Candidates(mm, allMetaclasses, containedMetaclasses))
    {
      var found := CandidateMetaclasses();
      var candidates := Sort(found, NameOf(mm));
      forall c ensures c in candidates <==> c in found {
        assert c in multiset(candidates) <==> c in multiset(found);
      }
      assert (set d | d in candidates) == Candidates(mm, allMetaclasses, containedMetaclasses);
      roots := KeepRoots(mm, candidates);
    }

    /** The `all<Plural>` fields handed to the `Query` builder: one per root
        with a built type, interfaces first, each map in its own order. */
    method QueryFields(roots: seq<Id>) returns (puts: seq<FieldDef>)
      ensures forall f :: f in puts <==>
        exists c :: c in roots && (c in interfaceTypes || c in objectTypes) && f == QueryField(mm, c)
    {
      puts := [];
      var todo := interfaceTypes.Keys;
      while todo != {}
        invariant todo <= interfaceTypes.Keys
        invariant forall f :: f in puts <==>
          exists c :: c in roots && c in interfaceTypes && c !in todo && f == QueryField(mm, c)
        decreases todo
      {
        var c :| c in todo;
        if c in roots {
          puts := puts + [FieldDef("all" + Pluralize(mm.Name(c)), List(Ref(mm.Name(c))), [])];
        }
        todo := todo - {c};
      }
      todo := objectTypes.Keys;
      while todo != {}
        invariant todo <= objectTypes.Keys
        invariant forall f :: f in puts <==>
          exists c :: c in roots && (c in interfaceTypes || (c in objectTypes && c !in todo)) && f == QueryField(mm, c)
        decreases todo
      {
        var c :| c in todo;
        if c in roots {
          puts := puts + [FieldDef("all" + Pluralize(mm.Name(c)), List(Ref(mm.Name(c))), [])];
        }
        todo := todo - {c};
      }
    }

    /** The names of the classes `cs`, in the set's iteration order. */
    method NamesOf(cs: set<Id>) returns (ns: seq<string>)
      ensures forall n :: n in ns <==> n in ClassNames(mm, cs)
    {
      ns := [];
      var todo := cs;
      while todo != {}
        invariant todo <= cs
        invariant forall n :: n in ns <==> exists c :: c in cs && c !in todo && mm.Name(c) == n
        decreases todo
      {
        var c :| c in todo;
        ns := ns + [mm.Name(c)];
        todo := todo - {c};
      }
    }

    /** The `AllSubtypesOf<c>` enum: the names of `c`'s subclasses and `c`'s
        own name, each once, in `CASE_INSENSITIVE_ORDER`, each valued by itself. */
    ghost predicate SubtypesEnum(c: Id, e: EnumType)
      reads this`allSubclassesMap
    {
      && e.name == InputNameOfAllSubtypesOf(mm.Name(c))
      && UniqueKeys(e.Values(), ValueName)
      && Keys(e.Values(), ValueName) == ClassNames(mm, SubclassesOf(c)) + {mm.Name(c)}
      && ValuesSortedBy(e.Values(), FoldCase)
      && (forall v :: v in e.Values() ==> v.value == v.name)
    }

    /** The enum for a referenced class with subclasses. */
    method SubtypesEnumOf(c: Id) returns (e: EnumType)
      ensures SubtypesEnum(c, e)
    {
      var subclasses := NamesOf(SubclassesOf(c));
      var names := subclasses + [mm.Name(c)];
      SortedNamesEnum(InputNameOfAllSubtypesOf(mm.Name(c)), names, Sort(names, FoldCase), FoldCase);
      var expected := ClassNames(mm, SubclassesOf(c)) + {mm.Name(c)};
      forall n ensures n in names <==> n in expected {
        assert n in names <==> n in subclasses || n == mm.Name(c);
      }
      assert (set n | n in names) == expected;
      e := NamesEnum(InputNameOfAllSubtypesOf(mm.Name(c)), Sort(names, FoldCase));
    }

    /** The types made for the classes referenced by a many-valued element:
        a paginated-collection wrapper for each, and an `AllSubtypesOf` enum
        for each that has subclasses. */
    method CollectionTypes() returns (wrappers: map<Id, ObjectType>, enums: map<Id, EnumType>)
      ensures forall c :: c in wrappers <==> c in allSubclassReferences
      ensures forall c :: c in wrappers ==> wrappers[c] == CollectionWrapper(mm.Name(c))
      ensures forall c :: c in enums <==> c in allSubclassReferences && SubclassesOf(c) != {}
      ensures forall c :: c in enums ==> SubtypesEnum(c, enums[c])
    {
      wrappers, enums := map[], map[];
      var todo := allSubclassReferences;
      while todo != {}
        invariant todo <= allSubclassReferences
        invariant forall c :: c in wrappers <==> c in allSubclassReferences && c !in todo
        invariant forall c :: c in wrappers ==> wrappers[c] == CollectionWrapper(mm.Name(c))
        invariant forall c :: c in enums <==> c in allSubclassReferences && c !in todo && SubclassesOf(c) != {}
        invariant forall c :: c in enums ==> SubtypesEnum(c, enums[c])
        decreases todo
      {
        var c :| c in todo;
        if SubclassesOf(c) != {} {
          var e := SubtypesEnumOf(c);
          enums := enums[c := e];
        }
        var fs := [FieldDef("collection", NonNull(List(Ref(mm.Name(c)))), []),
                   FieldDef("pageInfo", NonNull(Ref("PageInfo")), [])];
        wrappers := wrappers[c := ObjectType(PaginatedCollectionOf(mm.Name(c)), [], fs)];
        todo := todo - {c};
      }
    }

    /** What `collectIdentifiersOf(c)` returns: `c`'s own identifiers, then
        those of each supertype that has an identifier list. */
    function CollectedIdentifiers(c: Id): seq<FieldDef>
      reads this`identifiers
      requires c in identifiers
    {
      identifiers[c] + SuperIdentifiers(identifiers, mm.Supers(c))
    }

    method CollectIdentifiersOf(c: Id) returns (ids: seq<FieldDef>)
      requires c in identifiers
      ensures ids == CollectedIdentifiers(c)
      ensures |identifiers[c]| <= |ids| && ids[..|identifiers[c]|] == identifiers[c]
      ensures forall f :: f in ids <==>
        f in identifiers[c] || exists s :: s in mm.Supers(c) && s in identifiers && f in identifiers[s]
    {
      var supers := mm.Supers(c);
      ids := identifiers[c];
      var i := 0;
      while i < |supers|
        invariant 0 <= i <= |supers|
        invariant ids == identifiers[c] + SuperIdentifiers(identifiers, supers[..i])
      {
        assert supers[..i + 1][..i] == supers[..i];
        if supers[i] in identifiers {
          ids := ids + identifiers[supers[i]];
        }
        i := i + 1;
      }
      assert supers[..i] == supers;
      forall f ensures f in ids <==>
        f in identifiers[c] || exists s :: s in supers && s in identifiers && f in identifiers[s]
      {
        SuperIdentifiersMeaning(identifiers, supers, f);
      }
    }

    /** A triple `addBuilds` records: a class with a non-empty containment
        list, one of its collected identifiers, and that very list. */
    ghost predicate IsMutationTriple(t: MetaclassIdentifier2Containment)
      reads this`containments, this`identifiers
    {
      && t.metaclass in containments && containments[t.metaclass] != []
      && t.containment == containments[t.metaclass]
      && t.metaclass in identifiers && t.identifier in CollectedIdentifiers(t.metaclass)
    }

    /** Records one triple per class with containments and per collected identifier. */
    method CollectMutations()
      requires forall c :: c in containments ==> c in identifiers
      modifies this`mutations
      ensures forall t :: t in mutations <==> t in old(mutations) || IsMutationTriple(t)
    {
      var triples := mutations;
      ghost var triples0 := triples;
      var todo := containments.Keys;
      while todo != {}
        invariant todo <= containments.Keys
        invariant forall t :: t in triples <==> t in triples0 || (IsMutationTriple(t) && t.metaclass !in todo)
        decreases todo
      {
        var mc :| mc in todo;
        var cs := containments[mc];
        if cs != [] {
          var ids := CollectIdentifiersOf(mc);
          var i := 0;
          while i < |ids|
            invariant 0 <= i <= |ids|
            invariant forall t :: t in triples <==>
              || t in triples0
              || (IsMutationTriple(t) && t.metaclass !in todo)
              || (t.metaclass == mc && t.containment == cs && t.identifier in ids[..i])
          {
            assert ids[..i + 1] == ids[..i] + [ids[i]];
            triples := triples + {MetaclassIdentifier2Containment(mc, ids[i], cs)};
            i := i + 1;
          }
          assert ids[..i] == ids;
        }
        todo := todo - {mc};
      }
      mutations := triples;
    }

    /** The concrete registered classes below `ct`. */
    function ConcreteSubclasses(ct: Id): set<Id>
      reads this`allSubclassesMap
    {
      set c | c in SubclassesOf(ct) && !mm.IsAbstract(c)
    }

    /** The concrete subclasses of `ct`, sorted by name. */
    method ConcreteContained(ct: Id) returns (cs: seq<Id>)
      ensures SortedBy(cs, NameOf(mm))
      ensures forall c :: c in cs <==> c in ConcreteSubclasses(ct)
    {
      var found: seq<Id> := [];
      var todo := SubclassesOf(ct);
      while todo != {}
        invariant todo <= SubclassesOf(ct)
        invariant forall c :: c in found <==> c in ConcreteSubclasses(ct) && c !in todo
        decreases todo
      {
        var c :| c in todo;
        if !mm.IsAbstract(c) {
          found := found + [c];
        }
        todo := todo - {c};
      }
      cs := Sort(found, NameOf(mm));
      forall c ensures c in cs <==> c in found {
        assert c in multiset(cs) <==> c in multiset(found);
      }
    }

    /** The `AllConcreteSubtypesOf<ct>` enum: the names of `ct`'s concrete
        subclasses, each once, in name order, each valued by itself. */
    ghost predicate ConcreteSubtypesEnum(ct: Id, e: EnumType)
      reads this`allSubclassesMap
    {
      && e.name == AllConcreteSubtypesOf(mm.Name(ct))
      && UniqueKeys(e.Values(), ValueName)
      && Keys(e.Values(), ValueName) == ClassNames(mm, ConcreteSubclasses(ct))
      && ValuesSortedBy(e.Values(), Self)
      && (forall v :: v in e.Values() ==> v.value == v.name)
    }

    /** The enum built from the sorted concrete subclasses of `ct`. */
    method ConcreteSubtypesEnumOf(ct: Id, cs: seq<Id>) returns (e: EnumType)
      requires SortedBy(cs, NameOf(mm))
      requires forall c :: c in cs <==> c in ConcreteSubclasses(ct)
      ensures ConcreteSubtypesEnum(ct, e)
    {
      var names := Names(mm, cs);
      SortedNames(mm, cs, ConcreteSubclasses(ct));
      SortedNamesEnum(AllConcreteSubtypesOf(mm.Name(ct)), names, names, Self);
      e := NamesEnum(AllConcreteSubtypesOf(mm.Name(ct)), names);
    }

    /** Some recorded triple has a containment reference to `ct`. */
    ghost predicate ContainedTarget(ts: set<MetaclassIdentifier2Containment>, ct: Id)
    {
      exists t :: t in ts && ct in Targets(t.containment)
    }

    /** The concrete-subtype lists of every class a recorded containment
        reference points to. */
    method ConcreteContainedMetaclasses() returns (concrete: map<Id, seq<Id>>)
      ensures forall ct :: ct in concrete <==> ContainedTarget(mutations, ct)
      ensures forall ct :: ct in concrete ==>
        SortedBy(concrete[ct], NameOf(mm)) && forall c :: c in concrete[ct] <==> c in ConcreteSubclasses(ct)
    {
      concrete := map[];
      var todo := mutations;
      while todo != {}
        invariant todo <= mutations
        invariant forall ct :: ct in concrete <==> ContainedTarget(mutations - todo, ct)
        invariant forall ct :: ct in concrete ==>
          SortedBy(concrete[ct], NameOf(mm)) && forall c :: c in concrete[ct] <==> c in ConcreteSubclasses(ct)
        decreases todo
      {
        var t :| t in todo;
        var j := 0;
        while j < |t.containment|
          invariant 0 <= j <= |t.containment|
          invariant forall ct :: ct in concrete <==>
            ContainedTarget(mutations - todo, ct) || ct in Targets(t.containment[..j])
          invariant forall ct :: ct in concrete ==>
            SortedBy(concrete[ct], NameOf(mm)) && forall c :: c in concrete[ct] <==> c in ConcreteSubclasses(ct)
        {
          assert t.containment[..j + 1] == t.containment[..j] + [t.containment[j]];
          var ct := t.containment[j].eReferenceType;
          var cs := ConcreteContained(ct);
          concrete := concrete[ct := cs];
          j := j + 1;
        }
        assert t.containment[..j] == t.containment;
        forall ct ensures ContainedTarget(mutations - (todo - {t}), ct) <==>
          ContainedTarget(mutations - todo, ct) || ct in Targets(t.containment)
        {
          if ContainedTarget(mutations - (todo - {t}), ct) {
            var u :| u in mutations - (todo - {t}) && ct in Targets(u.containment);
            if u != t {
              assert u in mutations - todo;
            }
          }
        }
        todo := todo - {t};
      }
    }

    /** The `AllConcreteSubtypesOf` enums, one per class a recorded
        containment reference points to. */
    method ConcreteSubtypeEnums() returns (enums: map<Id, EnumType>)
      ensures forall ct :: ct in enums <==> ContainedTarget(mutations, ct)
      ensures forall ct :: ct in enums ==> ConcreteSubtypesEnum(ct, enums[ct])
    {
      var concrete := ConcreteContainedMetaclasses();
      enums := map[];
      var todo := concrete.Keys;
      while todo != {}
        invariant todo <= concrete.Keys
        invariant forall ct :: ct in enums <==> ct in concrete && ct !in todo
        invariant forall ct :: ct in enums ==> ConcreteSubtypesEnum(ct, enums[ct])
        decreases todo
      {
        var ct :| ct in todo;
        var e := ConcreteSubtypesEnumOf(ct, concrete[ct]);
        enums := enums[ct := e];
        todo := todo - {ct};
      }
    }

    /** The fields handed to the `Mutation` builder, one per recorded triple
        and containment reference; fails like `substring(0, 1)` when a triple
        with containments has an identifier with an empty name. */
    method MutationFields() returns (r: Result<seq<FieldDef>>)
      ensures r.Failure? <==> exists t :: t in mutations && t.containment != [] && t.identifier.name == ""
      ensures r.Failure? ==> r.error == "begin 0, end 1, length 0"
      ensures r.Success? ==> forall f :: f in r.value <==>
        exists t, c :: t in mutations && c in t.containment && MutationField(mm, t, c) == Some(f)
    {
      var puts: seq<FieldDef> := [];
      var todo := mutations;
      while todo != {}
        invariant todo <= mutations
        invariant forall t :: t in mutations - todo && t.containment != [] ==> t.identifier.name != ""
        invariant forall f :: f in puts <==>
          exists t, c :: t in mutations - todo && c in t.containment && MutationField(mm, t, c) == Some(f)
        decreases todo
      {
        var t :| t in todo;
        var j := 0;
        while j < |t.containment|
          invariant 0 <= j <= |t.containment|
          invariant j > 0 ==> t.identifier.name != ""
          invariant forall f :: f in puts <==>
            || (exists u, c :: u in mutations - todo && c in u.containment && MutationField(mm, u, c) == Some(f))
            || (exists c :: c in t.containment[..j] && MutationField(mm, t, c) == Some(f))
        {
          var c := t.containment[j];
          var field := MutationField(mm, t, c);
          if field.None? {
            MutationFieldShape(mm, t, c);
            return Failure("begin 0, end 1, length 0");
          }
          assert t.containment[..j + 1] == t.containment[..j] + [c];
          puts := puts + [field.value];
          j := j + 1;
        }
        assert t.containment[..j] == t.containment;
        todo := todo - {t};
      }
      return Success(puts);
    }

    /** The root metaclasses of the registered classes, as a set. */
    ghost function RootSet(): set<Id>
      reads this`allMetaclasses, this`containedMetaclasses
    {
      RootsOf(mm, Candidates(mm, allMetaclasses, containedMetaclasses))
    }

    /** After `addBuilds` has flattened the builders: one interface type per
        abstract registered class, built from the class's fields followed by
        the inherited ones. */
    ghost predicate InterfacesBuilt()
      reads this`interfaceTypes, this`allMetaclasses, this`fields
    {
      forall c ::
        && (c in interfaceTypes <==> c in allMetaclasses && mm.IsAbstract(c))
        && (c in interfaceTypes ==> c in fields && interfaceTypes[c] == FlatInterface(c))
    }

    /** Likewise one object type per concrete registered class. */
    ghost predicate ObjectsBuilt()
      reads this`objectTypes, this`allMetaclasses, this`fields
    {
      forall c ::
        && (c in objectTypes <==> c in allMetaclasses && !mm.IsAbstract(c))
        && (c in objectTypes ==> c in fields && objectTypes[c] == FlatObject(c))
    }

    ghost predicate TypesBuilt()
      reads this`interfaceTypes, this`objectTypes, this`allMetaclasses, this`fields
    {
      InterfacesBuilt() && ObjectsBuilt()
    }

    /** The first flattening loop of `addBuilds`, from the builders the first pass made. */
    method BuildInterfaceTypes()
      requires forall c :: c in interfaceBuilders <==> c in allMetaclasses && mm.IsAbstract(c)
      requires forall c :: c in interfaceBuilders ==>
        c in fields && interfaceBuilders[c] == InterfaceBuilder(mm.Name(c), fields[c])
      requires interfaceTypes == map[]
      modifies this`interfaceBuilders, this`interfaceTypes
      ensures InterfacesBuilt()
      ensures forall c :: c in interfaceBuilders <==> c in old(interfaceBuilders)
      ensures forall c :: c in interfaceBuilders ==> c in interfaceTypes && interfaceTypes[c] == BuildInterface(interfaceBuilders[c])
    {
      FlattenInterfaces();
    }

    /** The second flattening loop of `addBuilds`. */
    method BuildObjectTypes()
      requires forall c :: c in objectBuilders <==> c in allMetaclasses && !mm.IsAbstract(c)
      requires forall c :: c in objectBuilders ==>
        c in fields && objectBuilders[c] == ObjectBuilder(mm.Name(c), AbstractNames(mm, mm.Supers(c)), fields[c])
      requires objectTypes == map[]
      modifies this`objectBuilders, this`objectTypes
      ensures ObjectsBuilt()
      ensures forall c :: c in objectBuilders <==> c in old(objectBuilders)
      ensures forall c :: c in objectBuilders ==> c in objectTypes && objectTypes[c] == BuildObject(objectBuilders[c])
    {
      FlattenObjects();
    }

    /** The two flattening loops of `addBuilds`: every builder gets its
        inherited fields and is built. */
    method BuildTypes()
      requires Valid()
      modifies this`interfaceBuilders, this`objectBuilders, this`interfaceTypes, this`objectTypes
      ensures TypesBuilt()
      ensures forall c :: c in interfaceBuilders <==> c in old(interfaceBuilders)
      ensures forall c :: c in objectBuilders <==> c in old(objectBuilders)
      ensures forall c :: c in interfaceBuilders ==> c in interfaceTypes && interfaceTypes[c] == BuildInterface(interfaceBuilders[c])
      ensures forall c :: c in objectBuilders ==> c in objectTypes && objectTypes[c] == BuildObject(objectBuilders[c])
    {
      forall c ensures
        && (c in interfaceBuilders <==> c in allMetaclasses && mm.IsAbstract(c))
        && (c in interfaceBuilders ==> c in fields && interfaceBuilders[c] == InterfaceBuilder(mm.Name(c), fields[c]))
        && (c in objectBuilders <==> c in allMetaclasses && !mm.IsAbstract(c))
        && (c in objectBuilders ==>
              c in fields && objectBuilders[c] == ObjectBuilder(mm.Name(c), AbstractNames(mm, mm.Supers(c)), fields[c]))
      {
        assert ClassState(c);
      }
      BuildInterfaceTypes();
      BuildObjectTypes();
    }

    /** The `Query` type: the root metaclasses, then one `all<Plural>` field
        per root that has a built type. */
    method QueryType() returns (q: ObjectType)
      requires TypesBuilt()
      ensures IsQueryType(mm, RootSet(), q)
    {
      var roots := RootMetaclasses();
      var puts := QueryFields(roots);
      forall f ensures f in puts <==> exists c :: c in RootSet() && f == QueryField(mm, c) {
        if exists c :: c in RootSet() && f == QueryField(mm, c) {
          var c :| c in RootSet() && f == QueryField(mm, c);
          assert c in allMetaclasses;
          assert c in interfaceTypes || c in objectTypes;
        }
      }
      QueryTypeShape(mm, RootSet(), puts);
      q := BuildObject(ObjectBuilder("Query", [], puts));
    }

    /** The `Mutation` type built from the recorded triples, or the exception
        of the first identifier with an empty name. */
    method MutationObject() returns (r: Result<ObjectType>)
      ensures r.Failure? <==> exists t :: t in mutations && t.containment != [] && t.identifier.name == ""
      ensures r.Failure? ==> r.error == "begin 0, end 1, length 0"
      ensures r.Success? ==> IsMutationType(mm, mutations, r.value)
    {
      var puts := MutationFields();
      if puts.Failure? {
        return Failure(puts.error);
      }
      MutationTypeShape(mm, mutations, puts.value);
      r := Success(BuildObject(ObjectBuilder("Mutation", [], puts.value)));
    }

    /** Each type `addBuilds` hands to `additionalType`: a scalar, a built
        enum, a flattened class type, `PageInfo`, a collection wrapper, an
        `AllSubtypesOf` enum or an `AllConcreteSubtypesOf` enum. */
    ghost predicate AdditionalType(ty: NamedType)
      reads this`scalarBuilders, this`enumBuilders, this`interfaceTypes, this`objectTypes,
            this`allSubclassReferences, this`allSubclassesMap, this`mutations
    {
      match ty
      case ScalarDef(st) => exists dt :: dt in scalarBuilders && scalarBuilders[dt] == st
      case EnumDef(e) =>
        || (exists x :: x in enumBuilders && e == BuildEnum(enumBuilders[x]))
        || (exists c :: c in allSubclassReferences && SubclassesOf(c) != {} && e.name == InputNameOfAllSubtypesOf(mm.Name(c)))
        || (exists ct :: ContainedTarget(mutations, ct) && e.name == AllConcreteSubtypesOf(mm.Name(ct)))
      case InterfaceDef(it) => exists c :: c in interfaceTypes && interfaceTypes[c] == it
      case ObjectDef(ot) =>
        || ot == PageInfoType
        || (exists c :: c in objectTypes && objectTypes[c] == ot)
        || (exists c :: c in allSubclassReferences && ot == CollectionWrapper(mm.Name(c)))
    }

    /** `types` holds only additional types, and all of them. */
    ghost predicate AllAdditionalTypes(types: set<NamedType>)
      reads this`scalarBuilders, this`enumBuilders, this`interfaceTypes, this`objectTypes,
            this`allSubclassReferences, this`allSubclassesMap, this`mutations
    {
      && (forall ty :: ty in types ==> AdditionalType(ty))
      && (forall dt :: dt in scalarBuilders ==> ScalarDef(scalarBuilders[dt]) in types)
      && (forall x :: x in enumBuilders ==> EnumDef(BuildEnum(enumBuilders[x])) in types)
      && (forall c :: c in interfaceTypes ==> InterfaceDef(interfaceTypes[c]) in types)
      && (forall c :: c in objectTypes ==> ObjectDef(objectTypes[c]) in types)
      && ObjectDef(PageInfoType) in types
      && (forall c :: c in allSubclassReferences ==> ObjectDef(CollectionWrapper(mm.Name(c))) in types)
      && (forall c :: c in allSubclassReferences && SubclassesOf(c) != {} ==>
            exists e :: EnumDef(e) in types && SubtypesEnum(c, e))
      && (forall ct :: ContainedTarget(mutations, ct) ==>
            exists e :: EnumDef(e) in types && ConcreteSubtypesEnum(ct, e))
    }

    /** `builder.additionalType` for each of `more`. */
    method AddAdditional(types: set<NamedType>, more: set<NamedType>) returns (r: set<NamedType>)
      requires forall ty :: ty in types ==> AdditionalType(ty)
      requires forall ty :: ty in more ==> AdditionalType(ty)
      ensures types <= r && more <= r
      ensures forall ty :: ty in r ==> AdditionalType(ty)
    {
      r := types + more;
    }

    /** The scalars, the built enums, the flattened class types and `PageInfo`. */
    method ClassTypes() returns (types: set<NamedType>)
      ensures forall ty :: ty in types ==> AdditionalType(ty)
      ensures forall dt :: dt in scalarBuilders ==> ScalarDef(scalarBuilders[dt]) in types
      ensures forall x :: x in enumBuilders ==> EnumDef(BuildEnum(enumBuilders[x])) in types
      ensures forall c :: c in interfaceTypes ==> InterfaceDef(interfaceTypes[c]) in types
      ensures forall c :: c in objectTypes ==> ObjectDef(objectTypes[c]) in types
      ensures ObjectDef(PageInfoType) in types
    {
      var scalars := set dt | dt in scalarBuilders :: ScalarDef(scalarBuilders[dt]);
      forall ty | ty in scalars ensures AdditionalType(ty) {
        var dt :| dt in scalarBuilders && ty == ScalarDef(scalarBuilders[dt]);
      }
      var builtEnums := set x | x in enumBuilders :: EnumDef(BuildEnum(enumBuilders[x]));
      forall ty | ty in builtEnums ensures AdditionalType(ty) {
        var x :| x in enumBuilders && ty == EnumDef(BuildEnum(enumBuilders[x]));
      }
      var interfaces := set c | c in interfaceTypes :: InterfaceDef(interfaceTypes[c]);
      forall ty | ty in interfaces ensures AdditionalType(ty) {
        var c :| c in interfaceTypes && ty == InterfaceDef(interfaceTypes[c]);
      }
      var objects := set c | c in objectTypes :: ObjectDef(objectTypes[c]);
      forall ty | ty in objects ensures AdditionalType(ty) {
        var c :| c in objectTypes && ty == ObjectDef(objectTypes[c]);
      }
      assert AdditionalType(ObjectDef(PageInfoType));
      types := AddAdditional(scalars, builtEnums);
      types := AddAdditional(types, interfaces);
      types := AddAdditional(types, objects);
      types := AddAdditional(types, {ObjectDef(PageInfoType)});
    }

    /** The `AllSubtypesOf` enums. */
    method SubtypeEnumTypes(subtypeEnums: map<Id, EnumType>) returns (types: set<NamedType>)
      requires forall c :: c in subtypeEnums <==> c in allSubclassReferences && SubclassesOf(c) != {}
      requires forall c :: c in subtypeEnums ==> SubtypesEnum(c, subtypeEnums[c])
      ensures forall ty :: ty in types ==> AdditionalType(ty)
      ensures forall c :: c in allSubclassReferences && SubclassesOf(c) != {} ==>
        exists e :: EnumDef(e) in types && SubtypesEnum(c, e)
    {
      types := set c | c in subtypeEnums :: EnumDef(subtypeEnums[c]);
      forall ty | ty in types ensures AdditionalType(ty) {
        var c :| c in subtypeEnums && ty == EnumDef(subtypeEnums[c]);
      }
      forall c | c in allSubclassReferences && SubclassesOf(c) != {}
        ensures exists e :: EnumDef(e) in types && SubtypesEnum(c, e)
      {
        assert EnumDef(subtypeEnums[c]) in types;
      }
    }

    /** The paginated-collection wrappers. */
    method WrapperTypes(wrappers: map<Id, ObjectType>) returns (types: set<NamedType>)
      requires forall c :: c in wrappers <==> c in allSubclassReferences
      requires forall c :: c in wrappers ==> wrappers[c] == CollectionWrapper(mm.Name(c))
      ensures forall ty :: ty in types ==> AdditionalType(ty)
      ensures forall c :: c in allSubclassReferences ==> ObjectDef(CollectionWrapper(mm.Name(c))) in types
    {
      types := set c | c in wrappers :: ObjectDef(wrappers[c]);
      forall ty | ty in types ensures AdditionalType(ty) {
        var c :| c in wrappers && ty == ObjectDef(wrappers[c]);
      }
      forall c | c in allSubclassReferences ensures ObjectDef(CollectionWrapper(mm.Name(c))) in types {
        assert ObjectDef(wrappers[c]) in types;
      }
    }

    /** The `AllConcreteSubtypesOf` enums. */
    method ConcreteEnumTypes(concreteEnums: map<Id, EnumType>) returns (types: set<NamedType>)
      requires forall ct :: ct in concreteEnums <==> ContainedTarget(mutations, ct)
      requires forall ct :: ct in concreteEnums ==> ConcreteSubtypesEnum(ct, concreteEnums[ct])
      ensures forall ty :: ty in types ==> AdditionalType(ty)
      ensures forall ct :: ContainedTarget(mutations, ct) ==>
        exists e :: EnumDef(e) in types && ConcreteSubtypesEnum(ct, e)
    {
      types := set ct | ct in concreteEnums :: EnumDef(concreteEnums[ct]);
      forall ty | ty in types ensures AdditionalType(ty) {
        var ct :| ct in concreteEnums && ty == EnumDef(concreteEnums[ct]);
      }
      forall ct | ContainedTarget(mutations, ct)
        ensures exists e :: EnumDef(e) in types && ConcreteSubtypesEnum(ct, e)
      {
        assert EnumDef(concreteEnums[ct]) in types;
      }
    }

    /** The four groups of additional types together are all of them. */
    lemma AdditionalUnion(classTypes: set<NamedType>, subtypes: set<NamedType>,
                          collections: set<NamedType>, concretes: set<NamedType>)
      requires forall ty :: ty in classTypes ==> AdditionalType(ty)
      requires forall ty :: ty in subtypes ==> AdditionalType(ty)
      requires forall ty :: ty in collections ==> AdditionalType(ty)
      requires forall ty :: ty in concretes ==> AdditionalType(ty)
      requires forall dt :: dt in scalarBuilders ==> ScalarDef(scalarBuilders[dt]) in classTypes
      requires forall x :: x in enumBuilders ==> EnumDef(BuildEnum(enumBuilders[x])) in classTypes
      requires forall c :: c in interfaceTypes ==> InterfaceDef(interfaceTypes[c]) in classTypes
      requires forall c :: c in objectTypes ==> ObjectDef(objectTypes[c]) in classTypes
      requires ObjectDef(PageInfoType) in classTypes
      requires forall c :: c in allSubclassReferences && SubclassesOf(c) != {} ==>
        exists e :: EnumDef(e) in subtypes && SubtypesEnum(c, e)
      requires forall c :: c in allSubclassReferences ==> ObjectDef(CollectionWrapper(mm.Name(c))) in collections
      requires forall ct :: ContainedTarget(mutations, ct) ==>
        exists e :: EnumDef(e) in concretes && ConcreteSubtypesEnum(ct, e)
      ensures AllAdditionalTypes(classTypes + subtypes + collections + concretes)
    {
    }

    /** The `additionalType` calls of `addBuilds`, collected. */
    method AdditionalTypes(wrappers: map<Id, ObjectType>, subtypeEnums: map<Id, EnumType>,
                           concreteEnums: map<Id, EnumType>) returns (types: set<NamedType>)
      requires forall c :: c in wrappers <==> c in allSubclassReferences
      requires forall c :: c in wrappers ==> wrappers[c] == CollectionWrapper(mm.Name(c))
      requires forall c :: c in subtypeEnums <==> c in allSubclassReferences && SubclassesOf(c) != {}
      requires forall c :: c in subtypeEnums ==> SubtypesEnum(c, subtypeEnums[c])
      requires forall ct :: ct in concreteEnums <==> ContainedTarget(mutations, ct)
      requires forall ct :: ct in concreteEnums ==> ConcreteSubtypesEnum(ct, concreteEnums[ct])
      ensures AllAdditionalTypes(types)
    {
      var classTypes := ClassTypes();
      var subtypes := SubtypeEnumTypes(subtypeEnums);
      var collections := WrapperTypes(wrappers);
      var concretes := ConcreteEnumTypes(concreteEnums);
      types := classTypes + subtypes + collections + concretes;
      AdditionalUnion(classTypes, subtypes, collections, concretes);
    }

    /** The part of `addBuilds` after the `Query` root: the collection types,
        the triples, the concrete-subtype enums and the `Mutation` root. */
    method TypesAndMutation() returns (r: Result<(set<NamedType>, ObjectType)>)
      requires forall c :: c in containments ==> c in identifiers
      requires mutations == {}
      modifies this`mutations
      ensures forall t :: t in mutations <==> IsMutationTriple(t)
      ensures r.Failure? <==> exists t :: t in mutations && t.containment != [] && t.identifier.name == ""
      ensures r.Failure? ==> r.error == "begin 0, end 1, length 0"
      ensures r.Success? ==> AllAdditionalTypes(r.value.0) && IsMutationType(mm, mutations, r.value.1)
    {
      var wrappers, subtypeEnums := CollectionTypes();
      CollectMutations();
      var concreteEnums := ConcreteSubtypeEnums();
      var types := AdditionalTypes(wrappers, subtypeEnums, concreteEnums);
      var mutation := MutationObject();
      if mutation.Failure? {
        return Failure(mutation.error);
      }
      r := Success((types, mutation.value));
    }

    /** What `addBuilds` does once the class types are built. */
    method AssembleSchema() returns (r: Result<Schema>)
      requires TypesBuilt()
      requires forall c :: c in containments ==> c in identifiers
      requires mutations == {}
      modifies this`mutations
      ensures forall t :: t in mutations <==> IsMutationTriple(t)
      ensures r.Failure? <==> exists t :: t in mutations && t.containment != [] && t.identifier.name == ""
      ensures r.Failure? ==> r.error == "begin 0, end 1, length 0"
      ensures r.Success? ==>
        && AllAdditionalTypes(r.value.additionalTypes)
        && IsQueryType(mm, RootSet(), r.value.query)
        && IsMutationType(mm, mutations, r.value.mutation)
    {
      var query := QueryType();
      var rest := TypesAndMutation();
      if rest.Failure? {
        return Failure(rest.error);
      }
      r := Success(Schema(rest.value.0, query, rest.value.1));
    }

    /** `addBuilds`: flattens and builds the class types, then assembles the
        additional types, the `Query` root and the `Mutation` root; a triple
        whose identifier has an empty name aborts it. */
    method AddBuilds() returns (r: Result<Schema>)
      requires Valid()
      modifies this`interfaceBuilders, this`objectBuilders, this`interfaceTypes, this`objectTypes, this`mutations
      ensures TypesBuilt()
      ensures forall t :: t in mutations <==> IsMutationTriple(t)
      ensures r.Failure? <==> exists t :: t in mutations && t.identifier.name == ""
      ensures r.Failure? ==> r.error == "begin 0, end 1, length 0"
      ensures r.Success? ==>
        && AllAdditionalTypes(r.value.additionalTypes)
        && IsQueryType(mm, RootSet(), r.value.query)
        && IsMutationType(mm, mutations, r.value.mutation)
    {
      forall c | c in containments ensures c in identifiers {
        assert ClassState(c);
      }
      BuildTypes();
      r := AssembleSchema();
      assert forall t :: t in mutations ==> t.containment != [];
    }
  }
}
