/** How one metamodel element becomes one GraphQL field: the classifier-to-type
    switch, the multiplicity wrapper, and the pagination arguments of a
    many-valued field. */
module Mapping {
  import opened Wrappers
  import opened Ecore
  import opened GraphQL
  import opened Naming

  /** The classifier names that map to built-in scalars. */
  const BuiltinNames: set<string> := {"EString", "EBoolean", "UnsignedInteger", "EInt", "EDouble"}

  /** `referenceClassifierOutputType` and `referenceClassifierInputType`
      (identical switches on the classifier's name). */
  function ReferenceClassifierType(n: string): (t: QType)
    ensures t.IsNamed()
    ensures t.Builtin? <==> n in BuiltinNames
    ensures t.Ref? ==> t.name == n
    ensures t == Builtin(GraphQLString) <==> n == "EString"
    ensures t == Builtin(GraphQLBoolean) <==> n == "EBoolean"
    ensures t == Builtin(GraphQLInt) <==> n == "EInt" || n == "UnsignedInteger"
    ensures t == Builtin(GraphQLFloat) <==> n == "EDouble"
  {
    match n
    case "EString" => Builtin(GraphQLString)
    case "EBoolean" => Builtin(GraphQLBoolean)
    case "UnsignedInteger" => Builtin(GraphQLInt)
    case "EInt" => Builtin(GraphQLInt)
    case "EDouble" => Builtin(GraphQLFloat)
    case _ => Ref(n)
  }

  /** `updateMultiplicity` (and the same rule for operation parameters):
      at most one wrapper, chosen by the multiplicity. */
  function UpdateMultiplicity(m: Multiplicity, qt: QType): (t: QType)
    ensures t == List(qt) || t == NonNull(qt) || t == qt
    ensures t == List(qt) <==> m.isMany
    ensures t == NonNull(qt) <==> !m.isMany && (m.isUnique || m.upperBound == 1)
  {
    if m.isMany then List(qt)
    else if m.isUnique || m.upperBound == 1 then NonNull(qt)
    else
      assert List(qt).Depth() != qt.Depth() && NonNull(qt).Depth() != qt.Depth();
      qt
  }

  /** The arguments `addCollectionFilteringAndSorting` gives a many-valued field. */
  function CollectionArguments(hasSubclasses: bool, elementName: string): seq<Argument>
  {
    (if hasSubclasses then [Argument("type", Ref(InputNameOfAllSubtypesOf(elementName)), None)] else []) +
    [ Argument("filter", Builtin(GraphQLString), None),
      Argument("sort", Builtin(GraphQLString), None),
      Argument("reverse", Builtin(GraphQLBoolean), Some(BooleanValue(false))),
      Argument("skip", Builtin(GraphQLInt), Some(IntValue(0))),
      Argument("take", Builtin(GraphQLInt), Some(IntValue(-1))) ]
  }

  function ArgumentNames(args: seq<Argument>): seq<string>
  {
    seq(|args|, i requires 0 <= i < |args| => args[i].name)
  }

  /** The field after `addCollectionFilteringAndSorting`: unchanged when
      single-valued; otherwise a non-null paginated collection of the element
      type, with the pagination arguments put after the existing ones. */
  function CollectionField(fb: FieldDef, isMany: bool, elementName: string, hasSubclasses: bool): FieldDef
  {
    if isMany then
      FieldDef(fb.name, NonNull(Ref(PaginatedCollectionOf(elementName))),
               fb.argumentPuts + CollectionArguments(hasSubclasses, elementName))
    else fb
  }

  lemma CollectionArgumentsShape(hasSubclasses: bool, elementName: string)
    ensures var args := CollectionArguments(hasSubclasses, elementName);
      && UniqueKeys(args, ArgumentName)
      && ArgumentNames(args) == (if hasSubclasses then ["type"] else []) + ["filter", "sort", "reverse", "skip", "take"]
      && (exists a :: a in args && a.name == "type") == hasSubclasses
      && args[|args| - 3].defaultValue == Some(BooleanValue(false))
      && args[|args| - 2].defaultValue == Some(IntValue(0))
      && args[|args| - 1].defaultValue == Some(IntValue(-1))
  {
    var args := CollectionArguments(hasSubclasses, elementName);
    var names := ArgumentNames(args);
    assert names == (if hasSubclasses then ["type"] else []) + ["filter", "sort", "reverse", "skip", "take"];
    forall i, j | 0 <= i < j < |args| ensures args[i].name != args[j].name {
      assert args[i].name == names[i] && args[j].name == names[j];
    }
    if hasSubclasses {
      assert args[0].name == "type";
    } else {
      forall a | a in args ensures a.name != "type" {
        var i :| 0 <= i < |args| && args[i] == a;
        assert a.name == names[i];
      }
    }
  }

  /** For a field with no arguments yet (every reference), the pagination
      arguments are exactly `[type,] filter, sort, reverse, skip, take` in that
      order, with defaults false, 0 and -1, and `type` present iff the element
      type has subclasses. */
  lemma CollectionFieldArguments(fb: FieldDef, elementName: string, hasSubclasses: bool)
    requires fb.argumentPuts == []
    ensures var f := CollectionField(fb, true, elementName, hasSubclasses);
      && f.name == fb.name
      && f.typ == NonNull(Ref(PaginatedCollectionOf(elementName)))
      && f.Arguments() == CollectionArguments(hasSubclasses, elementName)
  {
    CollectionArgumentsShape(hasSubclasses, elementName);
    PutAllDistinct(CollectionArguments(hasSubclasses, elementName), ArgumentName);
    assert [] + CollectionArguments(hasSubclasses, elementName) == CollectionArguments(hasSubclasses, elementName);
  }

  /** The field an `EAttribute` becomes: named after the attribute, typed by
      the multiplicity rule and never paginated. */
  function AttributeField(mm: Metamodel, a: EAttribute): FieldDef
  {
    FieldDef(a.name, UpdateMultiplicity(a.multiplicity, ReferenceClassifierType(mm.Name(a.eAttributeType))), [])
  }

  /** The field an `EReference` becomes, given whether its target has subclasses
      in the subclass index at the time the reference is visited. */
  function ReferenceField(mm: Metamodel, r: EReference, hasSubclasses: bool): FieldDef
  {
    var rt := r.eReferenceType;
    CollectionField(
      FieldDef(r.name, UpdateMultiplicity(r.multiplicity, ReferenceClassifierType(mm.Name(rt))), []),
      r.multiplicity.isMany, mm.Name(rt), hasSubclasses)
  }

  /** The argument an `EParameter` becomes. */
  function ParameterArgument(mm: Metamodel, p: EParameter): Argument
  {
    Argument(p.name, UpdateMultiplicity(p.multiplicity, ReferenceClassifierType(mm.Name(p.eType))), None)
  }

  function ParameterArguments(mm: Metamodel, ps: seq<EParameter>): seq<Argument>
  {
    seq(|ps|, i requires 0 <= i < |ps| => ParameterArgument(mm, ps[i]))
  }

  /** The field name of an operation: the `getterOf` detail when present, else the operation's name. */
  function OperationFieldName(o: EOperation): string
  {
    if o.getterOf.Some? then o.getterOf.value else o.name
  }

  /** The field an accepted `EOperation` becomes. */
  function OperationField(mm: Metamodel, o: EOperation, hasSubclasses: bool): FieldDef
    requires !o.IsVoid()
  {
    var t := o.eType.value;
    CollectionField(
      FieldDef(OperationFieldName(o), UpdateMultiplicity(o.multiplicity, ReferenceClassifierType(mm.Name(t))),
               ParameterArguments(mm, o.eParameters)),
      o.multiplicity.isMany, mm.Name(t), hasSubclasses)
  }

  /** A many-valued reference or operation is always exposed as a non-null
      paginated collection, never as a bare list; a single-valued one keeps
      the multiplicity wrapper over the element's named type. */
  lemma ReferenceFieldType(mm: Metamodel, r: EReference, hasSubclasses: bool)
    ensures var f := ReferenceField(mm, r, hasSubclasses);
      && f.name == r.name
      && (r.multiplicity.isMany ==>
            f.typ == NonNull(Ref(PaginatedCollectionOf(mm.Name(r.eReferenceType)))) && !f.typ.List?)
      && (!r.multiplicity.isMany ==>
            f.argumentPuts == [] &&
            (f.typ.NonNull? <==> r.multiplicity.isUnique || r.multiplicity.upperBound == 1) &&
            !f.typ.List?)
  {
  }

  lemma OperationFieldType(mm: Metamodel, o: EOperation, hasSubclasses: bool)
    requires !o.IsVoid()
    ensures var f := OperationField(mm, o, hasSubclasses);
      && f.name == OperationFieldName(o)
      && (o.multiplicity.isMany ==> f.typ == NonNull(Ref(PaginatedCollectionOf(mm.Name(o.eType.value)))))
      && (!o.multiplicity.isMany ==> !f.typ.List?)
  {
  }

  /** After `addCollectionFilteringAndSorting` the field's argument names stay
      unique; a many-valued field gains the pagination argument names, and
      every pagination argument is present as given, replacing in place an
      earlier argument of the same name. */
  lemma CollectionFieldArgumentsAppend(fb: FieldDef, isMany: bool, elementName: string, hasSubclasses: bool)
    ensures var f := CollectionField(fb, isMany, elementName, hasSubclasses);
      var cas := CollectionArguments(hasSubclasses, elementName);
      && UniqueKeys(f.Arguments(), ArgumentName)
      && Keys(f.Arguments(), ArgumentName) ==
           Keys(fb.argumentPuts, ArgumentName) + (if isMany then Keys(cas, ArgumentName) else {})
      && (isMany ==> forall a :: a in cas ==> a in f.Arguments())
  {
    var empty: seq<Argument> := [];
    assert UniqueKeys(empty, ArgumentName) && Keys(empty, ArgumentName) == {};
    var f := CollectionField(fb, isMany, elementName, hasSubclasses);
    if isMany {
      var cas := CollectionArguments(hasSubclasses, elementName);
      assert f.argumentPuts == fb.argumentPuts + cas;
      KeysAppend(fb.argumentPuts, cas, ArgumentName);
      CollectionArgumentsUnique(hasSubclasses, elementName);
      PutAllUniqueSuffix(empty, fb.argumentPuts, cas, ArgumentName);
    } else {
      assert f == fb;
    }
  }

  lemma CollectionArgumentsUnique(hasSubclasses: bool, elementName: string)
    ensures UniqueKeys(CollectionArguments(hasSubclasses, elementName), ArgumentName)
  {
    CollectionArgumentsShape(hasSubclasses, elementName);
  }

  /** An operation's field takes one argument per parameter name and, when
      many-valued, the pagination arguments; names stay unique, and every
      pagination argument is present as given, replacing in place a
      parameter of the same name. */
  lemma OperationFieldArguments(mm: Metamodel, o: EOperation, hasSubclasses: bool)
    requires !o.IsVoid()
    ensures var f := OperationField(mm, o, hasSubclasses);
      var ps := ParameterArguments(mm, o.eParameters);
      var cas := CollectionArguments(hasSubclasses, mm.Name(o.eType.value));
      && UniqueKeys(f.Arguments(), ArgumentName)
      && Keys(f.Arguments(), ArgumentName) ==
           Keys(ps, ArgumentName) + (if o.multiplicity.isMany then Keys(cas, ArgumentName) else {})
      && (o.multiplicity.isMany ==> forall a :: a in cas ==> a in f.Arguments())
  {
    var fb := FieldDef(OperationFieldName(o), UpdateMultiplicity(o.multiplicity, ReferenceClassifierType(mm.Name(o.eType.value))),
                       ParameterArguments(mm, o.eParameters));
    CollectionFieldArgumentsAppend(fb, o.multiplicity.isMany, mm.Name(o.eType.value), hasSubclasses);
  }

  /** Unlike references and operations, a many-valued attribute is a bare list. */
  lemma AttributeFieldType(mm: Metamodel, a: EAttribute)
    ensures var f := AttributeField(mm, a);
      && f.argumentPuts == []
      && (a.multiplicity.isMany <==> f.typ.List?)
      && (a.multiplicity.isMany ==> f.typ == List(ReferenceClassifierType(mm.Name(a.eAttributeType))))
  {
  }
}
