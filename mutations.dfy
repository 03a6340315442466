/** The (container class, identifier, containment references) triples and the
    `Mutation` fields synthesised from them. */
module Mutations {
  import opened Wrappers
  import opened Strings
  import opened Ecore
  import opened GraphQL
  import opened Naming

  /** An immutable triple: `getMetaclass`, `getIdentifier` and `getContainment`
      are its destructors, and as a value it can never differ from what it was
      built with. */
  datatype MetaclassIdentifier2Containment =
    MetaclassIdentifier2Containment(metaclass: Id, identifier: FieldDef, containment: seq<EReference>)

  /** The argument that selects which concrete subtype of `r`'s target to create. */
  function SubtypeArgument(mm: Metamodel, r: EReference): Argument
  {
    Argument(r.name, Ref(AllConcreteSubtypesOf(mm.Name(r.eReferenceType))), None)
  }

  /** The `Mutation` field that containment `r` of triple `t` yields;
      `None` when the identifier's name is empty and `substring(0, 1)` throws. */
  function MutationField(mm: Metamodel, t: MetaclassIdentifier2Containment, r: EReference): Option<FieldDef>
  {
    var id := t.identifier.name;
    match Capitalize(id)
    case None => None
    case Some(key) =>
      Some(FieldDef(r.name + "Of" + mm.Name(t.metaclass) + "By" + key,
                    Builtin(GraphQLString),
                    [Argument(id, Builtin(GraphQLString), None), SubtypeArgument(mm, r)]))
  }

  /** A mutation field exists exactly when the identifier has a name; it is
      named `<reference>Of<class>By<Identifier>`, returns a `String`, and takes
      the identifier (a `String`) and the subtype to create, in that order.
      When the identifier and the reference share a name, the second argument
      replaces the first. */
  lemma MutationFieldShape(mm: Metamodel, t: MetaclassIdentifier2Containment, r: EReference)
    ensures var id := t.identifier.name;
      && (MutationField(mm, t, r).None? <==> id == "")
      && (id != "" ==>
          var f := MutationField(mm, t, r).value;
          && f.name == r.name + "Of" + mm.Name(t.metaclass) + "By" + [UpperChar(id[0])] + id[1..]
          && f.typ == Builtin(GraphQLString)
          && (id != r.name ==> f.Arguments() == [Argument(id, Builtin(GraphQLString), None), SubtypeArgument(mm, r)])
          && (id == r.name ==> f.Arguments() == [SubtypeArgument(mm, r)]))
  {
    var id := t.identifier.name;
    if id != "" {
      var key := Capitalize(id).value;
      assert key == [key[0]] + key[1..];
      var a1 := Argument(id, Builtin(GraphQLString), None);
      var a2 := SubtypeArgument(mm, r);
      var args := [a1, a2];
      assert args[..1] == [a1];
      assert PutAll([], [a1], ArgumentName) == [a1] by {
        assert [a1][..0] == [];
      }
      if id != r.name {
        assert UniqueKeys(args, ArgumentName);
        PutAllDistinct(args, ArgumentName);
      } else {
        assert PutAll([], args, ArgumentName) == Put([a1], a2, ArgumentName);
        assert [a1][0 := a2] == [a2];
      }
    }
  }

  /** The `Mutation` type: one field per triple and containment of the triple, and nothing else. */
  ghost predicate IsMutationType(mm: Metamodel, triples: set<MetaclassIdentifier2Containment>, m: ObjectType)
  {
    && m.name == "Mutation" && m.Interfaces() == []
    && UniqueKeys(m.Fields(), FieldName)
    && (forall f :: f in m.Fields() ==>
          exists t, r :: t in triples && r in t.containment && MutationField(mm, t, r) == Some(f))
    && (forall t, r :: t in triples && r in t.containment ==>
          MutationField(mm, t, r).Some? && MutationField(mm, t, r).value.name in Keys(m.Fields(), FieldName))
  }

  lemma MutationTypeShape(mm: Metamodel, triples: set<MetaclassIdentifier2Containment>, puts: seq<FieldDef>)
    requires forall t :: t in triples && t.containment != [] ==> t.identifier.name != ""
    requires forall f :: f in puts <==>
      exists t, r :: t in triples && r in t.containment && MutationField(mm, t, r) == Some(f)
    ensures IsMutationType(mm, triples, ObjectType("Mutation", [], puts))
  {
    var m := ObjectType("Mutation", [], puts);
    BuildObjectShape(ObjectBuilder("Mutation", [], puts));
    forall t, r | t in triples && r in t.containment
      ensures MutationField(mm, t, r).Some? && MutationField(mm, t, r).value.name in Keys(m.Fields(), FieldName)
    {
      MutationFieldShape(mm, t, r);
      var f := MutationField(mm, t, r).value;
      var i :| 0 <= i < |puts| && puts[i] == f;
      assert FieldName(puts[i]) in Keys(puts, FieldName);
    }
  }
}
