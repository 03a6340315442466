/** `Ecore2GraphQL.analyze`: two walks over the resource's contents, then `addBuilds`. */
module Analysis {
  import opened Wrappers
  import opened Ecore
  import opened GraphQL
  import opened Roots
  import opened Mutations
  import opened Builds
  import opened Visitor

  /** Registering the objects of `contents[..i + 1]` adds at most the class at `i`. */
  lemma ClassesInSnoc(mm: Metamodel, contents: seq<EObject>, i: nat)
    requires i < |contents|
    ensures ClassesIn(mm, contents[..i + 1]) ==
      ClassesIn(mm, contents[..i]) + (if RegistersClass(mm, contents[i]) then {contents[i].id} else {})
  {
    assert contents[..i + 1] == contents[..i] + [contents[i]];
  }

  /** When each feature follows its class, every feature's class is registered. */
  lemma OwnersRegistered(mm: Metamodel, contents: seq<EObject>)
    ensures OwnersFirst(mm, contents) ==>
      forall eo :: eo in contents && IsFeature(eo) ==> Owner(eo) in ClassesIn(mm, contents)
  {
    if OwnersFirst(mm, contents) {
      forall eo | eo in contents && IsFeature(eo) ensures Owner(eo) in ClassesIn(mm, contents) {
        var i :| 0 <= i < |contents| && contents[i] == eo;
        assert Owner(eo) in ClassesIn(mm, contents[..i]);
        assert contents[..i] <= contents;
      }
    }
  }

  /** A feature of a class with type parameters breaks `OwnersFirst` wherever
      it appears: that class is never registered, so the feature's `addField`
      (or `addContainment`) finds no list for it and aborts. */
  lemma GenericOwnerBreaksOwnersFirst(mm: Metamodel, contents: seq<EObject>, eo: EObject)
    requires eo in contents && IsFeature(eo) && mm.HasTypeParameters(Owner(eo))
    ensures !OwnersFirst(mm, contents)
  {
    var i :| 0 <= i < |contents| && contents[i] == eo;
    assert Owner(contents[i]) !in ClassesIn(mm, contents[..i]);
  }

  /** The first pass visits every content object with the visitor in its
      first mode; it stops at the first object whose case fails. */
  method FirstPass(v: Ecore2GraphQLVisitor, contents: seq<EObject>) returns (outcome: Outcome)
    requires v.Valid() && v.mode == MetaclassesOnly && v.allMetaclasses == {}
    requires forall eo :: eo in contents ==> v.mm.ObjectOk(eo)
    modifies v
    ensures v.Valid() && v.mode == MetaclassesOnly
    ensures outcome.Pass? ==> v.allMetaclasses == ClassesIn(v.mm, contents)
    ensures outcome.Fail? ==> !OwnersFirst(v.mm, contents)
  {
    var i := 0;
    while i < |contents|
      invariant 0 <= i <= |contents|
      invariant v.Valid() && v.mode == MetaclassesOnly
      invariant v.allMetaclasses == ClassesIn(v.mm, contents[..i])
    {
      outcome := v.DoSwitch(contents[i]);
      ClassesInSnoc(v.mm, contents, i);
      if outcome.Fail? {
        assert IsFeature(contents[i]) && Owner(contents[i]) !in ClassesIn(v.mm, contents[..i]);
        return;
      }
      i := i + 1;
    }
    assert contents[..i] == contents;
    return Pass;
  }

  /** The second pass, in content mode, registers nothing. It fails at a void
      operation without type parameters, and otherwise only at a feature of a
      class the first pass did not register; it passes only when the contents
      hold no such operation. */
  method SecondPass(v: Ecore2GraphQLVisitor, contents: seq<EObject>) returns (outcome: Outcome)
    requires v.Valid() && v.mode == Contents
    requires forall eo :: eo in contents ==> v.mm.ObjectOk(eo)
    modifies v
    ensures v.Valid() && v.mode == Contents && v.allMetaclasses == old(v.allMetaclasses)
    ensures outcome.Fail? ==>
      exists eo :: eo in contents && ((IsFeature(eo) && Owner(eo) !in v.allMetaclasses) || VoidReturn(eo))
    ensures outcome.Pass? ==> forall eo :: eo in contents ==> !VoidReturn(eo)
  {
    var i := 0;
    while i < |contents|
      invariant 0 <= i <= |contents|
      invariant v.Valid() && v.mode == Contents && v.allMetaclasses == old(v.allMetaclasses)
      invariant forall k :: 0 <= k < i ==> !VoidReturn(contents[k])
    {
      outcome := v.DoSwitch(contents[i]);
      if outcome.Fail? {
        return;
      }
      i := i + 1;
    }
    forall eo | eo in contents ensures !VoidReturn(eo) {
      var k :| 0 <= k < |contents| && contents[k] == eo;
    }
    return Pass;
  }

  /** `analyze`: the first pass registers every plain class before the second
      pass maps any attribute or operation, so when each feature follows its
      class and that class has no type parameters, only a void operation or an identifier with an empty name can abort
      the mapping. */
  method Analyze(mm: Metamodel, contents: seq<EObject>) returns (v: Ecore2GraphQLVisitor, r: Result<Schema>)
    requires mm.WellFormed()
    requires forall eo :: eo in contents ==> mm.ObjectOk(eo)
    ensures v.mm == mm
    ensures r.Success? ==>
      && (forall eo :: eo in contents ==> !VoidReturn(eo))
      && v.allMetaclasses == ClassesIn(mm, contents)
      && v.TypesBuilt()
      && (forall t :: t in v.mutations <==> v.IsMutationTriple(t))
      && v.AllAdditionalTypes(r.value.additionalTypes)
      && IsQueryType(mm, v.RootSet(), r.value.query)
      && IsMutationType(mm, v.mutations, r.value.mutation)
    ensures OwnersFirst(mm, contents) ==>
      (r.Failure? <==>
         (exists eo :: eo in contents && VoidReturn(eo)) ||
         (exists t :: t in v.mutations && t.identifier.name == ""))
  {
    v := new Ecore2GraphQLVisitor(mm);
    var outcome := FirstPass(v, contents);
    if outcome.Fail? {
      return v, Failure(outcome.message);
    }
    v.ContentMode();
    outcome := SecondPass(v, contents);
    if outcome.Fail? {
      OwnersRegistered(mm, contents);
      return v, Failure(outcome.message);
    }
    r := v.AddBuilds();
  }
}
