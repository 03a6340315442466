/** Classifier filters used to stream over a metamodel, and a comparator that
    orders classes by inheritance. Java's 0- or 1-element streams are sequences
    of length at most one. */
module EcoreQueries {
  import opened Wrappers
  import opened Strings
  import opened Ecore

  function FilterEPackage(eo: EObject): (r: seq<PackageId>)
    ensures |r| <= 1
    ensures |r| == 1 <==> eo.PackageObj?
    ensures eo.PackageObj? ==> r == [eo.p]
  {
    if eo.PackageObj? then [eo.p] else []
  }

  function FilterEnum(mm: Metamodel, ec: Id): (r: seq<Id>)
    requires ec in mm.classifiers
    ensures |r| <= 1
    ensures |r| == 1 <==> mm.classifiers[ec].EEnum?
    ensures forall x :: x in r ==> x == ec
  {
    if mm.classifiers[ec].EEnum? then [ec] else []
  }

  function FilterInterface(mm: Metamodel, ec: Id): (r: seq<Id>)
    requires ec in mm.classifiers
    ensures |r| <= 1
    ensures |r| == 1 <==> mm.classifiers[ec].EClass? && mm.classifiers[ec].isAbstract
    ensures forall x :: x in r ==> x == ec
  {
    if mm.IsClass(ec) && mm.IsAbstract(ec) then [ec] else []
  }

  function FilterConcreteClass(mm: Metamodel, ec: Id): (r: seq<Id>)
    requires ec in mm.classifiers
    ensures |r| <= 1
    ensures |r| == 1 <==> mm.classifiers[ec].EClass? && !mm.classifiers[ec].isAbstract
    ensures forall x :: x in r ==> x == ec
  {
    if mm.IsClass(ec) && !mm.IsAbstract(ec) then [ec] else []
  }

  /** Every class passes exactly one of the two class filters (the interface
      one when abstract); any other classifier passes neither. */
  lemma ClassFiltersPartition(mm: Metamodel, ec: Id)
    requires ec in mm.classifiers
    ensures mm.IsClass(ec) ==> |FilterInterface(mm, ec)| + |FilterConcreteClass(mm, ec)| == 1
    ensures mm.IsClass(ec) ==> (FilterInterface(mm, ec) == [ec] <==> mm.IsAbstract(ec))
    ensures !mm.IsClass(ec) ==> FilterInterface(mm, ec) == [] && FilterConcreteClass(mm, ec) == []
  {
  }

  /** `inheritanceOrdering.compare(o1, o2)`. */
  function InheritanceOrdering(mm: Metamodel, o1: Id, o2: Id): int
    requires mm.IsClass(o1) && mm.IsClass(o2)
  {
    if o1 == o2 then 0
    else
      var n1, n2 := mm.Name(o1), mm.Name(o2);
      var s1, s2 := mm.Supers(o1), mm.Supers(o2);
      if |s1| == 0 then
        if |s2| == 0 then CompareTo(n1, n2) else -1
      else if |s2| == 0 then 1
      else if o1 in s2 then -1
      else if o2 in s1 then 1
      else CompareTo(n1, n2)
  }

  lemma InheritanceOrderingReflexive(mm: Metamodel, o: Id)
    requires mm.IsClass(o)
    ensures InheritanceOrdering(mm, o, o) == 0
  {
  }

  /** A class without supertypes comes before every class with supertypes;
      two classes without supertypes compare by name. */
  lemma InheritanceOrderingRootsFirst(mm: Metamodel, o1: Id, o2: Id)
    requires mm.IsClass(o1) && mm.IsClass(o2) && o1 != o2 && |mm.Supers(o1)| == 0
    ensures |mm.Supers(o2)| != 0 ==> InheritanceOrdering(mm, o1, o2) < 0
    ensures |mm.Supers(o2)| == 0 ==> InheritanceOrdering(mm, o1, o2) == CompareTo(mm.Name(o1), mm.Name(o2))
  {
  }

  /** Among classes with supertypes, a supertype comes before its subtype, and
      unrelated classes compare by name. */
  lemma InheritanceOrderingSupertypeFirst(mm: Metamodel, o1: Id, o2: Id)
    requires mm.WellFormed() && mm.IsClass(o1) && mm.IsClass(o2) && o1 != o2
    requires |mm.Supers(o1)| != 0 && |mm.Supers(o2)| != 0
    ensures mm.IsSuper(o1, o2) ==> InheritanceOrdering(mm, o1, o2) < 0
    ensures mm.IsSuper(o2, o1) ==> InheritanceOrdering(mm, o1, o2) > 0
    ensures !mm.IsSuper(o1, o2) && !mm.IsSuper(o2, o1) ==>
              InheritanceOrdering(mm, o1, o2) == CompareTo(mm.Name(o1), mm.Name(o2))
  {
    if mm.IsSuper(o2, o1) {
      SuperAcyclic(mm, o2, o1);
    }
  }

  /** Over an acyclic inheritance graph, swapping the arguments negates the result. */
  lemma InheritanceOrderingAntisymmetric(mm: Metamodel, o1: Id, o2: Id)
    requires mm.WellFormed() && mm.IsClass(o1) && mm.IsClass(o2)
    ensures InheritanceOrdering(mm, o2, o1) == -InheritanceOrdering(mm, o1, o2)
  {
    CompareToAntisymmetric(mm.Name(o1), mm.Name(o2));
    if mm.IsSuper(o1, o2) {
      SuperAcyclic(mm, o1, o2);
    }
  }

  /** The metamodel of the counterexample below: `Root`; `Gamma` and `Beta`
      extend `Root`; `Alpha` extends `Gamma`. */
  function TriangleModel(): Metamodel
  {
    Metamodel(map[
      0 := EClass("Root", 0, false, false, [], {}),
      1 := EClass("Gamma", 0, false, false, [0], {}),
      2 := EClass("Alpha", 0, false, false, [1, 0], {}),
      3 := EClass("Beta", 0, false, false, [0], {})])
  }

  /** `inheritanceOrdering` is not transitive, so it breaks the contract of
      `Comparator`: Gamma < Alpha (supertype first), Alpha < Beta and
      Beta < Gamma (by name), yet Gamma > Beta. */
  lemma InheritanceOrderingNotTransitive()
    ensures var mm := TriangleModel();
      && mm.WellFormed()
      && InheritanceOrdering(mm, 1, 2) < 0
      && InheritanceOrdering(mm, 2, 3) < 0
      && InheritanceOrdering(mm, 3, 1) < 0
      && InheritanceOrdering(mm, 1, 3) > 0
  {
    var mm := TriangleModel();
    assert forall c :: c !in {0, 1, 2, 3} ==> mm.Supers(c) == [];
    assert mm.Supers(0) == [] && mm.Supers(1) == [0] && mm.Supers(2) == [1, 0] && mm.Supers(3) == [0];
    assert CompareTo("Alpha", "Beta") < 0;
    assert CompareTo("Beta", "Gamma") < 0;
    assert CompareTo("Gamma", "Beta") > 0;
  }

  /** The number of distinct transitive supertypes. */
  function AncestorCount(mm: Metamodel, c: Id): nat
  {
    |set s | s in mm.Supers(c)|
  }

  lemma AncestorCountGrows(mm: Metamodel, s: Id, c: Id)
    requires mm.WellFormed() && mm.IsSuper(s, c)
    ensures AncestorCount(mm, s) < AncestorCount(mm, c)
  {
    var a := set x | x in mm.Supers(s);
    var b := set x | x in mm.Supers(c);
    forall x | x in a
      ensures x in b
    {
      assert mm.IsSuper(x, s);
    }
    assert !mm.IsSuper(s, s);
    assert s in b && s !in a;
    assert a < b;
    assert |a| < |b| by {
      assert b == a + (b - a) && s in b - a;
    }
    assert AncestorCount(mm, s) == |a| && AncestorCount(mm, c) == |b|;
  }

  /** A transitive inheritance ordering: fewer supertypes first, then by name. */
  function DepthOrdering(mm: Metamodel, o1: Id, o2: Id): int
  {
    var d1, d2 := AncestorCount(mm, o1), AncestorCount(mm, o2);
    if d1 != d2 then d1 - d2 else CompareTo(mm.Name(o1), mm.Name(o2))
  }

  /** `DepthOrdering` keeps what `inheritanceOrdering` is for (every supertype
      first, classes without supertypes first) and is a total preorder. */
  lemma DepthOrderingIsComparator(mm: Metamodel, o1: Id, o2: Id, o3: Id)
    requires mm.WellFormed()
    ensures DepthOrdering(mm, o1, o1) == 0
    ensures DepthOrdering(mm, o2, o1) == -DepthOrdering(mm, o1, o2)
    ensures DepthOrdering(mm, o1, o2) <= 0 && DepthOrdering(mm, o2, o3) <= 0 ==> DepthOrdering(mm, o1, o3) <= 0
    ensures mm.IsSuper(o1, o2) ==> DepthOrdering(mm, o1, o2) < 0
    ensures |mm.Supers(o1)| == 0 && |mm.Supers(o2)| != 0 ==> DepthOrdering(mm, o1, o2) < 0
  {
    var n1, n2, n3 := mm.Name(o1), mm.Name(o2), mm.Name(o3);
    CompareToZero(n1, n1);
    CompareToAntisymmetric(n1, n2);
    if DepthOrdering(mm, o1, o2) <= 0 && DepthOrdering(mm, o2, o3) <= 0
       && AncestorCount(mm, o1) == AncestorCount(mm, o2) && AncestorCount(mm, o2) == AncestorCount(mm, o3) {
      CompareToTransitive(n1, n2, n3);
    }
    if mm.IsSuper(o1, o2) {
      AncestorCountGrows(mm, o1, o2);
    }
    if |mm.Supers(o1)| == 0 && |mm.Supers(o2)| != 0 {
      var b := set x | x in mm.Supers(o2);
      assert mm.Supers(o2)[0] in b;
      assert |b| != 0;
      assert (set x | x in mm.Supers(o1)) == {};
    }
  }
}
