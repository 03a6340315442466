/** Root-class inference: the classes that get a top-level `all<Plural>` query field. */
module Roots {
  import opened Ecore

  /** A candidate root is not contained, is not a supertype of a contained
      class, and has no contained supertype. */
  predicate IsCandidate(mm: Metamodel, contained: set<Id>, c: Id)
  {
    && c !in contained
    && (forall d :: d in contained ==> !mm.IsSuper(c, d))
    && (forall s :: s in mm.Supers(c) ==> s !in contained)
  }

  function Candidates(mm: Metamodel, all: set<Id>, contained: set<Id>): set<Id>
  {
    set c | c in all && IsCandidate(mm, contained, c)
  }

  /** `c` is concrete, or has a concrete subclass in `cands`. */
  predicate RootAmong(mm: Metamodel, cands: set<Id>, c: Id)
  {
    !mm.IsAbstract(c) || exists d :: d in cands && !mm.IsAbstract(d) && mm.IsSuper(c, d)
  }

  /** Among `cands`, the concrete classes and the abstract ones with a concrete
      subclass in `cands`. */
  function RootsOf(mm: Metamodel, cands: set<Id>): set<Id>
  {
    set c | c in cands && RootAmong(mm, cands, c)
  }

  /** Inferring roots again from the roots changes nothing. */
  lemma RootsIdempotent(mm: Metamodel, cands: set<Id>)
    ensures RootsOf(mm, RootsOf(mm, cands)) == RootsOf(mm, cands)
  {
    var r := RootsOf(mm, cands);
    forall c | c in r ensures c in RootsOf(mm, r) {
      if mm.IsAbstract(c) {
        var d :| d in cands && !mm.IsAbstract(d) && mm.IsSuper(c, d);
        assert d in r;
      }
    }
  }

  /** No class touched by containment is a root: not a contained class, not a
      supertype of one, not a subtype of one. */
  lemma ContainmentExcludesRoots(mm: Metamodel, all: set<Id>, contained: set<Id>, c: Id, d: Id)
    requires d in contained
    requires c == d || mm.IsSuper(c, d) || mm.IsSuper(d, c)
    ensures c !in RootsOf(mm, Candidates(mm, all, contained))
  {
  }

  /** A registered concrete class unrelated to every contained class is a root;
      an abstract one is a root exactly when some concrete subclass is a candidate. */
  lemma RootsCharacterised(mm: Metamodel, all: set<Id>, contained: set<Id>, c: Id)
    requires c in all && IsCandidate(mm, contained, c)
    ensures !mm.IsAbstract(c) ==> c in RootsOf(mm, Candidates(mm, all, contained))
    ensures mm.IsAbstract(c) ==>
      (c in RootsOf(mm, Candidates(mm, all, contained)) <==>
       exists d :: d in all && IsCandidate(mm, contained, d) && !mm.IsAbstract(d) && mm.IsSuper(c, d))
  {
  }
}
