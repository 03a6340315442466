/** The Ecore metamodel as the mapping reads it. EMF's own derived features
    (`getEAllSuperTypes`, `getEAllOperations`, `isMany`, `isUnique`,
    `getUpperBound`, `getEPackage`) are given values here rather than computed. */
module Ecore {
  import opened Wrappers

  /** Identity of an `EClassifier` (Java object identity). */
  type Id = nat
  /** Identity of an `EPackage`. */
  type PackageId = nat

  /** `ETypedElement.isMany`, `isUnique` and `getUpperBound`. */
  datatype Multiplicity = Multiplicity(isMany: bool, isUnique: bool, upperBound: int)

  datatype Classifier =
    | EDataType(name: string, ePackage: PackageId, hasTypeParameters: bool, instanceClassName: Option<string>)
    | EEnum(name: string, ePackage: PackageId, hasTypeParameters: bool)
    | EClass(name: string, ePackage: PackageId, hasTypeParameters: bool, isAbstract: bool,
             /** `getEAllSuperTypes()`: every transitive supertype */
             eAllSuperTypes: seq<Id>,
             /** the values of the `getterOf` detail of the Ecore annotation of each of `getEAllOperations()` */
             eAllOperationGetters: set<string>)

  datatype EEnumLiteral = EEnumLiteral(eEnum: Id, name: string, literal: string)

  /** `identifierDetail` is the value of the `identifier` detail of the OML
      annotation, `None` when the annotation or the key is absent. */
  datatype EAttribute = EAttribute(name: string, eContainingClass: Id, eAttributeType: Id,
                                   multiplicity: Multiplicity, identifierDetail: Option<string>)

  datatype EReference = EReference(name: string, eContainingClass: Id, eReferenceType: Id,
                                   isContainment: bool, multiplicity: Multiplicity)

  datatype EParameter = EParameter(name: string, eType: Id, multiplicity: Multiplicity)

  /** `getterOf` is the value of the `getterOf` detail of the Ecore annotation,
      if any; `eType` is `None` for a void operation (`getEType()` is null). */
  datatype EOperation = EOperation(name: string, eContainingClass: Id, getterOf: Option<string>,
                                   hasTypeParameters: bool, eType: Option<Id>, eParameters: seq<EParameter>,
                                   multiplicity: Multiplicity)
  {
    /** A void operation: it has no return type. */
    predicate IsVoid()
    {
      eType.None?
    }
  }

  /** One object of the resource's content tree. `OtherObj` is anything the
      visitor has no case for (parameters, annotations, generic types, ...). */
  datatype EObject =
    | PackageObj(p: PackageId)
    | ClassifierObj(id: Id)
    | LiteralObj(literal: EEnumLiteral)
    | AttributeObj(attribute: EAttribute)
    | ReferenceObj(reference: EReference)
    | OperationObj(operation: EOperation)
    | OtherObj

  datatype Metamodel = Metamodel(classifiers: map<Id, Classifier>)
  {
    /** `getName()`; the empty name for an identity that is not a classifier. */
    function Name(c: Id): string
    {
      if c in classifiers then classifiers[c].name else ""
    }

    predicate IsClass(c: Id)
    {
      c in classifiers && classifiers[c].EClass?
    }

    predicate IsAbstract(c: Id)
    {
      IsClass(c) && classifiers[c].isAbstract
    }

    predicate IsDataType(c: Id)
    {
      c in classifiers && (classifiers[c].EDataType? || classifiers[c].EEnum?)
    }

    function Supers(c: Id): seq<Id>
    {
      if IsClass(c) then classifiers[c].eAllSuperTypes else []
    }

    /** `c.getEAllSuperTypes().contains(s)` */
    predicate IsSuper(s: Id, c: Id)
    {
      s in Supers(c)
    }

    predicate HasTypeParameters(c: Id)
    {
      c in classifiers && classifiers[c].hasTypeParameters
    }

    /** The inheritance graph: supertypes are classes, the supertype relation
        is transitive and irreflexive, hence acyclic. */
    ghost predicate WellFormed()
    {
      && (forall s, c :: IsSuper(s, c) ==> IsClass(s))
      && (forall s, c, t :: IsSuper(s, c) && IsSuper(t, s) ==> IsSuper(t, c))
      && (forall c :: !IsSuper(c, c))
    }

    predicate LiteralOk(l: EEnumLiteral)
    {
      l.eEnum in classifiers && classifiers[l.eEnum].EEnum?
    }

    predicate AttributeOk(a: EAttribute)
    {
      IsClass(a.eContainingClass) && IsDataType(a.eAttributeType)
    }

    predicate ReferenceOk(r: EReference)
    {
      IsClass(r.eContainingClass) && IsClass(r.eReferenceType)
    }

    predicate OperationOk(o: EOperation)
    {
      IsClass(o.eContainingClass) && (o.eType.Some? ==> o.eType.value in classifiers) &&
      forall p :: p in o.eParameters ==> p.eType in classifiers
    }

    /** What a metamodel that passes Ecore's validation guarantees of an object
        handed to the visitor: every feature belongs to a class, and every typed
        element has a type in the metamodel, except an operation, which may be void. */
    predicate ObjectOk(eo: EObject)
    {
      match eo
      case PackageObj(_) => true
      case ClassifierObj(id) => id in classifiers
      case LiteralObj(l) => LiteralOk(l)
      case AttributeObj(a) => AttributeOk(a)
      case ReferenceObj(r) => ReferenceOk(r)
      case OperationObj(o) => OperationOk(o)
      case OtherObj => true
    }
  }

  /** A supertype is never a supertype of its own subtype. */
  lemma SuperAcyclic(mm: Metamodel, s: Id, c: Id)
    requires mm.WellFormed() && mm.IsSuper(s, c)
    ensures !mm.IsSuper(c, s) && s != c
  {
  }
}
