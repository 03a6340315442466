# Ecore to GraphQL schema mapping, modelled in Dafny

This project models the core of the `ecore-graphql` converter. The converter
walks the contents of an Ecore metamodel and builds a GraphQL schema: one
interface type per abstract class and one object type per concrete class.
It also builds a `Query` root with an `all<Plural>` field for each root class,
paginated collections with filtering and sorting arguments, and a `Mutation`
root with one constructor field per container class, identifier and
containment reference.

Modules, in dependency order:

- `Wrappers`: `Option`, `Outcome` and `Result`. A `Fail`/`Failure` stands for
  an exception that aborts the conversion.
- `Strings`: the `java.lang.String` operations the mapping relies on.
- `Sorting`: the sorts the mapping calls.
- `Ecore`: the metamodel as the visitor reads it. EMF's derived features,
  such as `getEAllSuperTypes`, are given values.
- `GraphQL`: the schema elements, and graphql-java's builders. A builder is
  the log of the entries handed to it. A built type applies that log as
  puts into a name-keyed map.
- `EcoreQueries`: the classifier filters and the inheritance comparator.
- `Naming` and `Mapping`: the names and fields derived for one element.
- `Inheritance`: flattening inherited fields into each type.
- `Roots`: inferring the root classes.
- `Mutations`: the immutable `MetaclassIdentifier2Containment` triple, a
  datatype whose destructors are its getters, and the mutation fields.
- `Builds`: the types `addBuilds` makes that do not depend on the visitor's
  state.
- `Visitor`: the two-pass visitor. It is a class whose fields are the
  source's maps and sets; its methods update them in place. Its invariant
  `Valid()` ties every registered class to its builder and lists, and the
  subclass index to the inheritance graph.
- `Analysis`: the driver. It runs the first pass, switches mode, runs the
  second pass, then `addBuilds`.

A metamodel is well formed when its supertype relation is transitive and
irreflexive, as EMF's `getEAllSuperTypes` makes it.

## Model

| member | source | states |
|---|---|---|
| Analysis.Analyze | ecore-graphql/src/main/java/io/opencaesar/ecore/graphql/Ecore2GraphQL.java:50-61 | the first pass registers exactly the plain classes of the contents; on success the contents hold no void operation without type parameters, every class type is flattened, the recorded triples are exactly the (class, collected identifier, containment list) triples, the additional types are all and only the ones `addBuilds` emits, and `Query` and `Mutation` have exactly their expected fields; when every feature comes after its class and that class has no type parameters, the analysis fails exactly when the contents hold a void operation without type parameters or a recorded triple has an identifier with an empty name |
| Analysis.FirstPass | ecore-graphql/src/main/java/io/opencaesar/ecore/graphql/Ecore2GraphQL.java:51-54 | after a complete first pass the registered classes are exactly the plain classes among the contents; a pass that stops early met a feature that does not follow its class, or whose class has type parameters |
| Analysis.SecondPass | ecore-graphql/src/main/java/io/opencaesar/ecore/graphql/Ecore2GraphQL.java:56-59 | the second pass registers no class; it stops only at a void operation without type parameters or at a feature whose class was never registered, and it completes only when the contents hold no such void operation |
| Analysis.OwnersRegistered | ecore-graphql/src/main/java/io/opencaesar/ecore/graphql/Ecore2GraphQL.java:51-59 | when every feature follows its class in the walk and that class has no type parameters, the class of every feature is registered by the first pass, so the second pass cannot fail at a feature |
| Analysis.GenericOwnerBreaksOwnersFirst | ecore-graphql/src/main/java/io/opencaesar/ecore/graphql/Ecore2GraphQLVisitor.java:150-153 | a feature of a class with type parameters, anywhere in the walk, falls outside the "features follow their plain class" condition, because such a class is never registered |
| Visitor.Ecore2GraphQLVisitor.constructor | ecore-graphql/src/main/java/io/opencaesar/ecore/graphql/Ecore2GraphQLVisitor.java:50-82 | a new visitor is in the first mode with every map and set empty, and its invariant holds |
| Visitor.Ecore2GraphQLVisitor.ContentMode | ecore-graphql/src/main/java/io/opencaesar/ecore/graphql/Ecore2GraphQLVisitor.java:84-86 | switches to the second mode |
| Visitor.Ecore2GraphQLVisitor.CaseEPackage | ecore-graphql/src/main/java/io/opencaesar/ecore/graphql/Ecore2GraphQLVisitor.java:89-93 | adds the package to the visited packages and keeps the invariant |
| Visitor.ScalarFor | ecore-graphql/src/main/java/io/opencaesar/ecore/graphql/Ecore2GraphQLVisitor.java:96-128 | a data type becomes a scalar exactly when it has no type parameters and its instance class is `long`, `java.lang.Long`, `java.math.BigDecimal` or `java.lang.String`; the scalar keeps the type's name and is Int-coerced exactly for the first three |
| Visitor.Ecore2GraphQLVisitor.CaseEDataType | ecore-graphql/src/main/java/io/opencaesar/ecore/graphql/Ecore2GraphQLVisitor.java:96-128 | records the scalar of a supported data type under that type, and changes nothing otherwise |
| Visitor.Ecore2GraphQLVisitor.CaseEEnum | ecore-graphql/src/main/java/io/opencaesar/ecore/graphql/Ecore2GraphQLVisitor.java:131-135 | starts, or restarts, an empty enum builder named after the enum |
| Visitor.Ecore2GraphQLVisitor.CaseEEnumLiteral | ecore-graphql/src/main/java/io/opencaesar/ecore/graphql/Ecore2GraphQLVisitor.java:138-144 | appends the upper-cased literal name, valued by the literal, to the enum's builder if that builder exists, and changes nothing otherwise |
| Visitor.Ecore2GraphQLVisitor.CaseEClass | ecore-graphql/src/main/java/io/opencaesar/ecore/graphql/Ecore2GraphQLVisitor.java:148-180 | a class with type parameters is not handled; in the first mode any other class is registered, as an interface when abstract and as an object otherwise, and is indexed under each supertype; the second mode changes nothing |
| Visitor.Ecore2GraphQLVisitor.RegisterMetaclass | ecore-graphql/src/main/java/io/opencaesar/ecore/graphql/Ecore2GraphQLVisitor.java:155-177 | registering a class adds exactly one builder of the right kind, empty field, identifier and containment lists, and the class under each of its supertypes, and keeps the invariant |
| Visitor.Ecore2GraphQLVisitor.RegisterClass | ecore-graphql/src/main/java/io/opencaesar/ecore/graphql/Ecore2GraphQLVisitor.java:155-174 | an abstract class gets an interface builder, a concrete one an object builder implementing its abstract supertypes, and both get empty lists and are registered |
| Visitor.Ecore2GraphQLVisitor.IndexSubclasses | ecore-graphql/src/main/java/io/opencaesar/ecore/graphql/Ecore2GraphQLVisitor.java:176-177 | each supertype of `c`, and only those, gains `c` as a subclass |
| Visitor.Ecore2GraphQLVisitor.InterfacesOf | ecore-graphql/src/main/java/io/opencaesar/ecore/graphql/Ecore2GraphQLVisitor.java:163-167 | the interface references of a new object type are the names of its abstract supertypes, in supertype order |
| Visitor.AbstractNamesMeaning | ecore-graphql/src/main/java/io/opencaesar/ecore/graphql/Ecore2GraphQLVisitor.java:164-167 | a name is among the interface references exactly when some abstract supertype has that name |
| Visitor.ImplementedInterfacesMeaning | ecore-graphql/src/main/java/io/opencaesar/ecore/graphql/Ecore2GraphQLVisitor.java:164-167 | an object type implements each interface of its abstract supertypes once, and no other |
| Visitor.Ecore2GraphQLVisitor.AddSubclass | ecore-graphql/src/main/java/io/opencaesar/ecore/graphql/Ecore2GraphQLVisitor.java:190-194 | the subclass set of `sup` becomes its previous set (empty if absent) plus `sub` |
| Visitor.Ecore2GraphQLVisitor.SubclassesOfMeaning | ecore-graphql/src/main/java/io/opencaesar/ecore/graphql/Ecore2GraphQLVisitor.java:176-194 | the subclass set of a class holds exactly the registered classes below it, and never the class itself |
| Visitor.Ecore2GraphQLVisitor.AddField | ecore-graphql/src/main/java/io/opencaesar/ecore/graphql/Ecore2GraphQLVisitor.java:201-215 | fails exactly when the class was never registered, and then changes nothing; otherwise appends the field to the class's list and to its builder, whichever kind it is |
| Visitor.Ecore2GraphQLVisitor.AddIdentifier | ecore-graphql/src/main/java/io/opencaesar/ecore/graphql/Ecore2GraphQLVisitor.java:217-223 | fails exactly when the class was never registered; otherwise appends the field to the class's identifiers |
| Visitor.Ecore2GraphQLVisitor.CollectIdentifiersOf | ecore-graphql/src/main/java/io/opencaesar/ecore/graphql/Ecore2GraphQLVisitor.java:225-234 | the collected identifiers start with the class's own, and they are exactly the class's own plus those of each supertype that has an identifier list |
| Visitor.SuperIdentifiersMeaning | ecore-graphql/src/main/java/io/opencaesar/ecore/graphql/Ecore2GraphQLVisitor.java:227-232 | an identifier is inherited exactly when some supertype with an identifier list holds it |
| Visitor.Ecore2GraphQLVisitor.AddContainment | ecore-graphql/src/main/java/io/opencaesar/ecore/graphql/Ecore2GraphQLVisitor.java:236-242 | fails exactly when the class was never registered; otherwise appends the reference to the class's containments |
| Visitor.Ecore2GraphQLVisitor.CaseEAttribute | ecore-graphql/src/main/java/io/opencaesar/ecore/graphql/Ecore2GraphQLVisitor.java:245-275 | in the second mode an attribute whose type is in a visited package becomes a field of its class, and also an identifier when its `identifier` detail is "true" in any case; the call fails exactly when the class was never registered; in every other case nothing changes |
| Mapping.AttributeFieldType | ecore-graphql/src/main/java/io/opencaesar/ecore/graphql/Ecore2GraphQLVisitor.java:249-263 | an attribute's field has no arguments, and it is a list exactly when the attribute is many-valued |
| Visitor.Ecore2GraphQLVisitor.AddCollectionFilteringAndSorting | ecore-graphql/src/main/java/io/opencaesar/ecore/graphql/Ecore2GraphQLVisitor.java:277-333 | a many-valued element records its type as a collection reference and gets the pagination arguments and the non-null paginated-collection type; a single-valued one is unchanged |
| Mapping.CollectionArgumentsShape | ecore-graphql/src/main/java/io/opencaesar/ecore/graphql/Ecore2GraphQLVisitor.java:284-329 | the pagination arguments are `[type,] filter, sort, reverse, skip, take` in that order, with distinct names, the defaults false, 0 and -1, and `type` present exactly when the element type has subclasses |
| Mapping.CollectionFieldArguments | ecore-graphql/src/main/java/io/opencaesar/ecore/graphql/Ecore2GraphQLVisitor.java:284-331 | a field with no arguments yet ends up with exactly the pagination arguments and the paginated-collection type |
| Mapping.CollectionFieldArgumentsAppend | ecore-graphql/src/main/java/io/opencaesar/ecore/graphql/Ecore2GraphQLVisitor.java:277-333 | after the pagination step argument names stay unique, a many-valued field gains the pagination names, and each pagination argument is present as given |
| Visitor.Ecore2GraphQLVisitor.CaseEReference | ecore-graphql/src/main/java/io/opencaesar/ecore/graphql/Ecore2GraphQLVisitor.java:336-382 | a reference shadowed by an inherited getter, or met in the second mode, changes nothing; otherwise it is mapped as `MapReference` states |
| Visitor.Ecore2GraphQLVisitor.MapReference | ecore-graphql/src/main/java/io/opencaesar/ecore/graphql/Ecore2GraphQLVisitor.java:358-379 | a containment marks its target and the target's concrete supertypes as contained and is recorded for its class; the reference becomes a field of its class; the call fails exactly when the class was never registered |
| Visitor.Ecore2GraphQLVisitor.MarkContainment | ecore-graphql/src/main/java/io/opencaesar/ecore/graphql/Ecore2GraphQLVisitor.java:365-369 | adds the target and its non-abstract supertypes to the contained classes and appends the reference to the class's containments, failing exactly when the class was never registered |
| Mapping.ReferenceFieldType | ecore-graphql/src/main/java/io/opencaesar/ecore/graphql/Ecore2GraphQLVisitor.java:360-376 | a many-valued reference is a non-null paginated collection and never a bare list; a single-valued one has no arguments and is non-null exactly when unique or of upper bound 1 |
| Visitor.Ecore2GraphQLVisitor.CaseEOperation | ecore-graphql/src/main/java/io/opencaesar/ecore/graphql/Ecore2GraphQLVisitor.java:385-453 | in the second mode a void operation without type parameters aborts, with nothing changed; an operation with no type parameters whose return and parameter types are in the model becomes a field of its class, failing exactly when the class was never registered; in every other case nothing changes |
| Visitor.Ecore2GraphQLVisitor.OperationArguments | ecore-graphql/src/main/java/io/opencaesar/ecore/graphql/Ecore2GraphQLVisitor.java:421-444 | the arguments exist exactly when every parameter type is in the model, and then there is one per parameter, in order, with the multiplicity rule applied |
| Visitor.Ecore2GraphQLVisitor.AddOperationField | ecore-graphql/src/main/java/io/opencaesar/ecore/graphql/Ecore2GraphQLVisitor.java:414-450 | the operation's field, named by its `getterOf` detail when present, is handed to its class, failing exactly when the class was never registered |
| Mapping.OperationFieldType | ecore-graphql/src/main/java/io/opencaesar/ecore/graphql/Ecore2GraphQLVisitor.java:414-446 | an operation's field is named by its `getterOf` detail when present; many-valued it is a non-null paginated collection, otherwise never a list |
| Mapping.OperationFieldArguments | ecore-graphql/src/main/java/io/opencaesar/ecore/graphql/Ecore2GraphQLVisitor.java:414-446 | an operation's field takes one argument name per parameter and, when many-valued, the pagination names; names are unique and every pagination argument is present as given |
| Mapping.ReferenceClassifierType | ecore-graphql/src/main/java/io/opencaesar/ecore/graphql/Ecore2GraphQLVisitor.java:455-501 | a classifier name maps to a built-in scalar exactly for `EString`, `EBoolean`, `EInt`, `UnsignedInteger` and `EDouble` (each to its scalar), and to a reference to that name otherwise |
| Mapping.UpdateMultiplicity | ecore-graphql/src/main/java/io/opencaesar/ecore/graphql/Ecore2GraphQLVisitor.java:725-735 | at most one wrapper: a list exactly when many-valued, non-null exactly when single-valued and unique or of upper bound 1 |
| Visitor.Ecore2GraphQLVisitor.DoSwitch | ecore-graphql/src/main/java/io/opencaesar/ecore/graphql/Ecore2GraphQL.java:53 | dispatches one content object to its case; only the first mode registers classes, and then only plain classes; a failure comes from a feature whose class is not registered or, in the second mode, from a void operation without type parameters, which always fails there; in the first mode only a reference can fail |
| Visitor.Ecore2GraphQLVisitor.AddBuilds | ecore-graphql/src/main/java/io/opencaesar/ecore/graphql/Ecore2GraphQLVisitor.java:503-707 | flattens and builds every class type, records exactly the triples of the classes with containments, and either fails (exactly when some triple's identifier has an empty name) or yields all the additional types and the `Query` and `Mutation` roots |
| Visitor.Ecore2GraphQLVisitor.BuildTypes | ecore-graphql/src/main/java/io/opencaesar/ecore/graphql/Ecore2GraphQLVisitor.java:516-532 | every builder gets its inherited fields and is built; afterwards there is one interface type per abstract registered class and one object type per concrete one, each the flattened type of the class |
| Visitor.Ecore2GraphQLVisitor.BuildInterfaceTypes | ecore-graphql/src/main/java/io/opencaesar/ecore/graphql/Ecore2GraphQLVisitor.java:517-523 | one built interface type per abstract registered class, each its flattened type |
| Visitor.Ecore2GraphQLVisitor.BuildObjectTypes | ecore-graphql/src/main/java/io/opencaesar/ecore/graphql/Ecore2GraphQLVisitor.java:526-532 | one built object type per concrete registered class, each its flattened type |
| Visitor.Ecore2GraphQLVisitor.FlattenInterfaces | ecore-graphql/src/main/java/io/opencaesar/ecore/graphql/Ecore2GraphQLVisitor.java:517-523 | every interface builder, and no other, is completed with its inherited fields and built, and the built type is recorded under its class |
| Visitor.Ecore2GraphQLVisitor.FlattenObjects | ecore-graphql/src/main/java/io/opencaesar/ecore/graphql/Ecore2GraphQLVisitor.java:526-532 | every object builder, and no other, is completed with its inherited fields and built, and the built type is recorded under its class |
| Visitor.Ecore2GraphQLVisitor.InheritFields | ecore-graphql/src/main/java/io/opencaesar/ecore/graphql/Ecore2GraphQLVisitor.java:518-519 | the fields after one `addSpecificFields` call per supertype, in supertype order |
| Visitor.Ecore2GraphQLVisitor.AddSpecificFields | ecore-graphql/src/main/java/io/opencaesar/ecore/graphql/Ecore2GraphQLVisitor.java:709-723 | keeps the builder's fields as they were and adds the fields of new names, so the names become the union |
| Visitor.Ecore2GraphQLVisitor.FlatTypeFields | ecore-graphql/src/main/java/io/opencaesar/ecore/graphql/Ecore2GraphQLVisitor.java:516-532 | a flattened type has each field name of its class and of its supertypes once; with distinct own names, every own field is kept and wins every name collision |
| Inheritance.AddSpecificKeeps | ecore-graphql/src/main/java/io/opencaesar/ecore/graphql/Ecore2GraphQLVisitor.java:709-723 | existing fields are never replaced, and afterwards every name of the added list is present |
| Inheritance.AddSpecificUnique | ecore-graphql/src/main/java/io/opencaesar/ecore/graphql/Ecore2GraphQLVisitor.java:709-723 | field names stay unique |
| Inheritance.AddSpecificFirstSeen | ecore-graphql/src/main/java/io/opencaesar/ecore/graphql/Ecore2GraphQLVisitor.java:709-723 | an added field had a new name and is the first field of the list with that name |
| Inheritance.Inherit | ecore-graphql/src/main/java/io/opencaesar/ecore/graphql/Ecore2GraphQLVisitor.java:517-519 | inheriting keeps the own fields as a prefix, the names become the own names plus every supertype's, and uniqueness is kept |
| Inheritance.InheritedKeysMeaning | ecore-graphql/src/main/java/io/opencaesar/ecore/graphql/Ecore2GraphQLVisitor.java:517-519 | a name is inherited exactly when some supertype has a field of that name |
| Inheritance.FlattenedTypeFields | ecore-graphql/src/main/java/io/opencaesar/ecore/graphql/Ecore2GraphQLVisitor.java:516-532 | with distinct own names, a flattened type has unique names, keeps every own field, and an own name is never taken by an inherited field |
| Inheritance.BuiltFlattened | ecore-graphql/src/main/java/io/opencaesar/ecore/graphql/Ecore2GraphQLVisitor.java:520-531 | the type built from the flattened fields has unique names, its own plus its supertypes'; with distinct own names it holds exactly the flattened fields |
| Visitor.Ecore2GraphQLVisitor.CandidateMetaclasses | ecore-graphql/src/main/java/io/opencaesar/ecore/graphql/Ecore2GraphQLVisitor.java:537-551 | the candidates are exactly the registered classes that are not contained, not a supertype of a contained class, and without a contained supertype |
| Visitor.Ecore2GraphQLVisitor.KeepRoots | ecore-graphql/src/main/java/io/opencaesar/ecore/graphql/Ecore2GraphQLVisitor.java:553-559 | keeps the name order and keeps exactly the candidates that are concrete or have a concrete candidate subclass |
| Visitor.Ecore2GraphQLVisitor.RootMetaclasses | ecore-graphql/src/main/java/io/opencaesar/ecore/graphql/Ecore2GraphQLVisitor.java:537-559 | the roots are sorted by name and are exactly the root classes among the candidates |
| Roots.RootsIdempotent | ecore-graphql/src/main/java/io/opencaesar/ecore/graphql/Ecore2GraphQLVisitor.java:553-559 | filtering the roots again changes nothing |
| Roots.ContainmentExcludesRoots | ecore-graphql/src/main/java/io/opencaesar/ecore/graphql/Ecore2GraphQLVisitor.java:537-551 | no contained class, supertype of one, or subtype of one is a root |
| Roots.RootsCharacterised | ecore-graphql/src/main/java/io/opencaesar/ecore/graphql/Ecore2GraphQLVisitor.java:537-559 | a concrete candidate is a root; an abstract candidate is a root exactly when a concrete subclass is a candidate |
| Visitor.Ecore2GraphQLVisitor.QueryFields | ecore-graphql/src/main/java/io/opencaesar/ecore/graphql/Ecore2GraphQLVisitor.java:563-581 | one `all<Plural>` list field for each root with a built type, and no other |
| Visitor.Ecore2GraphQLVisitor.QueryType | ecore-graphql/src/main/java/io/opencaesar/ecore/graphql/Ecore2GraphQLVisitor.java:534-581 | the `Query` type implements nothing, has unique field names, holds only `all<Plural>` fields of roots, and has one for every root |
| Builds.QueryTypeShape | ecore-graphql/src/main/java/io/opencaesar/ecore/graphql/Ecore2GraphQLVisitor.java:534-581 | a `Query` type built from one field per root, in any order, is the expected one |
| Naming.Pluralize | ecore-graphql/src/main/java/io/opencaesar/ecore/graphql/Ecore2GraphQLVisitor.java:737-744 | adds "es" after a final "x" or "ss", replaces a final "y" with "ies", and adds "s" otherwise |
| Naming.PluralizeShape | ecore-graphql/src/main/java/io/opencaesar/ecore/graphql/Ecore2GraphQLVisitor.java:737-744 | the plural is one or two characters longer, ends in "s", and keeps the name, less a final "y", as its stem |
| Naming.PluralizeExamples | ecore-graphql/src/main/java/io/opencaesar/ecore/graphql/Ecore2GraphQLVisitor.java:737-744 | Box, Class, Category and Node become Boxes, Classes, Categories and Nodes |
| Naming.PluralizeCollides | ecore-graphql/src/main/java/io/opencaesar/ecore/graphql/Ecore2GraphQLVisitor.java:566-576 | two distinct class names can ask for the same `all<Plural>` field |
| Naming.Capitalize | ecore-graphql/src/main/java/io/opencaesar/ecore/graphql/Ecore2GraphQLVisitor.java:683 | `substring(0, 1)` throws exactly on the empty name; otherwise the result has the same length, an upper-cased first character and the same rest |
| Visitor.Ecore2GraphQLVisitor.CollectionTypes | ecore-graphql/src/main/java/io/opencaesar/ecore/graphql/Ecore2GraphQLVisitor.java:607-637 | one paginated-collection wrapper per collection reference, and one `AllSubtypesOf` enum per collection reference with subclasses |
| Visitor.Ecore2GraphQLVisitor.NamesOf | ecore-graphql/src/main/java/io/opencaesar/ecore/graphql/Ecore2GraphQLVisitor.java:609 | the names gathered are exactly the names of the classes |
| Visitor.Ecore2GraphQLVisitor.SubtypesEnumOf | ecore-graphql/src/main/java/io/opencaesar/ecore/graphql/Ecore2GraphQLVisitor.java:608-618 | the `AllSubtypesOf` enum holds the names of the subclasses and of the class itself, each once, in case-insensitive order, each valued by itself |
| Builds.CollectionWrapperFields | ecore-graphql/src/main/java/io/opencaesar/ecore/graphql/Ecore2GraphQLVisitor.java:620-636 | a wrapper is named `<T>PaginatedCollection`, implements nothing, and has exactly `collection: [T]!` then `pageInfo: PageInfo!` |
| Builds.EnumValues | ecore-graphql/src/main/java/io/opencaesar/ecore/graphql/Ecore2GraphQLVisitor.java:616 | one value per name, in order, each valued by its name |
| Builds.NamesEnumValues | ecore-graphql/src/main/java/io/opencaesar/ecore/graphql/Ecore2GraphQLVisitor.java:614-616 | an enum built from names holds exactly those names once each, each valued by itself |
| Builds.SortedNamesEnum | ecore-graphql/src/main/java/io/opencaesar/ecore/graphql/Ecore2GraphQLVisitor.java:610-617 | an enum built from a sorted permutation of names holds exactly those names once each, in order, each valued by itself |
| Builds.NamesEnumSorted | ecore-graphql/src/main/java/io/opencaesar/ecore/graphql/Ecore2GraphQLVisitor.java:612-617 | names added in sorted order give sorted enum values |
| Sorting.Sort | ecore-graphql/src/main/java/io/opencaesar/ecore/graphql/Ecore2GraphQLVisitor.java:550 | the result is sorted by the key under `compareTo` and is a permutation of the input |
| Strings.CompareIgnoreCaseIsFoldedCompareTo | ecore-graphql/src/main/java/io/opencaesar/ecore/graphql/Ecore2GraphQLVisitor.java:612 | `CASE_INSENSITIVE_ORDER` is `compareTo` on the case-folded strings, so it is a total preorder |
| Strings.EqualsIgnoreCaseIffCompareZero | ecore-graphql/src/main/java/io/opencaesar/ecore/graphql/Ecore2GraphQLVisitor.java:269 | `equalsIgnoreCase` holds exactly when `CASE_INSENSITIVE_ORDER` ranks the two strings equal |
| Strings.CompareToZero | ecore-graphql/src/main/java/io/opencaesar/ecore/graphql/Ecore2GraphQLVisitor.java:550 | `compareTo` is zero exactly for equal strings |
| Strings.CompareToAntisymmetric | ecore-graphql/src/main/java/io/opencaesar/ecore/graphql/Ecore2GraphQLVisitor.java:550 | swapping the arguments of `compareTo` negates the result |
| Strings.CompareToTransitive | ecore-graphql/src/main/java/io/opencaesar/ecore/graphql/Ecore2GraphQLVisitor.java:550 | `compareTo` is transitive |
| Visitor.Ecore2GraphQLVisitor.CollectMutations | ecore-graphql/src/main/java/io/opencaesar/ecore/graphql/Ecore2GraphQLVisitor.java:640-646 | the recorded triples are exactly one per class with a nonempty containment list and per collected identifier of that class, carrying that list |
| Visitor.Ecore2GraphQLVisitor.ConcreteContained | ecore-graphql/src/main/java/io/opencaesar/ecore/graphql/Ecore2GraphQLVisitor.java:655-662 | the concrete subclasses of a class, sorted by name |
| Visitor.Ecore2GraphQLVisitor.ConcreteContainedMetaclasses | ecore-graphql/src/main/java/io/opencaesar/ecore/graphql/Ecore2GraphQLVisitor.java:651-665 | one sorted concrete-subclass list for each target of a recorded containment reference, and no other |
| Visitor.Ecore2GraphQLVisitor.ConcreteSubtypesEnumOf | ecore-graphql/src/main/java/io/opencaesar/ecore/graphql/Ecore2GraphQLVisitor.java:666-673 | the `AllConcreteSubtypesOf` enum holds the names of the concrete subclasses, each once, in name order, each valued by itself |
| Visitor.Ecore2GraphQLVisitor.ConcreteSubtypeEnums | ecore-graphql/src/main/java/io/opencaesar/ecore/graphql/Ecore2GraphQLVisitor.java:666-673 | one `AllConcreteSubtypesOf` enum for each target of a recorded containment reference, and no other |
| Visitor.Ecore2GraphQLVisitor.MutationFields | ecore-graphql/src/main/java/io/opencaesar/ecore/graphql/Ecore2GraphQLVisitor.java:674-705 | fails with the `substring` error exactly when a triple with containments has an identifier with an empty name; otherwise exactly one field per triple and containment reference |
| Mutations.MetaclassIdentifier2Containment | ecore-graphql/src/main/java/io/opencaesar/ecore/graphql/MetaclassIdentifier2Containment.java:11-34 | the immutable triple as a value: the constructor keeps its three arguments and the three getters return them unchanged |
| Mutations.MutationField | ecore-graphql/src/main/java/io/opencaesar/ecore/graphql/Ecore2GraphQLVisitor.java:678-703 | the field one containment of one triple yields, or none where `substring` throws; its properties are stated by `MutationFieldShape` |
| Mutations.MutationFieldShape | ecore-graphql/src/main/java/io/opencaesar/ecore/graphql/Ecore2GraphQLVisitor.java:678-703 | a mutation field exists exactly when the identifier has a name; it is `<reference>Of<class>By<Identifier>`, returns `String`, and takes the identifier then the subtype to create, the second replacing the first when the names coincide |
| Visitor.Ecore2GraphQLVisitor.MutationObject | ecore-graphql/src/main/java/io/opencaesar/ecore/graphql/Ecore2GraphQLVisitor.java:648-706 | fails exactly when a triple with containments has an identifier with an empty name; otherwise the `Mutation` type implements nothing, has unique names, and has one field per triple and containment reference and no other |
| Mutations.MutationTypeShape | ecore-graphql/src/main/java/io/opencaesar/ecore/graphql/Ecore2GraphQLVisitor.java:648-706 | a `Mutation` type built from one field per triple and containment reference, in any order, is the expected one |
| Visitor.Ecore2GraphQLVisitor.ClassTypes | ecore-graphql/src/main/java/io/opencaesar/ecore/graphql/Ecore2GraphQLVisitor.java:508-605 | every scalar, every built enum, every flattened class type and `PageInfo` are additional types |
| Visitor.Ecore2GraphQLVisitor.SubtypeEnumTypes | ecore-graphql/src/main/java/io/opencaesar/ecore/graphql/Ecore2GraphQLVisitor.java:607-618 | an `AllSubtypesOf` enum is emitted for each collection reference with subclasses |
| Visitor.Ecore2GraphQLVisitor.WrapperTypes | ecore-graphql/src/main/java/io/opencaesar/ecore/graphql/Ecore2GraphQLVisitor.java:620-636 | a paginated-collection wrapper is emitted for each collection reference |
| Visitor.Ecore2GraphQLVisitor.ConcreteEnumTypes | ecore-graphql/src/main/java/io/opencaesar/ecore/graphql/Ecore2GraphQLVisitor.java:666-673 | an `AllConcreteSubtypesOf` enum is emitted for each target of a recorded containment |
| Visitor.Ecore2GraphQLVisitor.AddAdditional | ecore-graphql/src/main/java/io/opencaesar/ecore/graphql/Ecore2GraphQLVisitor.java:509 | adding more additional types keeps every type and adds only additional types |
| Visitor.Ecore2GraphQLVisitor.AdditionalTypes | ecore-graphql/src/main/java/io/opencaesar/ecore/graphql/Ecore2GraphQLVisitor.java:508-673 | the emitted types are all the additional types `addBuilds` makes and nothing else |
| Visitor.Ecore2GraphQLVisitor.AssembleSchema | ecore-graphql/src/main/java/io/opencaesar/ecore/graphql/Ecore2GraphQLVisitor.java:534-706 | from built class types: the recorded triples, the failure condition and error, and on success all additional types and the `Query` and `Mutation` roots |
| Visitor.Ecore2GraphQLVisitor.TypesAndMutation | ecore-graphql/src/main/java/io/opencaesar/ecore/graphql/Ecore2GraphQLVisitor.java:607-706 | records the triples; fails exactly when a triple with containments has an identifier with an empty name; otherwise yields all additional types and the `Mutation` root |
| EcoreQueries.FilterEPackage | ecore-graphql/src/main/java/io/opencaesar/ecore/graphql/EcoreQueries.java:28-33 | a stream of at most one element, holding the package exactly when the object is one |
| EcoreQueries.FilterEnum | ecore-graphql/src/main/java/io/opencaesar/ecore/graphql/EcoreQueries.java:35-40 | a stream of at most one element, holding the classifier exactly when it is an enum |
| EcoreQueries.FilterInterface | ecore-graphql/src/main/java/io/opencaesar/ecore/graphql/EcoreQueries.java:42-49 | a stream of at most one element, holding the classifier exactly when it is an abstract class |
| EcoreQueries.FilterConcreteClass | ecore-graphql/src/main/java/io/opencaesar/ecore/graphql/EcoreQueries.java:51-58 | a stream of at most one element, holding the classifier exactly when it is a concrete class |
| EcoreQueries.ClassFiltersPartition | ecore-graphql/src/main/java/io/opencaesar/ecore/graphql/EcoreQueries.java:42-58 | every class passes exactly one of the two class filters, the interface one exactly when abstract; other classifiers pass neither |
| EcoreQueries.InheritanceOrdering | ecore-graphql/src/main/java/io/opencaesar/ecore/graphql/EcoreQueries.java:60-82 | the comparator as written; its properties are stated by the lemmas below |
| EcoreQueries.InheritanceOrderingReflexive | ecore-graphql/src/main/java/io/opencaesar/ecore/graphql/EcoreQueries.java:60-62 | a class compares equal to itself |
| EcoreQueries.InheritanceOrderingRootsFirst | ecore-graphql/src/main/java/io/opencaesar/ecore/graphql/EcoreQueries.java:69-75 | a class without supertypes comes before any class with supertypes; two such classes compare by name |
| EcoreQueries.InheritanceOrderingSupertypeFirst | ecore-graphql/src/main/java/io/opencaesar/ecore/graphql/EcoreQueries.java:76-81 | among classes with supertypes, a supertype comes first and unrelated classes compare by name |
| EcoreQueries.InheritanceOrderingAntisymmetric | ecore-graphql/src/main/java/io/opencaesar/ecore/graphql/EcoreQueries.java:60-82 | over an acyclic inheritance graph, swapping the arguments negates the result |
| EcoreQueries.InheritanceOrderingNotTransitive | ecore-graphql/src/main/java/io/opencaesar/ecore/graphql/EcoreQueries.java:60-82 | a four-class metamodel where the comparator is not transitive |
| EcoreQueries.DepthOrderingIsComparator | ecore-graphql/src/main/java/io/opencaesar/ecore/graphql/EcoreQueries.java:60-82 | the corrected ordering is reflexive, antisymmetric and transitive, and still puts supertypes and classes without supertypes first |

## Left out

- Logging, descriptions, the `typeResolver` and schema printing are left out. They do not change the types built. This includes the warning for more than one package.
- The content walk is a sequence of objects in tree order. EMF's tree iterator, resource loading and the command-line application are not part of this model.
- `HashMap` and `HashSet` iteration order is not modelled. Loops over them pick any remaining element. Their contracts speak of membership, not order: the `Query` fields, the mutation triples, the additional types and the enum maps.
- `Visitor.Ecore2GraphQLVisitor.MutationFields` gives the `Mutation` fields in an unspecified order. Line 674 sorts the triples by `getKey`, which `MetaclassIdentifier2Containment.java` does not define.
- Builders are values inside the visitor's maps, so aliasing between them is not modelled. Neither is the triple's shared reference to its class's containment list, which is not changed after the triple is made.
- Case mapping (`toUpperCase`, `equalsIgnoreCase`, `CASE_INSENSITIVE_ORDER`) covers ASCII letters only. `compareTo` compares characters, not UTF-16 code units of supplementary characters.
- Classes are identified by object identity. Two classes with the same name still get two types, and the schema builder's duplicate-name check is not modelled.
- `Visitor.Ecore2GraphQLVisitor.AdditionalTypes`: the "only additional types" half names an `AllSubtypesOf` or `AllConcreteSubtypesOf` enum only by its name, not its values. The same holds for `AssembleSchema`, `TypesAndMutation`, `AddBuilds` and `Analysis.Analyze`, which pass that contract on. The other half, that each expected enum is emitted with its exact values, is stated in full.
- graphql-java checks every type, field, argument and enum value name when it is built, and rejects an empty or otherwise invalid name. That check is not modelled. The program can therefore abort earlier, at more names, than `Analysis.Analyze`, `AddBuilds`, `MutationFields` and `MutationObject` state. For example, an attribute with an empty name aborts at `build()` before the mutation fields are made.
- Ecore's validation requires a type for every attribute, reference and parameter, and the model assumes it. An operation may have no type: a void operation is modelled, and it aborts the second pass.
- `Analysis.Analyze` characterises failure only when every feature follows its class in the walk and that class has no type parameters. In a tree-order walk a feature always follows its class, so the inputs left out are those with a feature of a class with type parameters. Such a class is never registered (lines 150-153), so the program aborts at that feature: a reference in the first pass fails in `addContainment` or `addField` (lines 238, 203), and an attribute or operation in the second pass fails in `addField` (line 203). `Analysis.Analyze` states only what holds on success for these inputs; `Analysis.GenericOwnerBreaksOwnersFirst` shows they fall outside the condition.
- `Sorting.Sort` is stable like the JDK's sort, but its contract states only sortedness and permutation. Stability would only order ties: names equal under `compareTo` for the root classes and concrete subclasses, and names equal ignoring case for the `AllSubtypesOf` enums. Each sorted list is filled from a `HashSet`, whose order is unspecified, so the order of ties is unspecified anyway.

## Findings

| source | as written | input that shows it | evidently intended | confidence | as-written member | corrected member |
|---|---|---|---|---|---|---|
| ecore-graphql/src/main/java/io/opencaesar/ecore/graphql/EcoreQueries.java:60-82 | `inheritanceOrdering` compares by name whenever neither class is a supertype of the other | `Root`; `Gamma` and `Beta` extend `Root`; `Alpha` extends `Gamma`: Gamma < Alpha < Beta < Gamma | a `Comparator` that is transitive and puts supertypes first | high, not executed | EcoreQueries.InheritanceOrderingNotTransitive | EcoreQueries.DepthOrderingIsComparator |
