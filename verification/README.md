# Override-consistency check and compiled-pattern cache

A Dafny model of two pieces of Hibernate Validator:

- The annotation processor's `MethodOverrideCheck`. It checks that a method's
  constraint and cascade annotations agree with every method it overrides (section
  5.6.5 of the Jakarta Bean Validation specification, "Method constraints in
  inheritance hierarchies"). It covers:
  - discovery of overridden methods: the superclass chain up to `java.lang.Object`,
    plus the direct interfaces at each level, with one match at most per type;
  - the two-phase check: all ordered pairs of overridden methods first, then the
    current method against each overridden method, stopping at the first failure;
  - the two annotation-list helpers.
- The engine's `PatternConstraintInitializer`. This is the stateless and the memoising
  factory of compiled `@Pattern` regular expressions, keyed by (pattern, flags), with
  a `close` that empties the cache.

Files:

- `optional.dfy` (module `Optional`): the `Option` type shared by the other modules.
- `java_model.dfy` (module `JavaModel`): the compiler's view of a program. `Env` holds
  the `Elements`/`Types` utilities as arbitrary total functions: superclass, direct
  interfaces, `getAllMembers`, `overrides`, and the annotations on a type. The
  superclass chain is measured by a ghost `Depth` to `java.lang.Object`. A type without
  a superclass element (an interface, or `java.lang.Object` itself) has superclass `None`.
- `override_discovery.dfy` (module `OverrideDiscovery`): `getOverriddenElement`,
  `checkInterfacesForOverriddenMethod` and the `findAllOverriddenElements` walk. The
  walk is proved equal to a declarative list of the types it examines.
- `override_check.dfy` (module `MethodOverrideCheck`): `checkMethod` and its two phases.
  `needToPerformAnyChecks` and `checkOverriddenMethod` are fields of `OverrideRules`,
  because concrete subclasses supply them. An error is (method, qualified name of the
  conflicting type).
- `annotation_filters.dfy` (module `AnnotationFilters`): `listOnlyConstraintAnnotations`,
  `isConstraintAnnotation`, `annotationMirrorContainsAll`.
- `pattern_initializer.dfy` (module `PatternInitializer`): both initializer variants.
  `Pattern.compile` is a function parameter `compile`. Flags are a 32-bit `Int32`.

Two facts about the pairwise phase (`MethodOverrideCheck.java:60-74`):

- It does not stop at the first failing pair. Every failure is added to a set, and the
  whole set is returned.
- The consistency predicate is applied to ordered pairs (first, second) in both orders.
  It is not assumed to be symmetric.

## Model

| member | source | states |
|---|---|---|
| JavaModel.SuperclassReachesObjectIff | annotation-processor/src/main/java/org/hibernate/validator/ap/classchecks/MethodOverrideCheck.java:121-141 | for a type other than `java.lang.Object`, the upward walk is defined (a superclass element exists and its chain ends at `java.lang.Object`) exactly when the type's own chain reaches `java.lang.Object`; a type without a superclass element, where the walk dereferences null, never qualifies |
| JavaModel.SuperclassChain | annotation-processor/src/main/java/org/hibernate/validator/ap/classchecks/MethodOverrideCheck.java:130-141 | the classes the upward walk visits, strictly below `java.lang.Object`: it starts at the given class, it has as many classes as the chain has steps to `java.lang.Object`, it never contains `java.lang.Object`, and it is empty exactly when the start is `java.lang.Object` |
| JavaModel.SuperclassChainLinks | annotation-processor/src/main/java/org/hibernate/validator/ap/classchecks/MethodOverrideCheck.java:131-140 | the chain follows `getSuperclass`: each class's superclass is the next class in the chain, and the last class's superclass is `java.lang.Object`, where the loop stops |
| OverrideDiscovery.FirstOverridden | annotation-processor/src/main/java/org/hibernate/validator/ap/classchecks/MethodOverrideCheck.java:189-198 | the member scan yields nothing exactly when no member is a METHOD that the current method overrides, and otherwise yields the first such member in member order |
| OverrideDiscovery.GetOverriddenElement | annotation-processor/src/main/java/org/hibernate/validator/ap/classchecks/MethodOverrideCheck.java:180-199 | nothing for `java.lang.Object`; for any other type nothing exactly when none of its members is an overridden method, otherwise the first overridden METHOD member |
| OverrideDiscovery.CheckInterfacesForOverriddenMethod | annotation-processor/src/main/java/org/hibernate/validator/ap/classchecks/MethodOverrideCheck.java:155-169 | at most one method per scanned type: the result is no longer than the list of types |
| OverrideDiscovery.CheckInterfacesMembers | annotation-processor/src/main/java/org/hibernate/validator/ap/classchecks/MethodOverrideCheck.java:155-169 | a method is in the result exactly when it is the match of one of the scanned types |
| OverrideDiscovery.CheckInterfacesAppend | annotation-processor/src/main/java/org/hibernate/validator/ap/classchecks/MethodOverrideCheck.java:124-138 | matches are appended in scan order: scanning `a` then `b` gives the matches of `a` followed by those of `b` |
| OverrideDiscovery.FindAllOverriddenElements | annotation-processor/src/main/java/org/hibernate/validator/ap/classchecks/MethodOverrideCheck.java:115-144 | the walk terminates on any chain reaching `java.lang.Object`, and returns the per-type matches of the examined types in examination order: the current type's interfaces, then each superclass below `java.lang.Object` followed by its interfaces. There is at most one match per examined type, and every result is a method the current method overrides |
| OverrideDiscovery.DiscoveryOrder | annotation-processor/src/main/java/org/hibernate/validator/ap/classchecks/MethodOverrideCheck.java:118-143 | when the immediate superclass is `java.lang.Object` only the current type's interfaces are consulted; otherwise their matches come first, then the superclass's own match, then its interfaces' matches, then the rest of the chain |
| OverrideDiscovery.DiscoveredAreFirstOverridden | annotation-processor/src/main/java/org/hibernate/validator/ap/classchecks/MethodOverrideCheck.java:124-138 | every discovered method is overridden by the current method and is the first overridden METHOD member of some examined type other than `java.lang.Object` |
| OverrideDiscovery.ExaminedMatchesAreDiscovered | annotation-processor/src/main/java/org/hibernate/validator/ap/classchecks/MethodOverrideCheck.java:124-138 | conversely, every examined type's first overridden method is discovered |
| OverrideDiscovery.OverriddenMethodsAreOverridden | annotation-processor/src/main/java/org/hibernate/validator/ap/classchecks/MethodOverrideCheck.java:189-195 | only METHOD-kind elements that the current method overrides are ever discovered |
| MethodOverrideCheck.CheckPairwise | annotation-processor/src/main/java/org/hibernate/validator/ap/classchecks/MethodOverrideCheck.java:60-70 | the nested loop visits every ordered pair of distinct overridden methods without short-circuiting and returns the set of errors of the failing pairs, each naming the second method's enclosing type: one error per distinct second-method type among the failing pairs |
| MethodOverrideCheck.CheckAgainstOverridden | annotation-processor/src/main/java/org/hibernate/validator/ap/classchecks/MethodOverrideCheck.java:77-84 | at most one error; none exactly when the current method passes against every overridden method; otherwise the error names the first failing method's enclosing type in discovery order |
| MethodOverrideCheck.CheckMethod | annotation-processor/src/main/java/org/hibernate/validator/ap/classchecks/MethodOverrideCheck.java:46-85 | empty when no checks are needed (then no hierarchy is consulted, so none is required) or nothing is overridden; exactly the pairwise errors when there are any; otherwise at most one error, present exactly when some check of the current method fails, naming the first failing overridden method's type |
| MethodOverrideCheck.PairwiseErrorsEmptyIff | annotation-processor/src/main/java/org/hibernate/validator/ap/classchecks/MethodOverrideCheck.java:60-74 | the pairwise phase reports nothing if and only if every ordered pair of distinct overridden methods passes the predicate |
| MethodOverrideCheck.PairwiseErrorsByType | annotation-processor/src/main/java/org/hibernate/validator/ap/classchecks/MethodOverrideCheck.java:60-70 | an error naming a type is in the pairwise result exactly when that type encloses the second method of some failing ordered pair of distinct methods |
| MethodOverrideCheck.NoSelfComparison | annotation-processor/src/main/java/org/hibernate/validator/ap/classchecks/MethodOverrideCheck.java:63-65 | a method is never compared with itself: a list holding one declaration, possibly repeated, yields no pairwise error whatever the predicate |
| MethodOverrideCheck.PairwiseErrorNamesSecond | annotation-processor/src/main/java/org/hibernate/validator/ap/classchecks/MethodOverrideCheck.java:66-68 | every pairwise error is about the current method and names the enclosing type of the second method of a failing pair |
| AnnotationFilters.IsConstraintAnnotation | annotation-processor/src/main/java/org/hibernate/validator/ap/classchecks/MethodOverrideCheck.java:243-250 | true exactly when some annotation on the mirror's annotation type is `javax.validation.Constraint` |
| AnnotationFilters.ConstraintAnnotations | annotation-processor/src/main/java/org/hibernate/validator/ap/classchecks/MethodOverrideCheck.java:221-234 | the filtered list is no longer than the input and contains exactly the input's constraint annotations |
| AnnotationFilters.ConstraintAnnotationsAppend | annotation-processor/src/main/java/org/hibernate/validator/ap/classchecks/MethodOverrideCheck.java:227-231 | the filter preserves order: filtering a concatenation is the concatenation of the filtered parts |
| AnnotationFilters.ConstraintAnnotationsCounts | annotation-processor/src/main/java/org/hibernate/validator/ap/classchecks/MethodOverrideCheck.java:227-231 | each constraint annotation keeps its multiplicity and every other annotation is dropped |
| AnnotationFilters.ConstraintAnnotationsIdempotent | annotation-processor/src/main/java/org/hibernate/validator/ap/classchecks/MethodOverrideCheck.java:221-234 | filtering twice is filtering once |
| AnnotationFilters.ListOnlyConstraintAnnotations | annotation-processor/src/main/java/org/hibernate/validator/ap/classchecks/MethodOverrideCheck.java:221-234 | the loop builds the order-preserving constraint-only subsequence, and the empty list gives the empty list |
| AnnotationFilters.ContainsAllByMirror | annotation-processor/src/main/java/org/hibernate/validator/ap/classchecks/MethodOverrideCheck.java:261-272 | name containment means that every mirror of the second list has a mirror of the same annotation type in the first |
| AnnotationFilters.AnnotationMirrorContainsAll | annotation-processor/src/main/java/org/hibernate/validator/ap/classchecks/MethodOverrideCheck.java:261-272 | true exactly when the annotation type names of the second list are a subset of those of the first, element values ignored; true when the second list is empty |
| PatternInitializer.Of | engine/src/main/java/org/hibernate/validator/internal/engine/constraintvalidation/PatternConstraintInitializer.java:19-33 | with the cache invariant, the result is `compile(pattern, flags)` and the invariant still holds; the simple variant stays stateless; the caching one adds only the requested key and keeps every other entry; a cached key returns its stored pattern and leaves the state unchanged |
| PatternInitializer.Close | engine/src/main/java/org/hibernate/validator/internal/engine/constraintvalidation/PatternConstraintInitializer.java:15-38 | the interface's default close changes nothing; the caching close leaves an empty cache |
| PatternInitializer.CachingAgreesWithSimple | engine/src/main/java/org/hibernate/validator/internal/engine/constraintvalidation/PatternConstraintInitializer.java:19-33 | a consistent caching initializer answers what the stateless one answers |
| PatternInitializer.RepeatedOfHitsCache | engine/src/main/java/org/hibernate/validator/internal/engine/constraintvalidation/PatternConstraintInitializer.java:31-33 | a repeated request returns the stored pattern, leaves the cache unchanged, and does not depend on `compile`, so nothing is recompiled |
| PatternInitializer.FlagsDistinguishEntries | engine/src/main/java/org/hibernate/validator/internal/engine/constraintvalidation/PatternConstraintInitializer.java:31-41 | the key is the whole (pattern, flags) pair: the same pattern under two different flags occupies two entries |
| PatternInitializer.OfAfterClose | engine/src/main/java/org/hibernate/validator/internal/engine/constraintvalidation/PatternConstraintInitializer.java:31-38 | after close, a request still returns `compile(pattern, flags)` and the cache holds exactly that key |
| PatternInitializer.RunKeepsCacheConsistent | engine/src/main/java/org/hibernate/validator/internal/engine/constraintvalidation/PatternConstraintInitializer.java:28-38 | over any history of `of` and `close` calls on a fresh caching initializer: every answer is what `compile` yields, every entry equals `compile` of its key, and the cache holds exactly the keys requested since the last close |

## Left out

- The javac model APIs (`Elements.getAllMembers`, `Elements.overrides`, `Types.asElement`, `getSuperclass`, `getInterfaces`, annotation mirrors on a type) are uninterpreted functions in `Env`. Their own behaviour is outside this model.
- Methods declared in an interface are not modelled. For an interface, `asElement` of the superclass yields null, and the walk dereferences it (`MethodOverrideCheck.java:121, 131`), so Java throws. In the model such a type has superclass `None`, and `CheckMethod` requires `SuperclassReachesObject` of the current type, which such a type never satisfies (`SuperclassReachesObjectIff`). The requirement applies only when `needToPerformAnyChecks` holds, because no lookup happens otherwise.
- `needToPerformAnyChecks`, `checkOverriddenMethod` and `getErrorMessageKey` are implemented by subclasses that are not part of this model. The first two are arbitrary functions, and the message key is not represented.
- `ConstraintCheckError` is reduced to (method, enclosing-type name). Its other fields are not modelled.
- MethodOverrideCheck.CheckPairwise: assumes that two errors are equal exactly when their method and type name are equal. `ConstraintCheckError` is not part of this model, so its real `equals`/`hashCode` are unknown. Under this assumption, failing pairs that share the second method's type give one error. If the real equality ignores the message parameters, the Java set would instead hold only the first failing pair's error.
- Regular-expression compilation itself, including whether an invalid expression throws, is not modelled. So is `computeIfAbsent` with a mapping that returns null, because `Pattern.compile` never returns null.
- The thread safety of `ConcurrentHashMap` is concurrency. The cache is modelled as a sequential map whose state each call returns.
- `Cascadable` and `ClassCheck` are interfaces with no behaviour of their own. `ClassCheck`'s rule that an empty collection means "no errors" shows up as `CheckMethod`'s empty-result cases.
- The other files are out of scope:
  - `ByteBuddyWrapperTest.java`: bytecode generation.
  - `EmailDef.java`: a parameter builder over a class that is not part of this model.
  - `package-info.java`, the documentation examples, and the annotation-processor tests and fixtures: no logic of their own.
  - `ProcessedBeansTrackingCycles1Test.java`: its traversal engine is not part of this model.
- The metadata aggregation, group resolution and graph traversal engine of the wider system are not part of this model.
