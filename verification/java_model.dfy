/**
 * The compiler's view of a program, as the annotation processor sees it through
 * the `Elements` and `Types` utilities: type names, member elements, annotation
 * mirrors, and the superclass / interface / override relations. The relations
 * are left uninterpreted: they are fields of `Env` holding arbitrary total
 * functions, so everything proved about the override check holds for every
 * hierarchy the compiler could report.
 */
module JavaModel {
  import opened Optional

  /** Fully qualified name of a class, interface or annotation type, as
      `TypeElement.toString()` prints it. */
  type TypeName = string

  /** The universal root class; the upward walk stops at it. */
  const JavaLangObject: TypeName := "java.lang.Object"

  /** The meta-annotation that marks an annotation type as a constraint. */
  const JavaxValidationConstraint: TypeName := "javax.validation.Constraint"

  /** Turns an optional value into a sequence of length zero or one. */
  function ToSeq<T>(o: Option<T>): seq<T>
  {
    match o
    case None => []
    case Some(v) => [v]
  }

  /** The kinds of member a type can report; only `Method` is ever overridden. */
  datatype ElementKind = Method | Constructor | Field | NestedType

  /** A member element. Two elements are the same declaration exactly when they
      are equal; `id` tells apart declarations that agree on everything else. */
  datatype Element = Element(kind: ElementKind, enclosing: TypeName, name: string, id: nat)

  /** One use of an annotation: the annotation's type and its element values. */
  datatype AnnotationMirror = AnnotationMirror(annotationType: TypeName, elementValues: map<string, string>)

  /**
   * The processing environment.
   * - `superclassOf(t)`: the element of `t.getSuperclass()`, `None` when `asElement` yields null
   *   (an interface, or `java.lang.Object` itself, has no superclass);
   * - `interfacesOf(t)`: the elements of `t.getInterfaces()`, in declaration order;
   * - `allMembersOf(t)`: `Elements.getAllMembers(t)`, in the order it reports them;
   * - `overrides(m, n, t)`: `Elements.overrides(m, n, t)`, "m overrides n when viewed as a member of t";
   * - `annotationMirrorsOf(t)`: the annotations present on the type element `t`.
   */
  datatype Env = Env(
    superclassOf: TypeName -> Option<TypeName>,
    interfacesOf: TypeName -> seq<TypeName>,
    allMembersOf: TypeName -> seq<Element>,
    overrides: (Element, Element, TypeName) -> bool,
    annotationMirrorsOf: TypeName -> seq<AnnotationMirror>)

  /** Following `superclassOf` from `t` reaches `java.lang.Object` in exactly `n` steps. */
  ghost predicate ReachesObjectIn(env: Env, t: TypeName, n: nat)
    decreases n
  {
    if n == 0 then t == JavaLangObject
    else t != JavaLangObject && env.superclassOf(t).Some? && ReachesObjectIn(env, env.superclassOf(t).value, n - 1)
  }

  /** The superclass chain from `t` is finite and ends at `java.lang.Object`. */
  ghost predicate ReachesObject(env: Env, t: TypeName)
  {
    exists n: nat :: ReachesObjectIn(env, t, n)
  }

  lemma {:induction false} ReachesObjectInUnique(env: Env, t: TypeName, n: nat, m: nat)
    requires ReachesObjectIn(env, t, n) && ReachesObjectIn(env, t, m)
    ensures n == m
    decreases n
  {
    if n != 0 && m != 0 {
      ReachesObjectInUnique(env, env.superclassOf(t).value, n - 1, m - 1);
    }
  }

  /** The number of superclass steps from `t` to `java.lang.Object`: the only number of steps
      in which the chain gets there. */
  ghost function Depth(env: Env, t: TypeName): (n: nat)
    requires ReachesObject(env, t)
    ensures ReachesObjectIn(env, t, n)
    ensures forall m: nat :: ReachesObjectIn(env, t, m) ==> m == n
  {
    var n: nat :| ReachesObjectIn(env, t, n);
    assert forall m: nat :: ReachesObjectIn(env, t, m) ==> m == n by {
      forall m: nat | ReachesObjectIn(env, t, m)
        ensures m == n
      {
        ReachesObjectInUnique(env, t, n, m);
      }
    }
    n
  }

  /** The upward walk from a class is defined: the class has a superclass, and the chain above it
      ends at `java.lang.Object`. An interface, whose superclass element is null, never qualifies. */
  ghost predicate SuperclassReachesObject(env: Env, t: TypeName)
  {
    env.superclassOf(t).Some? && ReachesObject(env, env.superclassOf(t).value)
  }

  /** For any type other than `java.lang.Object`, its own chain reaches the root exactly when
      the chain above its superclass does; without a superclass neither does. */
  lemma {:induction false} SuperclassReachesObjectIff(env: Env, t: TypeName)
    requires t != JavaLangObject
    ensures SuperclassReachesObject(env, t) <==> ReachesObject(env, t)
    ensures env.superclassOf(t).None? ==> !ReachesObject(env, t)
  {
    if SuperclassReachesObject(env, t) {
      var n := Depth(env, env.superclassOf(t).value);
      assert ReachesObjectIn(env, t, n + 1);
    }
    if ReachesObject(env, t) {
      var n: nat :| ReachesObjectIn(env, t, n);
      assert ReachesObjectIn(env, env.superclassOf(t).value, n - 1);
    }
  }

  /** Each step up the chain brings the walk one step closer to the root. */
  lemma DepthOfSuperclass(env: Env, t: TypeName)
    requires ReachesObject(env, t) && t != JavaLangObject
    ensures SuperclassReachesObject(env, t)
    ensures Depth(env, env.superclassOf(t).value) == Depth(env, t) - 1
  {
    var n := Depth(env, t);
    assert ReachesObjectIn(env, env.superclassOf(t).value, n - 1);
  }

  /** The classes met going up from `t`, strictly below `java.lang.Object`. */
  function SuperclassChain(env: Env, t: TypeName): (chain: seq<TypeName>)
    requires ReachesObject(env, t)
    ensures |chain| == Depth(env, t)
    ensures JavaLangObject !in chain
    ensures t == JavaLangObject <==> chain == []
    ensures chain != [] ==> chain[0] == t
    decreases Depth(env, t)
  {
    if t == JavaLangObject then
      assert ReachesObjectIn(env, t, 0);
      []
    else
      DepthOfSuperclass(env, t);
      [t] + SuperclassChain(env, env.superclassOf(t).value)
  }

  /** A chain that does not start at the root is its first class followed by its superclass's chain. */
  lemma SuperclassChainCons(env: Env, t: TypeName)
    requires ReachesObject(env, t) && t != JavaLangObject
    ensures SuperclassReachesObject(env, t)
    ensures Depth(env, env.superclassOf(t).value) < Depth(env, t)
    ensures SuperclassChain(env, t) == [t] + SuperclassChain(env, env.superclassOf(t).value)
  {
    DepthOfSuperclass(env, t);
  }

  /** The chain follows the superclass links: each class's superclass is the next class, and the
      last class's superclass is `java.lang.Object`. */
  lemma {:induction false} SuperclassChainLinks(env: Env, t: TypeName)
    requires ReachesObject(env, t)
    ensures var chain := SuperclassChain(env, t);
            && (chain != [] ==> env.superclassOf(chain[|chain| - 1]) == Some(JavaLangObject))
            && forall i :: 0 <= i < |chain| - 1 ==> env.superclassOf(chain[i]) == Some(chain[i + 1])
    decreases Depth(env, t)
  {
    if t != JavaLangObject {
      SuperclassChainCons(env, t);
      var sup := env.superclassOf(t).value;
      SuperclassChainLinks(env, sup);
      var chain := SuperclassChain(env, t);
      var rest := SuperclassChain(env, sup);
      assert chain == [t] + rest;
      if rest != [] {
        assert chain[|chain| - 1] == rest[|rest| - 1];
      }
      forall i | 0 <= i < |chain| - 1
        ensures env.superclassOf(chain[i]) == Some(chain[i + 1])
      {
        if i > 0 {
          assert chain[i] == rest[i - 1] && chain[i + 1] == rest[i];
        }
      }
    }
  }
}
