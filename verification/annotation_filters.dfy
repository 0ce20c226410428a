/**
 * The two list helpers the concrete override checks use on annotation mirrors:
 * keeping only constraint annotations, and comparing two lists by annotation
 * type name.
 */
module AnnotationFilters {
  import opened JavaModel

  /** The annotation type `t` is itself annotated with `javax.validation.Constraint`. */
  predicate IsConstraintType(env: Env, t: TypeName)
  {
    exists m :: m in env.annotationMirrorsOf(t) && m.annotationType == JavaxValidationConstraint
  }

  /** Scans the annotations on the mirror's annotation type for the constraint meta-annotation. */
  method IsConstraintAnnotation(env: Env, annotation: AnnotationMirror) returns (r: bool)
    ensures r <==> exists i :: 0 <= i < |env.annotationMirrorsOf(annotation.annotationType)|
                               && env.annotationMirrorsOf(annotation.annotationType)[i].annotationType == JavaxValidationConstraint
    ensures r <==> IsConstraintType(env, annotation.annotationType)
  {
    var metas := env.annotationMirrorsOf(annotation.annotationType);
    var i := 0;
    while i < |metas|
      invariant 0 <= i <= |metas|
      invariant forall j :: 0 <= j < i ==> metas[j].annotationType != JavaxValidationConstraint
    {
      if metas[i].annotationType == JavaxValidationConstraint {
        assert metas[i] in metas;
        return true;
      }
      i := i + 1;
    }
    return false;
  }

  /** The constraint annotations of `s`, in their order in `s`. */
  function ConstraintAnnotations(env: Env, s: seq<AnnotationMirror>): (r: seq<AnnotationMirror>)
    ensures |r| <= |s|
    ensures forall a :: a in r <==> a in s && IsConstraintType(env, a.annotationType)
  {
    if s == [] then []
    else if IsConstraintType(env, s[0].annotationType) then [s[0]] + ConstraintAnnotations(env, s[1..])
    else ConstraintAnnotations(env, s[1..])
  }

  /** Filtering keeps relative order: filtering a concatenation concatenates the filtered parts. */
  lemma {:induction false} ConstraintAnnotationsAppend(env: Env, a: seq<AnnotationMirror>, b: seq<AnnotationMirror>)
    ensures ConstraintAnnotations(env, a + b) == ConstraintAnnotations(env, a) + ConstraintAnnotations(env, b)
  {
    if a == [] {
      assert a + b == b;
    } else {
      assert (a + b)[1..] == a[1..] + b;
      ConstraintAnnotationsAppend(env, a[1..], b);
    }
  }

  /** Each annotation occurs in the result exactly as often as in the input when it is a
      constraint annotation, and not at all otherwise. */
  lemma {:induction false} ConstraintAnnotationsCounts(env: Env, s: seq<AnnotationMirror>, a: AnnotationMirror)
    ensures multiset(ConstraintAnnotations(env, s))[a]
            == if IsConstraintType(env, a.annotationType) then multiset(s)[a] else 0
  {
    if s != [] {
      ConstraintAnnotationsCounts(env, s[1..], a);
      assert s == [s[0]] + s[1..];
      assert multiset(s) == multiset([s[0]]) + multiset(s[1..]);
    }
  }

  /** Filtering an already filtered list changes nothing. */
  lemma {:induction false} ConstraintAnnotationsIdempotent(env: Env, s: seq<AnnotationMirror>)
    ensures ConstraintAnnotations(env, ConstraintAnnotations(env, s)) == ConstraintAnnotations(env, s)
  {
    if s != [] {
      ConstraintAnnotationsIdempotent(env, s[1..]);
      if IsConstraintType(env, s[0].annotationType) {
        var t := ConstraintAnnotations(env, s[1..]);
        assert ([s[0]] + t)[1..] == t;
      }
    }
  }

  /** The filter loop over the list; the input is a value and is left untouched. */
  method ListOnlyConstraintAnnotations(env: Env, collectionToFilter: seq<AnnotationMirror>) returns (result: seq<AnnotationMirror>)
    ensures result == ConstraintAnnotations(env, collectionToFilter)
    ensures collectionToFilter == [] ==> result == []
  {
    if collectionToFilter == [] {
      return [];
    }
    result := [];
    var i := 0;
    while i < |collectionToFilter|
      invariant 0 <= i <= |collectionToFilter|
      invariant result == ConstraintAnnotations(env, collectionToFilter[..i])
    {
      var annotation := collectionToFilter[i];
      var isConstraint := IsConstraintAnnotation(env, annotation);
      ConstraintAnnotationsAppend(env, collectionToFilter[..i], [annotation]);
      assert collectionToFilter[..i + 1] == collectionToFilter[..i] + [annotation];
      if isConstraint {
        result := result + [annotation];
      }
      i := i + 1;
    }
    assert collectionToFilter[..i] == collectionToFilter;
  }

  /** The annotation type names occurring in `s`. */
  function TypeNames(s: seq<AnnotationMirror>): set<TypeName>
  {
    set a | a in s :: a.annotationType
  }

  /** Name containment stated mirror by mirror: each mirror of `b` has a mirror of the same
      annotation type in `a`. */
  lemma ContainsAllByMirror(a: seq<AnnotationMirror>, b: seq<AnnotationMirror>)
    ensures TypeNames(b) <= TypeNames(a) <==>
              forall y :: y in b ==> exists x :: x in a && x.annotationType == y.annotationType
  {
    if TypeNames(b) <= TypeNames(a) {
      forall y | y in b
        ensures exists x :: x in a && x.annotationType == y.annotationType
      {
        assert y.annotationType in TypeNames(b);
      }
    }
  }

  /** Every annotation type of `listShouldContain` occurs among those of `listToCheck`;
      element values are not compared. */
  method AnnotationMirrorContainsAll(listToCheck: seq<AnnotationMirror>, listShouldContain: seq<AnnotationMirror>) returns (r: bool)
    ensures r <==> TypeNames(listShouldContain) <= TypeNames(listToCheck)
    ensures r <==> forall y :: y in listShouldContain ==>
                      exists x :: x in listToCheck && x.annotationType == y.annotationType
    ensures listShouldContain == [] ==> r
  {
    ContainsAllByMirror(listToCheck, listShouldContain);
    var namesOfAnnotations: set<TypeName> := {};
    var i := 0;
    while i < |listToCheck|
      invariant 0 <= i <= |listToCheck|
      invariant namesOfAnnotations == TypeNames(listToCheck[..i])
    {
      assert listToCheck[..i + 1] == listToCheck[..i] + [listToCheck[i]];
      namesOfAnnotations := namesOfAnnotations + {listToCheck[i].annotationType};
      i := i + 1;
    }
    assert listToCheck[..i] == listToCheck;
    var j := 0;
    while j < |listShouldContain|
      invariant 0 <= j <= |listShouldContain|
      invariant TypeNames(listShouldContain[..j]) <= namesOfAnnotations
    {
      if listShouldContain[j].annotationType !in namesOfAnnotations {
        assert listShouldContain[j] in listShouldContain;
        return false;
      }
      assert listShouldContain[..j + 1] == listShouldContain[..j] + [listShouldContain[j]];
      j := j + 1;
    }
    assert listShouldContain[..j] == listShouldContain;
    return true;
  }
}
