/**
 * The override-consistency check of a method against every method it
 * overrides (the rules of section 5.6.5 of the Jakarta Bean Validation
 * specification, "Method constraints in inheritance hierarchies"). The
 * consistency predicate and the "anything to check at all" predicate belong to
 * the concrete checks and stay abstract here.
 */
module MethodOverrideCheck {
  import opened JavaModel
  import opened OverrideDiscovery

  /** A reported problem: the method under investigation and the qualified name of
      the type whose declaration it conflicts with. The message key is left abstract, and two
      errors are taken to be equal exactly when both parts are. */
  datatype CheckError = CheckError(element: Element, typeName: TypeName)

  /** The two hooks a concrete check supplies. */
  datatype OverrideRules = OverrideRules(
    needToPerformAnyChecks: Element -> bool,
    checkOverriddenMethod: (Element, Element) -> bool)

  /** Errors of the pairwise phase: for every ordered pair of distinct overridden methods that
      fails the consistency predicate, the error naming the second one's enclosing type. Being a
      set, it holds one error per such type, however many failing pairs share it. */
  function PairwiseErrors(rules: OverrideRules, current: Element, overridden: seq<Element>): set<CheckError>
  {
    set i, j | 0 <= i < |overridden| && 0 <= j < |overridden| && overridden[i] != overridden[j]
                 && !rules.checkOverriddenMethod(overridden[i], overridden[j])
      :: CheckError(current, overridden[j].enclosing)
  }

  /** `k` is the first overridden method that `current` is inconsistent with. */
  predicate IsFirstFailure(rules: OverrideRules, current: Element, overridden: seq<Element>, k: int)
  {
    && 0 <= k < |overridden|
    && !rules.checkOverriddenMethod(current, overridden[k])
    && forall j :: 0 <= j < k ==> rules.checkOverriddenMethod(current, overridden[j])
  }

  /** Pairwise errors of the pairs visited so far: all of rows `0 .. row - 1`, and columns
      `0 .. col - 1` of row `row`. */
  function PairwiseErrorsUpTo(rules: OverrideRules, current: Element, overridden: seq<Element>, row: nat, col: nat): set<CheckError>
  {
    set i, j | 0 <= i < |overridden| && 0 <= j < |overridden| && (i < row || (i == row && j < col))
                 && overridden[i] != overridden[j] && !rules.checkOverriddenMethod(overridden[i], overridden[j])
      :: CheckError(current, overridden[j].enclosing)
  }

  /** The pairwise phase: every ordered pair, the same method never compared with itself,
      every failure added to the set without stopping. */
  method CheckPairwise(rules: OverrideRules, current: Element, overridden: seq<Element>) returns (errors: set<CheckError>)
    ensures errors == PairwiseErrors(rules, current, overridden)
  {
    errors := {};
    var i := 0;
    while i < |overridden|
      invariant 0 <= i <= |overridden|
      invariant errors == PairwiseErrorsUpTo(rules, current, overridden, i, 0)
    {
      var j := 0;
      while j < |overridden|
        invariant 0 <= j <= |overridden|
        invariant errors == PairwiseErrorsUpTo(rules, current, overridden, i, j)
      {
        if overridden[i] != overridden[j] && !rules.checkOverriddenMethod(overridden[i], overridden[j]) {
          errors := errors + {CheckError(current, overridden[j].enclosing)};
        }
        j := j + 1;
      }
      assert PairwiseErrorsUpTo(rules, current, overridden, i, j) == PairwiseErrorsUpTo(rules, current, overridden, i + 1, 0);
      i := i + 1;
    }
    assert PairwiseErrorsUpTo(rules, current, overridden, i, 0) == PairwiseErrors(rules, current, overridden);
  }

  /** The single-method phase: the current method against each overridden one in
      discovery order, stopping at the first inconsistency. */
  method CheckAgainstOverridden(rules: OverrideRules, current: Element, overridden: seq<Element>) returns (errors: set<CheckError>)
    ensures |errors| <= 1
    ensures errors == {} <==> forall k :: 0 <= k < |overridden| ==> rules.checkOverriddenMethod(current, overridden[k])
    ensures errors != {} ==>
              exists k :: IsFirstFailure(rules, current, overridden, k)
                          && errors == {CheckError(current, overridden[k].enclosing)}
  {
    var k := 0;
    while k < |overridden|
      invariant 0 <= k <= |overridden|
      invariant forall j :: 0 <= j < k ==> rules.checkOverriddenMethod(current, overridden[j])
    {
      if !rules.checkOverriddenMethod(current, overridden[k]) {
        assert IsFirstFailure(rules, current, overridden, k);
        return {CheckError(current, overridden[k].enclosing)};
      }
      k := k + 1;
    }
    return {};
  }

  /** The whole check for one method. An empty result means "no errors". */
  method CheckMethod(env: Env, rules: OverrideRules, current: Element) returns (errors: set<CheckError>)
    requires rules.needToPerformAnyChecks(current) ==> SuperclassReachesObject(env, current.enclosing)
    ensures !rules.needToPerformAnyChecks(current) ==> errors == {}
    ensures rules.needToPerformAnyChecks(current) ==>
              var overridden := OverriddenMethods(env, current.enclosing, current);
              var pairwise := PairwiseErrors(rules, current, overridden);
              && (overridden == [] ==> errors == {})
              && (pairwise != {} ==> errors == pairwise)
              && (pairwise == {} ==> |errors| <= 1)
              && (pairwise == {} ==>
                    (errors == {} <==> forall k :: 0 <= k < |overridden| ==> rules.checkOverriddenMethod(current, overridden[k])))
              && (pairwise == {} && errors != {} ==>
                    exists k :: IsFirstFailure(rules, current, overridden, k)
                                && errors == {CheckError(current, overridden[k].enclosing)})
  {
    if !rules.needToPerformAnyChecks(current) {
      return {};
    }
    var overridden := FindAllOverriddenElements(env, current.enclosing, current);
    if overridden == [] {
      return {};
    }
    errors := CheckPairwise(rules, current, overridden);
    if errors != {} {
      return errors;
    }
    errors := CheckAgainstOverridden(rules, current, overridden);
  }

  /** The pairwise phase reports nothing exactly when every ordered pair of distinct
      overridden methods is consistent; a failing pair is reported under the second's type. */
  lemma PairwiseErrorsEmptyIff(rules: OverrideRules, current: Element, overridden: seq<Element>)
    ensures PairwiseErrors(rules, current, overridden) == {} <==>
              forall i, j :: 0 <= i < |overridden| && 0 <= j < |overridden| && overridden[i] != overridden[j]
                             ==> rules.checkOverriddenMethod(overridden[i], overridden[j])
  {
    forall i, j | 0 <= i < |overridden| && 0 <= j < |overridden| && overridden[i] != overridden[j]
                  && !rules.checkOverriddenMethod(overridden[i], overridden[j])
      ensures CheckError(current, overridden[j].enclosing) in PairwiseErrors(rules, current, overridden)
    {
    }
  }

  /** The pairwise errors are exactly the errors naming a type that encloses the second method
      of some failing pair. */
  lemma PairwiseErrorsByType(rules: OverrideRules, current: Element, overridden: seq<Element>, name: TypeName)
    ensures CheckError(current, name) in PairwiseErrors(rules, current, overridden) <==>
              exists i, j :: 0 <= i < |overridden| && 0 <= j < |overridden| && overridden[i] != overridden[j]
                             && !rules.checkOverriddenMethod(overridden[i], overridden[j])
                             && overridden[j].enclosing == name
  {
  }

  /** A method is never compared with itself: when the overridden methods are all the same
      declaration (the same interface reached twice, say), the pairwise phase reports nothing,
      whatever the consistency predicate says. */
  lemma NoSelfComparison(rules: OverrideRules, current: Element, overridden: seq<Element>)
    requires forall i :: 0 <= i < |overridden| ==> overridden[i] == overridden[0]
    ensures PairwiseErrors(rules, current, overridden) == {}
  {
  }

  /** Every pairwise error names the enclosing type of the second method of a failing pair. */
  lemma PairwiseErrorNamesSecond(rules: OverrideRules, current: Element, overridden: seq<Element>, e: CheckError)
    requires e in PairwiseErrors(rules, current, overridden)
    ensures e.element == current
    ensures exists i, j :: 0 <= i < |overridden| && 0 <= j < |overridden| && overridden[i] != overridden[j]
                           && !rules.checkOverriddenMethod(overridden[i], overridden[j])
                           && e.typeName == overridden[j].enclosing
  {
  }
}
