/**
 * Discovery of the methods a method overrides: the superclass chain up to (not
 * including) `java.lang.Object`, and at every level the directly implemented
 * interfaces. Each type examined contributes at most one overridden method.
 */
module OverrideDiscovery {
  import opened Optional
  import opened JavaModel

  /** `e` is a method and `current`, viewed as a member of `currentType`, overrides it. */
  predicate IsOverriddenBy(env: Env, currentType: TypeName, current: Element, e: Element)
  {
    e.kind == Method && env.overrides(current, e, currentType)
  }

  /** `e` is the first element of `members` that `current` overrides. */
  ghost predicate IsFirstOverridden(env: Env, currentType: TypeName, current: Element, members: seq<Element>, e: Element)
  {
    exists i :: 0 <= i < |members| && members[i] == e && IsOverriddenBy(env, currentType, current, members[i])
      && forall j :: 0 <= j < i ==> !IsOverriddenBy(env, currentType, current, members[j])
  }

  /** The scan over one type's members: the first method that `current` overrides. */
  function FirstOverridden(env: Env, currentType: TypeName, current: Element, members: seq<Element>): (r: Option<Element>)
    ensures r.None? <==> forall i :: 0 <= i < |members| ==> !IsOverriddenBy(env, currentType, current, members[i])
    ensures r.Some? ==> IsFirstOverridden(env, currentType, current, members, r.value)
  {
    if members == [] then None
    else if IsOverriddenBy(env, currentType, current, members[0]) then Some(members[0])
    else
      var r := FirstOverridden(env, currentType, current, members[1..]);
      FirstOverriddenTail(env, currentType, current, members, r);
      r
  }

  /** When the head is not overridden, the scan's answer for the tail is its answer for the whole list. */
  lemma FirstOverriddenTail(env: Env, currentType: TypeName, current: Element, members: seq<Element>, r: Option<Element>)
    requires members != [] && !IsOverriddenBy(env, currentType, current, members[0])
    requires r.None? <==> forall i :: 0 <= i < |members[1..]| ==> !IsOverriddenBy(env, currentType, current, members[1..][i])
    requires r.Some? ==> IsFirstOverridden(env, currentType, current, members[1..], r.value)
    ensures r.None? <==> forall i :: 0 <= i < |members| ==> !IsOverriddenBy(env, currentType, current, members[i])
    ensures r.Some? ==> IsFirstOverridden(env, currentType, current, members, r.value)
  {
    if r.Some? {
      var i :| 0 <= i < |members[1..]| && members[1..][i] == r.value && IsOverriddenBy(env, currentType, current, members[1..][i])
        && forall j :: 0 <= j < i ==> !IsOverriddenBy(env, currentType, current, members[1..][j]);
      assert members[i + 1] == r.value;
      forall j | 0 <= j < i + 1
        ensures !IsOverriddenBy(env, currentType, current, members[j])
      {
        if j > 0 { assert members[j] == members[1..][j - 1]; }
      }
    } else {
      forall i | 0 <= i < |members|
        ensures !IsOverriddenBy(env, currentType, current, members[i])
      {
        if i > 0 { assert members[i] == members[1..][i - 1]; }
      }
    }
  }

  /** The method of `otherType` that `current` overrides, if any; never one of `java.lang.Object`. */
  function GetOverriddenElement(env: Env, currentType: TypeName, otherType: TypeName, current: Element): (r: Option<Element>)
    ensures otherType == JavaLangObject ==> r.None?
    ensures otherType != JavaLangObject ==>
              (r.None? <==> forall e :: e in env.allMembersOf(otherType) ==> !IsOverriddenBy(env, currentType, current, e))
    ensures r.Some? ==> IsFirstOverridden(env, currentType, current, env.allMembersOf(otherType), r.value)
  {
    if otherType == JavaLangObject then None
    else FirstOverridden(env, currentType, current, env.allMembersOf(otherType))
  }

  /** The overridden methods found in `types`, one at most per type, in the order of `types`. */
  function CheckInterfacesForOverriddenMethod(env: Env, currentType: TypeName, types: seq<TypeName>, current: Element): (r: seq<Element>)
    ensures |r| <= |types|
  {
    if types == [] then []
    else ToSeq(GetOverriddenElement(env, currentType, types[0], current))
         + CheckInterfacesForOverriddenMethod(env, currentType, types[1..], current)
  }

  /** Exactly the matches of the scanned types are found: each found method is some type's match,
      and each type's match is found. */
  lemma {:induction false} CheckInterfacesMembers(env: Env, currentType: TypeName, types: seq<TypeName>, current: Element)
    ensures forall e :: e in CheckInterfacesForOverriddenMethod(env, currentType, types, current) <==>
              exists i :: 0 <= i < |types| && GetOverriddenElement(env, currentType, types[i], current) == Some(e)
  {
    if types != [] {
      CheckInterfacesMembers(env, currentType, types[1..], current);
      assert forall i :: 1 <= i < |types| ==> types[i] == types[1..][i - 1];
      forall e | exists i :: 0 <= i < |types| && GetOverriddenElement(env, currentType, types[i], current) == Some(e)
        ensures e in CheckInterfacesForOverriddenMethod(env, currentType, types, current)
      {
        var i :| 0 <= i < |types| && GetOverriddenElement(env, currentType, types[i], current) == Some(e);
        if i > 0 {
          assert types[1..][i - 1] == types[i];
        }
      }
    }
  }

  /** Order preservation: scanning two lists of types one after the other is scanning their concatenation. */
  lemma {:induction false} CheckInterfacesAppend(env: Env, currentType: TypeName, a: seq<TypeName>, b: seq<TypeName>, current: Element)
    ensures CheckInterfacesForOverriddenMethod(env, currentType, a + b, current)
         == CheckInterfacesForOverriddenMethod(env, currentType, a, current)
          + CheckInterfacesForOverriddenMethod(env, currentType, b, current)
  {
    if a != [] {
      ConcatTail(a, b);
      CheckInterfacesAppend(env, currentType, a[1..], b, current);
    } else {
      assert a + b == b;
    }
  }

  /** Each class of `classes` followed by its direct interfaces. */
  function LevelTypes(env: Env, classes: seq<TypeName>): (ts: seq<TypeName>)
    ensures forall c :: c in classes ==> c in ts
  {
    if classes == [] then []
    else [classes[0]] + env.interfacesOf(classes[0]) + LevelTypes(env, classes[1..])
  }

  /** Every type whose members the discovery looks at, in the order it looks at them: the
      current type's interfaces, then each superclass below `java.lang.Object` followed by its interfaces. */
  function ExaminedTypes(env: Env, currentType: TypeName): seq<TypeName>
    requires SuperclassReachesObject(env, currentType)
  {
    env.interfacesOf(currentType) + LevelTypes(env, SuperclassChain(env, env.superclassOf(currentType).value))
  }

  /** The methods overridden by `current`, declared in `currentType`, in discovery order. */
  function OverriddenMethods(env: Env, currentType: TypeName, current: Element): seq<Element>
    requires SuperclassReachesObject(env, currentType)
  {
    CheckInterfacesForOverriddenMethod(env, currentType, ExaminedTypes(env, currentType), current)
  }

  /** The walk itself: interfaces of the current type, then up the superclass chain. */
  method FindAllOverriddenElements(env: Env, currentType: TypeName, current: Element) returns (elements: seq<Element>)
    requires SuperclassReachesObject(env, currentType)
    ensures elements == OverriddenMethods(env, currentType, current)
    ensures |elements| <= |ExaminedTypes(env, currentType)|
    ensures forall e :: e in elements ==> IsOverriddenBy(env, currentType, current, e)
  {
    var parent := env.superclassOf(currentType).value;
    elements := CheckInterfacesForOverriddenMethod(env, currentType, env.interfacesOf(currentType), current);
    ghost var done := env.interfacesOf(currentType);
    while parent != JavaLangObject
      invariant ReachesObject(env, parent)
      invariant ExaminedTypes(env, currentType) == done + LevelTypes(env, SuperclassChain(env, parent))
      invariant elements == CheckInterfacesForOverriddenMethod(env, currentType, done, current)
      decreases Depth(env, parent)
    {
      var element := GetOverriddenElement(env, currentType, parent, current);
      ghost var before := elements;
      if element.Some? {
        elements := elements + [element.value];
      }
      assert elements == before + ToSeq(element);
      elements := elements + CheckInterfacesForOverriddenMethod(env, currentType, env.interfacesOf(parent), current);
      DepthOfSuperclass(env, parent);
      WalkStepTypes(env, done, parent);
      WalkStepMatches(env, currentType, current, done, parent);
      done := done + [parent] + env.interfacesOf(parent);
      parent := env.superclassOf(parent).value;
    }
    WalkFinished(env, currentType, current, done, parent, elements);
  }

  /** When the walk reaches `java.lang.Object`, every examined type has been scanned. */
  lemma WalkFinished(env: Env, currentType: TypeName, current: Element, done: seq<TypeName>, parent: TypeName, elements: seq<Element>)
    requires SuperclassReachesObject(env, currentType)
    requires ReachesObject(env, parent) && parent == JavaLangObject
    requires ExaminedTypes(env, currentType) == done + LevelTypes(env, SuperclassChain(env, parent))
    requires elements == CheckInterfacesForOverriddenMethod(env, currentType, done, current)
    ensures elements == OverriddenMethods(env, currentType, current)
    ensures |elements| <= |ExaminedTypes(env, currentType)|
    ensures forall e :: e in elements ==> IsOverriddenBy(env, currentType, current, e)
  {
    assert SuperclassChain(env, parent) == [];
    ConcatEmpty(done);
    assert done == ExaminedTypes(env, currentType);
    OverriddenMethodsAreOverridden(env, currentType, current);
  }

  lemma OverriddenMethodsAreOverridden(env: Env, currentType: TypeName, current: Element)
    requires SuperclassReachesObject(env, currentType)
    ensures forall e :: e in OverriddenMethods(env, currentType, current) ==> IsOverriddenBy(env, currentType, current, e)
  {
    forall e | e in OverriddenMethods(env, currentType, current)
      ensures IsOverriddenBy(env, currentType, current, e)
    {
      DiscoveredAreFirstOverridden(env, currentType, current, e);
    }
  }

  /** One iteration of the walk moves `parent` from the unexamined suffix of the examined types to their prefix. */
  lemma WalkStepTypes(env: Env, done: seq<TypeName>, parent: TypeName)
    requires SuperclassReachesObject(env, parent) && parent != JavaLangObject
    requires ReachesObject(env, parent)
    ensures done + LevelTypes(env, SuperclassChain(env, parent))
         == (done + [parent] + env.interfacesOf(parent)) + LevelTypes(env, SuperclassChain(env, env.superclassOf(parent).value))
  {
    SuperclassChainCons(env, parent);
    var rest := SuperclassChain(env, env.superclassOf(parent).value);
    LevelTypesCons(env, parent, rest);
    ConcatAssoc(done, [parent], env.interfacesOf(parent));
    ConcatAssoc(done, [parent] + env.interfacesOf(parent), LevelTypes(env, rest));
  }

  /** Dropping the head of a concatenation drops the head of its non-empty first part. */
  lemma ConcatTail<T>(a: seq<T>, b: seq<T>)
    requires a != []
    ensures (a + b)[1..] == a[1..] + b
  {
  }

  /** Appending nothing changes nothing. */
  lemma ConcatEmpty<T>(a: seq<T>)
    ensures a + [] == a
  {
  }

  /** Concatenation is associative. */
  lemma ConcatAssoc<T>(a: seq<T>, b: seq<T>, c: seq<T>)
    ensures a + (b + c) == (a + b) + c
  {
  }

  /** The levels of a chain are its first class, that class's interfaces, then the levels of the rest. */
  lemma LevelTypesCons(env: Env, c: TypeName, rest: seq<TypeName>)
    ensures LevelTypes(env, [c] + rest) == [c] + env.interfacesOf(c) + LevelTypes(env, rest)
  {
    assert ([c] + rest)[1..] == rest;
  }

  /** One iteration of the walk appends the class's own match and then its interfaces' matches. */
  lemma WalkStepMatches(env: Env, currentType: TypeName, current: Element, done: seq<TypeName>, parent: TypeName)
    ensures CheckInterfacesForOverriddenMethod(env, currentType, done + [parent] + env.interfacesOf(parent), current)
         == CheckInterfacesForOverriddenMethod(env, currentType, done, current)
          + ToSeq(GetOverriddenElement(env, currentType, parent, current))
          + CheckInterfacesForOverriddenMethod(env, currentType, env.interfacesOf(parent), current)
  {
    CheckInterfacesAppend(env, currentType, done, [parent], current);
    CheckInterfacesAppend(env, currentType, done + [parent], env.interfacesOf(parent), current);
    assert CheckInterfacesForOverriddenMethod(env, currentType, [parent], current)
        == ToSeq(GetOverriddenElement(env, currentType, parent, current));
  }

  /** Discovery order: when the immediate superclass is `java.lang.Object` only the current type's
      interfaces are consulted; otherwise they come first, then the superclass's own match, then
      its interfaces' matches, then the rest of the chain. */
  lemma DiscoveryOrder(env: Env, currentType: TypeName, current: Element)
    requires SuperclassReachesObject(env, currentType)
    ensures var s := env.superclassOf(currentType).value;
            s == JavaLangObject ==>
              OverriddenMethods(env, currentType, current)
              == CheckInterfacesForOverriddenMethod(env, currentType, env.interfacesOf(currentType), current)
    ensures var s := env.superclassOf(currentType).value;
            s != JavaLangObject ==>
              SuperclassReachesObject(env, s) &&
              OverriddenMethods(env, currentType, current)
              == CheckInterfacesForOverriddenMethod(env, currentType, env.interfacesOf(currentType), current)
               + ToSeq(GetOverriddenElement(env, currentType, s, current))
               + CheckInterfacesForOverriddenMethod(env, currentType, env.interfacesOf(s), current)
               + CheckInterfacesForOverriddenMethod(env, currentType, LevelTypes(env, SuperclassChain(env, env.superclassOf(s).value)), current)
  {
    var s := env.superclassOf(currentType).value;
    var ifs := env.interfacesOf(currentType);
    if s == JavaLangObject {
      assert ExaminedTypes(env, currentType) == ifs;
    } else {
      DepthOfSuperclass(env, s);
      WalkStepTypes(env, ifs, s);
      var rest := LevelTypes(env, SuperclassChain(env, env.superclassOf(s).value));
      CheckInterfacesAppend(env, currentType, ifs + [s] + env.interfacesOf(s), rest, current);
      WalkStepMatches(env, currentType, current, ifs, s);
    }
  }

  /** Soundness: every discovered method is a method member of an examined type other than
      `java.lang.Object`, and the first one of that type's members that `current` overrides. */
  lemma DiscoveredAreFirstOverridden(env: Env, currentType: TypeName, current: Element, e: Element)
    requires SuperclassReachesObject(env, currentType)
    requires e in OverriddenMethods(env, currentType, current)
    ensures IsOverriddenBy(env, currentType, current, e)
    ensures exists t :: t in ExaminedTypes(env, currentType) && t != JavaLangObject
                        && IsFirstOverridden(env, currentType, current, env.allMembersOf(t), e)
  {
    var ts := ExaminedTypes(env, currentType);
    CheckInterfacesMembers(env, currentType, ts, current);
    var i :| 0 <= i < |ts| && GetOverriddenElement(env, currentType, ts[i], current) == Some(e);
    assert ts[i] in ts;
  }

  /** Completeness: for every examined type some of whose members `current` overrides, the first
      such member is discovered. */
  lemma ExaminedMatchesAreDiscovered(env: Env, currentType: TypeName, current: Element, t: TypeName, e: Element)
    requires SuperclassReachesObject(env, currentType)
    requires t in ExaminedTypes(env, currentType) && t != JavaLangObject
    requires IsFirstOverridden(env, currentType, current, env.allMembersOf(t), e)
    ensures e in OverriddenMethods(env, currentType, current)
  {
    var ts := ExaminedTypes(env, currentType);
    var k :| 0 <= k < |ts| && ts[k] == t;
    var members := env.allMembersOf(t);
    var r := GetOverriddenElement(env, currentType, t, current);
    var i :| 0 <= i < |members| && members[i] == e && IsOverriddenBy(env, currentType, current, members[i])
             && forall j :: 0 <= j < i ==> !IsOverriddenBy(env, currentType, current, members[j]);
    assert r.Some?;
    var i' :| 0 <= i' < |members| && members[i'] == r.value && IsOverriddenBy(env, currentType, current, members[i'])
              && forall j :: 0 <= j < i' ==> !IsOverriddenBy(env, currentType, current, members[j]);
    assert i == i';
    CheckInterfacesMembers(env, currentType, ts, current);
  }
}
