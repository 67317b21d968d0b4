/**
 * The `matches` methods of the combinator layer. Each node kind answers
 * `matches(item)` its own way; `Matches` dispatches on the kind as Java's
 * virtual call does. Besides the answer, every method returns the Hamcrest
 * matchers it consulted, in order, so that short-circuiting is observable.
 */
module Evaluation {
  import opened Matchers

  /** `matches(item)` on any node of the tree. */
  method Matches<M, T>(m: Matcher<M>, ext: (M, T) -> bool, item: T) returns (r: bool, calls: seq<M>)
    ensures r == Eval(m, ext, item)
    ensures calls == Calls(m, ext, item)
    decreases m, 1
  {
    match m
    case Leaf(h) =>
      r := ext(h, item);
      calls := [h];
    case BeMatcher(w) =>
      // BeMatcher.matches hands the item to the wrapped matcher unchanged
      r, calls := Matches(w, ext, item);
    case BooleanMatcher(b) =>
      // the stored constant, whatever the item
      r, calls := b, [];
    case AndMatcher(_) =>
      var evaluated;
      r, evaluated, calls := AndMatches(m, ext, item);
    case OrMatcher(_) =>
      var evaluated;
      r, evaluated, calls := OrMatches(m, ext, item);
  }

  /** AndMatcher.matches: scans the children in order and answers false at the
      first child that does not match; `evaluated` is how many children were
      asked. */
  method AndMatches<M, T>(m: Matcher<M>, ext: (M, T) -> bool, item: T)
    returns (r: bool, evaluated: nat, calls: seq<M>)
    requires m.AndMatcher?
    ensures r <==> forall i :: 0 <= i < |m.children| ==> Eval(m.children[i], ext, item)
    ensures r ==> evaluated == |m.children|
    ensures !r ==> 0 < evaluated <= |m.children| && !Eval(m.children[evaluated - 1], ext, item)
    ensures forall i :: 0 <= i < evaluated - 1 ==> Eval(m.children[i], ext, item)
    ensures evaluated == AndStop(m.children, ext, item)
    ensures calls == PrefixCalls(m, evaluated, ext, item)
    ensures calls == Calls(m, ext, item)
    decreases m, 0
  {
    var cs := m.children;
    var i := 0;
    calls := [];
    while i < |cs|
      invariant 0 <= i <= |cs|
      invariant forall j :: 0 <= j < i ==> Eval(cs[j], ext, item)
      invariant calls == PrefixCalls(m, i, ext, item)
    {
      var ok, c := Matches(cs[i], ext, item);
      calls := calls + c;
      if !ok {
        assert AndStop(cs, ext, item) == i + 1;
        return false, i + 1, calls;
      }
      i := i + 1;
    }
    assert AndStop(cs, ext, item) == |cs|;
    return true, |cs|, calls;
  }

  /** OrMatcher.matches: scans the children in order and answers true at the
      first child that matches; `evaluated` is how many children were asked. */
  method OrMatches<M, T>(m: Matcher<M>, ext: (M, T) -> bool, item: T)
    returns (r: bool, evaluated: nat, calls: seq<M>)
    requires m.OrMatcher?
    ensures r <==> exists i :: 0 <= i < |m.children| && Eval(m.children[i], ext, item)
    ensures !r ==> evaluated == |m.children|
    ensures r ==> 0 < evaluated <= |m.children| && Eval(m.children[evaluated - 1], ext, item)
    ensures forall i :: 0 <= i < evaluated - 1 ==> !Eval(m.children[i], ext, item)
    ensures evaluated == OrStop(m.children, ext, item)
    ensures calls == PrefixCalls(m, evaluated, ext, item)
    ensures calls == Calls(m, ext, item)
    decreases m, 0
  {
    var cs := m.children;
    var i := 0;
    calls := [];
    while i < |cs|
      invariant 0 <= i <= |cs|
      invariant forall j :: 0 <= j < i ==> !Eval(cs[j], ext, item)
      invariant calls == PrefixCalls(m, i, ext, item)
    {
      var ok, c := Matches(cs[i], ext, item);
      calls := calls + c;
      if ok {
        assert OrStop(cs, ext, item) == i + 1;
        return true, i + 1, calls;
      }
      i := i + 1;
    }
    assert OrStop(cs, ext, item) == |cs|;
    return false, |cs|, calls;
  }
}
