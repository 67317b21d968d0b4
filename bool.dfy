/**
 * The `Bool` facade: `the` applies a matcher to a value, and `be`, `is` and
 * `shouldBe` lift any matcher into the combinator layer as a BeMatcher.
 */
module Bool {
  import opened Matchers
  import Evaluation

  /** `the(element, matcher)`: the matcher's own answer for `element`, with
      nothing added. */
  method The<M, T>(element: T, matcher: Matcher<M>, ext: (M, T) -> bool) returns (r: bool)
    ensures r == Eval(matcher, ext, element)
  {
    var calls;
    r, calls := Evaluation.Matches(matcher, ext, element);
  }

  /** `be(matcher)`: a BeMatcher wrapping `matcher`. */
  function Be<M>(matcher: Matcher<M>): (r: Matcher<M>)
    ensures r.BeMatcher? && r.wrapped == matcher
  {
    BeMatcher(matcher)
  }

  /** `is(matcher)`: a BeMatcher wrapping `matcher`, as `be` builds. */
  function Is<M>(matcher: Matcher<M>): (r: Matcher<M>)
    ensures r.BeMatcher? && r.wrapped == matcher
  {
    Be(matcher)
  }

  /** `shouldBe(matcher)`: a BeMatcher wrapping `matcher`, as `be` builds. */
  function ShouldBe<M>(matcher: Matcher<M>): (r: Matcher<M>)
    ensures r.BeMatcher? && r.wrapped == matcher
  {
    Be(matcher)
  }

  /** Wrapping is transparent: a BeMatcher answers and consults exactly what
      the wrapped matcher does. */
  lemma BeDelegates<M, T>(matcher: Matcher<M>, ext: (M, T) -> bool, item: T)
    ensures Eval(Be(matcher), ext, item) == Eval(matcher, ext, item)
    ensures Calls(Be(matcher), ext, item) == Calls(matcher, ext, item)
  {
  }

  /** Wrapping twice is still transparent: `be(be(p))` evaluates as `p`. */
  lemma BeTwiceDelegates<M, T>(p: Matcher<M>, ext: (M, T) -> bool, item: T)
    ensures Eval(Be(Be(p)), ext, item) == Eval(p, ext, item)
    ensures Calls(Be(Be(p)), ext, item) == Calls(p, ext, item)
  {
    BeDelegates(Be(p), ext, item);
    BeDelegates(p, ext, item);
  }

  /** `be`, `is` and `shouldBe` are interchangeable: they build the same node,
      so they answer alike on every item. */
  lemma SynonymsAgree<M, T>(matcher: Matcher<M>, ext: (M, T) -> bool, item: T)
    ensures Is(matcher) == Be(matcher) && ShouldBe(matcher) == Be(matcher)
    ensures Eval(Is(matcher), ext, item) == Eval(matcher, ext, item)
    ensures Eval(ShouldBe(matcher), ext, item) == Eval(matcher, ext, item)
  {
  }
}
