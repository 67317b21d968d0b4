/**
 * The matcher tree of the `bool` library: every object that answers
 * `matches(item)` in the combinator layer, as one closed datatype, together
 * with the reference semantics against which the evaluation loops are proved.
 *
 * The Hamcrest matchers the layer wraps are foreign code. A leaf carries an
 * opaque handle of type `M`, and every semantic function takes the Hamcrest
 * behaviour as a parameter `ext: (M, T) -> bool` (what `handle.matches(item)`
 * answers for an item of type `T`).
 */
module Matchers {

  datatype Matcher<M> =
    | Leaf(external: M)                       // a Hamcrest matcher, used as is
    | BeMatcher(wrapped: Matcher<M>)          // BeMatcher: delegates to `wrapped`
    | BooleanMatcher(result: bool)            // BooleanOperatorsMatcher.BooleanMatcher
    | AndMatcher(children: seq<Matcher<M>>)   // AndMatcher over its `matchers` array
    | OrMatcher(children: seq<Matcher<M>>)    // OrMatcher over its `matchers` array

  /** Whether `m` is a BooleanOperatorsMatcher, the only kind of node that
      offers the `and`/`or` chaining operations: a BeMatcher, an AndMatcher or
      an OrMatcher. A raw Hamcrest leaf and a BooleanMatcher cannot chain. */
  predicate Chainable<M>(m: Matcher<M>)
  {
    m.BeMatcher? || m.AndMatcher? || m.OrMatcher?
  }

  /** Whether `m` matches `item`: a conjunction of all children, a disjunction
      of all children, delegation, or a constant. An empty conjunction holds,
      an empty disjunction does not. */
  function Eval<M, T>(m: Matcher<M>, ext: (M, T) -> bool, item: T): bool
  {
    match m
    case Leaf(h) => ext(h, item)
    case BeMatcher(w) => Eval(w, ext, item)
    case BooleanMatcher(b) => b
    case AndMatcher(cs) => forall i | 0 <= i < |cs| :: Eval(cs[i], ext, item)
    case OrMatcher(cs) => exists i | 0 <= i < |cs| :: Eval(cs[i], ext, item)
  }

  /** How many children a left-to-right conjunction consults: through the
      first child that fails, or all of them when none fails. */
  function AndStop<M, T>(cs: seq<Matcher<M>>, ext: (M, T) -> bool, item: T): (k: nat)
    ensures k <= |cs|
    ensures |cs| > 0 ==> k > 0
    ensures forall i :: 0 <= i < k - 1 ==> Eval(cs[i], ext, item)
    ensures k < |cs| ==> !Eval(cs[k - 1], ext, item)
  {
    if |cs| == 0 then 0
    else if !Eval(cs[0], ext, item) then 1
    else 1 + AndStop(cs[1..], ext, item)
  }

  /** How many children a left-to-right disjunction consults: through the
      first child that holds, or all of them when none holds. */
  function OrStop<M, T>(cs: seq<Matcher<M>>, ext: (M, T) -> bool, item: T): (k: nat)
    ensures k <= |cs|
    ensures |cs| > 0 ==> k > 0
    ensures forall i :: 0 <= i < k - 1 ==> !Eval(cs[i], ext, item)
    ensures k < |cs| ==> Eval(cs[k - 1], ext, item)
  {
    if |cs| == 0 then 0
    else if Eval(cs[0], ext, item) then 1
    else 1 + OrStop(cs[1..], ext, item)
  }

  /** The Hamcrest matchers that evaluating `m` on `item` consults, in the
      order it consults them, with every short cut taken. */
  function Calls<M, T>(m: Matcher<M>, ext: (M, T) -> bool, item: T): seq<M>
    decreases m, 1
  {
    match m
    case Leaf(h) => [h]
    case BeMatcher(w) => Calls(w, ext, item)
    case BooleanMatcher(_) => []
    case AndMatcher(cs) => PrefixCalls(m, AndStop(cs, ext, item), ext, item)
    case OrMatcher(cs) => PrefixCalls(m, OrStop(cs, ext, item), ext, item)
  }

  /** The calls made by the first `k` children of a combinator, in order. */
  function PrefixCalls<M, T>(m: Matcher<M>, k: nat, ext: (M, T) -> bool, item: T): seq<M>
    requires m.AndMatcher? || m.OrMatcher?
    requires k <= |m.children|
    decreases m, 0, k
  {
    if k == 0 then []
    else PrefixCalls(m, k - 1, ext, item) + Calls(m.children[k - 1], ext, item)
  }
}
