/**
 * Construction of combinator nodes: the static factories of AndMatcher and
 * OrMatcher and the chaining operations that every BooleanOperatorsMatcher
 * offers. Chaining never changes its receiver: it builds a new two-child node
 * whose first child is the receiver itself.
 */
module BooleanOperators {
  import opened Matchers

  /** AndMatcher.and(Matcher...): a conjunction over exactly the given
      children, kept in the given order; no children is accepted. */
  function AndOf<M>(ms: seq<Matcher<M>>): (r: Matcher<M>)
    ensures r.AndMatcher? && r.children == ms
  {
    AndMatcher(ms)
  }

  /** OrMatcher.or(Matcher...): a disjunction over exactly the given
      children, kept in the given order; no children is accepted. */
  function OrOf<M>(ms: seq<Matcher<M>>): (r: Matcher<M>)
    ensures r.OrMatcher? && r.children == ms
  {
    OrMatcher(ms)
  }

  /** `x.and(other)` */
  function And<M>(x: Matcher<M>, other: Matcher<M>): (r: Matcher<M>)
    requires Chainable(x)
    ensures Chainable(r)
    ensures r.AndMatcher? && |r.children| == 2
    ensures r.children[0] == x && r.children[1] == other
  {
    AndOf([x, other])
  }

  /** `x.and(result)`: the literal becomes a constant second child. */
  function AndResult<M>(x: Matcher<M>, result: bool): (r: Matcher<M>)
    requires Chainable(x)
    ensures Chainable(r)
    ensures r.AndMatcher? && |r.children| == 2
    ensures r.children[0] == x && r.children[1] == BooleanMatcher(result)
  {
    AndOf([x, BooleanMatcher(result)])
  }

  /** `x.or(other)` */
  function Or<M>(x: Matcher<M>, other: Matcher<M>): (r: Matcher<M>)
    requires Chainable(x)
    ensures Chainable(r)
    ensures r.OrMatcher? && |r.children| == 2
    ensures r.children[0] == x && r.children[1] == other
  {
    OrOf([x, other])
  }

  /** `x.or(result)`: the literal becomes a constant second child. */
  function OrResult<M>(x: Matcher<M>, result: bool): (r: Matcher<M>)
    requires Chainable(x)
    ensures Chainable(r)
    ensures r.OrMatcher? && |r.children| == 2
    ensures r.children[0] == x && r.children[1] == BooleanMatcher(result)
  {
    OrOf([x, BooleanMatcher(result)])
  }

  /** With no children (unchecked varargs), a conjunction matches every item
      and a disjunction none, and neither consults anything. */
  lemma EmptyCombinators<M, T>(ext: (M, T) -> bool, item: T)
    ensures Eval(AndOf<M>([]), ext, item) && Calls(AndOf<M>([]), ext, item) == []
    ensures !Eval(OrOf<M>([]), ext, item) && Calls(OrOf<M>([]), ext, item) == []
  {
  }

  /** A BooleanMatcher answers its stored constant for every item and
      consults nothing. */
  lemma BooleanMatcherIsConstant<M, T>(result: bool, ext: (M, T) -> bool, item: T)
    ensures Eval(Matcher<M>.BooleanMatcher(result), ext, item) == result
    ensures Calls(Matcher<M>.BooleanMatcher(result), ext, item) == []
  {
  }

  /** `x.and(other)` matches when both do; `other` is consulted only when `x`
      matched. */
  lemma AndSemantics<M, T>(x: Matcher<M>, other: Matcher<M>, ext: (M, T) -> bool, item: T)
    requires Chainable(x)
    ensures Eval(And(x, other), ext, item) == (Eval(x, ext, item) && Eval(other, ext, item))
    ensures Calls(And(x, other), ext, item)
         == Calls(x, ext, item) + (if Eval(x, ext, item) then Calls(other, ext, item) else [])
  {
    var r := And(x, other);
    assert Eval(r, ext, item) == (Eval(r.children[0], ext, item) && Eval(r.children[1], ext, item));
    if Eval(x, ext, item) {
      assert AndStop(r.children, ext, item) == 2;
      assert PrefixCalls(r, 1, ext, item) == Calls(x, ext, item);
    } else {
      assert AndStop(r.children, ext, item) == 1;
      assert PrefixCalls(r, 1, ext, item) == Calls(x, ext, item);
    }
  }

  /** `x.or(other)` matches when either does; `other` is consulted only when
      `x` did not match. */
  lemma OrSemantics<M, T>(x: Matcher<M>, other: Matcher<M>, ext: (M, T) -> bool, item: T)
    requires Chainable(x)
    ensures Eval(Or(x, other), ext, item) == (Eval(x, ext, item) || Eval(other, ext, item))
    ensures Calls(Or(x, other), ext, item)
         == Calls(x, ext, item) + (if Eval(x, ext, item) then [] else Calls(other, ext, item))
  {
    var r := Or(x, other);
    assert Eval(r, ext, item) == (Eval(r.children[0], ext, item) || Eval(r.children[1], ext, item));
    if Eval(x, ext, item) {
      assert OrStop(r.children, ext, item) == 1;
      assert PrefixCalls(r, 1, ext, item) == Calls(x, ext, item);
    } else {
      assert OrStop(r.children, ext, item) == 2;
      assert PrefixCalls(r, 1, ext, item) == Calls(x, ext, item);
    }
  }

  /** `x.and(true)` behaves as `x`; `x.and(false)` never matches, yet `x` is
      still consulted first. */
  lemma AndResultSemantics<M, T>(x: Matcher<M>, result: bool, ext: (M, T) -> bool, item: T)
    requires Chainable(x)
    ensures Eval(AndResult(x, true), ext, item) == Eval(x, ext, item)
    ensures !Eval(AndResult(x, false), ext, item)
    ensures Calls(AndResult(x, result), ext, item) == Calls(x, ext, item)
  {
    AndSemantics(x, BooleanMatcher(true), ext, item);
    AndSemantics(x, BooleanMatcher(false), ext, item);
  }

  /** `x.or(true)` always matches; `x.or(false)` behaves as `x`; either way
      `x` is consulted first and nothing else is. */
  lemma OrResultSemantics<M, T>(x: Matcher<M>, result: bool, ext: (M, T) -> bool, item: T)
    requires Chainable(x)
    ensures Eval(OrResult(x, true), ext, item)
    ensures Eval(OrResult(x, false), ext, item) == Eval(x, ext, item)
    ensures Calls(OrResult(x, result), ext, item) == Calls(x, ext, item)
  {
    OrSemantics(x, BooleanMatcher(true), ext, item);
    OrSemantics(x, BooleanMatcher(false), ext, item);
  }

  /** The literal is fixed when the node is built: a boolean computed on some
      other value keeps that value's answer, whatever item the chain is later
      applied to. */
  lemma LiteralFixedAtBuild<M, T>(x: Matcher<M>, p: Matcher<M>, other: T, ext: (M, T) -> bool, item: T)
    requires Chainable(x)
    ensures Eval(AndResult(x, Eval(p, ext, other)), ext, item) == (Eval(x, ext, item) && Eval(p, ext, other))
    ensures Eval(OrResult(x, Eval(p, ext, other)), ext, item) == (Eval(x, ext, item) || Eval(p, ext, other))
  {
    AndSemantics(x, BooleanMatcher(Eval(p, ext, other)), ext, item);
    OrSemantics(x, BooleanMatcher(Eval(p, ext, other)), ext, item);
  }

  /** Chaining nests to the left and is never flattened: `a.and(b).or(c)` is
      a two-child disjunction whose first child is the two-child conjunction,
      it means `(a && b) || c`, and the conjunction is finished before `c` is
      consulted. */
  lemma ChainNestsLeft<M, T>(a: Matcher<M>, b: Matcher<M>, c: Matcher<M>, ext: (M, T) -> bool, item: T)
    requires Chainable(a)
    ensures Or(And(a, b), c) == OrMatcher([AndMatcher([a, b]), c])
    ensures Eval(Or(And(a, b), c), ext, item)
        == ((Eval(a, ext, item) && Eval(b, ext, item)) || Eval(c, ext, item))
    ensures Calls(Or(And(a, b), c), ext, item)
         == Calls(a, ext, item)
          + (if Eval(a, ext, item) then Calls(b, ext, item) else [])
          + (if Eval(a, ext, item) && Eval(b, ext, item) then [] else Calls(c, ext, item))
  {
    AndSemantics(a, b, ext, item);
    OrSemantics(And(a, b), c, ext, item);
  }
}
