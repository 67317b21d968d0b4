# bool: boolean combinators over Hamcrest matchers, in Dafny

The `bool` library lets Java callers write conditions such as
`the(name, be(equalTo("Alex")).and(be(startsWith("A"))))`. Its core is a small
layer of matchers that share one operation, `matches(item)`:

- `BeMatcher` wraps one Hamcrest matcher and hands every item to it.
- `AndMatcher` and `OrMatcher` keep a final array of child matchers. They scan
  it in order and stop at the first child that decides the answer.
- `BooleanOperatorsMatcher` is the base class. Its `and`/`or` methods build a
  new two-child node `[this, other]` and leave `this` unchanged. Its nested
  `BooleanMatcher` turns a boolean literal into a constant matcher.
- The `Bool` facade has `the(e, m)`, which is `m.matches(e)`, and
  `be`/`is`/`shouldBe`, which all build a `BeMatcher`.

In the model, every matcher is a value of one datatype, `Matchers.Matcher<M>`,
with one constructor per matcher class and `Leaf` for a Hamcrest matcher.
The `matches` methods of the source write no state. The fields of
`BeMatcher`, `AndMatcher` and `OrMatcher` are final, and nothing assigns
`BooleanMatcher.result` after its constructor, although that field is not
declared final. The model therefore represents each node as an immutable
datatype value. Two things in the source fall outside that picture and are
listed under "## Left out": the combinators keep the caller's array without
copying it, and a Hamcrest matcher could have effects of its own.

Hamcrest is foreign code. A leaf holds an opaque handle of type `M`. What
Hamcrest answers is the parameter `ext: (M, T) -> bool`, which every evaluation
function and method takes. Two reference functions give the meaning of a tree:
- `Eval` says whether it matches: all children for a conjunction, some child
  for a disjunction.
- `Calls` lists the Hamcrest matchers that a short-circuiting evaluation
  consults, in order.

Only a `BooleanOperatorsMatcher` (a `BeMatcher`, `AndMatcher` or `OrMatcher`)
has the `and`/`or` methods. A raw Hamcrest matcher and a `BooleanMatcher` do
not. The predicate `Matchers.Chainable` says which nodes can chain, and every
chaining function requires its receiver to be one. Any matcher may still be
the argument of `and`/`or` or a child of a combinator.

The `matches` loops of `AndMatcher` and `OrMatcher` are methods with `while`
loops (`Evaluation.AndMatches`, `Evaluation.OrMatches`). They return:
- the answer;
- how many children they asked;
- the Hamcrest calls made.

Each of the three is proved against `Eval` and `Calls`. `Evaluation.Matches`
dispatches on the node kind, as Java's virtual `matches` call does.

The
factories `AndMatcher.and(Matcher...)` and `OrMatcher.or(Matcher...)` check
nothing, so zero children are accepted. Then the loops answer `true` for a
conjunction and `false` for a disjunction. `BooleanOperators.EmptyCombinators`
states this.

Files:
- `matchers.dfy`: the datatype and reference semantics (module `Matchers`).
- `evaluation.dfy`: the `matches` methods (module `Evaluation`).
- `boolean_operators.dfy`: the factories and chaining (module `BooleanOperators`).
- `bool.dfy`: the facade (module `Bool`).
- `scenarios.dfy`: the conditions of the library's tests, with string matchers
  `equalTo`, `startsWith` and `anything` given their Hamcrest meaning (module
  `Scenarios`).

## Model

| member | source | states |
|---|---|---|
| Matchers.AndStop | src/main/java/com/lordofthejars/bool/function/matcher/AndMatcher.java:19 | the number of children a conjunction asks: through the first failing child, or all of them if none fails |
| Matchers.OrStop | src/main/java/com/lordofthejars/bool/function/matcher/OrMatcher.java:19 | the number of children a disjunction asks: through the first child that holds, or all of them if none holds |
| Evaluation.Matches | src/main/java/com/lordofthejars/bool/function/matcher/BeMatcher.java:13-15 | `matches` on any node, dispatched on its kind as Java's virtual call is, gives the answer `Eval` defines and consults exactly the Hamcrest matchers `Calls` lists; a BeMatcher delegates and a BooleanMatcher returns its constant and asks nothing (BooleanOperatorsMatcher.java:42-44); both are functions of the node and item, so repeated calls agree |
| Evaluation.AndMatches | src/main/java/com/lordofthejars/bool/function/matcher/AndMatcher.java:18-21 | true iff every child matches (true with no children); children are asked in order; on false exactly first-failure-index + 1 children were asked, otherwise all; the Hamcrest calls are exactly those of the first `evaluated` children |
| Evaluation.OrMatches | src/main/java/com/lordofthejars/bool/function/matcher/OrMatcher.java:18-21 | true iff some child matches (false with no children); children are asked in order; on true exactly first-success-index + 1 children were asked, otherwise all; the Hamcrest calls are exactly those of the first `evaluated` children |
| BooleanOperators.AndOf | src/main/java/com/lordofthejars/bool/function/matcher/AndMatcher.java:11-26 | the factory builds a conjunction that keeps the given children unchanged and in order |
| BooleanOperators.OrOf | src/main/java/com/lordofthejars/bool/function/matcher/OrMatcher.java:11-26 | the factory builds a disjunction that keeps the given children unchanged and in order |
| BooleanOperators.EmptyCombinators | src/main/java/com/lordofthejars/bool/function/matcher/AndMatcher.java:19-20 | with zero children a conjunction matches and a disjunction does not, and neither consults any Hamcrest matcher |
| BooleanOperators.And | src/main/java/com/lordofthejars/bool/function/matcher/BooleanOperatorsMatcher.java:11-13 | on a chainable receiver `x`, `x.and(m)` is a new chainable conjunction with exactly two children, `x` first and `m` second; `x` itself is a child unchanged |
| BooleanOperators.AndResult | src/main/java/com/lordofthejars/bool/function/matcher/BooleanOperatorsMatcher.java:16-18 | `x.and(b)` is a new conjunction of `x` and a BooleanMatcher holding `b` |
| BooleanOperators.Or | src/main/java/com/lordofthejars/bool/function/matcher/BooleanOperatorsMatcher.java:21-23 | on a chainable receiver `x`, `x.or(m)` is a new chainable disjunction with exactly two children, `x` first and `m` second |
| BooleanOperators.OrResult | src/main/java/com/lordofthejars/bool/function/matcher/BooleanOperatorsMatcher.java:26-28 | `x.or(b)` is a new disjunction of `x` and a BooleanMatcher holding `b` |
| BooleanOperators.BooleanMatcherIsConstant | src/main/java/com/lordofthejars/bool/function/matcher/BooleanOperatorsMatcher.java:34-44 | a BooleanMatcher answers its stored constant for every item and consults nothing |
| BooleanOperators.AndSemantics | src/main/java/com/lordofthejars/bool/function/matcher/BooleanOperatorsMatcher.java:11-13 | `x.and(m)` matches iff both do; its calls are those of `x`, then those of `m` only if `x` matched |
| BooleanOperators.OrSemantics | src/main/java/com/lordofthejars/bool/function/matcher/BooleanOperatorsMatcher.java:21-23 | `x.or(m)` matches iff either does; its calls are those of `x`, then those of `m` only if `x` did not match |
| BooleanOperators.AndResultSemantics | src/main/java/com/lordofthejars/bool/function/matcher/BooleanOperatorsMatcher.java:16-18 | `x.and(true)` matches exactly when `x` does; `x.and(false)` never matches; either way `x` is still consulted and nothing else is |
| BooleanOperators.OrResultSemantics | src/main/java/com/lordofthejars/bool/function/matcher/BooleanOperatorsMatcher.java:26-28 | `x.or(true)` always matches; `x.or(false)` matches exactly when `x` does; either way `x` is still consulted and nothing else is |
| BooleanOperators.LiteralFixedAtBuild | src/test/java/com/lordofthejars/bool/WhenBoolIsUsedInConditions.java:117-147 | a literal computed by `the` on another value keeps that value's answer whatever item the chain is later applied to |
| BooleanOperators.ChainNestsLeft | src/test/java/com/lordofthejars/bool/WhenBoolIsUsedInConditions.java:87-108 | `a.and(b).or(c)` is the binary tree Or[And[a, b], c], never flattened; it means `(a && b) \|\| c`, and the conjunction finishes before `c` is consulted |
| Bool.The | src/main/java/com/lordofthejars/bool/Bool.java:10-12 | `the(e, m)` is the matcher's own answer for `e`, with nothing added |
| Bool.Be | src/main/java/com/lordofthejars/bool/Bool.java:14-16 | `be(m)` is a BeMatcher wrapping `m` |
| Bool.Is | src/main/java/com/lordofthejars/bool/Bool.java:18-20 | `is(m)` is a BeMatcher wrapping `m` |
| Bool.ShouldBe | src/main/java/com/lordofthejars/bool/Bool.java:22-24 | `shouldBe(m)` is a BeMatcher wrapping `m` |
| Bool.BeDelegates | src/main/java/com/lordofthejars/bool/function/matcher/BeMatcher.java:13-15 | a BeMatcher answers and consults exactly what its wrapped matcher does on every item |
| Bool.BeTwiceDelegates | src/main/java/com/lordofthejars/bool/function/matcher/BeMatcher.java:9-15 | `be(be(p))` answers and consults exactly what `p` does |
| Bool.SynonymsAgree | src/main/java/com/lordofthejars/bool/Bool.java:14-24 | `is` and `shouldBe` build the same node as `be`, and all three answer as the wrapped matcher |
| Scenarios.SimpleCondition | src/test/java/com/lordofthejars/bool/WhenBoolIsUsedInConditions.java:26-32 | `the("Alex", is(equalTo("Alex")))` is true |
| Scenarios.AndTruthTable | src/test/java/com/lordofthejars/bool/WhenBoolIsUsedInConditions.java:47-63 | the conjunction truth table of the tests: both true gives true, one false gives false, both false gives false |
| Scenarios.OrTruthTable | src/test/java/com/lordofthejars/bool/WhenBoolIsUsedInConditions.java:65-81 | the disjunction truth table of the tests: both true gives true, one true gives true, both false gives false |
| Scenarios.ChainedConditions | src/test/java/com/lordofthejars/bool/WhenBoolIsUsedInConditions.java:83-109 | the four chained conditions give true, true, false and true, as the tests expect; in the first, `startsWith("B")` is never consulted |
| Scenarios.RightNestingDiffers | src/test/java/com/lordofthejars/bool/WhenBoolIsUsedInConditions.java:84-88 | for the same matchers, nesting to the right would answer false where the left nesting answers true |
| Scenarios.MultipleValues | src/test/java/com/lordofthejars/bool/WhenBoolIsUsedInConditions.java:111-149 | a condition on the surname, evaluated first and chained as a literal, gives the four answers the tests expect |

## Left out

- Hamcrest matchers (`equalTo`, `startsWith`, `anything`, `everyItem`, `greaterThan`, `containsInAnyOrder`, Hamcrest's own `is`): foreign library code. They are the opaque parameter `ext`. Only `Scenarios` gives three string matchers a concrete meaning.
- The collection tests (WhenBoolIsUsedInConditions.java:34-45) exercise only Hamcrest collection matchers through `the`. `Bool.The` covers them with a raw leaf.
- The lambdaj `having`/`on` test (WhenBoolIsUsedInConditions.java:163-169): reflection-based attribute access from a foreign library.
- `describeTo` and `Description`: empty description plumbing with no behaviour.
- The array a combinator keeps is the caller's own varargs array, not a copy (AndMatcher.java:11-12,24-25; OrMatcher.java:11-12,24-25). A caller of `AndMatcher.and(arr)` or `OrMatcher.or(arr)` who later writes into `arr` changes the node's answer. The model's children are an immutable `seq`, so this aliasing is not captured. The chaining methods `and`/`or` always pass a fresh two-element array, so only a direct factory call with an array the caller keeps can reach it.
- Hamcrest matchers are assumed deterministic and free of effects: `ext` is a function of the handle and the item. `calls` records which leaves are asked and in what order, but a leaf whose answer depends on earlier calls is not modelled. In the source, repeated `matches` calls agree only under this assumption.
- Exceptions raised inside a Hamcrest matcher: `ext` is a total function, so the model has no failures to propagate. The core itself catches nothing.
- A null matcher passed to `be` or to a factory: Dafny values cannot be null.
- Java generics, unchecked casts and the `@Factory` annotation: they have no runtime behaviour. Items have one type parameter `T`.
- Thread safety: the model has no concurrency. Immutability is given by datatype values.
- PerformanceTests.java: a timing benchmark with random inputs and no logic of its own.
