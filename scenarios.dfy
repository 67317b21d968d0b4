/**
 * The conditions exercised by the library's own tests, over strings, with
 * three Hamcrest matchers given the meaning Hamcrest documents for them.
 * Each scenario calls the evaluation methods; its contract states the answer.
 */
module Scenarios {
  import opened Matchers
  import opened BooleanOperators
  import opened Bool
  import Evaluation

  /** The Hamcrest matchers the tests use on strings. */
  datatype HamcrestMatcher = EqualTo(expected: string) | StartsWith(prefix: string) | Anything

  function Hamcrest(h: HamcrestMatcher, item: string): bool
  {
    match h
    case EqualTo(e) => item == e
    case StartsWith(p) => p <= item
    case Anything => true
  }

  /** What the leaves of the tests answer for the names they are applied to. */
  lemma LeafAnswers()
    ensures Hamcrest(EqualTo("Alex"), "Alex") && !Hamcrest(EqualTo("Soto"), "Alex")
    ensures Hamcrest(EqualTo("Soto"), "Soto") && !Hamcrest(EqualTo("Alex"), "Soto")
    ensures Hamcrest(StartsWith("A"), "Alex") && Hamcrest(Anything, "Alex")
    ensures !Hamcrest(StartsWith("B"), "Alex") && !Hamcrest(StartsWith("C"), "Alex")
  {
    assert "Alex"[0] == 'A' && "Soto"[0] == 'S';
    assert "Alex"[..1] == "A";
  }

  function EqualToM(s: string): Matcher<HamcrestMatcher> { Leaf(EqualTo(s)) }
  function StartsWithM(s: string): Matcher<HamcrestMatcher> { Leaf(StartsWith(s)) }

  /** `the("Alex", is(equalTo("Alex")))` with Hamcrest's own `is`, a raw leaf. */
  method SimpleCondition() returns (r: bool)
    ensures r
  {
    r := The("Alex", EqualToM("Alex"), Hamcrest);
  }

  /** The conjunction truth table: both true, one false, both false. */
  method AndTruthTable() returns (both: bool, one: bool, none: bool)
    ensures both && !one && !none
  {
    LeafAnswers();
    AndSemantics(Be(EqualToM("Alex")), Be(StartsWithM("A")), Hamcrest, "Alex");
    AndSemantics(Be(EqualToM("Alex")), Be(StartsWithM("B")), Hamcrest, "Alex");
    AndSemantics(Be(EqualToM("Soto")), Be(StartsWithM("B")), Hamcrest, "Alex");
    both := The("Alex", And(Be(EqualToM("Alex")), Be(StartsWithM("A"))), Hamcrest);
    one := The("Alex", And(Be(EqualToM("Alex")), Be(StartsWithM("B"))), Hamcrest);
    none := The("Alex", And(Be(EqualToM("Soto")), Be(StartsWithM("B"))), Hamcrest);
  }

  /** The disjunction truth table: both true, one true, both false. */
  method OrTruthTable() returns (both: bool, one: bool, none: bool)
    ensures both && one && !none
  {
    LeafAnswers();
    OrSemantics(Be(EqualToM("Alex")), Be(StartsWithM("A")), Hamcrest, "Alex");
    OrSemantics(Be(EqualToM("Alex")), Be(StartsWithM("B")), Hamcrest, "Alex");
    OrSemantics(Be(EqualToM("Soto")), Be(StartsWithM("B")), Hamcrest, "Alex");
    both := The("Alex", Or(Be(EqualToM("Alex")), Be(StartsWithM("A"))), Hamcrest);
    one := The("Alex", Or(Be(EqualToM("Alex")), Be(StartsWithM("B"))), Hamcrest);
    none := The("Alex", Or(Be(EqualToM("Soto")), Be(StartsWithM("B"))), Hamcrest);
  }

  /** `a.and(b).or(c)`: the disjunction rescues a conjunction that fails at
      its first or at its second child, a failed conjunction with a failed `c`
      fails, and a holding conjunction holds. The conjunction stops at
      `equalTo("Soto")`, so `startsWith("B")` is never consulted. */
  method ChainedConditions() returns (rescued: bool, calls: seq<HamcrestMatcher>, rescuedAgain: bool, failed: bool, held: bool)
    ensures rescued && rescuedAgain && !failed && held
    ensures calls == [EqualTo("Soto"), Anything]
  {
    LeafAnswers();
    ChainNestsLeft(Be(EqualToM("Soto")), Be(StartsWithM("B")), Be(Leaf(Anything)), Hamcrest, "Alex");
    ChainNestsLeft(Be(EqualToM("Alex")), Be(StartsWithM("B")), Be(Leaf(Anything)), Hamcrest, "Alex");
    ChainNestsLeft(Be(EqualToM("Alex")), Be(StartsWithM("B")), Be(StartsWithM("C")), Hamcrest, "Alex");
    ChainNestsLeft(Be(EqualToM("Alex")), Be(StartsWithM("A")), Be(StartsWithM("C")), Hamcrest, "Alex");
    var chain := Or(And(Be(EqualToM("Soto")), Be(StartsWithM("B"))), Be(Leaf(Anything)));
    rescued, calls := Evaluation.Matches(chain, Hamcrest, "Alex");
    rescuedAgain := The("Alex", Or(And(Be(EqualToM("Alex")), Be(StartsWithM("B"))), Be(Leaf(Anything))), Hamcrest);
    failed := The("Alex", Or(And(Be(EqualToM("Alex")), Be(StartsWithM("B"))), Be(StartsWithM("C"))), Hamcrest);
    held := The("Alex", Or(And(Be(EqualToM("Alex")), Be(StartsWithM("A"))), Be(StartsWithM("C"))), Hamcrest);
  }

  /** The same three matchers nested to the right would give the opposite
      answer, so the left nesting of chaining is observable. */
  lemma RightNestingDiffers()
    ensures Eval(Or(And(Be(EqualToM("Soto")), Be(StartsWithM("B"))), Be(Leaf(Anything))), Hamcrest, "Alex")
    ensures !Eval(And(Be(EqualToM("Soto")), Or(Be(StartsWithM("B")), Be(Leaf(Anything)))), Hamcrest, "Alex")
  {
    LeafAnswers();
    ChainNestsLeft(Be(EqualToM("Soto")), Be(StartsWithM("B")), Be(Leaf(Anything)), Hamcrest, "Alex");
    AndSemantics(Be(EqualToM("Soto")), Or(Be(StartsWithM("B")), Be(Leaf(Anything))), Hamcrest, "Alex");
  }

  /** A condition on a second value, computed by `the` before chaining, joins
      a chain on the first value as a literal. */
  method MultipleValues() returns (andTrue: bool, andFalse: bool, orTrue: bool, orFalse: bool)
    ensures andTrue && !andFalse && orTrue && !orFalse
  {
    LeafAnswers();
    var surnameIsSoto := The("Soto", EqualToM("Soto"), Hamcrest);
    var surnameIsAlex := The("Soto", EqualToM("Alex"), Hamcrest);
    AndResultSemantics(Be(EqualToM("Alex")), surnameIsSoto, Hamcrest, "Alex");
    OrResultSemantics(Be(EqualToM("Soto")), surnameIsSoto, Hamcrest, "Alex");
    andTrue := The("Alex", AndResult(Be(EqualToM("Alex")), surnameIsSoto), Hamcrest);
    andFalse := The("Alex", AndResult(Be(EqualToM("Alex")), surnameIsAlex), Hamcrest);
    orTrue := The("Alex", OrResult(Be(EqualToM("Soto")), surnameIsSoto), Hamcrest);
    orFalse := The("Alex", OrResult(Be(EqualToM("Soto")), surnameIsAlex), Hamcrest);
  }
}
