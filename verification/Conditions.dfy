/** Condition trees: the negation-free combinations of indicators a rule requires or an override is
    conditioned on, with the three-valued reading the runtime uses and the Boolean reading the
    authoring tool uses. */
module Conditions {
  import opened Ids
  import opened Kleene

  type Positive = n: nat | n >= 1 witness 1

  datatype Cond =
    | Leaf(id: Id)
    | AllOf(of: seq<Cond>)
    | AnyOf(of: seq<Cond>)
    | NOf(n: Positive, of: seq<Cond>)

  /** An operand with no reading is Unknown: missing information is not negative evidence. */
  function Lookup(t: map<Id, Truth>, id: Id): Truth {
    if id in t then t[id] else Unknown
  }

  function Eval(c: Cond, t: map<Id, Truth>): Truth
    decreases c, 1
  {
    match c
    case Leaf(id) => Lookup(t, id)
    case AllOf(of) => All(EvalEach(of, t))
    case AnyOf(of) => Any(EvalEach(of, t))
    case NOf(n, of) => AtLeast(n, EvalEach(of, t))
  }

  function EvalEach(cs: seq<Cond>, t: map<Id, Truth>): (values: seq<Truth>)
    ensures |values| == |cs|
    ensures forall i :: 0 <= i < |cs| ==> values[i] == Eval(cs[i], t)
    decreases cs, 0
  {
    if cs == [] then [] else [Eval(cs[0], t)] + EvalEach(cs[1..], t)
  }

  /** The Boolean evaluator over a declared set of signals. */
  predicate Holds(c: Cond, signals: set<Id>)
    decreases c, 1
  {
    match c
    case Leaf(id) => id in signals
    case AllOf(of) => false !in HoldsEach(of, signals)
    case AnyOf(of) => true in HoldsEach(of, signals)
    case NOf(n, of) => multiset(HoldsEach(of, signals))[true] >= n
  }

  function HoldsEach(cs: seq<Cond>, signals: set<Id>): (bits: seq<bool>)
    ensures |bits| == |cs|
    ensures forall i :: 0 <= i < |cs| ==> bits[i] == Holds(cs[i], signals)
    decreases cs, 0
  {
    if cs == [] then [] else [Holds(cs[0], signals)] + HoldsEach(cs[1..], signals)
  }

  /** Every indicator a condition mentions. */
  function Operands(c: Cond): set<Id>
    decreases c, 1
  {
    match c
    case Leaf(id) => {id}
    case AllOf(of) => OperandsEach(of)
    case AnyOf(of) => OperandsEach(of)
    case NOf(_, of) => OperandsEach(of)
  }

  function OperandsEach(cs: seq<Cond>): (ids: set<Id>)
    ensures forall i :: 0 <= i < |cs| ==> Operands(cs[i]) <= ids
    decreases cs, 0
  {
    if cs == [] then {} else Operands(cs[0]) + OperandsEach(cs[1..])
  }

  // ---------------------------------------------------------------- monotonicity

  ghost predicate Below(t: map<Id, Truth>, t': map<Id, Truth>, ids: set<Id>) {
    forall id :: id in ids ==> Lookup(t, id).AtMost(Lookup(t', id))
  }

  lemma {:induction false} CountsGrow(values: seq<Truth>, values': seq<Truth>)
    requires |values| == |values'|
    requires forall i :: 0 <= i < |values| ==> values[i].AtMost(values'[i])
    ensures multiset(values)[True] <= multiset(values')[True]
    ensures multiset(values')[False] <= multiset(values)[False]
  {
    if values != [] {
      assert values == [values[0]] + values[1..];
      assert values' == [values'[0]] + values'[1..];
      CountsGrow(values[1..], values'[1..]);
    }
  }

  lemma TablesAreMonotone(values: seq<Truth>, values': seq<Truth>)
    requires |values| == |values'|
    requires forall i :: 0 <= i < |values| ==> values[i].AtMost(values'[i])
    ensures All(values).AtMost(All(values'))
    ensures Any(values).AtMost(Any(values'))
    ensures forall n: nat :: AtLeast(n, values).AtMost(AtLeast(n, values'))
  {
    CountsGrow(values, values');
    CountsAddUp(values);
    CountsAddUp(values');
    if True in values {
      var i :| 0 <= i < |values| && values[i] == True;
      assert values'[i] == True;
    } else if Unknown in values {
      var i :| 0 <= i < |values| && values[i] == Unknown;
      assert values'[i] != False;
    }
    if False in values' {
      var i :| 0 <= i < |values| && values'[i] == False;
      assert values[i] == False;
    } else if Unknown in values' {
      var i :| 0 <= i < |values| && values'[i] == Unknown;
      assert values[i] != True;
    }
  }

  /** Conditions are negation-free, so lowering operands in the truth order lowers the verdict. */
  lemma {:induction false} EvalIsMonotone(c: Cond, t: map<Id, Truth>, t': map<Id, Truth>)
    requires Below(t, t', Operands(c))
    ensures Eval(c, t).AtMost(Eval(c, t'))
    decreases c
  {
    if !c.Leaf? {
      forall i | 0 <= i < |c.of| ensures Eval(c.of[i], t).AtMost(Eval(c.of[i], t')) {
        EvalIsMonotone(c.of[i], t, t');
      }
      TablesAreMonotone(EvalEach(c.of, t), EvalEach(c.of, t'));
    }
  }

  lemma {:induction false} HoldsIsMonotone(c: Cond, signals: set<Id>, signals': set<Id>)
    requires signals * Operands(c) <= signals'
    requires Holds(c, signals)
    ensures Holds(c, signals')
  {
    Embed(c, signals);
    Embed(c, signals');
    EvalIsMonotone(c, KnownReading(Operands(c), signals), KnownReading(Operands(c), signals'));
  }

  // ---------------------------------------------------------------- the two readings agree

  /** The three-valued reading of a set of signals: everything is known. */
  function KnownReading(ids: set<Id>, signals: set<Id>): map<Id, Truth> {
    map id | id in ids :: Definite(id in signals)
  }

  /** On a fully known reading the three-valued evaluator is the Boolean one. */
  lemma Embed(c: Cond, signals: set<Id>)
    ensures Eval(c, KnownReading(Operands(c), signals)) == Definite(Holds(c, signals))
  {
    Squeeze(c, KnownReading(Operands(c), signals), signals, signals);
  }

  /** `low` reads every Unknown operand as false, `high` as true. */
  ghost predicate Brackets(t: map<Id, Truth>, ids: set<Id>, low: set<Id>, high: set<Id>) {
    forall id :: id in ids ==>
      (Lookup(t, id) == True <==> id in low) && (Lookup(t, id) == False <==> id !in high)
  }

  lemma {:induction false} Squeeze(c: Cond, t: map<Id, Truth>, low: set<Id>, high: set<Id>)
    requires Brackets(t, Operands(c), low, high)
    ensures Eval(c, t) == True <==> Holds(c, low)
    ensures Eval(c, t) == False <==> !Holds(c, high)
    decreases c
  {
    if !c.Leaf? {
      forall i | 0 <= i < |c.of|
        ensures Eval(c.of[i], t) == True <==> Holds(c.of[i], low)
        ensures Eval(c.of[i], t) == False <==> !Holds(c.of[i], high)
      {
        Squeeze(c.of[i], t, low, high);
      }
      SqueezeTables(EvalEach(c.of, t), HoldsEach(c.of, low), HoldsEach(c.of, high));
    }
  }

  lemma SqueezeTables(values: seq<Truth>, low: seq<bool>, high: seq<bool>)
    requires |values| == |low| == |high|
    requires forall i :: 0 <= i < |values| ==> (values[i] == True <==> low[i]) && (values[i] == False <==> !high[i])
    ensures All(values) == True <==> false !in low
    ensures All(values) == False <==> false in high
    ensures Any(values) == True <==> true in low
    ensures Any(values) == False <==> true !in high
    ensures forall n: nat :: AtLeast(n, values) == True <==> multiset(low)[true] >= n
    ensures forall n: nat :: AtLeast(n, values) == False <==> multiset(high)[true] < n
  {
    CountsAgree(values, True, low, true);
    CountsAgree(values, False, high, false);
    CountsAddUp(values);
    BitsAddUp(high);
    BitsAddUp(low);
    assert |values| == |low|;
    assert forall b :: b in low ==> b || !b;
  }

  // ---------------------------------------------------------------- exactness

  /** A completion settles every operand, keeping the readings that are already definite. */
  ghost predicate Completes(signals: set<Id>, t: map<Id, Truth>, c: Cond) {
    forall id :: id in Operands(c) ==>
      (Lookup(t, id) == True ==> id in signals) && (Lookup(t, id) == False ==> id !in signals)
  }

  /** Unknown operands all set false, and all set true. */
  function LowCompletion(t: map<Id, Truth>, c: Cond): set<Id> {
    set id | id in Operands(c) && Lookup(t, id) == True
  }

  function HighCompletion(t: map<Id, Truth>, c: Cond): set<Id> {
    set id | id in Operands(c) && Lookup(t, id) != False
  }

  /** The three-valued verdict is exact against the Boolean evaluator: it is decided by the two extreme
      completions, hence definite precisely when every completion of the unknown operands agrees. */
  lemma EvalIsExact(c: Cond, t: map<Id, Truth>)
    ensures Eval(c, t) == True <==> Holds(c, LowCompletion(t, c))
    ensures Eval(c, t) == False <==> !Holds(c, HighCompletion(t, c))
    ensures Eval(c, t) == True <==> forall s :: Completes(s, t, c) ==> Holds(c, s)
    ensures Eval(c, t) == False <==> forall s :: Completes(s, t, c) ==> !Holds(c, s)
  {
    var low, high := LowCompletion(t, c), HighCompletion(t, c);
    Squeeze(c, t, low, high);
    assert Completes(low, t, c) && Completes(high, t, c);
    forall s | Completes(s, t, c)
      ensures Holds(c, low) ==> Holds(c, s)
      ensures Holds(c, s) ==> Holds(c, high)
    {
      if Holds(c, low) { HoldsIsMonotone(c, low, s); }
      if Holds(c, s) { HoldsIsMonotone(c, s, high); }
    }
  }

  /** Learning more: definite readings are kept, unknown ones may become anything. */
  ghost predicate Refines(t': map<Id, Truth>, t: map<Id, Truth>, ids: set<Id>) {
    forall id :: id in ids && Lookup(t, id) != Unknown ==> Lookup(t', id) == Lookup(t, id)
  }

  lemma CompletionsShrink(c: Cond, t: map<Id, Truth>, t': map<Id, Truth>, s: set<Id>)
    requires Refines(t', t, Operands(c)) && Completes(s, t', c)
    ensures Completes(s, t, c)
  {
  }

  lemma DefiniteVerdictsSurviveRefinement(c: Cond, t: map<Id, Truth>, t': map<Id, Truth>)
    requires Refines(t', t, Operands(c))
    requires Eval(c, t) != Unknown
    ensures Eval(c, t') == Eval(c, t)
  {
    EvalIsExact(c, t);
    EvalIsExact(c, t');
    forall s | Completes(s, t', c) ensures Holds(c, s) <==> Eval(c, t) == True {
      CompletionsShrink(c, t, t', s);
    }
  }
}
