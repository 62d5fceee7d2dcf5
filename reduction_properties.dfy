/** Properties of `pushOperator` and `pressEquals`: stack effects of eager
    reduction, the error-reset policy, and left-to-right evaluation of a
    whole key sequence. */
module ReductionProperties {
  import opened Numbers
  import opened Display
  import opened Operators
  import opened Transitions
  import opened EntryProperties

  /** When `pushOperator` does not reset to "Error", the entry is empty and
      the new operator is on top of the operator stack. */
  lemma OperatorPushed(h: Host, c: Calc, op: string)
    ensures var r := PushOperator(h, c, op);
            r.entry != "Error" ==> r.entry == "" && r.operators[|r.operators| - 1] == op
  {
  }

  /** Eager reduction: with an operator pending over two staged operands,
      the top operator is applied to `a` (below the top) and `b` (the top);
      on success the two are replaced by the result, so the operand count
      drops by one and the pending operator is replaced by the new one; on
      "Error" the state is reset. */
  lemma EagerReduction(h: Host, c: Calc, op: string)
    requires CanReduce(StageOperand(h, c))
    ensures var s := StageOperand(h, c);
            var r := PushOperator(h, c, op);
            var n, m := |s.operands|, |s.operators|;
            match ApplyOperator(s.operands[n - 2], s.operands[n - 1], s.operators[m - 1])
            case Ok(v) =>
              r.operands == s.operands[..n - 2] + [Fin(v)] && |r.operands| == n - 1
              && r.operators == s.operators[..m - 1] + [op] && r.entry == ""
            case Error => ResetByError(c, r)
  {
  }

  /** Without a reduction due, the staged operands stay and the operator is pushed. */
  lemma NoReductionDue(h: Host, c: Calc, op: string)
    requires !CanReduce(StageOperand(h, c))
    ensures var r := PushOperator(h, c, op);
            r.operands == StageOperand(h, c).operands && r.operators == c.operators + [op]
  {
  }

  /** An operator right after a successful "=" continues from the value
      shown in the entry: it becomes the only operand. */
  lemma OperatorAfterEquals(h: Host, c: Calc, op: string)
    requires Inv(c) && c.justCalculated
    ensures var r := PushOperator(h, c, op);
            r.operands == [ToNumber(h, c.entry)] && r.operators == [op] && r.entry == ""
  {
  }

  /** "=" with a reduction due: success shows the formatted result, records
      it as the last result, empties both stacks and sets the flag; "Error"
      resets. */
  lemma EqualsReduces(h: Host, c: Calc)
    requires CanReduce(StageEquals(h, c))
    ensures var s := StageEquals(h, c);
            var r := PressEquals(h, c);
            match TopReduction(s)
            case Ok(v) =>
              r.entry == FormatForDisplay(h, Fin(v)) && r.lastResult == Some(Fin(v))
              && r.operands == [] && r.operators == [] && r.justCalculated
            case Error => ResetByError(c, r)
  {
  }

  /** "=" with no operator pending changes none of entry, last result, flag
      or operator stack; the entry's value is still pushed (and the last
      result slid under it), so the operands only grow. */
  lemma EqualsWithoutOperator(h: Host, c: Calc)
    requires c.operators == []
    ensures var r := PressEquals(h, c);
            r.entry == c.entry && r.lastResult == c.lastResult
            && r.justCalculated == c.justCalculated && r.operators == []
            && r.operands == StageEquals(h, c).operands
            && |r.operands| >= |c.operands|
  {
  }

  /** With one operand and an operator pending and the entry empty, "="
      puts the last result UNDER the operand, so the last result is the
      left operand: `y op x`. */
  lemma EqualsUsesLastResultOnLeft(h: Host, c: Calc, x: Num, op: string, y: Num)
    requires c.entry == "" && c.operands == [x] && c.operators == [op] && c.lastResult == Some(y)
    ensures var r := PressEquals(h, c);
            match ApplyOperator(y, x, op)
            case Ok(v) => r.entry == FormatForDisplay(h, Fin(v)) && r.lastResult == Some(Fin(v))
            case Error => ResetByError(c, r)
  {
    var s := StageEquals(h, c);
    assert s.operands == [y, x];
  }

  /** One operator key followed by a numeral. */
  datatype Term = Term(op: string, numeral: string)

  /** Precedence-free, left-to-right value of `first op1 n1 op2 n2 ...`:
      `((first op1 n1) op2 n2) ...`, stopping at the first "Error". */
  function Evaluate(h: Host, first: string, rest: seq<Term>): Outcome
    decreases |rest|
  {
    if rest == [] then
      var x := ToNumber(h, first);
      if IsFinite(x) then Ok(x.r) else Error
    else
      match Evaluate(h, first, rest[..|rest| - 1])
      case Error => Error
      case Ok(acc) =>
        var t := rest[|rest| - 1];
        ApplyOperator(Fin(acc), ToNumber(h, t.numeral), t.op)
  }

  /** The keys after the first numeral: each term's operator, then its numeral. */
  function Feed(h: Host, c: Calc, rest: seq<Term>): Calc
    decreases |rest|
  {
    if rest == [] then c
    else
      var t := rest[|rest| - 1];
      TypeNumeral(PushOperator(h, Feed(h, c, rest[..|rest| - 1]), t.op), t.numeral)
  }

  predicate PlainTerms(rest: seq<Term>) {
    forall i | 0 <= i < |rest| :: PlainNumeral(rest[i].numeral)
  }

  /** The keys of the first term, after the first numeral: its operator
      stages the numeral as the only operand, then its numeral is typed. */
  lemma FirstTerm(h: Host, c: Calc, first: string, t: Term)
    requires c.entry == "" && c.operands == [] && c.operators == [] && !c.justCalculated
    requires PlainNumeral(first) && PlainNumeral(t.numeral)
    ensures var f := TypeNumeral(PushOperator(h, TypeNumeral(c, first), t.op), t.numeral);
            f.operands == [ToNumber(h, first)] && f.operators == [t.op] && f.entry == t.numeral
            && !f.justCalculated
            && f.lastResult == c.lastResult && f.history == c.history && f.memory == c.memory
  {
    TypingShowsNumeral(c, first);
    var pushed := PushOperator(h, TypeNumeral(c, first), t.op);
    assert pushed.operands == [ToNumber(h, first)] && pushed.operators == [t.op] && pushed.entry == "";
    TypingShowsNumeral(pushed, t.numeral);
  }

  /** The keys of a later term: its operator reduces the pending operation
      to one operand, then its numeral is typed. */
  lemma LaterTerm(h: Host, p: Calc, acc: real, prev: Term, t: Term)
    requires p.operands == [Fin(acc)] && p.operators == [prev.op] && p.entry == prev.numeral
    requires prev.numeral != "" && !p.justCalculated && PlainNumeral(t.numeral)
    requires ApplyOperator(Fin(acc), ToNumber(h, prev.numeral), prev.op).Ok?
    ensures var f := TypeNumeral(PushOperator(h, p, t.op), t.numeral);
            f.operands == [Fin(ApplyOperator(Fin(acc), ToNumber(h, prev.numeral), prev.op).value)]
            && f.operators == [t.op] && f.entry == t.numeral && !f.justCalculated
            && f.lastResult == p.lastResult && f.history == p.history && f.memory == p.memory
  {
    var s := StageOperand(h, p);
    assert s.operands == [Fin(acc), ToNumber(h, prev.numeral)];
    var pushed := PushOperator(h, p, t.op);
    assert pushed.entry == "" && !pushed.justCalculated;
    TypingShowsNumeral(pushed, t.numeral);
  }

  /** While no reduction has failed, after the keys of `first` and of the
      terms the value of all but the last term is the only operand, the last
      operator is the only one pending, and the last numeral is the entry. */
  lemma {:induction false} FeedKeepsOneOperand(h: Host, c: Calc, first: string, rest: seq<Term>)
    requires c.entry == "" && c.operands == [] && c.operators == [] && !c.justCalculated
    requires PlainNumeral(first) && PlainTerms(rest) && |rest| >= 1
    requires Evaluate(h, first, rest[..|rest| - 1]).Ok?
    ensures var f := Feed(h, TypeNumeral(c, first), rest);
            var t := rest[|rest| - 1];
            f.operands == [Fin(Evaluate(h, first, rest[..|rest| - 1]).value)]
            && f.operators == [t.op] && f.entry == t.numeral && !f.justCalculated
            && f.lastResult == c.lastResult && f.history == c.history && f.memory == c.memory
    decreases |rest|
  {
    var typed := TypeNumeral(c, first);
    var n := |rest|;
    var t := rest[n - 1];
    var init := rest[..n - 1];
    assert PlainNumeral(t.numeral);
    if n == 1 {
      assert init == [];
      FirstTerm(h, c, first, t);
    } else {
      assert init[..|init| - 1] == rest[..n - 2];
      assert PlainTerms(init) by {
        forall i | 0 <= i < |init| ensures PlainNumeral(init[i].numeral) {
          assert init[i] == rest[i];
        }
      }
      FeedKeepsOneOperand(h, c, first, init);
      var acc := Evaluate(h, first, rest[..n - 2]).value;
      LaterTerm(h, Feed(h, typed, init), acc, init[|init| - 1], t);
    }
  }

  /** Left-to-right evaluation without precedence: typing
      `first op1 n1 ... opk nk` and "=" shows the formatted value of
      `((first op1 n1) ...) opk nk` when it exists; when only the last
      operation fails, the engine is reset to "Error". */
  lemma LeftToRight(h: Host, c: Calc, first: string, rest: seq<Term>)
    requires c.entry == "" && c.operands == [] && c.operators == [] && !c.justCalculated
    requires PlainNumeral(first) && PlainTerms(rest) && |rest| >= 1
    ensures var r := PressEquals(h, Feed(h, TypeNumeral(c, first), rest));
            var e := Evaluate(h, first, rest);
            (e.Ok? ==>
               r.entry == FormatForDisplay(h, Fin(e.value)) && r.lastResult == Some(Fin(e.value))
               && r.operands == [] && r.operators == [] && r.justCalculated)
            && (Evaluate(h, first, rest[..|rest| - 1]).Ok? && e.Error? ==> ResetByError(c, r))
  {
    var init := rest[..|rest| - 1];
    if Evaluate(h, first, init).Ok? {
      FeedKeepsOneOperand(h, c, first, rest);
      var f := Feed(h, TypeNumeral(c, first), rest);
      var t := rest[|rest| - 1];
      var s := StageEquals(h, f);
      assert s.operands == [Fin(Evaluate(h, first, init).value), ToNumber(h, t.numeral)];
      assert TopReduction(s) == Evaluate(h, first, rest);
      EqualsReduces(h, f);
    }
  }

  /** `2 + 3 × 4 =` gives 20, that is `(2 + 3) × 4`, not 14. */
  lemma NoPrecedence(h: Host, c: Calc)
    requires c.entry == "" && c.operands == [] && c.operators == [] && !c.justCalculated
    requires h.parse("2") == Fin(2.0) && h.parse("3") == Fin(3.0) && h.parse("4") == Fin(4.0)
    ensures var r := PressEquals(h, Feed(h, TypeNumeral(c, "2"), [Term(PLUS, "3"), Term(TIMES, "4")]));
            r.lastResult == Some(Fin(20.0)) && r.entry == h.format(20.0)
  {
    var rest := [Term(PLUS, "3"), Term(TIMES, "4")];
    assert PlainNumeral("2") && PlainNumeral("3") && PlainNumeral("4") by {
      assert multiset("2") == multiset{'2'};
      assert multiset("3") == multiset{'3'};
      assert multiset("4") == multiset{'4'};
    }
    assert rest[..1] == [Term(PLUS, "3")] && rest[..1][..0] == [];
    assert Evaluate(h, "2", rest[..1]) == Ok(5.0);
    assert Evaluate(h, "2", rest) == Ok(20.0);
    LeftToRight(h, c, "2", rest);
  }

  /** `5 ÷ 0 =` resets the engine to "Error" with both stacks empty. */
  lemma DivisionByZero(h: Host, c: Calc)
    requires c.entry == "" && c.operands == [] && c.operators == [] && !c.justCalculated
    requires h.parse("5") == Fin(5.0) && h.parse("0") == Fin(0.0)
    ensures var r := PressEquals(h, Feed(h, TypeNumeral(c, "5"), [Term(DIVIDE, "0")]));
            r.entry == "Error" && r.operands == [] && r.operators == [] && r.lastResult == None
  {
    var rest := [Term(DIVIDE, "0")];
    assert PlainNumeral("5") && PlainNumeral("0") by {
      assert multiset("5") == multiset{'5'};
      assert multiset("0") == multiset{'0'};
    }
    assert rest[..0] == [];
    assert Evaluate(h, "5", rest[..0]) == Ok(5.0);
    assert Evaluate(h, "5", rest) == Error;
    LeftToRight(h, c, "5", rest);
  }

  /** `10 =`: with no operator to apply, "=" leaves 10 both staged as an
      operand and in the entry, and does not set the flag. */
  lemma LoneEquals(h: Host, c: Calc)
    requires c.entry == "" && c.operands == [] && c.operators == [] && !c.justCalculated
    requires c.lastResult == None && h.parse("10") == Fin(10.0)
    ensures PressEquals(h, TypeNumeral(c, "10")) == c.(entry := "10", operands := [Fin(10.0)])
  {
    assert PlainNumeral("10") by {
      assert multiset("10") == multiset{'1', '0'};
    }
    TypingShowsNumeral(c, "10");
  }

  /** `10 = +`: the "+" stages the entry a second time, over the 10 that
      "=" left staged. */
  lemma LoneEqualsThenOperator(h: Host, c: Calc)
    requires c.entry == "" && c.operands == [] && c.operators == [] && !c.justCalculated
    requires c.lastResult == None && h.parse("10") == Fin(10.0)
    ensures PushOperator(h, PressEquals(h, TypeNumeral(c, "10")), PLUS)
            == c.(operands := [Fin(10.0), Fin(10.0)], operators := [PLUS])
  {
    LoneEquals(h, c);
    var a := c.(entry := "10", operands := [Fin(10.0)]);
    assert StageOperand(h, a).operands == [Fin(10.0), Fin(10.0)];
  }

  /** `10 = + 5 =` gives 15: the final "=" reduces only the top two
      operands, 10 and 5, and then empties both stacks. */
  lemma ContinueAfterLoneEquals(h: Host, c: Calc)
    requires c.entry == "" && c.operands == [] && c.operators == [] && !c.justCalculated
    requires c.lastResult == None
    requires h.parse("10") == Fin(10.0) && h.parse("5") == Fin(5.0)
    ensures var r := PressEquals(h, TypeNumeral(PushOperator(h, PressEquals(h, TypeNumeral(c, "10")), PLUS), "5"));
            r.lastResult == Some(Fin(15.0)) && r.entry == h.format(15.0)
            && r.operands == [] && r.operators == [] && r.justCalculated
  {
    LoneEqualsThenOperator(h, c);
    var b := c.(operands := [Fin(10.0), Fin(10.0)], operators := [PLUS]);
    assert PlainNumeral("5") by {
      assert multiset("5") == multiset{'5'};
    }
    TypingShowsNumeral(b, "5");
    var typed := b.(entry := "5");
    assert StageEquals(h, typed).operands == [Fin(10.0), Fin(10.0), Fin(5.0)];
    assert TopReduction(StageEquals(h, typed)) == Ok(15.0);
  }

  /** The unary keys do not reset on every non-finite value: x² and % of
      any non-finite value, √ of NaN or +∞, and 1/x of NaN write "Error"
      into the entry and keep the stacks, the flag and the last result;
      √ of −∞ passes the guard `target < 0` and resets. */
  lemma UnguardedErrorKeepsStacks(h: Host, c: Calc)
    requires !IsFinite(Target(h, c))
    ensures ApplySquare(h, c) == c.(entry := "Error")
    ensures ApplyPercent(h, c) == c.(entry := "Error")
    ensures !IsNegative(Target(h, c)) ==> ApplySqrt(h, c) == c.(entry := "Error")
    ensures IsNegative(Target(h, c)) ==> ResetByError(c, ApplySqrt(h, c))
    ensures Target(h, c).NaN? ==> ApplyReciprocal(h, c) == c.(entry := "Error")
  {
  }
}
