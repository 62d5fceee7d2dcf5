/** The calculator engine as the source has it: one object whose fields are
    the closure variables and whose methods are the key handlers, updating
    the fields in place. Each handler is proved to perform exactly the
    transition of the same name in module Transitions and to keep the
    invariant `Transitions.Inv`. */
module Engine {
  import opened Numbers
  import opened Text
  import opened Display
  import opened Operators
  import opened Transitions
  import opened Invariant

  class Calculator {
    /** Number parsing, formatting and `Math.sqrt`, which the engine calls. */
    const host: Host

    var currentStr: string
    var operands: seq<Num>
    var operators: seq<string>
    var justCalculated: bool
    var lastResult: Option<Num>
    var historyList: seq<HistoryItem>
    var memoryValue: Option<Num>

    /** The fields as one value. */
    ghost function State(): Calc
      reads this
    {
      Calc(currentStr, operands, operators, justCalculated, lastResult, historyList, memoryValue)
    }

    ghost predicate Valid()
      reads this
    {
      host.Valid() && Inv(State())
    }

    /** The engine on page load. */
    constructor (h: Host)
      requires h.Valid()
      ensures Valid() && host == h
      ensures State() == Initial()
    {
      host := h;
      currentStr := "";
      operands := [];
      operators := [];
      justCalculated := false;
      lastResult := None;
      historyList := [];
      memoryValue := None;
    }

    /** `updateDisplays`, primary display. */
    method PrimaryDisplay() returns (text: string)
      ensures text == Primary(currentStr)
    {
      text := if currentStr == "" then "0" else currentStr;
    }

    /** `updateDisplays`, secondary display: operand i, then operator i
        while there is one, then the entry if non-empty, joined by spaces. */
    method SecondaryDisplay() returns (text: string)
      ensures text == SecondaryText(host, operands, operators, currentStr)
    {
      var parts: seq<string> := [];
      for i := 0 to |operands|
        invariant parts == Interleave(FormatAll(host, operands[..i]), operators)
      {
        InterleaveSnoc(FormatAll(host, operands[..i]), operators, FormatForDisplay(host, operands[i]));
        assert FormatAll(host, operands[..i + 1])
               == FormatAll(host, operands[..i]) + [FormatForDisplay(host, operands[i])];
        parts := parts + [FormatForDisplay(host, operands[i])];
        if i < |operators| {
          parts := parts + [operators[i]];
        }
      }
      assert operands[..|operands|] == operands;
      if currentStr != "" {
        parts := parts + [currentStr];
      }
      assert parts == ExpressionParts(host, operands, operators, currentStr);
      text := if |parts| == 0 then "" else Join(parts, " ");
    }

    /** `clearAll` */
    method ClearAll()
      modifies this
      ensures old(Valid()) ==> Valid()
      ensures State() == Transitions.ClearAll(old(State()))
    {
      currentStr := "";
      operands := [];
      operators := [];
      justCalculated := false;
      lastResult := None;
    }

    /** `clearEntry` */
    method ClearEntry()
      requires Valid()
      modifies this
      ensures Valid()
      ensures State() == Transitions.ClearEntry(old(State()))
    {
      ClearEntryKeepsInv(State());
      currentStr := "";
    }

    /** `backspace` */
    method Backspace()
      requires Valid()
      modifies this
      ensures Valid()
      ensures State() == Transitions.Backspace(old(State()))
    {
      BackspaceKeepsInv(State());
      if |currentStr| > 0 {
        currentStr := currentStr[..|currentStr| - 1];
      }
    }

    /** The keystroke itself: a point starts "0." (or "-0." after a lone
        minus zero), a digit replaces a lone "0", anything else is appended. */
    method TypeIntoEntry(ch: char)
      modifies this
      ensures State() == old(State()).(entry := TypeKey(old(currentStr), ch))
    {
      if ch == '.' {
        if currentStr == "" || currentStr == "-0" {
          currentStr := if StartsWithMinus(currentStr) then "-0." else "0.";
        } else {
          currentStr := currentStr + ".";
        }
      } else {
        if currentStr == "0" {
          currentStr := [ch];
        } else if currentStr == "-0" {
          currentStr := "-" + [ch];
        } else {
          currentStr := currentStr + [ch];
        }
      }
    }

    /** `inputNumber(ch)`; the keypad and the keyboard send only digits and ".". */
    method InputNumber(ch: char)
      requires Valid() && (IsDigit(ch) || ch == '.')
      modifies this
      ensures Valid()
      ensures State() == Transitions.InputNumber(old(State()), ch)
    {
      InputNumberKeepsInv(State(), ch);
      ghost var target := Transitions.InputNumber(State(), ch);
      if justCalculated {
        currentStr := "";
        operands := [];
        operators := [];
        justCalculated := false;
      }
      if ch == '.' && '.' in currentStr {
        return;
      }
      TypeIntoEntry(ch);
      if |currentStr| > MAX_DISPLAY_LENGTH + 6 {
        currentStr := currentStr[..MAX_DISPLAY_LENGTH + 6];
      }
      assert State() == target;
    }

    /** `applyNegate` */
    method ApplyNegate()
      requires Valid()
      modifies this
      ensures Valid()
      ensures State() == Negate(old(State()))
    {
      NegateKeepsInv(State());
      if currentStr != "" {
        if StartsWithMinus(currentStr) {
          currentStr := currentStr[1..];
        } else {
          currentStr := "-" + currentStr;
        }
      } else {
        var shown := PrimaryDisplay();
        currentStr := "-" + shown;
      }
    }

    /** The pops shared by `pushOperator` and `pressEquals`: the top
        operator, then `b`, then `a`, and `applyOperator(a, b, op)`. */
    method PopAndApply() returns (res: Outcome)
      requires CanReduce(State())
      modifies this
      ensures res == TopReduction(old(State()))
      ensures operands == old(operands)[..|old(operands)| - 2]
      ensures operators == old(operators)[..|old(operators)| - 1]
      ensures currentStr == old(currentStr) && justCalculated == old(justCalculated)
      ensures lastResult == old(lastResult) && historyList == old(historyList) && memoryValue == old(memoryValue)
    {
      var op := operators[|operators| - 1];
      operators := operators[..|operators| - 1];
      var b := operands[|operands| - 1];
      operands := operands[..|operands| - 1];
      var a := operands[|operands| - 1];
      operands := operands[..|operands| - 1];
      res := ApplyOperator(a, b, op);
    }

    /** The first half of `pushOperator`: stage the entry as an operand. */
    method StageForOperator()
      modifies this
      ensures State() == StageOperand(host, old(State()))
    {
      if justCalculated {
        operands := [ToNumber(host, currentStr)];
        currentStr := "";
        justCalculated := false;
      }
      if currentStr != "" {
        operands := operands + [ToNumber(host, currentStr)];
        currentStr := "";
      } else if |operands| == 0 {
        operands := operands + [Fin(0.0)];
      }
    }

    /** `pushOperator(newOp)` */
    method PushOperator(newOp: string)
      requires Valid()
      modifies this
      ensures Valid()
      ensures State() == Transitions.PushOperator(host, old(State()), newOp)
    {
      PushOperatorKeepsInv(host, State(), newOp);
      StageForOperator();
      if |operators| > 0 && |operands| >= 2 {
        var res := PopAndApply();
        if res.Error? {
          ClearAll();
          currentStr := "Error";
          return;
        }
        operands := operands + [Fin(res.value)];
        currentStr := "";
      }
      operators := operators + [newOp];
    }

    /** The first half of `pressEquals`: push a non-empty entry (keeping it)
        and put the last result under a lone operand. */
    method StageForEquals()
      modifies this
      ensures State() == StageEquals(host, old(State()))
    {
      if currentStr != "" {
        operands := operands + [ToNumber(host, currentStr)];
      }
      if |operands| < 2 && lastResult.Some? {
        operands := [lastResult.value] + operands;
      }
    }

    /** The end of `pressEquals`: the result becomes the entry and the last
        result, and both stacks are emptied. */
    method ShowResult(v: real)
      modifies this
      ensures State() == old(State()).(entry := FormatForDisplay(host, Fin(v)), lastResult := Some(Fin(v)),
                                       operands := [], operators := [], justCalculated := true)
    {
      currentStr := FormatForDisplay(host, Fin(v));
      lastResult := Some(Fin(v));
      operands := [];
      operators := [];
      justCalculated := true;
    }

    /** `pressEquals`, before the history wrapper. */
    method PressEquals()
      requires Valid()
      modifies this
      ensures Valid()
      ensures State() == Transitions.PressEquals(host, old(State()))
    {
      PressEqualsKeepsInv(host, State());
      StageForEquals();
      ghost var staged := State();
      if |operators| > 0 && |operands| >= 2 {
        var res := PopAndApply();
        if res.Error? {
          ClearAll();
          currentStr := "Error";
          assert State() == ErrorReset(staged);
          return;
        }
        ShowResult(res.value);
      }
    }

    /** "=" as the page runs it: `pressEquals` wrapped so that it records a
        history row. */
    method PressEqualsRecorded()
      requires Valid()
      modifies this
      ensures Valid()
      ensures State() == Transitions.PressEqualsRecorded(host, old(State()))
    {
      PressEqualsRecordedKeepsInv(host, State());
      var beforeEval := SecondaryDisplay();
      PressEquals();
      if currentStr != "Error" && !IsBlank(beforeEval) {
        historyList := historyList + [HistoryItem(beforeEval, currentStr)];
      }
    }

    /** The memory-row buttons. */
    method PressMemory(key: MemoryKey)
      requires Valid()
      modifies this
      ensures Valid()
      ensures State() == Memory(host, old(State()), key)
    {
      MemoryKeepsInv(host, State(), key);
      ghost var target := Memory(host, State(), key);
      var val := if currentStr == "" then Fin(0.0) else host.parse(currentStr);
      match key
      case MS =>
        memoryValue := Some(val);
        assert State() == target;
      case MC =>
        memoryValue := None;
        assert State() == target;
      case MR =>
        if memoryValue.Some? {
          currentStr := host.show(memoryValue.value);
        }
        assert State() == target;
      case MPlus =>
        memoryValue := Some(Add(MemoryBase(memoryValue), val));
        assert State() == target;
      case MMinus =>
        memoryValue := Some(Sub(MemoryBase(memoryValue), val));
        assert State() == target;
    }

    /** A click on row k of the history list. */
    method SelectHistory(k: nat)
      requires Valid() && k < |historyList|
      modifies this
      ensures Valid()
      ensures State() == Transitions.SelectHistory(old(State()), k)
    {
      SelectHistoryKeepsInv(State(), k);
      currentStr := historyList[k].result;
      operands := [];
      operators := [];
    }

    /** The value a unary key reads: the entry, or else the primary display. */
    method ReadTarget() returns (t: Num)
      ensures t == Target(host, State())
    {
      var shown := PrimaryDisplay();
      t := if currentStr != "" then ToNumber(host, currentStr) else ToNumber(host, shown);
    }

    /** `applySqrt` */
    method ApplySqrt()
      requires Valid()
      modifies this
      ensures Valid()
      ensures State() == Transitions.ApplySqrt(host, old(State()))
    {
      ApplySqrtKeepsInv(host, State());
      ghost var before := State();
      var target := ReadTarget();
      if IsNegative(target) {
        ClearAll();
        currentStr := "Error";
        assert State() == ErrorReset(before);
        return;
      }
      currentStr := FormatForDisplay(host, Sqrt(host, target));
    }

    /** `applySquare` */
    method ApplySquare()
      requires Valid()
      modifies this
      ensures Valid()
      ensures State() == Transitions.ApplySquare(host, old(State()))
    {
      ApplySquareKeepsInv(host, State());
      var target := ReadTarget();
      currentStr := FormatForDisplay(host, Mul(target, target));
    }

    /** `applyReciprocal` */
    method ApplyReciprocal()
      requires Valid()
      modifies this
      ensures Valid()
      ensures State() == Transitions.ApplyReciprocal(host, old(State()))
    {
      ApplyReciprocalKeepsInv(host, State());
      ghost var before := State();
      var target := ReadTarget();
      if IsZero(target) {
        ClearAll();
        currentStr := "Error";
        assert State() == ErrorReset(before);
        return;
      }
      currentStr := FormatForDisplay(host, Div(Fin(1.0), target));
    }

    /** `applyPercent` */
    method ApplyPercent()
      requires Valid()
      modifies this
      ensures Valid()
      ensures State() == Transitions.ApplyPercent(host, old(State()))
    {
      ApplyPercentKeepsInv(host, State());
      var target := ReadTarget();
      currentStr := FormatForDisplay(host, Div(target, Fin(100.0)));
    }
  }
}
