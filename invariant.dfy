/** Every key handler keeps `Transitions.Inv`: the entry stays display text
    (no white space, at most one decimal point), an operator is pending only
    over a staged operand, "=" leaves no operator pending, and every
    recorded result is display text. */
module Invariant {
  import opened Text
  import opened Display
  import opened Transitions

  /** "Error" is display text. */
  lemma ErrorIsEntryText()
    ensures IsEntryText("Error")
  {
    assert multiset("Error")['.'] == 0 by {
      assert multiset("Error") == multiset{'E', 'r', 'r', 'o', 'r'};
    }
  }

  lemma ClearAllKeepsInv(c: Calc)
    requires Inv(c)
    ensures Inv(ClearAll(c))
  {
  }

  lemma ErrorResetKeepsInv(c: Calc)
    requires Inv(c)
    ensures Inv(ErrorReset(c))
  {
    ErrorIsEntryText();
  }

  lemma ClearEntryKeepsInv(c: Calc)
    requires Inv(c)
    ensures Inv(ClearEntry(c))
  {
  }

  lemma BackspaceKeepsInv(c: Calc)
    requires Inv(c)
    ensures Inv(Backspace(c))
  {
    if c.entry != "" {
      DropLastText(c.entry);
    }
  }

  /** Typing adds a decimal point only where there was none. */
  lemma TypeKeyDots(entry: string, ch: char)
    requires !(ch == '.' && '.' in entry) && Dots(entry) <= 1
    ensures Dots(TypeKey(entry, ch)) <= 1
  {
    if ch == '.' {
      if entry == "" || entry == "-0" {
        assert multiset("0.") == multiset{'0', '.'};
        assert multiset("-0.") == multiset{'-', '0', '.'};
      } else {
        DotsPositive(entry);
        DotsOfConcat(entry, ".");
      }
    } else if entry == "0" {
      assert multiset([ch]) == multiset{ch};
    } else if entry == "-0" {
      assert multiset("-" + [ch]) == multiset{'-', ch};
    } else {
      DotsOfConcat(entry, [ch]);
      assert multiset([ch]) == multiset{ch};
    }
  }

  /** Typing a digit or a point adds no white space. */
  lemma TypeKeyNoSpace(entry: string, ch: char)
    requires (IsDigit(ch) || ch == '.') && NoSpace(entry)
    ensures NoSpace(TypeKey(entry, ch))
  {
    assert !IsSpace(ch);
    if ch == '.' {
      if !(entry == "" || entry == "-0") {
        NoSpaceConcat(entry, ".");
      }
    } else if entry != "0" && entry != "-0" {
      NoSpaceConcat(entry, [ch]);
    }
  }

  /** Typing a digit or a point keeps the entry display text; the cut to
      MAX_ENTRY_LENGTH characters cannot add a point. */
  lemma InputNumberKeepsInv(c: Calc, ch: char)
    requires Inv(c) && (IsDigit(ch) || ch == '.')
    ensures Inv(InputNumber(c, ch))
  {
    var d := StartFresh(c);
    if !(ch == '.' && '.' in d.entry) {
      var typed := TypeKey(d.entry, ch);
      TypeKeyDots(d.entry, ch);
      TypeKeyNoSpace(d.entry, ch);
      assert IsEntryText(typed);
      if |typed| > MAX_ENTRY_LENGTH {
        DotsOfSlice(typed, 0, MAX_ENTRY_LENGTH);
        assert typed[0..MAX_ENTRY_LENGTH] == typed[..MAX_ENTRY_LENGTH];
        assert IsEntryText(typed[..MAX_ENTRY_LENGTH]);
      }
    }
  }

  lemma NegateKeepsInv(c: Calc)
    requires Inv(c)
    ensures Inv(Negate(c))
  {
    if StartsWithMinus(c.entry) {
      DropFirstText(c.entry);
    } else if c.entry != "" {
      PrefixMinusText(c.entry);
    } else {
      assert Negate(c).entry == "-0";
      assert multiset("-0") == multiset{'-', '0'};
    }
  }

  lemma PushOperatorKeepsInv(h: Host, c: Calc, op: string)
    requires Inv(c)
    ensures Inv(PushOperator(h, c, op))
  {
    ErrorIsEntryText();
  }

  lemma PressEqualsKeepsInv(h: Host, c: Calc)
    requires h.Valid() && Inv(c)
    ensures Inv(PressEquals(h, c))
  {
    ErrorIsEntryText();
  }

  /** The row "=" records holds the new entry, which is display text. */
  lemma PressEqualsRecordedKeepsInv(h: Host, c: Calc)
    requires h.Valid() && Inv(c)
    ensures Inv(PressEqualsRecorded(h, c))
  {
    PressEqualsKeepsInv(h, c);
    var before := SecondaryText(h, c.operands, c.operators, c.entry);
    var e := PressEquals(h, c);
    if e.entry != "Error" && !IsBlank(before) {
      var row := HistoryItem(before, e.entry);
      assert PressEqualsRecorded(h, c) == e.(history := c.history + [row]);
      forall i | 0 <= i < |c.history| + 1
        ensures IsEntryText((c.history + [row])[i].result)
      {
        if i < |c.history| {
          assert (c.history + [row])[i] == c.history[i];
        }
      }
    } else {
      assert PressEqualsRecorded(h, c) == e;
    }
  }

  lemma MemoryKeepsInv(h: Host, c: Calc, key: MemoryKey)
    requires h.Valid() && Inv(c)
    ensures Inv(Memory(h, c, key))
  {
  }

  lemma SelectHistoryKeepsInv(c: Calc, k: nat)
    requires Inv(c) && k < |c.history|
    ensures Inv(SelectHistory(c, k))
  {
  }

  lemma ApplySqrtKeepsInv(h: Host, c: Calc)
    requires h.Valid() && Inv(c)
    ensures Inv(ApplySqrt(h, c))
  {
    ErrorIsEntryText();
  }

  lemma ApplySquareKeepsInv(h: Host, c: Calc)
    requires h.Valid() && Inv(c)
    ensures Inv(ApplySquare(h, c))
  {
  }

  lemma ApplyReciprocalKeepsInv(h: Host, c: Calc)
    requires h.Valid() && Inv(c)
    ensures Inv(ApplyReciprocal(h, c))
  {
    ErrorIsEntryText();
  }

  lemma ApplyPercentKeepsInv(h: Host, c: Calc)
    requires h.Valid() && Inv(c)
    ensures Inv(ApplyPercent(h, c))
  {
  }
}
