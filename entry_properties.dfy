/** Properties of entry editing: `inputNumber`, `backspace`, `applyNegate`. */
module EntryProperties {
  import opened Text
  import opened Transitions

  /** A second decimal point is ignored: the state does not change. */
  lemma SecondPointIgnored(c: Calc)
    requires !c.justCalculated && '.' in c.entry
    ensures InputNumber(c, '.') == c
  {
  }

  /** Away from the special entries "0" and "-0" and below the length cut,
      a digit is appended to the entry and nothing else changes. */
  lemma DigitAppends(c: Calc, ch: char)
    requires IsDigit(ch) && !c.justCalculated
    requires c.entry != "0" && c.entry != "-0" && |c.entry| < MAX_ENTRY_LENGTH
    ensures InputNumber(c, ch) == c.(entry := c.entry + [ch])
  {
  }

  /** At the length cap a further digit or point changes nothing: the typed
      text is cut back to the entry (script.js:251-253). */
  lemma KeyAtCapIgnored(c: Calc, ch: char)
    requires (IsDigit(ch) || ch == '.') && !c.justCalculated && |c.entry| == MAX_ENTRY_LENGTH
    ensures InputNumber(c, ch) == c
  {
    assert (c.entry + [ch])[..MAX_ENTRY_LENGTH] == c.entry;
  }

  /** A lone zero is replaced, not extended: "0" then "5" shows "5", and
      "-0" then "5" shows "-5". */
  lemma LeadingZeroReplaced(c: Calc, ch: char)
    requires IsDigit(ch) && !c.justCalculated
    ensures c.entry == "0" ==> InputNumber(c, ch).entry == [ch]
    ensures c.entry == "-0" ==> InputNumber(c, ch).entry == "-" + [ch]
  {
  }

  /** After a successful "=", a digit or a point starts a new expression:
      the stacks are emptied and the entry holds only what was typed. */
  lemma KeyAfterEqualsStartsFresh(c: Calc, ch: char)
    requires c.justCalculated
    ensures var r := InputNumber(c, ch);
            r.operands == [] && r.operators == [] && !r.justCalculated
            && r.entry == (if ch == '.' then "0." else [ch])
  {
  }

  /** After the error reset, a digit is appended to "Error": the entry
      becomes "Error" followed by the digit, not a fresh number. */
  lemma DigitAfterErrorAppends(c0: Calc, c: Calc, ch: char)
    requires ResetByError(c0, c) && IsDigit(ch)
    ensures InputNumber(c, ch).entry == "Error" + [ch]
  {
  }

  /** Negating a non-empty entry twice gives back the state, unless the
      entry is a lone "-" or starts with two of them. */
  lemma NegateTwice(c: Calc)
    requires c.entry != ""
    requires StartsWithMinus(c.entry) ==> |c.entry| > 1 && c.entry[1] != '-'
    ensures Negate(Negate(c)) == c
  {
    if StartsWithMinus(c.entry) {
      assert "-" + c.entry[1..] == c.entry;
    } else {
      assert ("-" + c.entry)[1..] == c.entry;
    }
  }

  /** Negating the empty entry gives "-0", and a point typed next gives
      "-0." (the special case at script.js:241-242). */
  lemma NegatedZeroTakesPoint(c: Calc)
    requires c.entry == "" && !c.justCalculated
    ensures Negate(c).entry == "-0"
    ensures InputNumber(Negate(c), '.').entry == "-0."
  {
    assert '.' !in "-0";
  }

  /** Backspace after typing a digit below the length cut restores the entry. */
  lemma BackspaceUndoesDigit(c: Calc, ch: char)
    requires IsDigit(ch) && !c.justCalculated
    requires c.entry != "0" && c.entry != "-0" && |c.entry| < MAX_ENTRY_LENGTH
    ensures Backspace(InputNumber(c, ch)) == c
  {
    DigitAppends(c, ch);
    assert (c.entry + [ch])[..|c.entry|] == c.entry;
  }

  /** Typing the characters of `s` one key at a time. */
  function TypeNumeral(c: Calc, s: string): Calc
    decreases |s|
  {
    if s == "" then c else TypeNumeral(InputNumber(c, s[0]), s[1..])
  }

  /** A numeral that the entry shows exactly as typed: digits and at most
      one point, not starting with a point, no zero in front of a digit,
      and within the length cut. */
  predicate PlainNumeral(s: string) {
    0 < |s| <= MAX_ENTRY_LENGTH
    && (forall i | 0 <= i < |s| :: IsDigit(s[i]) || s[i] == '.')
    && Dots(s) <= 1
    && s[0] != '.'
    && !(|s| >= 2 && s[0] == '0' && s[1] != '.')
  }

  /** Typing the rest of a plain numeral extends the entry by exactly the
      keys typed. */
  lemma {:induction false} TypingExtends(c: Calc, s: string)
    requires !c.justCalculated && PlainNumeral(c.entry + s)
    ensures TypeNumeral(c, s) == c.(entry := c.entry + s)
    decreases |s|
  {
    if s != "" {
      var p, ch := c.entry, s[0];
      var whole := p + s;
      assert whole[|p|] == ch;
      if ch == '.' {
        DotsOfConcat(p, s);
        DotsPositive(s);
        DotsPositive(p);
        assert TypeKey(p, ch) == p + [ch];
      } else {
        assert TypeKey(p, ch) == p + [ch];
      }
      var next := InputNumber(c, ch);
      assert next == c.(entry := p + [ch]);
      assert (p + [ch]) + s[1..] == whole;
      TypingExtends(next, s[1..]);
    }
  }

  /** From an empty entry, typing a plain numeral shows exactly that numeral. */
  lemma TypingShowsNumeral(c: Calc, s: string)
    requires !c.justCalculated && c.entry == "" && PlainNumeral(s)
    ensures TypeNumeral(c, s) == c.(entry := s)
  {
    assert c.entry + s == s;
    TypingExtends(c, s);
  }
}
