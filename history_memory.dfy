/** Properties of the history log and the memory value. */
module HistoryMemory {
  import opened Numbers
  import opened Display
  import opened Transitions

  /** "=" appends exactly one history row, holding the expression shown
      before evaluation and the new entry, exactly when the result is not
      "Error" and an operand was staged or the entry was non-empty; it never
      removes or changes earlier rows, and otherwise does what `pressEquals`
      does. */
  lemma HistoryRow(h: Host, c: Calc)
    requires h.Valid() && Inv(c)
    ensures var r := PressEqualsRecorded(h, c);
            var e := PressEquals(h, c);
            (|r.history| == |c.history| + 1 <==>
               e.entry != "Error" && (c.operands != [] || c.entry != ""))
            && (|r.history| == |c.history| + 1 ==>
                  r.history[|c.history|]
                  == HistoryItem(SecondaryText(h, c.operands, c.operators, c.entry), e.entry))
            && (|r.history| == |c.history| ==> r == e)
  {
    SecondaryBlank(h, c.operands, c.operators, c.entry);
  }

  /** "=" on a cleared engine records nothing: the secondary display is empty. */
  lemma NoHistoryFromEmptyExpression(h: Host, c: Calc)
    requires h.Valid() && Inv(c) && c.operands == [] && c.entry == ""
    ensures PressEqualsRecorded(h, c).history == c.history
  {
    HistoryRow(h, c);
  }

  /** A memory key changes nothing but the memory value, and MR nothing but
      the entry. */
  lemma MemoryFrame(h: Host, c: Calc, key: MemoryKey)
    ensures var r := Memory(h, c, key);
            r == c.(entry := r.entry, memory := r.memory)
            && (key != MR ==> r.entry == c.entry)
            && (key == MR ==> r.memory == c.memory)
  {
  }

  /** MS stores the entry's value (0 for an empty entry), MC forgets it,
      MR shows it and with nothing stored changes nothing. */
  lemma StoreClearRecall(h: Host, c: Calc)
    ensures Memory(h, c, MS).memory == Some(if c.entry == "" then Fin(0.0) else h.parse(c.entry))
    ensures Memory(h, c, MC).memory == None
    ensures c.memory == None ==> Memory(h, c, MR) == c
    ensures c.memory.Some? ==> Memory(h, c, MR).entry == h.show(c.memory.value)
  {
  }

  /** M+ starts from 0 when nothing is stored, and also when NaN is stored
      (`memoryValue || 0`). */
  lemma AddToNothing(h: Host, c: Calc)
    requires c.memory == None || c.memory == Some(NaN)
    ensures Memory(h, c, MPlus).memory == Some(EntryValue(h, c.entry))
  {
    var v := EntryValue(h, c.entry);
    assert Memory(h, c, MPlus).memory == Some(Add(MemoryBase(c.memory), v));
    assert MemoryBase(c.memory) == Fin(0.0);
    ZeroPlus(v);
  }

  /** M− starts from 0 in the same cases, so it stores the negated entry. */
  lemma SubtractFromNothing(h: Host, c: Calc)
    requires c.memory == None || c.memory == Some(NaN)
    ensures Memory(h, c, MMinus).memory == Some(Neg(EntryValue(h, c.entry)))
  {
    var v := EntryValue(h, c.entry);
    assert Memory(h, c, MMinus).memory == Some(Add(MemoryBase(c.memory), Neg(v)));
    assert MemoryBase(c.memory) == Fin(0.0);
    ZeroPlus(Neg(v));
  }

  /** M+ and then M− of the same entry give back a stored finite value
      (in exact arithmetic; with doubles the sum may round). When M+ gives
      0 the next base is 0 again, and M− then gives -v, which is m. */
  lemma {:induction false} MemoryAddThenSubtract(h: Host, c: Calc, m: real)
    requires c.memory == Some(Fin(m)) && IsFinite(EntryValue(h, c.entry))
    ensures Memory(h, Memory(h, c, MPlus), MMinus).memory == c.memory
  {
    var v := EntryValue(h, c.entry).r;
    if m == 0.0 {
      assert Memory(h, c, MPlus).memory == Some(Fin(v));
    } else {
      assert Memory(h, c, MPlus).memory == Some(Fin(m + v));
    }
  }

  /** MC then MR leaves the entry as it was (the recall of an empty memory
      does nothing). */
  lemma ClearThenRecall(h: Host, c: Calc)
    ensures var cleared := Memory(h, c, MC);
            Memory(h, cleared, MR) == cleared && cleared.entry == c.entry
  {
  }

  /** 7, MS, CE, 3, M+, MR: the entry shows the printed form of 10. */
  lemma StoreAddRecall(h: Host, c: Calc)
    requires c.entry == "" && !c.justCalculated
    requires h.parse("7") == Fin(7.0) && h.parse("3") == Fin(3.0)
    ensures var typed7 := InputNumber(c, '7');
            var stored := Memory(h, typed7, MS);
            var typed3 := InputNumber(ClearEntry(stored), '3');
            var added := Memory(h, typed3, MPlus);
            Memory(h, added, MR).entry == h.show(Fin(10.0))
  {
    var typed7 := InputNumber(c, '7');
    assert typed7.entry == "7";
    var stored := Memory(h, typed7, MS);
    assert stored.memory == Some(Fin(7.0));
    var typed3 := InputNumber(ClearEntry(stored), '3');
    assert typed3.entry == "3";
    assert Memory(h, typed3, MPlus).memory == Some(Fin(10.0));
  }
}
