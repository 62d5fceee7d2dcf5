/** The engine's state and its key handlers as functions from the state
    before a key press to the state after it. The class `Calculator` in
    module Engine performs the same updates in place and is proved to agree
    with these functions. */
module Transitions {
  import opened Numbers
  import opened Text
  import opened Display
  import opened Operators

  const MAX_DISPLAY_LENGTH := 18
  /** The entry is cut to MAX_DISPLAY_LENGTH + 6 characters (script.js:251-253). */
  const MAX_ENTRY_LENGTH := MAX_DISPLAY_LENGTH + 6

  datatype Option<T> = None | Some(value: T)

  /** One row of `historyList`: the expression shown before "=", and the result. */
  datatype HistoryItem = HistoryItem(expr: string, result: string)

  /** The buttons of the memory row. */
  datatype MemoryKey = MS | MC | MR | MPlus | MMinus

  /** The closure variables of the engine (script.js:21-27, 382-383). */
  datatype Calc = Calc(
    entry: string,               // currentStr
    operands: seq<Num>,          // operands, top at the back
    operators: seq<string>,      // operators, top at the back
    justCalculated: bool,
    lastResult: Option<Num>,
    history: seq<HistoryItem>,   // historyList
    memory: Option<Num>)         // memoryValue, null as None

  /** What every reachable state satisfies: the entry is display text, an
      operator is pending only over a staged operand, a finished evaluation
      leaves no operator pending, and every recorded result is display text. */
  predicate Inv(c: Calc) {
    IsEntryText(c.entry)
    && (c.operands == [] ==> c.operators == [])
    && (c.justCalculated ==> c.operators == [])
    && (forall i | 0 <= i < |c.history| :: IsEntryText(c.history[i].result))
  }

  /** The state `clearAll` produces, followed by `currentStr = "Error"`:
      the error-reset policy. History and memory survive. */
  predicate ResetByError(c: Calc, r: Calc) {
    r.entry == "Error" && r.operands == [] && r.operators == []
    && !r.justCalculated && r.lastResult == None
    && r.history == c.history && r.memory == c.memory
  }

  /** The state on load: `clearAll()` over empty history and memory (script.js:382-383, 513). */
  function Initial(): (c: Calc)
    ensures Inv(c)
    ensures c.entry == "" && c.operands == [] && c.operators == []
    ensures !c.justCalculated && c.lastResult == None
    ensures c.history == [] && c.memory == None
  {
    Calc("", [], [], false, None, [], None)
  }

  /** `clearAll` */
  function ClearAll(c: Calc): (r: Calc)
    ensures r.entry == "" && r.operands == [] && r.operators == []
    ensures !r.justCalculated && r.lastResult == None
    ensures r.history == c.history && r.memory == c.memory
  {
    c.(entry := "", operands := [], operators := [], justCalculated := false, lastResult := None)
  }

  /** `clearAll(); currentStr = "Error"` */
  function ErrorReset(c: Calc): (r: Calc)
    ensures ResetByError(c, r)
  {
    ClearAll(c).(entry := "Error")
  }

  /** `clearEntry` */
  function ClearEntry(c: Calc): (r: Calc)
    ensures r.entry == ""
    ensures r == c.(entry := r.entry)
  {
    c.(entry := "")
  }

  /** `backspace`: drops the last character of the entry, if any. */
  function Backspace(c: Calc): (r: Calc)
    ensures c.entry == "" ==> r == c
    ensures c.entry != "" ==> r == c.(entry := r.entry) && r.entry + [c.entry[|c.entry| - 1]] == c.entry
  {
    if |c.entry| > 0 then
      c.(entry := c.entry[..|c.entry| - 1])
    else c
  }

  /** The entry after typing `ch`, before the length cut (script.js:239-250). */
  function TypeKey(entry: string, ch: char): string {
    if ch == '.' then
      (if entry == "" || entry == "-0" then (if StartsWithMinus(entry) then "-0." else "0.")
       else entry + ".")
    else if entry == "0" then [ch]
    else if entry == "-0" then "-" + [ch]
    else entry + [ch]
  }

  /** The state `inputNumber` types into: after "=" the entry and both
      stacks start empty (script.js:231-237). */
  function StartFresh(c: Calc): Calc {
    if c.justCalculated
    then c.(entry := "", operands := [], operators := [], justCalculated := false)
    else c
  }

  /** `inputNumber(ch)`: a digit or a decimal point typed into the entry.
      A second point changes nothing; otherwise the entry becomes the typed
      text, cut to its first MAX_ENTRY_LENGTH characters. */
  function InputNumber(c: Calc, ch: char): (r: Calc)
    ensures r.history == c.history && r.memory == c.memory && r.lastResult == c.lastResult
    ensures !r.justCalculated
    ensures c.justCalculated ==> r.operands == [] && r.operators == []
    ensures !c.justCalculated ==> r.operands == c.operands && r.operators == c.operators
    ensures r == c || |r.entry| <= MAX_ENTRY_LENGTH
    ensures var d := StartFresh(c);
            ch == '.' && '.' in d.entry ==> r == d
    ensures var d := StartFresh(c); var typed := TypeKey(d.entry, ch);
            !(ch == '.' && '.' in d.entry) ==>
              r == d.(entry := r.entry) && r.entry <= typed
              && |r.entry| == (if |typed| > MAX_ENTRY_LENGTH then MAX_ENTRY_LENGTH else |typed|)
  {
    var d := StartFresh(c);
    if ch == '.' && '.' in d.entry then d
    else
      var typed := TypeKey(d.entry, ch);
      d.(entry := if |typed| > MAX_ENTRY_LENGTH then typed[..MAX_ENTRY_LENGTH] else typed)
  }

  /** `applyNegate`: toggles a leading "-" on the entry, or negates the
      primary display ("0") when the entry is empty. */
  function Negate(c: Calc): (r: Calc)
    ensures r == c.(entry := r.entry)
    ensures c.entry == "" ==> r.entry == "-0"
    ensures StartsWithMinus(c.entry) ==> "-" + r.entry == c.entry
    ensures c.entry != "" && !StartsWithMinus(c.entry) ==> r.entry == "-" + c.entry
  {
    if c.entry != "" then
      c.(entry := if StartsWithMinus(c.entry) then c.entry[1..] else "-" + c.entry)
    else
      c.(entry := "-" + Primary(c.entry))
  }

  /** Lines 104-116 of `pushOperator`: after "=" the entry alone becomes the
      operand stack; then a non-empty entry is pushed, or 0 when nothing is
      staged. */
  function StageOperand(h: Host, c: Calc): (r: Calc)
    ensures r.entry == "" && r.operands != [] && !r.justCalculated
    ensures r.operators == c.operators && r.lastResult == c.lastResult
    ensures r.history == c.history && r.memory == c.memory
    ensures c.justCalculated ==> r.operands == [ToNumber(h, c.entry)]
    ensures !c.justCalculated && c.entry != "" ==> r.operands == c.operands + [ToNumber(h, c.entry)]
    ensures !c.justCalculated && c.entry == "" && c.operands == [] ==> r.operands == [Fin(0.0)]
    ensures !c.justCalculated && c.entry == "" && c.operands != [] ==> r.operands == c.operands
  {
    var d := if c.justCalculated
             then c.(operands := [ToNumber(h, c.entry)], entry := "", justCalculated := false)
             else c;
    if d.entry != "" then d.(operands := d.operands + [ToNumber(h, d.entry)], entry := "")
    else if d.operands == [] then d.(operands := [Fin(0.0)])
    else d
  }

  /** A reduction is due: an operator is pending over at least two operands
      (script.js:119, 146). */
  predicate CanReduce(c: Calc) {
    |c.operators| > 0 && |c.operands| >= 2
  }

  /** The reduction itself: the top operator applied to the operand below
      the top (`a`) and the top operand (`b`). */
  function TopReduction(c: Calc): Outcome
    requires CanReduce(c)
  {
    ApplyOperator(c.operands[|c.operands| - 2], c.operands[|c.operands| - 1], c.operators[|c.operators| - 1])
  }

  /** `pushOperator(op)`: stage the entry, eagerly reduce the previous
      operator if one is pending over two operands, then push `op`. */
  function PushOperator(h: Host, c: Calc, op: string): (r: Calc)
    ensures ResetByError(c, r)
            || (r.entry == "" && |r.operators| > 0 && r.operators[|r.operators| - 1] == op
                && r.operands != [] && !r.justCalculated && r.lastResult == c.lastResult
                && r.history == c.history && r.memory == c.memory)
  {
    var s := StageOperand(h, c);
    if CanReduce(s) then
      match TopReduction(s)
      case Error => ErrorReset(s)
      case Ok(v) =>
        s.(operands := s.operands[..|s.operands| - 2] + [Fin(v)],
           operators := s.operators[..|s.operators| - 1] + [op],
           entry := "")
    else
      s.(operators := s.operators + [op])
  }

  /** Lines 139-144 of `pressEquals`: a non-empty entry is pushed (and kept
      as the entry); with fewer than two operands the last result, if any,
      is put under them. */
  function StageEquals(h: Host, c: Calc): (r: Calc)
    ensures r == c.(operands := r.operands)
    ensures var pushed := c.operands + (if c.entry != "" then [ToNumber(h, c.entry)] else []);
            r.operands == if |pushed| < 2 && c.lastResult.Some? then [c.lastResult.value] + pushed else pushed
  {
    var pushed := if c.entry != "" then c.(operands := c.operands + [ToNumber(h, c.entry)]) else c;
    if |pushed.operands| < 2 && pushed.lastResult.Some? then
      pushed.(operands := [pushed.lastResult.value] + pushed.operands)
    else pushed
  }

  /** `pressEquals` (the function before the history wrapper). */
  function PressEquals(h: Host, c: Calc): (r: Calc)
    ensures r.history == c.history && r.memory == c.memory
    ensures r.entry == c.entry || r.entry == "Error" || (r.justCalculated && r.lastResult.Some?)
  {
    var s := StageEquals(h, c);
    if CanReduce(s) then
      match TopReduction(s)
      case Error => ErrorReset(s)
      case Ok(v) =>
        s.(entry := FormatForDisplay(h, Fin(v)), lastResult := Some(Fin(v)),
           operands := [], operators := [], justCalculated := true)
    else s
  }

  /** The wrapper installed over `pressEquals` (script.js:473-481): one
      history row when the result is not "Error" and the secondary display
      before evaluation did not trim to nothing. */
  function PressEqualsRecorded(h: Host, c: Calc): (r: Calc)
    ensures |c.history| <= |r.history| <= |c.history| + 1
    ensures r.history[..|c.history|] == c.history
    ensures r == PressEquals(h, c).(history := r.history)
  {
    var before := SecondaryText(h, c.operands, c.operators, c.entry);
    var e := PressEquals(h, c);
    if e.entry != "Error" && !IsBlank(before) then
      e.(history := e.history + [HistoryItem(before, e.entry)])
    else e
  }

  /** `Number(currentStr || 0)`: the entry's value, 0 for the empty entry. */
  function EntryValue(h: Host, entry: string): Num {
    if entry == "" then Fin(0.0) else h.parse(entry)
  }

  /** `memoryValue || 0`: null, 0 and NaN all count as 0. */
  function MemoryBase(m: Option<Num>): Num {
    if m.Some? && IsTruthy(m.value) then m.value else Fin(0.0)
  }

  /** The memory-row switch (script.js:487-506). */
  function Memory(h: Host, c: Calc, key: MemoryKey): Calc {
    var val := EntryValue(h, c.entry);
    match key
    case MS => c.(memory := Some(val))
    case MC => c.(memory := None)
    case MR => if c.memory.Some? then c.(entry := h.show(c.memory.value)) else c
    case MPlus => c.(memory := Some(Add(MemoryBase(c.memory), val)))
    case MMinus => c.(memory := Some(Sub(MemoryBase(c.memory), val)))
  }

  /** A click on history row k (script.js:408-413): its result becomes the
      entry and both stacks are emptied; the other fields are left alone. */
  function SelectHistory(c: Calc, k: nat): (r: Calc)
    requires k < |c.history|
    ensures r.entry == c.history[k].result && r.operands == [] && r.operators == []
    ensures r == c.(entry := r.entry, operands := [], operators := [])
  {
    c.(entry := c.history[k].result, operands := [], operators := [])
  }

  /** The value a unary key acts on: `toNumber` of the entry, or of the
      primary display when the entry is empty (script.js:171-174, 223). */
  function Target(h: Host, c: Calc): Num {
    ToNumber(h, Primary(c.entry))
  }

  /** `Math.sqrt` on every number. */
  function Sqrt(h: Host, t: Num): Num {
    match t
    case Fin(x) => if x < 0.0 then NaN else Fin(h.sqrt(x))
    case NaN => NaN
    case Inf(neg) => if neg then NaN else Inf(false)
  }

  /** `applySqrt`: a negative value resets to "Error". */
  function ApplySqrt(h: Host, c: Calc): (r: Calc)
    ensures IsNegative(Target(h, c)) ==> ResetByError(c, r)
    ensures !IsNegative(Target(h, c)) ==> r == c.(entry := FormatForDisplay(h, Sqrt(h, Target(h, c))))
  {
    var t := Target(h, c);
    if IsNegative(t) then ErrorReset(c) else c.(entry := FormatForDisplay(h, Sqrt(h, t)))
  }

  /** `applySquare`: no guard. */
  function ApplySquare(h: Host, c: Calc): (r: Calc)
    ensures r == c.(entry := FormatForDisplay(h, Mul(Target(h, c), Target(h, c))))
  {
    var t := Target(h, c);
    c.(entry := FormatForDisplay(h, Mul(t, t)))
  }

  /** `applyReciprocal`: a zero value resets to "Error". */
  function ApplyReciprocal(h: Host, c: Calc): (r: Calc)
    ensures IsZero(Target(h, c)) ==> ResetByError(c, r)
    ensures !IsZero(Target(h, c)) ==> r == c.(entry := FormatForDisplay(h, Div(Fin(1.0), Target(h, c))))
  {
    var t := Target(h, c);
    if IsZero(t) then ErrorReset(c) else c.(entry := FormatForDisplay(h, Div(Fin(1.0), t)))
  }

  /** `applyPercent`: no guard. */
  function ApplyPercent(h: Host, c: Calc): (r: Calc)
    ensures r == c.(entry := FormatForDisplay(h, Div(Target(h, c), Fin(100.0))))
  {
    c.(entry := FormatForDisplay(h, Div(Target(h, c), Fin(100.0))))
  }
}
