# Calculator engine (basic mode), modelled in Dafny

The web calculator keeps its whole state in a few closure variables in
`script.js`. These are:

- the entry being typed, `currentStr`;
- an operand stack and an operator stack;
- the flag `justCalculated`, which is set by a successful "=";
- `lastResult`;
- the history list;
- a single memory value.

Key handlers update these variables one key press at a time. An operator
key evaluates eagerly, left to right, with no operator precedence. A failed
`applyOperator` (in an operator key or "="), √ of a negative value and 1/x
of zero reset the engine to "Error" with both stacks empty; √ of −∞ counts
as negative there. Elsewhere a non-finite value does not reset: x² and % of
a non-finite value, √ of NaN or +∞, and 1/x of NaN (for example of the
entry "-" or "Error") only write "Error" into the entry and leave the
stacks, the flag and the last result as they were.

The model has two layers. Module `Transitions` states each handler as a
function from the state before a key press to the state after it. Class
`Engine.Calculator` has the same variables as fields, and its methods
update them in place the way the handlers do. Each method is proved to
produce exactly its transition and to keep the invariant `Transitions.Inv`
(`ClearAll`, which the other handlers also call mid-update, keeps it
whenever it held before).
The invariant says:

- the entry has no white space and at most one decimal point;
- an operator is pending only over a staged operand;
- no operator is pending after a successful "=";
- every result in the history is display text.

The other modules:

- `Numbers`: JavaScript numbers as finite reals, NaN, and the two infinities.
- `Text`: the string predicates the displays rely on.
- `Display`: `toNumber`, `formatNumberForDisplay`, and the two display strings.
- `Operators`: `applyOperator`.
- `Invariant`: one preservation lemma per handler.
- `EntryProperties`: properties of typing.
- `ReductionProperties`: properties of operators and "=", up to the value of a whole key sequence.
- `HistoryMemory`: properties of the history log and the memory keys.

Some things the engine calls but does not define are passed in as the
`Display.Host` value:

- `Number(str)` on a non-empty string;
- the digit formatting of a finite value;
- `String(n)`;
- `Math.sqrt`.

The only facts the model assumes about them are the ones in
`Host.Valid()`: formatted output is non-empty, and printed output has no
white space and at most one decimal point.

### Behaviour as the code has it

Where a natural reading of the calculator and the code differ, the model
follows the code:

- The memory is one nullable value, not a stack. MR with nothing stored
  does nothing; it does not show 0.
- M+ and M− start from 0 when nothing is stored, and also when NaN is
  stored (`memoryValue || 0`).
- After the "Error" reset, a digit is appended to "Error", giving for
  example "Error5", because `justCalculated` is false there.
- "=" pushes a non-empty entry without clearing it. With fewer than two
  operands, it puts `lastResult` at the bottom of the operand stack
  (`unshift`), so the last result becomes the LEFT operand.
- "=" on a lone number leaves that number staged. An operator pressed next
  stages the entry a second time, so `10 = +` has operands `10 10`. The
  final value of `10 = + 5 =` is still 15.
- "=" on a lone number still writes a history row, because the secondary
  display showed the number.
- A click on a history row empties both stacks but leaves `justCalculated`
  and `lastResult` alone.
- The secondary display text that gates a history row is recomputed from
  the state (`Display.SecondaryText`), not stored. Every handler that
  changes the entry or a stack ends with `updateDisplays`, so the two are
  equal whenever "=" is pressed.

## Model

| member | source | states |
|---|---|---|
| Numbers.ZeroPlus | script.js:501-506 | 0 + v is v for every number, including NaN and the infinities |
| Numbers.Add | script.js:501-506 | no contract of its own; the body models JavaScript `+` on finite values, NaN and the infinities (stated by `Numbers.AddFacts`) |
| Numbers.AddFacts | script.js:501-506 | `+` is finite iff both operands are, and is then the real sum; NaN iff an operand is NaN or the infinities have opposite signs; commutative |
| Numbers.Mul | script.js:191 | no contract of its own; the body models JavaScript `*` (stated by `Numbers.MulFacts`) |
| Numbers.MulFacts | script.js:191 | `*` is finite iff both operands are, and is then the real product; 0 times an infinity is NaN; commutative |
| Numbers.Div | script.js:207 | no contract of its own; the body models JavaScript `/` by a non-zero divisor (stated by `Numbers.DivFacts`) |
| Numbers.DivFacts | script.js:207 | the real quotient of finite operands; a finite value over an infinity is 0; finite iff the dividend is finite and the divisor is not NaN; NaN for NaN or two infinities |
| Text.DropFirstText | script.js:214 | dropping the leading "-" keeps an entry display text |
| Text.DropLastText | script.js:76 | dropping the last character keeps an entry display text |
| Text.PrefixMinusText | script.js:215 | prefixing "-" keeps an entry display text |
| Display.ToNumber | script.js:33-36 | the empty string reads as NaN; any other string is `Number(str)` |
| Display.FormatForDisplay | script.js:38-46 | every non-finite value formats as "Error"; with a valid host the output is non-empty display text |
| Display.Primary | script.js:49 | the empty entry shows "0"; a non-empty entry shows itself |
| Display.InterleaveSnoc | script.js:51-54 | one more operand appends the operand, then the operator of the same index if there is one |
| Display.SecondaryText | script.js:50-57 | no contract of its own; the body joins the interleaved operands and operators and the non-empty entry with spaces (`Engine.Calculator.SecondaryDisplay` and `Display.SecondaryBlank` state it) |
| Display.SecondaryBlank | script.js:50-57 | the secondary display trims to nothing iff no operand is staged and the entry is empty |
| Operators.ApplyOperator | script.js:81-99 | "Error" iff an operand is non-finite, the operator is unknown, or it divides by zero; otherwise the sum, difference (for both minus signs), product or quotient |
| Transitions.Initial | script.js:21-27 | the state on load satisfies the invariant: empty entry, empty stacks, flag false, no last result, empty history and memory |
| Transitions.ClearAll | script.js:60-68 | empties the entry and both stacks, clears the flag and the last result, keeps history and memory |
| Transitions.ErrorReset | script.js:124-128 | the error reset: entry "Error", empty stacks, flag false, no last result, history and memory kept |
| Transitions.ClearEntry | script.js:70-73 | empties the entry and changes nothing else |
| Transitions.Backspace | script.js:75-78 | an empty entry is left alone; otherwise exactly its last character is removed and nothing else changes |
| Transitions.TypeKey | script.js:239-250 | no contract of its own; the body models the keystroke branches (`Invariant.TypeKeyDots`, `Invariant.TypeKeyNoSpace` and `EntryProperties.TypingExtends` state it) |
| Transitions.InputNumber | script.js:230-255 | typing clears the flag; after "=" it empties both stacks, otherwise it keeps them; history, memory and last result are kept; a second point changes nothing; otherwise the entry becomes the first min(24, length) characters of the typed text |
| Transitions.Negate | script.js:212-220 | only the entry changes: a leading "-" is removed, otherwise one is added, and the empty entry becomes "-0" |
| Transitions.StageOperand | script.js:104-116 | staging leaves the entry empty, the flag false and at least one operand, and keeps the operators and other fields |
| Transitions.PushOperator | script.js:102-136 | either the error reset, or an empty entry with the new operator on top over a staged operand, with last result, history and memory kept |
| Transitions.StageEquals | script.js:139-144 | the entry's value is pushed when non-empty; with fewer than two operands the last result goes underneath; nothing else changes |
| Transitions.PressEquals | script.js:138-167 | history and memory are kept; the entry is unchanged, "Error", or a result recorded as the last result with the flag set |
| Transitions.PressEqualsRecorded | script.js:473-481 | at most one row is added, earlier rows are kept, and otherwise it is exactly `pressEquals` |
| Transitions.Memory | script.js:487-506 | no contract of its own; the body models the memory-row switch (`HistoryMemory.MemoryFrame`, `StoreClearRecall`, `AddToNothing`, `SubtractFromNothing` state it) |
| Transitions.SelectHistory | script.js:408-413 | the row's result becomes the entry, both stacks are emptied, and nothing else changes |
| Transitions.ApplySqrt | script.js:170-184 | a negative value resets to "Error"; otherwise the entry becomes the formatted square root and nothing else changes |
| Transitions.ApplySquare | script.js:186-194 | the entry becomes the formatted square of the target value and nothing else changes |
| Transitions.ApplyReciprocal | script.js:196-210 | a zero value resets to "Error"; otherwise the entry becomes the formatted 1/x and nothing else changes |
| Transitions.ApplyPercent | script.js:222-227 | the entry becomes the formatted target/100 and nothing else changes |
| Invariant.ErrorIsEntryText | script.js:126 | the error text "Error" is display text |
| Invariant.ClearAllKeepsInv | script.js:60-68 | `clearAll` keeps the invariant |
| Invariant.ErrorResetKeepsInv | script.js:124-128 | the error reset keeps the invariant |
| Invariant.ClearEntryKeepsInv | script.js:70-73 | `clearEntry` keeps the invariant |
| Invariant.BackspaceKeepsInv | script.js:75-78 | `backspace` keeps the invariant |
| Invariant.TypeKeyDots | script.js:239-250 | unless a second point is typed, typing leaves at most one decimal point |
| Invariant.TypeKeyNoSpace | script.js:239-250 | typing a digit or a point adds no white space |
| Invariant.InputNumberKeepsInv | script.js:230-255 | a digit or a point keeps the invariant: never two points, and the 24-character cut adds none |
| Invariant.NegateKeepsInv | script.js:212-220 | `applyNegate` keeps the invariant |
| Invariant.PushOperatorKeepsInv | script.js:102-136 | `pushOperator` keeps the invariant |
| Invariant.PressEqualsKeepsInv | script.js:138-167 | `pressEquals` keeps the invariant |
| Invariant.PressEqualsRecordedKeepsInv | script.js:473-481 | "=" with its history row keeps the invariant |
| Invariant.MemoryKeepsInv | script.js:487-506 | every memory key keeps the invariant |
| Invariant.SelectHistoryKeepsInv | script.js:408-413 | a history click keeps the invariant |
| Invariant.ApplySqrtKeepsInv | script.js:170-184 | `applySqrt` keeps the invariant |
| Invariant.ApplySquareKeepsInv | script.js:186-194 | `applySquare` keeps the invariant |
| Invariant.ApplyReciprocalKeepsInv | script.js:196-210 | `applyReciprocal` keeps the invariant |
| Invariant.ApplyPercentKeepsInv | script.js:222-227 | `applyPercent` keeps the invariant |
| Engine.Calculator.constructor | script.js:513 | the new engine is the initial state and satisfies the invariant |
| Engine.Calculator.PrimaryDisplay | script.js:49 | the primary display text |
| Engine.Calculator.SecondaryDisplay | script.js:50-57 | the loop builds exactly the interleaving of formatted operands and operators, then the entry, joined by spaces |
| Engine.Calculator.ClearAll | script.js:60-68 | performs `Transitions.ClearAll` in place and keeps the invariant when it held before |
| Engine.Calculator.ClearEntry | script.js:70-73 | performs `Transitions.ClearEntry` and keeps the invariant |
| Engine.Calculator.Backspace | script.js:75-78 | performs `Transitions.Backspace` and keeps the invariant |
| Engine.Calculator.TypeIntoEntry | script.js:239-250 | the keystroke changes only the entry, to `TypeKey` of the old entry |
| Engine.Calculator.InputNumber | script.js:230-255 | performs `Transitions.InputNumber` and keeps the invariant |
| Engine.Calculator.ApplyNegate | script.js:212-220 | performs `Transitions.Negate` and keeps the invariant |
| Engine.Calculator.PopAndApply | script.js:119-123 | pops the top operator, then b, then a, and returns `applyOperator(a, b, op)`; nothing else changes |
| Engine.Calculator.StageForOperator | script.js:104-116 | performs `Transitions.StageOperand` in place |
| Engine.Calculator.PushOperator | script.js:102-136 | performs `Transitions.PushOperator` and keeps the invariant |
| Engine.Calculator.StageForEquals | script.js:139-144 | performs `Transitions.StageEquals` in place |
| Engine.Calculator.ShowResult | script.js:158-162 | the result becomes the formatted entry and the last result, the stacks are emptied and the flag is set |
| Engine.Calculator.PressEquals | script.js:138-167 | performs `Transitions.PressEquals` and keeps the invariant |
| Engine.Calculator.PressEqualsRecorded | script.js:473-481 | performs `Transitions.PressEqualsRecorded` and keeps the invariant |
| Engine.Calculator.PressMemory | script.js:487-506 | performs `Transitions.Memory` and keeps the invariant |
| Engine.Calculator.SelectHistory | script.js:408-413 | performs `Transitions.SelectHistory` and keeps the invariant |
| Engine.Calculator.ReadTarget | script.js:171-174 | reads the entry's value, or the primary display's when the entry is empty |
| Engine.Calculator.ApplySqrt | script.js:170-184 | performs `Transitions.ApplySqrt` and keeps the invariant |
| Engine.Calculator.ApplySquare | script.js:186-194 | performs `Transitions.ApplySquare` and keeps the invariant |
| Engine.Calculator.ApplyReciprocal | script.js:196-210 | performs `Transitions.ApplyReciprocal` and keeps the invariant |
| Engine.Calculator.ApplyPercent | script.js:222-227 | performs `Transitions.ApplyPercent` and keeps the invariant |
| EntryProperties.SecondPointIgnored | script.js:239-240 | a second decimal point leaves the state unchanged |
| EntryProperties.DigitAppends | script.js:249 | away from "0", "-0" and the length cut, a digit is appended and nothing else changes |
| EntryProperties.KeyAtCapIgnored | script.js:251-253 | at 24 characters a further digit or point leaves the state unchanged |
| EntryProperties.LeadingZeroReplaced | script.js:247-248 | a digit replaces a lone "0", and the zero of "-0" |
| EntryProperties.KeyAfterEqualsStartsFresh | script.js:231-237 | after "=", a digit or a point starts a new expression with empty stacks |
| EntryProperties.DigitAfterErrorAppends | script.js:246-250 | after the error reset, a digit is appended to "Error" |
| EntryProperties.NegateTwice | script.js:213-215 | negating twice restores a non-empty entry, unless it is a lone "-" or starts with two |
| EntryProperties.NegatedZeroTakesPoint | script.js:241-242 | negating the empty entry gives "-0", and a point then gives "-0." |
| EntryProperties.BackspaceUndoesDigit | script.js:75-76 | backspace right after an appended digit restores the state |
| EntryProperties.TypingExtends | script.js:239-250 | typing the rest of a plain numeral extends the entry by exactly the keys typed |
| EntryProperties.TypingShowsNumeral | script.js:230-255 | from an empty entry, a plain numeral typed key by key is shown exactly |
| ReductionProperties.OperatorPushed | script.js:102-136 | unless it resets to "Error", an operator leaves the entry empty and itself on top of the operator stack |
| ReductionProperties.EagerReduction | script.js:119-131 | with an operator pending over two operands, the top operator is applied to a (below) and b (top); success replaces both by the result (one operand fewer) and replaces the operator; "Error" resets |
| ReductionProperties.NoReductionDue | script.js:118-134 | without a reduction due, the staged operands stay and the operator is pushed |
| ReductionProperties.OperatorAfterEquals | script.js:104-108 | an operator after "=" continues from the shown value, which is the only operand |
| ReductionProperties.EqualsReduces | script.js:146-163 | "=" with a reduction due: success shows the formatted value, records it, empties both stacks and sets the flag; "Error" resets |
| ReductionProperties.EqualsWithoutOperator | script.js:138-163 | "=" with no operator pending leaves entry, last result, flag and operators unchanged; the operands only grow |
| ReductionProperties.EqualsUsesLastResultOnLeft | script.js:142-144 | with one operand x, operator op and last result y, "=" computes y op x |
| ReductionProperties.FirstTerm | script.js:102-136 | the first operator stages the first numeral as the only operand |
| ReductionProperties.LaterTerm | script.js:118-132 | each later operator reduces the pending operation to a single operand |
| ReductionProperties.FeedKeepsOneOperand | script.js:102-136 | while no step fails, the key sequence keeps one operand, the left-to-right value so far |
| ReductionProperties.LeftToRight | script.js:102-167 | "=" after `first op1 n1 ... opk nk` shows the precedence-free left-to-right value, or resets when the last step fails |
| ReductionProperties.NoPrecedence | script.js:118-132 | `2 + 3 × 4 =` gives 20, not 14 |
| ReductionProperties.DivisionByZero | script.js:93-94 | `5 ÷ 0 =` resets to "Error" with empty stacks and no last result |
| ReductionProperties.LoneEquals | script.js:138-167 | `10 =` keeps 10 as the entry and leaves it staged, with the flag not set |
| ReductionProperties.LoneEqualsThenOperator | script.js:102-116 | after `10 =`, "+" stages 10 a second time |
| ReductionProperties.ContinueAfterLoneEquals | script.js:138-167 | `10 = + 5 =` still gives 15 and empties both stacks |
| ReductionProperties.UnguardedErrorKeepsStacks | script.js:175-225 | x² and % of a non-finite value, √ of NaN or +∞ and 1/x of NaN only set the entry to "Error" and nothing else changes; √ of −∞ resets |
| HistoryMemory.HistoryRow | script.js:473-481 | "=" adds exactly one row iff the result is not "Error" and an operand was staged or the entry was non-empty; the row holds the expression shown before and the new entry; otherwise the state is that of `pressEquals` |
| HistoryMemory.NoHistoryFromEmptyExpression | script.js:477 | "=" on an empty expression records nothing |
| HistoryMemory.MemoryFrame | script.js:487-506 | a memory key changes only the memory value, and MR only the entry |
| HistoryMemory.StoreClearRecall | script.js:489-500 | MS stores the entry's value (0 for the empty entry), MC forgets it, MR shows it and does nothing when memory is empty |
| HistoryMemory.AddToNothing | script.js:501-503 | M+ with nothing (or NaN) stored stores the entry's value |
| HistoryMemory.SubtractFromNothing | script.js:504-506 | M− with nothing (or NaN) stored stores the negated entry value |
| HistoryMemory.MemoryAddThenSubtract | script.js:501-506 | M+ then M− of the same entry restore any stored finite value, in exact arithmetic (with doubles the intermediate sum may round) |
| HistoryMemory.ClearThenRecall | script.js:492-500 | MC then MR leaves the entry as it was |
| HistoryMemory.StoreAddRecall | script.js:487-506 | 7 MS CE 3 M+ MR shows the printed form of 10 |

## Left out

- DOM lookups, event wiring, `handleButtonPress` and the keyboard handler (script.js:8-18, 258-372, 461-470, 484-486) are left out. They are UI glue. Each key they dispatch is a method of `Engine.Calculator`.
- `renderSidebar` (script.js:385-458) is HTML generation and is left out. Its MC, M+ and M− buttons repeat the memory-row switch, which `PressMemory` models. The history-row click inside it is modelled as `SelectHistory`.
- Floating point is left out: rounding, overflow to Infinity, and the sign of zero. Finite values are exact reals.
- The concrete `Number(str)`, the digit formatting (`toPrecision`, `toFixed`, `toExponential`), `String(n)` and `Math.sqrt` are left out. They are parameters in `Display.Host`.
- `console.warn` is left out.
- The branch `n === "Error"` of `formatNumberForDisplay` is left out. It is unreachable because only numbers are passed.
- Engine.Calculator.InputNumber: requires the key to be a digit or ".". The keypad and keyboard send nothing else, and the invariant's no-white-space part depends on it. `Transitions.InputNumber` itself accepts any character.
- Transitions.Memory: carries no contract of its own. `HistoryMemory.MemoryFrame`, `StoreClearRecall`, `AddToNothing` and `SubtractFromNothing` state what it does.
- `updateDisplays` writes to `displaySecondary`, and the history wrapper reads it back. The model does not keep that text as state. It recomputes the text from the state whenever it is needed (`Display.SecondaryText`).
