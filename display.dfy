/** Number parsing and formatting, and the two display strings
    (script.js:33-58). */
module Display {
  import opened Numbers
  import opened Text

  /** What the engine calls but does not define, passed in as functions:
      `Number(str)` on a non-empty string, the digit formatting that
      `formatNumberForDisplay` applies to a finite value (`toPrecision`,
      `toFixed`, `toExponential`), `String(n)`, and `Math.sqrt`. */
  datatype Host = Host(
    parse: string -> Num,
    format: real -> string,
    show: Num -> string,
    sqrt: real -> real)
  {
    /** The only facts the model uses about them: a formatted or printed
        number is non-empty where formatted, and holds no white space and at
        most one decimal point. */
    ghost predicate Valid() {
      (forall x: real :: format(x) != "" && IsEntryText(format(x)))
      && (forall n: Num :: IsEntryText(show(n)))
    }
  }

  /** `toNumber`: the empty string reads as NaN, anything else goes to `Number`. */
  function ToNumber(h: Host, s: string): (n: Num)
    ensures s == "" ==> n.NaN?
    ensures s != "" ==> n == h.parse(s)
  {
    if s == "" then NaN else h.parse(s)
  }

  /** `formatNumberForDisplay`: every non-finite value shows as "Error". */
  function FormatForDisplay(h: Host, n: Num): (s: string)
    ensures !IsFinite(n) ==> s == "Error"
    ensures h.Valid() ==> s != "" && IsEntryText(s)
  {
    if !IsFinite(n) then "Error" else h.format(n.r)
  }

  /** The primary display: the entry, or "0" while the entry is empty. */
  function Primary(entry: string): (s: string)
    ensures s != ""
    ensures entry == "" ==> s == "0"
    ensures entry != "" ==> s == entry
  {
    if entry == "" then "0" else entry
  }

  function FormatAll(h: Host, xs: seq<Num>): seq<string> {
    seq(|xs|, i requires 0 <= i < |xs| => FormatForDisplay(h, xs[i]))
  }

  /** Operand i followed by operator i while there is one: the operator
      stack is shown only as far as the operand stack reaches. */
  function Interleave(xs: seq<string>, ops: seq<string>): seq<string>
    decreases |xs|
  {
    if xs == [] then []
    else if ops == [] then [xs[0]] + Interleave(xs[1..], [])
    else [xs[0], ops[0]] + Interleave(xs[1..], ops[1..])
  }

  /** Adding one operand at the back adds it, then the operator of the same
      index if there is one: the step of the loop in `updateDisplays`. */
  lemma {:induction false} InterleaveSnoc(xs: seq<string>, ops: seq<string>, x: string)
    ensures Interleave(xs + [x], ops)
            == Interleave(xs, ops) + [x] + (if |xs| < |ops| then [ops[|xs|]] else [])
  {
    if xs == [] {
      assert Interleave([], ops) == [];
      assert xs + [x] == [x];
      if ops != [] {
        assert Interleave([x], ops) == [x, ops[0]] + Interleave([], ops[1..]);
      } else {
        assert Interleave([x], ops) == [x] + Interleave([], []);
      }
    } else {
      assert (xs + [x])[0] == xs[0];
      assert (xs + [x])[1..] == xs[1..] + [x];
      if ops == [] {
        InterleaveSnoc(xs[1..], [], x);
      } else {
        InterleaveSnoc(xs[1..], ops[1..], x);
      }
    }
  }

  /** The parts `updateDisplays` joins for the secondary display. */
  function ExpressionParts(h: Host, operands: seq<Num>, operators: seq<string>, entry: string): seq<string> {
    Interleave(FormatAll(h, operands), operators) + (if entry != "" then [entry] else [])
  }

  /** The secondary display text. */
  function SecondaryText(h: Host, operands: seq<Num>, operators: seq<string>, entry: string): string {
    Join(ExpressionParts(h, operands, operators, entry), " ")
  }

  /** The secondary display trims to nothing exactly when no operand is
      staged and the entry is empty; pending operators alone never show. */
  lemma SecondaryBlank(h: Host, operands: seq<Num>, operators: seq<string>, entry: string)
    requires h.Valid() && NoSpace(entry)
    ensures IsBlank(SecondaryText(h, operands, operators, entry)) <==> operands == [] && entry == ""
  {
    var parts := ExpressionParts(h, operands, operators, entry);
    var text := SecondaryText(h, operands, operators, entry);
    if operands != [] {
      var first := FormatForDisplay(h, operands[0]);
      assert parts[0] == first;
      JoinStartsWithHead(parts, " ");
      assert text[0] == first[0];
      assert !IsSpace(text[0]);
    } else if entry != "" {
      assert parts == [entry];
      assert text == entry;
      assert !IsSpace(text[0]);
    } else {
      assert parts == [];
    }
  }
}
