/** The binary operators and `applyOperator` (script.js:81-99). */
module Operators {
  import opened Numbers

  const PLUS := "+"
  /** U+2212 MINUS SIGN, the symbol the keypad and keyboard send. */
  const MINUS := "\U{2212}"
  /** The ASCII hyphen, also accepted as subtraction. */
  const HYPHEN := "-"
  /** U+00D7 MULTIPLICATION SIGN */
  const TIMES := "\U{00D7}"
  /** U+00F7 DIVISION SIGN */
  const DIVIDE := "\U{00F7}"

  predicate IsKnown(op: string) {
    op == PLUS || op == MINUS || op == HYPHEN || op == TIMES || op == DIVIDE
  }

  /** A reduction either yields a finite value or the "Error" sentinel. */
  datatype Outcome = Ok(value: real) | Error

  /** `applyOperator(a, b, op)`: "Error" for a non-finite operand, an
      unknown operator or a division by zero; otherwise the arithmetic. */
  function ApplyOperator(a: Num, b: Num, op: string): (r: Outcome)
    ensures r.Error? <==> !IsFinite(a) || !IsFinite(b) || !IsKnown(op) || (op == DIVIDE && IsZero(b))
    ensures r.Ok? && op == PLUS ==> r.value == a.r + b.r
    ensures r.Ok? && (op == MINUS || op == HYPHEN) ==> r.value == a.r - b.r
    ensures r.Ok? && op == TIMES ==> r.value == a.r * b.r
    ensures r.Ok? && op == DIVIDE ==> b.r != 0.0 && r.value == a.r / b.r
  {
    if !IsFinite(a) || !IsFinite(b) then Error
    else if op == PLUS then Ok(a.r + b.r)
    else if op == MINUS || op == HYPHEN then Ok(a.r - b.r)
    else if op == TIMES then Ok(a.r * b.r)
    else if op == DIVIDE then (if b.r == 0.0 then Error else Ok(a.r / b.r))
    else Error
  }
}
