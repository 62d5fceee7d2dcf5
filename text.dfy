/** Character-level facts about the strings the engine shows. */
module Text {

  /** The characters `String.prototype.trim` removes (white space and line terminators). */
  predicate IsSpace(c: char) {
    c == ' ' || c == '\t' || c == '\n' || c == '\r' || c == '\U{000B}' || c == '\U{000C}'
    || c == '\U{00A0}' || c == '\U{1680}' || ('\U{2000}' <= c <= '\U{200A}')
    || c == '\U{2028}' || c == '\U{2029}' || c == '\U{202F}' || c == '\U{205F}'
    || c == '\U{3000}' || c == '\U{FEFF}'
  }

  /** `s.trim() === ""` */
  predicate IsBlank(s: string) {
    forall i | 0 <= i < |s| :: IsSpace(s[i])
  }

  predicate NoSpace(s: string) {
    forall i | 0 <= i < |s| :: !IsSpace(s[i])
  }

  /** `/^\d$/`: an ASCII decimal digit. */
  predicate IsDigit(c: char) { '0' <= c <= '9' }

  /** Number of decimal points in `s`. */
  function Dots(s: string): nat { multiset(s)['.'] }

  /** What every string the engine displays satisfies: no white space and
      at most one decimal point. */
  predicate IsEntryText(s: string) { NoSpace(s) && Dots(s) <= 1 }

  /** `s.startsWith("-")` */
  predicate StartsWithMinus(s: string) { |s| > 0 && s[0] == '-' }

  /** `parts.join(sep)` */
  function Join(parts: seq<string>, sep: string): string
    decreases |parts|
  {
    if |parts| == 0 then ""
    else if |parts| == 1 then parts[0]
    else parts[0] + sep + Join(parts[1..], sep)
  }

  /** The first part is where the joined string starts. */
  lemma JoinStartsWithHead(parts: seq<string>, sep: string)
    requires |parts| > 0
    ensures parts[0] <= Join(parts, sep)
  {
  }

  /** Cutting a string never adds decimal points. */
  lemma {:induction false} DotsOfSlice(s: string, i: nat, j: nat)
    requires i <= j <= |s|
    ensures Dots(s[i..j]) <= Dots(s)
  {
    assert s == s[..i] + s[i..j] + s[j..];
    calc {
      multiset(s);
      multiset(s[..i] + s[i..j] + s[j..]);
      multiset(s[..i]) + multiset(s[i..j]) + multiset(s[j..]);
    }
  }

  /** Decimal points of a concatenation add up. */
  lemma DotsOfConcat(s: string, t: string)
    ensures Dots(s + t) == Dots(s) + Dots(t)
  {
    assert multiset(s + t) == multiset(s) + multiset(t);
  }

  /** A string holds a decimal point exactly when it counts one. */
  lemma DotsPositive(s: string)
    ensures Dots(s) > 0 <==> '.' in s
  {
    assert '.' in s <==> '.' in multiset(s);
  }

  /** Joining strings free of white space gives one free of it. */
  lemma NoSpaceConcat(s: string, t: string)
    ensures NoSpace(s) && NoSpace(t) ==> NoSpace(s + t)
  {
    forall i | 0 <= i < |s + t| && NoSpace(s) && NoSpace(t)
      ensures !IsSpace((s + t)[i])
    {
      if i < |s| { assert (s + t)[i] == s[i]; } else { assert (s + t)[i] == t[i - |s|]; }
    }
  }

  /** Dropping the first character keeps display text. */
  lemma DropFirstText(s: string)
    requires IsEntryText(s) && s != ""
    ensures IsEntryText(s[1..])
  {
    DotsOfSlice(s, 1, |s|);
    assert s[1..|s|] == s[1..];
    forall i | 0 <= i < |s| - 1
      ensures !IsSpace(s[1..][i])
    {
      assert s[1..][i] == s[i + 1];
    }
  }

  /** Dropping the last character keeps display text. */
  lemma DropLastText(s: string)
    requires IsEntryText(s) && s != ""
    ensures IsEntryText(s[..|s| - 1])
  {
    var t := s[..|s| - 1];
    DotsOfSlice(s, 0, |s| - 1);
    assert s[0..|s| - 1] == t;
    forall i | 0 <= i < |t|
      ensures !IsSpace(t[i])
    {
      assert t[i] == s[i];
    }
  }

  /** Putting a minus sign in front keeps display text. */
  lemma PrefixMinusText(s: string)
    requires IsEntryText(s)
    ensures IsEntryText("-" + s)
  {
    DotsOfConcat("-", s);
    NoSpaceConcat("-", s);
    assert multiset("-")['.'] == 0;
  }
}
