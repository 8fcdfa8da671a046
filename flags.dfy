/** str2bool, the argparse `type=` converter for the effect toggles. */
module Flags {
  import opened Wrappers

  /** The converter's argument: the text argparse passes from the command
      line (or a string default), or a bool from a direct caller. The False
      defaults of the toggles are not strings, so argparse never passes them
      through the converter. */
  datatype Arg = BoolArg(b: bool) | StrArg(s: string)

  /** The message of the argparse.ArgumentTypeError raised for other text. */
  const BooleanExpected: string := "Boolean value expected."

  /** str.lower() on one character, for the ASCII letters. */
  function LowerChar(c: char): char
  {
    if 'A' <= c <= 'Z' then (c as int + 32) as char else c
  }

  /** str.lower(). */
  function Lower(s: string): (r: string)
    ensures |r| == |s|
    ensures forall i :: 0 <= i < |s| ==> r[i] == LowerChar(s[i])
  {
    seq(|s|, i requires 0 <= i < |s| => LowerChar(s[i]))
  }

  /** `a` and `b` are the same word up to the case of their letters. */
  predicate SameIgnoringCase(a: string, b: string)
  {
    |a| == |b| && forall i :: 0 <= i < |a| ==> LowerChar(a[i]) == LowerChar(b[i])
  }

  /** The words str2bool reads as True, and as False. */
  predicate MeansTrue(s: string)
  {
    SameIgnoringCase(s, "true") || SameIgnoringCase(s, "t")
  }

  predicate MeansFalse(s: string)
  {
    SameIgnoringCase(s, "false") || SameIgnoringCase(s, "f")
  }

  /** str2bool: a bool passes through; the text is lower-cased and compared
      with the true words, then the false words; anything else raises. */
  function Str2Bool(arg: Arg): (r: Result<bool, string>)
    ensures arg.BoolArg? ==> r == Ok(arg.b)
    ensures r.Err? ==> arg.StrArg? && r.error == BooleanExpected
  {
    match arg
    case BoolArg(b) => Ok(b)
    case StrArg(s) =>
      if Lower(s) in {"true", "t"} then Ok(true)
      else if Lower(s) in {"false", "f"} then Ok(false)
      else Err(BooleanExpected)
  }

  lemma LowerMatchesWord(s: string, w: string)
    requires Lower(w) == w
    ensures Lower(s) == w <==> SameIgnoringCase(s, w)
  {
  }

  /** Text is accepted exactly when it is one of the four words in some mix of
      cases; it yields True for "true"/"t" and False for "false"/"f". */
  lemma Str2BoolReadsBooleanWords(s: string)
    ensures Str2Bool(StrArg(s)) == Ok(true) <==> MeansTrue(s)
    ensures Str2Bool(StrArg(s)) == Ok(false) <==> MeansFalse(s)
    ensures Str2Bool(StrArg(s)).Err? <==> !MeansTrue(s) && !MeansFalse(s)
  {
    LowerMatchesWord(s, "true");
    LowerMatchesWord(s, "t");
    LowerMatchesWord(s, "false");
    LowerMatchesWord(s, "f");
  }

  /** The case of the letters never changes the outcome. */
  lemma {:induction false} Str2BoolIgnoresCase(s: string)
    ensures Str2Bool(StrArg(Lower(s))) == Str2Bool(StrArg(s))
  {
    assert Lower(Lower(s)) == Lower(s);
  }

  lemma Str2BoolExamples()
    ensures Str2Bool(StrArg("true")) == Ok(true)
    ensures Str2Bool(StrArg("T")) == Ok(true)
    ensures Str2Bool(StrArg("false")) == Ok(false)
    ensures Str2Bool(StrArg("f")) == Ok(false)
    ensures Str2Bool(StrArg("maybe")) == Err(BooleanExpected)
  {
    Str2BoolReadsBooleanWords("true");
    Str2BoolReadsBooleanWords("T");
    Str2BoolReadsBooleanWords("false");
    Str2BoolReadsBooleanWords("f");
    Str2BoolReadsBooleanWords("maybe");
    assert !SameIgnoringCase("maybe", "false") by { assert LowerChar("maybe"[0]) != LowerChar("false"[0]); }
  }
}
