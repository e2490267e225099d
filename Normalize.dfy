/**
 * The flag normalisers of `UserServiceWrapper`: loosely typed booking flags
 * (bool, int, text) coerced to strict booleans.  Total: every input has an answer.
 */
module Normalize {
  import opened PyValues

  /** The texts that count as a set high-spender flag, after `strip().lower()`. */
  const TrueTexts: set<string> := {"true", "1", "yes"}

  /** `_normalize_bool`: a bool is itself; an int is set only when it is 1; a
      text is set when its normal form is "true", "1" or "yes"; anything else
      (None, float, list, dict) is unset.  A set flag is always truthy. */
  function NormalizeBool(v: Value): (r: bool)
    ensures r ==> Truthy(v)
    ensures v.Bool? ==> r == v.b
    ensures v.Null? || v.Other? ==> !r
  {
    match v
    case Bool(b) => b
    case Int(i) => i == 1
    case Str(s) => NormOfEmpty(s); Norm(s) in TrueTexts
    case _ => false
  }

  /** A blank text (empty or whitespace only) normalises to the empty text,
      so it is never one of the flag texts. */
  lemma NormOfEmpty(s: string)
    ensures Norm(s) in TrueTexts ==> s != ""
    ensures (forall i :: 0 <= i < |s| ==> IsSpace(s[i])) ==> Norm(s) == "" && Norm(s) !in TrueTexts
  {
    if forall i :: 0 <= i < |s| ==> IsSpace(s[i]) {
      TrimLeftBlank(s);
      assert Strip(s) == TrimRight([]) == [];
      assert Norm(s) == Lower([]);
    }
  }

  /** `_normalize_student`: a bool is itself; an int is set when positive; a
      text is set when, stripped, it is all digits and its value is positive. */
  function NormalizeStudent(v: Value): (r: bool)
    ensures r ==> Truthy(v)
    ensures v.Bool? ==> r == v.b
    ensures v.Null? || v.Other? ==> !r
  {
    match v
    case Bool(b) => b
    case Int(i) => i > 0
    case Str(s) => IsDigits(Strip(s)) && DecimalValue(Strip(s)) > 0
    case _ => false
  }

  /** A student count given as text is set exactly when, stripped, it is a
      numeral with at least one digit other than `0`. */
  lemma StudentText(s: string)
    ensures NormalizeStudent(Str(s)) <==>
              IsDigits(Strip(s)) && exists i :: 0 <= i < |Strip(s)| && Strip(s)[i] != '0'
  {
    if IsDigits(Strip(s)) { DecimalPositive(Strip(s)); }
  }

  /** The decimal text of a count is a set student flag exactly when the count is positive. */
  lemma StudentNumeral(n: nat)
    ensures NormalizeStudent(Str(NatToStr(n))) <==> n > 0
  {
    var t := NatToStr(n);
    assert TrimLeft(t) == t;
    assert TrimRight(t) == t;
    NatToStrRoundTrip(n);
  }

  /** Python prints a bool as "True" or "False". */
  function BoolText(b: bool): string {
    if b then "True" else "False"
  }

  /** Normalising is stable: the printed form of a normalised flag normalises to the same flag. */
  lemma BoolTextStable(v: Value)
    ensures NormalizeBool(Str(BoolText(NormalizeBool(v)))) == NormalizeBool(v)
  {
    if NormalizeBool(v) {
      assert TrimLeft("True") == "True" && TrimRight("True") == "True";
      assert Norm("True") == "true";
    } else {
      assert TrimLeft("False") == "False" && TrimRight("False") == "False";
      assert Norm("False") == "false";
    }
  }

  /** An int flag of 1 is both a high-spender flag and a student count; larger ints only the
      latter; zero and negative ints neither. */
  lemma IntFlags(i: int)
    ensures NormalizeBool(Int(i)) <==> i == 1
    ensures NormalizeStudent(Int(i)) <==> i > 0
    ensures NormalizeBool(Int(i)) ==> NormalizeStudent(Int(i))
    ensures i > 1 ==> NormalizeStudent(Int(i)) && !NormalizeBool(Int(i))
  {
  }

  /** "0" is not a student count. */
  lemma StudentZeroText()
    ensures !NormalizeStudent(Str("0"))
  {
    assert TrimLeft("0") == "0" && TrimRight("0") == "0";
    assert DecimalValue("0") == 0 by { assert "0"[..0] == ""; }
  }

  /** "-3" and "abc" are not numerals, so not student counts. */
  lemma StudentNonNumeralTexts()
    ensures !NormalizeStudent(Str("-3"))
    ensures !NormalizeStudent(Str("abc"))
  {
    assert !NormalizeStudent(Str("-3")) by {
      assert TrimLeft("-3") == "-3" && TrimRight("-3") == "-3";
      assert !IsDigit("-3"[0]);
    }
    assert !NormalizeStudent(Str("abc")) by {
      assert TrimLeft("abc") == "abc" && TrimRight("abc") == "abc";
      assert !IsDigit("abc"[0]);
    }
  }

  /** A padded numeral " 2 " is a student count. */
  lemma StudentPaddedText()
    ensures NormalizeStudent(Str(" 2 "))
  {
    assert TrimLeft(" 2 ") == "2 " by { assert " 2 "[1..] == "2 "; assert IsSpace(" 2 "[0]); }
    assert TrimRight("2 ") == "2" by { assert "2 "[..1] == "2"; assert IsSpace("2 "[1]); }
    assert Strip(" 2 ") == "2";
    assert DecimalValue("2") == 2 by { assert "2"[..0] == ""; }
  }

  /** Surrounding whitespace and letter case do not matter to a text high-spender flag. */
  lemma BoolPaddedUpperText()
    ensures NormalizeBool(Str(" YES"))
  {
    assert TrimLeft(" YES") == "YES" by { assert " YES"[1..] == "YES"; assert IsSpace(" YES"[0]); }
    assert TrimRight("YES") == "YES";
    assert Norm(" YES") == "yes";
  }

  /** "no" is not a high-spender flag. */
  lemma BoolRejectedText()
    ensures !NormalizeBool(Str("no"))
  {
    assert TrimLeft("no") == "no" && TrimRight("no") == "no";
    assert Norm("no") == "no";
  }
}
