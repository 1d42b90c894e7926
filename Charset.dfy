/**
  The four fixed alphabets of the password generator, the ASCII character
  classes that the strength rating tests for, and the alphabet that a
  selection of class flags builds.
 */
module Charset {

  /** Python's string.ascii_uppercase. */
  const Uppercase: string := "ABCDEFGHIJKLMNOPQRSTUVWXYZ"
  /** Python's string.ascii_lowercase. */
  const Lowercase: string := "abcdefghijklmnopqrstuvwxyz"
  /** Python's string.digits. */
  const Digits: string := "0123456789"
  /** The symbol alphabet, used both for generation and for the strength rating. */
  const Symbols: string := "!@#$%^&*()_+-=[]{}|;:,.<>?"

  /** str.isupper, str.islower and str.isdigit restricted to ASCII. */
  predicate IsUpper(c: char) { 'A' <= c <= 'Z' }
  predicate IsLower(c: char) { 'a' <= c <= 'z' }
  predicate IsDigit(c: char) { '0' <= c <= '9' }
  predicate IsSymbol(c: char) { c in Symbols }

  /** The four check boxes of the settings frame. */
  datatype Selection = Selection(upper: bool, lower: bool, digits: bool, symbols: bool)
  {
    predicate None() { !upper && !lower && !digits && !symbols }
    predicate All() { upper && lower && digits && symbols }

    /** The number of classes this selection asks for. */
    function Count(): (n: nat)
      ensures n <= 4
      ensures n == 0 <==> None()
      ensures n == 4 <==> All()
    {
      (if upper then 1 else 0) + (if lower then 1 else 0) +
      (if digits then 1 else 0) + (if symbols then 1 else 0)
    }

    /** A character belongs to the classes this selection asks for. */
    predicate Admits(c: char)
    {
      (upper && IsUpper(c)) || (lower && IsLower(c)) ||
      (digits && IsDigit(c)) || (symbols && IsSymbol(c))
    }
  }

  /** One `chars += alphabet` step, taken only when its flag is set. */
  function Extend(chars: string, flag: bool, alphabet: string): string
  {
    if flag then chars + alphabet else chars
  }

  /** The alphabet `chars` that generation samples from: the selected fixed
      alphabets concatenated in the order upper, lower, digits, symbols. */
  function Alphabet(sel: Selection): (chars: string)
    ensures |chars| == 26 * sel.Count() - 16 * (if sel.digits then 1 else 0)
    ensures chars == [] <==> sel.None()
  {
    var withUpper := Extend([], sel.upper, Uppercase);
    var withLower := Extend(withUpper, sel.lower, Lowercase);
    var withDigits := Extend(withLower, sel.digits, Digits);
    Extend(withDigits, sel.symbols, Symbols)
  }

  /** The `chars += ...` steps of generate_password, one per check box. */
  method CollectChars(sel: Selection) returns (chars: string)
    ensures chars == Alphabet(sel)
  {
    chars := [];
    if sel.upper {
      chars := chars + Uppercase;
    }
    if sel.lower {
      chars := chars + Lowercase;
    }
    if sel.digits {
      chars := chars + Digits;
    }
    if sel.symbols {
      chars := chars + Symbols;
    }
  }

  /** Each fixed alphabet holds exactly the characters of its class. */
  lemma UppercaseMembers(c: char)
    ensures c in Uppercase <==> IsUpper(c)
  {
  }

  lemma LowercaseMembers(c: char)
    ensures c in Lowercase <==> IsLower(c)
  {
  }

  lemma DigitsMembers(c: char)
    ensures c in Digits <==> IsDigit(c)
  {
  }

  /** The four classes are pairwise disjoint. */
  lemma ClassesDisjoint(c: char)
    ensures IsUpper(c) ==> !IsLower(c) && !IsDigit(c) && !IsSymbol(c)
    ensures IsLower(c) ==> !IsDigit(c) && !IsSymbol(c)
    ensures IsDigit(c) ==> !IsSymbol(c)
  {
  }

  /** The alphabet contains exactly the characters of the selected classes:
      nothing is missing and nothing else is included. */
  lemma AlphabetMembers(sel: Selection, c: char)
    ensures c in Alphabet(sel) <==> sel.Admits(c)
  {
  }

  /** The rank of a character's class in the fixed alphabet order. */
  function ClassRank(c: char): nat
  {
    if IsUpper(c) then 0 else if IsLower(c) then 1 else if IsDigit(c) then 2 else 3
  }

  predicate InClassOrder(s: string)
  {
    forall i, j | 0 <= i < j < |s| :: ClassRank(s[i]) <= ClassRank(s[j])
  }

  /** All characters of `s` have rank `r`. */
  predicate OfRank(s: string, r: nat)
  {
    forall i | 0 <= i < |s| :: ClassRank(s[i]) == r
  }

  lemma OrderedConcat(p: string, q: string, r: nat)
    requires InClassOrder(p)
    requires forall i | 0 <= i < |p| :: ClassRank(p[i]) <= r
    requires OfRank(q, r)
    ensures InClassOrder(p + q)
    ensures forall i | 0 <= i < |p + q| :: ClassRank((p + q)[i]) <= r
  {
    forall i, j | 0 <= i < j < |p + q|
      ensures ClassRank((p + q)[i]) <= ClassRank((p + q)[j])
    {
      if j < |p| {
        assert (p + q)[i] == p[i] && (p + q)[j] == p[j];
      } else if i < |p| {
        assert (p + q)[i] == p[i] && (p + q)[j] == q[j - |p|];
      } else {
        assert (p + q)[i] == q[i - |p|] && (p + q)[j] == q[j - |p|];
      }
    }
  }

  /** Each fixed alphabet is a single class. */
  lemma FixedAlphabetRanks()
    ensures OfRank(Uppercase, 0) && OfRank(Lowercase, 1)
    ensures OfRank(Digits, 2) && OfRank(Symbols, 3)
  {
    assert forall i | 0 <= i < |Uppercase| :: IsUpper(Uppercase[i]);
    assert forall i | 0 <= i < |Lowercase| :: IsLower(Lowercase[i]);
    assert forall i | 0 <= i < |Digits| :: IsDigit(Digits[i]);
    forall i | 0 <= i < |Symbols|
      ensures ClassRank(Symbols[i]) == 3
    {
      assert IsSymbol(Symbols[i]);
      ClassesDisjoint(Symbols[i]);
    }
  }

  /** Whatever the selection, upper-case letters come first, then lower-case
      letters, then digits, then symbols. */
  lemma AlphabetInClassOrder(sel: Selection)
    ensures InClassOrder(Alphabet(sel))
  {
    FixedAlphabetRanks();
    var u: string := if sel.upper then Uppercase else [];
    var l: string := if sel.lower then Lowercase else [];
    var d: string := if sel.digits then Digits else [];
    var s: string := if sel.symbols then Symbols else [];
    assert Extend([], sel.upper, Uppercase) == [] + u;
    assert Alphabet(sel) == [] + u + l + d + s;
    OrderedConcat([], u, 0);
    OrderedConcat([] + u, l, 1);
    OrderedConcat([] + u + l, d, 2);
    OrderedConcat([] + u + l + d, s, 3);
  }
}
