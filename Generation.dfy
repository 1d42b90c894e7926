/**
  Drawing a password from an alphabet, and what the selection of classes
  does and does not decide about the rating of the result.
 */
module Generation {
  import opened Charset
  import opened Strength

  /** Every character of `p` is a member of `chars`. */
  predicate DrawnFrom(p: string, chars: string)
  {
    forall i | 0 <= i < |p| :: p[i] in chars
  }

  /** The number of characters `range(length)` asks for. */
  function Requested(length: int): nat
  {
    if length < 0 then 0 else length
  }

  /** The join over `range(length)` of `random.choice(chars)`: each draw is
      an arbitrary position of the non-empty alphabet. */
  method DrawPassword(chars: string, length: int) returns (password: string)
    requires chars != []
    ensures |password| == Requested(length)
    ensures DrawnFrom(password, chars)
  {
    password := [];
    var i := 0;
    while i < length
      invariant |password| == Requested(i)
      invariant i <= Requested(length)
      invariant DrawnFrom(password, chars)
    {
      var k :| 0 <= k < |chars|;
      password := password + [chars[k]];
      i := i + 1;
    }
  }

  /** The classes of a password drawn from a selection's alphabet are
      among the classes selected. */
  lemma DrawnClasses(sel: Selection, p: string)
    requires DrawnFrom(p, Alphabet(sel))
    ensures HasUpper(p) ==> sel.upper
    ensures HasLower(p) ==> sel.lower
    ensures HasDigit(p) ==> sel.digits
    ensures HasSymbol(p) ==> sel.symbols
  {
    forall i | 0 <= i < |p|
      ensures sel.Admits(p[i])
    {
      AlphabetMembers(sel, p[i]);
    }
    forall i | 0 <= i < |p|
      ensures (IsUpper(p[i]) ==> sel.upper) && (IsLower(p[i]) ==> sel.lower)
      ensures (IsDigit(p[i]) ==> sel.digits) && (IsSymbol(p[i]) ==> sel.symbols)
    {
      ClassesDisjoint(p[i]);
    }
  }

  /** A drawn password scores at most one point per selected class, plus
      the length point. */
  lemma ScoreBoundedBySelection(sel: Selection, p: string)
    requires DrawnFrom(p, Alphabet(sel))
    ensures Score(p) <= Point(|p| >= StrongLength) + sel.Count()
  {
    DrawnClasses(sel, p);
  }

  /** A drawn password can be Strong only when all four classes were
      selected and at least twelve characters were drawn. */
  lemma StrongNeedsFullSelection(sel: Selection, p: string)
    requires DrawnFrom(p, Alphabet(sel))
    requires CheckStrength(p) == Strong
    ensures sel.All() && |p| >= StrongLength
  {
    ScoreBoundedBySelection(sel, p);
  }

  /** Selecting only digits and symbols never yields a Strong password. */
  lemma DigitsAndSymbolsAtMostMedium(p: string)
    requires DrawnFrom(p, Alphabet(Selection(false, false, true, true)))
    ensures CheckStrength(p) != Strong
  {
    ScoreBoundedBySelection(Selection(false, false, true, true), p);
  }

  /** Every character of `p` lies in some class, so it is drawn from the
      alphabet of the full selection. */
  lemma DrawnFromFullAlphabet(p: string)
    requires forall i | 0 <= i < |p| :: IsUpper(p[i]) || IsLower(p[i]) || IsDigit(p[i]) || IsSymbol(p[i])
    ensures DrawnFrom(p, Alphabet(Selection(true, true, true, true)))
  {
    forall i | 0 <= i < |p|
      ensures p[i] in Alphabet(Selection(true, true, true, true))
    {
      AlphabetMembers(Selection(true, true, true, true), p[i]);
    }
  }

  /** The rating is derived from content, not from the request: with every
      class selected, a draw of twelve characters can still be Weak ... */
  lemma UnluckyDrawIsWeak()
    ensures DrawnFrom("AAAAAAAAAAAA", Alphabet(Selection(true, true, true, true)))
    ensures CheckStrength("AAAAAAAAAAAA") == Weak
  {
    var weak := "AAAAAAAAAAAA";
    assert forall i | 0 <= i < |weak| :: IsUpper(weak[i]);
    DrawnFromFullAlphabet(weak);
    forall i | 0 <= i < |weak|
      ensures !IsLower(weak[i]) && !IsDigit(weak[i]) && !IsSymbol(weak[i])
    {
      ClassesDisjoint(weak[i]);
    }
  }

  /** ... while a draw of thirteen characters from the same alphabet can
      be Strong. */
  lemma LuckyDrawIsStrong()
    ensures DrawnFrom("Abcdefghijk1!", Alphabet(Selection(true, true, true, true)))
    ensures CheckStrength("Abcdefghijk1!") == Strong
  {
    var strong := "Abcdefghijk1!";
    assert forall i | 0 <= i < 12 :: IsUpper(strong[i]) || IsLower(strong[i]) || IsDigit(strong[i]);
    assert IsSymbol(strong[12]);
    DrawnFromFullAlphabet(strong);
    StrongExample();
  }
}
