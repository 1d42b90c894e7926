/**
  The strength rating of a password: one point for each of five criteria,
  and a level derived from the total. The rating looks only at the
  password's characters, never at the selection it was drawn with.
 */
module Strength {
  import opened Charset

  datatype Level = Weak | Medium | Strong

  /** The length from which a password earns the length point. */
  const StrongLength: nat := 12

  predicate HasLower(p: string) { exists i | 0 <= i < |p| :: IsLower(p[i]) }
  predicate HasUpper(p: string) { exists i | 0 <= i < |p| :: IsUpper(p[i]) }
  predicate HasDigit(p: string) { exists i | 0 <= i < |p| :: IsDigit(p[i]) }
  predicate HasSymbol(p: string) { exists i | 0 <= i < |p| :: IsSymbol(p[i]) }

  /** All five criteria hold. */
  predicate MeetsAll(p: string)
  {
    |p| >= StrongLength && HasLower(p) && HasUpper(p) && HasDigit(p) && HasSymbol(p)
  }

  function Point(b: bool): nat { if b then 1 else 0 }

  /** The score accumulated by check_strength: the number of criteria met. */
  function Score(p: string): (score: nat)
    ensures score <= 5
    ensures score == 5 <==> MeetsAll(p)
  {
    Point(|p| >= StrongLength) + Point(HasLower(p)) + Point(HasUpper(p)) +
    Point(HasDigit(p)) + Point(HasSymbol(p))
  }

  /** The level the score maps to. */
  function LevelOf(score: nat): Level
  {
    if score <= 2 then Weak else if score <= 4 then Medium else Strong
  }

  /** check_strength without the colouring of the label. */
  function CheckStrength(p: string): (level: Level)
    ensures level == Weak <==> Score(p) <= 2
    ensures level == Medium <==> 3 <= Score(p) <= 4
    ensures level == Strong <==> MeetsAll(p)
  {
    LevelOf(Score(p))
  }

  /** The label text that check_strength returns and the history records. */
  function Label(level: Level): string
  {
    match level
    case Weak => "\U{1F534} Слабый"
    case Medium => "\U{1F7E1} Средний"
    case Strong => "\U{1F7E2} Сильный"
  }

  /** Different levels have different labels, so the text recorded in the
      history determines the level. */
  lemma LabelInjective(a: Level, b: Level)
    requires Label(a) == Label(b)
    ensures a == b
  {
  }

  /** The levels are ordered by score. */
  lemma LevelMonotone(p: string, q: string)
    requires Score(p) <= Score(q)
    ensures CheckStrength(p) == Strong ==> CheckStrength(q) == Strong
    ensures CheckStrength(q) == Weak ==> CheckStrength(p) == Weak
  {
  }

  /** A password shorter than twelve characters is never Strong. */
  lemma ShortNeverStrong(p: string)
    requires |p| < StrongLength
    ensures CheckStrength(p) != Strong
  {
  }

  /** A password without a character of the symbol alphabet is never Strong. */
  lemma NoSymbolNeverStrong(p: string)
    requires forall i | 0 <= i < |p| :: p[i] !in Symbols
    ensures CheckStrength(p) != Strong
  {
  }

  /** A password without letters scores at most three points, so it is at
      most Medium, however long it is. */
  lemma NoLettersAtMostMedium(p: string)
    requires forall i | 0 <= i < |p| :: !IsLower(p[i]) && !IsUpper(p[i])
    ensures Score(p) <= 3
    ensures CheckStrength(p) != Strong
  {
  }

  /** Letters and digits are not symbols. */
  lemma AlphanumericHasNoSymbol(p: string)
    requires forall i | 0 <= i < |p| :: IsUpper(p[i]) || IsLower(p[i]) || IsDigit(p[i])
    ensures !HasSymbol(p)
  {
    forall i | 0 <= i < |p|
      ensures !IsSymbol(p[i])
    {
      ClassesDisjoint(p[i]);
    }
  }

  /** The empty password, drawn when the requested length is not positive,
      meets no criterion and is Weak. */
  lemma EmptyPasswordIsWeak()
    ensures Score([]) == 0 && CheckStrength([]) == Weak
  {
  }

  /** Three concrete ratings, one per level. */
  lemma WeakExample()
    ensures Score("abcdefgh") == 1 && CheckStrength("abcdefgh") == Weak
  {
    var w := "abcdefgh";
    assert forall i | 0 <= i < |w| :: IsLower(w[i]);
    assert IsLower(w[0]);
    AlphanumericHasNoSymbol(w);
  }

  lemma MediumExample()
    ensures Score("Abcdefghijk1") == 4 && CheckStrength("Abcdefghijk1") == Medium
  {
    var m := "Abcdefghijk1";
    assert forall i | 0 <= i < |m| :: IsUpper(m[i]) || IsLower(m[i]) || IsDigit(m[i]);
    assert IsUpper(m[0]) && IsLower(m[1]) && IsDigit(m[11]);
    AlphanumericHasNoSymbol(m);
  }

  lemma StrongExample()
    ensures Score("Abcdefghijk1!") == 5 && CheckStrength("Abcdefghijk1!") == Strong
  {
    var s := "Abcdefghijk1!";
    assert IsUpper(s[0]) && IsLower(s[1]) && IsDigit(s[11]) && IsSymbol(s[12]);
  }
}
