/**
 * The size heuristic applied to a variant title: the first whole-word
 * two-digit number from 35 to 50 (the EU shoe-size range), otherwise the
 * whole title, and no size at all for a missing title or the store's
 * single-variant placeholder "Default Title".
 */
module Sizes {
  import opened Wrappers
  import opened Text

  const DefaultTitle: string := "Default Title"

  /** The alternation `3[5-9]|4[0-9]|50` applied to two characters. */
  predicate SizeDigits(a: char, b: char)
  {
    (a == '3' && '5' <= b <= '9') || (a == '4' && '0' <= b <= '9') || (a == '5' && b == '0')
  }

  /** `\b(3[5-9]|4[0-9]|50)\b` matches at position `i` of `s`. */
  predicate IsSizeTokenAt(s: string, i: int)
  {
    && 0 <= i && i + 2 <= |s|
    && SizeDigits(s[i], s[i + 1])
    && (i == 0 || !IsWordChar(s[i - 1]))
    && (i + 2 == |s| || !IsWordChar(s[i + 2]))
  }

  /** The leftmost position at or after `from` where a size token matches. */
  function FindSizeToken(s: string, from: nat): (r: Option<nat>)
    requires from <= |s|
    ensures r.Some? ==> from <= r.value && IsSizeTokenAt(s, r.value)
    ensures r.Some? ==> forall j :: from <= j < r.value ==> !IsSizeTokenAt(s, j)
    ensures r.None? ==> forall j :: from <= j ==> !IsSizeTokenAt(s, j)
    decreases |s| - from
  {
    if from + 2 > |s| then None
    else if IsSizeTokenAt(s, from) then Some(from)
    else FindSizeToken(s, from + 1)
  }

  /** `extractSize(variantTitle)`. */
  function ExtractSize(title: Option<string>): (r: Option<string>)
    ensures r.None? <==> title.None? || title.value == "" || title.value == DefaultTitle
    ensures r.Some? ==> r.value != ""
  {
    match title
    case None => None
    case Some(s) =>
      if s == "" || s == DefaultTitle then None
      else
        match FindSizeToken(s, 0)
        case Some(i) => Some(s[i..i + 2])
        case None => Some(s)
  }

  /**
   * A title with a size token yields its leftmost one; a title without one
   * is returned unchanged.
   */
  lemma ExtractSizeLeftmost(s: string)
    requires s != "" && s != DefaultTitle
    ensures (forall i :: !IsSizeTokenAt(s, i)) ==> ExtractSize(Some(s)) == Some(s)
    ensures forall i :: IsSizeTokenAt(s, i) && (forall j :: 0 <= j < i ==> !IsSizeTokenAt(s, j)) ==>
      ExtractSize(Some(s)) == Some(s[i..i + 2])
  {
    var r := FindSizeToken(s, 0);
    if r.Some? {
      forall i | IsSizeTokenAt(s, i) && (forall j :: 0 <= j < i ==> !IsSizeTokenAt(s, j))
        ensures i == r.value
      {
        assert i <= r.value;
      }
    }
  }

  /** A size found inside a title is a two-digit number from 35 to 50, and every such number is accepted. */
  lemma SizeTokenRange(a: char, b: char)
    ensures SizeDigits(a, b) <==> IsDigit(a) && IsDigit(b) && 35 <= DigitsValue([a, b]) <= 50
  {
    if IsDigit(a) && IsDigit(b) {
      assert [a, b][..1] == [a];
      assert [a][..0] == [];
      assert DigitsValue([a]) == DigitOf(a);
      assert DigitsValue([a, b]) == DigitOf(a) * 10 + DigitOf(b);
    }
  }

  /** When a size is extracted from a title, it is a two-digit number from 35 to 50 or the title itself. */
  lemma ExtractedSizeShape(title: Option<string>)
    requires ExtractSize(title).Some?
    ensures var k := ExtractSize(title).value;
      k == title.value || (|k| == 2 && AllDigits(k) && 35 <= DigitsValue(k) <= 50)
  {
    var s := title.value;
    match FindSizeToken(s, 0)
    case Some(i) =>
      SizeTokenRange(s[i], s[i + 1]);
      assert s[i..i + 2] == [s[i], s[i + 1]];
    case None =>
  }

  /** Titles that carry a size token yield that token. */
  lemma ExtractSizeTokenExamples()
    ensures ExtractSize(Some("42")) == Some("42")
    ensures ExtractSize(Some("42 / Black")) == Some("42")
    ensures ExtractSize(Some("Size: 42")) == Some("42")
    ensures ExtractSize(Some("Size 42 / Black")) == Some("42")
  {
    SizeIn42("42");
    SizeIn42Black("42 / Black");
    SizeInSizeColon42("Size: 42");
    SizeInSize42Black("Size 42 / Black");
  }

  lemma SizeIn42(s: string)
    requires s == "42"
    ensures ExtractSize(Some(s)) == Some("42")
  {
    assert s[0..2] == s;
    LeftmostTokenAt(s, 0);
  }

  lemma SizeIn42Black(s: string)
    requires s == "42 / Black"
    ensures ExtractSize(Some(s)) == Some("42")
  {
    assert s[0..2] == [s[0], s[1]];
    LeftmostTokenAt(s, 0);
  }

  lemma SizeInSizeColon42(s: string)
    requires s == "Size: 42"
    ensures ExtractSize(Some(s)) == Some("42")
  {
    assert s[6..8] == [s[6], s[7]];
    LeftmostTokenAt(s, 6);
  }

  lemma SizeInSize42Black(s: string)
    requires s == "Size 42 / Black"
    ensures ExtractSize(Some(s)) == Some("42")
  {
    assert s[5..7] == [s[5], s[6]];
    LeftmostTokenAt(s, 5);
  }

  /** A size token at `i` with no size digits before it is the one extracted. */
  lemma LeftmostTokenAt(s: string, i: nat)
    requires s != "" && s != DefaultTitle
    requires IsSizeTokenAt(s, i) && s[i..i + 2] == "42"
    requires forall j :: 0 <= j < i ==> s[j] != '3' && s[j] != '4' && s[j] != '5'
    ensures ExtractSize(Some(s)) == Some("42")
  {
    ExtractSizeLeftmost(s);
  }

  /** Titles without a whole-word size token are returned verbatim. */
  lemma ExtractSizeVerbatimExamples()
    ensures ExtractSize(Some("One Size")) == Some("One Size")
    ensures ExtractSize(Some("EU43")) == Some("EU43")
    ensures ExtractSize(Some("420")) == Some("420")
  {
    NoTokenInOneSize("One Size");
    ExtractSizeLeftmost("One Size");
    NoTokenInEU43("EU43");
    ExtractSizeLeftmost("EU43");
    NoTokenIn420("420");
    ExtractSizeLeftmost("420");
  }

  lemma NoTokenInOneSize(s: string)
    requires s == "One Size"
    ensures forall i :: !IsSizeTokenAt(s, i)
  {
    forall i | 0 <= i < |s|
      ensures s[i] != '3' && s[i] != '4' && s[i] != '5'
    {
    }
  }

  /** The digits of "EU43" follow a letter, so there is no word boundary before them. */
  lemma NoTokenInEU43(s: string)
    requires s == "EU43"
    ensures forall i :: !IsSizeTokenAt(s, i)
  {
    assert IsWordChar(s[1]);
    forall i | 0 <= i < 2
      ensures s[i] != '3' && s[i] != '4' && s[i] != '5'
    {
    }
  }

  /** "42" inside "420" is followed by a digit, so there is no word boundary after it. */
  lemma NoTokenIn420(s: string)
    requires s == "420"
    ensures forall i :: !IsSizeTokenAt(s, i)
  {
    assert IsWordChar(s[2]);
    assert !SizeDigits(s[1], s[2]);
  }

  lemma ExtractSizeNoSizeExamples()
    ensures ExtractSize(Some(DefaultTitle)) == None
    ensures ExtractSize(Some("")) == None
    ensures ExtractSize(None) == None
  {
  }
}
