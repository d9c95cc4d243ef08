/** The map marker chosen for a result: the lower-cased brand is searched
    for the three big chains' names, in Latin or katakana spelling, in a
    fixed order, and anything else gets the default pin. */
module MarkerIcons {
  import opened Text

  datatype MarkerIcon = Seven | Family | Lawson | Default

  predicate SevenBrand(b: string)
  {
    Contains(b, "7-eleven") || Contains(b, "セブン")
  }

  predicate FamilyBrand(b: string)
  {
    Contains(b, "familymart") || Contains(b, "ファミリー")
  }

  predicate LawsonBrand(b: string)
  {
    Contains(b, "lawson") || Contains(b, "ローソン")
  }

  /** `getMarkerIcon`: the first chain whose name occurs in the
      lower-cased brand, 7-Eleven before FamilyMart before Lawson. */
  function MarkerFor(brand: string): (r: MarkerIcon)
    ensures var b := AsciiLower(brand);
            && (r == Seven <==> Occurs(b, "7-eleven") || Occurs(b, "セブン"))
            && (r == Family <==> !(Occurs(b, "7-eleven") || Occurs(b, "セブン"))
                                 && (Occurs(b, "familymart") || Occurs(b, "ファミリー")))
            && (r == Lawson <==> !(Occurs(b, "7-eleven") || Occurs(b, "セブン"))
                                 && !(Occurs(b, "familymart") || Occurs(b, "ファミリー"))
                                 && (Occurs(b, "lawson") || Occurs(b, "ローソン")))
  {
    var b := AsciiLower(brand);
    if SevenBrand(b) then Seven
    else if FamilyBrand(b) then Family
    else if LawsonBrand(b) then Lawson
    else Default
  }

  /** The choice ignores the case of the brand's ASCII letters. */
  lemma MarkerIgnoresCase(brand: string)
    ensures MarkerFor(AsciiUpper(brand)) == MarkerFor(brand)
  {
    LowerOfUpper(brand);
  }

  /** A record without a brand gets the default pin. */
  lemma NoBrandDefault()
    ensures MarkerFor("") == Default
  {
    assert AsciiLower("") == "";
  }

  /** A brand holding several chains' names is shown as the earliest
      chain in the fixed order. */
  lemma EarlierChainWins(brand: string)
    requires Occurs(AsciiLower(brand), "7-eleven") && Occurs(AsciiLower(brand), "lawson")
    ensures MarkerFor(brand) == Seven
  {
  }

  /** A brand spelled "Seven Eleven", in any ASCII case, is one of the
      chain names the chain search looks for, yet it is not recognised
      here: it gets the default pin. */
  lemma SpelledOutSevenElevenIsDefault(brand: string)
    requires AsciiLower(brand) == "seven eleven"
    ensures MarkerFor(brand) == Default
  {
    var b := AsciiLower(brand);
    AbsentCharNoOccurrence(b, "7-eleven", 0);
    AbsentCharNoOccurrence(b, "セブン", 0);
    AbsentCharNoOccurrence(b, "familymart", 0);
    AbsentCharNoOccurrence(b, "ファミリー", 0);
    AbsentCharNoOccurrence(b, "ローソン", 0);
    AbsentCharNoOccurrence(b, "lawson", 1);
  }

  /** Lower-casing keeps every occurrence of a pattern without ASCII
      capitals. */
  lemma LowerKeepsOccurrence(s: string, p: string)
    requires forall k :: 0 <= k < |p| ==> !('A' <= p[k] <= 'Z')
    requires Occurs(s, p)
    ensures Occurs(AsciiLower(s), p)
  {
    var i :| OccursAt(s, p, i);
    var l := AsciiLower(s);
    forall k | 0 <= k < |p|
      ensures l[i + k] == p[k]
    {
      assert s[i..i + |p|][k] == s[i + k];
    }
    assert l[i..i + |p|] == p;
    assert OccursAt(l, p, i);
  }

  /** A brand written with the katakana name of 7-Eleven gets its pin,
      whatever else the brand holds. */
  lemma KatakanaSevenRecognised(brand: string)
    requires Occurs(brand, "セブン")
    ensures MarkerFor(brand) == Seven
  {
    LowerKeepsOccurrence(brand, "セブン");
  }

  /** A brand written with the katakana name of FamilyMart or Lawson gets
      a chain pin, never the default one. */
  lemma KatakanaChainRecognised(brand: string)
    requires Occurs(brand, "ファミリー") || Occurs(brand, "ローソン")
    ensures MarkerFor(brand) != Default
  {
    if Occurs(brand, "ファミリー") {
      LowerKeepsOccurrence(brand, "ファミリー");
    } else {
      LowerKeepsOccurrence(brand, "ローソン");
    }
  }
}
