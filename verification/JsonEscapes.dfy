/** The escapes of RFC 8785 section 3.2.2.2: each string is printed in its shortest spelling, with lower-case digits. */
module JsonEscapes {
  import opened Outcomes
  import opened Utf16
  import opened JsonValue
  import opened JsonStrings

  /** A hexadecimal digit that is no capital letter. */
  predicate LowerDigit(u: Unit) { 0x30 <= u <= 0x39 || 0x61 <= u <= 0x66 }

  predicate LowerCase(c: Spelled) { c.Hex? ==> forall i :: 0 <= i < |c.digits| ==> LowerDigit(c.digits[i]) }

  predicate AllLowerCase(sp: seq<Spelled>) { forall i :: 0 <= i < |sp| ==> LowerCase(sp[i]) }

  lemma SameDigit(a: Unit, b: Unit)
    requires LowerDigit(a) && LowerDigit(b) && HexValue(a) == HexValue(b)
    ensures a == b
  {
  }

  lemma SamePlaces(a: nat, b: nat, c: nat, d: nat, a': nat, b': nat, c': nat, d': nat)
    requires a < 16 && b < 16 && c < 16 && d < 16 && a' < 16 && b' < 16 && c' < 16 && d' < 16
    requires a * 4096 + b * 256 + c * 16 + d == a' * 4096 + b' * 256 + c' * 16 + d'
    ensures a == a' && b == b' && c == c' && d == d'
  {
  }

  /** A code unit has one spelling by lower-case digits. */
  lemma SameDigits(s: Text, t: Text)
    requires IsHex(s) && IsHex(t) && HexUnit(s) == HexUnit(t)
    requires LowerCase(Hex(s)) && LowerCase(Hex(t))
    ensures s == t
  {
    HexBounds(s);
    HexBounds(t);
    SamePlaces(HexValue(s[0]).value, HexValue(s[1]).value, HexValue(s[2]).value, HexValue(s[3]).value,
               HexValue(t[0]).value, HexValue(t[1]).value, HexValue(t[2]).value, HexValue(t[3]).value);
    forall i | 0 <= i < 4 ensures s[i] == t[i] { SameDigit(s[i], t[i]); }
  }

  lemma CanonicalIsLowerCase(u: Unit)
    ensures LowerCase(CanonicalSpelled(u))
  {
  }

  /** One code unit: no valid spelling is shorter, and one as short in lower case is the printed one. */
  lemma ShortestUnit(c: Spelled)
    requires c.Valid()
    ensures |CanonicalSpelled(c.Denotes()).Render()| <= |c.Render()|
    ensures |CanonicalSpelled(c.Denotes()).Render()| == |c.Render()| && LowerCase(c) ==> c == CanonicalSpelled(c.Denotes())
  {
    if c.Hex? {
      ShortestHex(c.digits);
    } else {
      hide HexText;
    }
  }

  lemma ShortestHex(digits: Text)
    requires IsHex(digits)
    ensures |CanonicalSpelled(HexUnit(digits)).Render()| <= 6
    ensures |CanonicalSpelled(HexUnit(digits)).Render()| == 6 && LowerCase(Hex(digits)) ==>
              CanonicalSpelled(HexUnit(digits)) == Hex(digits)
  {
    var u := HexUnit(digits);
    HexRoundTrip(u);
    CanonicalIsLowerCase(u);
    hide HexUnit, HexText, LowerCase;
    if CanonicalSpelled(u).Hex? && LowerCase(Hex(digits)) { SameDigits(digits, HexText(u)); }
  }

  /** The printed spelling is the shortest of all valid spellings, and the only one so short in lower case. */
  lemma {:induction false} ShortestSpelling(t: Text, sp: seq<Spelled>)
    requires ValidSpelling(sp) && SpellingUnits(sp) == t
    ensures |SpellingText(CanonicalSpelling(t))| <= |SpellingText(sp)|
    ensures |SpellingText(CanonicalSpelling(t))| == |SpellingText(sp)| && AllLowerCase(sp) ==> sp == CanonicalSpelling(t)
    decreases |sp|
  {
    if sp != [] {
      hide CanonicalSpelled, Spelled.Render, Spelled.Denotes, Spelled.Valid, LowerCase;
      var more := sp[1..];
      assert t == [sp[0].Denotes()] + SpellingUnits(more);
      assert t[1..] == SpellingUnits(more);
      assert CanonicalSpelling(t)[1..] == CanonicalSpelling(t[1..]);
      assert sp == [sp[0]] + more;
      ShortestUnit(sp[0]);
      ShortestSpelling(t[1..], more);
    }
  }

  lemma {:induction false} PrintedInLowerCase(t: Text)
    ensures AllLowerCase(CanonicalSpelling(t))
  {
    if t != [] {
      CanonicalIsLowerCase(t[0]);
      PrintedInLowerCase(t[1..]);
    }
  }

  /** A printed string is the literal of one valid spelling: the shortest, with its digits in lower case. */
  lemma QuoteIsShortest(t: Text, sp: seq<Spelled>)
    requires Quote(t).Ok? && ValidSpelling(sp) && SpellingUnits(sp) == t
    ensures |Quote(t).value| <= |Literal(sp)|
    ensures AllLowerCase(sp) ==> (|Quote(t).value| == |Literal(sp)| <==> Quote(t).value == Literal(sp))
    ensures exists best :: ValidSpelling(best) && AllLowerCase(best) && SpellingUnits(best) == t && Quote(t).value == Literal(best)
  {
    hide CanonicalSpelled, WellFormed;
    ShortestSpelling(t, sp);
    CanonicalSpellingDenotes(t);
    PrintedInLowerCase(t);
  }
}
