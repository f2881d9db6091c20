/** String escapes as a small automaton: an escape beyond four digits breaks every JSON text it occurs in. */
module SafeLexing {
  import opened Outcomes
  import opened Utf16
  import opened Decimal
  import opened JsonValue
  import opened JsonStrings
  import opened JsonGrammar
  import opened JsonReader
  import opened JsonPrinter
  import opened JsonTexts
  import opened CodePoints
  import opened SafeText

  datatype Lex = Outside | Inside | AfterBackslash | HexLeft(digits: nat) | Bad

  function LexStep(s: Lex, u: Unit): Lex
  {
    match s
    case Outside => if u == QUOTE then Inside else Outside
    case Inside => if u == QUOTE then Outside else if u == BACKSLASH then AfterBackslash else Inside
    case AfterBackslash => if u == LETTER_U then HexLeft(3) else if ShortValue(u).Some? then Inside else Bad
    case HexLeft(n) => if HexValue(u).None? then Bad else if n == 0 then Inside else HexLeft(n - 1)
    case Bad => Bad
  }

  function LexRun(s: Lex, t: Text): Lex
    decreases t
  {
    if t == [] then s else LexRun(LexStep(s, t[0]), t[1..])
  }

  lemma {:induction false} LexAppend(s: Lex, x: Text, y: Text)
    ensures LexRun(s, x + y) == LexRun(LexRun(s, x), y)
    decreases x
  {
    hide LexStep;
    if x == [] {
      assert x + y == y;
    } else {
      LexAppend(LexStep(s, x[0]), x[1..], y);
      DropFirst(x, y, 1);
    }
  }

  predicate NoQuotes(t: Text) { forall i :: 0 <= i < |t| ==> t[i] != QUOTE }

  lemma {:induction false} OutsideStays(t: Text)
    requires NoQuotes(t)
    ensures LexRun(Outside, t) == Outside
  {
    if t != [] { OutsideStays(t[1..]); }
  }

  lemma {:induction false} BadStays(t: Text)
    ensures LexRun(Bad, t) == Bad
  {
    if t != [] { BadStays(t[1..]); }
  }

  lemma SpelledStaysInside(c: Spelled)
    requires c.Valid()
    ensures LexRun(Inside, c.Render()) == Inside
  {
    match c {
      case Raw(u) => assert [u][1..] == [];
      case Short(letter) =>
        assert [BACKSLASH, letter][1..] == [letter] && [letter][1..] == [];
        assert LexRun(AfterBackslash, [letter]) == LexStep(AfterBackslash, letter);
      case Hex(digits) =>
        HexStaysInside(digits, []);
        NothingRead(Inside);
        assert [BACKSLASH, LETTER_U] + digits + [] == c.Render();
    }
  }

  lemma HexStaysInside(digits: Text, rest: Text)
    requires IsHex(digits)
    ensures LexRun(Inside, [BACKSLASH, LETTER_U] + digits + rest) == LexRun(Inside, rest)
  {
    var s := [BACKSLASH, LETTER_U] + digits + rest;
    assert s[1..][1..] == digits + rest;
    FourDigits(digits, rest);
    assert LexRun(AfterBackslash, s[1..]) == LexRun(HexLeft(3), s[1..][1..]);
  }

  lemma FourDigits(digits: Text, rest: Text)
    requires IsHex(digits)
    ensures LexRun(HexLeft(3), digits + rest) == LexRun(Inside, rest)
  {
    OneDigit(3, digits[0], [digits[1]] + ([digits[2]] + ([digits[3]] + rest)));
    OneDigit(2, digits[1], [digits[2]] + ([digits[3]] + rest));
    OneDigit(1, digits[2], [digits[3]] + rest);
    OneDigit(0, digits[3], rest);
    assert digits + rest == [digits[0]] + ([digits[1]] + ([digits[2]] + ([digits[3]] + rest)));
  }

  lemma OneDigit(n: nat, u: Unit, rest: Text)
    requires HexValue(u).Some?
    ensures LexRun(HexLeft(n), [u] + rest) == LexRun(if n == 0 then Inside else HexLeft(n - 1), rest)
  {
    assert ([u] + rest)[1..] == rest;
  }

  lemma {:induction false} SpellingStaysInside(sp: seq<Spelled>)
    requires ValidSpelling(sp)
    ensures LexRun(Inside, SpellingText(sp)) == Inside
  {
    hide LexRun, Spelled.Valid, Spelled.Render;
    if sp == [] {
      NothingRead(Inside);
    } else {
      SpelledStaysInside(sp[0]);
      SpellingStaysInside(sp[1..]);
      LexAppend(Inside, sp[0].Render(), SpellingText(sp[1..]));
    }
  }

  lemma NothingRead(s: Lex)
    ensures LexRun(s, []) == s
  {
  }

  lemma OneRead(s: Lex, u: Unit)
    ensures LexRun(s, [u]) == LexStep(s, u)
  {
    assert [u][1..] == [];
  }

  lemma LiteralReturns(sp: seq<Spelled>)
    requires ValidSpelling(sp)
    ensures LexRun(Outside, Literal(sp)) == Outside
  {
    hide LexRun, SpellingText;
    SpellingStaysInside(sp);
    OneRead(Outside, QUOTE);
    OneRead(Inside, QUOTE);
    LexAppend(Outside, [QUOTE], SpellingText(sp));
    LexAppend(Outside, [QUOTE] + SpellingText(sp), [QUOTE]);
  }

  // ---------- every JSON text returns outside ----------

  predicate Returns(t: Text) { LexRun(Outside, t) == Outside }

  predicate AnyGap(gap: Text) { true }

  lemma {:induction false} UsesAnything(eng: Engine, tree: Tree)
    ensures Uses(AnySpelling, AnyGap, tree)
    decreases tree
  {
    match tree {
      case ArrayOf(es) =>
        forall i | 0 <= i < |es| ensures UsesElement(AnySpelling, AnyGap, es[i]) { UsesAnything(eng, es[i].tree); }
      case ObjectOf(ms) =>
        forall i | 0 <= i < |ms| ensures UsesMember(AnySpelling, AnyGap, ms[i]) { UsesAnything(eng, ms[i].value.tree); }
      case _ =>
    }
  }

  lemma ReturnsTokens()
    ensures Joins(Returns) && Tokens(Returns, AnySpelling, AnyGap)
  {
    hide LexRun;
    forall x, y | Returns(x) && Returns(y) ensures Returns(x + y) { LexAppend(Outside, x, y); }
    OutsideStays([]);
    OutsideStays(NULL_TEXT);
    OutsideStays(TRUE_TEXT);
    OutsideStays(FALSE_TEXT);
    forall u | Punctuation(u) ensures Returns([u]) { OutsideStays([u]); }
    forall n: NumberSpelling | n.Strict() ensures Returns(n.Render()) { NumberHasNoQuotes(n); }
    forall sp | ValidString(sp) ensures Returns(Literal(sp)) { LiteralReturns(sp); }
    forall gap | Blank(gap) ensures Returns(gap) { OutsideStays(gap); }
  }

  lemma NumberHasNoQuotes(n: NumberSpelling)
    requires n.Strict()
    ensures Returns(n.Render())
  {
    hide NumberSpelling.Render, LexRun;
    RenderIs(n);
    NoQuotesTogether(FractionText(n.fraction), ExponentText(n.exponent));
    NoQuotesTogether(n.whole, FractionText(n.fraction) + ExponentText(n.exponent));
    NoQuotesTogether(SignText(n.negative), n.whole + (FractionText(n.fraction) + ExponentText(n.exponent)));
    OutsideStays(n.Render());
  }

  lemma NoQuotesTogether(x: Text, y: Text)
    requires NoQuotes(x) && NoQuotes(y)
    ensures NoQuotes(x + y)
  {
  }

  /** Every text the parser accepts returns outside its strings. */
  lemma AcceptedReturns(eng: Engine, source: Text)
    requires Parse(eng, source).Ok?
    ensures Returns(source)
  {
    hide Parse, LexRun, Render, Valid, Denotes, Uses;
    ParseExact(eng, source, Parse(eng, source).value);
    var before, tree, after :| IsText(eng, source, before, tree, after) && Denotes(eng, tree) == Parse(eng, source).value;
    UsesAnything(eng, tree);
    ReturnsTokens();
    RenderInduction(eng, Returns, AnySpelling, AnyGap, tree);
    Together(Returns, Render(tree), after);
    Together(Returns, before, Render(tree) + after);
  }

  // ---------- unsafe characters stand inside strings ----------

  /** Reading on from `s`, every unsafe character is met inside a string. */
  ghost predicate InsideOnly(unsafe: Class, s: Lex, ps: seq<Point>)
    decreases ps
  {
    ps != [] ==> (unsafe(ps[0]) ==> s == Inside) && InsideOnly(unsafe, LexRun(s, PointUnits(ps[0])), ps[1..])
  }

  lemma {:induction false} InsideOnlyAppend(unsafe: Class, s: Lex, xs: seq<Point>, ys: seq<Point>)
    requires InsideOnly(unsafe, s, xs) && InsideOnly(unsafe, LexRun(s, UnitsOf(xs)), ys)
    ensures InsideOnly(unsafe, s, xs + ys)
    decreases |xs|
  {
    hide LexRun;
    if xs == [] {
      NothingRead(s);
      assert xs + ys == ys;
    } else {
      LexAppend(s, PointUnits(xs[0]), UnitsOf(xs[1..]));
      InsideOnlyAppend(unsafe, LexRun(s, PointUnits(xs[0])), xs[1..], ys);
      assert (xs + ys)[1..] == xs[1..] + ys;
    }
  }

  lemma {:induction false} PlainInsideOnly(unsafe: Class, s: Lex, t: Text)
    requires Sane(unsafe) && Plain(t)
    ensures InsideOnly(unsafe, s, Points(t))
    decreases |t|
  {
    hide LexRun;
    if t != [] {
      assert Points(t)[1..] == Points(t[1..]);
      PlainInsideOnly(unsafe, LexRun(s, [t[0]]), t[1..]);
    }
  }

  lemma {:induction false} PointsAppend(x: Text, y: Text)
    requires WellFormed(x)
    ensures Points(x + y) == Points(x) + Points(y)
    decreases x
  {
    if x == [] {
      NoPoints(y);
      assert x + y == y;
    } else {
      hide WellFormed, Points;
      WellFormedStep(x);
      FirstPoint(x);
      FirstPoint(x + y);
      if IsHighSurrogate(x[0]) {
        PointsAppend(x[2..], y);
        DropFirst(x, y, 2);
        assert (x + y)[0] == x[0] && (x + y)[1] == x[1];
        PointsAssociate(Pair(x[0], x[1]), Points(x[2..]), Points(y));
      } else {
        PointsAppend(x[1..], y);
        DropFirst(x, y, 1);
        assert (x + y)[0] == x[0];
        PointsAssociate(x[0], Points(x[1..]), Points(y));
      }
    }
  }

  lemma PointsAssociate(p: Point, b: seq<Point>, c: seq<Point>)
    ensures [p] + (b + c) == [p] + b + c
  {
  }

  lemma NoPoints(y: Text)
    ensures Points([]) + Points(y) == Points(y)
  {
  }

  lemma FirstPoint(t: Text)
    requires t != []
    ensures Points(t) == if IsHighSurrogate(t[0]) && |t| >= 2 && IsLowSurrogate(t[1]) then [Pair(t[0], t[1])] + Points(t[2..])
                         else [t[0]] + Points(t[1..])
  {
  }

  lemma InsideOnlyTogether(unsafe: Class, s: Lex, x: Text, y: Text)
    requires WellFormed(x) && InsideOnly(unsafe, s, Points(x)) && InsideOnly(unsafe, LexRun(s, x), Points(y))
    ensures InsideOnly(unsafe, s, Points(x + y))
  {
    hide LexRun, InsideOnly, WellFormed, Points;
    PointsRoundTrip(x);
    PointsAppend(x, y);
    InsideOnlyAppend(unsafe, s, Points(x), Points(y));
  }

  lemma {:induction false} SpellingInsideOnly(unsafe: Class, t: Text)
    requires Sane(unsafe) && WellFormed(t)
    ensures InsideOnly(unsafe, Inside, Points(SpellingText(CanonicalSpelling(t))))
  {
    if t != [] {
      hide WellFormed, InsideOnly, Points, LexRun;
      WellFormedStep(t);
      var sp := CanonicalSpelling(t);
      assert sp[1..] == CanonicalSpelling(t[1..]);
      if IsHighSurrogate(t[0]) {
        var u := CanonicalSpelling(t[1..]);
        assert u[1..] == CanonicalSpelling(t[2..]) && t[1..][1..] == t[2..];
        SpellingInsideOnly(unsafe, t[2..]);
        SafePair(t[0], t[1], SpellingText(u[1..]));
        assert SpellingText(sp) == [t[0], t[1]] + SpellingText(u[1..]);
        PairInsideOnly(unsafe, t[0], t[1]);
        PairStaysInside(t[0], t[1]);
        InsideOnlyTogether(unsafe, Inside, [t[0], t[1]], SpellingText(u[1..]));
      } else {
        SpellingInsideOnly(unsafe, t[1..]);
        UnitWellFormed(t[0]);
        UnitInsideOnly(unsafe, t[0]);
        UnitStaysInside(t[0]);
        InsideOnlyTogether(unsafe, Inside, sp[0].Render(), SpellingText(sp[1..]));
      }
    } else {
      PlainInsideOnly(unsafe, Inside, []);
    }
  }

  lemma PairInsideOnly(unsafe: Class, high: Unit, low: Unit)
    requires IsHighSurrogate(high) && IsLowSurrogate(low)
    ensures InsideOnly(unsafe, Inside, Points([high, low])) && WellFormed([high, low])
  {
    assert [high, low][2..] == [];
    assert Points([high, low]) == [Pair(high, low)];
    assert [Pair(high, low)][1..] == [];
  }

  lemma PairStaysInside(high: Unit, low: Unit)
    requires IsHighSurrogate(high) && IsLowSurrogate(low)
    ensures LexRun(Inside, [high, low]) == Inside
  {
    OneRead(Inside, high);
    OneRead(Inside, low);
    LexAppend(Inside, [high], [low]);
    assert [high] + [low] == [high, low];
  }

  lemma UnitInsideOnly(unsafe: Class, u: Unit)
    requires Sane(unsafe) && !IsHighSurrogate(u) && !IsLowSurrogate(u)
    ensures InsideOnly(unsafe, Inside, Points(CanonicalSpelled(u).Render()))
  {
    if CanonicalSpelled(u).Raw? {
      assert [u][1..] == [];
      assert Points([u]) == [u];
      var ps: seq<Point> := [u];
      assert ps[1..] == [];
    } else {
      PlainEscape(u);
      PlainInsideOnly(unsafe, Inside, CanonicalSpelled(u).Render());
    }
  }

  lemma UnitStaysInside(u: Unit)
    ensures LexRun(Inside, CanonicalSpelled(u).Render()) == Inside
  {
    hide LexRun, Spelled.Render;
    CanonicalSpelledValid(u);
    SpelledStaysInside(CanonicalSpelled(u));
  }

  lemma CanonicalSpelledValid(u: Unit)
    ensures CanonicalSpelled(u).Valid()
  {
    hide HexText, IsHex;
    HexRoundTrip(u);
  }

  /** The canonical text: well-formed, returning, and unsafe only inside strings. */
  ghost predicate Fit(unsafe: Class, t: Text)
  {
    WellFormed(t) && Returns(t) && InsideOnly(unsafe, Outside, Points(t))
  }

  lemma FitTogether(unsafe: Class, x: Text, y: Text)
    requires Fit(unsafe, x) && Fit(unsafe, y)
    ensures Fit(unsafe, x + y)
  {
    hide WellFormed, LexRun, InsideOnly;
    WellFormedTogether(x, y);
    LexAppend(Outside, x, y);
    InsideOnlyTogether(unsafe, Outside, x, y);
  }

  lemma FitPlain(unsafe: Class, t: Text)
    requires Sane(unsafe) && Plain(t) && NoQuotes(t)
    ensures Fit(unsafe, t)
  {
    PlainIsWellFormed(t);
    OutsideStays(t);
    PlainInsideOnly(unsafe, Outside, t);
  }

  lemma FitLiteral(unsafe: Class, t: Text)
    requires Sane(unsafe) && WellFormed(t)
    ensures Fit(unsafe, Literal(CanonicalSpelling(t)))
  {
    hide WellFormed, LexRun, InsideOnly, SpellingText, CanonicalSpelling;
    var body := SpellingText(CanonicalSpelling(t));
    LiteralWellFormed(t);
    CanonicalSpellingDenotes(t);
    LiteralReturns(CanonicalSpelling(t));
    SpellingWellFormed(t);
    SpellingInsideOnly(unsafe, t);
    SpellingStaysInside(CanonicalSpelling(t));
    PlainIsWellFormed([QUOTE]);
    PlainInsideOnly(unsafe, Outside, [QUOTE]);
    PlainInsideOnly(unsafe, Inside, [QUOTE]);
    OneRead(Outside, QUOTE);
    InsideOnlyTogether(unsafe, Inside, body, [QUOTE]);
    InsideOnlyTogether(unsafe, Outside, [QUOTE], body + [QUOTE]);
    Associated([QUOTE], body, [QUOTE]);
  }

  lemma CanonicalIsFit(eng: Engine, unsafe: Class, v: Json)
    requires Faithful(eng) && OfEngine(eng, v) && Print(eng, v).Ok? && Sane(unsafe)
    ensures Fit(unsafe, Print(eng, v).value)
  {
    hide Faithful, OfEngine, Print, Render, CanonicalTree, Uses, Valid, Fit, Sane;
    PrintAcceptsPrintable(eng, v);
    PrintIsCanonical(eng, v);
    CanonicalUses(eng, v);
    var fit := (t: Text) => Fit(unsafe, t);
    FitTokens(unsafe, fit);
    RenderInduction(eng, fit, IsCanonicalSpelling, NoGap, CanonicalTree(eng, v));
  }

  lemma FitTokens(unsafe: Class, fit: Text -> bool)
    requires Sane(unsafe) && forall t :: fit(t) == Fit(unsafe, t)
    ensures Joins(fit) && Tokens(fit, IsCanonicalSpelling, NoGap)
  {
    hide Fit, Sane, WellFormed;
    forall x, y | Fit(unsafe, x) && Fit(unsafe, y) ensures Fit(unsafe, x + y) { FitTogether(unsafe, x, y); }
    FitPlain(unsafe, []);
    FitPlain(unsafe, NULL_TEXT);
    FitPlain(unsafe, TRUE_TEXT);
    FitPlain(unsafe, FALSE_TEXT);
    forall u | Punctuation(u) ensures Fit(unsafe, [u]) { FitPlain(unsafe, [u]); }
    forall n: NumberSpelling | n.Strict() ensures Fit(unsafe, n.Render()) { FitNumber(unsafe, n); }
    forall sp | IsCanonicalSpelling(sp) ensures Fit(unsafe, Literal(sp)) {
      var t :| WellFormed(t) && sp == CanonicalSpelling(t);
      FitLiteral(unsafe, t);
    }
  }

  lemma FitNumber(unsafe: Class, n: NumberSpelling)
    requires Sane(unsafe) && n.Strict()
    ensures Fit(unsafe, n.Render())
  {
    hide NumberSpelling.Render, LexRun;
    NumbersArePlain(n);
    NumberHasNoQuotes(n);
    PlainIsWellFormed(n.Render());
    PlainInsideOnly(unsafe, Outside, n.Render());
  }

  // ---------- what escaping does to the automaton ----------

  lemma EscapeInside(unsafe: Class, p: Point)
    requires Sane(unsafe) && unsafe(p)
    ensures p <= 0xFFFF ==> LexRun(Inside, Escape(p)) == Inside && LexRun(Inside, PointUnits(p)) == Inside
    ensures p > 0xFFFF ==> LexRun(Inside, Escape(p)) == Bad
  {
    if p <= 0xFFFF {
      HexRoundTrip(p);
      HexStaysInside(HexText(p), []);
      assert [BACKSLASH, LETTER_U] + HexText(p) + [] == Escape(p);
      OneRead(Inside, p);
    } else {
      var rest := HexDigits(p) + [CLOSE_BRACE];
      var s := [BACKSLASH, LETTER_U, OPEN_BRACE] + HexDigits(p) + [CLOSE_BRACE];
      hide HexDigits;
      assert s == [BACKSLASH] + ([LETTER_U] + ([OPEN_BRACE] + rest));
      LexAppend(Inside, [BACKSLASH], [LETTER_U] + ([OPEN_BRACE] + rest));
      LexAppend(AfterBackslash, [LETTER_U], [OPEN_BRACE] + rest);
      LexAppend(HexLeft(3), [OPEN_BRACE], rest);
      OneRead(Inside, BACKSLASH);
      OneRead(AfterBackslash, LETTER_U);
      OneRead(HexLeft(3), OPEN_BRACE);
      BadStays(rest);
    }
  }

  lemma {:induction false} EscapedLex(unsafe: Class, s: Lex, ps: seq<Point>)
    requires Sane(unsafe) && InsideOnly(unsafe, s, ps)
    ensures LexRun(s, ReplaceUnsafe(unsafe, ps)) == if Beyond(unsafe, ps) then Bad else LexRun(s, UnitsOf(ps))
    decreases |ps|
  {
    hide LexRun, Escape, PointUnits, Sane;
    if ps != [] {
      var p, rest := ps[0], ps[1..];
      var first := if unsafe(p) then Escape(p) else PointUnits(p);
      var s' := LexRun(s, PointUnits(p));
      EscapedLex(unsafe, s', rest);
      LexAppend(s, first, ReplaceUnsafe(unsafe, rest));
      LexAppend(s, PointUnits(p), UnitsOf(rest));
      BeyondStep(unsafe, ps);
      if unsafe(p) {
        EscapeInside(unsafe, p);
        if p > 0xFFFF { BadStays(ReplaceUnsafe(unsafe, rest)); }
      }
    }
  }

  lemma BeyondStep(unsafe: Class, ps: seq<Point>)
    requires ps != []
    ensures Beyond(unsafe, ps) <==> (unsafe(ps[0]) && ps[0] > 0xFFFF) || Beyond(unsafe, ps[1..])
  {
    assert forall i :: 0 <= i < |ps[1..]| ==> ps[1..][i] == ps[i + 1];
    assert forall i :: 0 < i < |ps| ==> ps[i] == ps[1..][i - 1];
  }

  /**
   The rendered text of a printable value is parsed back to the value exactly when it has no unsafe character
   above U+FFFF; with one, it is not JSON at all.
   */
  lemma SafeTextParsesExactly(eng: Engine, unsafe: Class, v: Json)
    requires Faithful(eng) && OfEngine(eng, v) && Print(eng, v).Ok? && Sane(unsafe)
    ensures var r := Parse(eng, SafeCanonicalJson(eng, unsafe, v).value);
            && (r == Ok(v) <==> !Beyond(unsafe, Points(Print(eng, v).value)))
            && (r.Ok? ==> r == Ok(v))
  {
    hide Faithful, OfEngine, Print, Sane, Beyond, Parse, LexRun, InsideOnly, ReplaceUnsafe;
    var ps := Points(Print(eng, v).value);
    if Beyond(unsafe, ps) {
      CanonicalIsFit(eng, unsafe, v);
      EscapedLex(unsafe, Outside, ps);
      if Parse(eng, ReplaceUnsafe(unsafe, ps)).Ok? { AcceptedReturns(eng, ReplaceUnsafe(unsafe, ps)); }
    } else {
      SafeTextParses(eng, unsafe, v);
    }
  }
}
