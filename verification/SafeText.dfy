/** Visible notation for unsafe characters, and what it does to canonical JSON. */
module SafeText {
  import opened Outcomes
  import opened Utf16
  import opened Decimal
  import opened JsonValue
  import opened JsonStrings
  import opened JsonGrammar
  import opened JsonReader
  import opened JsonPrinter
  import opened JsonTexts
  import opened CodePoints

  /** The character class of unsafe code points: controls, formats and marks. */
  type Class = Point -> bool

  /** What the class surely holds and surely leaves out, whatever the Unicode version. */
  ghost predicate Sane(unsafe: Class)
  {
    && (forall p: Point :: 0x20 <= p <= 0x7E ==> !unsafe(p)) && !unsafe(0x2026)
    && (forall p: Point :: IsSurrogate(p) ==> !unsafe(p))
    && forall p: Point :: p < 0x20 || 0x7F <= p <= 0x9F ==> unsafe(p)
  }

  const OPEN_BRACE: Unit := 0x7B
  const CLOSE_BRACE: Unit := 0x7D

  /** Lowercase hexadecimal without padding. */
  function HexDigits(n: nat): Text { (if n < 16 then [] else HexDigits(n / 16)) + [HexDigit(n % 16)] }

  /** `escapeCodePoint` */
  function Escape(p: Point): Text
  {
    if p <= 0xFFFF then [BACKSLASH, LETTER_U] + HexText(p)
    else [BACKSLASH, LETTER_U, OPEN_BRACE] + HexDigits(p) + [CLOSE_BRACE]
  }

  /** The number that a text of hexadecimal digits denotes. */
  function HexNumber(t: Text): Option<nat>
  {
    if t == [] then Some(0) else
      match (HexNumber(t[..|t| - 1]), HexValue(t[|t| - 1]))
      case (Some(n), Some(d)) => Some(16 * n + d)
      case _ => None
  }

  lemma {:induction false} HexDigitsDenote(n: nat)
    ensures HexNumber(HexDigits(n)) == Some(n) && HexDigits(n) != [] && (n > 0 ==> HexDigits(n)[0] != 0x30)
    ensures forall d :: d in HexDigits(n) ==> 0x30 <= d <= 0x39 || 0x61 <= d <= 0x66
  {
    var t := HexDigits(n);
    HexDigitValue(n % 16);
    if n >= 16 {
      HexDigitsDenote(n / 16);
      assert t[..|t| - 1] == HexDigits(n / 16);
    } else {
      assert t[..|t| - 1] == [];
    }
  }

  /** The notation of a character: its number in lower-case hexadecimal, four digits or braces. */
  lemma EscapeNames(p: Point)
    ensures
      var e := Escape(p);
      if p <= 0xFFFF then |e| == 6 && e[..2] == [0x5C, 0x75] && HexNumber(e[2..]) == Some(p)
      else |e| > 8 && e[..3] == [0x5C, 0x75, 0x7B] && e[|e| - 1] == 0x7D && HexNumber(e[3..|e| - 1]) == Some(p) && e[3] != 0x30
  {
    var e := Escape(p);
    if p <= 0xFFFF {
      FourDigits(e[2], e[3], e[4], e[5]);
      HexRoundTrip(p);
      assert e[2..] == [e[2], e[3], e[4], e[5]];
    } else {
      HexDigitsDenote(p);
      LongDigits(p);
      assert e[3..|e| - 1] == HexDigits(p);
    }
  }

  lemma LongDigits(p: nat)
    requires p > 0xFFFF
    ensures |HexDigits(p)| > 4
  {
    assert p / 16 >= 16 && p / 16 / 16 >= 16 && p / 16 / 16 / 16 >= 16;
    assert |HexDigits(p / 16 / 16 / 16)| > 1;
    assert |HexDigits(p / 16 / 16)| > 2;
    assert |HexDigits(p / 16)| > 3;
  }

  lemma FourDigits(a: Unit, b: Unit, c: Unit, d: Unit)
    requires HexValue(a).Some? && HexValue(b).Some? && HexValue(c).Some? && HexValue(d).Some?
    ensures HexNumber([a, b, c, d])
            == Some(HexValue(a).value * 4096 + HexValue(b).value * 256 + HexValue(c).value * 16 + HexValue(d).value)
  {
    hide HexValue;
    assert [a, b, c, d][..3] == [a, b, c] && [a, b, c][..2] == [a, b] && [a, b][..1] == [a] && [a][..0] == [];
    assert HexNumber([a]) == Some(HexValue(a).value);
    assert HexNumber([a, b]) == Some(HexValue(a).value * 16 + HexValue(b).value);
    assert HexNumber([a, b, c]) == Some(HexValue(a).value * 256 + HexValue(b).value * 16 + HexValue(c).value);
  }

  /** `replaceAll(UNSAFE, escapeCodePoint)` */
  function ReplaceUnsafe(unsafe: Class, ps: seq<Point>): Text
  {
    if ps == [] then [] else (if unsafe(ps[0]) then Escape(ps[0]) else PointUnits(ps[0])) + ReplaceUnsafe(unsafe, ps[1..])
  }

  function SafeCanonicalJson(eng: Engine, unsafe: Class, v: Json): Result<Text, Error>
  {
    match Print(eng, v) case Err(e) => Err(e) case Ok(t) => Ok(ReplaceUnsafe(unsafe, Points(t)))
  }

  /** Some unsafe character lies above U+FFFF. */
  predicate Beyond(unsafe: Class, ps: seq<Point>)
  {
    exists i :: 0 <= i < |ps| && unsafe(ps[i]) && ps[i] > 0xFFFF
  }

  // ---------- unit by unit, when nothing unsafe lies beyond ----------

  function EscapeUnits(unsafe: Class, t: Text): Text
  {
    if t == [] then [] else (if unsafe(t[0]) then Escape(t[0]) else [t[0]]) + EscapeUnits(unsafe, t[1..])
  }

  lemma {:induction false} PointsAsUnits(unsafe: Class, t: Text)
    requires Sane(unsafe) && !Beyond(unsafe, Points(t))
    ensures ReplaceUnsafe(unsafe, Points(t)) == EscapeUnits(unsafe, t)
  {
    hide Escape, HexText;
    if t == [] {
    } else if IsHighSurrogate(t[0]) && |t| >= 2 && IsLowSurrogate(t[1]) {
      var ps := Points(t);
      assert ps[1..] == Points(t[2..]);
      assert !unsafe(ps[0]);
      PointsAsUnits(unsafe, t[2..]);
      PairUnits(t[0], t[1]);
      assert t[1..][0] == t[1] && t[1..][1..] == t[2..];
      SafePair(t[0], t[1], EscapeUnits(unsafe, t[2..]));
    } else {
      assert Points(t)[1..] == Points(t[1..]);
      PointsAsUnits(unsafe, t[1..]);
    }
  }

  lemma SafePair(a: Unit, b: Unit, rest: Text)
    ensures [a, b] + rest == [a] + ([b] + rest)
  {
  }

  lemma {:induction false} EscapeAppend(unsafe: Class, x: Text, y: Text)
    ensures EscapeUnits(unsafe, x + y) == EscapeUnits(unsafe, x) + EscapeUnits(unsafe, y)
  {
    hide Escape;
    if x == [] {
      assert x + y == y;
    } else {
      EscapeAppend(unsafe, x[1..], y);
      DropFirst(x, y, 1);
      Associated(if unsafe(x[0]) then Escape(x[0]) else [x[0]], EscapeUnits(unsafe, x[1..]), EscapeUnits(unsafe, y));
    }
  }

  lemma Associated(a: Text, b: Text, c: Text)
    ensures a + (b + c) == a + b + c
  {
  }

  lemma {:induction false} EscapePlain(unsafe: Class, t: Text)
    requires Sane(unsafe) && Plain(t)
    ensures EscapeUnits(unsafe, t) == t
  {
    if t != [] {
      EscapePlain(unsafe, t[1..]);
      assert t == [t[0]] + t[1..];
    }
  }

  /** Escaping `x + y` where `x` is plain. */
  lemma EscapeAfterPlain(unsafe: Class, x: Text, y: Text)
    requires Sane(unsafe) && Plain(x)
    ensures EscapeUnits(unsafe, x + y) == x + EscapeUnits(unsafe, y)
  {
    EscapeAppend(unsafe, x, y);
    EscapePlain(unsafe, x);
  }

  // ---------- the escaped text is another spelling of the same tree ----------

  function SafeSpelled(unsafe: Class, c: Spelled): Spelled
  {
    if c.Raw? && unsafe(c.unit) then Hex(HexText(c.unit)) else c
  }

  function SafeSpelling(unsafe: Class, sp: seq<Spelled>): seq<Spelled>
  {
    if sp == [] then [] else [SafeSpelled(unsafe, sp[0])] + SafeSpelling(unsafe, sp[1..])
  }

  lemma SafeSpelledSame(unsafe: Class, c: Spelled)
    requires Sane(unsafe) && c.Valid()
    ensures SafeSpelled(unsafe, c).Valid() && SafeSpelled(unsafe, c).Denotes() == c.Denotes()
    ensures SafeSpelled(unsafe, c).Render() == EscapeUnits(unsafe, c.Render())
  {
    match c {
      case Raw(u) =>
        hide HexText, HexUnit, IsHex;
        assert EscapeUnits(unsafe, [u][1..]) == [];
        HexRoundTrip(u);
        assert Escape(u) + [] == Escape(u);
      case Short(letter) =>
        EscapePlain(unsafe, [BACKSLASH, letter]);
      case Hex(digits) =>
        assert Plain(digits);
        EscapePlain(unsafe, [BACKSLASH, LETTER_U] + digits);
    }
  }

  lemma {:induction false} SafeSpellingSame(unsafe: Class, sp: seq<Spelled>)
    requires Sane(unsafe) && ValidSpelling(sp)
    ensures ValidSpelling(SafeSpelling(unsafe, sp)) && SpellingUnits(SafeSpelling(unsafe, sp)) == SpellingUnits(sp)
    ensures SpellingText(SafeSpelling(unsafe, sp)) == EscapeUnits(unsafe, SpellingText(sp))
  {
    if sp != [] {
      hide SafeSpelled, Spelled.Valid, Spelled.Denotes, Spelled.Render, EscapeUnits;
      SafeSpelledSame(unsafe, sp[0]);
      SafeSpellingSame(unsafe, sp[1..]);
      EscapeAppend(unsafe, sp[0].Render(), SpellingText(sp[1..]));
      var safe := SafeSpelling(unsafe, sp);
      assert safe[1..] == SafeSpelling(unsafe, sp[1..]);
    } else {
      EscapePlain(unsafe, []);
    }
  }

  lemma SafeLiteral(unsafe: Class, sp: seq<Spelled>)
    requires Sane(unsafe) && ValidString(sp)
    ensures ValidString(SafeSpelling(unsafe, sp)) && SpellingUnits(SafeSpelling(unsafe, sp)) == SpellingUnits(sp)
    ensures Literal(SafeSpelling(unsafe, sp)) == EscapeUnits(unsafe, Literal(sp))
  {
    hide EscapeUnits, SpellingText, SpellingUnits, ValidSpelling;
    SafeSpellingSame(unsafe, sp);
    Associated([QUOTE], SpellingText(sp), [QUOTE]);
    EscapeAfterPlain(unsafe, [QUOTE], SpellingText(sp) + [QUOTE]);
    EscapeAppend(unsafe, SpellingText(sp), [QUOTE]);
    EscapePlain(unsafe, [QUOTE]);
    Associated([QUOTE], EscapeUnits(unsafe, SpellingText(sp)), [QUOTE]);
  }

  function SafeTree(unsafe: Class, tree: Tree): Tree
    decreases tree
  {
    match tree
    case StringToken(sp) => StringToken(SafeSpelling(unsafe, sp))
    case ArrayOf(es) => ArrayOf(SafeElements(unsafe, es))
    case ObjectOf(ms) => ObjectOf(SafeMembers(unsafe, ms))
    case _ => tree
  }

  function SafeElement(unsafe: Class, e: Element): Element
    decreases e
  {
    Element(e.before, SafeTree(unsafe, e.tree), e.after)
  }

  function SafeElements(unsafe: Class, es: seq<Element>): (r: seq<Element>)
    ensures |r| == |es|
    decreases es
  {
    if es == [] then [] else [SafeElement(unsafe, es[0])] + SafeElements(unsafe, es[1..])
  }

  function SafeMember(unsafe: Class, m: Member): Member
    decreases m
  {
    Member(m.beforeKey, SafeSpelling(unsafe, m.key), m.afterKey, SafeElement(unsafe, m.value))
  }

  function SafeMembers(unsafe: Class, ms: seq<Member>): (r: seq<Member>)
    ensures |r| == |ms|
    decreases ms
  {
    if ms == [] then [] else [SafeMember(unsafe, ms[0])] + SafeMembers(unsafe, ms[1..])
  }

  predicate AnySpelling(sp: seq<Spelled>) { true }

  /** The escaped tree denotes the same value and renders as the escaped text. */
  ghost predicate SameTree(eng: Engine, unsafe: Class, tree: Tree)
  {
    && Valid(eng, SafeTree(unsafe, tree)) && Denotes(eng, SafeTree(unsafe, tree)) == Denotes(eng, tree)
    && Render(SafeTree(unsafe, tree)) == EscapeUnits(unsafe, Render(tree))
  }

  lemma {:induction false} SafeTreeSame(eng: Engine, unsafe: Class, tree: Tree)
    requires Sane(unsafe) && Valid(eng, tree) && Uses(IsCanonicalSpelling, NoGap, tree)
    ensures SameTree(eng, unsafe, tree)
    decreases tree
  {
    hide EscapeUnits, Literal, ValidString, SpellingUnits, Sane;
    match tree {
      case NullWord => EscapePlain(unsafe, NULL_TEXT);
      case BooleanWord(b) => EscapePlain(unsafe, if b then TRUE_TEXT else FALSE_TEXT);
      case NumberToken(n) =>
        NumbersArePlain(n);
        EscapePlain(unsafe, n.Render());
      case StringToken(sp) => SafeLiteral(unsafe, sp);
      case EmptyArray(gap) => SafeEmptySame(eng, unsafe, tree);
      case EmptyObject(gap) => SafeEmptySame(eng, unsafe, tree);
      case ArrayOf(es) =>
        SafeElementsSame(eng, unsafe, es);
        EscapeAfterPlain(unsafe, [LEFT_BRACKET], ElementsText(es));
      case ObjectOf(ms) =>
        SafeMembersSame(eng, unsafe, ms, {}, map[]);
        EscapeAfterPlain(unsafe, [LEFT_BRACE], MembersText(ms));
    }
  }

  lemma SafeEmptySame(eng: Engine, unsafe: Class, tree: Tree)
    requires Sane(unsafe) && (tree == EmptyArray([]) || tree == EmptyObject([]))
    ensures SameTree(eng, unsafe, tree)
  {
    hide EscapeUnits, Sane;
    EscapePlain(unsafe, [LEFT_BRACKET] + ([] + [RIGHT_BRACKET]));
    EscapePlain(unsafe, [LEFT_BRACE] + ([] + [RIGHT_BRACE]));
  }

  lemma SafeElementSame(eng: Engine, unsafe: Class, e: Element)
    requires Sane(unsafe) && ValidElement(eng, e) && UsesElement(IsCanonicalSpelling, NoGap, e)
    ensures SameTree(eng, unsafe, e.tree) && ValidElement(eng, SafeElement(unsafe, e))
    ensures ElementText(SafeElement(unsafe, e)) == EscapeUnits(unsafe, ElementText(e))
    decreases e
  {
    hide EscapeUnits, Valid, Uses, Render, Sane, Denotes, SafeTree;
    SafeTreeSame(eng, unsafe, e.tree);
    assert e.before + (Render(e.tree) + e.after) == Render(e.tree);
    assert e.before + (Render(SafeTree(unsafe, e.tree)) + e.after) == Render(SafeTree(unsafe, e.tree));
  }

  lemma {:induction false} SafeElementsSame(eng: Engine, unsafe: Class, es: seq<Element>)
    requires Sane(unsafe)
    requires forall i :: 0 <= i < |es| ==> ValidElement(eng, es[i]) && UsesElement(IsCanonicalSpelling, NoGap, es[i])
    ensures forall i :: 0 <= i < |es| ==> ValidElement(eng, SafeElements(unsafe, es)[i])
    ensures Values(eng, SafeElements(unsafe, es)) == Values(eng, es)
    ensures ElementsText(SafeElements(unsafe, es)) == EscapeUnits(unsafe, ElementsText(es))
    decreases es
  {
    hide EscapeUnits, ValidElement, UsesElement, ElementText, SafeTree, Denotes, Sane;
    if es == [] {
      EscapePlain(unsafe, []);
    } else {
      var safe := SafeElements(unsafe, es);
      assert safe[1..] == SafeElements(unsafe, es[1..]);
      SafeElementSame(eng, unsafe, es[0]);
      SafeElementsSame(eng, unsafe, es[1..]);
      if |es| == 1 {
        EscapeAppend(unsafe, ElementText(es[0]), [RIGHT_BRACKET]);
        EscapePlain(unsafe, [RIGHT_BRACKET]);
      } else {
        EscapeAppend(unsafe, ElementText(es[0]), [COMMA] + ElementsText(es[1..]));
        EscapeAfterPlain(unsafe, [COMMA], ElementsText(es[1..]));
      }
    }
  }

  lemma SafeMemberSame(eng: Engine, unsafe: Class, m: Member)
    requires Sane(unsafe) && ValidElement(eng, m.value) && ValidString(m.key) && UsesMember(IsCanonicalSpelling, NoGap, m)
    ensures SameTree(eng, unsafe, m.value.tree) && ValidElement(eng, SafeMember(unsafe, m).value)
    ensures ValidString(SafeMember(unsafe, m).key) && SpellingUnits(SafeMember(unsafe, m).key) == SpellingUnits(m.key)
    ensures MemberText(SafeMember(unsafe, m)) == EscapeUnits(unsafe, MemberText(m))
    decreases m
  {
    hide EscapeUnits, ElementText, ValidElement, ValidString, SpellingUnits, Literal, SafeElement, Sane, SameTree;
    SafeElementSame(eng, unsafe, m.value);
    SafeLiteral(unsafe, m.key);
    EscapeAppend(unsafe, Literal(m.key), [COLON] + ElementText(m.value));
    EscapeAfterPlain(unsafe, [COLON], ElementText(m.value));
    NoGaps(m);
    NoGaps(SafeMember(unsafe, m));
  }

  lemma NoGaps(m: Member)
    requires m.beforeKey == [] && m.afterKey == []
    ensures MemberText(m) == Literal(m.key) + ([COLON] + ElementText(m.value))
  {
    hide Literal, ElementText;
  }

  lemma {:induction false} SafeMembersSame(eng: Engine, unsafe: Class, ms: seq<Member>, seen: set<Text>,
          acc: map<Text, Json>)
    requires Sane(unsafe) && ValidMembers(eng, ms, seen)
    requires forall i :: 0 <= i < |ms| ==> UsesMember(IsCanonicalSpelling, NoGap, ms[i])
    ensures ValidMembers(eng, SafeMembers(unsafe, ms), seen)
    ensures MemberMap(eng, SafeMembers(unsafe, ms), acc) == MemberMap(eng, ms, acc)
    ensures MembersText(SafeMembers(unsafe, ms)) == EscapeUnits(unsafe, MembersText(ms))
    decreases ms
  {
    hide EscapeUnits, ValidElement, UsesMember, MemberText, SafeTree, Denotes, Sane, ValidString, SpellingUnits, SafeSpelling;
    if ms == [] {
      EscapePlain(unsafe, []);
    } else {
      var safe := SafeMembers(unsafe, ms);
      assert safe[1..] == SafeMembers(unsafe, ms[1..]);
      SafeMemberSame(eng, unsafe, ms[0]);
      SafeMembersSame(eng, unsafe, ms[1..], seen + {SpellingUnits(ms[0].key)},
                      acc[SpellingUnits(ms[0].key) := Denotes(eng, ms[0].value.tree)]);
      if |ms| == 1 {
        EscapeAppend(unsafe, MemberText(ms[0]), [RIGHT_BRACE]);
        EscapePlain(unsafe, [RIGHT_BRACE]);
      } else {
        EscapeAppend(unsafe, MemberText(ms[0]), [COMMA] + MembersText(ms[1..]));
        EscapeAfterPlain(unsafe, [COMMA], MembersText(ms[1..]));
      }
    }
  }

  /** With nothing unsafe beyond U+FFFF, the rendered text is parsed back to the value. */
  lemma SafeTextParses(eng: Engine, unsafe: Class, v: Json)
    requires Faithful(eng) && OfEngine(eng, v) && Print(eng, v).Ok? && Sane(unsafe)
    requires !Beyond(unsafe, Points(Print(eng, v).value))
    ensures Parse(eng, SafeCanonicalJson(eng, unsafe, v).value) == Ok(v)
  {
    hide Faithful, OfEngine, Print, Sane, Beyond, Render, Valid, Denotes, SafeTree, CanonicalTree, Parse, EscapeUnits;
    PrintAcceptsPrintable(eng, v);
    PrintIsCanonical(eng, v);
    CanonicalUses(eng, v);
    var tree := CanonicalTree(eng, v);
    SafeTreeSame(eng, unsafe, tree);
    PointsAsUnits(unsafe, Render(tree));
    var safe := SafeTree(unsafe, tree);
    assert [] + (Render(safe) + []) == Render(safe);
    ParseText(eng, Render(safe), [], safe, []);
  }
}
