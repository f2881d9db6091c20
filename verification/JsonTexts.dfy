/** An induction principle for rendered JSON texts, and the texts the printer can write. */
module JsonTexts {
  import opened Outcomes
  import opened Utf16
  import opened Decimal
  import opened JsonValue
  import opened JsonStrings
  import opened JsonGrammar
  import opened JsonPrinter

  /** Every string of the tree satisfies `q`, and every run of blanks satisfies `b`. */
  ghost predicate Uses(q: seq<Spelled> -> bool, b: Text -> bool, tree: Tree)
    decreases tree
  {
    match tree
    case StringToken(sp) => q(sp)
    case EmptyArray(gap) => b(gap)
    case ArrayOf(es) => forall i :: 0 <= i < |es| ==> UsesElement(q, b, es[i])
    case EmptyObject(gap) => b(gap)
    case ObjectOf(ms) => forall i :: 0 <= i < |ms| ==> UsesMember(q, b, ms[i])
    case _ => true
  }

  ghost predicate UsesElement(q: seq<Spelled> -> bool, b: Text -> bool, e: Element)
    decreases e
  {
    b(e.before) && Uses(q, b, e.tree) && b(e.after)
  }

  ghost predicate UsesMember(q: seq<Spelled> -> bool, b: Text -> bool, m: Member)
    decreases m
  {
    b(m.beforeKey) && q(m.key) && b(m.afterKey) && UsesElement(q, b, m.value)
  }

  ghost predicate Joins(p: Text -> bool)
  {
    forall x, y :: p(x) && p(y) ==> p(x + y)
  }

  lemma Together(p: Text -> bool, x: Text, y: Text)
    requires Joins(p) && p(x) && p(y)
    ensures p(x + y)
  {
  }

  predicate Punctuation(u: Unit)
  {
    u == LEFT_BRACKET || u == RIGHT_BRACKET || u == LEFT_BRACE || u == RIGHT_BRACE || u == COMMA || u == COLON
  }

  /** The property holds of the tokens. */
  ghost predicate Tokens(p: Text -> bool, q: seq<Spelled> -> bool, b: Text -> bool)
  {
    && p([]) && p(NULL_TEXT) && p(TRUE_TEXT) && p(FALSE_TEXT) && (forall u :: Punctuation(u) ==> p([u]))
    && (forall n: NumberSpelling :: n.Strict() ==> p(n.Render()))
    && (forall sp :: q(sp) && ValidString(sp) ==> p(Literal(sp)))
    && forall gap :: b(gap) && Blank(gap) ==> p(gap)
  }

  /** A property of the tokens that concatenation keeps holds of every rendered tree. */
  lemma {:induction false} RenderInduction(eng: Engine, p: Text -> bool, q: seq<Spelled> -> bool,
          b: Text -> bool, tree: Tree)
    requires Joins(p) && Tokens(p, q, b) && Valid(eng, tree) && Uses(q, b, tree)
    ensures p(Render(tree))
    decreases tree
  {
    hide Joins;
    match tree {
      case EmptyArray(gap) =>
        Together(p, gap, [RIGHT_BRACKET]);
        Together(p, [LEFT_BRACKET], gap + [RIGHT_BRACKET]);
      case EmptyObject(gap) =>
        Together(p, gap, [RIGHT_BRACE]);
        Together(p, [LEFT_BRACE], gap + [RIGHT_BRACE]);
      case ArrayOf(es) =>
        ElementsInduction(eng, p, q, b, es);
        Together(p, [LEFT_BRACKET], ElementsText(es));
      case ObjectOf(ms) =>
        MembersInduction(eng, p, q, b, ms, {});
        Together(p, [LEFT_BRACE], MembersText(ms));
      case _ =>
    }
  }

  lemma ElementInduction(eng: Engine, p: Text -> bool, q: seq<Spelled> -> bool, b: Text -> bool, e: Element)
    requires Joins(p) && Tokens(p, q, b) && ValidElement(eng, e) && UsesElement(q, b, e)
    ensures p(ElementText(e))
    decreases e
  {
    hide Joins;
    RenderInduction(eng, p, q, b, e.tree);
    Together(p, Render(e.tree), e.after);
    Together(p, e.before, Render(e.tree) + e.after);
  }

  lemma {:induction false} ElementsInduction(eng: Engine, p: Text -> bool, q: seq<Spelled> -> bool,
          b: Text -> bool, es: seq<Element>)
    requires Joins(p) && Tokens(p, q, b)
    requires forall i :: 0 <= i < |es| ==> ValidElement(eng, es[i]) && UsesElement(q, b, es[i])
    ensures p(ElementsText(es))
    decreases es
  {
    hide Joins, ValidElement, UsesElement, ElementText;
    if es != [] {
      ElementInduction(eng, p, q, b, es[0]);
      if |es| == 1 {
        Together(p, ElementText(es[0]), [RIGHT_BRACKET]);
      } else {
        ElementsInduction(eng, p, q, b, es[1..]);
        Together(p, [COMMA], ElementsText(es[1..]));
        Together(p, ElementText(es[0]), [COMMA] + ElementsText(es[1..]));
      }
    }
  }

  lemma MemberInduction(eng: Engine, p: Text -> bool, q: seq<Spelled> -> bool, b: Text -> bool, m: Member)
    requires Joins(p) && Tokens(p, q, b) && ValidElement(eng, m.value) && UsesMember(q, b, m)
    requires Blank(m.beforeKey) && ValidString(m.key) && Blank(m.afterKey)
    ensures p(MemberText(m))
    decreases m
  {
    hide Joins, ValidString, Literal, ElementText;
    ElementInduction(eng, p, q, b, m.value);
    Together(p, [COLON], ElementText(m.value));
    Together(p, m.afterKey, [COLON] + ElementText(m.value));
    Together(p, Literal(m.key), m.afterKey + ([COLON] + ElementText(m.value)));
    Together(p, m.beforeKey, Literal(m.key) + (m.afterKey + ([COLON] + ElementText(m.value))));
  }

  lemma {:induction false} MembersInduction(eng: Engine, p: Text -> bool, q: seq<Spelled> -> bool,
          b: Text -> bool, ms: seq<Member>, seen: set<Text>)
    requires Joins(p) && Tokens(p, q, b) && ValidMembers(eng, ms, seen)
    requires forall i :: 0 <= i < |ms| ==> UsesMember(q, b, ms[i])
    ensures p(MembersText(ms))
    decreases ms
  {
    hide Joins, UsesMember, ValidElement, ValidString, MemberText;
    if ms != [] {
      MemberInduction(eng, p, q, b, ms[0]);
      if |ms| == 1 {
        Together(p, MemberText(ms[0]), [RIGHT_BRACE]);
      } else {
        MembersInduction(eng, p, q, b, ms[1..], seen + {SpellingUnits(ms[0].key)});
        Together(p, [COMMA], MembersText(ms[1..]));
        Together(p, MemberText(ms[0]), [COMMA] + MembersText(ms[1..]));
      }
    }
  }

  // ---------- the trees of the printer ----------

  ghost predicate IsCanonicalSpelling(sp: seq<Spelled>) { exists t :: WellFormed(t) && sp == CanonicalSpelling(t) }

  predicate NoGap(gap: Text) { gap == [] }

  /** The printer writes strings in the canonical spelling and no blanks. */
  lemma {:induction false} CanonicalUses(eng: Engine, v: Json)
    requires Printable(eng, v)
    ensures Uses(IsCanonicalSpelling, NoGap, CanonicalTree(eng, v))
    decreases v
  {
    hide UsesElement, UsesMember, CanonicalElements, CanonicalMembers, WellFormed;
    match v {
      case Array(items) =>
        forall i | 0 <= i < |items| ensures Uses(IsCanonicalSpelling, NoGap, CanonicalTree(eng, items[i])) {
          CanonicalUses(eng, items[i]);
        }
        CanonicalElementsUse(eng, v);
        ArrayUses(eng, v);
      case Object(members) =>
        forall k | k in members ensures Uses(IsCanonicalSpelling, NoGap, CanonicalTree(eng, members[k])) {
          CanonicalUses(eng, members[k]);
        }
        SortedKeysSorts(members.Keys);
        CanonicalMembersUse(eng, v, SortedKeys(members.Keys));
        ObjectUses(eng, v);
      case _ =>
    }
  }

  lemma ArrayUses(eng: Engine, v: Json)
    requires v.Array?
    requires forall i :: 0 <= i < |v.items| ==> UsesElement(IsCanonicalSpelling, NoGap, CanonicalElements(eng, v, 0)[i])
    ensures Uses(IsCanonicalSpelling, NoGap, CanonicalTree(eng, v))
  {
    hide UsesElement, CanonicalElements;
  }

  lemma ObjectUses(eng: Engine, v: Json)
    requires v.Object?
    requires (SortedKeysSorts(v.members.Keys);
              forall i :: 0 <= i < |v.members.Keys| ==>
                UsesMember(IsCanonicalSpelling, NoGap, CanonicalMembers(eng, v, SortedKeys(v.members.Keys))[i]))
    ensures Uses(IsCanonicalSpelling, NoGap, CanonicalTree(eng, v))
  {
    hide UsesMember, CanonicalMembers;
    SortedKeysSorts(v.members.Keys);
  }

  lemma {:induction false} CanonicalElementAt(eng: Engine, v: Json, from: nat, i: nat)
    requires v.Array? && from + i < |v.items|
    ensures CanonicalElements(eng, v, from)[i] == Element([], CanonicalTree(eng, v.items[from + i]), [])
    decreases i
  {
    hide CanonicalTree;
    if i > 0 { CanonicalElementAt(eng, v, from + 1, i - 1); }
  }

  lemma CanonicalElementsUse(eng: Engine, v: Json)
    requires v.Array?
    requires forall i :: 0 <= i < |v.items| ==> Uses(IsCanonicalSpelling, NoGap, CanonicalTree(eng, v.items[i]))
    ensures forall i :: 0 <= i < |v.items| ==> UsesElement(IsCanonicalSpelling, NoGap, CanonicalElements(eng, v, 0)[i])
  {
    hide Uses, UsesElement, CanonicalTree, CanonicalElements;
    forall i | 0 <= i < |v.items| ensures UsesElement(IsCanonicalSpelling, NoGap, CanonicalElements(eng, v, 0)[i]) {
      CanonicalElementAt(eng, v, 0, i);
      ElementUses(CanonicalTree(eng, v.items[i]));
    }
  }

  lemma ElementUses(tree: Tree)
    requires Uses(IsCanonicalSpelling, NoGap, tree)
    ensures UsesElement(IsCanonicalSpelling, NoGap, Element([], tree, []))
  {
  }

  lemma {:induction false} CanonicalMembersUse(eng: Engine, v: Json, keys: seq<Text>)
    requires v.Object? && forall k :: k in keys ==> k in v.members && WellFormed(k)
    requires forall k :: k in keys ==> Uses(IsCanonicalSpelling, NoGap, CanonicalTree(eng, v.members[k]))
    ensures var ms := CanonicalMembers(eng, v, keys);
            forall i :: 0 <= i < |ms| ==> UsesMember(IsCanonicalSpelling, NoGap, ms[i])
    decreases |keys|
  {
    hide Uses, CanonicalTree, WellFormed;
    if keys != [] {
      assert keys[0] in keys;
      CanonicalMembersUse(eng, v, keys[1..]);
      var ms := CanonicalMembers(eng, v, keys);
      assert ms[1..] == CanonicalMembers(eng, v, keys[1..]);
      assert IsCanonicalSpelling(ms[0].key);
      assert UsesMember(IsCanonicalSpelling, NoGap, ms[0]);
      assert forall i :: 0 < i < |ms| ==> ms[i] == ms[1..][i - 1];
    }
  }

  // ---------- ASCII and well-formed texts ----------

  /** Printable ASCII. */
  predicate Plain(t: Text) { forall i :: 0 <= i < |t| ==> 0x20 <= t[i] <= 0x7E }

  lemma NumbersArePlain(n: NumberSpelling)
    requires n.Strict()
    ensures Plain(n.Render())
  {
    hide NumberSpelling.Render;
    assert Plain(SignText(n.negative)) && Plain(FractionText(n.fraction));
    assert Plain(ExponentText(n.exponent)) by { ExponentIsPlain(n); }
    PlainTogether(FractionText(n.fraction), ExponentText(n.exponent));
    PlainTogether(n.whole, FractionText(n.fraction) + ExponentText(n.exponent));
    PlainTogether(SignText(n.negative), n.whole + (FractionText(n.fraction) + ExponentText(n.exponent)));
    RenderIs(n);
  }

  lemma RenderIs(n: NumberSpelling)
    ensures n.Render() == SignText(n.negative) + (n.whole + (FractionText(n.fraction) + ExponentText(n.exponent)))
  {
  }

  lemma ExponentIsPlain(n: NumberSpelling)
    requires n.Strict()
    ensures Plain(ExponentText(n.exponent))
  {
    if n.exponent.Some? {
      var x := n.exponent.value;
      PlainTogether(OptionalUnit(x.sign), x.digits);
      PlainTogether([x.mark], OptionalUnit(x.sign) + x.digits);
    }
  }

  lemma PlainTogether(x: Text, y: Text)
    requires Plain(x) && Plain(y)
    ensures Plain(x + y)
  {
  }

  lemma {:induction false} PlainIsWellFormed(t: Text)
    requires Plain(t)
    ensures WellFormed(t)
  {
    if t != [] { PlainIsWellFormed(t[1..]); }
  }

  lemma {:induction false} WellFormedTogether(x: Text, y: Text)
    requires WellFormed(x) && WellFormed(y)
    ensures WellFormed(x + y)
  {
    if x == [] {
      assert x + y == y;
    } else {
      hide WellFormed;
      WellFormedStep(x);
      WellFormedStep(x + y);
      if IsHighSurrogate(x[0]) {
        WellFormedTogether(x[2..], y);
        DropFirst(x, y, 2);
      } else {
        WellFormedTogether(x[1..], y);
        DropFirst(x, y, 1);
      }
    }
  }

  lemma DropFirst(x: Text, y: Text, n: nat)
    requires n <= |x|
    ensures (x + y)[n..] == x[n..] + y
  {
  }

  lemma WellFormedStep(t: Text)
    requires t != []
    ensures WellFormed(t) <==>
            if IsHighSurrogate(t[0]) then |t| >= 2 && IsLowSurrogate(t[1]) && WellFormed(t[2..])
            else !IsLowSurrogate(t[0]) && WellFormed(t[1..])
  {
  }

  lemma {:induction false} SpellingWellFormed(t: Text)
    requires WellFormed(t)
    ensures WellFormed(SpellingText(CanonicalSpelling(t)))
  {
    if t != [] {
      var sp := CanonicalSpelling(t);
      assert sp[1..] == CanonicalSpelling(t[1..]);
      if IsHighSurrogate(t[0]) {
        var u := CanonicalSpelling(t[1..]);
        assert u[1..] == CanonicalSpelling(t[2..]) && t[1..][1..] == t[2..];
        SpellingWellFormed(t[2..]);
        assert SpellingText(sp) == [t[0]] + ([t[1]] + SpellingText(u[1..]));
        assert SpellingText(sp)[2..] == SpellingText(u[1..]);
      } else {
        SpellingWellFormed(t[1..]);
        UnitWellFormed(t[0]);
        WellFormedTogether(sp[0].Render(), SpellingText(sp[1..]));
      }
    }
  }

  lemma UnitWellFormed(u: Unit)
    requires !IsHighSurrogate(u) && !IsLowSurrogate(u)
    ensures WellFormed(CanonicalSpelled(u).Render())
  {
    if CanonicalSpelled(u).Raw? {
      assert [u][1..] == [];
    } else {
      PlainEscape(u);
      PlainIsWellFormed(CanonicalSpelled(u).Render());
    }
  }

  lemma PlainEscape(u: Unit)
    requires !CanonicalSpelled(u).Raw?
    ensures Plain(CanonicalSpelled(u).Render())
  {
    if CanonicalSpelled(u).Hex? { HexIsPlain(u); }
  }

  lemma HexIsPlain(u: Unit)
    ensures Plain(HexText(u))
  {
  }

  lemma LiteralWellFormed(t: Text)
    requires WellFormed(t)
    ensures WellFormed(Literal(CanonicalSpelling(t)))
  {
    SpellingWellFormed(t);
    PlainIsWellFormed([QUOTE]);
    WellFormedTogether([QUOTE], SpellingText(CanonicalSpelling(t)));
    WellFormedTogether([QUOTE] + SpellingText(CanonicalSpelling(t)), [QUOTE]);
  }

  /** The canonical text is well-formed UTF-16, so encoding it loses nothing. */
  lemma PrintIsWellFormed(eng: Engine, v: Json)
    requires Faithful(eng) && OfEngine(eng, v) && Print(eng, v).Ok?
    ensures WellFormed(Print(eng, v).value)
  {
    hide Faithful, OfEngine, Print, Render, CanonicalTree, Uses, Valid, WellFormed;
    PrintAcceptsPrintable(eng, v);
    PrintIsCanonical(eng, v);
    CanonicalUses(eng, v);
    WellFormedTokens();
    RenderInduction(eng, WellFormed, IsCanonicalSpelling, NoGap, CanonicalTree(eng, v));
  }

  lemma WellFormedTokens()
    ensures Joins(WellFormed) && Tokens(WellFormed, IsCanonicalSpelling, NoGap)
  {
    hide WellFormed;
    forall x, y | WellFormed(x) && WellFormed(y) ensures WellFormed(x + y) { WellFormedTogether(x, y); }
    PlainIsWellFormed([]);
    PlainIsWellFormed(NULL_TEXT);
    PlainIsWellFormed(TRUE_TEXT);
    PlainIsWellFormed(FALSE_TEXT);
    forall u | Punctuation(u) ensures WellFormed([u]) { PlainIsWellFormed([u]); }
    forall n: NumberSpelling | n.Strict() ensures WellFormed(n.Render()) {
      NumbersArePlain(n);
      PlainIsWellFormed(n.Render());
    }
    forall sp | IsCanonicalSpelling(sp) ensures WellFormed(Literal(sp)) {
      var t :| WellFormed(t) && sp == CanonicalSpelling(t);
      LiteralWellFormed(t);
    }
  }
}
