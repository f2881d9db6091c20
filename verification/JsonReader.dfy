/** The strict parser as functions from the unread text to a value and the text left. */
module JsonReader {
  import opened Outcomes
  import opened Utf16
  import opened Decimal
  import opened JsonValue
  import opened JsonStrings
  import opened JsonGrammar

  function SkipBlank(s: Text): (t: Text)
    ensures |t| <= |s|
    ensures t != [] ==> !IsBlank(t[0])
  {
    if s != [] && IsBlank(s[0]) then SkipBlank(s[1..]) else s
  }

  predicate StartsWith(s: Text, prefix: Text) { |prefix| <= |s| && s[..|prefix|] == prefix }

  function ReadNumber(eng: Engine, s: Text): (r: Read<Json>)
    ensures r.Done? ==> |r.rest| < |s|
  {
    match MatchNumber(s, true)
    case None => Failed(InvalidJson)
    case Some(m) =>
      MatchNumberSound(s, true);
      match AcceptNumber(eng, m.0.Render())
      case Ok(v) => Done(v, m.1)
      case Err(e) => Failed(e)
  }

  /** A value that is neither an object nor an array. */
  function ReadScalar(eng: Engine, t: Text): (r: Read<Json>)
    ensures r.Done? ==> |r.rest| < |t|
  {
    if t != [] && t[0] == QUOTE then
      match ReadString(t[1..])
      case Done(text, rest) => Done(String(text), rest)
      case Failed(e) => Failed(e)
    else if StartsWith(t, TRUE_TEXT) then Done(Boolean(true), t[4..])
    else if StartsWith(t, FALSE_TEXT) then Done(Boolean(false), t[5..])
    else if StartsWith(t, NULL_TEXT) then Done(Null, t[4..])
    else ReadNumber(eng, t)
  }

  function ReadValue(eng: Engine, s: Text): (r: Read<Json>)
    ensures r.Done? ==> |r.rest| < |s|
    decreases |s|, 2
  {
    var t := SkipBlank(s);
    if t != [] && t[0] == LEFT_BRACE then ReadObject(eng, t[1..])
    else if t != [] && t[0] == LEFT_BRACKET then ReadArray(eng, t[1..])
    else ReadScalar(eng, t)
  }

  function ReadArray(eng: Engine, s: Text): (r: Read<Json>)
    ensures r.Done? ==> |r.rest| <= |s|
    decreases |s|, 4
  {
    var t := SkipBlank(s);
    if t != [] && t[0] == RIGHT_BRACKET then Done(Array([]), t[1..]) else ReadElements(eng, s, [])
  }

  function ReadElements(eng: Engine, s: Text, acc: seq<Json>): (r: Read<Json>)
    ensures r.Done? ==> |r.rest| <= |s|
    decreases |s|, 3
  {
    match ReadValue(eng, s)
    case Failed(e) => Failed(e)
    case Done(v, u) =>
      var w := SkipBlank(u);
      if w != [] && w[0] == RIGHT_BRACKET then Done(Array(acc + [v]), w[1..])
      else if w == [] || w[0] != COMMA then Failed(InvalidJson)
      else ReadElements(eng, w[1..], acc + [v])
  }

  function ReadObject(eng: Engine, s: Text): (r: Read<Json>)
    ensures r.Done? ==> |r.rest| <= |s|
    decreases |s|, 4
  {
    var t := SkipBlank(s);
    if t != [] && t[0] == RIGHT_BRACE then Done(Object(map[]), t[1..]) else ReadMembers(eng, s, map[])
  }

  function ReadMembers(eng: Engine, s: Text, acc: map<Text, Json>): (r: Read<Json>)
    ensures r.Done? ==> |r.rest| <= |s|
    decreases |s|, 3
  {
    var t := SkipBlank(s);
    if t == [] || t[0] != QUOTE then Failed(InvalidJson) else
      match ReadString(t[1..])
      case Failed(e) => Failed(e)
      case Done(key, u) =>
        if key in acc then Failed(DuplicateKey) else
          var w := SkipBlank(u);
          if w == [] || w[0] != COLON then Failed(InvalidJson) else
            match ReadValue(eng, w[1..])
            case Failed(e) => Failed(e)
            case Done(v, x) =>
              var y := SkipBlank(x);
              if y != [] && y[0] == RIGHT_BRACE then Done(Object(acc[key := v]), y[1..])
              else if y == [] || y[0] != COMMA then Failed(InvalidJson)
              else ReadMembers(eng, y[1..], acc[key := v])
  }

  /** `parseJsonStrict` */
  function Parse(eng: Engine, source: Text): Result<Json, Error>
  {
    match ReadValue(eng, source)
    case Failed(e) => Err(e)
    case Done(v, rest) => if SkipBlank(rest) == [] then Ok(v) else Err(InvalidJson)
  }

  // ---------- every valid tree is read back ----------

  lemma {:induction false} SkipGap(gap: Text, s: Text)
    requires Blank(gap)
    requires s != [] ==> !IsBlank(s[0])
    ensures SkipBlank(gap + s) == s
  {
    if gap == [] {
      assert gap + s == s;
    } else {
      assert (gap + s)[1..] == gap[1..] + s;
      SkipGap(gap[1..], s);
    }
  }

  lemma {:induction false} SkipTwice(s: Text)
    ensures SkipBlank(SkipBlank(s)) == SkipBlank(s)
  {
  }

  predicate StartsValue(u: Unit)
  {
    u == 0x6E || u == 0x74 || u == 0x66 || u == MINUS || IsDigit(u) || u == QUOTE || u == LEFT_BRACKET || u == LEFT_BRACE
  }

  lemma RenderStart(eng: Engine, tree: Tree)
    requires Valid(eng, tree)
    ensures Render(tree) != [] && StartsValue(Render(tree)[0])
    ensures Render(tree)[0] == LEFT_BRACE <==> tree.EmptyObject? || tree.ObjectOf?
    ensures Render(tree)[0] == LEFT_BRACKET <==> tree.EmptyArray? || tree.ArrayOf?
  {
  }

  predicate IsScalar(tree: Tree)
  {
    tree.NullWord? || tree.BooleanWord? || tree.NumberToken? || tree.StringToken?
  }

  lemma WordsStart(t: Text)
    ensures StartsWith(t, TRUE_TEXT) ==> t[0] == 0x74
    ensures StartsWith(t, FALSE_TEXT) ==> t[0] == 0x66
    ensures StartsWith(t, NULL_TEXT) ==> t[0] == 0x6E
  {
    if StartsWith(t, TRUE_TEXT) { assert t[..4][0] == t[0]; }
    if StartsWith(t, FALSE_TEXT) { assert t[..5][0] == t[0]; }
    if StartsWith(t, NULL_TEXT) { assert t[..4][0] == t[0]; }
  }

  lemma ReadWordTree(eng: Engine, tree: Tree, rest: Text)
    requires tree.NullWord? || tree.BooleanWord?
    ensures ReadScalar(eng, Render(tree) + rest) == Done(Denotes(eng, tree), rest)
  {
    var t := Render(tree) + rest;
    var n := |Render(tree)|;
    assert t[..n] == Render(tree) && t[n..] == rest;
    WordsStart(t);
  }

  lemma ReadStringTree(eng: Engine, sp: seq<Spelled>, rest: Text)
    requires ValidString(sp)
    ensures ReadScalar(eng, Literal(sp) + rest) == Done(String(SpellingUnits(sp)), rest)
  {
    var t := Literal(sp) + rest;
    assert t[1..] == SpellingText(sp) + ([QUOTE] + rest);
    ReadStringComplete(sp, rest);
  }

  lemma ReadNumberTree(eng: Engine, n: NumberSpelling, rest: Text)
    requires n.Strict() && AcceptNumber(eng, n.Render()).Ok? && Delimited(rest)
    ensures ReadScalar(eng, n.Render() + rest) == Done(Number(eng.number(n.Render())), rest)
  {
    var t := n.Render() + rest;
    assert t[0] == n.Render()[0];
    WordsStart(t);
    ReadNumberToken(eng, n, rest);
  }

  lemma ReadScalarTree(eng: Engine, tree: Tree, rest: Text)
    requires Valid(eng, tree) && IsScalar(tree) && Delimited(rest)
    ensures ReadScalar(eng, Render(tree) + rest) == Done(Denotes(eng, tree), rest)
  {
    match tree {
      case NumberToken(n) => ReadNumberTree(eng, n, rest);
      case StringToken(sp) => ReadStringTree(eng, sp, rest);
      case _ => ReadWordTree(eng, tree, rest);
    }
  }

  lemma {:induction false} ReadTree(eng: Engine, gap: Text, tree: Tree, rest: Text)
    requires Blank(gap) && Valid(eng, tree) && Delimited(rest)
    ensures ReadValue(eng, gap + (Render(tree) + rest)) == Done(Denotes(eng, tree), rest)
    decreases tree
  {
    hide Delimited, ReadScalar, ReadArray, ReadObject, ElementsText, MembersText, Values, MemberMap, Blank, SkipBlank;
    var t := Render(tree) + rest;
    RenderStart(eng, tree);
    assert t[0] == Render(tree)[0];
    SkipGap(gap, t);
    if tree.ArrayOf? {
      assert t[1..] == ElementsText(tree.elements) + rest;
      ReadElementTrees(eng, [], tree.elements, rest);
      ReadArrayTree(eng, tree.elements, rest);
    } else if tree.ObjectOf? {
      assert t[1..] == MembersText(tree.members) + rest;
      ReadMemberTrees(eng, {}, map[], tree.members, rest);
      ReadObjectTree(eng, tree.members, rest);
    } else if tree.EmptyArray? || tree.EmptyObject? {
      ReadEmptyTree(eng, tree, rest);
    } else {
      ReadScalarTree(eng, tree, rest);
    }
  }

  lemma ReadArrayTree(eng: Engine, es: seq<Element>, rest: Text)
    requires es != [] && ValidElement(eng, es[0])
    requires ReadElements(eng, ElementsText(es) + rest, []) == Done(Array([] + Values(eng, es)), rest)
    ensures ReadArray(eng, ElementsText(es) + rest) == Done(Array(Values(eng, es)), rest)
  {
    ElementsStart(eng, es, rest);
    assert [] + Values(eng, es) == Values(eng, es);
  }

  lemma ReadObjectTree(eng: Engine, ms: seq<Member>, rest: Text)
    requires ms != [] && ValidMembers(eng, ms, {})
    requires ReadMembers(eng, MembersText(ms) + rest, map[]) == Done(Object(MemberMap(eng, ms, map[])), rest)
    ensures ReadObject(eng, MembersText(ms) + rest) == Done(Object(MemberMap(eng, ms, map[])), rest)
  {
    MembersStart(eng, ms, {}, rest);
  }

  lemma ReadEmptyTree(eng: Engine, tree: Tree, rest: Text)
    requires (tree.EmptyArray? || tree.EmptyObject?) && Blank(tree.gap)
    ensures tree.EmptyArray? ==> ReadArray(eng, (Render(tree) + rest)[1..]) == Done(Array([]), rest)
    ensures tree.EmptyObject? ==> ReadObject(eng, (Render(tree) + rest)[1..]) == Done(Object(map[]), rest)
  {
    var close := if tree.EmptyArray? then RIGHT_BRACKET else RIGHT_BRACE;
    assert (Render(tree) + rest)[1..] == tree.gap + ([close] + rest);
    SkipGap(tree.gap, [close] + rest);
  }

  lemma ReadNumberToken(eng: Engine, n: NumberSpelling, rest: Text)
    requires n.Strict() && AcceptNumber(eng, n.Render()).Ok? && Delimited(rest)
    ensures ReadNumber(eng, n.Render() + rest) == Done(Number(eng.number(n.Render())), rest)
  {
    MatchNumberComplete(n, true, rest);
  }

  lemma ElementGaps(e: Element, rest: Text)
    ensures ElementText(e) + rest == e.before + (Render(e.tree) + (e.after + rest))
  {
  }

  lemma ElementsFirst(es: seq<Element>, rest: Text)
    requires es != []
    ensures ElementsText(es) + rest
            == ElementText(es[0]) + (if |es| == 1 then [RIGHT_BRACKET] + rest
                                     else [COMMA] + (ElementsText(es[1..]) + rest))
  {
    if |es| == 1 {
      Associate(ElementText(es[0]), [RIGHT_BRACKET], rest);
    } else {
      Associate(ElementText(es[0]), [COMMA] + ElementsText(es[1..]), rest);
      Associate([COMMA], ElementsText(es[1..]), rest);
    }
  }

  lemma ElementsStart(eng: Engine, es: seq<Element>, rest: Text)
    requires es != [] && ValidElement(eng, es[0])
    ensures SkipBlank(ElementsText(es) + rest) != []
    ensures SkipBlank(ElementsText(es) + rest)[0] != RIGHT_BRACKET
  {
    var e := es[0];
    var more := if |es| == 1 then [RIGHT_BRACKET] + rest else [COMMA] + (ElementsText(es[1..]) + rest);
    ElementsFirst(es, rest);
    ElementGaps(e, more);
    RenderStart(eng, e.tree);
    SkipGap(e.before, Render(e.tree) + (e.after + more));
  }

  lemma BlankThenDelimited(after: Text, more: Text)
    requires Blank(after) && more != [] && (more[0] == COMMA || more[0] == RIGHT_BRACKET || more[0] == RIGHT_BRACE)
    ensures Delimited(after + more) && SkipBlank(after + more) == more
  {
    SkipGap(after, more);
    if after != [] { assert (after + more)[0] == after[0]; }
  }

  /** One element and the separator or bracket after it. */
  lemma ReadElementTree(eng: Engine, e: Element, more: Text)
    requires ValidElement(eng, e)
    requires more != [] && (more[0] == COMMA || more[0] == RIGHT_BRACKET || more[0] == RIGHT_BRACE)
    ensures ReadValue(eng, ElementText(e) + more) == Done(Denotes(eng, e.tree), e.after + more)
    ensures SkipBlank(e.after + more) == more
    decreases e
  {
    ElementGaps(e, more);
    BlankThenDelimited(e.after, more);
    ReadTree(eng, e.before, e.tree, e.after + more);
  }

  lemma {:induction false} ReadElementTrees(eng: Engine, acc: seq<Json>, es: seq<Element>, rest: Text)
    requires es != [] && forall i :: 0 <= i < |es| ==> ValidElement(eng, es[i])
    ensures ReadElements(eng, ElementsText(es) + rest, acc) == Done(Array(acc + Values(eng, es)), rest)
    decreases es
  {
    hide ElementText, ElementsText, Denotes, ValidElement, SkipBlank, ReadValue;
    var e := es[0];
    var v := Denotes(eng, e.tree);
    var more := if |es| == 1 then [RIGHT_BRACKET] + rest else [COMMA] + (ElementsText(es[1..]) + rest);
    ElementsFirst(es, rest);
    ReadElementTree(eng, e, more);
    if |es| == 1 {
      assert more[1..] == rest;
      assert Values(eng, es) == [v];
    } else {
      assert more[1..] == ElementsText(es[1..]) + rest;
      ReadElementTrees(eng, acc + [v], es[1..], rest);
      assert acc + Values(eng, es) == acc + [v] + Values(eng, es[1..]);
    }
  }

  lemma MemberGaps(m: Member, more: Text)
    ensures MemberText(m) + more
            == m.beforeKey + ([QUOTE] + (SpellingText(m.key) + ([QUOTE] + (m.afterKey + ([COLON] + (ElementText(m.value) + more))))))
  {
    var a := m.afterKey + ([COLON] + (ElementText(m.value) + more));
    assert (m.afterKey + ([COLON] + ElementText(m.value))) + more == a;
    assert Literal(m.key) + a == [QUOTE] + (SpellingText(m.key) + ([QUOTE] + a));
    assert MemberText(m) + more == m.beforeKey + (Literal(m.key) + a);
  }

  lemma MembersFirst(ms: seq<Member>, rest: Text)
    requires ms != []
    ensures MembersText(ms) + rest
            == MemberText(ms[0]) + (if |ms| == 1 then [RIGHT_BRACE] + rest
                                    else [COMMA] + (MembersText(ms[1..]) + rest))
  {
    if |ms| == 1 {
      Associate(MemberText(ms[0]), [RIGHT_BRACE], rest);
    } else {
      Associate(MemberText(ms[0]), [COMMA] + MembersText(ms[1..]), rest);
      Associate([COMMA], MembersText(ms[1..]), rest);
    }
  }

  lemma Associate(a: Text, b: Text, c: Text)
    ensures (a + b) + c == a + (b + c)
  {
  }

  lemma MembersStart(eng: Engine, ms: seq<Member>, seen: set<Text>, rest: Text)
    requires ms != [] && ValidMembers(eng, ms, seen)
    ensures SkipBlank(MembersText(ms) + rest) != []
    ensures SkipBlank(MembersText(ms) + rest)[0] != RIGHT_BRACE
  {
    var m := ms[0];
    var more := if |ms| == 1 then [RIGHT_BRACE] + rest else [COMMA] + (MembersText(ms[1..]) + rest);
    MembersFirst(ms, rest);
    MemberGaps(m, more);
    SkipGap(m.beforeKey, [QUOTE] + (SpellingText(m.key) + ([QUOTE] + (m.afterKey + ([COLON] + (ElementText(m.value) + more))))));
  }

  /** The key of one member, up to the colon. */
  lemma ReadKey(eng: Engine, m: Member, more: Text)
    requires Blank(m.beforeKey) && ValidString(m.key) && Blank(m.afterKey)
    ensures var t := SkipBlank(MemberText(m) + more);
            && t != [] && t[0] == QUOTE
            && ReadString(t[1..]).Done? && ReadString(t[1..]).value == SpellingUnits(m.key)
            && SkipBlank(ReadString(t[1..]).rest) == [COLON] + (ElementText(m.value) + more)
  {
    var c := [COLON] + (ElementText(m.value) + more);
    var q := SpellingText(m.key) + ([QUOTE] + (m.afterKey + c));
    MemberGaps(m, more);
    SkipGap(m.beforeKey, [QUOTE] + q);
    assert ([QUOTE] + q)[1..] == q;
    ReadStringComplete(m.key, m.afterKey + c);
    SkipGap(m.afterKey, c);
  }

  lemma {:induction false} ReadMemberTrees(eng: Engine, seen: set<Text>, acc: map<Text, Json>, ms: seq<Member>,
          rest: Text)
    requires ms != [] && ValidMembers(eng, ms, seen) && acc.Keys == seen
    ensures ReadMembers(eng, MembersText(ms) + rest, acc) == Done(Object(MemberMap(eng, ms, acc)), rest)
    decreases ms
  {
    hide MemberText, MembersText, ElementText, Denotes, ValidString, ValidElement, Blank, SpellingUnits, SkipBlank, ReadValue, ReadString;
    var m := ms[0];
    var k, v := SpellingUnits(m.key), Denotes(eng, m.value.tree);
    var more := if |ms| == 1 then [RIGHT_BRACE] + rest else [COMMA] + (MembersText(ms[1..]) + rest);
    MembersFirst(ms, rest);
    ReadKey(eng, m, more);
    ReadElementTree(eng, m.value, more);
    assert ([COLON] + (ElementText(m.value) + more))[1..] == ElementText(m.value) + more;
    if |ms| == 1 {
      assert more[1..] == rest;
      assert MemberMap(eng, ms[1..], acc[k := v]) == acc[k := v];
    } else {
      assert more[1..] == MembersText(ms[1..]) + rest;
      ReadMemberTrees(eng, seen + {k}, acc[k := v], ms[1..], rest);
    }
  }

  // ---------- every accepted text is the text of a valid tree ----------

  lemma {:induction false} BlankPrefix(s: Text) returns (gap: Text)
    ensures Blank(gap) && s == gap + SkipBlank(s)
  {
    if s != [] && IsBlank(s[0]) {
      var g := BlankPrefix(s[1..]);
      gap := [s[0]] + g;
      assert s == [s[0]] + s[1..];
    } else {
      gap := [];
    }
  }

  lemma {:induction false} TreeOf(eng: Engine, s: Text) returns (gap: Text, tree: Tree)
    requires ReadValue(eng, s).Done?
    ensures Blank(gap) && Valid(eng, tree) && Denotes(eng, tree) == ReadValue(eng, s).value
    ensures s == gap + (Render(tree) + ReadValue(eng, s).rest)
    decreases |s|, 2
  {
    gap := BlankPrefix(s);
    var t := SkipBlank(s);
    if t != [] && t[0] == LEFT_BRACE {
      tree := ObjectTreeOf(eng, t[1..]);
      assert t == [LEFT_BRACE] + t[1..];
    } else if t != [] && t[0] == LEFT_BRACKET {
      tree := ArrayTreeOf(eng, t[1..]);
      assert t == [LEFT_BRACKET] + t[1..];
    } else {
      tree := ScalarTreeOf(eng, t);
    }
  }

  lemma ScalarTreeOf(eng: Engine, t: Text) returns (tree: Tree)
    requires ReadScalar(eng, t).Done?
    ensures Valid(eng, tree) && Denotes(eng, tree) == ReadScalar(eng, t).value
    ensures t == Render(tree) + ReadScalar(eng, t).rest
  {
    if t != [] && t[0] == QUOTE {
      var sp := ReadStringSound(t[1..]);
      tree := StringToken(sp);
      LiteralBetweenQuotes(t, sp, ReadScalar(eng, t).rest);
    } else if StartsWith(t, TRUE_TEXT) {
      tree := BooleanWord(true);
      assert t == t[..4] + t[4..];
    } else if StartsWith(t, FALSE_TEXT) {
      tree := BooleanWord(false);
      assert t == t[..5] + t[5..];
    } else if StartsWith(t, NULL_TEXT) {
      tree := NullWord;
      assert t == t[..4] + t[4..];
    } else {
      MatchNumberSound(t, true);
      tree := NumberToken(MatchNumber(t, true).value.0);
    }
  }

  lemma LiteralBetweenQuotes(t: Text, sp: seq<Spelled>, rest: Text)
    requires t != [] && t[0] == QUOTE && t[1..] == SpellingText(sp) + ([QUOTE] + rest)
    ensures t == Literal(sp) + rest
  {
    assert t == [QUOTE] + t[1..];
  }

  lemma {:induction false} ArrayTreeOf(eng: Engine, s: Text) returns (tree: Tree)
    requires ReadArray(eng, s).Done?
    ensures Valid(eng, tree) && Denotes(eng, tree) == ReadArray(eng, s).value
    ensures [LEFT_BRACKET] + s == Render(tree) + ReadArray(eng, s).rest
    decreases |s|, 4
  {
    hide ElementsText, Values, ReadElements, SkipBlank, Blank;
    var t := SkipBlank(s);
    if t != [] && t[0] == RIGHT_BRACKET {
      var gap := BlankPrefix(s);
      tree := EmptyArray(gap);
      assert t == [RIGHT_BRACKET] + t[1..];
      Associate(gap, [RIGHT_BRACKET], t[1..]);
      Associate([LEFT_BRACKET], gap + [RIGHT_BRACKET], t[1..]);
    } else {
      var es := ElementTreesOf(eng, s, []);
      tree := ArrayOf(es);
      assert [] + Values(eng, es) == Values(eng, es);
      Associate([LEFT_BRACKET], ElementsText(es), ReadArray(eng, s).rest);
    }
  }

  lemma {:induction false} ElementTreesOf(eng: Engine, s: Text, acc: seq<Json>) returns (es: seq<Element>)
    requires ReadElements(eng, s, acc).Done?
    ensures es != [] && forall i :: 0 <= i < |es| ==> ValidElement(eng, es[i])
    ensures ReadElements(eng, s, acc).value == Array(acc + Values(eng, es))
    ensures s == ElementsText(es) + ReadElements(eng, s, acc).rest
    decreases |s|, 3
  {
    var e, w := ElementTreeOf(eng, s);
    var v := ReadValue(eng, s).value;
    assert w == [w[0]] + w[1..];
    if w[0] == RIGHT_BRACKET {
      es := [e];
      OneElement(eng, e);
      ElementsFirst(es, w[1..]);
    } else {
      var more := ElementTreesOf(eng, w[1..], acc + [v]);
      es := [e] + more;
      MoreElements(eng, acc, e, more);
      ElementsFirst(es, ReadElements(eng, s, acc).rest);
    }
  }

  lemma OneElement(eng: Engine, e: Element)
    ensures Values(eng, [e]) == [Denotes(eng, e.tree)]
  {
  }

  lemma MoreElements(eng: Engine, acc: seq<Json>, e: Element, more: seq<Element>)
    ensures ([e] + more)[1..] == more
    ensures acc + Values(eng, [e] + more) == acc + [Denotes(eng, e.tree)] + Values(eng, more)
  {
    assert ([e] + more)[1..] == more;
  }

  /** The first element, and the text from the separator after it. */
  lemma ElementTreeOf(eng: Engine, s: Text) returns (e: Element, w: Text)
    requires ReadValue(eng, s).Done?
    ensures ValidElement(eng, e) && Denotes(eng, e.tree) == ReadValue(eng, s).value
    ensures s == ElementText(e) + w && w == SkipBlank(ReadValue(eng, s).rest)
    decreases |s|, 3, 0
  {
    var gap, tree := TreeOf(eng, s);
    var after := BlankPrefix(ReadValue(eng, s).rest);
    w := SkipBlank(ReadValue(eng, s).rest);
    e := Element(gap, tree, after);
    ElementGaps(e, w);
  }

  lemma {:induction false} ObjectTreeOf(eng: Engine, s: Text) returns (tree: Tree)
    requires ReadObject(eng, s).Done?
    ensures Valid(eng, tree) && Denotes(eng, tree) == ReadObject(eng, s).value
    ensures [LEFT_BRACE] + s == Render(tree) + ReadObject(eng, s).rest
    decreases |s|, 4
  {
    hide MembersText, ValidMembers, MemberMap, ReadMembers, SkipBlank, Blank;
    var t := SkipBlank(s);
    if t != [] && t[0] == RIGHT_BRACE {
      var gap := BlankPrefix(s);
      tree := EmptyObject(gap);
      assert t == [RIGHT_BRACE] + t[1..];
      Associate(gap, [RIGHT_BRACE], t[1..]);
      Associate([LEFT_BRACE], gap + [RIGHT_BRACE], t[1..]);
    } else {
      var ms := MemberTreesOf(eng, s, {}, map[]);
      tree := ObjectOf(ms);
      Associate([LEFT_BRACE], MembersText(ms), ReadObject(eng, s).rest);
    }
  }

  lemma {:induction false} MemberTreesOf(eng: Engine, s: Text, seen: set<Text>,
          acc: map<Text, Json>) returns (ms: seq<Member>)
    requires ReadMembers(eng, s, acc).Done? && acc.Keys == seen
    ensures ms != [] && ValidMembers(eng, ms, seen)
    ensures ReadMembers(eng, s, acc).value == Object(MemberMap(eng, ms, acc))
    ensures s == MembersText(ms) + ReadMembers(eng, s, acc).rest
    decreases |s|, 3
  {
    hide ReadMembers, MemberText, MembersText, Denotes, ValidString, ValidElement, Blank, SpellingUnits;
    var m, y := MemberTreeOf(eng, s, acc);
    var key, v := SpellingUnits(m.key), Denotes(eng, m.value.tree);
    assert y == [y[0]] + y[1..];
    if y[0] == RIGHT_BRACE {
      ms := [m];
      assert MemberMap(eng, ms[1..], acc[key := v]) == acc[key := v];
      MembersFirst(ms, y[1..]);
    } else {
      var more := MemberTreesOf(eng, y[1..], seen + {key}, acc[key := v]);
      ms := [m] + more;
      assert ms[1..] == more;
      MembersFirst(ms, ReadMembers(eng, s, acc).rest);
    }
  }

  /** The first member, and the text from the separator after it. */
  lemma MemberTreeOf(eng: Engine, s: Text, acc: map<Text, Json>) returns (m: Member, y: Text)
    requires ReadMembers(eng, s, acc).Done?
    ensures Blank(m.beforeKey) && ValidString(m.key) && Blank(m.afterKey) && ValidElement(eng, m.value)
    ensures SpellingUnits(m.key) !in acc
    ensures s == MemberText(m) + y && y != [] && |y| < |s|
    ensures var acc' := acc[SpellingUnits(m.key) := Denotes(eng, m.value.tree)];
            if y[0] == RIGHT_BRACE then ReadMembers(eng, s, acc) == Done(Object(acc'), y[1..])
            else y[0] == COMMA && ReadMembers(eng, s, acc) == ReadMembers(eng, y[1..], acc')
    decreases |s|, 2, 1
  {
    var beforeKey := BlankPrefix(s);
    var t := SkipBlank(s);
    var sp := ReadStringSound(t[1..]);
    var u := ReadString(t[1..]).rest;
    var afterKey := BlankPrefix(u);
    var w := SkipBlank(u);
    var gap, tree := TreeOf(eng, w[1..]);
    var x := ReadValue(eng, w[1..]).rest;
    var after := BlankPrefix(x);
    y := SkipBlank(x);
    m := Member(beforeKey, sp, afterKey, Element(gap, tree, after));
    MemberPieces(m, s, t, w, x, y);
  }

  lemma MemberPieces(m: Member, s: Text, t: Text, w: Text, x: Text, y: Text)
    requires s == m.beforeKey + t
    requires t != [] && t[0] == QUOTE && t[1..] == SpellingText(m.key) + ([QUOTE] + (m.afterKey + w))
    requires w != [] && w[0] == COLON && w[1..] == m.value.before + (Render(m.value.tree) + x)
    requires x == m.value.after + y
    ensures s == MemberText(m) + y
  {
    ElementGaps(m.value, y);
    assert w == [COLON] + w[1..];
    assert t == [QUOTE] + t[1..];
    MemberGaps(m, y);
  }

  // ---------- the parser accepts exactly the grammar ----------

  ghost predicate IsText(eng: Engine, source: Text, before: Text, tree: Tree, after: Text)
  {
    Blank(before) && Valid(eng, tree) && Blank(after) && source == before + (Render(tree) + after)
  }

  /** The source is a JSON text, under any blanks and spelling, that denotes `v`. */
  ghost predicate Spells(eng: Engine, source: Text, v: Json)
  {
    exists before, tree, after :: IsText(eng, source, before, tree, after) && Denotes(eng, tree) == v
  }

  lemma ParseText(eng: Engine, source: Text, before: Text, tree: Tree, after: Text)
    requires IsText(eng, source, before, tree, after)
    ensures Parse(eng, source) == Ok(Denotes(eng, tree))
  {
    if after != [] { assert IsBlank(after[0]); }
    ReadTree(eng, before, tree, after);
    SkipGap(after, []);
    assert after + [] == after;
  }

  /** The parser returns `v` exactly on the texts that spell `v`. */
  lemma ParseExact(eng: Engine, source: Text, v: Json)
    ensures Parse(eng, source) == Ok(v) <==> Spells(eng, source, v)
  {
    if Parse(eng, source) == Ok(v) {
      var before, tree := TreeOf(eng, source);
      var after := ReadValue(eng, source).rest;
      var gap := BlankPrefix(after);
      assert gap + [] == gap;
      assert IsText(eng, source, before, tree, after);
    }
    if Spells(eng, source, v) {
      var before, tree, after :| IsText(eng, source, before, tree, after) && Denotes(eng, tree) == v;
      ParseText(eng, source, before, tree, after);
    }
  }
}
