/** The canonical form of RFC 8785: of all texts that spell a value, the printer writes the one that its rules allow. */
module JsonCanonicalForm {
  import opened Outcomes
  import opened Utf16
  import opened Decimal
  import opened JsonValue
  import opened JsonStrings
  import opened JsonEscapes
  import opened JsonGrammar
  import opened JsonPrinter
  import opened JsonRoundTrip

  /** The spelling is the shortest of its text, with its hexadecimal digits in lower case. */
  ghost predicate Best(sp: seq<Spelled>)
  {
    && AllLowerCase(sp)
    && forall other :: ValidSpelling(other) && SpellingUnits(other) == SpellingUnits(sp) ==>
        |SpellingText(sp)| <= |SpellingText(other)|
  }

  /** No blanks, shortest escapes, numbers in the engine's digits, and keys in ascending order of code units. */
  ghost predicate Rules(eng: Engine, tree: Tree)
    decreases tree
  {
    match tree
    case NullWord => true
    case BooleanWord(_) => true
    case NumberToken(n) => eng.number(n.Render()).Finite? && n.Render() == eng.digits(eng.number(n.Render()).r)
    case StringToken(sp) => Best(sp)
    case EmptyArray(gap) => gap == []
    case ArrayOf(es) => forall i :: 0 <= i < |es| ==> ElementRules(eng, es[i])
    case EmptyObject(gap) => gap == []
    case ObjectOf(ms) =>
      && (forall i :: 0 <= i < |ms| ==> MemberRules(eng, ms[i]))
      && forall i, j :: 0 <= i < j < |ms| ==> Less(SpellingUnits(ms[i].key), SpellingUnits(ms[j].key))
  }

  ghost predicate ElementRules(eng: Engine, e: Element)
    decreases e
  {
    e.before == [] && e.after == [] && Rules(eng, e.tree)
  }

  ghost predicate MemberRules(eng: Engine, m: Member)
    decreases m
  {
    m.beforeKey == [] && m.afterKey == [] && Best(m.key) && ElementRules(eng, m.value)
  }

  // ---------- the form is unique ----------

  lemma BestIsCanonical(sp: seq<Spelled>)
    requires ValidSpelling(sp) && Best(sp) && WellFormed(SpellingUnits(sp))
    ensures sp == CanonicalSpelling(SpellingUnits(sp)) && Quote(SpellingUnits(sp)) == Ok(Literal(sp))
  {
    hide SpellingText, WellFormed, CanonicalSpelling;
    ShortestSpelling(SpellingUnits(sp), sp);
    CanonicalSpellingDenotes(SpellingUnits(sp));
  }

  lemma {:induction false} ItemsOf(eng: Engine, v: Json, texts: seq<Text>, n: nat)
    requires v.Array? && n <= |v.items| == |texts|
    requires forall i :: 0 <= i < n ==> Print(eng, v.items[i]) == Ok(texts[i])
    ensures PrintItems(eng, v, n) == Ok(texts[..n])
  {
    if n > 0 {
      ItemsOf(eng, v, texts, n - 1);
      assert texts[..n] == texts[..n - 1] + [texts[n - 1]];
    }
  }

  lemma {:induction false} MembersOf(eng: Engine, v: Json, keys: seq<Text>, texts: seq<Text>, n: nat)
    requires v.Object? && n <= |keys| == |texts| && forall k :: k in keys ==> k in v.members
    requires forall i :: 0 <= i < n ==> PrintMember(eng, v, keys[i]) == Ok(texts[i])
    ensures PrintMembers(eng, v, keys, n) == Ok(texts[..n])
  {
    hide PrintMember;
    if n > 0 {
      MembersOf(eng, v, keys, texts, n - 1);
      assert texts[..n] == texts[..n - 1] + [texts[n - 1]];
    }
  }

  function Renders(es: seq<Element>): (texts: seq<Text>)
    ensures |texts| == |es| && forall i :: 0 <= i < |es| ==> texts[i] == Render(es[i].tree)
  {
    seq(|es|, i requires 0 <= i < |es| => Render(es[i].tree))
  }

  lemma {:induction false} ElementsJoin(eng: Engine, es: seq<Element>)
    requires es != [] && forall i :: 0 <= i < |es| ==> es[i].before == [] && es[i].after == []
    ensures ElementsText(es) == Join(Renders(es)) + [RIGHT_BRACKET]
    decreases |es|
  {
    hide Render;
    assert ElementText(es[0]) == Render(es[0].tree);
    if |es| > 1 {
      ElementsJoin(eng, es[1..]);
      assert Renders(es)[1..] == Renders(es[1..]);
      JoinClose(Render(es[0].tree), Join(Renders(es[1..])), RIGHT_BRACKET);
    }
  }

  /** `"key":value` */
  function Field(m: Member): Text { Literal(m.key) + ([COLON] + Render(m.value.tree)) }

  function Fields(ms: seq<Member>): (texts: seq<Text>)
    ensures |texts| == |ms| && forall i :: 0 <= i < |ms| ==> texts[i] == Field(ms[i])
  {
    seq(|ms|, i requires 0 <= i < |ms| => Field(ms[i]))
  }

  lemma FieldText(m: Member)
    requires m.beforeKey == [] && m.afterKey == [] && m.value.before == [] && m.value.after == []
    ensures MemberText(m) == Field(m)
  {
    hide Render, Literal;
    assert ElementText(m.value) == Render(m.value.tree);
  }

  lemma {:induction false} MembersJoin(eng: Engine, ms: seq<Member>)
    requires ms != [] && forall i :: 0 <= i < |ms| ==> MemberRules(eng, ms[i])
    ensures MembersText(ms) == Join(Fields(ms)) + [RIGHT_BRACE]
    decreases |ms|
  {
    hide Field, Rules, Best, MemberText;
    assert ElementRules(eng, ms[0].value);
    FieldText(ms[0]);
    if |ms| > 1 {
      MembersJoin(eng, ms[1..]);
      assert Fields(ms)[1..] == Fields(ms[1..]);
      JoinClose(Field(ms[0]), Join(Fields(ms[1..])), RIGHT_BRACE);
    }
  }

  lemma {:induction false} ValueAt(eng: Engine, es: seq<Element>, i: nat)
    requires i < |es|
    ensures Values(eng, es)[i] == Denotes(eng, es[i].tree)
  {
    hide Denotes;
    if i > 0 { ValueAt(eng, es[1..], i - 1); }
  }

  function KeysOf(ms: seq<Member>): (keys: seq<Text>)
    ensures |keys| == |ms| && forall i :: 0 <= i < |ms| ==> keys[i] == SpellingUnits(ms[i].key)
  {
    seq(|ms|, i requires 0 <= i < |ms| => SpellingUnits(ms[i].key))
  }

  /** An object under the rules has its keys in the printer's order, and each of its values under its key. */
  lemma KeysInOrder(eng: Engine, ms: seq<Member>)
    requires ValidMembers(eng, ms, {}) && Rules(eng, ObjectOf(ms))
    ensures var members := MemberMap(eng, ms, map[]);
            && KeysOf(ms) == SortedKeys(members.Keys)
            && forall i :: 0 <= i < |ms| ==>
                 SpellingUnits(ms[i].key) in members && members[SpellingUnits(ms[i].key)] == Denotes(eng,
                     ms[i].value.tree)
  {
    hide MemberRules, MemberMap, ValidMembers, Denotes, SortedKeys;
    var members := MemberMap(eng, ms, map[]);
    forall i | 0 <= i < |ms|
      ensures SpellingUnits(ms[i].key) in members && members[SpellingUnits(ms[i].key)] == Denotes(eng, ms[i].value.tree)
    {
      MemberMapHolds(eng, ms, {}, map[], SpellingUnits(ms[i].key), Denotes(eng, ms[i].value.tree));
      assert Holds(eng, ms, SpellingUnits(ms[i].key), Denotes(eng, ms[i].value.tree));
    }
    forall k ensures k in KeysOf(ms) <==> k in members {
      if k in members {
        MemberMapHolds(eng, ms, {}, map[], k, members[k]);
        var i :| 0 <= i < |ms| && SpellingUnits(ms[i].key) == k;
        assert KeysOf(ms)[i] == k;
      }
    }
    SortedKeysSorts(members.Keys);
    assert Ascending(KeysOf(ms));
    AscendingUnique(KeysOf(ms), SortedKeys(members.Keys));
  }

  lemma ArrayPrinted(eng: Engine, es: seq<Element>)
    requires Valid(eng, ArrayOf(es)) && Rules(eng, ArrayOf(es))
    requires forall i :: 0 <= i < |es| ==> Print(eng, Denotes(eng, es[i].tree)) == Ok(Render(es[i].tree))
    ensures Print(eng, Denotes(eng, ArrayOf(es))) == Ok(Render(ArrayOf(es)))
  {
    hide ElementsText, Join, PrintItems, Values;
    var v := Denotes(eng, ArrayOf(es));
    assert forall i :: 0 <= i < |es| ==> ElementRules(eng, es[i]);
    forall i | 0 <= i < |es| ensures Print(eng, v.items[i]) == Ok(Renders(es)[i]) { ValueAt(eng, es, i); }
    ItemsOf(eng, v, Renders(es), |es|);
    assert Renders(es)[..|es|] == Renders(es);
    ElementsJoin(eng, es);
  }

  lemma MemberPrinted(eng: Engine, v: Json, m: Member)
    requires v.Object? && ValidString(m.key) && Best(m.key)
    requires SpellingUnits(m.key) in v.members && Print(eng, v.members[SpellingUnits(m.key)]) == Ok(Render(m.value.tree))
    ensures PrintMember(eng, v, SpellingUnits(m.key)) == Ok(Field(m))
  {
    hide Print, Render, Best, Quote, WellFormed;
    BestIsCanonical(m.key);
  }

  lemma ObjectPrinted(eng: Engine, ms: seq<Member>)
    requires Valid(eng, ObjectOf(ms)) && Rules(eng, ObjectOf(ms))
    requires forall i :: 0 <= i < |ms| ==> Print(eng, Denotes(eng, ms[i].value.tree)) == Ok(Render(ms[i].value.tree))
    ensures Print(eng, Denotes(eng, ObjectOf(ms))) == Ok(Render(ObjectOf(ms)))
  {
    var v := Denotes(eng, ObjectOf(ms));
    KeysInOrder(eng, ms);
    ValidMembersEach(eng, ms, {});
    assert Render(ObjectOf(ms)) == [LEFT_BRACE] + MembersText(ms);
    hide MembersText, Join, PrintMembers, PrintMember, MemberMap, ValidMembers, SortedKeys, Field, Best, ValidString,
        Print,
         Render;
    forall i | 0 <= i < |ms| ensures PrintMember(eng, v, KeysOf(ms)[i]) == Ok(Fields(ms)[i]) {
      assert MemberRules(eng, ms[i]);
      MemberPrinted(eng, v, ms[i]);
    }
    SortedKeysSorts(v.members.Keys);
    MembersOf(eng, v, KeysOf(ms), Fields(ms), |ms|);
    assert Fields(ms)[..|ms|] == Fields(ms);
    MembersJoin(eng, ms);
    PrintObjectText(eng, v, Fields(ms));
  }

  lemma EmptyPrinted(eng: Engine, tree: Tree)
    requires tree == EmptyArray([]) || tree == EmptyObject([])
    ensures Print(eng, Denotes(eng, tree)) == Ok(Render(tree))
  {
    if tree == EmptyObject([]) {
      SortedKeysSorts({});
      assert Print(eng, Object(map[])) == Ok([LEFT_BRACE] + (Join([]) + [RIGHT_BRACE]));
    } else {
      assert Print(eng, Array([])) == Ok([LEFT_BRACKET] + (Join([]) + [RIGHT_BRACKET]));
    }
  }

  lemma TokenPrinted(eng: Engine, tree: Tree)
    requires Faithful(eng) && Valid(eng, tree) && Rules(eng, tree) && Printable(eng, Denotes(eng, tree))
    requires tree.NullWord? || tree.BooleanWord? || tree.NumberToken? || tree.StringToken?
    ensures Print(eng, Denotes(eng, tree)) == Ok(Render(tree))
  {
    hide Best, ValidSpelling, Literal, Quote;
    if tree.StringToken? { BestIsCanonical(tree.spelling); }
  }

  /** Any text that spells a value by the rules is the printed text of that value. */
  lemma {:induction false} RulesPrint(eng: Engine, tree: Tree)
    requires Faithful(eng) && Valid(eng, tree) && Rules(eng, tree)
    ensures Print(eng, Denotes(eng, tree)) == Ok(Render(tree))
    decreases tree
  {
    hide Faithful, Best, ValidMembers, Print, Render, Denotes;
    match tree {
      case ArrayOf(es) =>
        forall i | 0 <= i < |es| ensures Print(eng, Denotes(eng, es[i].tree)) == Ok(Render(es[i].tree)) {
          assert ValidElement(eng, es[i]) && ElementRules(eng, es[i]);
          RulesPrint(eng, es[i].tree);
        }
        ArrayPrinted(eng, es);
      case ObjectOf(ms) =>
        ValidMembersEach(eng, ms, {});
        forall i | 0 <= i < |ms| ensures Print(eng, Denotes(eng, ms[i].value.tree)) == Ok(Render(ms[i].value.tree)) {
          assert ValidElement(eng, ms[i].value) && MemberRules(eng, ms[i]) && ElementRules(eng, ms[i].value);
          RulesPrint(eng, ms[i].value.tree);
        }
        ObjectPrinted(eng, ms);
      case EmptyArray(_) => EmptyPrinted(eng, tree);
      case EmptyObject(_) => EmptyPrinted(eng, tree);
      case _ =>
        TreeIsPrintable(eng, tree);
        TokenPrinted(eng, tree);
    }
  }

  // ---------- the printed text has the form ----------

  lemma CanonicalIsBest(t: Text)
    ensures Best(CanonicalSpelling(t))
  {
    hide SpellingText, CanonicalSpelling;
    PrintedInLowerCase(t);
    CanonicalSpellingDenotes(t);
    forall other | ValidSpelling(other) && SpellingUnits(other) == SpellingUnits(CanonicalSpelling(t))
      ensures |SpellingText(CanonicalSpelling(t))| <= |SpellingText(other)|
    {
      ShortestSpelling(t, other);
    }
  }

  lemma {:induction false} ElementsFollow(eng: Engine, v: Json, from: nat)
    requires v.Array? && from <= |v.items|
    requires forall i :: 0 <= i < |v.items| ==> Rules(eng, CanonicalTree(eng, v.items[i]))
    ensures forall i :: 0 <= i < |v.items| - from ==> ElementRules(eng, CanonicalElements(eng, v, from)[i])
    decreases |v.items| - from
  {
    hide Rules, CanonicalTree;
    if from < |v.items| { ElementsFollow(eng, v, from + 1); }
  }

  lemma {:induction false} MembersFollow(eng: Engine, v: Json, keys: seq<Text>)
    requires v.Object? && forall k :: k in keys ==> k in v.members && Rules(eng, CanonicalTree(eng, v.members[k]))
    ensures var ms := CanonicalMembers(eng, v, keys);
            forall i :: 0 <= i < |keys| ==> MemberRules(eng, ms[i]) && SpellingUnits(ms[i].key) == keys[i]
    decreases |keys|
  {
    hide Rules, CanonicalTree, Best, CanonicalSpelling;
    if keys != [] {
      assert keys[0] in keys;
      CanonicalIsBest(keys[0]);
      CanonicalSpellingDenotes(keys[0]);
      MembersFollow(eng, v, keys[1..]);
    }
  }

  lemma {:induction false} CanonicalFollowsRules(eng: Engine, v: Json)
    requires Faithful(eng) && OfEngine(eng, v) && Printable(eng, v)
    ensures Rules(eng, CanonicalTree(eng, v))
    decreases v
  {
    match v {
      case Null =>
      case Boolean(_) =>
      case Number(d) => NumberFollows(eng, d);
      case String(t) => CanonicalIsBest(t);
      case Array(items) =>
        forall i | 0 <= i < |items| ensures Rules(eng, CanonicalTree(eng, items[i])) { CanonicalFollowsRules(eng,
            items[i]); }
        ElementsFollow(eng, v, 0);
      case Object(members) =>
        forall k | k in members ensures Rules(eng, CanonicalTree(eng, members[k])) { CanonicalFollowsRules(eng,
            members[k]); }
        SortedKeysSorts(members.Keys);
        MembersFollow(eng, v, SortedKeys(members.Keys));
    }
  }

  lemma NumberFollows(eng: Engine, d: Double)
    requires Faithful(eng) && SerializeNumber(eng, d).Ok? && eng.isDouble(d.r)
    ensures Rules(eng, CanonicalTree(eng, Number(d)))
  {
    NumberCanonical(eng, d);
    OwnDigitsAccepted(eng, d);
  }

  /**
   The printed text of a value is the text of a spelling of it that follows the rules, and the only such text: the
   canonical form is exactly what the rules say.
   */
  lemma CanonicalFormExactly(eng: Engine, v: Json, t: Text)
    requires Faithful(eng) && OfEngine(eng, v)
    ensures Print(eng, v) == Ok(t) <==>
            exists tree :: Valid(eng, tree) && Rules(eng, tree) && Denotes(eng, tree) == v && Render(tree) == t
  {
    hide Faithful, OfEngine, Print, Valid, Rules, Denotes, Render, CanonicalTree;
    PrintAcceptsPrintable(eng, v);
    if Print(eng, v) == Ok(t) {
      PrintIsCanonical(eng, v);
      CanonicalFollowsRules(eng, v);
      assert Canonical(eng, v);
    }
    if tree :| Valid(eng, tree) && Rules(eng, tree) && Denotes(eng, tree) == v && Render(tree) == t { RulesPrint(eng, tree); }
  }
}
