/**
 Concrete JSON texts as trees that record every free choice a writer has: blanks, escape spelling,
 member order and number spelling. `Render` gives the text and `Denotes` the value, without parsing.
 */
module JsonGrammar {
  import opened Outcomes
  import opened Utf16
  import opened Decimal
  import opened JsonValue
  import opened JsonStrings

  const LEFT_BRACKET: Unit := 0x5B
  const RIGHT_BRACKET: Unit := 0x5D
  const LEFT_BRACE: Unit := 0x7B
  const RIGHT_BRACE: Unit := 0x7D
  const COMMA: Unit := 0x2C
  const COLON: Unit := 0x3A
  const TRUE_TEXT: Text := [0x74, 0x72, 0x75, 0x65]
  const FALSE_TEXT: Text := [0x66, 0x61, 0x6C, 0x73, 0x65]
  const NULL_TEXT: Text := [0x6E, 0x75, 0x6C, 0x6C]

  predicate IsBlank(u: Unit) { u == 0x09 || u == 0x0A || u == 0x0D || u == 0x20 }

  predicate Blank(t: Text) { forall i :: 0 <= i < |t| ==> IsBlank(t[i]) }

  datatype Tree =
    | NullWord
    | BooleanWord(truth: bool)
    | NumberToken(number: NumberSpelling)
    | StringToken(spelling: seq<Spelled>)
    | EmptyArray(gap: Text)
    | ArrayOf(elements: seq<Element>)
    | EmptyObject(gap: Text)
    | ObjectOf(members: seq<Member>)

  datatype Element = Element(before: Text, tree: Tree, after: Text)

  datatype Member = Member(beforeKey: Text, key: seq<Spelled>, afterKey: Text, value: Element)

  function Render(tree: Tree): Text
    decreases tree
  {
    match tree
    case NullWord => NULL_TEXT
    case BooleanWord(b) => if b then TRUE_TEXT else FALSE_TEXT
    case NumberToken(n) => n.Render()
    case StringToken(sp) => Literal(sp)
    case EmptyArray(gap) => [LEFT_BRACKET] + (gap + [RIGHT_BRACKET])
    case ArrayOf(es) => [LEFT_BRACKET] + ElementsText(es)
    case EmptyObject(gap) => [LEFT_BRACE] + (gap + [RIGHT_BRACE])
    case ObjectOf(ms) => [LEFT_BRACE] + MembersText(ms)
  }

  function ElementText(e: Element): Text
    decreases e
  {
    e.before + (Render(e.tree) + e.after)
  }

  /** The elements with their separators and the closing bracket. */
  function ElementsText(es: seq<Element>): Text
    decreases es
  {
    if es == [] then []
    else if |es| == 1 then ElementText(es[0]) + [RIGHT_BRACKET]
    else ElementText(es[0]) + ([COMMA] + ElementsText(es[1..]))
  }

  function MemberText(m: Member): Text
    decreases m
  {
    m.beforeKey + (Literal(m.key) + (m.afterKey + ([COLON] + ElementText(m.value))))
  }

  function MembersText(ms: seq<Member>): Text
    decreases ms
  {
    if ms == [] then []
    else if |ms| == 1 then MemberText(ms[0]) + [RIGHT_BRACE]
    else MemberText(ms[0]) + ([COMMA] + MembersText(ms[1..]))
  }

  predicate ValidString(sp: seq<Spelled>) { ValidSpelling(sp) && WellFormed(SpellingUnits(sp)) }

  predicate Valid(eng: Engine, tree: Tree)
    decreases tree
  {
    match tree
    case NullWord => true
    case BooleanWord(_) => true
    case NumberToken(n) => n.Strict() && AcceptNumber(eng, n.Render()).Ok?
    case StringToken(sp) => ValidString(sp)
    case EmptyArray(gap) => Blank(gap)
    case ArrayOf(es) => es != [] && forall i :: 0 <= i < |es| ==> ValidElement(eng, es[i])
    case EmptyObject(gap) => Blank(gap)
    case ObjectOf(ms) => ms != [] && ValidMembers(eng, ms, {})
  }

  predicate ValidElement(eng: Engine, e: Element)
    decreases e
  {
    Blank(e.before) && Valid(eng, e.tree) && Blank(e.after)
  }

  /** Well-spelled members whose keys are new and pairwise distinct. */
  predicate ValidMembers(eng: Engine, ms: seq<Member>, seen: set<Text>)
    decreases ms
  {
    ms != [] ==>
      && Blank(ms[0].beforeKey) && ValidString(ms[0].key) && Blank(ms[0].afterKey)
      && SpellingUnits(ms[0].key) !in seen
      && ValidElement(eng, ms[0].value)
      && ValidMembers(eng, ms[1..], seen + {SpellingUnits(ms[0].key)})
  }

  function Denotes(eng: Engine, tree: Tree): Json
    decreases tree
  {
    match tree
    case NullWord => Null
    case BooleanWord(b) => Boolean(b)
    case NumberToken(n) => Number(eng.number(n.Render()))
    case StringToken(sp) => String(SpellingUnits(sp))
    case EmptyArray(_) => Array([])
    case ArrayOf(es) => Array(Values(eng, es))
    case EmptyObject(_) => Object(map[])
    case ObjectOf(ms) => Object(MemberMap(eng, ms, map[]))
  }

  function Values(eng: Engine, es: seq<Element>): (vs: seq<Json>)
    ensures |vs| == |es|
    decreases es
  {
    if es == [] then [] else [Denotes(eng, es[0].tree)] + Values(eng, es[1..])
  }

  function MemberMap(eng: Engine, ms: seq<Member>, acc: map<Text, Json>): map<Text, Json>
    decreases ms
  {
    if ms == [] then acc
    else MemberMap(eng, ms[1..], acc[SpellingUnits(ms[0].key) := Denotes(eng, ms[0].value.tree)])
  }

  // ---------- the order of members does not matter ----------

  lemma {:induction false} ValidMembersEach(eng: Engine, ms: seq<Member>, seen: set<Text>)
    requires ValidMembers(eng, ms, seen)
    ensures forall i :: 0 <= i < |ms| ==> ValidString(ms[i].key) && ValidElement(eng, ms[i].value)
    ensures forall i :: 0 <= i < |ms| ==> SpellingUnits(ms[i].key) !in seen
    ensures forall i, j :: 0 <= i < j < |ms| ==> SpellingUnits(ms[i].key) != SpellingUnits(ms[j].key)
  {
    if ms != [] {
      ValidMembersEach(eng, ms[1..], seen + {SpellingUnits(ms[0].key)});
      forall i | 0 <= i < |ms|
        ensures ValidString(ms[i].key) && ValidElement(eng, ms[i].value)
        ensures SpellingUnits(ms[i].key) !in seen
        ensures i > 0 ==> SpellingUnits(ms[i].key) != SpellingUnits(ms[0].key)
      {
        if i > 0 { assert ms[i] == ms[1..][i - 1]; }
      }
      forall i, j | 0 <= i < j < |ms| ensures SpellingUnits(ms[i].key) != SpellingUnits(ms[j].key) {
        if i > 0 { assert ms[i] == ms[1..][i - 1] && ms[j] == ms[1..][j - 1]; }
      }
    }
  }

  /** Some member has the key `k` and the value `v`. */
  ghost predicate Holds(eng: Engine, ms: seq<Member>, k: Text, v: Json)
  {
    exists i :: 0 <= i < |ms| && SpellingUnits(ms[i].key) == k && Denotes(eng, ms[i].value.tree) == v
  }

  ghost predicate HasKey(ms: seq<Member>, k: Text)
  {
    exists i :: 0 <= i < |ms| && SpellingUnits(ms[i].key) == k
  }

  lemma HoldsTail(eng: Engine, ms: seq<Member>, k: Text, v: Json)
    requires ms != []
    ensures Holds(eng, ms, k, v) <==>
            (SpellingUnits(ms[0].key) == k && Denotes(eng, ms[0].value.tree) == v) || Holds(eng, ms[1..], k, v)
    ensures HasKey(ms, k) <==> SpellingUnits(ms[0].key) == k || HasKey(ms[1..], k)
  {
    assert forall i :: 0 <= i < |ms[1..]| ==> ms[1..][i] == ms[i + 1];
    assert forall i :: 0 < i < |ms| ==> ms[i] == ms[1..][i - 1];
  }

  /** The object of a member list maps each spelled key to the value spelled with it, and no other key. */
  lemma {:induction false} MemberMapHolds(eng: Engine, ms: seq<Member>, seen: set<Text>, acc: map<Text, Json>,
          k: Text, v: Json)
    requires ValidMembers(eng, ms, seen)
    ensures (k in MemberMap(eng, ms, acc) && MemberMap(eng, ms, acc)[k] == v)
            <==> Holds(eng, ms, k, v) || (!HasKey(ms, k) && k in acc && acc[k] == v)
  {
    if ms != [] {
      var k0, v0 := SpellingUnits(ms[0].key), Denotes(eng, ms[0].value.tree);
      MemberMapHolds(eng, ms[1..], seen + {k0}, acc[k0 := v0], k, v);
      HoldsTail(eng, ms, k, v);
      ValidMembersEach(eng, ms[1..], seen + {k0});
    }
  }

  /** Two member lists with the same members, in any order, denote the same object. */
  lemma MemberOrderIrrelevant(eng: Engine, a: seq<Member>, b: seq<Member>)
    requires ValidMembers(eng, a, {}) && ValidMembers(eng, b, {})
    requires forall m :: m in a <==> m in b
    ensures MemberMap(eng, a, map[]) == MemberMap(eng, b, map[])
  {
    var ma, mb := MemberMap(eng, a, map[]), MemberMap(eng, b, map[]);
    forall k | k in ma ensures k in mb && mb[k] == ma[k] { SameHolds(eng, a, b, k, ma[k]); }
    forall k | k in mb ensures k in ma && ma[k] == mb[k] { SameHolds(eng, b, a, k, mb[k]); }
    assert ma.Keys == mb.Keys;
  }

  lemma SameHolds(eng: Engine, a: seq<Member>, b: seq<Member>, k: Text, v: Json)
    requires ValidMembers(eng, a, {}) && ValidMembers(eng, b, {})
    requires forall m :: m in a ==> m in b
    requires k in MemberMap(eng, a, map[]) && MemberMap(eng, a, map[])[k] == v
    ensures k in MemberMap(eng, b, map[]) && MemberMap(eng, b, map[])[k] == v
  {
    MemberMapHolds(eng, a, {}, map[], k, v);
    MemberMapHolds(eng, b, {}, map[], k, v);
    var i :| 0 <= i < |a| && SpellingUnits(a[i].key) == k && Denotes(eng, a[i].value.tree) == v;
    assert a[i] in b;
    var j :| 0 <= j < |b| && b[j] == a[i];
  }
}
