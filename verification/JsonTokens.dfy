/** The characters of RFC 8259: what the printer writes for each of them, and the error that the parser gives each fault. */
module JsonTokens {
  import opened Outcomes
  import opened Utf16
  import opened Decimal
  import opened JsonValue
  import opened JsonStrings
  import opened JsonGrammar
  import opened JsonReader
  import opened JsonPrinter
  import opened JsonCanonicalForm

  // ---------- characters ----------

  /** The words, and the printed forms of small and composed values. */
  lemma PrintedForms(eng: Engine, x: Json, y: Json, key: Text)
    requires Print(eng, x).Ok? && Print(eng, y).Ok? && WellFormed(key)
    ensures Print(eng, Null) == Ok(Ascii("null"))
    ensures Print(eng, Boolean(true)) == Ok(Ascii("true")) && Print(eng, Boolean(false)) == Ok(Ascii("false"))
    ensures Print(eng, Array([])) == Ok(Ascii("[]")) && Print(eng, Object(map[])) == Ok(Ascii("{}"))
    ensures Print(eng, Array([x, y])) == Ok(Ascii("[") + (Print(eng, x).value + (Ascii(",") + Print(eng, y).value)) + Ascii("]"))
    ensures Print(eng, Object(map[key := x])) == Ok(Ascii("{") + (Quote(key).value + Ascii(":") + Print(eng, x).value) + Ascii("}"))
  {
    WordForms(eng);
    hide Print, Quote, WellFormed, Ascii;
    EmptyForms(eng);
    PairForm(eng, x, y);
    MemberForm(eng, key, x);
  }

  lemma WordForms(eng: Engine)
    ensures Print(eng, Null) == Ok(Ascii("null"))
    ensures Print(eng, Boolean(true)) == Ok(Ascii("true")) && Print(eng, Boolean(false)) == Ok(Ascii("false"))
  {
    assert NULL_TEXT == Ascii("null") && TRUE_TEXT == Ascii("true") && FALSE_TEXT == Ascii("false");
  }

  lemma EmptyForms(eng: Engine)
    ensures Print(eng, Array([])) == Ok(Ascii("[]")) && Print(eng, Object(map[])) == Ok(Ascii("{}"))
  {
    assert PrintItems(eng, Array([]), 0) == Ok([]);
    var none: map<Text, Json> := map[];
    assert none.Keys == {};
    SortedKeysSorts({});
    assert PrintMembers(eng, Object(none), [], 0) == Ok([]);
    assert [LEFT_BRACKET] + (Join([]) + [RIGHT_BRACKET]) == Ascii("[]");
    assert [LEFT_BRACE] + (Join([]) + [RIGHT_BRACE]) == Ascii("{}");
  }

  lemma PairForm(eng: Engine, x: Json, y: Json)
    requires Print(eng, x).Ok? && Print(eng, y).Ok?
    ensures Print(eng, Array([x, y])) == Ok(Ascii("[") + (Print(eng, x).value + (Ascii(",") + Print(eng, y).value)) + Ascii("]"))
  {
    hide Print;
    var v, a, b := Array([x, y]), Print(eng, x).value, Print(eng, y).value;
    ItemsOf(eng, v, [a, b], 2);
    assert [a, b][..2] == [a, b];
    PrintArray(eng, v, [a, b]);
    assert Join([a, b][1..]) == b;
    assert Ascii("[") == [LEFT_BRACKET] && Ascii(",") == [COMMA] && Ascii("]") == [RIGHT_BRACKET];
    assert Join([a, b]) == a + ([COMMA] + b);
  }

  lemma PrintArray(eng: Engine, v: Json, texts: seq<Text>)
    requires v.Array? && PrintItems(eng, v, |v.items|) == Ok(texts)
    ensures Print(eng, v) == Ok([LEFT_BRACKET] + Join(texts) + [RIGHT_BRACKET])
  {
    hide PrintItems, Join;
    assert [LEFT_BRACKET] + (Join(texts) + [RIGHT_BRACKET]) == [LEFT_BRACKET] + Join(texts) + [RIGHT_BRACKET];
  }

  lemma MemberForm(eng: Engine, key: Text, x: Json)
    requires Print(eng, x).Ok? && WellFormed(key)
    ensures Print(eng, Object(map[key := x])) == Ok(Ascii("{") + (Quote(key).value + Ascii(":") + Print(eng, x).value) + Ascii("}"))
  {
    var v, a, q := Object(map[key := x]), Print(eng, x).value, Quote(key).value;
    OneKey(key);
    OneMember(eng, v, key);
    hide Quote, Print, PrintMember, PrintMembers, SortedKeys, WellFormed;
    var field := q + ([COLON] + a);
    assert v.members.Keys == {key};
    MembersOf(eng, v, [key], [field], 1);
    assert [field][..1] == [field];
    PrintObjectText(eng, v, [field]);
    Braced(q, a);
  }

  lemma OneKey(key: Text)
    ensures SortedKeys({key}) == [key]
  {
    SortedKeysSorts({key});
  }

  lemma OneMember(eng: Engine, v: Json, key: Text)
    requires v.Object? && key in v.members && Print(eng, v.members[key]).Ok? && WellFormed(key)
    ensures PrintMember(eng, v, key) == Ok(Quote(key).value + ([COLON] + Print(eng, v.members[key]).value))
  {
    hide Print, WellFormed;
  }

  lemma Braced(q: Text, a: Text)
    ensures [LEFT_BRACE] + (Join([q + ([COLON] + a)]) + [RIGHT_BRACE]) == Ascii("{") + (q + Ascii(":") + a) + Ascii("}")
  {
    assert Ascii("{") == [LEFT_BRACE] && Ascii(":") == [COLON] && Ascii("}") == [RIGHT_BRACE];
  }

  /** One code unit inside a printed string. */
  function Escaped(u: Unit): Text
  {
    if u == 0x22 then Ascii("\\\"")
    else if u == 0x5C then Ascii("\\\\")
    else if u == 0x08 then Ascii("\\b")
    else if u == 0x09 then Ascii("\\t")
    else if u == 0x0A then Ascii("\\n")
    else if u == 0x0C then Ascii("\\f")
    else if u == 0x0D then Ascii("\\r")
    else if u < 0x20 then Ascii("\\u00") + [HEX_DIGITS[u / 16] as int % 0x1_0000, HEX_DIGITS[u % 16] as int % 0x1_0000]
    else [u]
  }

  const HEX_DIGITS: string := "0123456789abcdef"

  lemma EscapedSpelled(u: Unit)
    ensures CanonicalSpelled(u).Render() == Escaped(u)
  {
    if u < 0x20 && !CanonicalSpelled(u).Short? {
      assert u / 4096 == 0 && u / 256 % 16 == 0 && u / 16 % 16 == u / 16;
      DigitChar(u / 16);
      DigitChar(u % 16);
    }
  }

  lemma DigitChar(n: nat)
    requires n < 16
    ensures HexDigit(n) == HEX_DIGITS[n] as int % 0x1_0000
  {
  }

  function AllEscaped(t: Text): Text { if t == [] then [] else Escaped(t[0]) + AllEscaped(t[1..]) }

  /** A string is printed between quotes, each code unit by itself or by its escape. */
  lemma QuoteWrites(t: Text)
    requires WellFormed(t)
    ensures Quote(t) == Ok(Ascii("\"") + AllEscaped(t) + Ascii("\""))
  {
    SpellingEscapes(t);
    assert Ascii("\"") == [QUOTE];
  }

  lemma {:induction false} SpellingEscapes(t: Text)
    ensures SpellingText(CanonicalSpelling(t)) == AllEscaped(t)
  {
    hide Spelled.Render, CanonicalSpelled, Escaped;
    if t != [] {
      EscapedSpelled(t[0]);
      SpellingEscapes(t[1..]);
      assert CanonicalSpelling(t)[1..] == CanonicalSpelling(t[1..]);
    }
  }

  /** What an escape of two characters is read as, if it is one. */
  lemma EscapesRead(letter: Unit)
    ensures
      Decode([0x5C, letter]) ==
      if letter == '"' as int || letter == '\\' as int || letter == '/' as int then Some([letter])
      else if letter == 'b' as int then Some([0x08])
      else if letter == 'f' as int then Some([0x0C])
      else if letter == 'n' as int then Some(Ascii("\n"))
      else if letter == 'r' as int then Some(Ascii("\r"))
      else if letter == 't' as int then Some(Ascii("\t"))
      else None
  {
    var s: Text := [0x5C, letter];
    assert s[2..] == [];
    assert Ascii("\n") == [0x0A] && Ascii("\r") == [0x0D] && Ascii("\t") == [0x09];
    if ShortValue(letter).Some? {
      var u := ShortValue(letter).value;
      assert Decode(s) == Some([u] + []) && [u] + [] == [u];
    }
  }

  /** Hexadecimal digits are read in both cases, each by its place. */
  lemma HexRead(u: Unit, n: nat)
    requires n < 16
    ensures HexValue(u) == Some(n) <==> u == HEX_DIGITS[n] as int || u == "0123456789ABCDEF"[n] as int
  {
  }

  /** The four blanks, and no other character, may stand before any text without changing what is read. */
  lemma BlanksExactly(eng: Engine, u: Unit)
    ensures u in Ascii(" \t\n\r") <==> forall t :: Parse(eng, [u] + t) == Parse(eng, t)
  {
    var four := Ascii(" \t\n\r");
    assert four == [0x20, 0x09, 0x0A, 0x0D];
    if u in four {
      forall t ensures Parse(eng, [u] + t) == Parse(eng, t) { BlankFirst(eng, u, t); }
    } else {
      var t := NULL_TEXT;
      var gap: Text := [];
      assert Valid(eng, NullWord) && Denotes(eng, NullWord) == Null && Render(NullWord) == t;
      assert t == gap + (t + gap);
      ParseText(eng, t, gap, NullWord, gap);
      NotBlankFirst(eng, u);
    }
  }

  lemma BlankFirst(eng: Engine, u: Unit, t: Text)
    requires IsBlank(u)
    ensures Parse(eng, [u] + t) == Parse(eng, t)
  {
    hide ReadScalar, ReadObject, ReadArray;
    assert ([u] + t)[1..] == t;
    SkipGap([], SkipBlank(t));
    assert SkipBlank([u] + t) == SkipBlank(t);
  }

  lemma NotBlankFirst(eng: Engine, u: Unit)
    requires !IsBlank(u)
    ensures Parse(eng, [u] + NULL_TEXT) != Ok(Null)
  {
    hide Parse, Blank, IsBlank;
    var source := [u] + NULL_TEXT;
    ParseExact(eng, source, Null);
    forall before, tree, after | IsText(eng, source, before, tree, after) ensures Denotes(eng, tree) != Null {
      UnitsBefore(u, before, after);
    }
  }

  lemma UnitsBefore(u: Unit, before: Text, after: Text)
    ensures [u] + NULL_TEXT == before + (NULL_TEXT + after) ==> before != [] && before[0] == u
    ensures Blank(before) && before != [] ==> IsBlank(before[0])
  {
    var s, t := [u] + NULL_TEXT, before + (NULL_TEXT + after);
    assert s[0] == u && s[1] == 0x6E;
    assert before != [] ==> t[0] == before[0];
    assert before == [] ==> t[1] == 0x75;
  }

  // ---------- faults ----------

  /** A string literal whose surrogates are not paired is refused as invalid Unicode. */
  lemma UnpairedIsNamed(eng: Engine, gap: Text, sp: seq<Spelled>, after: Text)
    requires Blank(gap) && ValidSpelling(sp) && !WellFormed(SpellingUnits(sp))
    ensures Parse(eng, gap + (Literal(sp) + after)) == Err(InvalidUnicode)
  {
    hide WellFormed, SpellingText, ValidSpelling, SpellingUnits, Blank;
    var t := Literal(sp) + after;
    var s := SpellingText(sp) + ([QUOTE] + after);
    assert t[0] == QUOTE && t[1..] == s;
    SkipGap(gap, t);
    SpellingIsRead(sp, after);
    assert s[..|SpellingText(sp)|] == SpellingText(sp);
  }

  /** A number token alone is read by its value or refused as no number of I-JSON, and nothing else. */
  lemma NumberIsNamed(eng: Engine, gap: Text, n: NumberSpelling)
    requires Blank(gap) && n.Strict()
    ensures Parse(eng, gap + n.Render()) == AcceptNumber(eng, n.Render())
    ensures AcceptNumber(eng, n.Render()).Err? ==> AcceptNumber(eng, n.Render()) == Err(NonIJsonNumber)
  {
    hide AcceptNumber, Blank, MatchNumber;
    var t := n.Render();
    assert t != [] && (t[0] == MINUS || IsDigit(t[0]));
    SkipGap(gap, t);
    WordsStart(t);
    MatchNumberComplete(n, true, []);
    assert t + [] == t;
    NumberErrors(eng, t);
  }

  lemma NumberErrors(eng: Engine, t: Text)
    ensures AcceptNumber(eng, t).Err? ==> AcceptNumber(eng, t) == Err(NonIJsonNumber)
    ensures AcceptNumber(eng, t).Ok? ==> AcceptNumber(eng, t) == Ok(Number(eng.number(t)))
  {
  }

  /** The members that are followed by another, each with its comma. */
  function OpenMembers(ms: seq<Member>): Text
  {
    if ms == [] then [] else MemberText(ms[0]) + ([COMMA] + OpenMembers(ms[1..]))
  }

  lemma OpenFirst(ms: seq<Member>, s: Text)
    requires ms != []
    ensures OpenMembers(ms) + s == MemberText(ms[0]) + ([COMMA] + (OpenMembers(ms[1..]) + s))
  {
    hide MemberText;
    Associate(MemberText(ms[0]), [COMMA] + OpenMembers(ms[1..]), s);
    Associate([COMMA], OpenMembers(ms[1..]), s);
  }

  lemma {:induction false} ReadOpenMembers(eng: Engine, seen: set<Text>, acc: map<Text, Json>, ms: seq<Member>, s: Text)
    requires ValidMembers(eng, ms, seen) && acc.Keys == seen
    ensures ReadMembers(eng, OpenMembers(ms) + s, acc) == ReadMembers(eng, s, MemberMap(eng, ms, acc))
    decreases |ms|
  {
    if ms == [] {
      assert OpenMembers(ms) + s == s;
    } else {
      OpenFirst(ms, s);
      hide MemberText, ElementText, Denotes, ValidString, ValidElement, Blank, SpellingUnits, SkipBlank, ReadValue,
          ReadString,
           OpenMembers;
      var m := ms[0];
      var k, v := SpellingUnits(m.key), Denotes(eng, m.value.tree);
      var more := [COMMA] + (OpenMembers(ms[1..]) + s);
      ReadKey(eng, m, more);
      ReadElementTree(eng, m.value, more);
      assert ([COLON] + (ElementText(m.value) + more))[1..] == ElementText(m.value) + more;
      assert more[1..] == OpenMembers(ms[1..]) + s;
      ReadOpenMembers(eng, seen + {k}, acc[k := v], ms[1..], s);
    }
  }

  /** A key that an earlier member has already spelled, however it is spelled, is refused as a duplicate. */
  lemma RepeatedKeyIsNamed(eng: Engine, gap: Text, ms: seq<Member>, before: Text, key: seq<Spelled>, after: Text)
    requires Blank(gap) && ValidMembers(eng, ms, {}) && Blank(before) && ValidString(key)
    requires HasKey(ms, SpellingUnits(key))
    ensures Parse(eng, gap + ([LEFT_BRACE] + (OpenMembers(ms) + (before + (Literal(key) + after))))) == Err(DuplicateKey)
  {
    hide ReadMembers, ValidMembers, OpenMembers, ValidString, ReadString, SpellingUnits, MemberMap, Blank;
    var s := before + (Literal(key) + after);
    var t := [LEFT_BRACE] + (OpenMembers(ms) + s);
    SkipGap(gap, t);
    assert t[1..] == OpenMembers(ms) + s;
    OpenMembersStart(eng, ms, s);
    ReadOpenMembers(eng, {}, map[], ms, s);
    KeyThere(eng, ms, SpellingUnits(key));
    ReadRepeated(eng, MemberMap(eng, ms, map[]), before, key, after);
    assert ReadObject(eng, OpenMembers(ms) + s) == Failed(DuplicateKey);
    assert ReadValue(eng, gap + t) == Failed(DuplicateKey);
  }

  lemma KeyThere(eng: Engine, ms: seq<Member>, k: Text)
    requires ValidMembers(eng, ms, {}) && HasKey(ms, k)
    ensures k in MemberMap(eng, ms, map[])
  {
    var i :| 0 <= i < |ms| && SpellingUnits(ms[i].key) == k;
    assert Holds(eng, ms, k, Denotes(eng, ms[i].value.tree));
    MemberMapHolds(eng, ms, {}, map[], k, Denotes(eng, ms[i].value.tree));
  }

  lemma OpenMembersStart(eng: Engine, ms: seq<Member>, s: Text)
    requires ms != [] && ValidMembers(eng, ms, {})
    ensures SkipBlank(OpenMembers(ms) + s) != [] && SkipBlank(OpenMembers(ms) + s)[0] == QUOTE
  {
    hide MemberText, ValidElement, ValidString;
    var more := [COMMA] + (OpenMembers(ms[1..]) + s);
    OpenFirst(ms, s);
    ReadKey(eng, ms[0], more);
  }

  lemma ReadRepeated(eng: Engine, acc: map<Text, Json>, before: Text, key: seq<Spelled>, after: Text)
    requires Blank(before) && ValidString(key) && SpellingUnits(key) in acc
    ensures ReadMembers(eng, before + (Literal(key) + after), acc) == Failed(DuplicateKey)
  {
    hide SpellingText, SpellingUnits, ReadString, ValidSpelling, WellFormed, Blank;
    var t := Literal(key) + after;
    assert t[0] == QUOTE && t[1..] == SpellingText(key) + ([QUOTE] + after);
    SkipGap(before, t);
    ReadStringComplete(key, after);
  }
}
