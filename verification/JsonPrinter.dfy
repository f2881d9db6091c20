/** The canonical printer: `canonicalize`, its specification, and the concrete text it writes. */
module JsonPrinter {
  import opened Outcomes
  import opened Utf16
  import opened Decimal
  import opened JsonValue
  import opened JsonStrings
  import opened JsonGrammar

  /** `texts.join(",")` */
  function Join(texts: seq<Text>): Text
  {
    if texts == [] then [] else if |texts| == 1 then texts[0] else texts[0] + ([COMMA] + Join(texts[1..]))
  }

  function Print(eng: Engine, v: Json): Result<Text, Error>
    decreases v, 1, 0
  {
    match v
    case Null => Ok(NULL_TEXT)
    case Boolean(b) => Ok(if b then TRUE_TEXT else FALSE_TEXT)
    case Number(d) => SerializeNumber(eng, d)
    case String(t) => Quote(t)
    case Array(items) =>
      (match PrintItems(eng, v, |items|)
       case Ok(texts) => Ok([LEFT_BRACKET] + (Join(texts) + [RIGHT_BRACKET]))
       case Err(e) => Err(e))
    case Object(members) =>
      SortedKeysSorts(members.Keys);
      (match PrintMembers(eng, v, SortedKeys(members.Keys), |members.Keys|)
       case Ok(texts) => Ok([LEFT_BRACE] + (Join(texts) + [RIGHT_BRACE]))
       case Err(e) => Err(e))
  }

  /** The texts of the first `n` items, or the first error among them. */
  function PrintItems(eng: Engine, v: Json, n: nat): (r: Result<seq<Text>, Error>)
    requires v.Array? && n <= |v.items|
    ensures r.Ok? ==> |r.value| == n
    decreases v, 0, n
  {
    if n == 0 then Ok([]) else
      match PrintItems(eng, v, n - 1)
      case Err(e) => Err(e)
      case Ok(texts) =>
        match Print(eng, v.items[n - 1])
        case Err(e) => Err(e)
        case Ok(t) => Ok(texts + [t])
  }

  /** The texts of the first `n` members in key order, or the first error among them. */
  function PrintMembers(eng: Engine, v: Json, keys: seq<Text>, n: nat): (r: Result<seq<Text>, Error>)
    requires v.Object? && n <= |keys| && forall k :: k in keys ==> k in v.members
    ensures r.Ok? ==> |r.value| == n
    decreases v, 0, n
  {
    if n == 0 then Ok([]) else
      match PrintMembers(eng, v, keys, n - 1)
      case Err(e) => Err(e)
      case Ok(texts) =>
        match PrintMember(eng, v, keys[n - 1])
        case Err(e) => Err(e)
        case Ok(t) => Ok(texts + [t])
  }

  function PrintMember(eng: Engine, v: Json, key: Text): Result<Text, Error>
    requires v.Object? && key in v.members
    decreases v, 0, 0
  {
    match Quote(key)
    case Err(e) => Err(e)
    case Ok(q) =>
      match Print(eng, v.members[key])
      case Err(e) => Err(e)
      case Ok(t) => Ok(q + ([COLON] + t))
  }

  lemma {:induction false} ItemErrorStays(eng: Engine, v: Json, m: nat, n: nat)
    requires v.Array? && m <= n <= |v.items| && PrintItems(eng, v, m).Err?
    ensures PrintItems(eng, v, n) == PrintItems(eng, v, m)
  {
    if m < n { ItemErrorStays(eng, v, m, n - 1); }
  }

  lemma {:induction false} MemberErrorStays(eng: Engine, v: Json, keys: seq<Text>, m: nat, n: nat)
    requires v.Object? && forall k :: k in keys ==> k in v.members
    requires m <= n <= |keys| && PrintMembers(eng, v, keys, m).Err?
    ensures PrintMembers(eng, v, keys, n) == PrintMembers(eng, v, keys, m)
  {
    if m < n { MemberErrorStays(eng, v, keys, m, n - 1); }
  }

  method Canonicalize(eng: Engine, value: Json) returns (r: Result<Text, Error>)
    ensures r == Print(eng, value)
    decreases value, 1
  {
    match value {
      case Null => r := Ok(NULL_TEXT);
      case String(t) =>
        var valid := AssertValidUnicode(t);
        r := if valid then Ok(Literal(CanonicalSpelling(t))) else Err(InvalidUnicode);
      case Boolean(b) => r := Ok(if b then TRUE_TEXT else FALSE_TEXT);
      case Number(d) => r := SerializeNumber(eng, d);
      case Array(_) => r := CanonicalizeItems(eng, value);
      case Object(_) => r := CanonicalizeMembers(eng, value);
    }
  }

  method CanonicalizeItems(eng: Engine, value: Json) returns (r: Result<Text, Error>)
    requires value.Array?
    ensures r == Print(eng, value)
    decreases value, 0
  {
    var entries: seq<Text> := [];
    for index := 0 to |value.items|
      invariant PrintItems(eng, value, index) == Ok(entries)
    {
      var entry := Canonicalize(eng, value.items[index]);
      if entry.Err? {
        ItemErrorStays(eng, value, index + 1, |value.items|);
        return Err(entry.error);
      }
      entries := entries + [entry.value];
    }
    r := Ok([LEFT_BRACKET] + (Join(entries) + [RIGHT_BRACKET]));
  }

  method CanonicalizeMembers(eng: Engine, value: Json) returns (r: Result<Text, Error>)
    requires value.Object?
    ensures r == Print(eng, value)
    decreases value, 0, 1
  {
    hide PrintMember, SortedKeys, Join, Ascending;
    var keys := SortedKeys(value.members.Keys);
    SortedKeysSorts(value.members.Keys);
    var fields: seq<Text> := [];
    for index := 0 to |keys|
      invariant PrintMembers(eng, value, keys, index) == Ok(fields)
    {
      assert keys[index] in keys;
      var field := CanonicalizeMember(eng, value, keys[index]);
      if field.Err? {
        MemberErrorStays(eng, value, keys, index + 1, |keys|);
        return Err(field.error);
      }
      fields := fields + [field.value];
    }
    r := Ok([LEFT_BRACE] + (Join(fields) + [RIGHT_BRACE]));
  }

  method CanonicalizeMember(eng: Engine, value: Json, key: Text) returns (r: Result<Text, Error>)
    requires value.Object? && key in value.members
    ensures r == PrintMember(eng, value, key)
    decreases value, 0, 0
  {
    hide Print, WellFormed, Literal, CanonicalSpelling;
    var valid := AssertValidUnicode(key);
    if !valid { return Err(InvalidUnicode); }
    var field := Canonicalize(eng, value.members[key]);
    if field.Err? { return Err(field.error); }
    r := Ok(Literal(CanonicalSpelling(key)) + ([COLON] + field.value));
  }

  // ---------- what the printer accepts ----------

  /** Well-formed strings and keys, finite numbers, and no unsafe integer written in plain digits. */
  ghost predicate Printable(eng: Engine, v: Json)
  {
    match v
    case Null => true
    case Boolean(_) => true
    case Number(d) => SerializeNumber(eng, d).Ok?
    case String(t) => WellFormed(t)
    case Array(items) => forall i :: 0 <= i < |items| ==> Printable(eng, items[i])
    case Object(members) => forall k :: k in members ==> WellFormed(k) && Printable(eng, members[k])
  }

  lemma {:induction false} ItemsPrinted(eng: Engine, v: Json, n: nat)
    requires v.Array? && n <= |v.items|
    ensures PrintItems(eng, v, n).Ok? <==> forall i :: 0 <= i < n ==> Print(eng, v.items[i]).Ok?
    ensures PrintItems(eng, v, n).Ok? ==>
              forall i :: 0 <= i < n ==> Print(eng, v.items[i]) == Ok(PrintItems(eng, v, n).value[i])
  {
    if n > 0 {
      ItemsPrinted(eng, v, n - 1);
      if PrintItems(eng, v, n - 1).Ok? && Print(eng, v.items[n - 1]).Ok? {
        var texts, all := PrintItems(eng, v, n - 1).value, PrintItems(eng, v, n).value;
        forall i | 0 <= i < n ensures Print(eng, v.items[i]) == Ok(all[i]) {
          if i < n - 1 { assert all[i] == texts[i]; }
        }
      }
    }
  }

  lemma {:induction false} MembersPrinted(eng: Engine, v: Json, keys: seq<Text>, n: nat)
    requires v.Object? && n <= |keys| && forall k :: k in keys ==> k in v.members
    ensures PrintMembers(eng, v, keys, n).Ok? <==> forall i :: 0 <= i < n ==> PrintMember(eng, v, keys[i]).Ok?
    ensures PrintMembers(eng, v, keys, n).Ok? ==>
              forall i :: 0 <= i < n ==> PrintMember(eng, v, keys[i]) == Ok(PrintMembers(eng, v, keys, n).value[i])
  {
    if n > 0 {
      MembersPrinted(eng, v, keys, n - 1);
      if PrintMembers(eng, v, keys, n - 1).Ok? && PrintMember(eng, v, keys[n - 1]).Ok? {
        var texts, all := PrintMembers(eng, v, keys, n - 1).value, PrintMembers(eng, v, keys, n).value;
        forall i | 0 <= i < n ensures PrintMember(eng, v, keys[i]) == Ok(all[i]) {
          if i < n - 1 { assert all[i] == texts[i]; }
        }
      }
    }
  }

  lemma {:induction false} PrintAcceptsPrintable(eng: Engine, v: Json)
    ensures Print(eng, v).Ok? <==> Printable(eng, v)
  {
    match v {
      case Array(items) =>
        ItemsPrinted(eng, v, |items|);
        forall i | 0 <= i < |items| ensures Print(eng, items[i]).Ok? <==> Printable(eng, items[i]) {
          PrintAcceptsPrintable(eng, items[i]);
        }
      case Object(members) =>
        forall k | k in members ensures Print(eng, members[k]).Ok? <==> Printable(eng, members[k]) {
          PrintAcceptsPrintable(eng, members[k]);
        }
        ObjectAcceptsPrintable(eng, v);
      case _ =>
    }
  }

  lemma ObjectAcceptsPrintable(eng: Engine, v: Json)
    requires v.Object? && forall k :: k in v.members ==> (Print(eng, v.members[k]).Ok? <==> Printable(eng, v.members[k]))
    ensures Print(eng, v).Ok? <==> Printable(eng, v)
  {
    hide SortedKeys, Join, WellFormed, Ascending;
    var keys := SortedKeys(v.members.Keys);
    SortedKeysSorts(v.members.Keys);
    MembersPrinted(eng, v, keys, |keys|);
    forall k | k in v.members
      ensures PrintMember(eng, v, k).Ok? <==> WellFormed(k) && Printable(eng, v.members[k])
    {
    }
    if Print(eng, v).Ok? {
      forall k | k in v.members ensures WellFormed(k) && Printable(eng, v.members[k]) {
        assert k in keys;
        var i :| 0 <= i < |keys| && keys[i] == k;
      }
    } else {
      var i :| 0 <= i < |keys| && !PrintMember(eng, v, keys[i]).Ok?;
      assert keys[i] in keys;
    }
  }

  // ---------- the printed text as a concrete tree ----------

  /** The tree of the canonical text: no blanks, sorted keys, the engine's digits, shortest escapes. */
  function CanonicalTree(eng: Engine, v: Json): Tree
    decreases v, 1
  {
    match v
    case Null => NullWord
    case Boolean(b) => BooleanWord(b)
    case Number(d) =>
      if d.Finite? && IsNumberToken(eng.digits(d.r))
      then NumberToken(MatchNumber(eng.digits(d.r), true).value.0) else NullWord
    case String(t) => StringToken(CanonicalSpelling(t))
    case Array(items) =>
      if items == [] then EmptyArray([]) else ArrayOf(CanonicalElements(eng, v, 0))
    case Object(members) =>
      SortedKeysSorts(members.Keys);
      if members == map[] then EmptyObject([])
      else ObjectOf(CanonicalMembers(eng, v, SortedKeys(members.Keys)))
  }

  function CanonicalElements(eng: Engine, v: Json, from: nat): (es: seq<Element>)
    requires v.Array? && from <= |v.items|
    ensures |es| == |v.items| - from
    decreases v, 0, |v.items| - from
  {
    if from == |v.items| then []
    else [Element([], CanonicalTree(eng, v.items[from]), [])] + CanonicalElements(eng, v, from + 1)
  }

  function CanonicalMembers(eng: Engine, v: Json, keys: seq<Text>): (ms: seq<Member>)
    requires v.Object? && forall k :: k in keys ==> k in v.members
    ensures |ms| == |keys|
    decreases v, 0, |keys|
  {
    if keys == [] then [] else
      [Member([], CanonicalSpelling(keys[0]), [], Element([], CanonicalTree(eng, v.members[keys[0]]), []))]
      + CanonicalMembers(eng, v, keys[1..])
  }

  /** The canonical tree is a valid JSON text that denotes the value and renders as the printed text. */
  ghost predicate Canonical(eng: Engine, v: Json)
  {
    var tree := CanonicalTree(eng, v);
    Valid(eng, tree) && Denotes(eng, tree) == v && Print(eng, v) == Ok(Render(tree))
  }

  lemma {:induction false} PrintIsCanonical(eng: Engine, v: Json)
    requires Faithful(eng) && OfEngine(eng, v) && Printable(eng, v)
    ensures Canonical(eng, v)
  {
    match v {
      case Null =>
      case Boolean(_) =>
      case Number(d) => NumberCanonical(eng, d);
      case String(t) => CanonicalSpellingDenotes(t);
      case Array(items) =>
        forall i | 0 <= i < |items| ensures Canonical(eng, items[i]) { PrintIsCanonical(eng, items[i]); }
        PrintAcceptsPrintable(eng, v);
        ArrayCanonical(eng, v);
      case Object(members) =>
        forall k | k in members ensures Canonical(eng, members[k]) { PrintIsCanonical(eng, members[k]); }
        PrintAcceptsPrintable(eng, v);
        ObjectCanonical(eng, v);
    }
  }

  lemma NumberCanonical(eng: Engine, d: Double)
    requires Faithful(eng) && SerializeNumber(eng, d).Ok? && eng.isDouble(d.r)
    ensures Canonical(eng, Number(d))
  {
    hide Faithful;
    OwnDigitsAccepted(eng, d);
    MatchNumberSound(eng.digits(d.r), true);
    hide AcceptNumber, MatchNumber, NumberSpelling.Render, NumberSpelling.Strict;
    var n := MatchNumber(eng.digits(d.r), true).value.0;
    assert n.Render() + [] == n.Render();
  }

  lemma ArrayCanonical(eng: Engine, v: Json)
    requires v.Array? && Print(eng, v).Ok?
    requires forall i :: 0 <= i < |v.items| ==> Canonical(eng, v.items[i])
    ensures Canonical(eng, v)
  {
    hide Canonical;
    ItemsPrinted(eng, v, |v.items|);
    if v.items != [] {
      ElementsCanonical(eng, v, PrintItems(eng, v, |v.items|).value, 0);
      ArrayFromElements(eng, v, PrintItems(eng, v, |v.items|).value, CanonicalElements(eng, v, 0));
    } else {
      EmptyArrayCanonical(eng, v);
    }
  }

  lemma EmptyArrayCanonical(eng: Engine, v: Json)
    requires v == Array([])
    ensures Canonical(eng, v)
  {
  }

  lemma ArrayFromElements(eng: Engine, v: Json, texts: seq<Text>, es: seq<Element>)
    requires v.Array? && v.items != [] && es == CanonicalElements(eng, v, 0)
    requires forall i :: 0 <= i < |es| ==> ValidElement(eng, es[i])
    requires PrintItems(eng, v, |v.items|) == Ok(texts)
    requires Values(eng, es) == v.items[0..] && ElementsText(es) == Join(texts[0..]) + [RIGHT_BRACKET]
    ensures Canonical(eng, v)
  {
    hide Values, ElementsText, Join, PrintItems, CanonicalElements, ValidElement;
    assert v.items[0..] == v.items && texts[0..] == texts;
  }

  lemma PlainElement(tree: Tree)
    ensures ElementText(Element([], tree, [])) == Render(tree)
  {
  }

  lemma {:induction false} ElementsCanonical(eng: Engine, v: Json, texts: seq<Text>, from: nat)
    requires v.Array? && from < |v.items| && |texts| == |v.items|
    requires forall i :: 0 <= i < |v.items| ==> Canonical(eng, v.items[i]) && Print(eng, v.items[i]) == Ok(texts[i])
    ensures var es := CanonicalElements(eng, v, from);
            && (forall i :: 0 <= i < |es| ==> ValidElement(eng, es[i]))
            && Values(eng, es) == v.items[from..]
            && ElementsText(es) == Join(texts[from..]) + [RIGHT_BRACKET]
    decreases |v.items| - from
  {
    var es := CanonicalElements(eng, v, from);
    var first := es[0];
    PlainElement(first.tree);
    assert texts[from..][1..] == texts[from + 1..];
    assert v.items[from..] == [v.items[from]] + v.items[from + 1..];
    assert es[1..] == CanonicalElements(eng, v, from + 1);
    assert ValidElement(eng, first);
    if from + 1 == |v.items| {
      assert Values(eng, es) == [v.items[from]] + Values(eng, es[1..]);
    } else {
      ElementsCanonical(eng, v, texts, from + 1);
      assert forall i :: 0 < i < |es| ==> es[i] == es[1..][i - 1];
      JoinClose(texts[from], Join(texts[from + 1..]), RIGHT_BRACKET);
    }
  }

  lemma JoinClose(a: Text, b: Text, close: Unit)
    ensures (a + ([COMMA] + b)) + [close] == a + ([COMMA] + (b + [close]))
  {
  }

  function Listed(members: map<Text, Json>, keys: seq<Text>): map<Text, Json>
    requires forall k :: k in keys ==> k in members
  {
    map k | k in keys :: members[k]
  }

  lemma {:induction false} MembersTextCanonical(eng: Engine, v: Json, texts: seq<Text>, keys: seq<Text>)
    requires v.Object? && keys != [] && |texts| == |keys|
    requires forall k :: k in keys ==> k in v.members && WellFormed(k) && Canonical(eng, v.members[k])
    requires forall i :: 0 <= i < |keys| ==> PrintMember(eng, v, keys[i]) == Ok(texts[i])
    ensures MembersText(CanonicalMembers(eng, v, keys)) == Join(texts) + [RIGHT_BRACE]
    decreases |keys|
  {
    var ms := CanonicalMembers(eng, v, keys);
    assert keys[0] in keys && ms[1..] == CanonicalMembers(eng, v, keys[1..]);
    PlainElement(CanonicalTree(eng, v.members[keys[0]]));
    assert MemberText(ms[0]) == texts[0];
    if |keys| > 1 {
      MembersTextCanonical(eng, v, texts[1..], keys[1..]);
      JoinClose(texts[0], Join(texts[1..]), RIGHT_BRACE);
    }
  }

  lemma AscendingFresh(done: seq<Text>, keys: seq<Text>)
    requires keys != [] && Ascending(done + keys)
    ensures keys[0] !in done
  {
    if keys[0] in done {
      var i :| 0 <= i < |done| && done[i] == keys[0];
      AscendingDistinct(done + keys, i, |done|);
    }
  }

  /** The object under construction holds the keys already listed. */
  lemma {:induction false} MembersCanonical(eng: Engine, v: Json, done: seq<Text>, keys: seq<Text>)
    requires v.Object? && Ascending(done + keys)
    requires forall k :: k in done + keys ==> k in v.members
    requires forall k :: k in keys ==> WellFormed(k) && Canonical(eng, v.members[k])
    ensures ValidMembers(eng, CanonicalMembers(eng, v, keys), set k | k in done)
    ensures MemberMap(eng, CanonicalMembers(eng, v, keys), Listed(v.members, done)) == Listed(v.members, done + keys)
    decreases |keys|
  {
    var ms := CanonicalMembers(eng, v, keys);
    if keys == [] {
      assert done + keys == done;
    } else {
      var k := keys[0];
      assert k in keys && ms[1..] == CanonicalMembers(eng, v, keys[1..]);
      CanonicalSpellingDenotes(k);
      AscendingFresh(done, keys);
      assert done + [k] + keys[1..] == done + keys;
      assert Listed(v.members, done)[k := v.members[k]] == Listed(v.members, done + [k]);
      assert (set x | x in done) + {k} == set x | x in done + [k];
      MembersCanonical(eng, v, done + [k], keys[1..]);
    }
  }

  lemma ObjectCanonical(eng: Engine, v: Json)
    requires v.Object? && Printable(eng, v) && Print(eng, v).Ok?
    requires forall k :: k in v.members ==> Canonical(eng, v.members[k])
    ensures Canonical(eng, v)
  {
    var keys := SortedKeys(v.members.Keys);
    SortedKeysSorts(v.members.Keys);
    if v.members != map[] {
      assert v.members.Keys != {};
      SortedObjectCanonical(eng, v, keys);
    } else {
      assert v.members.Keys == {};
      assert Print(eng, v) == Ok([LEFT_BRACE] + ([] + [RIGHT_BRACE]));
    }
  }

  /** Started from the empty object, the members in key order build the whole object. */
  lemma MembersBuildObject(eng: Engine, v: Json, keys: seq<Text>)
    requires v.Object? && Ascending(keys) && forall k :: k in keys <==> k in v.members
    requires forall k :: k in v.members ==> WellFormed(k) && Canonical(eng, v.members[k])
    ensures ValidMembers(eng, CanonicalMembers(eng, v, keys), {})
    ensures MemberMap(eng, CanonicalMembers(eng, v, keys), map[]) == v.members
  {
    hide Canonical, WellFormed, ValidMembers, MemberMap, Ascending, CanonicalMembers;
    var none: seq<Text> := [];
    assert none + keys == keys;
    MembersCanonical(eng, v, none, keys);
    ListedAll(v.members, keys);
    assert Listed(v.members, none) == map[] && (set k | k in none) == {};
  }

  lemma PrintedMembersText(eng: Engine, v: Json, keys: seq<Text>)
    requires v.Object? && keys != [] && forall k :: k in keys <==> k in v.members
    requires forall k :: k in v.members ==> WellFormed(k) && Canonical(eng, v.members[k])
    requires PrintMembers(eng, v, keys, |keys|).Ok?
    ensures MembersText(CanonicalMembers(eng, v, keys))
            == Join(PrintMembers(eng, v, keys, |keys|).value) + [RIGHT_BRACE]
  {
    hide Canonical, WellFormed, Join, MembersText, CanonicalMembers;
    MembersPrinted(eng, v, keys, |keys|);
    assert forall i :: 0 <= i < |keys| ==> keys[i] in keys;
    MembersTextCanonical(eng, v, PrintMembers(eng, v, keys, |keys|).value, keys);
  }

  lemma SortedObjectCanonical(eng: Engine, v: Json, keys: seq<Text>)
    requires v.Object? && v.members != map[] && keys == SortedKeys(v.members.Keys) && keys != []
    requires Ascending(keys) && |keys| == |v.members.Keys| && forall k :: k in keys <==> k in v.members
    requires forall k :: k in v.members ==> WellFormed(k) && Canonical(eng, v.members[k])
    requires PrintMembers(eng, v, keys, |keys|).Ok?
    ensures Canonical(eng, v)
  {
    hide Canonical, WellFormed, SortedKeys, Join, MembersText, ValidMembers, MemberMap, Ascending, PrintMembers;
    var texts := PrintMembers(eng, v, keys, |keys|).value;
    MembersBuildObject(eng, v, keys);
    PrintedMembersText(eng, v, keys);
    PrintObjectText(eng, v, texts);
    CanonicalFromMembers(eng, v, texts, CanonicalMembers(eng, v, keys));
  }

  lemma ListedAll(members: map<Text, Json>, keys: seq<Text>)
    requires forall k :: k in keys <==> k in members
    ensures Listed(members, keys) == members
  {
  }

  lemma PrintObjectText(eng: Engine, v: Json, texts: seq<Text>)
    requires v.Object? && (SortedKeysSorts(v.members.Keys);
                           PrintMembers(eng, v, SortedKeys(v.members.Keys), |v.members.Keys|) == Ok(texts))
    ensures Print(eng, v) == Ok([LEFT_BRACE] + (Join(texts) + [RIGHT_BRACE]))
  {
  }

  lemma CanonicalFromMembers(eng: Engine, v: Json, texts: seq<Text>, ms: seq<Member>)
    requires v.Object? && CanonicalTree(eng, v) == ObjectOf(ms) && ms != []
    requires ValidMembers(eng, ms, {}) && MemberMap(eng, ms, map[]) == v.members
    requires Print(eng, v) == Ok([LEFT_BRACE] + (Join(texts) + [RIGHT_BRACE]))
    requires MembersText(ms) == Join(texts) + [RIGHT_BRACE]
    ensures Canonical(eng, v)
  {
  }
}
