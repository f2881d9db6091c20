/** The printer and the parser undo each other. */
module JsonRoundTrip {
  import opened Outcomes
  import opened Utf16
  import opened Decimal
  import opened JsonValue
  import opened JsonStrings
  import opened JsonGrammar
  import opened JsonReader
  import opened JsonPrinter

  /** Printing succeeds exactly on printable values, and parsing the printed text gives the value back. */
  lemma ParseOfPrint(eng: Engine, v: Json)
    requires Faithful(eng) && OfEngine(eng, v)
    ensures Print(eng, v).Ok? <==> Printable(eng, v)
    ensures Print(eng, v).Ok? ==> Parse(eng, Print(eng, v).value) == Ok(v)
  {
    PrintAcceptsPrintable(eng, v);
    if Printable(eng, v) {
      PrintIsCanonical(eng, v);
      var t := Render(CanonicalTree(eng, v));
      assert t == [] + (t + []);
      ParseText(eng, t, [], CanonicalTree(eng, v), []);
    }
  }

  lemma PrintInjective(eng: Engine, a: Json, b: Json)
    requires Faithful(eng) && OfEngine(eng, a) && OfEngine(eng, b)
    requires Print(eng, a).Ok? && Print(eng, a) == Print(eng, b)
    ensures a == b
  {
    ParseOfPrint(eng, a);
    ParseOfPrint(eng, b);
  }

  /** The values of the documentation's promise: well-formed strings and safe integers. */
  ghost predicate SafeValue(v: Json)
  {
    match v
    case Null => true
    case Boolean(_) => true
    case Number(d) => d.Finite? && IsSafeInteger(d.r)
    case String(t) => WellFormed(t)
    case Array(items) => forall i :: 0 <= i < |items| ==> SafeValue(items[i])
    case Object(members) => forall k :: k in members ==> WellFormed(k) && SafeValue(members[k])
  }

  lemma {:induction false} SafeValuesPrint(eng: Engine, v: Json)
    requires Faithful(eng) && SafeValue(v)
    ensures OfEngine(eng, v) && Printable(eng, v)
    ensures Print(eng, v).Ok? && Parse(eng, Print(eng, v).value) == Ok(v)
  {
    match v {
      case Number(d) =>
        assert WritesInteger(eng, d.r.Floor);
      case Array(items) =>
        forall i | 0 <= i < |items| ensures OfEngine(eng, items[i]) && Printable(eng, items[i]) {
          SafeValuesPrint(eng, items[i]);
        }
      case Object(members) =>
        forall k | k in members ensures OfEngine(eng, members[k]) && Printable(eng, members[k]) {
          SafeValuesPrint(eng, members[k]);
        }
      case _ =>
    }
    ParseOfPrint(eng, v);
  }

  // ---------- parsing, then printing ----------

  lemma {:induction false} TreeIsPrintable(eng: Engine, tree: Tree)
    requires Faithful(eng) && Valid(eng, tree)
    ensures Printable(eng, Denotes(eng, tree)) && OfEngine(eng, Denotes(eng, tree))
    decreases tree
  {
    match tree {
      case NumberToken(n) =>
        assert n.Render() + [] == n.Render();
        MatchNumberComplete(n, true, []);
      case ArrayOf(es) => ElementsArePrintable(eng, es);
      case ObjectOf(ms) => MembersArePrintable(eng, ms, {}, map[]);
      case _ =>
    }
  }

  lemma {:induction false} ElementsArePrintable(eng: Engine, es: seq<Element>)
    requires Faithful(eng) && forall i :: 0 <= i < |es| ==> ValidElement(eng, es[i])
    ensures forall i :: 0 <= i < |es| ==> Printable(eng, Values(eng, es)[i]) && OfEngine(eng, Values(eng, es)[i])
    decreases es
  {
    if es != [] {
      TreeIsPrintable(eng, es[0].tree);
      ElementsArePrintable(eng, es[1..]);
      forall i | 0 <= i < |es|
        ensures Printable(eng, Values(eng, es)[i]) && OfEngine(eng, Values(eng, es)[i])
      {
        if i > 0 { assert Values(eng, es)[i] == Values(eng, es[1..])[i - 1]; }
      }
    }
  }

  lemma {:induction false} MembersArePrintable(eng: Engine, ms: seq<Member>, seen: set<Text>, acc: map<Text, Json>)
    requires Faithful(eng) && ValidMembers(eng, ms, seen)
    requires forall k :: k in acc ==> WellFormed(k) && Printable(eng, acc[k]) && OfEngine(eng, acc[k])
    ensures var m := MemberMap(eng, ms, acc);
            forall k :: k in m ==> WellFormed(k) && Printable(eng, m[k]) && OfEngine(eng, m[k])
    decreases ms
  {
    if ms != [] {
      TreeIsPrintable(eng, ms[0].value.tree);
      var k := SpellingUnits(ms[0].key);
      MembersArePrintable(eng, ms[1..], seen + {k}, acc[k := Denotes(eng, ms[0].value.tree)]);
    }
  }

  /** Every accepted value prints, and its text is read back as the same value. */
  lemma PrintOfParse(eng: Engine, source: Text)
    requires Faithful(eng) && Parse(eng, source).Ok?
    ensures var v := Parse(eng, source).value;
            && Printable(eng, v) && OfEngine(eng, v)
            && Print(eng, v).Ok? && Parse(eng, Print(eng, v).value) == Ok(v)
  {
    var v := Parse(eng, source).value;
    ParseExact(eng, source, v);
    var before, tree, after :| IsText(eng, source, before, tree, after) && Denotes(eng, tree) == v;
    TreeIsPrintable(eng, tree);
    ParseOfPrint(eng, v);
  }

  /** Printing is a normal form: two texts print alike exactly when one value is spelled by both. */
  lemma NormalForm(eng: Engine, s: Text, t: Text)
    requires Faithful(eng) && Parse(eng, s).Ok? && Parse(eng, t).Ok?
    ensures Print(eng, Parse(eng, s).value) == Print(eng, Parse(eng, t).value)
            <==> exists v :: Spells(eng, s, v) && Spells(eng, t, v)
  {
    var v, w := Parse(eng, s).value, Parse(eng, t).value;
    PrintOfParse(eng, s);
    PrintOfParse(eng, t);
    ParseExact(eng, s, v);
    ParseExact(eng, t, v);
    if Print(eng, v) == Print(eng, w) { PrintInjective(eng, v, w); }
    if x :| Spells(eng, s, x) && Spells(eng, t, x) {
      ParseExact(eng, s, x);
      ParseExact(eng, t, x);
    }
  }

  // ---------- tuple keys ----------

  /** `canonicalJsonStringify([a, b, ...])`, the repository's way to build map keys from strings. */
  function TupleKey(eng: Engine, parts: seq<Text>): Result<Text, Error>
  {
    Print(eng, Array(seq(|parts|, i requires 0 <= i < |parts| => String(parts[i]))))
  }

  /** Map keys built from tuples of strings coincide only for equal tuples. */
  lemma TupleKeysInjective(eng: Engine, a: seq<Text>, b: seq<Text>)
    requires Faithful(eng)
    requires forall i :: 0 <= i < |a| ==> WellFormed(a[i])
    requires forall i :: 0 <= i < |b| ==> WellFormed(b[i])
    ensures TupleKey(eng, a).Ok? && (TupleKey(eng, a) == TupleKey(eng, b) <==> a == b)
  {
    var x := Array(seq(|a|, i requires 0 <= i < |a| => String(a[i])));
    var y := Array(seq(|b|, i requires 0 <= i < |b| => String(b[i])));
    SafeValuesPrint(eng, x);
    SafeValuesPrint(eng, y);
    if TupleKey(eng, a) == TupleKey(eng, b) {
      PrintInjective(eng, x, y);
      assert |x.items| == |a| && |y.items| == |b|;
      assert forall i :: 0 <= i < |a| ==> x.items[i] == String(a[i]) && y.items[i] == String(b[i]);
      assert a == b;
    }
  }
}
