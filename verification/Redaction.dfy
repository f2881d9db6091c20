/** Typed redaction on values: what replacing leaves of a JSON tree at given paths leaves. */
module Redaction {
  import opened Outcomes
  import opened Utf16
  import opened Decimal
  import opened JsonValue

  datatype Segment = Name(name: Text) | Index(index: int)

  /** The text `[REDACTED]`. */
  const REDACTED: Text := [0x5B, 0x52, 0x45, 0x44, 0x41, 0x43, 0x54, 0x45, 0x44, 0x5D]

  datatype Rule = Rule(path: seq<Segment>, given: Option<Text>)
  {
    function Replacement(): Text { if given.Some? then given.value else REDACTED }
  }

  datatype RedactionError = RootForbidden | PathMissing

  /** A step into an existing child. */
  datatype Step = Item(n: nat) | Field(key: Text)

  type Position = seq<Step>

  /** `String(segment)` */
  function KeyText(s: Segment): Text { if s.Name? then s.name else IntegerText(s.index) }

  /** The child that a segment selects, if it is there: numbers index arrays, any segment keys an object. */
  function StepOf(v: Json, s: Segment): Option<Step>
  {
    match v
    case Array(items) => if s.Index? && 0 <= s.index < |items| then Some(Item(s.index)) else None
    case Object(members) => if KeyText(s) in members then Some(Field(KeyText(s))) else None
    case _ => None
  }

  predicate HasChild(v: Json, s: Step)
  {
    match s
    case Item(n) => v.Array? && n < |v.items|
    case Field(k) => v.Object? && k in v.members
  }

  function Child(v: Json, s: Step): (c: Json)
    requires HasChild(v, s)
    ensures c < v
  {
    match s case Item(n) => v.items[n] case Field(k) => v.members[k]
  }

  function WithChild(v: Json, s: Step, c: Json): Json
    requires HasChild(v, s)
  {
    match s case Item(n) => Array(v.items[n := c]) case Field(k) => Object(v.members[k := c])
  }

  /** Walks to the leaf and overwrites it. */
  function Replace(v: Json, path: seq<Segment>, x: Json): Result<Json, RedactionError>
  {
    if path == [] then Err(RootForbidden) else
      match StepOf(v, path[0])
      case None => Err(PathMissing)
      case Some(s) =>
        if |path| == 1 then Ok(WithChild(v, s, x)) else
          match Replace(Child(v, s), path[1..], x)
          case Err(e) => Err(e)
          case Ok(c) => Ok(WithChild(v, s, c))
  }

  /** The rules in turn, stopped by the first error. */
  function RedactAll(v: Json, rules: seq<Rule>): Result<Json, RedactionError>
  {
    if rules == [] then Ok(v) else
      match RedactAll(v, rules[..|rules| - 1])
      case Err(e) => Err(e)
      case Ok(w) => Replace(w, rules[|rules| - 1].path, String(rules[|rules| - 1].Replacement()))
  }

  // ---------- the result, without order ----------

  /** The position a path denotes in a tree. */
  function Resolve(v: Json, path: seq<Segment>): Option<Position>
  {
    if path == [] then Some([]) else
      match StepOf(v, path[0])
      case None => None
      case Some(s) =>
        match Resolve(Child(v, s), path[1..]) case None => None case Some(p) => Some([s] + p)
  }

  type Edits = map<Position, Text>

  /** The tree with every edited position replaced, outermost first. */
  function Overlay(v: Json, edits: Edits, here: Position): Json
    decreases v
  {
    if here in edits then String(edits[here]) else
      match v
      case Array(items) => Array(seq(|items|, i requires 0 <= i < |items| => Overlay(items[i], edits, here + [Item(i)])))
      case Object(members) => Object(map k | k in members :: Overlay(members[k], edits, here + [Field(k)]))
      case _ => v
  }

  /** Some edit lies strictly above the position `here + rest`, at `here` or below. */
  ghost predicate Shadowed(edits: Edits, here: Position, rest: Position)
  {
    exists n :: 0 <= n < |rest| && here + rest[..n] in edits
  }

  lemma ShadowedBelow(edits: Edits, here: Position, s: Step, p: Position)
    requires here !in edits
    ensures Shadowed(edits, here, [s] + p) <==> Shadowed(edits, here + [s], p)
  {
    var rest := [s] + p;
    if Shadowed(edits, here, rest) {
      var n :| 0 <= n < |rest| && here + rest[..n] in edits;
      assert here + rest[..0] == here;
      assert here + rest[..n] == here + [s] + p[..n - 1];
    }
    if Shadowed(edits, here + [s], p) {
      var n :| 0 <= n < |p| && here + [s] + p[..n] in edits;
      assert here + rest[..n + 1] == here + [s] + p[..n];
    }
  }

  /** Where the tree is not replaced, its overlay has the same children, overlaid. */
  lemma OverlayStep(v: Json, edits: Edits, here: Position, s: Segment)
    requires here !in edits
    ensures StepOf(Overlay(v, edits, here), s) == StepOf(v, s)
    ensures StepOf(v, s).Some? ==>
      Child(Overlay(v, edits, here), StepOf(v, s).value) == Overlay(Child(v, StepOf(v, s).value), edits, here
          + [StepOf(v, s).value])
  {
    hide IntegerText;
  }

  lemma StepIsChild(v: Json, s: Segment)
    ensures StepOf(v, s).Some? ==> HasChild(v, StepOf(v, s).value)
  {
  }

  /** An edit that is not under a child leaves the child's overlay alone. */
  lemma {:induction false} OverlayElsewhere(v: Json, edits: Edits, p: Position, x: Text, here: Position)
    requires !(here <= p)
    ensures Overlay(v, edits[p := x], here) == Overlay(v, edits, here)
    decreases v
  {
    if here !in edits {
      match v {
        case Array(items) =>
          forall i | 0 <= i < |items|
            ensures Overlay(items[i], edits[p := x], here + [Item(i)]) == Overlay(items[i], edits, here + [Item(i)])
          {
            OverlayElsewhere(items[i], edits, p, x, here + [Item(i)]);
          }
        case Object(members) =>
          forall k | k in members
            ensures Overlay(members[k], edits[p := x], here + [Field(k)]) == Overlay(members[k], edits, here + [Field(k)])
          {
            OverlayElsewhere(members[k], edits, p, x, here + [Field(k)]);
          }
        case _ =>
      }
    }
  }

  /** Editing under one child changes that child of the overlay only. */
  lemma OverlayChild(v: Json, edits: Edits, here: Position, s: Step, p: Position, x: Text)
    requires here !in edits && HasChild(v, s) && HasChild(Overlay(v, edits, here), s)
    ensures var edited := edits[here + ([s] + p) := x];
            Overlay(v, edited, here) == WithChild(Overlay(v, edits, here), s, Overlay(Child(v, s), edited, here + [s]))
  {
    var edited := edits[here + ([s] + p) := x];
    assert |here + ([s] + p)| > |here|;
    match v {
      case Array(items) =>
        forall i | 0 <= i < |items| && Item(i) != s
          ensures Overlay(items[i], edited, here + [Item(i)]) == Overlay(items[i], edits, here + [Item(i)])
        {
          assert (here + ([s] + p))[|here|] == s && (here + [Item(i)])[|here|] == Item(i);
          OverlayElsewhere(items[i], edits, here + ([s] + p), x, here + [Item(i)]);
        }
        assert Overlay(v, edited, here).items == WithChild(Overlay(v, edits, here), s, Overlay(Child(v, s), edited,
            here + [s])).items;
      case Object(members) =>
        forall k | k in members && Field(k) != s
          ensures Overlay(members[k], edited, here + [Field(k)]) == Overlay(members[k], edits, here + [Field(k)])
        {
          assert (here + ([s] + p))[|here|] == s && (here + [Field(k)])[|here|] == Field(k);
          OverlayElsewhere(members[k], edits, here + ([s] + p), x, here + [Field(k)]);
        }
        assert Overlay(v, edited, here).members == WithChild(Overlay(v, edits, here), s, Overlay(Child(v, s), edited,
            here + [s])).members;
    }
  }

  /** Replacing at a path in an overlaid tree: the overlay with one more edit, or an error. */
  lemma {:induction false} ReplaceOverlay(v: Json, edits: Edits, here: Position, path: seq<Segment>, x: Text)
    requires path != []
    ensures var r := Replace(Overlay(v, edits, here), path, String(x));
            match Resolve(v, path)
            case None => r == Err(PathMissing)
            case Some(p) => if Shadowed(edits, here, p) then r == Err(PathMissing)
                            else r == Ok(Overlay(v, edits[here + p := x], here))
    decreases |path|
  {
    if here in edits {
      HereShadows(v, edits, here, path);
    } else {
      hide Overlay, Shadowed, StepOf;
      OverlayStep(v, edits, here, path[0]);
      StepIsChild(v, path[0]);
      StepIsChild(Overlay(v, edits, here), path[0]);
      if StepOf(v, path[0]).Some? {
        var s := StepOf(v, path[0]).value;
        if |path| == 1 {
          LastStepUnshadowed(v, edits, here, path, s);
          OverlayChild(v, edits, here, s, [], x);
          assert here + ([s] + []) == here + [s];
        } else {
          ReplaceOverlay(Child(v, s), edits, here + [s], path[1..], x);
          if Resolve(Child(v, s), path[1..]).Some? {
            var p := Resolve(Child(v, s), path[1..]).value;
            ShadowedBelow(edits, here, s, p);
            OverlayChild(v, edits, here, s, p, x);
            assert here + ([s] + p) == here + [s] + p;
          }
        }
      }
    }
  }

  lemma HereShadows(v: Json, edits: Edits, here: Position, path: seq<Segment>)
    requires path != [] && here in edits
    ensures Resolve(v, path).Some? ==> Shadowed(edits, here, Resolve(v, path).value)
  {
    if Resolve(v, path).Some? {
      var p := Resolve(v, path).value;
      assert here + p[..0] == here;
    }
  }

  lemma LastStepUnshadowed(v: Json, edits: Edits, here: Position, path: seq<Segment>, s: Step)
    requires |path| == 1 && here !in edits && StepOf(v, path[0]) == Some(s)
    ensures Resolve(v, path) == Some([s]) && !Shadowed(edits, here, [s])
  {
    assert path[1..] == [] && Resolve(Child(v, s), path[1..]) == Some([]) && [s] + [] == [s];
    forall n | 0 <= n < |[s]| ensures here + [s][..n] !in edits { assert here + [s][..n] == here; }
  }

  // ---------- lists of rules ----------

  /** The edits of a list of rules that resolve: a later rule wins at the same position. */
  function EditsOf(v: Json, rules: seq<Rule>): Edits
  {
    if rules == [] then map[] else
      var last := rules[|rules| - 1];
      match Resolve(v, last.path)
      case None => EditsOf(v, rules[..|rules| - 1])
      case Some(p) => EditsOf(v, rules[..|rules| - 1])[p := last.Replacement()]
  }

  /** The rule names a child of the input, and no earlier rule already replaced something above it. */
  ghost predicate Admissible(v: Json, rules: seq<Rule>, i: nat)
    requires i < |rules|
  {
    && rules[i].path != [] && Resolve(v, rules[i].path).Some?
    && forall j :: 0 <= j < i && Resolve(v, rules[j].path).Some? ==>
         !Above(Resolve(v, rules[j].path).value, Resolve(v, rules[i].path).value)
  }

  /** Strictly above. */
  predicate Above(p: Position, q: Position) { p < q }

  lemma {:induction false} EditedPositions(v: Json, rules: seq<Rule>, p: Position)
    ensures p in EditsOf(v, rules) <==> exists j :: 0 <= j < |rules| && Resolve(v, rules[j].path) == Some(p)
    decreases |rules|
  {
    hide Resolve;
    if rules != [] {
      var init := rules[..|rules| - 1];
      EditedPositions(v, init, p);
      assert forall j :: 0 <= j < |init| ==> init[j] == rules[j];
    }
  }

  lemma ShadowedByEarlier(v: Json, rules: seq<Rule>, q: Position)
    ensures Shadowed(EditsOf(v, rules), [], q)
            <==> exists j :: 0 <= j < |rules| && Resolve(v, rules[j].path).Some? && Above(Resolve(v, rules[j].path).value, q)
  {
    hide Resolve, EditsOf;
    var root: Position := [];
    if Shadowed(EditsOf(v, rules), root, q) {
      var n :| 0 <= n < |q| && root + q[..n] in EditsOf(v, rules);
      assert root + q[..n] == q[..n];
      EditedPositions(v, rules, q[..n]);
      var j :| 0 <= j < |rules| && Resolve(v, rules[j].path) == Some(q[..n]);
      assert Above(q[..n], q);
    }
    if j :| 0 <= j < |rules| && Resolve(v, rules[j].path).Some? && Above(Resolve(v, rules[j].path).value, q) {
      var p := Resolve(v, rules[j].path).value;
      EditedPositions(v, rules, p);
      assert root + q[..|p|] == p;
    }
  }

  /** Redaction succeeds exactly when every rule is admissible, and then gives the overlay of its edits. */
  lemma {:induction false} RedactionIsOverlay(v: Json, rules: seq<Rule>)
    ensures RedactAll(v, rules).Ok? <==> forall i :: 0 <= i < |rules| ==> Admissible(v, rules, i)
    ensures RedactAll(v, rules).Ok? ==> RedactAll(v, rules).value == Overlay(v, EditsOf(v, rules), [])
    decreases |rules|
  {
    hide Replace, Resolve, Overlay, Admissible;
    var root: Position := [];
    if rules == [] {
      NoEdits(v, root);
    } else {
      var n := |rules| - 1;
      var init, last := rules[..n], rules[n];
      RedactionIsOverlay(v, init);
      forall i | 0 <= i < n ensures Admissible(v, init, i) <==> Admissible(v, rules, i) { AdmissiblePrefix(v, rules,
          n, i); }
      if RedactAll(v, init).Ok? {
        LastRule(v, init, last);
        AdmissibleLast(v, rules);
      }
    }
  }

  lemma LastRule(v: Json, init: seq<Rule>, last: Rule)
    ensures var r, shadows := Replace(Overlay(v, EditsOf(v, init), []), last.path, String(last.Replacement())),
                              Shadowed(EditsOf(v, init), [], Or([], Resolve(v, last.path)));
            && (r.Ok? <==> last.path != [] && Resolve(v, last.path).Some? && !shadows)
            && (r.Ok? ==> r.value == Overlay(v, EditsOf(v, init)[Or([], Resolve(v, last.path)) := last.Replacement()],
                []))
  {
    hide Overlay, EditsOf;
    if last.path != [] {
      ReplaceOverlay(v, EditsOf(v, init), [], last.path, last.Replacement());
      if Resolve(v, last.path).Some? {
        var root: Position := [];
        assert root + Resolve(v, last.path).value == Resolve(v, last.path).value;
      }
    }
  }

  function Or(p: Position, q: Option<Position>): Position { if q.Some? then q.value else p }

  lemma AdmissiblePrefix(v: Json, rules: seq<Rule>, n: nat, i: nat)
    requires i < n <= |rules|
    ensures Admissible(v, rules[..n], i) <==> Admissible(v, rules, i)
  {
    hide Resolve, Above;
    assert forall j :: 0 <= j <= i ==> rules[..n][j] == rules[j];
  }

  lemma AdmissibleLast(v: Json, rules: seq<Rule>)
    requires rules != []
    ensures var last := rules[|rules| - 1];
            Admissible(v, rules, |rules| - 1)
            <==> last.path != [] && Resolve(v, last.path).Some?
                 && !Shadowed(EditsOf(v, rules[..|rules| - 1]), [], Or([], Resolve(v, last.path)))
  {
    hide Resolve, Above, EditsOf, Shadowed;
    var n := |rules| - 1;
    assert forall j :: 0 <= j < n ==> rules[..n][j] == rules[j];
    if Resolve(v, rules[n].path).Some? { ShadowedByEarlier(v, rules[..n], Resolve(v, rules[n].path).value); }
  }

  lemma {:induction false} NoEdits(v: Json, here: Position)
    ensures Overlay(v, map[], here) == v
    decreases v
  {
    match v {
      case Array(items) =>
        forall i | 0 <= i < |items| ensures Overlay(items[i], map[], here + [Item(i)]) == items[i] {
          NoEdits(items[i], here + [Item(i)]);
        }
      case Object(members) =>
        forall k | k in members ensures Overlay(members[k], map[], here + [Field(k)]) == members[k] {
          NoEdits(members[k], here + [Field(k)]);
        }
      case _ =>
    }
  }

  // ---------- the frame ----------

  /** The subtree at a position. */
  function At(v: Json, p: Position): Option<Json>
  {
    if p == [] then Some(v) else if HasChild(v, p[0]) then At(Child(v, p[0]), p[1..]) else None
  }

  /** A segment selects a step: a number an item of an array, its text or a name the key of an object. */
  predicate Selects(v: Json, s: Segment, step: Step)
  {
    match v
    case Array(items) => step.Item? && s.Index? && s.index == step.n && step.n < |items|
    case Object(members) =>
      step.Field? && step.key in members && step.key == (match s case Name(name) => name case Index(i) => IntegerText(i))
    case _ => false
  }

  /** A path denotes the position whose every step its segment selects in the value that the steps before lead to. */
  lemma {:induction false} ResolveExactly(v: Json, path: seq<Segment>, p: Position)
    ensures
      Resolve(v, path) == Some(p) <==>
      && |p| == |path| && At(v, p).Some?
      && forall i :: 0 <= i < |p| ==> At(v, p[..i]).Some? && Selects(At(v, p[..i]).value, path[i], p[i])
    decreases |path|
  {
    hide Selects, StepOf;
    if path != [] && p != [] {
      StepExactly(v, path[0], p[0]);
      assert p[..0] == [];
      if HasChild(v, p[0]) {
        ResolveExactly(Child(v, p[0]), path[1..], p[1..]);
        if |p| == |path| { StepsBelow(v, path, p); }
        assert p == [p[0]] + p[1..];
      }
    }
  }

  lemma StepExactly(v: Json, s: Segment, step: Step)
    ensures StepOf(v, s) == Some(step) <==> Selects(v, s, step)
    ensures Selects(v, s, step) ==> HasChild(v, step)
  {
    hide IntegerText;
  }

  lemma StepsBelow(v: Json, path: seq<Segment>, p: Position)
    requires p != [] && path != [] && |p| == |path| && HasChild(v, p[0])
    ensures
      var c := Child(v, p[0]);
      (forall i :: 0 < i < |p| ==> At(v, p[..i]).Some? && Selects(At(v, p[..i]).value, path[i], p[i])) <==>
      forall i :: 0 <= i < |p[1..]| ==> At(c, p[1..][..i]).Some? && Selects(At(c, p[1..][..i]).value, path[1..][i], p[1..][i])
  {
    hide Selects;
    var c := Child(v, p[0]);
    forall i | 0 < i < |p| ensures At(v, p[..i]) == At(c, p[1..][..i - 1]) {
      assert p[..i][1..] == p[1..][..i - 1];
    }
    if forall i :: 0 < i < |p| ==> At(v, p[..i]).Some? && Selects(At(v, p[..i]).value, path[i], p[i]) {
      forall i | 0 <= i < |p[1..]|
        ensures At(c, p[1..][..i]).Some? && Selects(At(c, p[1..][..i]).value, path[1..][i], p[1..][i])
      {
        assert p[1..][i] == p[i + 1] && path[1..][i] == path[i + 1];
      }
    }
    if forall i :: 0 <= i < |p[1..]| ==> At(c, p[1..][..i]).Some? && Selects(At(c, p[1..][..i]).value, path[1..][i], p[1..][i]) {
      forall i | 0 < i < |p| ensures At(v, p[..i]).Some? && Selects(At(v, p[..i]).value, path[i], p[i]) {
        assert p[1..][i - 1] == p[i] && path[1..][i - 1] == path[i];
      }
    }
  }

  lemma {:induction false} ResolvedIsAt(v: Json, path: seq<Segment>)
    requires Resolve(v, path).Some?
    ensures At(v, Resolve(v, path).value).Some?
  {
    if path != [] {
      var s := StepOf(v, path[0]).value;
      ResolvedIsAt(Child(v, s), path[1..]);
      var p := Resolve(Child(v, s), path[1..]).value;
      assert ([s] + p)[1..] == p;
    }
  }

  lemma {:induction false} OverlayAt(v: Json, edits: Edits, here: Position, q: Position)
    requires At(v, q).Some? && !Shadowed(edits, here, q)
    ensures At(Overlay(v, edits, here), q) == Some(Overlay(At(v, q).value, edits, here + q))
    decreases |q|
  {
    if q == [] {
      assert here + q == here;
    } else {
      assert q == [q[0]] + q[1..];
      assert here !in edits by { assert here + q[..0] == here; }
      ShadowedBelow(edits, here, q[0], q[1..]);
      OverlayAt(Child(v, q[0]), edits, here + [q[0]], q[1..]);
      assert here + [q[0]] + q[1..] == here + q;
    }
  }

  lemma {:induction false} OverlayUntouched(v: Json, edits: Edits, here: Position)
    requires forall e :: e in edits ==> !(here <= e)
    ensures Overlay(v, edits, here) == v
    decreases v
  {
    assert here !in edits by { assert here <= here; }
    match v {
      case Array(items) =>
        forall i | 0 <= i < |items| ensures Overlay(items[i], edits, here + [Item(i)]) == items[i] {
          OverlayUntouched(items[i], edits, here + [Item(i)]);
        }
      case Object(members) =>
        forall k | k in members ensures Overlay(members[k], edits, here + [Field(k)]) == members[k] {
          OverlayUntouched(members[k], edits, here + [Field(k)]);
        }
      case _ =>
    }
  }

  /** Different rules denote positions of which none is at or above another. */
  ghost predicate PrefixFree(v: Json, rules: seq<Rule>)
  {
    forall r, s :: r in rules && s in rules && r != s && Resolve(v, r.path).Some? && Resolve(v, s.path).Some? ==>
      !(Resolve(v, r.path).value <= Resolve(v, s.path).value)
  }

  lemma {:induction false} EditValue(v: Json, rules: seq<Rule>, r: Rule)
    requires PrefixFree(v, rules) && r in rules && Resolve(v, r.path).Some?
    ensures Resolve(v, r.path).value in EditsOf(v, rules)
    ensures EditsOf(v, rules)[Resolve(v, r.path).value] == r.Replacement()
    decreases |rules|
  {
    hide Resolve;
    var n := |rules| - 1;
    var init, last := rules[..n], rules[n];
    assert forall x :: x in init ==> x in rules;
    if r in init {
      EditValue(v, init, r);
      assert last != r && Resolve(v, last.path).Some? ==> !(Resolve(v, last.path).value <= Resolve(v, r.path).value);
    }
  }

  lemma EditsFromRules(v: Json, rules: seq<Rule>, p: Position)
    ensures p in EditsOf(v, rules) ==> exists r :: r in rules && Resolve(v, r.path) == Some(p)
  {
    EditedPositions(v, rules, p);
    if p in EditsOf(v, rules) {
      var j :| 0 <= j < |rules| && Resolve(v, rules[j].path) == Some(p);
      assert rules[j] in rules;
    }
  }

  /** With prefix-free rules each replacement ends up at its path. */
  lemma ReplacementsAppear(v: Json, rules: seq<Rule>, r: Rule)
    requires RedactAll(v, rules).Ok? && PrefixFree(v, rules) && r in rules && Resolve(v, r.path).Some?
    ensures At(RedactAll(v, rules).value, Resolve(v, r.path).value) == Some(String(r.Replacement()))
  {
    hide Resolve, Overlay, At, EditsOf, RedactAll;
    var p, edits := Resolve(v, r.path).value, EditsOf(v, rules);
    var root: Position := [];
    RedactionIsOverlay(v, rules);
    ResolvedIsAt(v, r.path);
    EditValue(v, rules, r);
    forall n | 0 <= n < |p| ensures root + p[..n] !in edits {
      assert root + p[..n] == p[..n];
      EditsFromRules(v, rules, p[..n]);
      forall s | s in rules && Resolve(v, s.path).Some? ensures Resolve(v, s.path).value != p[..n] {
        assert s != r ==> !(Resolve(v, s.path).value <= p);
      }
    }
    OverlayAt(v, edits, root, p);
    assert root + p == p;
    EditedHere(At(v, p).value, edits, p);
  }

  lemma EditedHere(v: Json, edits: Edits, here: Position)
    requires here in edits
    ensures Overlay(v, edits, here) == String(edits[here])
  {
  }

  /** Every position that no rule is at, above or below keeps its subtree. */
  lemma RestIsUntouched(v: Json, rules: seq<Rule>, q: Position)
    requires RedactAll(v, rules).Ok? && At(v, q).Some?
    requires forall r :: r in rules && Resolve(v, r.path).Some? ==>
               !(Resolve(v, r.path).value <= q) && !(q <= Resolve(v, r.path).value)
    ensures At(RedactAll(v, rules).value, q) == At(v, q)
  {
    hide Resolve, Overlay, At, EditsOf, RedactAll;
    var edits := EditsOf(v, rules);
    var root: Position := [];
    RedactionIsOverlay(v, rules);
    forall e | e in edits ensures !(e <= q) && !(q <= e) { EditsFromRules(v, rules, e); }
    forall n | 0 <= n < |q| ensures root + q[..n] !in edits {
      assert root + q[..n] == q[..n] <= q;
    }
    OverlayAt(v, edits, root, q);
    assert root + q == q;
    OverlayUntouched(At(v, q).value, edits, q);
  }

  /** The order of prefix-free rules does not matter. */
  lemma RuleOrderIrrelevant(v: Json, a: seq<Rule>, b: seq<Rule>)
    requires PrefixFree(v, a) && forall r :: r in a <==> r in b
    ensures RedactAll(v, a).Ok? <==> RedactAll(v, b).Ok?
    ensures RedactAll(v, a).Ok? ==> RedactAll(v, a) == RedactAll(v, b)
  {
    hide Resolve, Overlay, EditsOf, RedactAll;
    RedactionIsOverlay(v, a);
    RedactionIsOverlay(v, b);
    SameEdits(v, a, b);
    AllAdmissible(v, a);
    AllAdmissible(v, b);
  }

  lemma AllAdmissible(v: Json, rules: seq<Rule>)
    requires PrefixFree(v, rules)
    ensures (forall i :: 0 <= i < |rules| ==> Admissible(v, rules, i))
            <==> forall r :: r in rules ==> r.path != [] && Resolve(v, r.path).Some?
  {
    hide Resolve;
    if forall r :: r in rules ==> r.path != [] && Resolve(v, r.path).Some? {
      forall i | 0 <= i < |rules| ensures Admissible(v, rules, i) {
        forall j | 0 <= j < i ensures !Above(Resolve(v, rules[j].path).value, Resolve(v, rules[i].path).value) {
          assert rules[j] in rules && rules[i] in rules;
        }
      }
    }
    if forall i :: 0 <= i < |rules| ==> Admissible(v, rules, i) {
      forall r | r in rules ensures r.path != [] && Resolve(v, r.path).Some? {
        var i :| 0 <= i < |rules| && rules[i] == r;
        assert Admissible(v, rules, i);
      }
    }
  }

  lemma SameEdits(v: Json, a: seq<Rule>, b: seq<Rule>)
    requires PrefixFree(v, a) && forall r :: r in a <==> r in b
    ensures EditsOf(v, a) == EditsOf(v, b)
  {
    hide Resolve, EditsOf;
    assert PrefixFree(v, b);
    var x, y := EditsOf(v, a), EditsOf(v, b);
    forall p | p in x ensures p in y && y[p] == x[p] { SameEdit(v, a, b, p); }
    forall p | p in y ensures p in x && x[p] == y[p] { SameEdit(v, b, a, p); }
    assert x.Keys == y.Keys;
  }

  lemma SameEdit(v: Json, a: seq<Rule>, b: seq<Rule>, p: Position)
    requires PrefixFree(v, a) && PrefixFree(v, b) && (forall r :: r in a <==> r in b) && p in EditsOf(v, a)
    ensures p in EditsOf(v, b) && EditsOf(v, b)[p] == EditsOf(v, a)[p]
  {
    hide Resolve, EditsOf, PrefixFree;
    EditsFromRules(v, a, p);
    var r :| r in a && Resolve(v, r.path) == Some(p);
    EditValue(v, a, r);
    EditValue(v, b, r);
  }
}
