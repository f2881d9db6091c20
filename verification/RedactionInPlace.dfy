/** Redaction as the program does it: a deep copy, a cursor for each rule, and an overwritten slot. */
module RedactionInPlace {
  import opened Outcomes
  import opened Utf16
  import opened JsonValue
  import opened Redaction
  import opened MutableJson

  // ---------- one edit of a value ----------

  /** The value with what stands at a position exchanged. */
  function Put(v: Json, p: Position, x: Json): Json
    requires At(v, p).Some?
    decreases |p|
  {
    if p == [] then x else WithChild(v, p[0], Put(Child(v, p[0]), p[1..], x))
  }

  /** A resolved path, one segment longer. */
  lemma {:induction false} ResolveFurther(v: Json, path: seq<Segment>, p: Position)
    requires path != [] && Resolve(v, path[..|path| - 1]) == Some(p)
    ensures At(v, p).Some?
    ensures StepOf(At(v, p).value, path[|path| - 1]).Some? ==>
              Resolve(v, path) == Some(p + [StepOf(At(v, p).value, path[|path| - 1]).value])
    decreases |path|
  {
    hide StepOf;
    if |path| == 1 {
      LastSegment(v, path);
      assert path[..|path| - 1] == path[..0] && forall s: Step :: [] + [s] == [s];
    } else {
      var init := path[..|path| - 1];
      var s := StepOf(v, path[0]).value;
      StepIsChild(v, path[0]);
      assert init[1..] == path[1..][..|path| - 2];
      var q := Resolve(Child(v, s), init[1..]).value;
      ResolveFurther(Child(v, s), path[1..], q);
      assert p == [s] + q && p[1..] == q;
      if StepOf(At(v, p).value, path[|path| - 1]).Some? {
        var last := StepOf(At(v, p).value, path[|path| - 1]).value;
        assert [s] + (q + [last]) == p + [last];
      }
    }
  }

  lemma LastSegment(v: Json, path: seq<Segment>)
    requires |path| == 1
    ensures Resolve(v, path[..0]) == Some([])
    ensures StepOf(v, path[0]).Some? ==> Resolve(v, path) == Some([StepOf(v, path[0]).value])
  {
    if StepOf(v, path[0]).Some? {
      var s := StepOf(v, path[0]).value;
      assert path[1..] == [] && Resolve(Child(v, s), path[1..]) == Some([]) && [s] + [] == [s];
    }
  }

  /** Where the path breaks off, replacing finds it missing; where it goes through, replacing puts the leaf there. */
  lemma {:induction false} ReplaceAtLeaf(v: Json, path: seq<Segment>, n: nat, p: Position, x: Json)
    requires n < |path| && Resolve(v, path[..n]) == Some(p)
    ensures At(v, p).Some?
    ensures StepOf(At(v, p).value, path[n]).None? ==> Replace(v, path, x) == Err(PathMissing)
    ensures n == |path| - 1 && StepOf(At(v, p).value, path[n]).Some? ==>
              var q := p + [StepOf(At(v, p).value, path[n]).value]; At(v, q).Some? && Replace(v, path, x) == Ok(Put(v, q, x))
    decreases n
  {
    hide StepOf;
    if n == 0 {
      assert path[..0] == [];
      assert p == [];
      if |path| == 1 && StepOf(v, path[0]).Some? {
        var s := StepOf(v, path[0]).value;
        StepIsChild(v, path[0]);
        assert [] + [s] == [s] && [s][1..] == [];
      }
    } else {
      var s := StepOf(v, path[0]).value;
      StepIsChild(v, path[0]);
      assert path[..n][1..] == path[1..][..n - 1];
      var q := Resolve(Child(v, s), path[1..][..n - 1]).value;
      assert p == [s] + q && p[1..] == q;
      ReplaceAtLeaf(Child(v, s), path[1..], n - 1, q, x);
      if n == |path| - 1 && StepOf(At(v, p).value, path[n]).Some? {
        var last := StepOf(At(v, p).value, path[n]).value;
        assert p + [last] == [s] + (q + [last]) && (p + [last])[1..] == q + [last];
      }
    }
  }

  /** What an edit leaves at every position that is not at or below it. */
  lemma {:induction false} PutElsewhere(v: Json, p: Position, x: Json, q: Position)
    requires At(v, p).Some? && !(p <= q)
    ensures q <= p ==>
      && At(v, q).Some? && |q| < |p| && At(At(v, q).value, p[|q|..]).Some?
      && At(Put(v, p, x), q) == Some(Put(At(v, q).value, p[|q|..], x))
    ensures !(q <= p) ==> At(Put(v, p, x), q) == At(v, q)
    decreases |p|
  {
    if q == [] {
      assert p[0..] == p;
    } else if p[0] == q[0] {
      assert p == [p[0]] + p[1..] && q == [q[0]] + q[1..];
      PutElsewhere(Child(v, p[0]), p[1..], x, q[1..]);
      assert q <= p <==> q[1..] <= p[1..];
      assert q <= p ==> p[1..][|q[1..]|..] == p[|q|..];
      WithChildAt(v, p[0], Put(Child(v, p[0]), p[1..], x), q[0]);
    } else {
      WithChildAt(v, p[0], Put(Child(v, p[0]), p[1..], x), q[0]);
    }
  }

  lemma WithChildAt(v: Json, s: Step, c: Json, t: Step)
    requires HasChild(v, s)
    ensures HasChild(WithChild(v, s, c), t) <==> HasChild(v, t)
    ensures HasChild(v, t) ==> Child(WithChild(v, s, c), t) == if t == s then c else Child(v, t)
  {
  }

  /** At the edit stands the new value, and below a new primitive nothing. */
  lemma {:induction false} PutHere(v: Json, p: Position, x: Json, q: Position)
    requires At(v, p).Some? && p <= q
    ensures At(Put(v, p, x), q) == At(x, q[|p|..])
    decreases |p|
  {
    if p != [] {
      PutHere(Child(v, p[0]), p[1..], x, q[1..]);
      assert p[1..] <= q[1..] && q[1..][|p[1..]|..] == q[|p|..];
      WithChildAt(v, p[0], Put(Child(v, p[0]), p[1..], x), q[0]);
    } else {
      assert q[0..] == q;
    }
  }

  // ---------- one edit of a tree ----------

  predicate HasSlot(c: Contents, s: Step)
  {
    match s
    case Item(n) => c.Items? && n < |c.items|
    case Field(k) => c.Members? && k in c.members
  }

  function ValueIn(c: Contents, s: Step): Value
    requires HasSlot(c, s)
  {
    match s case Item(n) => c.items[n] case Field(k) => c.members[k]
  }

  function Written(c: Contents, s: Step, v: Value): Contents
    requires HasSlot(c, s)
  {
    match s case Item(n) => Items(c.items[n := v]) case Field(k) => Members(c.members[k := v])
  }

  predicate Fits(c: Contents, j: Json)
  {
    || (j.Array? && c.Items? && |c.items| == |j.items|)
    || (j.Object? && c.Members? && c.members.Keys == j.members.Keys)
  }

  lemma HoldsBySteps(c: Contents, j: Json, p: Position, at: Layout)
    ensures Fits(c, j) ==> forall s :: HasSlot(c, s) <==> HasChild(j, s)
    ensures Holds(c, j, p, at) <==> Fits(c, j) && forall s :: HasChild(j, s) ==> Slot(ValueIn(c, s), Child(j, s), p + [s], at)
  {
    hide Slot;
    if Fits(c, j) && forall s :: HasChild(j, s) ==> Slot(ValueIn(c, s), Child(j, s), p + [s], at) {
      match j {
        case Array(items) =>
          forall i | 0 <= i < |items| ensures Slot(c.items[i], items[i], p + [Item(i)], at) { assert HasChild(j, Item(i)); }
        case Object(members) =>
          forall k | k in members ensures Slot(c.members[k], members[k], p + [Field(k)], at) { assert HasChild(j, Field(k)); }
      }
    }
  }

  /** The layout without the nodes at or below a position. */
  function Pruned(at: Layout, e: Position): Layout { map q | q in at && !(e <= q) :: at[q] }

  /** A container stays one when something strictly below it is exchanged. */
  lemma PutContainer(v: Json, p: Position, x: Json)
    requires At(v, p).Some? && p != []
    ensures Container(v) && Container(Put(v, p, x))
    ensures forall c :: Fits(c, v) <==> Fits(c, Put(v, p, x))
    ensures forall s :: HasChild(v, s) <==> HasChild(Put(v, p, x), s)
    ensures forall s :: HasChild(v, s) ==>
      Child(Put(v, p, x), s) == if s == p[0] then Put(Child(v, s), p[1..], x) else Child(v, s)
  {
    forall s { WithChildAt(v, p[0], Put(Child(v, p[0]), p[1..], x), s); }
  }

  /** The nodes away from the edit stand for their part of the edited value. */
  lemma StandsElsewhere(root: Json, p: Position, s: Step, x: Json, q: Position, c: Contents, at: Layout)
    requires At(root, p + [s]).Some? && Stands(root, q, c, at) && !(p + [s] <= q) && q != p
    ensures Stands(Put(root, p + [s], x), q, c, Pruned(at, p + [s]))
  {
    hide At, Holds, Put;
    var e, after := p + [s], Pruned(at, p + [s]);
    var j := At(root, q).value;
    PutElsewhere(root, e, x, q);
    HoldsBySteps(c, j, q, at);
    if q <= e {
      var rest := e[|q|..];
      PutContainer(j, rest, x);
      HoldsBySteps(c, Put(j, rest, x), q, after);
      forall t | HasChild(j, t) ensures Slot(ValueIn(c, t), Child(Put(j, rest, x), t), q + [t], after) {
        BesideEdit(p, s, q, t);
        if t == rest[0] {
          DeeperPut(j, rest, x);
        }
      }
    } else {
      HoldsBySteps(c, j, q, after);
      forall t | HasChild(j, t) ensures Slot(ValueIn(c, t), Child(j, t), q + [t], after) { BesideEdit(p, s, q, t); }
    }
  }

  /** A child of another position is not at or below the edit. */
  lemma BesideEdit(p: Position, s: Step, q: Position, t: Step)
    requires !(p + [s] <= q) && q != p
    ensures !(p + [s] <= q + [t])
  {
    assert p + [s] <= q ==> p + [s] <= q + [t];
    assert |p| < |q| ==> (q + [t])[..|p| + 1] == q[..|p| + 1];
    assert |q| == |p| ==> (q + [t])[..|p|] == q;
    assert (p + [s])[..|p|] == p;
  }

  lemma DeeperPut(j: Json, rest: Position, x: Json)
    requires |rest| > 1 && At(j, rest).Some?
    ensures Container(Child(j, rest[0])) && Container(Put(Child(j, rest[0]), rest[1..], x))
  {
    PutContainer(Child(j, rest[0]), rest[1..], x);
  }

  /** The node whose slot is overwritten stands for the edited parent. */
  lemma StandsWritten(root: Json, p: Position, s: Step, x: Json, c: Contents, at: Layout)
    requires At(root, p + [s]).Some? && Stands(root, p, c, at) && HasSlot(c, s) && !Container(x)
    ensures Stands(Put(root, p + [s], x), p, Written(c, s, Primitive(x)), Pruned(at, p + [s]))
  {
    hide At, Holds, Put;
    var e, after, w := p + [s], Pruned(at, p + [s]), Written(c, s, Primitive(x));
    var j := At(root, p).value;
    PutElsewhere(root, e, x, p);
    assert e[|p|..] == [s];
    PutContainer(j, [s], x);
    PutOne(j, s, x);
    HoldsBySteps(c, j, p, at);
    HoldsBySteps(w, Put(j, [s], x), p, after);
    forall t | HasChild(j, t) ensures Slot(ValueIn(w, t), Child(Put(j, [s], x), t), p + [t], after) {
      assert t != s ==> !(e <= p + [t]) by { assert (p + [t])[|p|] == t && e[|p|] == s; }
    }
  }

  lemma PutOne(j: Json, s: Step, x: Json)
    requires At(j, [s]).Some?
    ensures Put(Child(j, s), [s][1..], x) == x
  {
  }

  /** The layout covers the edited value. */
  lemma PrunedCovers(root: Json, e: Position, x: Json, at: Layout)
    requires At(root, e).Some? && !Container(x) && Covers(root, [], at)
    ensures Covers(Put(root, e, x), [], Pruned(at, e))
  {
    hide Put, At;
    forall q: Position ensures q in Pruned(at, e) <==> IsContainerAt(Put(root, e, x), q) {
      assert [] <= q;
      if e <= q {
        PutHere(root, e, x, q);
        NothingIn(x, q[|e|..]);
      } else {
        PutElsewhere(root, e, x, q);
        if q <= e { PutContainer(At(root, q).value, e[|q|..], x); }
      }
    }
  }

  lemma NothingIn(x: Json, q: Position)
    requires !Container(x)
    ensures !IsContainerAt(x, q)
  {
  }

  // ---------- the program ----------

  /** Overwriting one slot of one node turns the tree of a value into the tree of the edited value. */
  lemma EditedTree(root: Json, p: Position, s: Step, x: Json, v: Value, at: Layout, before: map<Position, Contents>)
    requires At(root, p + [s]).Some? && !Container(x) && p in at && before.Keys == at.Keys
    requires Slot(v, root, [], at) && Covers(root, [], at) && forall q :: q in at ==> Stands(root, q, before[q], at)
    requires HasSlot(before[p], s)
    requires forall q :: q in at ==>
      at[q].contents == if q == p then Written(before[p], s, Primitive(x)) else before[q]
    ensures Tree(Put(root, p + [s], x), [], v, Pruned(at, p + [s]))
  {
    hide At, Put, Stands, Covers, Written;
    var e, after := p + [s], Pruned(at, p + [s]);
    PrunedCovers(root, e, x, at);
    StandsWritten(root, p, s, x, before[p], at);
    forall q | q in after ensures Stands(Put(root, e, x), q, after[q].contents, after) {
      if q != p { StandsElsewhere(root, p, s, x, q, before[q], at); }
    }
    RootSlot(root, e, x, v, at);
  }

  lemma RootSlot(root: Json, e: Position, x: Json, v: Value, at: Layout)
    requires At(root, e).Some? && e != [] && Slot(v, root, [], at)
    ensures At(Put(root, e, x), []).Some? && Slot(v, At(Put(root, e, x), []).value, [], Pruned(at, e))
  {
    PutContainer(root, e, x);
  }

  /** A value at a position of a tree has the child that a segment selects exactly where the program finds it. */
  lemma Selects(root: Json, v: Value, at: Layout, p: Position, current: Value, s: Segment)
    requires Tree(root, [], v, at) && At(root, p).Some? && Slot(current, At(root, p).value, p, at)
    ensures var step := StepOf(At(root, p).value, s);
            match current
            case Primitive(_) => step == None
            case Reference(node) =>
              match node.contents
              case Items(items) => step == if s.Index? && 0 <= s.index < |items| then Some(Item(s.index)) else None
              case Members(members) => step == if KeyText(s) in members then Some(Field(KeyText(s))) else None
    ensures current.Reference? ==> p in at && at[p] == current.node && Stands(root, p, current.node.contents, at)
    ensures StepOf(At(root, p).value, s).Some? ==>
      var step := StepOf(At(root, p).value, s).value;
      && current.Reference? && HasSlot(current.node.contents, step) && At(root, p + [step]).Some?
      && Slot(ValueIn(current.node.contents, step), At(root, p + [step]).value, p + [step], at)
  {
    hide At, KeyText;
    if StepOf(At(root, p).value, s).Some? { AtBelow(root, p, StepOf(At(root, p).value, s).value); }
  }

  /** One rule: the cursor goes down to the parent of the leaf, whose slot is overwritten. */
  method ApplyRule(output: Value, rule: Rule, ghost root: Json, ghost at: Layout)
    returns (error: Option<RedactionError>, ghost after: Layout)
    requires Tree(root, [], output, at)
    modifies at.Values
    ensures match Replace(root, rule.path, String(rule.Replacement()))
            case Err(e) => error == Some(e) && after == at && unchanged(at.Values)
            case Ok(edited) => error == None && Tree(edited, [], output, after) && Extends(at, after)
  {
    hide At, Tree, Resolve, Slot, StepOf, KeyText, Stands, Covers;
    if |rule.path| == 0 { return Some(RootForbidden), at; }
    ghost var x := String(rule.Replacement());
    var current := output;
    ghost var p: Position := [];
    AtRoot(root, rule.path, output, at);
    for k := 0 to |rule.path| - 1
      modifies {}
      invariant Resolve(root, rule.path[..k]) == Some(p) && At(root, p).Some? && Slot(current, At(root, p).value, p, at)
    {
      var segment := rule.path[k];
      Selects(root, output, at, p, current, segment);
      ReplaceAtLeaf(root, rule.path, k, p, x);
      assert rule.path[..k + 1][..k] == rule.path[..k];
      ResolveFurther(root, rule.path[..k + 1], p);
      if current.Primitive? { return Some(PathMissing), at; }
      match current.node.contents {
        case Items(items) =>
          if !(segment.Index? && 0 <= segment.index < |items|) { return Some(PathMissing), at; }
          current, p := items[segment.index], p + [Item(segment.index)];
        case Members(members) =>
          if KeyText(segment) !in members { return Some(PathMissing), at; }
          current, p := members[KeyText(segment)], p + [Field(KeyText(segment))];
      }
    }
    var leaf := rule.path[|rule.path| - 1];
    Selects(root, output, at, p, current, leaf);
    ReplaceAtLeaf(root, rule.path, |rule.path| - 1, p, x);
    if current.Primitive? { return Some(PathMissing), at; }
    ghost var before := map q | q in at :: at[q].contents;
    var node := current.node;
    match node.contents {
      case Items(items) =>
        if !(leaf.Index? && 0 <= leaf.index < |items|) { return Some(PathMissing), at; }
        node.contents := Items(items[leaf.index := Primitive(String(rule.Replacement()))]);
        EditedTree(root, p, Item(leaf.index), x, output, at, before);
        return None, Pruned(at, p + [Item(leaf.index)]);
      case Members(members) =>
        if KeyText(leaf) !in members { return Some(PathMissing), at; }
        node.contents := Members(members[KeyText(leaf) := Primitive(String(rule.Replacement()))]);
        EditedTree(root, p, Field(KeyText(leaf)), x, output, at, before);
        return None, Pruned(at, p + [Field(KeyText(leaf))]);
    }
  }

  lemma AtRoot(root: Json, path: seq<Segment>, v: Value, at: Layout)
    requires Tree(root, [], v, at)
    ensures Resolve(root, path[..0]) == Some([]) && At(root, []) == Some(root)
    ensures Slot(v, root, [], at) && Covers(root, [], at) && forall q :: q in at ==> Stands(root, q, at[q].contents, at)
  {
  }

  lemma {:induction false} ErrorStays(v: Json, rules: seq<Rule>, n: nat)
    requires n <= |rules| && RedactAll(v, rules[..n]).Err?
    ensures RedactAll(v, rules) == RedactAll(v, rules[..n])
    decreases |rules| - n
  {
    if n < |rules| {
      assert rules[..n + 1][..n] == rules[..n];
      ErrorStays(v, rules, n + 1);
    } else {
      assert rules[..n] == rules;
    }
  }

  /**
   `redactTypedFields`: a tree of new nodes that stands for the redacted value, or the first error. The nodes of the
   input are not written, whatever they share.
   */
  method RedactTypedFields(input: Value, rules: seq<Rule>, ghost j: Json, ghost nodes: set<Node>)
    returns (r: Result<Value, RedactionError>, ghost at: Layout)
    requires Denotes(input, j, nodes)
    ensures Denotes(input, j, nodes) && unchanged(nodes)
    ensures match RedactAll(j, rules)
            case Err(e) => r == Err(e)
            case Ok(redacted) => r.Ok? && Denotes(r.value, redacted, at.Values) && Tree(redacted, [], r.value, at)
    ensures forall p :: p in at ==> fresh(at[p])
  {
    hide Replace, Denotes, Tree;
    var output;
    output, at := Clone(input, j, [], nodes);
    ghost var root := j;
    for i := 0 to |rules|
      invariant RedactAll(j, rules[..i]) == Ok(root) && Tree(root, [], output, at) && forall p :: p in at ==> fresh(at[p])
    {
      assert rules[..i + 1][..i] == rules[..i];
      var error, after := ApplyRule(output, rules[i], root, at);
      if error.Some? {
        ErrorStays(j, rules, i + 1);
        return Err(error.value), at;
      }
      root, at := Replace(root, rules[i].path, String(rules[i].Replacement())).value, after;
    }
    assert rules[..|rules|] == rules;
    WholeDenotes(root, output, at);
    return Ok(output), at;
  }

  lemma WholeDenotes(root: Json, v: Value, at: Layout)
    requires Tree(root, [], v, at)
    ensures Denotes(v, root, at.Values)
  {
    TreeDenotes(root, [], v, at, [], v);
  }
}
