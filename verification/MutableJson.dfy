/** JSON values on the heap: arrays and objects are nodes that can be shared and overwritten. */
module MutableJson {
  import opened Outcomes
  import opened Utf16
  import opened JsonValue
  import opened Redaction

  datatype Value = Primitive(value: Json) | Reference(node: Node)

  datatype Contents = Items(items: seq<Value>) | Members(members: map<Text, Value>)

  class Node {
    var contents: Contents

    constructor (contents: Contents)
      ensures this.contents == contents
    {
      this.contents := contents;
    }
  }

  predicate Container(j: Json) { j.Array? || j.Object? }

  /** The value stands for the JSON value; its nodes are among those given, and may be shared. */
  ghost predicate Denotes(v: Value, j: Json, nodes: set<Node>)
    reads nodes
    decreases j
  {
    match v
    case Primitive(x) => x == j && !Container(j)
    case Reference(n) =>
      && n in nodes
      && match j
         case Array(items) =>
           && n.contents.Items? && |n.contents.items| == |items|
           && forall i :: 0 <= i < |items| ==> Denotes(n.contents.items[i], items[i], nodes)
         case Object(members) =>
           && n.contents.Members? && n.contents.members.Keys == members.Keys
           && forall k :: k in members ==> Denotes(n.contents.members[k], members[k], nodes)
         case _ => false
  }

  // ---------- trees ----------

  /** The node at each position of an array or object. */
  type Layout = map<Position, Node>

  /** The value found at a position: the node laid out there, or the primitive itself. */
  ghost predicate Slot(v: Value, j: Json, p: Position, at: Layout)
  {
    if Container(j) then p in at && v == Reference(at[p]) else v == Primitive(j)
  }

  /** The contents of the node at a position. */
  ghost predicate Holds(c: Contents, j: Json, p: Position, at: Layout)
  {
    match j
    case Array(items) =>
      c.Items? && |c.items| == |items| && forall i :: 0 <= i < |items| ==> Slot(c.items[i], items[i], p + [Item(i)], at)
    case Object(members) =>
      && c.Members? && c.members.Keys == members.Keys
      && forall k :: k in members ==> Slot(c.members[k], members[k], p + [Field(k)], at)
    case _ => false
  }

  /** The contents of the node at a position of the whole value. */
  ghost predicate Stands(root: Json, p: Position, c: Contents, at: Layout)
  {
    At(root, p).Some? && Holds(c, At(root, p).value, p, at)
  }

  ghost predicate IsContainerAt(root: Json, p: Position)
  {
    At(root, p).Some? && Container(At(root, p).value)
  }

  /** The layout has a node of its own for every array and object at or below a position, and for nothing else. */
  ghost predicate Covers(root: Json, here: Position, at: Layout)
  {
    && (forall p :: p in at <==> here <= p && IsContainerAt(root, p))
    && forall p, q :: p in at && q in at && p != q ==> at[p] != at[q]
  }

  /** The value is the part of the JSON value at a position, as a tree of unshared nodes. */
  ghost predicate Tree(root: Json, here: Position, v: Value, at: Layout)
    reads at.Values
  {
    && At(root, here).Some? && Slot(v, At(root, here).value, here, at) && Covers(root, here, at)
    && forall p :: p in at ==> Stands(root, p, at[p].contents, at)
  }

  lemma {:induction false} AtBelow(root: Json, here: Position, s: Step)
    requires At(root, here).Some?
    ensures At(root, here + [s]) == if HasChild(At(root, here).value, s) then Some(Child(At(root, here).value, s)) else None
    decreases |here|
  {
    if here == [] {
      assert here + [s] == [s] && [s][1..] == [];
    } else {
      AtBelow(Child(root, here[0]), here[1..], s);
      assert (here + [s])[1..] == here[1..] + [s];
    }
  }

  /** Above a position that is there, every position is there. */
  lemma {:induction false} AtAbove(root: Json, p: Position, n: nat)
    requires At(root, p).Some? && n <= |p|
    ensures At(root, p[..n]).Some?
    ensures n < |p| ==> HasChild(At(root, p[..n]).value, p[n])
    decreases n
  {
    if n > 0 {
      AtAbove(Child(root, p[0]), p[1..], n - 1);
      assert p[..n][1..] == p[1..][..n - 1];
    }
  }

  lemma TreeDenotes(root: Json, here: Position, v: Value, at: Layout, p: Position, w: Value)
    requires Tree(root, here, v, at) && here <= p && At(root, p).Some? && Slot(w, At(root, p).value, p, at)
    ensures Denotes(w, At(root, p).value, at.Values)
    decreases At(root, p).value
  {
    hide At, IsContainerAt;
    match At(root, p).value {
      case Array(items) =>
        forall i | 0 <= i < |items| ensures Denotes(at[p].contents.items[i], items[i], at.Values) {
          AtBelow(root, p, Item(i));
          TreeDenotes(root, here, v, at, p + [Item(i)], at[p].contents.items[i]);
        }
      case Object(members) =>
        forall k | k in members ensures Denotes(at[p].contents.members[k], members[k], at.Values) {
          AtBelow(root, p, Field(k));
          TreeDenotes(root, here, v, at, p + [Field(k)], at[p].contents.members[k]);
        }
      case _ =>
    }
  }

  // ---------- the deep copy ----------

  /** The part of a tree below some of the children of a position. */
  ghost predicate Part(root: Json, here: Position, done: set<Step>, at: Layout)
    reads at.Values
  {
    && (forall p :: p in at <==> here < p && p[|here|] in done && IsContainerAt(root, p))
    && (forall p, q :: p in at && q in at && p != q ==> at[p] != at[q])
    && forall p :: p in at ==> Stands(root, p, at[p].contents, at)
  }

  ghost predicate Extends(more: Layout, at: Layout)
  {
    forall p :: p in at ==> p in more && more[p] == at[p]
  }

  lemma StandsInMore(root: Json, p: Position, c: Contents, at: Layout, more: Layout)
    requires Stands(root, p, c, at) && Extends(more, at)
    ensures Stands(root, p, c, more)
  {
    hide At;
  }

  lemma SlotInMore(v: Value, j: Json, p: Position, at: Layout, more: Layout)
    requires Slot(v, j, p, at) && Extends(more, at)
    ensures Slot(v, j, p, more)
  {
  }

  lemma PrefixStep(here: Position, s: Step, p: Position)
    ensures here + [s] <= p <==> here < p && p[|here|] == s
  {
  }

  /** One more child, copied to nodes of its own. */
  lemma OneMoreChild(root: Json, here: Position, done: set<Step>, at: Layout, s: Step, v: Value, child: Layout)
    requires Part(root, here, done, at) && s !in done && Tree(root, here + [s], v, child)
    requires forall p, q :: p in at && q in child ==> at[p] != child[q]
    ensures Part(root, here, done + {s}, at + child) && Extends(at + child, at)
    ensures Slot(v, At(root, here + [s]).value, here + [s], at + child)
  {
    hide IsContainerAt, Slot, Stands;
    var both := at + child;
    forall p ensures here + [s] <= p <==> here < p && p[|here|] == s { PrefixStep(here, s, p); }
    assert forall p :: p in at ==> p !in child;
    SlotInMore(v, At(root, here + [s]).value, here + [s], child, both);
    forall p | p in both ensures Stands(root, p, both[p].contents, both) {
      if p in at {
        StandsInMore(root, p, at[p].contents, at, both);
      } else {
        StandsInMore(root, p, child[p].contents, child, both);
      }
    }
  }

  /** All children copied, and a node for the parent. */
  lemma AllChildren(root: Json, here: Position, done: set<Step>, at: Layout, node: Node)
    requires IsContainerAt(root, here) && Part(root, here, done, at) && forall p :: p in at ==> at[p] != node
    requires forall s :: HasChild(At(root, here).value, s) ==> s in done
    requires Holds(node.contents, At(root, here).value, here, at)
    ensures Tree(root, here, Reference(node), at[here := node])
  {
    hide Slot, Stands, Holds, Covers, Container;
    var all := at[here := node];
    AllCovered(root, here, done, at, node);
    SlotOfNode(At(root, here).value, here, all);
    StandsHere(root, here, node.contents, at);
    forall p | p in all ensures Stands(root, p, all[p].contents, all) {
      StandsInMore(root, p, all[p].contents, at, all);
    }
  }

  lemma AllCovered(root: Json, here: Position, done: set<Step>, at: Layout, node: Node)
    requires IsContainerAt(root, here) && Part(root, here, done, at) && forall p :: p in at ==> at[p] != node
    requires forall s :: HasChild(At(root, here).value, s) ==> s in done
    ensures here !in at && Covers(root, here, at[here := node])
  {
    hide Stands;
    forall p | here <= p && IsContainerAt(root, p) ensures p == here || p in at {
      if p != here { ProperBelow(root, here, p); }
    }
  }

  /** A position strictly below another is below one of its children. */
  lemma ProperBelow(root: Json, here: Position, p: Position)
    requires here <= p && p != here && At(root, p).Some?
    ensures here < p && At(root, here).Some? && HasChild(At(root, here).value, p[|here|])
  {
    assert p[..|here|] == here;
    assert |p| == |here| ==> p == here;
    AtAbove(root, p, |here|);
  }

  lemma StandsHere(root: Json, p: Position, c: Contents, at: Layout)
    requires At(root, p).Some? && Holds(c, At(root, p).value, p, at)
    ensures Stands(root, p, c, at)
  {
  }

  lemma SlotOfNode(j: Json, p: Position, at: Layout)
    requires Container(j) && p in at
    ensures Slot(Reference(at[p]), j, p, at)
  {
  }

  /** Below a primitive there is nothing. */
  lemma PrimitiveTree(root: Json, here: Position)
    requires At(root, here).Some? && !Container(At(root, here).value)
    ensures Tree(root, here, Primitive(At(root, here).value), map[])
  {
    forall p | here <= p && p != here && At(root, p).Some? ensures false { ProperBelow(root, here, p); }
  }

  /** `clone`: copies every array and object to a node of its own, however the argument shares them. */
  method Clone(value: Value, ghost root: Json, ghost here: Position, ghost nodes: set<Node>)
    returns (copy: Value, ghost at: Layout)
    requires At(root, here).Some? && Denotes(value, At(root, here).value, nodes)
    ensures Tree(root, here, copy, at) && forall p :: p in at ==> fresh(at[p])
    decreases At(root, here).value
  {
    match value {
      case Primitive(_) =>
        PrimitiveTree(root, here);
        return value, map[];
      case Reference(node) =>
        match node.contents {
          case Items(_) => copy, at := CloneItems(node, root, here, nodes);
          case Members(_) => copy, at := CloneMembers(node, root, here, nodes);
        }
    }
  }

  function ItemSteps(n: nat): set<Step> { set i: nat | i < n :: Item(i) }

  method CloneItems(node: Node, ghost root: Json, ghost here: Position, ghost nodes: set<Node>)
    returns (copy: Value, ghost at: Layout)
    requires At(root, here).Some? && Denotes(Reference(node), At(root, here).value, nodes) && node.contents.Items?
    ensures Tree(root, here, copy, at) && forall p :: p in at ==> fresh(at[p])
    decreases At(root, here).value, 0
  {
    hide At, Part, Tree;
    var source := node.contents.items;
    ghost var parent := At(root, here).value;
    var items: seq<Value> := [];
    at := map[];
    NoChildren(root, here);
    for i := 0 to |source|
      invariant |items| == i && Part(root, here, ItemSteps(i), at) && forall p :: p in at ==> fresh(at[p])
      invariant forall k :: 0 <= k < i ==> Slot(items[k], parent.items[k], here + [Item(k)], at)
    {
      AtBelow(root, here, Item(i));
      var item, child := Clone(source[i], root, here + [Item(i)], nodes);
      OneMoreChild(root, here, ItemSteps(i), at, Item(i), item, child);
      assert ItemSteps(i) + {Item(i)} == ItemSteps(i + 1);
      at := at + child;
      items := items + [item];
    }
    var made := new Node(Items(items));
    ChildrenOf(parent);
    AllChildren(root, here, ItemSteps(|source|), at, made);
    return Reference(made), at[here := made];
  }

  lemma NoChildren(root: Json, here: Position)
    ensures Part(root, here, {}, map[]) && ItemSteps(0) == {}
  {
  }

  function FieldSteps(keys: set<Text>): set<Step> { set k | k in keys :: Field(k) }

  lemma ChildrenOf(j: Json)
    ensures j.Array? ==> forall s :: HasChild(j, s) ==> s in ItemSteps(|j.items|)
    ensures j.Object? ==> forall s :: HasChild(j, s) ==> s in FieldSteps(j.members.Keys)
  {
  }

  /** The members copied so far. */
  ghost predicate Filled(members: map<Text, Value>, j: Json, here: Position, at: Layout)
  {
    && j.Object? && members.Keys <= j.members.Keys
    && forall k :: k in members ==> Slot(members[k], j.members[k], here + [Field(k)], at)
  }

  lemma OneMoreMember(members: map<Text, Value>, j: Json, here: Position, at: Layout, key: Text, v: Value, more: Layout)
    requires Filled(members, j, here, at) && Extends(more, at)
    requires key in j.members && Slot(v, j.members[key], here + [Field(key)], more)
    ensures Filled(members[key := v], j, here, more)
  {
    forall k | k in members ensures Slot(members[k], j.members[k], here + [Field(k)], more) {
      SlotInMore(members[k], j.members[k], here + [Field(k)], at, more);
    }
  }

  lemma FilledHolds(members: map<Text, Value>, j: Json, here: Position, at: Layout)
    requires Filled(members, j, here, at) && members.Keys == j.members.Keys
    ensures Holds(Members(members), j, here, at)
  {
  }

  lemma MemberDenotes(node: Node, j: Json, nodes: set<Node>)
    requires Denotes(Reference(node), j, nodes) && node.contents.Members?
    ensures j.Object? && j.members.Keys == node.contents.members.Keys
    ensures forall k :: k in j.members ==> Denotes(node.contents.members[k], j.members[k], nodes) && j.members[k] < j
  {
  }

  /** One entry of an object, copied. */
  method CloneMember(node: Node, key: Text, members: map<Text, Value>, ghost root: Json, ghost here: Position,
          ghost nodes: set<Node>, ghost before: Layout) returns (more: map<Text, Value>, ghost at: Layout)
    requires At(root, here).Some? && Denotes(Reference(node), At(root, here).value, nodes) && node.contents.Members?
    requires key in node.contents.members && key !in members && Filled(members, At(root, here).value, here, before)
    requires Part(root, here, FieldSteps(members.Keys), before)
    ensures more.Keys == members.Keys + {key} && Filled(more, At(root, here).value, here, at)
    ensures Part(root, here, FieldSteps(more.Keys), at)
    ensures forall p :: p in at ==> (p in before && at[p] == before[p]) || fresh(at[p])
    decreases At(root, here).value, 0
  {
    hide At, Part, Tree, FieldSteps, Denotes, Slot, Filled, Holds, Extends;
    ghost var parent := At(root, here).value;
    MemberDenotes(node, parent, nodes);
    AtBelow(root, here, Field(key));
    var member, child := Clone(node.contents.members[key], root, here + [Field(key)], nodes);
    OneMoreField(members.Keys, key);
    OneMoreChild(root, here, FieldSteps(members.Keys), before, Field(key), member, child);
    OneMoreMember(members, parent, here, before, key, member, before + child);
    at := before + child;
    more := members[key := member];
    assert more.Keys == members.Keys + {key};
  }

  method CloneMembers(node: Node, ghost root: Json, ghost here: Position, ghost nodes: set<Node>)
    returns (copy: Value, ghost at: Layout)
    requires At(root, here).Some? && Denotes(Reference(node), At(root, here).value, nodes) && node.contents.Members?
    ensures Tree(root, here, copy, at) && forall p :: p in at ==> fresh(at[p])
    decreases At(root, here).value, 1
  {
    hide At, Part, Tree, FieldSteps, Denotes, Slot, Filled, Holds, Extends;
    ghost var parent := At(root, here).value;
    MemberDenotes(node, parent, nodes);
    var source := node.contents.members;
    var members: map<Text, Value> := map[];
    at := map[];
    NoChildren(root, here);
    NoMembers(parent, here);
    var rest := source.Keys;
    while rest != {}
      invariant rest <= source.Keys && members.Keys == source.Keys - rest
      invariant Filled(members, parent, here, at)
      invariant Part(root, here, FieldSteps(members.Keys), at) && forall p :: p in at ==> fresh(at[p])
      decreases rest
    {
      var key :| key in rest;
      members, at := CloneMember(node, key, members, root, here, nodes, at);
      rest := rest - {key};
    }
    var made := new Node(Members(members));
    assert members.Keys == source.Keys;
    ChildrenOf(parent);
    FilledHolds(members, parent, here, at);
    AllChildren(root, here, FieldSteps(members.Keys), at, made);
    return Reference(made), at[here := made];
  }

  lemma NoMembers(j: Json, here: Position)
    requires j.Object?
    ensures var none: map<Text, Value> := map[]; Filled(none, j, here, map[]) && FieldSteps(none.Keys) == {}
  {
  }

  lemma OneMoreField(done: set<Text>, key: Text)
    ensures FieldSteps(done) + {Field(key)} == FieldSteps(done + {key})
    ensures Field(key) in FieldSteps(done) <==> key in done
  {
  }
}
