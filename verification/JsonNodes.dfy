/**
 The nodes of a tree of JSON items: each has its members, in order, and its parent. Numbers are given to nodes as
 they are made, so that a child has a greater one than its parent.
 */
module JsonNodes {
  import opened Options
  import opened JsonText

  /** What a member has: a value of its own, or another node. */
  datatype Content = Plain(value: Json) | Child(id: nat)

  /** A member of an object, or of an array, which has no use for the name. */
  datatype Entry = Entry(name: Text, content: Content)

  datatype Node = Node(isObject: bool, parent: Option<nat>, entries: seq<Entry>)

  type Nodes = map<nat, Node>

  predicate Container(j: Json) {
    j.Object? || j.Array?
  }

  // ---------- well-formed trees ----------

  predicate Refers(node: Node, id: nat) {
    exists k :: 0 <= k < |node.entries| && node.entries[k].content == Child(id)
  }

  predicate ParentOk(nodes: Nodes, id: nat, parent: Option<nat>) {
    parent.Some? ==> parent.value < id && parent.value in nodes && Refers(nodes[parent.value], id)
  }

  predicate EntryOk(nodes: Nodes, id: nat, content: Content) {
    match content
    case Plain(value) => !Container(value)
    case Child(c) => id < c && c in nodes && nodes[c].parent == Some(id)
  }

  predicate DistinctNames(entries: seq<Entry>) {
    forall j, k :: 0 <= j < k < |entries| ==> entries[j].name != entries[k].name
  }

  predicate DistinctChildren(entries: seq<Entry>) {
    forall j, k :: 0 <= j < k < |entries| && entries[j].content.Child? ==> entries[j].content != entries[k].content
  }

  predicate NodeOk(nodes: Nodes, id: nat, node: Node) {
    && ParentOk(nodes, id, node.parent)
    && (forall k :: 0 <= k < |node.entries| ==> EntryOk(nodes, id, node.entries[k].content))
    && DistinctChildren(node.entries) && (node.isObject ==> DistinctNames(node.entries))
  }

  predicate Tree(nodes: Nodes, limit: nat) {
    forall id :: id in nodes ==> id < limit && NodeOk(nodes, id, nodes[id])
  }

  /** Node a is r or below it. */
  predicate Under(nodes: Nodes, a: nat, r: nat) {
    a == r || (a in nodes && nodes[a].parent.Some? && nodes[a].parent.value < a && Under(nodes, nodes[a].parent.value, r))
  }

  lemma {:induction false} UnderIsGreater(nodes: Nodes, a: nat, r: nat)
    requires Under(nodes, a, r)
    ensures r <= a
    decreases a
  {
    if a != r {
      UnderIsGreater(nodes, nodes[a].parent.value, r);
    }
  }

  lemma {:induction false} UnderTransitive(nodes: Nodes, a: nat, b: nat, r: nat)
    requires Under(nodes, a, b) && Under(nodes, b, r)
    ensures Under(nodes, a, r)
    decreases a
  {
    if a != b {
      UnderTransitive(nodes, nodes[a].parent.value, b, r);
    }
  }

  /** Nothing is below two children of one node. */
  lemma {:induction false} Siblings(nodes: Nodes, a: nat, c: nat, d: nat)
    requires Under(nodes, a, c) && Under(nodes, a, d) && c in nodes && d in nodes
    requires nodes[c].parent == nodes[d].parent && nodes[c].parent.Some? && nodes[c].parent.value < c && nodes[c].parent.value < d
    ensures c == d
    decreases a
  {
    if a == c && a != d {
      UnderIsGreater(nodes, nodes[a].parent.value, d);
    } else if a == d && a != c {
      UnderIsGreater(nodes, nodes[a].parent.value, c);
    } else if a != c {
      Siblings(nodes, nodes[a].parent.value, c, d);
    }
  }

  /** What is below a node is the node itself, or below one of its children. */
  lemma {:induction false} UnderSomeChild(nodes: Nodes, limit: nat, a: nat, r: nat) returns (k: nat)
    requires Tree(nodes, limit) && Under(nodes, a, r) && a != r && r in nodes
    ensures k < |nodes[r].entries| && nodes[r].entries[k].content.Child? && Under(nodes, a, nodes[r].entries[k].content.id)
    decreases a
  {
    var p := nodes[a].parent.value;
    if p == r {
      assert NodeOk(nodes, a, nodes[a]);
      k :| 0 <= k < |nodes[r].entries| && nodes[r].entries[k].content == Child(a);
    } else {
      k := UnderSomeChild(nodes, limit, p, r);
    }
  }

  // ---------- the value of a tree ----------

  function ContentView(nodes: Nodes, limit: nat, above: nat, content: Content): Json
    requires above < limit
    decreases limit - above, 0
  {
    match content
    case Plain(value) => value
    case Child(c) => if above < c < limit then View(nodes, limit, c) else Null
  }

  /** The JSON value of a node, all its descendants included. */
  function View(nodes: Nodes, limit: nat, id: nat): Json
    requires id < limit
    decreases limit - id, 1
  {
    if id !in nodes then Null
    else
      var es := nodes[id].entries;
      if nodes[id].isObject then
        Object(seq(|es|, i requires 0 <= i < |es| => Member(es[i].name, ContentView(nodes, limit, id, es[i].content))))
      else
        Array(seq(|es|, i requires 0 <= i < |es| => ContentView(nodes, limit, id, es[i].content)))
  }

  /** A value depends on nothing but the nodes below it. */
  lemma {:induction false} SameView(nodes: Nodes, limit: nat, nodes': Nodes, limit': nat, id: nat)
    requires Tree(nodes, limit) && limit <= limit' && id in nodes
    requires forall a :: a in nodes && Under(nodes, a, id) ==> a in nodes' && nodes'[a] == nodes[a]
    ensures View(nodes', limit', id) == View(nodes, limit, id)
    decreases limit - id
  {
    assert Under(nodes, id, id) && NodeOk(nodes, id, nodes[id]);
    forall k | 0 <= k < |nodes[id].entries|
      ensures ContentView(nodes', limit', id, nodes[id].entries[k].content) == ContentView(nodes, limit, id, nodes[id].entries[k].content)
    {
      var content := nodes[id].entries[k].content;
      assert EntryOk(nodes, id, content);
      if content.Child? {
        forall a | a in nodes && Under(nodes, a, content.id) ensures a in nodes' && nodes'[a] == nodes[a] {
          UnderTransitive(nodes, a, content.id, id);
        }
        SameView(nodes, limit, nodes', limit', content.id);
      }
    }
  }

  // ---------- edits ----------

  /** Without the nodes that were at or below a member's value before the destruction began. */
  function MinusTree(nodes: Nodes, all: Nodes, content: Content): Nodes {
    if content.Plain? then nodes else map a | a in nodes && !Under(all, a, content.id) :: nodes[a]
  }

  /** The nodes that are left when a member's value is freed. */
  function Freed(nodes: Nodes, content: Content): Nodes {
    MinusTree(nodes, nodes, content)
  }

  /** Node id gets other members, one of the old ones is freed, and perhaps a new child is made. */
  function Edited(nodes: Nodes, limit: nat, id: nat, freed: Content, entries: seq<Entry>, made: Option<bool>): Nodes
    requires id in nodes
  {
    var kept := Freed(nodes, freed)[id := nodes[id].(entries := entries)];
    if made.None? then kept else kept[limit := Node(made.value, Some(id), [])]
  }

  predicate KeptEntry(nodes: Nodes, id: nat, freed: Content, content: Content)
    requires id in nodes
  {
    content.Child? && content != freed && Refers(nodes[id], content.id)
  }

  /** The new members: each child is an old one or the one made, and no old one gets lost but the freed. */
  predicate EditOk(nodes: Nodes, limit: nat, id: nat, freed: Content, entries: seq<Entry>, made: Option<bool>)
    requires id in nodes
  {
    && (freed.Plain? || Refers(nodes[id], freed.id))
    && (forall k :: 0 <= k < |entries| ==>
          match entries[k].content
          case Plain(value) => !Container(value)
          case Child(c) => (c == limit && made.Some?) || KeptEntry(nodes, id, freed, entries[k].content))
    && (forall k :: 0 <= k < |nodes[id].entries| && nodes[id].entries[k].content.Child? && nodes[id].entries[k].content != freed ==>
          Refers(Node(true, None, entries), nodes[id].entries[k].content.id))
    && (made.Some? ==> Refers(Node(true, None, entries), limit))
    && DistinctChildren(entries) && (nodes[id].isObject ==> DistinctNames(entries))
  }

  /** What is freed is a child of the node that loses it. */
  lemma FreedBelow(nodes: Nodes, limit: nat, id: nat, freed: Content, a: nat)
    requires Tree(nodes, limit) && id in nodes && freed.Child? && Refers(nodes[id], freed.id)
    ensures freed.id in nodes && id < freed.id && nodes[freed.id].parent == Some(id)
    ensures Under(nodes, a, freed.id) ==> a in nodes && id < a
    ensures a in nodes && nodes[a].parent.Some? && Under(nodes, nodes[a].parent.value, freed.id) ==> Under(nodes, a, freed.id)
    ensures a in nodes && nodes[a].parent.Some? && Under(nodes, a, freed.id) && a != freed.id ==> Under(nodes, nodes[a].parent.value, freed.id)
  {
    var k :| 0 <= k < |nodes[id].entries| && nodes[id].entries[k].content == Child(freed.id);
    assert NodeOk(nodes, id, nodes[id]);
    assert EntryOk(nodes, id, nodes[id].entries[k].content);
    if Under(nodes, a, freed.id) {
      UnderIsGreater(nodes, a, freed.id);
    }
    if a in nodes {
      assert NodeOk(nodes, a, nodes[a]);
    }
  }

  lemma EditedParent(nodes: Nodes, limit: nat, id: nat, freed: Content, entries: seq<Entry>, made: Option<bool>, a: nat)
    requires Tree(nodes, limit) && id in nodes && EditOk(nodes, limit, id, freed, entries, made)
    requires a in Edited(nodes, limit, id, freed, entries, made) && a in nodes
    ensures ParentOk(Edited(nodes, limit, id, freed, entries, made), a, nodes[a].parent)
  {
    var nodes' := Edited(nodes, limit, id, freed, entries, made);
    assert NodeOk(nodes, a, nodes[a]);
    if nodes[a].parent.Some? {
      var p := nodes[a].parent.value;
      if freed.Child? {
        FreedBelow(nodes, limit, id, freed, a);
        assert a != freed.id by {
          assert Under(nodes, a, a);
        }
      }
      assert p in nodes';
      if p == id {
        var k :| 0 <= k < |nodes[id].entries| && nodes[id].entries[k].content == Child(a);
        assert Refers(Node(true, None, entries), a);
        var j :| 0 <= j < |entries| && entries[j].content == Child(a);
        assert nodes'[id].entries[j].content == Child(a);
      } else {
        assert nodes'[p] == nodes[p];
      }
    }
  }

  lemma EditedEntry(nodes: Nodes, limit: nat, id: nat, freed: Content, entries: seq<Entry>, made: Option<bool>, a: nat, content: Content)
    requires Tree(nodes, limit) && id in nodes && EditOk(nodes, limit, id, freed, entries, made)
    requires a in Edited(nodes, limit, id, freed, entries, made) && a in nodes && EntryOk(nodes, a, content)
    requires content.Child? ==> Refers(nodes[a], content.id) && content != freed
    ensures EntryOk(Edited(nodes, limit, id, freed, entries, made), a, content)
  {
    if content.Child? && freed.Child? {
      FreedBelow(nodes, limit, id, freed, content.id);
      FreedBelow(nodes, limit, id, freed, a);
    }
  }

  lemma EditedNode(nodes: Nodes, limit: nat, id: nat, freed: Content, entries: seq<Entry>, made: Option<bool>, a: nat)
    requires Tree(nodes, limit) && id in nodes && EditOk(nodes, limit, id, freed, entries, made)
    requires a in Edited(nodes, limit, id, freed, entries, made) && a in nodes && a != id
    ensures var nodes' := Edited(nodes, limit, id, freed, entries, made); NodeOk(nodes', a, nodes'[a])
  {
    var nodes' := Edited(nodes, limit, id, freed, entries, made);
    assert nodes'[a] == nodes[a];
    EditedParent(nodes, limit, id, freed, entries, made, a);
    assert NodeOk(nodes, a, nodes[a]);
    forall k | 0 <= k < |nodes[a].entries| ensures EntryOk(nodes', a, nodes[a].entries[k].content) {
      var content := nodes[a].entries[k].content;
      if content.Child? && freed.Child? {
        FreedBelow(nodes, limit, id, freed, a);
      }
      EditedEntry(nodes, limit, id, freed, entries, made, a, content);
    }
  }

  lemma EditedHere(nodes: Nodes, limit: nat, id: nat, freed: Content, entries: seq<Entry>, made: Option<bool>)
    requires Tree(nodes, limit) && id in nodes && EditOk(nodes, limit, id, freed, entries, made)
    ensures var nodes' := Edited(nodes, limit, id, freed, entries, made); NodeOk(nodes', id, nodes'[id])
  {
    var nodes' := Edited(nodes, limit, id, freed, entries, made);
    assert NodeOk(nodes, id, nodes[id]);
    EditedParent(nodes, limit, id, freed, entries, made, id);
    forall k | 0 <= k < |entries| ensures EntryOk(nodes', id, entries[k].content) {
      var content := entries[k].content;
      if KeptEntry(nodes, id, freed, content) {
        var j :| 0 <= j < |nodes[id].entries| && nodes[id].entries[j].content == Child(content.id);
        assert EntryOk(nodes, id, nodes[id].entries[j].content);
        EditedEntry(nodes, limit, id, freed, entries, made, id, content);
      }
    }
  }

  lemma EditKeepsTree(nodes: Nodes, limit: nat, id: nat, freed: Content, entries: seq<Entry>, made: Option<bool>)
    requires Tree(nodes, limit) && id in nodes && EditOk(nodes, limit, id, freed, entries, made)
    ensures Tree(Edited(nodes, limit, id, freed, entries, made), limit + 1)
  {
    var nodes' := Edited(nodes, limit, id, freed, entries, made);
    forall a | a in nodes' ensures a < limit + 1 && NodeOk(nodes', a, nodes'[a]) {
      EditedHere(nodes, limit, id, freed, entries, made);
      if a in nodes && a != id {
        EditedNode(nodes, limit, id, freed, entries, made, a);
      } else if a == limit {
        var k :| 0 <= k < |entries| && entries[k].content == Child(limit);
        assert nodes'[id].entries[k].content == Child(limit);
      }
    }
  }

  /** Of two nodes above a third, one is above the other. */
  lemma {:induction false} Comparable(nodes: Nodes, b: nat, a: nat, c: nat)
    requires Under(nodes, b, a) && Under(nodes, b, c)
    ensures Under(nodes, a, c) || Under(nodes, c, a)
    decreases b
  {
    if b != a && b != c {
      Comparable(nodes, nodes[b].parent.value, a, c);
    }
  }

  lemma EditKeepsNode(nodes: Nodes, limit: nat, id: nat, freed: Content, a: nat, b: nat)
    requires Tree(nodes, limit) && id in nodes && (freed.Plain? || Refers(nodes[id], freed.id))
    requires a in Freed(nodes, freed) && b in nodes && Under(nodes, b, a) && !Under(nodes, id, a)
    ensures b in Freed(nodes, freed)
  {
    if freed.Child? {
      FreedBelow(nodes, limit, id, freed, freed.id);
      if Under(nodes, b, freed.id) {
        Comparable(nodes, b, a, freed.id);
      }
    }
  }

  /** Values that the edited node is no part of stay what they are. */
  lemma EditFrame(nodes: Nodes, limit: nat, id: nat, freed: Content, entries: seq<Entry>, made: Option<bool>, a: nat)
    requires Tree(nodes, limit) && id in nodes && EditOk(nodes, limit, id, freed, entries, made)
    requires a in nodes && a in Edited(nodes, limit, id, freed, entries, made) && !Under(nodes, id, a)
    ensures View(Edited(nodes, limit, id, freed, entries, made), limit + 1, a) == View(nodes, limit, a)
  {
    var nodes' := Edited(nodes, limit, id, freed, entries, made);
    forall b | b in nodes && Under(nodes, b, a) ensures b in nodes' && nodes'[b] == nodes[b] {
      EditKeepsBelow(nodes, limit, id, freed, entries, made, a, b);
    }
    SameView(nodes, limit, nodes', limit + 1, a);
  }

  lemma EditKeepsBelow(nodes: Nodes, limit: nat, id: nat, freed: Content, entries: seq<Entry>, made: Option<bool>, a: nat, b: nat)
    requires Tree(nodes, limit) && id in nodes && EditOk(nodes, limit, id, freed, entries, made)
    requires a in nodes && a in Edited(nodes, limit, id, freed, entries, made) && !Under(nodes, id, a)
    requires b in nodes && Under(nodes, b, a)
    ensures var nodes' := Edited(nodes, limit, id, freed, entries, made); b in nodes' && nodes'[b] == nodes[b]
  {
    EditKeepsNode(nodes, limit, id, freed, a, b);
  }

  /** A member that is kept keeps its value. */
  lemma EditKeepsMember(nodes: Nodes, limit: nat, id: nat, freed: Content, entries: seq<Entry>, made: Option<bool>, content: Content)
    requires Tree(nodes, limit) && id in nodes && EditOk(nodes, limit, id, freed, entries, made) && id < limit
    requires content.Plain? || KeptEntry(nodes, id, freed, content)
    ensures ContentView(Edited(nodes, limit, id, freed, entries, made), limit + 1, id, content) == ContentView(nodes, limit, id, content)
  {
    if content.Child? {
      var j :| 0 <= j < |nodes[id].entries| && nodes[id].entries[j].content == Child(content.id);
      assert NodeOk(nodes, id, nodes[id]);
      assert EntryOk(nodes, id, nodes[id].entries[j].content);
      EditedEntry(nodes, limit, id, freed, entries, made, id, content);
      if Under(nodes, id, content.id) {
        UnderIsGreater(nodes, id, content.id);
      }
      EditFrame(nodes, limit, id, freed, entries, made, content.id);
    }
  }

  /** In a container above the edited node, only the member that leads there may change. */
  lemma EditAbove(nodes: Nodes, limit: nat, id: nat, freed: Content, entries: seq<Entry>, made: Option<bool>, a: nat, j: nat, k: nat)
    requires Tree(nodes, limit) && id in nodes && EditOk(nodes, limit, id, freed, entries, made)
    requires a in nodes && a != id && a < limit && j < |nodes[a].entries| && k < |nodes[a].entries| && j != k
    requires nodes[a].entries[k].content.Child? && Under(nodes, id, nodes[a].entries[k].content.id)
    ensures var nodes' := Edited(nodes, limit, id, freed, entries, made);
            && a in nodes' && nodes'[a] == nodes[a]
            && ContentView(nodes', limit + 1, a, nodes[a].entries[j].content) == ContentView(nodes, limit, a, nodes[a].entries[j].content)
  {
    var nodes' := Edited(nodes, limit, id, freed, entries, made);
    var content, path := nodes[a].entries[j].content, nodes[a].entries[k].content;
    assert NodeOk(nodes, a, nodes[a]) && EntryOk(nodes, a, path) && EntryOk(nodes, a, content);
    UnderIsGreater(nodes, id, path.id);
    if freed.Child? {
      FreedBelow(nodes, limit, id, freed, a);
    }
    if content.Child? {
      if Under(nodes, id, content.id) {
        Siblings(nodes, id, content.id, path.id);
        assert false;
      }
      if freed.Child? {
        FreedBelow(nodes, limit, id, freed, content.id);
      }
      assert content.id in nodes';
      EditFrame(nodes, limit, id, freed, entries, made, content.id);
    }
  }
}
