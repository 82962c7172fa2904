/**
 Whole runs: a tree of items changed in place, reached by paths from its root, against a plain JSON value to which
 the same edits are applied. What is sent after any edits is the printed value.
 */
module JsonRuns {
  import opened Options
  import opened JsonText
  import opened JsonNodes
  import opened JsonMembers
  import opened JsonMeaning
  import opened JsonItems

  /** From a container to one in it: `object(name)` and `array(name)`, or the same with an index. */
  datatype Step = Name(name: Text) | Index(index: nat)

  datatype Edit =
    | Set(name: Text, value: Json, made: Option<bool>)   // a value, or a new container
    | Unset(name: Text)
    | Append(value: Json, made: Option<bool>)
    | Remove(index: nat)

  predicate EditPossible(e: Edit) {
    (e.Set? || e.Append?) && e.made.None? ==> !Container(e.value)
  }

  // ---------- on plain values ----------

  function NamePlace(ms: seq<Member>, name: Text): (k: nat)
    ensures FirstAt(ms, name, k)
  {
    if ms == [] || ms[0].name == name then 0 else 1 + NamePlace(ms[1..], name)
  }

  function Applied(j: Json, e: Edit): Json {
    match j
    case Object(ms) =>
      if e.Set? then Object(WithMember(ms, e.name, NewValue(e.value, e.made)))
      else if e.Unset? then Object(WithoutMember(ms, e.name)) else j
    case Array(es) =>
      if e.Append? then Array(es + [NewValue(e.value, e.made)])
      else if e.Remove? && e.index < |es| then Array(es[..e.index] + es[e.index + 1..]) else j
    case _ => j
  }

  /** An edit at the end of a path; nothing happens if the path does not lead from container to container. */
  function AppliedAt(j: Json, path: seq<Step>, e: Edit): Json
    decreases |path|
  {
    if path == [] then Applied(j, e)
    else
      match j
      case Object(ms) =>
        if path[0].Index? then j
        else
          var k := NamePlace(ms, path[0].name);
          if k < |ms| && Container(ms[k].value)
          then Object(ms[k := Member(ms[k].name, AppliedAt(ms[k].value, path[1..], e))]) else j
      case Array(es) =>
        if path[0].Name? then j
        else
          var k := path[0].index;
          if k < |es| && Container(es[k]) then Array(es[k := AppliedAt(es[k], path[1..], e)]) else j
      case _ => j
  }

  function ValueAt(j: Json, path: seq<Step>): Option<Json>
    decreases |path|
  {
    if path == [] then (if Container(j) then Some(j) else None)
    else
      match j
      case Object(ms) =>
        if path[0].Index? then None
        else
          var k := NamePlace(ms, path[0].name);
          if k < |ms| && Container(ms[k].value) then ValueAt(ms[k].value, path[1..]) else None
      case Array(es) =>
        if path[0].Name? then None
        else
          var k := path[0].index;
          if k < |es| && Container(es[k]) then ValueAt(es[k], path[1..]) else None
      case _ => None
  }

  // ---------- on nodes ----------

  /** The place of the member that a step leads through. */
  function Place(node: Node, s: Step): nat {
    match s
    case Name(name) => if node.isObject then Find(node.entries, name) else |node.entries|
    case Index(index) => if node.isObject then |node.entries| else index
  }

  function Stepped(nodes: Nodes, a: nat, s: Step): Option<nat> {
    if a !in nodes then None
    else
      var k := Place(nodes[a], s);
      if k < |nodes[a].entries| && nodes[a].entries[k].content.Child? then Some(nodes[a].entries[k].content.id) else None
  }

  function Reached(nodes: Nodes, a: nat, path: seq<Step>): Option<nat>
    decreases |path|
  {
    if path == [] then Some(a)
    else match Stepped(nodes, a, path[0])
         case None => None
         case Some(c) => Reached(nodes, c, path[1..])
  }

  lemma SteppedBelow(nodes: Nodes, limit: nat, a: nat, s: Step)
    requires Tree(nodes, limit) && Stepped(nodes, a, s).Some?
    ensures var c := Stepped(nodes, a, s).value; a < c && c in nodes && Under(nodes, c, a)
  {
    assert NodeOk(nodes, a, nodes[a]);
    var k := Place(nodes[a], s);
    assert EntryOk(nodes, a, nodes[a].entries[k].content);
    assert Under(nodes, a, a);
  }

  lemma {:induction false} ReachedBelow(nodes: Nodes, limit: nat, a: nat, path: seq<Step>)
    requires Tree(nodes, limit) && a in nodes && Reached(nodes, a, path).Some?
    ensures var c := Reached(nodes, a, path).value; c in nodes && a <= c && Under(nodes, c, a) && (path != [] ==> a < c)
    decreases |path|
  {
    if path != [] {
      SteppedBelow(nodes, limit, a, path[0]);
      var c := Stepped(nodes, a, path[0]).value;
      ReachedBelow(nodes, limit, c, path[1..]);
      UnderTransitive(nodes, Reached(nodes, c, path[1..]).value, c, a);
    }
  }

  /** The same step on the value of a node. */
  lemma PlaceInView(nodes: Nodes, limit: nat, a: nat, s: Step)
    requires Tree(nodes, limit) && a in nodes && a < limit
    ensures var j, k := View(nodes, limit, a), Place(nodes[a], s);
            && (j.Object? && s.Name? ==> NamePlace(j.members, s.name) == k && |j.members| == |nodes[a].entries|)
            && (j.Array? && s.Index? ==> s.index == k && |j.elements| == |nodes[a].entries|)
            && (k < |nodes[a].entries| ==>
                  var value := ContentView(nodes, limit, a, nodes[a].entries[k].content);
                  && (Container(value) <==> nodes[a].entries[k].content.Child?)
                  && (j.Object? ==> j.members[k] == Member(nodes[a].entries[k].name, value)) && (j.Array? ==> j.elements[k] == value))
  {
    var j, k := View(nodes, limit, a), Place(nodes[a], s);
    assert NodeOk(nodes, a, nodes[a]);
    if k < |nodes[a].entries| {
      assert EntryOk(nodes, a, nodes[a].entries[k].content);
    }
    if j.Object? && s.Name? {
      var n := NamePlace(j.members, s.name);
      assert n < |j.members| ==> j.members[n].name == nodes[a].entries[n].name;
      assert k < |j.members| ==> j.members[k].name == nodes[a].entries[k].name;
    }
  }

  function WithPlace(j: Json, k: nat, value: Json): Json {
    match j
    case Object(ms) => if k < |ms| then Object(ms[k := Member(ms[k].name, value)]) else j
    case Array(es) => if k < |es| then Array(es[k := value]) else j
    case _ => j
  }

  /** One step of an edit at a path. */
  lemma AppliedOnce(nodes: Nodes, limit: nat, a: nat, path: seq<Step>, e: Edit)
    requires Tree(nodes, limit) && a in nodes && a < limit && path != []
    ensures var j := View(nodes, limit, a);
            match Stepped(nodes, a, path[0])
            case None => AppliedAt(j, path, e) == j
            case Some(c) =>
              && c in nodes && a < c < limit && WithPlace(j, Place(nodes[a], path[0]), View(nodes, limit, c)) == j
              && AppliedAt(j, path, e) == WithPlace(j, Place(nodes[a], path[0]), AppliedAt(View(nodes, limit, c), path[1..], e))
  {
    PlaceInView(nodes, limit, a, path[0]);
    if Stepped(nodes, a, path[0]).Some? {
      SteppedBelow(nodes, limit, a, path[0]);
    }
  }

  /** A path leads as far in the value as among the nodes. */
  lemma {:induction false} ReachedValue(nodes: Nodes, limit: nat, a: nat, path: seq<Step>)
    requires Tree(nodes, limit) && a in nodes && a < limit
    ensures match Reached(nodes, a, path)
            case None => ValueAt(View(nodes, limit, a), path) == None
            case Some(id) => id in nodes && id < limit && ValueAt(View(nodes, limit, a), path) == Some(View(nodes, limit, id))
    decreases |path|
  {
    if path != [] {
      PlaceInView(nodes, limit, a, path[0]);
      var step := Stepped(nodes, a, path[0]);
      if step.Some? {
        SteppedBelow(nodes, limit, a, path[0]);
        assert step.value < limit;
        ReachedValue(nodes, limit, step.value, path[1..]);
      }
    }
  }

  /** A path that leads nowhere changes nothing. */
  lemma {:induction false} Unreached(nodes: Nodes, limit: nat, a: nat, path: seq<Step>, e: Edit)
    requires Tree(nodes, limit) && a in nodes && a < limit && Reached(nodes, a, path).None?
    ensures AppliedAt(View(nodes, limit, a), path, e) == View(nodes, limit, a)
    decreases |path|
  {
    AppliedOnce(nodes, limit, a, path, e);
    var step := Stepped(nodes, a, path[0]);
    if step.Some? {
      Unreached(nodes, limit, step.value, path[1..], e);
    }
  }

  lemma KeptAbove(nodes: Nodes, limit: nat, id: nat, freed: Content, entries: seq<Entry>, made: Option<bool>, a: nat)
    requires Tree(nodes, limit) && id in nodes && EditOk(nodes, limit, id, freed, entries, made) && a in nodes && Under(nodes, id, a)
    ensures var nodes' := Edited(nodes, limit, id, freed, entries, made); a in nodes' && (a != id ==> nodes'[a] == nodes[a])
  {
    UnderIsGreater(nodes, id, a);
    if freed.Child? {
      FreedBelow(nodes, limit, id, freed, a);
    }
  }

  /** One step up the path: in the container above, one member has changed. */
  lemma ChangedAbove(nodes: Nodes, limit: nat, id: nat, freed: Content, entries: seq<Entry>, made: Option<bool>, a: nat, s: Step, value: Json)
    requires Tree(nodes, limit) && id in nodes && EditOk(nodes, limit, id, freed, entries, made) && a in nodes && a < limit && a != id
    requires Stepped(nodes, a, s).Some? && Under(nodes, id, Stepped(nodes, a, s).value)
    requires Stepped(nodes, a, s).value < limit
    requires View(Edited(nodes, limit, id, freed, entries, made), limit + 1, Stepped(nodes, a, s).value) == value
    ensures View(Edited(nodes, limit, id, freed, entries, made), limit + 1, a) == WithPlace(View(nodes, limit, a), Place(nodes[a], s), value)
  {
    var nodes' := Edited(nodes, limit, id, freed, entries, made);
    var es, k, c := nodes[a].entries, Place(nodes[a], s), Stepped(nodes, a, s).value;
    SteppedBelow(nodes, limit, a, s);
    UnderTransitive(nodes, id, c, a);
    KeptAbove(nodes, limit, id, freed, entries, made, a);
    forall i | 0 <= i < |es|
      ensures ContentView(nodes', limit + 1, a, es[i].content) == if i == k then value else ContentView(nodes, limit, a, es[i].content)
    {
      if i != k {
        EditAbove(nodes, limit, id, freed, entries, made, a, i, k);
      }
    }
    ViewWithPlace(nodes, limit, nodes', limit + 1, a, k, value);
  }

  /** Where only the value at one place differs. */
  lemma ViewWithPlace(nodes: Nodes, limit: nat, nodes': Nodes, limit': nat, a: nat, k: nat, value: Json)
    requires a in nodes && a < limit && a in nodes' && nodes'[a] == nodes[a] && a < limit' && k < |nodes[a].entries|
    requires forall i :: 0 <= i < |nodes[a].entries| ==>
               ContentView(nodes', limit', a, nodes[a].entries[i].content) ==
               if i == k then value else ContentView(nodes, limit, a, nodes[a].entries[i].content)
    ensures View(nodes', limit', a) == WithPlace(View(nodes, limit, a), k, value)
  {
  }

  /** An edit of the node that a path leads to is that edit at the path. */
  lemma {:induction false} PathMeans(nodes: Nodes, limit: nat, id: nat, freed: Content, entries: seq<Entry>, made: Option<bool>,
                                     a: nat, path: seq<Step>, e: Edit)
    requires Tree(nodes, limit) && id in nodes && id < limit && EditOk(nodes, limit, id, freed, entries, made)
    requires a in nodes && a < limit && Reached(nodes, a, path) == Some(id)
    requires View(Edited(nodes, limit, id, freed, entries, made), limit + 1, id) == Applied(View(nodes, limit, id), e)
    ensures View(Edited(nodes, limit, id, freed, entries, made), limit + 1, a) == AppliedAt(View(nodes, limit, a), path, e)
    decreases |path|
  {
    if path != [] {
      var c := Stepped(nodes, a, path[0]).value;
      SteppedBelow(nodes, limit, a, path[0]);
      ReachedBelow(nodes, limit, c, path[1..]);
      PathMeans(nodes, limit, id, freed, entries, made, c, path[1..], e);
      AppliedOnce(nodes, limit, a, path, e);
      ChangedAbove(nodes, limit, id, freed, entries, made, a, path[0], AppliedAt(View(nodes, limit, c), path[1..], e));
    }
  }

  // ---------- runs ----------

  /** The walk along a path, by getters. */
  method Reach(items: Items, path: seq<Step>) returns (id: Option<nat>)
    requires items.Valid() && 0 in items.nodes
    ensures id == Reached(items.nodes, 0, path)
  {
    id := Some(0);
    var i := 0;
    assert path[0..] == path;
    while i < |path|
      invariant 0 <= i <= |path| && id.Some? && Reached(items.nodes, id.value, path[i..]) == Reached(items.nodes, 0, path)
    {
      assert path[i..][0] == path[i] && path[i..][1..] == path[i + 1..];
      id := Stepped(items.nodes, id.value, path[i]);
      if id.None? { return; }
      i := i + 1;
    }
  }

  /** The edit of one node, if it is of the kind that the edit is for. */
  method EditNode(items: Items, id: nat, ghost path: seq<Step>, e: Edit)
    requires items.Valid() && 0 in items.nodes && EditPossible(e) && Reached(items.nodes, 0, path) == Some(id) && id in items.nodes
    modifies items
    ensures items.Valid() && 0 in items.nodes && Root(items) == AppliedAt(old(Root(items)), path, e)
  {
    if items.nodes[id].isObject {
      EditObject(items, id, path, e);
    } else {
      EditArray(items, id, path, e);
    }
  }

  method EditObject(items: Items, id: nat, ghost path: seq<Step>, e: Edit)
    requires items.Valid() && 0 in items.nodes && EditPossible(e) && Reached(items.nodes, 0, path) == Some(id) && id in items.nodes
    requires items.nodes[id].isObject
    modifies items
    ensures items.Valid() && 0 in items.nodes && Root(items) == AppliedAt(old(Root(items)), path, e)
  {
    ghost var was, limit := items.nodes, items.limit;
    match e
    case Set(name, value, made) =>
      SetNode(was, limit, id, path, name, value, made);
      var child := items.SetMember(id, name, value, made);
    case Unset(name) =>
      UnsetNode(was, limit, id, path, name);
      items.Unset(id, name);
    case _ =>
      SameNode(was, limit, id, path, e);
  }

  method EditArray(items: Items, id: nat, ghost path: seq<Step>, e: Edit)
    requires items.Valid() && 0 in items.nodes && EditPossible(e) && Reached(items.nodes, 0, path) == Some(id) && id in items.nodes
    requires !items.nodes[id].isObject
    modifies items
    ensures items.Valid() && 0 in items.nodes && Root(items) == AppliedAt(old(Root(items)), path, e)
  {
    ghost var was, limit := items.nodes, items.limit;
    match e
    case Append(value, made) =>
      AppendNode(was, limit, id, path, value, made);
      var child := items.AppendElement(id, value, made);
    case Remove(index) =>
      RemoveNode(was, limit, id, path, index);
      items.RemoveElement(id, index);
    case _ =>
      SameNode(was, limit, id, path, e);
  }

  ghost function Root(items: Items): Json
    reads items
    requires items.Valid() && 0 in items.nodes
  {
    View(items.nodes, items.limit, 0)
  }

  /** Where an edit is of another kind than the node, or finds nothing to remove, the value stays. */
  lemma {:induction false} SameNode(nodes: Nodes, limit: nat, id: nat, path: seq<Step>, e: Edit)
    requires Tree(nodes, limit) && 0 in nodes && 0 < limit && id in nodes && id < limit && Reached(nodes, 0, path) == Some(id)
    requires Applied(View(nodes, limit, id), e) == View(nodes, limit, id)
    ensures AppliedAt(View(nodes, limit, 0), path, e) == View(nodes, limit, 0)
  {
    SameBelow(nodes, limit, 0, id, path, e);
  }

  lemma {:induction false} SameBelow(nodes: Nodes, limit: nat, a: nat, id: nat, path: seq<Step>, e: Edit)
    requires Tree(nodes, limit) && a in nodes && a < limit && id < limit && Reached(nodes, a, path) == Some(id)
    requires Applied(View(nodes, limit, id), e) == View(nodes, limit, id)
    ensures AppliedAt(View(nodes, limit, a), path, e) == View(nodes, limit, a)
    decreases |path|
  {
    if path != [] {
      AppliedOnce(nodes, limit, a, path, e);
      var c := Stepped(nodes, a, path[0]).value;
      SameBelow(nodes, limit, c, id, path[1..], e);
    }
  }

  lemma SetNode(nodes: Nodes, limit: nat, id: nat, path: seq<Step>, name: Text, value: Json, made: Option<bool>)
    requires Tree(nodes, limit) && 0 in nodes && 0 < limit && id in nodes && id < limit && Reached(nodes, 0, path) == Some(id)
    requires nodes[id].isObject && (made.None? ==> !Container(value))
    ensures var entries := nodes[id].entries;
            var freed, after := ContentAt(entries, Find(entries, name)), Put(entries, name, NewContent(limit, value, made));
            var nodes' := Edited(nodes, limit, id, freed, after, made);
            0 in nodes' && View(nodes', limit + 1, 0) == AppliedAt(View(nodes, limit, 0), path, Set(name, value, made))
  {
    var entries := nodes[id].entries;
    var freed, after := ContentAt(entries, Find(entries, name)), Put(entries, name, NewContent(limit, value, made));
    SetMeans(nodes, limit, id, name, value, made, id);
    ReachedBelow(nodes, limit, 0, path);
    KeptAbove(nodes, limit, id, freed, after, made, 0);
    PathMeans(nodes, limit, id, freed, after, made, 0, path, Set(name, value, made));
  }

  lemma UnsetNode(nodes: Nodes, limit: nat, id: nat, path: seq<Step>, name: Text)
    requires Tree(nodes, limit) && 0 in nodes && 0 < limit && id in nodes && id < limit && Reached(nodes, 0, path) == Some(id)
    requires nodes[id].isObject
    ensures var entries := nodes[id].entries;
            var k := Find(entries, name);
            if k == |entries| then AppliedAt(View(nodes, limit, 0), path, Unset(name)) == View(nodes, limit, 0)
            else var nodes' := Edited(nodes, limit, id, entries[k].content, Without(entries, k), None);
                 0 in nodes' && View(nodes', limit + 1, 0) == AppliedAt(View(nodes, limit, 0), path, Unset(name))
  {
    var entries, k := nodes[id].entries, Find(nodes[id].entries, name);
    if k == |entries| {
      WithoutMemberAt(View(nodes, limit, id).members, name, k);
      SameNode(nodes, limit, id, path, Unset(name));
    } else {
      UnsetMeans(nodes, limit, id, name, id);
      RemoveOk(nodes, limit, id, k);
      ReachedBelow(nodes, limit, 0, path);
      KeptAbove(nodes, limit, id, entries[k].content, Without(entries, k), None, 0);
      PathMeans(nodes, limit, id, entries[k].content, Without(entries, k), None, 0, path, Unset(name));
    }
  }

  lemma AppendNode(nodes: Nodes, limit: nat, id: nat, path: seq<Step>, value: Json, made: Option<bool>)
    requires Tree(nodes, limit) && 0 in nodes && 0 < limit && id in nodes && id < limit && Reached(nodes, 0, path) == Some(id)
    requires !nodes[id].isObject && (made.None? ==> !Container(value))
    ensures var after := nodes[id].entries + [Entry("", NewContent(limit, value, made))];
            var nodes' := Edited(nodes, limit, id, Plain(Null), after, made);
            0 in nodes' && View(nodes', limit + 1, 0) == AppliedAt(View(nodes, limit, 0), path, Append(value, made))
  {
    var after := nodes[id].entries + [Entry("", NewContent(limit, value, made))];
    AppendMeans(nodes, limit, id, value, made, id);
    AppendOk(nodes, limit, id, "", NewContent(limit, value, made), made);
    ReachedBelow(nodes, limit, 0, path);
    KeptAbove(nodes, limit, id, Plain(Null), after, made, 0);
    PathMeans(nodes, limit, id, Plain(Null), after, made, 0, path, Append(value, made));
  }

  lemma RemoveNode(nodes: Nodes, limit: nat, id: nat, path: seq<Step>, index: nat)
    requires Tree(nodes, limit) && 0 in nodes && 0 < limit && id in nodes && id < limit && Reached(nodes, 0, path) == Some(id)
    requires !nodes[id].isObject
    ensures var entries := nodes[id].entries;
            if index >= |entries| then AppliedAt(View(nodes, limit, 0), path, Remove(index)) == View(nodes, limit, 0)
            else var nodes' := Edited(nodes, limit, id, entries[index].content, Without(entries, index), None);
                 0 in nodes' && View(nodes', limit + 1, 0) == AppliedAt(View(nodes, limit, 0), path, Remove(index))
  {
    var entries := nodes[id].entries;
    if index >= |entries| {
      SameNode(nodes, limit, id, path, Remove(index));
    } else {
      RemoveMeans(nodes, limit, id, index, id);
      RemoveOk(nodes, limit, id, index);
      ReachedBelow(nodes, limit, 0, path);
      KeptAbove(nodes, limit, id, entries[index].content, Without(entries, index), None, 0);
      PathMeans(nodes, limit, id, entries[index].content, Without(entries, index), None, 0, path, Remove(index));
    }
  }

  /** What a client does: edit at a path, or have the container at a path sent. */
  datatype Op = Change(path: seq<Step>, edit: Edit) | Transmit(path: seq<Step>, depth: nat)

  /** The same on a plain value, with the texts sent. */
  function Plainly(j: Json, ops: seq<Op>): (Json, seq<Text>)
    decreases |ops|
  {
    if ops == [] then (j, [])
    else
      var (k, texts) := Plainly(j, ops[..|ops| - 1]);
      match ops[|ops| - 1]
      case Change(path, edit) => (AppliedAt(k, path, edit), texts)
      case Transmit(path, depth) =>
        (k, match ValueAt(k, path) case None => texts case Some(value) => texts + [Print(value, depth)])
  }

  method Perform(items: Items, op: Op, texts: seq<Text>) returns (sent: seq<Text>)
    requires items.Valid() && 0 in items.nodes && (op.Change? ==> EditPossible(op.edit))
    modifies items
    ensures items.Valid() && 0 in items.nodes
    ensures match op
            case Change(path, edit) => Root(items) == AppliedAt(old(Root(items)), path, edit) && sent == texts
            case Transmit(path, depth) =>
              && Root(items) == old(Root(items))
              && sent == match ValueAt(Root(items), path) case None => texts case Some(value) => texts + [Print(value, depth)]
  {
    sent := texts;
    var id := Reach(items, op.path);
    ReachedValue(items.nodes, items.limit, 0, op.path);
    match op
    case Change(path, edit) =>
      if id.Some? {
        EditNode(items, id.value, path, edit);
      } else {
        Unreached(items.nodes, items.limit, 0, path, edit);
      }
    case Transmit(path, depth) =>
      if id.Some? {
        var text := items.Send(id.value, depth);
        sent := sent + [text];
      }
  }

  /** After any sequence of edits and sends at any depth, from an empty object: the tree stands for the plain value
      so edited, and every text sent was the printed value of its moment, whatever memos were kept. */
  method Run(ops: seq<Op>) returns (items: Items, texts: seq<Text>)
    requires forall k :: 0 <= k < |ops| && ops[k].Change? ==> EditPossible(ops[k].edit)
    ensures items.Valid() && 0 in items.nodes && (Root(items), texts) == Plainly(Object([]), ops)
  {
    items := new Items();
    texts := [];
    var i := 0;
    while i < |ops|
      invariant 0 <= i <= |ops| && fresh(items) && items.Valid() && 0 in items.nodes
      invariant (Root(items), texts) == Plainly(Object([]), ops[..i])
    {
      assert ops[..i + 1][..i] == ops[..i];
      texts := Perform(items, ops[i], texts);
      i := i + 1;
    }
    assert ops[..|ops|] == ops;
  }
}
