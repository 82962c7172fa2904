/**
 The trees of JSON items in place: setters, removal, destruction of what is replaced, and sending with memos.
 Nodes are entries of one map; the memos that members have are kept beside them, by the member's position. Every
 change draws a number, and a node that is made gets it.
 */
module JsonItems {
  import opened Options
  import opened JsonText
  import opened JsonNodes
  import opened JsonMembers

  /** What observers are told, and where: the node whose observers are called. */
  datatype Change = MemberSet(name: Text) | MemberUnset(name: Text) | ElementInserted(index: nat) | ElementRemoved(index: nat)
  datatype Notice = Notice(observed: nat, changed: nat, change: Change)

  // ---------- destruction ----------

  /** All nodes below a node, as they were, are still there. */
  predicate Present(all: Nodes, nodes: Nodes, r: nat) {
    forall a :: a in all && Under(all, a, r) ==> a in nodes && nodes[a] == all[a]
  }

  /** Below one of the first children. */
  predicate UnderFirst(all: Nodes, a: nat, entries: seq<Entry>, k: nat)
    requires k <= |entries|
  {
    exists j :: 0 <= j < k && entries[j].content.Child? && Under(all, a, entries[j].content.id)
  }

  function MinusFirst(nodes: Nodes, all: Nodes, entries: seq<Entry>, k: nat): Nodes
    requires k <= |entries|
  {
    map a | a in nodes && !UnderFirst(all, a, entries, k) :: nodes[a]
  }

  lemma MinusNext(nodes: Nodes, all: Nodes, entries: seq<Entry>, k: nat)
    requires k < |entries|
    ensures MinusTree(MinusFirst(nodes, all, entries, k), all, entries[k].content) == MinusFirst(nodes, all, entries, k + 1)
  {
    forall a: nat ensures UnderFirst(all, a, entries, k + 1) <==>
                     UnderFirst(all, a, entries, k) || (entries[k].content.Child? && Under(all, a, entries[k].content.id))
    {
    }
  }

  lemma StillPresent(nodes: Nodes, all: Nodes, limit: nat, c: nat, k: nat)
    requires Tree(all, limit) && c in all && Present(all, nodes, c) && k < |all[c].entries| && all[c].entries[k].content.Child?
    ensures var d := all[c].entries[k].content.id;
            c < d && d in all && Present(all, MinusFirst(nodes, all, all[c].entries, k), d)
  {
    var entries := all[c].entries;
    var d := entries[k].content.id;
    assert NodeOk(all, c, all[c]) && EntryOk(all, c, entries[k].content);
    forall a | a in all && Under(all, a, d) ensures a in nodes && nodes[a] == all[a] && !UnderFirst(all, a, entries, k) {
      assert Under(all, d, c) by {
        assert Under(all, c, c);
      }
      UnderTransitive(all, a, d, c);
      if UnderFirst(all, a, entries, k) {
        var j :| 0 <= j < k && entries[j].content.Child? && Under(all, a, entries[j].content.id);
        assert EntryOk(all, c, entries[j].content);
        Siblings(all, a, d, entries[j].content.id);
        assert false;
      }
    }
  }

  lemma MinusAll(nodes: Nodes, all: Nodes, limit: nat, c: nat)
    requires Tree(all, limit) && c in all
    ensures MinusFirst(nodes, all, all[c].entries, |all[c].entries|) - {c} == MinusTree(nodes, all, Child(c))
  {
    var entries := all[c].entries;
    forall a: nat ensures Under(all, a, c) <==> a == c || UnderFirst(all, a, entries, |entries|) {
      if Under(all, a, c) && a != c {
        var k := UnderSomeChild(all, limit, a, c);
        assert UnderFirst(all, a, entries, |entries|);
      }
      if UnderFirst(all, a, entries, |entries|) {
        var j :| 0 <= j < |entries| && entries[j].content.Child? && Under(all, a, entries[j].content.id);
        assert NodeOk(all, c, all[c]) && EntryOk(all, c, entries[j].content);
        assert Under(all, entries[j].content.id, c) by {
          assert Under(all, c, c);
        }
        UnderTransitive(all, a, entries[j].content.id, c);
      }
    }
  }

  predicate KeepsMemos(nodes: Nodes, before: Memos, after: Memos) {
    forall a :: a in nodes && a in before ==> a in after && after[a] == before[a]
  }

  // ---------- notification ----------

  /** The observers of a node and of all nodes above it are told, nearest first. */
  function Told(nodes: Nodes, item: nat, changed: nat, change: Change): seq<Notice> {
    [Notice(item, changed, change)] + if HasParent(nodes, item) then Told(nodes, nodes[item].parent.value, changed, change) else []
  }

  predicate HasParent(nodes: Nodes, item: nat) {
    item in nodes && nodes[item].parent.Some? && nodes[item].parent.value < item
  }

  lemma Append(log: seq<Notice>, n: Notice, rest: seq<Notice>)
    ensures log + ([n] + rest) == log + [n] + rest
  {
  }

  /** Each node at or above the change is told once, and no other. */
  lemma {:induction false} ToldOnce(nodes: Nodes, item: nat, changed: nat, change: Change, a: nat)
    ensures multiset(Told(nodes, item, changed, change))[Notice(a, changed, change)] == if Under(nodes, item, a) then 1 else 0
    decreases item
  {
    if HasParent(nodes, item) {
      var p := nodes[item].parent.value;
      ToldOnce(nodes, p, changed, change, a);
      if Under(nodes, p, a) {
        UnderIsGreater(nodes, p, a);
      }
    }
  }

  type Memos = map<nat, seq<Option<Text>>>

  function EditedMemos(escaped: Memos, limit: nat, id: nat, memos: seq<Option<Text>>, made: Option<bool>): Memos {
    if made.None? then escaped[id := memos] else escaped[id := memos][limit := []]
  }

  lemma ChangedMemos(nodes: Nodes, limit: nat, escaped: Memos, left: Memos,
                     id: nat, freed: Content, entries: seq<Entry>, made: Option<bool>, memos: seq<Option<Text>>)
    requires Tree(nodes, limit) && Coherent(nodes, escaped) && id in nodes && KeepsMemos(Freed(nodes, freed), escaped, left)
    requires MemosOk(nodes[id].(entries := entries), memos)
    ensures Coherent(Edited(nodes, limit, id, freed, entries, made), EditedMemos(left, limit, id, memos, made))
  {
    var nodes', escaped' := Edited(nodes, limit, id, freed, entries, made), EditedMemos(left, limit, id, memos, made);
    forall a | a in nodes' ensures a in escaped' && MemosOk(nodes'[a], escaped'[a]) {
      if made.Some? && a == limit {
        assert nodes'[a].entries == [] && escaped'[a] == [];
      } else if a == id {
        assert nodes'[a] == nodes[id].(entries := entries) && escaped'[a] == memos;
      } else {
        assert a in Freed(nodes, freed) && nodes'[a] == nodes[a] && escaped'[a] == escaped[a];
      }
    }
  }

  class Items {
    var nodes: Nodes
    var limit: nat
    var escaped: Memos
    var notices: seq<Notice>

    /** An object without a parent. */
    constructor ()
      ensures Valid() && nodes == map[0 := Node(true, None, [])] && limit == 1 && View(nodes, limit, 0) == Object([]) && notices == []
    {
      nodes, limit, escaped, notices := map[0 := Node(true, None, [])], 1, map[0 := []], [];
    }

    predicate Valid()
      reads this
    {
      Tree(nodes, limit) && Coherent(nodes, escaped)
    }

    /** `freeMemberValue`: a node is destroyed with everything below it. */
    method FreeMemberValue(content: Content, ghost all: Nodes)
      requires Tree(all, limit) && (content.Child? ==> content.id in all && Present(all, nodes, content.id))
      modifies this`nodes, this`escaped
      ensures nodes == MinusTree(old(nodes), all, content) && KeepsMemos(nodes, old(escaped), escaped)
      decreases if content.Child? && content.id < limit then limit - content.id else 0, 1
    {
      if content.Child? {
        Destroy(content.id, all);
      }
    }

    method Destroy(c: nat, ghost all: Nodes)
      requires Tree(all, limit) && c in all && Present(all, nodes, c)
      modifies this`nodes, this`escaped
      ensures nodes == MinusTree(old(nodes), all, Child(c)) && KeepsMemos(nodes, old(escaped), escaped)
      decreases limit - c, 0
    {
      assert Under(all, c, c);
      var entries := nodes[c].entries;
      var k := 0;
      while k < |entries|
        invariant 0 <= k <= |entries| && nodes == MinusFirst(old(nodes), all, entries, k)
        invariant KeepsMemos(nodes, old(escaped), escaped)
      {
        if entries[k].content.Child? {
          StillPresent(old(nodes), all, limit, c, k);
        }
        MinusNext(old(nodes), all, entries, k);
        FreeMemberValue(entries[k].content, all);
        k := k + 1;
      }
      MinusAll(old(nodes), all, limit, c);
      nodes := nodes - {c};
      escaped := escaped - {c};
    }

    /** A node gets other members, after one was freed and with a child just made. */
    method Edit(id: nat, freed: Content, entries: seq<Entry>, memos: seq<Option<Text>>, made: Option<bool>)
      requires Valid() && id in nodes && EditOk(nodes, limit, id, freed, entries, made)
      requires MemosOk(nodes[id].(entries := entries), memos)
      modifies this`nodes, this`escaped, this`limit
      ensures Valid() && nodes == Edited(old(nodes), old(limit), id, freed, entries, made) && limit == old(limit) + 1
    {
      EditKeepsTree(nodes, limit, id, freed, entries, made);
      var node := nodes[id];
      ghost var was, memosWere := nodes, escaped;
      assert freed.Child? ==> freed.id in nodes by {
        if freed.Child? {
          FreedBelow(nodes, limit, id, freed, id);
        }
      }
      FreeMemberValue(freed, nodes);
      ChangedMemos(was, limit, memosWere, escaped, id, freed, entries, made, memos);
      Relink(id, node.(entries := entries), memos, made);
      limit := limit + 1;
    }

    /** The node with its new members is put in place, with the child just made. */
    method Relink(id: nat, node: Node, memos: seq<Option<Text>>, made: Option<bool>)
      modifies this`nodes, this`escaped
      ensures var kept := old(nodes)[id := node];
              nodes == if made.None? then kept else kept[limit := Node(made.value, Some(id), [])]
      ensures escaped == EditedMemos(old(escaped), limit, id, memos, made)
    {
      nodes, escaped := nodes[id := node], escaped[id := memos];
      if made.Some? {
        nodes, escaped := nodes[limit := Node(made.value, Some(id), [])], escaped[limit := []];
      }
    }

    /** The loops of `notifyMemberSet` and the like, up to the root. */
    method Notify(id: nat, change: Change)
      requires Valid()
      modifies this`notices
      ensures notices == old(notices) + Told(nodes, id, id, change)
    {
      var item: nat, more := id, true;
      while more
        invariant more ==> notices + Told(nodes, item, id, change) == old(notices) + Told(nodes, id, id, change)
        invariant !more ==> notices == old(notices) + Told(nodes, id, id, change)
        decreases more, item
        modifies this`notices
      {
        Append(notices, Notice(item, id, change), Told(nodes, item, id, change)[1..]);
        notices := notices + [Notice(item, id, change)];
        more := HasParent(nodes, item);
        item := if more then nodes[item].parent.value else item;
      }
    }

    /** `member`: the position of the member with a name, or the number of members. */
    method FindMember(id: nat, name: Text) returns (k: nat)
      requires id in nodes
      ensures k == Find(nodes[id].entries, name)
    {
      var entries := nodes[id].entries;
      k := 0;
      while k < |entries| && entries[k].name != name
        invariant k <= |entries| && Find(entries, name) == k + Find(entries[k..], name)
      {
        assert entries[k..][1..] == entries[k + 1..];
        k := k + 1;
      }
    }

    /** A member is set, in place or as the last: to a value, or to a new container. */
    method SetMember(id: nat, name: Text, value: Json, made: Option<bool>) returns (child: nat)
      requires Valid() && id in nodes && nodes[id].isObject && (made.None? ==> !Container(value))
      modifies this
      ensures Valid() && limit == old(limit) + 1 && child == old(limit) && notices == old(notices) + Told(nodes, id, id, MemberSet(name))
      ensures var content := if made.None? then Plain(value) else Child(child);
              var freed := ContentAt(old(nodes)[id].entries, Find(old(nodes)[id].entries, name));
              && EditOk(old(nodes), old(limit), id, freed, Put(old(nodes)[id].entries, name, content), made)
              && nodes == Edited(old(nodes), old(limit), id, freed, Put(old(nodes)[id].entries, name, content), made)
    {
      child := limit;
      var content := if made.None? then Plain(value) else Child(child);
      var k := FindMember(id, name);
      var entries, memos := nodes[id].entries, escaped[id];
      if k < |entries| {
        ReplaceOk(nodes, limit, id, name, content, made, k);
        Edit(id, entries[k].content, entries[k := Entry(name, content)], memos[k := None], made);
      } else {
        AppendOk(nodes, limit, id, name, content, made);
        Edit(id, Plain(Null), entries + [Entry(name, content)], memos + [None], made);
      }
      Notify(id, MemberSet(name));
    }

    /** `unset`, which unlinks the member as it does in an array. */
    method Unset(id: nat, name: Text)
      requires Valid() && id in nodes && nodes[id].isObject
      modifies this
      ensures Valid()
      ensures var k := Find(old(nodes)[id].entries, name);
              if k == |old(nodes)[id].entries| then nodes == old(nodes) && limit == old(limit) && notices == old(notices)
              else && nodes == Edited(old(nodes), old(limit), id, old(nodes)[id].entries[k].content, Without(old(nodes)[id].entries, k), None)
                   && limit == old(limit) + 1 && notices == old(notices) + Told(nodes, id, id, MemberUnset(name))
    {
      var k := FindMember(id, name);
      var entries, memos := nodes[id].entries, escaped[id];
      if k < |entries| {
        RemoveOk(nodes, limit, id, k);
        Edit(id, entries[k].content, Without(entries, k), memos[..k] + memos[k + 1..], None);
        Notify(id, MemberUnset(name));
      }
    }

    /** `appendInteger`, `appendObject` and so on. Observers are told the new length. */
    method AppendElement(id: nat, value: Json, made: Option<bool>) returns (child: nat)
      requires Valid() && id in nodes && !nodes[id].isObject && (made.None? ==> !Container(value))
      modifies this
      ensures Valid() && limit == old(limit) + 1 && child == old(limit)
      ensures notices == old(notices) + Told(nodes, id, id, ElementInserted(|old(nodes)[id].entries| + 1))
      ensures var content := if made.None? then Plain(value) else Child(child);
              nodes == Edited(old(nodes), old(limit), id, Plain(Null), old(nodes)[id].entries + [Entry("", content)], made)
    {
      child := limit;
      var content := if made.None? then Plain(value) else Child(child);
      var entries, memos := nodes[id].entries, escaped[id];
      AppendOk(nodes, limit, id, "", content, made);
      Edit(id, Plain(Null), entries + [Entry("", content)], memos + [None], made);
      Notify(id, ElementInserted(|entries| + 1));
    }

    /** `remove`: nothing happens beyond the length. */
    method RemoveElement(id: nat, index: nat)
      requires Valid() && id in nodes && !nodes[id].isObject
      modifies this
      ensures Valid()
      ensures if index >= |old(nodes)[id].entries| then nodes == old(nodes) && limit == old(limit) && notices == old(notices)
              else && nodes == Edited(old(nodes), old(limit), id, old(nodes)[id].entries[index].content, Without(old(nodes)[id].entries, index), None)
                   && limit == old(limit) + 1 && notices == old(notices) + Told(nodes, id, id, ElementRemoved(index))
    {
      var entries, memos := nodes[id].entries, escaped[id];
      if index < |entries| {
        RemoveOk(nodes, limit, id, index);
        Edit(id, entries[index].content, Without(entries, index), memos[..index] + memos[index + 1..], None);
        Notify(id, ElementRemoved(index));
      }
    }

    // ---------- sending ----------

    /** `escapeMember`, if there is no memo: the text of a member, kept if it is of a kind that is. */
    method EscapeMember(id: nat, k: nat) returns (text: Text)
      requires Valid() && id in nodes && k < |nodes[id].entries|
      modifies this`escaped
      ensures Valid() && text == MemberText(nodes[id].isObject, nodes[id].entries[k])
    {
      var node, memos := nodes[id], escaped[id];
      if memos[k].Some? {
        return memos[k].value;
      }
      text := MemberText(node.isObject, node.entries[k]);
      if Memorable(node.isObject, node.entries[k].content) {
        escaped := escaped[id := memos[k := Some(text)]];
      }
    }

    /** `send`: the text is that of a printer without memos for the value the tree has now. */
    method Send(id: nat, depth: nat) returns (text: Text)
      requires Valid() && id in nodes
      modifies this`escaped
      ensures Valid() && id < limit && text == Print(View(nodes, limit, id), depth)
      decreases depth, 2
    {
      if nodes[id].isObject {
        text := SendObject(id, depth);
      } else {
        text := SendArray(id, depth);
      }
    }

    method SendObject(id: nat, depth: nat) returns (text: Text)
      requires Valid() && id in nodes && nodes[id].isObject
      modifies this`escaped
      ensures Valid() && id < limit && text == Print(View(nodes, limit, id), depth)
      decreases depth, 1, 1
    {
      var inner := "";
      if depth > 0 {
        inner := SendMembers(id, depth);
      }
      text := "{" + (inner + "}");
    }

    method SendMembers(id: nat, depth: nat) returns (text: Text)
      requires Valid() && id in nodes && nodes[id].isObject && depth > 0
      modifies this`escaped
      ensures Valid() && id < limit && text == PrintMembers(View(nodes, limit, id).members, 0, depth)
      decreases depth, 1, 0
    {
      text := "";
      ghost var ms := View(nodes, limit, id).members;
      var k := 0;
      while k < |nodes[id].entries|
        invariant 0 <= k <= |nodes[id].entries| == |ms| && Valid() && MembersSent(text, ms, k, depth)
        modifies this`escaped
      {
        text := SendNextMember(id, k, depth, text);
        k := k + 1;
      }
    }

    /** One turn of the loop. */
    method SendNextMember(id: nat, k: nat, depth: nat, sent: Text) returns (text: Text)
      requires Valid() && id in nodes && id < limit && nodes[id].isObject && k < |nodes[id].entries| && 0 < depth
      requires var ms := View(nodes, limit, id).members; |ms| == |nodes[id].entries| && MembersSent(sent, ms, k, depth)
      modifies this`escaped
      ensures Valid() && MembersSent(text, View(nodes, limit, id).members, k + 1, depth)
      decreases depth, 0, 1
    {
      var piece := SendMember(id, k, depth);
      MembersSentNext(sent, piece, View(nodes, limit, id).members, k, depth);
      text := sent + (if k == 0 then "" else ",") + piece;
    }

    /** Without the comma. */
    method SendMember(id: nat, k: nat, depth: nat) returns (text: Text)
      requires Valid() && id in nodes && nodes[id].isObject && k < |nodes[id].entries| && 0 < depth
      modifies this`escaped
      ensures Valid() && id < limit
      ensures var ms := View(nodes, limit, id).members;
              |ms| == |nodes[id].entries| && text + PrintMembers(ms, k + 1, depth) == MembersFrom(ms, k, depth)
      decreases depth, 0, 0
    {
      MemberViewed(nodes, limit, id, k);
      var entry := nodes[id].entries[k];
      text := EscapeMember(id, k);
      ghost var ms := View(nodes, limit, id).members;
      if entry.content.Child? {
        var inner := Send(entry.content.id, depth - 1);
        text := text + inner;
      }
      MemberPrinted(text, entry.name, Print(ms[k].value, depth - 1), PrintMembers(ms, k + 1, depth));
    }

    method SendArray(id: nat, depth: nat) returns (text: Text)
      requires Valid() && id in nodes && !nodes[id].isObject
      modifies this`escaped
      ensures Valid() && id < limit && text == Print(View(nodes, limit, id), depth)
      decreases depth, 1, 1
    {
      var inner := "";
      if depth > 0 {
        inner := SendElements(id, depth);
      }
      text := "[" + (inner + "]");
    }

    method SendElements(id: nat, depth: nat) returns (text: Text)
      requires Valid() && id in nodes && !nodes[id].isObject && depth > 0
      modifies this`escaped
      ensures Valid() && id < limit && text == PrintElements(View(nodes, limit, id).elements, 0, depth)
      decreases depth, 1, 0
    {
      text := "";
      ghost var es := View(nodes, limit, id).elements;
      var k := 0;
      while k < |nodes[id].entries|
        invariant 0 <= k <= |nodes[id].entries| == |es| && Valid() && ElementsSent(text, es, k, depth)
        modifies this`escaped
      {
        var piece := SendElement(id, k, depth);
        ElementsSentNext(text, piece, es, k, depth);
        text := text + (if k == 0 then "" else ",") + piece;
        k := k + 1;
      }
    }

    method SendElement(id: nat, k: nat, depth: nat) returns (text: Text)
      requires Valid() && id in nodes && !nodes[id].isObject && k < |nodes[id].entries| && 0 < depth
      modifies this`escaped
      ensures Valid() && id < limit
      ensures var es := View(nodes, limit, id).elements; |es| == |nodes[id].entries| && text == Print(es[k], depth - 1)
      decreases depth, 0
    {
      assert NodeOk(nodes, id, nodes[id]);
      var entry := nodes[id].entries[k];
      assert EntryOk(nodes, id, entry.content);
      if entry.content.Child? {
        text := Send(entry.content.id, depth - 1);
      } else {
        text := EscapeMember(id, k);
      }
    }
  }

  lemma Joined(text: Text, comma: Text, piece: Text, more: Text)
    ensures text + (comma + (piece + more)) == text + comma + piece + more
  {
  }

  lemma MemberViewed(nodes: Nodes, limit: nat, id: nat, k: nat)
    requires Tree(nodes, limit) && id in nodes && nodes[id].isObject && k < |nodes[id].entries|
    ensures id < limit && EntryOk(nodes, id, nodes[id].entries[k].content) && |View(nodes, limit, id).members| == |nodes[id].entries|
    ensures View(nodes, limit, id).members[k] ==
            Member(nodes[id].entries[k].name, ContentView(nodes, limit, id, nodes[id].entries[k].content))
  {
    assert NodeOk(nodes, id, nodes[id]);
  }

  /** What is left to print completes the text. */
  predicate MembersSent(text: Text, ms: seq<Member>, k: nat, depth: nat)
    requires 0 < depth && k <= |ms|
  {
    text + PrintMembers(ms, k, depth) == PrintMembers(ms, 0, depth)
  }

  predicate ElementsSent(text: Text, es: seq<Json>, k: nat, depth: nat)
    requires 0 < depth && k <= |es|
  {
    text + PrintElements(es, k, depth) == PrintElements(es, 0, depth)
  }

  lemma MembersSentNext(text: Text, piece: Text, ms: seq<Member>, k: nat, depth: nat)
    requires 0 < depth && k < |ms| && MembersSent(text, ms, k, depth)
    requires piece + PrintMembers(ms, k + 1, depth) == MembersFrom(ms, k, depth)
    ensures MembersSent(text + (if k == 0 then "" else ",") + piece, ms, k + 1, depth)
  {
    Joined(text, if k == 0 then "" else ",", piece, PrintMembers(ms, k + 1, depth));
  }

  lemma ElementsSentNext(text: Text, piece: Text, es: seq<Json>, k: nat, depth: nat)
    requires 0 < depth && k < |es| && ElementsSent(text, es, k, depth)
    requires piece + PrintElements(es, k + 1, depth) == ElementsFrom(es, k, depth)
    ensures ElementsSent(text + (if k == 0 then "" else ",") + piece, es, k + 1, depth)
  {
    Joined(text, if k == 0 then "" else ",", piece, PrintElements(es, k + 1, depth));
  }

  lemma MemberPrinted(text: Text, name: Text, printed: Text, more: Text)
    requires text == Quoted(name) + (":" + printed)
    ensures text + more == Quoted(name) + (":" + (printed + more))
  {
  }
}
