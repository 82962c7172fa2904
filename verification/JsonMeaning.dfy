/** What each change of a tree in place means for the JSON values of its nodes. */
module JsonMeaning {
  import opened Options
  import opened JsonText
  import opened JsonNodes
  import opened JsonMembers

  /** What a member is set to. */
  function NewValue(value: Json, made: Option<bool>): Json {
    match made
    case None => value
    case Some(isObject) => if isObject then Object([]) else Array([])
  }

  function NewContent(limit: nat, value: Json, made: Option<bool>): Content {
    if made.None? then Plain(value) else Child(limit)
  }

  lemma ViewDistinct(nodes: Nodes, limit: nat, id: nat)
    requires Tree(nodes, limit) && id in nodes && nodes[id].isObject && id < limit
    ensures Distinct(View(nodes, limit, id).members)
  {
    assert NodeOk(nodes, id, nodes[id]);
  }

  /** Setting a member of an object in place sets it in the object's value, and leaves alone all others that the
      object is no part of. */
  lemma SetMeans(nodes: Nodes, limit: nat, id: nat, name: Text, value: Json, made: Option<bool>, a: nat)
    requires Tree(nodes, limit) && id in nodes && id < limit && nodes[id].isObject && (made.None? ==> !Container(value))
    ensures var entries := nodes[id].entries;
            var freed, after := ContentAt(entries, Find(entries, name)), Put(entries, name, NewContent(limit, value, made));
            var nodes' := Edited(nodes, limit, id, freed, after, made);
            && EditOk(nodes, limit, id, freed, after, made) && Tree(nodes', limit + 1)
            && View(nodes', limit + 1, id) == Object(WithMember(View(nodes, limit, id).members, name, NewValue(value, made)))
            && (a in nodes && a in nodes' && a < limit && !Under(nodes, id, a) ==> View(nodes', limit + 1, a) == View(nodes, limit, a))
  {
    var entries := nodes[id].entries;
    var k, content := Find(entries, name), NewContent(limit, value, made);
    var freed, after := ContentAt(entries, k), Put(entries, name, content);
    if k < |entries| {
      ReplaceOk(nodes, limit, id, name, content, made, k);
    } else {
      AppendOk(nodes, limit, id, name, content, made);
    }
    EditKeepsTree(nodes, limit, id, freed, after, made);
    ViewBefore(nodes, limit, id, made);
    ViewAfter(nodes, limit, id, freed, after, made);
    PutIsWith(nodes, limit, id, made, entries, name, content);
    var nodes' := Edited(nodes, limit, id, freed, after, made);
    if a in nodes && a in nodes' && a < limit && !Under(nodes, id, a) {
      EditFrame(nodes, limit, id, freed, after, made, a);
    }
  }

  lemma UnsetMeans(nodes: Nodes, limit: nat, id: nat, name: Text, a: nat)
    requires Tree(nodes, limit) && id in nodes && id < limit && nodes[id].isObject
    requires Find(nodes[id].entries, name) < |nodes[id].entries|
    ensures var k := Find(nodes[id].entries, name);
            var nodes' := Edited(nodes, limit, id, nodes[id].entries[k].content, Without(nodes[id].entries, k), None);
            && Tree(nodes', limit + 1)
            && View(nodes', limit + 1, id) == Object(WithoutMember(View(nodes, limit, id).members, name))
            && (a in nodes && a in nodes' && a < limit && !Under(nodes, id, a) ==> View(nodes', limit + 1, a) == View(nodes, limit, a))
  {
    var entries, k := nodes[id].entries, Find(nodes[id].entries, name);
    var freed, after := entries[k].content, Without(entries, k);
    RemoveOk(nodes, limit, id, k);
    EditKeepsTree(nodes, limit, id, freed, after, None);
    ViewBefore(nodes, limit, id, None);
    ViewAfter(nodes, limit, id, freed, after, None);
    WithoutIsWithout(nodes, limit, id, None, entries, name);
    var nodes' := Edited(nodes, limit, id, freed, after, None);
    if a in nodes && a in nodes' && a < limit && !Under(nodes, id, a) {
      EditFrame(nodes, limit, id, freed, after, None, a);
    }
  }

  lemma AppendMeans(nodes: Nodes, limit: nat, id: nat, value: Json, made: Option<bool>, a: nat)
    requires Tree(nodes, limit) && id in nodes && id < limit && !nodes[id].isObject && (made.None? ==> !Container(value))
    ensures var after := nodes[id].entries + [Entry("", NewContent(limit, value, made))];
            var nodes' := Edited(nodes, limit, id, Plain(Null), after, made);
            && Tree(nodes', limit + 1)
            && View(nodes', limit + 1, id) == Array(View(nodes, limit, id).elements + [NewValue(value, made)])
            && (a in nodes && a < limit && !Under(nodes, id, a) ==> View(nodes', limit + 1, a) == View(nodes, limit, a))
  {
    var content := NewContent(limit, value, made);
    var after := nodes[id].entries + [Entry("", content)];
    AppendOk(nodes, limit, id, "", content, made);
    EditKeepsTree(nodes, limit, id, Plain(Null), after, made);
    ViewBefore(nodes, limit, id, made);
    ViewAfter(nodes, limit, id, Plain(Null), after, made);
    assert ElementsOf(nodes, limit, id, made, after) ==
           ElementsOf(nodes, limit, id, made, nodes[id].entries) + [EditedContent(nodes, limit, id, made, content)];
    if a in nodes && a < limit && !Under(nodes, id, a) {
      EditFrame(nodes, limit, id, Plain(Null), after, made, a);
    }
  }

  lemma RemoveMeans(nodes: Nodes, limit: nat, id: nat, index: nat, a: nat)
    requires Tree(nodes, limit) && id in nodes && id < limit && !nodes[id].isObject && index < |nodes[id].entries|
    ensures var nodes' := Edited(nodes, limit, id, nodes[id].entries[index].content, Without(nodes[id].entries, index), None);
            var elements := View(nodes, limit, id).elements;
            && Tree(nodes', limit + 1) && |elements| == |nodes[id].entries|
            && View(nodes', limit + 1, id) == Array(elements[..index] + elements[index + 1..])
            && (a in nodes && a in nodes' && a < limit && !Under(nodes, id, a) ==> View(nodes', limit + 1, a) == View(nodes, limit, a))
  {
    var entries := nodes[id].entries;
    var freed, after := entries[index].content, Without(entries, index);
    RemoveOk(nodes, limit, id, index);
    EditKeepsTree(nodes, limit, id, freed, after, None);
    ViewBefore(nodes, limit, id, None);
    ViewAfter(nodes, limit, id, freed, after, None);
    var elements := ElementsOf(nodes, limit, id, None, entries);
    assert ElementsOf(nodes, limit, id, None, after) == elements[..index] + elements[index + 1..];
    var nodes' := Edited(nodes, limit, id, freed, after, None);
    if a in nodes && a in nodes' && a < limit && !Under(nodes, id, a) {
      EditFrame(nodes, limit, id, freed, after, None, a);
    }
  }

  /** As written, `unset` destroys a member's value and leaves the member on the list. */
  function UnsetAsWritten(nodes: Nodes, id: nat, name: Text): Nodes
    requires id in nodes
  {
    Freed(nodes, ContentAt(nodes[id].entries, Find(nodes[id].entries, name)))
  }

  /** That is what is meant exactly for a name that is not there. Where the name has a container, a member of the tree
      is left pointing at a node that has been destroyed. */
  lemma UnsetAsWrittenIff(nodes: Nodes, limit: nat, id: nat, name: Text)
    requires Tree(nodes, limit) && id in nodes && id < limit && nodes[id].isObject
    ensures var entries := nodes[id].entries; var k, after := Find(entries, name), UnsetAsWritten(nodes, id, name);
            && (View(after, limit, id) == Object(WithoutMember(View(nodes, limit, id).members, name)) <==> k == |entries|)
            && (k < |entries| && entries[k].content.Child? ==> entries[k].content.id !in after && !Tree(after, limit))
  {
    var entries := nodes[id].entries;
    var k, after := Find(entries, name), UnsetAsWritten(nodes, id, name);
    var ms := View(nodes, limit, id).members;
    assert FirstAt(ms, name, k);
    WithoutMemberAt(ms, name, k);
    if k < |entries| {
      StillListed(nodes, limit, id, entries[k].content);
      assert |View(after, limit, id).members| == |ms|;
    }
  }

  lemma StillListed(nodes: Nodes, limit: nat, id: nat, content: Content)
    requires Tree(nodes, limit) && id in nodes && (content.Child? ==> Refers(nodes[id], content.id))
    ensures id in Freed(nodes, content) && Freed(nodes, content)[id] == nodes[id]
    ensures content.Child? ==> content.id !in Freed(nodes, content) && !Tree(Freed(nodes, content), limit)
  {
    if content.Child? {
      FreedBelow(nodes, limit, id, content, id);
      var after := Freed(nodes, content);
      assert Under(nodes, content.id, content.id);
      var k :| 0 <= k < |nodes[id].entries| && nodes[id].entries[k].content == Child(content.id);
      assert !EntryOk(after, id, after[id].entries[k].content);
      assert !NodeOk(after, id, after[id]);
    }
  }
}
