/** Members as an insertion-ordered map, the memos of their text, and what each change makes of a tree. */
module JsonMembers {
  import opened Options
  import opened JsonText
  import opened JsonNodes

  // ---------- an insertion-ordered map ----------

  function Find(entries: seq<Entry>, name: Text): (k: nat)
    ensures k <= |entries| && (k < |entries| ==> entries[k].name == name)
    ensures forall j :: 0 <= j < k ==> entries[j].name != name
  {
    if entries == [] || entries[0].name == name then 0 else 1 + Find(entries[1..], name)
  }

  function Put(entries: seq<Entry>, name: Text, content: Content): seq<Entry> {
    var k := Find(entries, name);
    if k < |entries| then entries[k := Entry(name, content)] else entries + [Entry(name, content)]
  }

  function Without(entries: seq<Entry>, k: nat): seq<Entry> {
    if k < |entries| then entries[..k] + entries[k + 1..] else entries
  }

  predicate Distinct(ms: seq<Member>) {
    forall j, k :: 0 <= j < k < |ms| ==> ms[j].name != ms[k].name
  }

  function Lookup(ms: seq<Member>, name: Text): Option<Json> {
    if ms == [] then None else if ms[0].name == name then Some(ms[0].value) else Lookup(ms[1..], name)
  }

  function Names(ms: seq<Member>): seq<Text> {
    seq(|ms|, i requires 0 <= i < |ms| => ms[i].name)
  }

  /** A member is set: in place if it is there, else as the last. */
  function WithMember(ms: seq<Member>, name: Text, value: Json): seq<Member> {
    if ms == [] then [Member(name, value)]
    else if ms[0].name == name then [Member(name, value)] + ms[1..]
    else [ms[0]] + WithMember(ms[1..], name, value)
  }

  function WithoutMember(ms: seq<Member>, name: Text): seq<Member> {
    if ms == [] then [] else if ms[0].name == name then ms[1..] else [ms[0]] + WithoutMember(ms[1..], name)
  }

  /** What makes it a map. */
  lemma {:induction false} LookupWith(ms: seq<Member>, name: Text, value: Json, other: Text)
    ensures Lookup(WithMember(ms, name, value), other) == if other == name then Some(value) else Lookup(ms, other)
    decreases |ms|
  {
    if ms != [] {
      LookupWith(ms[1..], name, value, other);
    }
  }

  lemma {:induction false} LookupWithout(ms: seq<Member>, name: Text, other: Text)
    requires Distinct(ms)
    ensures Lookup(WithoutMember(ms, name), other) == if other == name then None else Lookup(ms, other)
    decreases |ms|
  {
    if ms != [] {
      var rest := ms[1..];
      if ms[0].name == name {
        NotFound(rest, name);
      } else {
        LookupWithout(rest, name, other);
      }
    }
  }

  /** What makes it remember the order of insertion. */
  lemma {:induction false} NamesWith(ms: seq<Member>, name: Text, value: Json)
    ensures Names(WithMember(ms, name, value)) == if Lookup(ms, name).Some? then Names(ms) else Names(ms) + [name]
    decreases |ms|
  {
    if ms != [] {
      NamesWith(ms[1..], name, value);
      assert Names(ms) == [ms[0].name] + Names(ms[1..]);
      assert ms[0].name != name ==> Names(WithMember(ms, name, value)) == [ms[0].name] + Names(WithMember(ms[1..], name, value));
    }
  }

  lemma {:induction false} NotFound(ms: seq<Member>, name: Text)
    requires forall k :: 0 <= k < |ms| ==> ms[k].name != name
    ensures Lookup(ms, name) == None
    decreases |ms|
  {
    if ms != [] {
      NotFound(ms[1..], name);
    }
  }

  // ---------- memos ----------

  /** The text kept for a member: with its name in an object; nothing of a container's own text. */
  function MemberText(isObject: bool, entry: Entry): Text {
    var own := if entry.content.Plain? then Scalar(entry.content.value) else "";
    if isObject then Quoted(entry.name) + (":" + own) else own
  }

  /** In an array only numbers and strings are kept. */
  predicate Memorable(isObject: bool, content: Content) {
    isObject || (content.Plain? && (content.value.Integer? || content.value.Decimal? || content.value.Str?))
  }

  predicate MemosOk(node: Node, memos: seq<Option<Text>>) {
    && |memos| == |node.entries|
    && forall k :: 0 <= k < |memos| && memos[k].Some? ==>
         memos[k].value == MemberText(node.isObject, node.entries[k]) && Memorable(node.isObject, node.entries[k].content)
  }

  /** Every memo agrees with its member as it is now. */
  predicate Coherent(nodes: Nodes, escaped: map<nat, seq<Option<Text>>>) {
    forall id :: id in nodes ==> id in escaped && MemosOk(nodes[id], escaped[id])
  }

  // ---------- the view after an edit ----------

  function EditedContent(nodes: Nodes, limit: nat, id: nat, made: Option<bool>, content: Content): Json
    requires id < limit
  {
    if content == Child(limit) && made.Some? then (if made.value then Object([]) else Array([]))
    else ContentView(nodes, limit, id, content)
  }

  lemma EditedContentView(nodes: Nodes, limit: nat, id: nat, freed: Content, entries: seq<Entry>, made: Option<bool>, k: nat)
    requires Tree(nodes, limit) && id in nodes && id < limit && EditOk(nodes, limit, id, freed, entries, made) && k < |entries|
    ensures ContentView(Edited(nodes, limit, id, freed, entries, made), limit + 1, id, entries[k].content) ==
            EditedContent(nodes, limit, id, made, entries[k].content)
  {
    var content, nodes' := entries[k].content, Edited(nodes, limit, id, freed, entries, made);
    if content == Child(limit) && made.Some? {
      assert nodes'[limit] == Node(made.value, Some(id), []);
    } else {
      EditKeepsMember(nodes, limit, id, freed, entries, made, content);
    }
  }

  function MembersOf(nodes: Nodes, limit: nat, id: nat, made: Option<bool>, entries: seq<Entry>): seq<Member>
    requires id < limit
  {
    seq(|entries|, i requires 0 <= i < |entries| => Member(entries[i].name, EditedContent(nodes, limit, id, made, entries[i].content)))
  }

  function ElementsOf(nodes: Nodes, limit: nat, id: nat, made: Option<bool>, entries: seq<Entry>): seq<Json>
    requires id < limit
  {
    seq(|entries|, i requires 0 <= i < |entries| => EditedContent(nodes, limit, id, made, entries[i].content))
  }

  lemma ViewAfter(nodes: Nodes, limit: nat, id: nat, freed: Content, entries: seq<Entry>, made: Option<bool>)
    requires Tree(nodes, limit) && id in nodes && id < limit && EditOk(nodes, limit, id, freed, entries, made)
    ensures View(Edited(nodes, limit, id, freed, entries, made), limit + 1, id) ==
            if nodes[id].isObject then Object(MembersOf(nodes, limit, id, made, entries))
            else Array(ElementsOf(nodes, limit, id, made, entries))
  {
    forall k | 0 <= k < |entries|
      ensures ContentView(Edited(nodes, limit, id, freed, entries, made), limit + 1, id, entries[k].content) ==
              EditedContent(nodes, limit, id, made, entries[k].content)
    {
      EditedContentView(nodes, limit, id, freed, entries, made, k);
    }
  }

  lemma ViewBefore(nodes: Nodes, limit: nat, id: nat, made: Option<bool>)
    requires Tree(nodes, limit) && id in nodes && id < limit
    ensures View(nodes, limit, id) ==
            if nodes[id].isObject then Object(MembersOf(nodes, limit, id, made, nodes[id].entries))
            else Array(ElementsOf(nodes, limit, id, made, nodes[id].entries))
  {
    assert NodeOk(nodes, id, nodes[id]);
    forall k | 0 <= k < |nodes[id].entries|
      ensures EditedContent(nodes, limit, id, made, nodes[id].entries[k].content) == ContentView(nodes, limit, id, nodes[id].entries[k].content)
    {
      assert EntryOk(nodes, id, nodes[id].entries[k].content);
    }
  }

  predicate FirstAt(ms: seq<Member>, name: Text, k: nat) {
    && k <= |ms| && (k < |ms| ==> ms[k].name == name)
    && forall j :: 0 <= j < k ==> ms[j].name != name
  }

  lemma {:induction false} WithMemberAt(ms: seq<Member>, name: Text, value: Json, k: nat)
    requires FirstAt(ms, name, k)
    ensures WithMember(ms, name, value) == if k < |ms| then ms[k := Member(name, value)] else ms + [Member(name, value)]
    decreases k
  {
    if 0 < k {
      WithMemberAt(ms[1..], name, value, k - 1);
      assert ms == [ms[0]] + ms[1..];
    }
  }

  lemma {:induction false} WithoutMemberAt(ms: seq<Member>, name: Text, k: nat)
    requires FirstAt(ms, name, k)
    ensures WithoutMember(ms, name) == if k < |ms| then ms[..k] + ms[k + 1..] else ms
    decreases k
  {
    if 0 < k {
      WithoutMemberAt(ms[1..], name, k - 1);
      assert ms == [ms[0]] + ms[1..];
      assert k < |ms| ==> ms[..k] + ms[k + 1..] == [ms[0]] + (ms[1..][..k - 1] + ms[1..][k..]);
    }
  }

  lemma PutIsWith(nodes: Nodes, limit: nat, id: nat, made: Option<bool>, entries: seq<Entry>, name: Text, content: Content)
    requires id < limit
    ensures MembersOf(nodes, limit, id, made, Put(entries, name, content)) ==
            WithMember(MembersOf(nodes, limit, id, made, entries), name, EditedContent(nodes, limit, id, made, content))
  {
    var k := Find(entries, name);
    WithMemberAt(MembersOf(nodes, limit, id, made, entries), name, EditedContent(nodes, limit, id, made, content), k);
    MembersPut(nodes, limit, id, made, entries, k, Entry(name, content));
  }

  lemma MembersPut(nodes: Nodes, limit: nat, id: nat, made: Option<bool>, entries: seq<Entry>, k: nat, e: Entry)
    requires id < limit && k <= |entries|
    ensures var ms, m := MembersOf(nodes, limit, id, made, entries), Member(e.name, EditedContent(nodes, limit, id, made, e.content));
            MembersOf(nodes, limit, id, made, if k < |entries| then entries[k := e] else entries + [e]) == if k < |ms| then ms[k := m] else ms + [m]
  {
  }

  lemma WithoutIsWithout(nodes: Nodes, limit: nat, id: nat, made: Option<bool>, entries: seq<Entry>, name: Text)
    requires id < limit
    ensures MembersOf(nodes, limit, id, made, Without(entries, Find(entries, name))) == WithoutMember(MembersOf(nodes, limit, id, made, entries), name)
  {
    var k := Find(entries, name);
    WithoutMemberAt(MembersOf(nodes, limit, id, made, entries), name, k);
    MembersWithout(nodes, limit, id, made, entries, k);
  }

  lemma MembersWithout(nodes: Nodes, limit: nat, id: nat, made: Option<bool>, entries: seq<Entry>, k: nat)
    requires id < limit && k <= |entries|
    ensures var ms := MembersOf(nodes, limit, id, made, entries);
            MembersOf(nodes, limit, id, made, Without(entries, k)) == if k < |entries| then ms[..k] + ms[k + 1..] else ms
  {
  }

  // ---------- the edits that there are ----------

  function ContentAt(entries: seq<Entry>, k: nat): Content {
    if k < |entries| then entries[k].content else Plain(Null)
  }

  predicate ContentOk(limit: nat, content: Content, made: Option<bool>) {
    match content
    case Plain(value) => !Container(value) && made.None?
    case Child(c) => c == limit && made.Some?
  }

  lemma KeptChildren(nodes: Nodes, limit: nat, id: nat)
    requires Tree(nodes, limit) && id in nodes
    ensures forall k :: 0 <= k < |nodes[id].entries| && nodes[id].entries[k].content.Child? ==>
              nodes[id].entries[k].content.id < limit && Refers(nodes[id], nodes[id].entries[k].content.id)
    ensures forall k :: 0 <= k < |nodes[id].entries| && nodes[id].entries[k].content.Plain? ==> !Container(nodes[id].entries[k].content.value)
    ensures DistinctChildren(nodes[id].entries) && (nodes[id].isObject ==> DistinctNames(nodes[id].entries))
  {
    assert NodeOk(nodes, id, nodes[id]);
    forall k | 0 <= k < |nodes[id].entries|
      ensures EntryOk(nodes, id, nodes[id].entries[k].content)
    {
    }
  }

  lemma ReplaceOk(nodes: Nodes, limit: nat, id: nat, name: Text, content: Content, made: Option<bool>, k: nat)
    requires Tree(nodes, limit) && id in nodes && k < |nodes[id].entries| && nodes[id].entries[k].name == name
    requires ContentOk(limit, content, made)
    ensures EditOk(nodes, limit, id, nodes[id].entries[k].content, nodes[id].entries[k := Entry(name, content)], made)
  {
    KeptChildren(nodes, limit, id);
    var were, now := nodes[id].entries, nodes[id].entries[k := Entry(name, content)];
    assert now[k].content == content;
    forall j | 0 <= j < |were| && j != k ensures now[j] == were[j] {
    }
  }

  lemma AppendOk(nodes: Nodes, limit: nat, id: nat, name: Text, content: Content, made: Option<bool>)
    requires Tree(nodes, limit) && id in nodes && ContentOk(limit, content, made)
    requires nodes[id].isObject ==> forall k :: 0 <= k < |nodes[id].entries| ==> nodes[id].entries[k].name != name
    ensures EditOk(nodes, limit, id, Plain(Null), nodes[id].entries + [Entry(name, content)], made)
  {
    KeptChildren(nodes, limit, id);
    var were, now := nodes[id].entries, nodes[id].entries + [Entry(name, content)];
    assert now[|were|].content == content;
    forall j | 0 <= j < |were| ensures now[j] == were[j] {
    }
  }

  lemma RemoveOk(nodes: Nodes, limit: nat, id: nat, k: nat)
    requires Tree(nodes, limit) && id in nodes && k < |nodes[id].entries|
    ensures EditOk(nodes, limit, id, nodes[id].entries[k].content, Without(nodes[id].entries, k), None)
  {
    KeptChildren(nodes, limit, id);
    var were, now := nodes[id].entries, Without(nodes[id].entries, k);
    WithoutDistinct(were, k);
    forall j | 0 <= j < |were| && j != k ensures now[if j < k then j else j - 1] == were[j] {
    }
  }

  lemma WithoutDistinct(were: seq<Entry>, k: nat)
    requires k < |were|
    ensures DistinctChildren(were) ==> DistinctChildren(Without(were, k))
    ensures DistinctNames(were) ==> DistinctNames(Without(were, k))
  {
  }
}
