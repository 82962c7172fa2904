/** Lists as rings through a head that is no item, and iterators that look up the next item before the current one is used. */
module RingLists {
  import opened Rings

  class List {
    const items: ListItem            // the head
    ghost var contents: seq<ListItem>

    constructor ()
      ensures Valid() && contents == [] && fresh(this) && fresh(items)
    {
      items := new ListItem();
      contents := [];
    }

    ghost predicate Valid()
      reads this, items, contents
    {
      Ring([items] + contents)
    }

    ghost function TheRing(): seq<ListItem>
      reads this
    {
      [items] + contents
    }

    method First() returns (item: ListItem?)
      requires Valid()
      ensures item == if contents == [] then null else contents[0]
    {
      FirstLinks([items] + contents);
      item := if items.next != items then items.next else null;
    }

    method Last() returns (item: ListItem?)
      requires Valid()
      ensures item == if contents == [] then null else contents[|contents| - 1]
    {
      FirstLinks([items] + contents);
      item := if items.previous != items then items.previous else null;
    }

    method Next(item: ListItem, ghost k: nat) returns (other: ListItem?)
      requires Valid() && k < |contents| && contents[k] == item
      ensures other == if k + 1 < |contents| then contents[k + 1] else null
    {
      LinksAt([items] + contents, k + 1);
      other := if item.next != items then item.next else null;
    }

    method Previous(item: ListItem, ghost k: nat) returns (other: ListItem?)
      requires Valid() && k < |contents| && contents[k] == item
      ensures other == if k > 0 then contents[k - 1] else null
    {
      LinksAt([items] + contents, k + 1);
      other := if item.previous != items then item.previous else null;
    }

    method IsEmpty() returns (empty: bool)
      requires Valid()
      ensures empty <==> contents == []
    {
      FirstLinks([items] + contents);
      empty := items.next == items;
    }

    /** `addTail` of an item that is alone or at place k of another ring. */
    method AddTail(item: ListItem, ghost mine: seq<ListItem>, ghost k: nat)
      requires Valid() && Ring(mine) && k < |mine| && mine[k] == item && Apart(mine, TheRing())
      modifies this`contents, TheRing(), mine
      ensures Valid() && contents == old(contents) + [item] && (|mine| > 1 ==> Ring(Dropped(mine, k)))
    {
      item.AddBefore(items, mine, k, TheRing());
      assert [items] + (contents + [item]) == [items] + contents + [item];
      contents := contents + [item];
    }

    /** `addHead` likewise. */
    method AddHead(item: ListItem, ghost mine: seq<ListItem>, ghost k: nat)
      requires Valid() && Ring(mine) && k < |mine| && mine[k] == item && Apart(mine, TheRing())
      modifies this`contents, TheRing(), mine
      ensures Valid() && contents == [item] + old(contents) && (|mine| > 1 ==> Ring(Dropped(mine, k)))
    {
      HeadLast(items, contents, mine);
      item.AddAfter(items, mine, k, contents + [items]);
      ghost var rest := Dropped(mine, k);
      assert |mine| > 1 ==> Ring(rest);
      BehindHead(items, [item], contents);
      contents := [item] + contents;
    }

    /** `addBetween`: all items go between the last and the first of a ring. An empty list leaves that ring as it
        is, but only because the second assignment changes what the third and the fourth read. */
    method AddBetween(before: ListItem, after: ListItem, ghost r: seq<ListItem>)
      requires Valid() && Ring(r) && before == r[|r| - 1] && after == r[0] && Apart(r, TheRing()) && Apart(TheRing(), r)
      modifies this`contents, TheRing(), before, after
      ensures Valid() && contents == [] && Ring(r + old(contents))
    {
      HeadAndContents(items, contents);
      HeadApart(r, items, contents);
      assert items.next in TheRing() && items.previous in TheRing() && before in r && after in r;
      before.next := items.next;
      items.next.previous := before;
      items.previous.next := after;
      after.previous := items.previous;
      items.next, items.previous := items, items;
      Spliced(r, contents);
      contents := [];
    }

    method SpliceTail(list: List)
      requires Valid() && list.Valid() && list != this && Apart(TheRing(), list.TheRing()) && Apart(list.TheRing(), TheRing())
      modifies this`contents, TheRing(), list`contents, list.TheRing()
      ensures Valid() && contents == old(contents) + old(list.contents) && list.Valid() && list.contents == []
    {
      FirstLinks(TheRing());
      ghost var added := list.contents;
      list.AddBetween(items.previous, items, TheRing());
      assert [items] + (contents + added) == [items] + contents + added;
      contents := contents + added;
    }

    method SpliceHead(list: List)
      requires Valid() && list.Valid() && list != this && Apart(TheRing(), list.TheRing()) && Apart(list.TheRing(), TheRing())
      modifies this`contents, TheRing(), list`contents, list.TheRing()
      ensures Valid() && contents == old(list.contents) + old(contents) && list.Valid() && list.contents == []
    {
      FirstLinks(TheRing());
      Rotate([items], contents);
      RotateApart(list.TheRing(), [items], contents);
      ghost var added := list.contents;
      list.AddBetween(items, items.next, contents + [items]);
      BehindHead(items, added, contents);
      contents := added + contents;
    }
  }

  /** The next item is looked up as soon as there is a current one, whatever is done to that. */
  class ListIterator {
    const list: List
    const backwards: bool
    var current: ListItem?
    var subsequent: ListItem?

    constructor (list: List, backwards: bool)
      requires list.Valid()
      ensures this.list == list && this.backwards == backwards
      ensures var n := |list.contents|;
              if n == 0 then current == null
              else && current == list.contents[if backwards then n - 1 else 0]
                   && subsequent == if n == 1 then null else list.contents[if backwards then n - 2 else 1]
    {
      this.list, this.backwards, subsequent := list, backwards, null;
      var item: ListItem?;
      var other: ListItem? := null;
      if !backwards {
        item := list.First();
        if item != null {
          other := list.Next(item, 0);
        }
      } else {
        item := list.Last();
        if item != null {
          other := list.Previous(item, |list.contents| - 1);
        }
      }
      current, subsequent := item, other;
    }

    /** `subsequent`: on to the item that was looked up, which is now at place k. */
    method Advance(ghost k: nat)
      requires list.Valid() && (subsequent != null ==> k < |list.contents| && list.contents[k] == subsequent)
      modifies this
      ensures current == old(subsequent)
      ensures current != null ==> subsequent == if backwards then (if k == 0 then null else list.contents[k - 1])
                                                else if k + 1 < |list.contents| then list.contents[k + 1] else null
    {
      current := subsequent;
      if current != null {
        if !backwards {
          subsequent := list.Next(current, k);
        } else {
          subsequent := list.Previous(current, k);
        }
      }
    }
  }

  function Selected(s: seq<ListItem>, p: ListItem -> bool): seq<ListItem> {
    if s == [] then [] else Selected(s[..|s| - 1], p) + if p(s[|s| - 1]) then [s[|s| - 1]] else []
  }

  predicate Inside(r: seq<ListItem>, space: set<ListItem>) {
    forall i :: 0 <= i < |r| ==> r[i] in space
  }

  /** Two lists with nothing in common, within a space of items. */
  ghost predicate TwoLists(from: List, to: List, space: set<ListItem>)
    reads from, from.items, from.contents, to, to.items, to.contents
  {
    && from.Valid() && to.Valid() && from != to && Apart(from.TheRing(), to.TheRing())
    && Inside(from.TheRing(), space) && Inside(to.TheRing(), space)
  }

  /** An item at place k is moved to the tail of another list. */
  method MoveOne(from: List, to: List, item: ListItem, ghost k: nat, ghost space: set<ListItem>)
    requires TwoLists(from, to, space) && k < |from.contents| && from.contents[k] == item
    modifies from`contents, to`contents, space
    ensures TwoLists(from, to, space)
    ensures from.contents == Dropped(old(from.contents), k) && to.contents == old(to.contents) + [item]
  {
    ghost var mine := from.TheRing();
    MoveFacts(from.items, from.contents, k, to.items, to.contents, space);
    to.AddTail(item, mine, k + 1);
    from.contents := Dropped(from.contents, k);
  }

  lemma MoveFacts(h: ListItem, s: seq<ListItem>, k: nat, g: ListItem, t: seq<ListItem>, space: set<ListItem>)
    requires Distinct([h] + s) && k < |s| && Apart([h] + s, [g] + t) && Inside([h] + s, space) && Inside([g] + t, space)
    ensures ([h] + s)[k + 1] == s[k] && Dropped([h] + s, k + 1) == [h] + Dropped(s, k)
    ensures Apart([h] + Dropped(s, k), [g] + (t + [s[k]]))
    ensures Inside([h] + Dropped(s, k), space) && Inside([g] + (t + [s[k]]), space)
  {
    MovedApart([h] + s, k + 1, [g] + t);
    assert ([h] + s)[k + 1] == s[k];
    assert [g] + t + [s[k]] == [g] + (t + [s[k]]);
    assert Dropped([h] + s, k + 1) == [h] + Dropped(s, k);
  }

  lemma SelectedNext(s: seq<ListItem>, i: nat, p: ListItem -> bool)
    requires i < |s|
    ensures Selected(s[..i + 1], p) == Selected(s[..i], p) + if p(s[i]) then [s[i]] else []
  {
    assert s[..i + 1][..i] == s[..i];
  }

  function Not(p: ListItem -> bool): ListItem -> bool {
    (x: ListItem) => !p(x)
  }

  /** After i turns of a walk along `all`: what is left of the list, what the other list has, what comes next. */
  ghost predicate Walked(walk: ListIterator, from: List, to: List, p: ListItem -> bool, all: seq<ListItem>, other: seq<ListItem>, i: nat)
    reads walk, from, to
  {
    && walk.list == from && !walk.backwards && i <= |all|
    && walk.current == (if i < |all| then all[i] else null)
    && (i < |all| ==> walk.subsequent == if i + 1 < |all| then all[i + 1] else null)
    && from.contents == LeftOver(all, p, i) && to.contents == other + Selected(all[..i], p)
  }

  /** What is left of the list, and where in it the walk is. */
  function LeftOver(all: seq<ListItem>, p: ListItem -> bool, i: nat): seq<ListItem>
    requires i <= |all|
  {
    Selected(all[..i], Not(p)) + all[i..]
  }

  function Place(all: seq<ListItem>, p: ListItem -> bool, i: nat): nat
    requires i <= |all|
  {
    |Selected(all[..i], Not(p))|
  }

  lemma LeftAt(all: seq<ListItem>, p: ListItem -> bool, i: nat)
    requires i <= |all|
    ensures |LeftOver(all, p, i)| == Place(all, p, i) + |all| - i
    ensures i < |all| ==> LeftOver(all, p, i)[Place(all, p, i)] == all[i]
    ensures i + 1 < |all| ==> LeftOver(all, p, i)[Place(all, p, i) + 1] == all[i + 1]
  {
  }

  /** What a turn does to the two sequences. */
  lemma TurnFacts(all: seq<ListItem>, other: seq<ListItem>, i: nat, p: ListItem -> bool)
    requires i < |all|
    ensures (if p(all[i]) then Dropped(LeftOver(all, p, i), Place(all, p, i)) else LeftOver(all, p, i)) == LeftOver(all, p, i + 1)
    ensures other + Selected(all[..i], p) + (if p(all[i]) then [all[i]] else []) == other + Selected(all[..i + 1], p)
  {
    SelectedNext(all, i, p);
    SelectedNext(all, i, Not(p));
  }

  method MoveIf(from: List, to: List, item: ListItem, p: ListItem -> bool, ghost k: nat, ghost space: set<ListItem>)
    requires TwoLists(from, to, space) && k < |from.contents| && from.contents[k] == item
    modifies from`contents, to`contents, space
    ensures TwoLists(from, to, space)
    ensures from.contents == if p(item) then Dropped(old(from.contents), k) else old(from.contents)
    ensures to.contents == old(to.contents) + if p(item) then [item] else []
  {
    if p(item) {
      MoveOne(from, to, item, k, space);
    }
  }

  /** The walk goes on while both lists stay as they are. */
  method GoOn(walk: ListIterator, from: List, to: List, ghost k: nat, ghost space: set<ListItem>)
    requires TwoLists(from, to, space) && walk.list == from && !walk.backwards
    requires walk.subsequent != null ==> k < |from.contents| && from.contents[k] == walk.subsequent
    modifies walk
    ensures TwoLists(from, to, space) && walk.list == from && !walk.backwards && walk.current == old(walk.subsequent)
    ensures walk.current != null ==> walk.subsequent == if k + 1 < |from.contents| then from.contents[k + 1] else null
  {
    walk.Advance(k);
  }

  /** One turn: the current item is moved if it is selected, and the walk goes on. */
  method Turn(walk: ListIterator, from: List, to: List, p: ListItem -> bool,
              ghost all: seq<ListItem>, ghost other: seq<ListItem>, ghost i: nat, ghost space: set<ListItem>)
    requires TwoLists(from, to, space) && Walked(walk, from, to, p, all, other, i) && i < |all|
    modifies walk, from`contents, to`contents, space
    ensures TwoLists(from, to, space) && Walked(walk, from, to, p, all, other, i + 1)
  {
    TurnFacts(all, other, i, p);
    LeftAt(all, p, i);
    MoveIf(from, to, walk.current, p, Place(all, p, i), space);
    LeftAt(all, p, i + 1);
    GoOn(walk, from, to, Place(all, p, i + 1), space);
  }

  /** A walk in which each item may be moved away on its turn visits every item once, in order. */
  method Walk(walk: ListIterator, from: List, to: List, p: ListItem -> bool,
              ghost all: seq<ListItem>, ghost other: seq<ListItem>, ghost space: set<ListItem>)
    requires TwoLists(from, to, space) && Walked(walk, from, to, p, all, other, 0)
    modifies walk, from`contents, to`contents, space
    ensures TwoLists(from, to, space)
    ensures from.contents == Selected(all, Not(p)) && to.contents == other + Selected(all, p)
  {
    ghost var i := 0;
    while walk.current != null
      invariant TwoLists(from, to, space) && Walked(walk, from, to, p, all, other, i)
      decreases |all| - i
    {
      Turn(walk, from, to, p, all, other, i, space);
      i := i + 1;
    }
    AllOf(all);
  }

  lemma AllOf(all: seq<ListItem>)
    ensures all[..|all|] == all && all[|all|..] == []
  {
  }

  method MoveSelected(from: List, to: List, p: ListItem -> bool)
    requires from.Valid() && to.Valid() && from != to && Apart(from.TheRing(), to.TheRing())
    modifies from`contents, to`contents, from.TheRing(), to.TheRing()
    ensures from.Valid() && to.Valid() && to.contents == old(to.contents) + Selected(old(from.contents), p)
    ensures from.contents == Selected(old(from.contents), Not(p))
  {
    ghost var space := set x | x in from.TheRing() + to.TheRing();
    var walk := new ListIterator(from, false);
    Walk(walk, from, to, p, from.contents, to.contents, space);
  }

  /** A ring can be read from any of its items on. */
  lemma Rotate(a: seq<ListItem>, b: seq<ListItem>)
    requires Ring(a + b)
    ensures Ring(b + a)
  {
    var r, s := a + b, b + a;
    forall i, j | 0 <= i < j < |s| ensures s[i] != s[j] {
      assert s[i] == r[if i < |b| then |a| + i else i - |b|] && s[j] == r[if j < |b| then |a| + j else j - |b|];
    }
    forall i | 0 <= i < |s| - 1 ensures Joined(s[i], s[i + 1]) {
      if i + 1 < |b| {
        assert Joined(r[|a| + i], r[|a| + i + 1]);
      } else if i >= |b| {
        assert Joined(r[i - |b|], r[i - |b| + 1]);
      }
    }
    if a != [] && b != [] {
      assert Joined(r[|a| - 1], r[|a| - 1 + 1]);
    }
  }

  lemma HeadLast(head: ListItem, contents: seq<ListItem>, mine: seq<ListItem>)
    requires Ring([head] + contents) && Apart(mine, [head] + contents)
    ensures Ring(contents + [head]) && Apart(mine, contents + [head]) && (contents + [head])[|contents|] == head
    ensures head.next in [head] + contents
  {
    Rotate([head], contents);
    RotateApart(mine, [head], contents);
    FirstLinks([head] + contents);
  }

  lemma MovedApart(r: seq<ListItem>, k: nat, s: seq<ListItem>)
    requires Distinct(r) && k < |r| && Apart(r, s)
    ensures Apart(Dropped(r, k), s + [r[k]])
  {
    DroppedOthers(r, k, s);
  }

  lemma BehindHead(head: ListItem, added: seq<ListItem>, contents: seq<ListItem>)
    requires Ring(contents + [head] + added)
    ensures Ring([head] + (added + contents))
  {
    assert contents + [head] + added == contents + ([head] + added);
    Rotate(contents, [head] + added);
    assert [head] + added + contents == [head] + (added + contents);
  }

  lemma RotateApart(m: seq<ListItem>, a: seq<ListItem>, b: seq<ListItem>)
    ensures Apart(m, a + b) ==> Apart(m, b + a)
    ensures Apart(a + b, m) ==> Apart(b + a, m)
  {
    var s := b + a;
    forall i | 0 <= i < |s| && Apart(m, a + b) ensures s[i] !in m {
      assert s[i] == (a + b)[if i < |b| then |a| + i else i - |b|];
    }
  }

  lemma HeadAndContents(head: ListItem, contents: seq<ListItem>)
    requires Ring([head] + contents)
    ensures Distinct(contents) && Chain(contents) && head !in contents
    ensures if contents == [] then Joined(head, head) else Joined(head, contents[0]) && Joined(contents[|contents| - 1], head)
  {
    var r := [head] + contents;
    forall i | 0 <= i < |contents| - 1 ensures Joined(contents[i], contents[i + 1]) {
      assert Joined(r[i + 1], r[i + 1 + 1]);
    }
    forall i, j | 0 <= i < j < |contents| ensures contents[i] != contents[j] {
      assert r[i + 1] != r[j + 1];
    }
    forall i | 0 <= i < |contents| ensures contents[i] != head {
      assert r[0] != r[i + 1];
    }
    assert contents != [] ==> Joined(r[0], r[0 + 1]);
  }

  lemma HeadApart(r: seq<ListItem>, head: ListItem, contents: seq<ListItem>)
    requires Apart(r, [head] + contents)
    ensures head !in r && Apart(r, contents)
  {
    assert ([head] + contents)[0] == head;
    forall i | 0 <= i < |contents| ensures contents[i] !in r {
      assert ([head] + contents)[i + 1] == contents[i];
    }
  }

  lemma Spliced(r: seq<ListItem>, contents: seq<ListItem>)
    requires r != [] && Distinct(r) && Chain(r) && Distinct(contents) && Chain(contents) && Apart(r, contents)
    requires if contents == [] then Joined(r[|r| - 1], r[0])
             else Joined(r[|r| - 1], contents[0]) && Joined(contents[|contents| - 1], r[0])
    ensures Ring(r + contents)
  {
    var s := r + contents;
    forall i, j | 0 <= i < j < |s| ensures s[i] != s[j] {
      if i < |r| <= j {
        assert r[i] in r && contents[j - |r|] !in r;
      }
    }
    forall i | 0 <= i < |s| - 1 ensures Joined(s[i], s[i + 1]) {
      if i + 1 < |r| {
        assert Joined(r[i], r[i + 1]);
      } else if i >= |r| {
        assert Joined(contents[i - |r|], contents[i - |r| + 1]);
      }
    }
  }
}
