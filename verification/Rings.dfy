/** Items of intrusive lists: circular, doubly linked, and never without neighbours: an item alone is its own. */
module Rings {

  class ListItem {
    var next: ListItem
    var previous: ListItem

    constructor ()
      ensures Ring([this]) && fresh(this)
    {
      next, previous := this, this;
    }

    /** `remove`: the item leaves its ring and is alone. */
    method Remove(ghost r: seq<ListItem>, ghost k: nat)
      requires Ring(r) && k < |r| && r[k] == this
      modifies r
      ensures Ring([this]) && (|r| > 1 ==> Ring(Dropped(r, k)))
    {
      Unlink(r, k);
      assert this !in Dropped(r, k);
      next := this;
      previous := this;
    }

    /** The neighbours are linked past the item, which keeps its own links: how every move begins. */
    method Unlink(ghost r: seq<ListItem>, ghost k: nat)
      requires Ring(r) && k < |r| && r[k] == this
      modifies r
      ensures next == old(next) && previous == old(previous) && (|r| > 1 ==> Ring(Dropped(r, k)))
    {
      LinksAt(r, k);
      previous.next := next;
      next.previous := previous;
      if |r| > 1 {
        DroppedRing(r, k);
      }
    }

    /** `addBetween`: assignments in an order that matters when the three are not different. Between the last and
        the first of a ring, the item becomes its last. */
    method AddBetween(before: ListItem, after: ListItem, ghost r: seq<ListItem>, ghost others: seq<ListItem>)
      modifies this, before, after
      ensures next == after && after.previous == this
      ensures before != this ==> before.next == this
      ensures after != this ==> previous == before
      ensures old(Ring(r)) && this !in r && before == r[|r| - 1] && after == r[0] ==> Ring(r + [this])
      ensures old(Ring(others)) && this !in others && before !in others && after !in others ==> Ring(others)
    {
      ghost var was := Ring(r) && this !in r && before == r[|r| - 1] && after == r[0];
      before.next := this;
      previous := before;
      next := after;
      after.previous := this;
      if was {
        Extended(r, this);
      }
    }

    /** `addBefore`: from ring `mine` to the end of `theirs`, which begins with the reference. Within one ring, where
        the item is at place k, the links stay inverse exactly if it is not the reference nor just before it, or is alone. */
    method AddBefore(existing: ListItem, ghost mine: seq<ListItem>, ghost k: nat, ghost theirs: seq<ListItem>)
      requires Ring(theirs) && theirs[0] == existing && MoveOk(this, mine, k, theirs)
      modifies mine, existing, existing.previous
      ensures Apart(mine, theirs) ==> Ring(theirs + [this]) && (|mine| > 1 ==> Ring(Dropped(mine, k)))
      ensures mine == theirs ==> if Movable(mine, k) then Ring(Dropped(mine, k) + [this]) else !Inverse(mine)
    {
      FirstLinks(theirs);
      LinksAt(mine, k);
      var before := existing.previous;
      Unlink(mine, k);
      ghost var rest := Dropped(mine, k);
      DroppedOthers(mine, k, theirs);
      assert Apart(mine, theirs) ==> Ring(theirs);
      AddBetween(before, existing, if Apart(mine, theirs) then theirs else rest, if Apart(mine, theirs) then rest else []);
      if |mine| == 1 {
        assert rest + [this] == [this];
      } else if k > 0 {
        assert mine[k - 1] in mine;
      }
    }

    /** `addAfter`: the mirror image. */
    method AddAfter(existing: ListItem, ghost mine: seq<ListItem>, ghost k: nat, ghost theirs: seq<ListItem>)
      requires Ring(theirs) && theirs[|theirs| - 1] == existing && MoveOk(this, mine, k, theirs)
      modifies mine, existing, existing.next
      ensures Apart(mine, theirs) ==> Ring(theirs + [this]) && (|mine| > 1 ==> Ring(Dropped(mine, k)))
      ensures mine == theirs ==> if Movable(mine, k) then Ring(Dropped(mine, k) + [this]) else !Inverse(mine)
    {
      LastLinks(theirs);
      LinksAt(mine, k);
      var after := existing.next;
      Unlink(mine, k);
      ghost var rest := Dropped(mine, k);
      DroppedOthers(mine, k, theirs);
      assert Apart(mine, theirs) ==> Ring(theirs);
      AddBetween(existing, after, if Apart(mine, theirs) then theirs else rest, if Apart(mine, theirs) then rest else []);
      if |mine| == 1 {
        assert rest + [this] == [this];
      } else if k + 1 < |mine| {
        assert mine[k + 1] in mine;
      }
    }
  }

  /** The item at place k is neither the first nor the last, or it is alone. */
  predicate Movable(r: seq<ListItem>, k: nat) {
    |r| == 1 || 0 < k < |r| - 1
  }

  predicate Joined(a: ListItem, b: ListItem)
    reads a, b
  {
    a.next == b && b.previous == a
  }

  predicate Distinct(r: seq<ListItem>) {
    forall i, j :: 0 <= i < j < |r| ==> r[i] != r[j]
  }

  predicate Apart(r: seq<ListItem>, s: seq<ListItem>) {
    forall i :: 0 <= i < |s| ==> s[i] !in r
  }

  predicate Chain(r: seq<ListItem>)
    reads r
  {
    forall i :: 0 <= i < |r| - 1 ==> Joined(r[i], r[i + 1])
  }

  /** The items in order, from any of them on. */
  predicate Ring(r: seq<ListItem>)
    reads r
  {
    r != [] && Distinct(r) && Chain(r) && Joined(r[|r| - 1], r[0])
  }

  function Dropped(r: seq<ListItem>, k: nat): seq<ListItem> {
    if k < |r| then r[..k] + r[k + 1..] else r
  }

  predicate MoveOk(x: ListItem, mine: seq<ListItem>, k: nat, theirs: seq<ListItem>)
    reads mine
  {
    Ring(mine) && k < |mine| && mine[k] == x && (Apart(mine, theirs) || mine == theirs)
  }

  lemma DroppedOthers(r: seq<ListItem>, k: nat, s: seq<ListItem>)
    requires Distinct(r) && k < |r|
    ensures var rest := Dropped(r, k);
            && r[k] !in rest && |rest| == |r| - 1 && (Apart(r, s) ==> forall i :: 0 <= i < |rest| ==> rest[i] !in s)
            && (0 < k < |r| - 1 ==> rest[0] == r[0] && rest[|rest| - 1] == r[|r| - 1])
  {
    var rest := Dropped(r, k);
    forall i | 0 <= i < |rest| && Apart(r, s) ensures rest[i] !in s {
      assert rest[i] in r;
    }
  }

  /** `next` and `previous` are inverse to each other. */
  predicate Inverse(r: seq<ListItem>)
    reads r, set x | x in r :: x.next, set x | x in r :: x.previous
  {
    forall x :: x in r ==> x.next.previous == x && x.previous.next == x
  }

  /** An item's neighbours are linked past it. */
  lemma DroppedRing(r: seq<ListItem>, k: nat)
    requires k < |r| && |r| > 1 && Distinct(r)
    requires Joined(r[if k == 0 then |r| - 1 else k - 1], r[if k == |r| - 1 then 0 else k + 1])
    requires forall i :: 0 <= i < |r| - 1 && i != k && i + 1 != k ==> Joined(r[i], r[i + 1])
    requires k == 0 || k == |r| - 1 || Joined(r[|r| - 1], r[0])
    ensures Ring(Dropped(r, k)) && r[k] !in Dropped(r, k)
  {
    var s := Dropped(r, k);
    forall i | 0 <= i < |s| - 1 ensures Joined(s[i], s[i + 1]) {
      var j := if i < k then i else i + 1;
      assert i == k - 1 || Joined(r[j], r[j + 1]);
    }
  }

  lemma LinksAt(r: seq<ListItem>, k: nat)
    requires Ring(r)
    ensures k < |r| ==> r[k].previous == r[if k == 0 then |r| - 1 else k - 1] && r[k].next == r[if k == |r| - 1 then 0 else k + 1]
  {
    if k < |r| {
      assert k > 0 ==> Joined(r[k - 1], r[k - 1 + 1]);
      assert k < |r| - 1 ==> Joined(r[k], r[k + 1]);
    }
  }

  lemma Extended(r: seq<ListItem>, x: ListItem)
    requires r != [] && Distinct(r) && Chain(r) && x !in r && Joined(r[|r| - 1], x) && Joined(x, r[0])
    ensures Ring(r + [x])
  {
    var s := r + [x];
    forall i | 0 <= i < |s| - 1 ensures Joined(s[i], s[i + 1]) {
      if i + 1 < |r| {
        assert Joined(r[i], r[i + 1]);
      }
    }
  }

  lemma LastLinks(r: seq<ListItem>)
    requires Ring(r)
    ensures r[|r| - 1].next == r[0] && r[|r| - 1].previous == if |r| > 1 then r[|r| - 2] else r[0]
  {
    if |r| > 1 {
      assert Joined(r[|r| - 2], r[|r| - 2 + 1]);
    }
  }

  lemma FirstLinks(r: seq<ListItem>)
    requires Ring(r)
    ensures r[0].previous == r[|r| - 1] && r[0].next == if |r| > 1 then r[1] else r[0]
  {
    if |r| > 1 {
      assert Joined(r[0], r[0 + 1]);
    }
  }
}
