/** The intrusive lists of the event loop: items carry their links and know their list. */
module IntrusiveLists {

  import opened Common

  class Item {
    var pPrev: Item?
    var pNext: Item?
    var pLink: Link?

    constructor ()
      ensures pPrev == null && pNext == null && pLink == null
    {
      pPrev, pNext, pLink := null, null, null;
    }
  }

  /** The item at a place, or null before the first and after the last. */
  ghost function At(s: seq<Item>, i: int): Item? {
    if 0 <= i < |s| then s[i] else null
  }

  /** The i-th item has the links of the sequence and belongs to the list. */
  ghost predicate Linked(s: seq<Item>, list: Link, i: nat)
    requires i < |s|
    reads s[i]
  {
    s[i].pPrev == At(s, i - 1) && s[i].pNext == At(s, i + 1) && s[i].pLink == list
  }

  class Link {
    var head: Item?
    var tail: Item?
    ghost var items: seq<Item>

    ghost predicate Valid()
      reads this, items
    {
      && Distinct(items) && head == At(items, 0) && tail == At(items, |items| - 1)
      && forall i | 0 <= i < |items| :: Linked(items, this, i)
    }

    constructor ()
      ensures Valid() && items == []
    {
      head, tail, items := null, null, [];
    }

    /** AddTail: an item that is in a list already, this one or another, stays where it is. */
    method AddTail(ap: Item)
      requires Valid() && (ap.pLink == null ==> ap !in items)
      modifies this, items, ap
      ensures Valid() && items == if old(ap.pLink) == null then old(items) + [ap] else old(items)
      ensures old(ap.pLink) != null ==>
                ap.pLink == old(ap.pLink) && ap.pPrev == old(ap.pPrev) && ap.pNext == old(ap.pNext)
    {
      if ap.pLink != null {
        return;
      }
      ghost var s := items;
      Alone(s, |s| - 1);
      if tail != null {
        assert tail == s[|s| - 1];
        tail.pNext := ap;
        ap.pNext := null;
        ap.pPrev := tail;
        tail := ap;
      } else {
        head, tail := ap, ap;
        ap.pNext, ap.pPrev := null, null;
      }
      ap.pLink := this;
      items := items + [ap];
      forall i | 0 <= i < |s|
        ensures Linked(items, this, i)
      {
        assert items[i] == s[i] && old(Linked(s, this, i));
      }
      assert Linked(items, this, |s|);
    }

    method PopHead()
      requires Valid()
      modifies this, items
      ensures Valid() && items == if old(items) == [] then [] else old(items)[1..]
      ensures old(items) != [] ==> var lp := old(items)[0]; lp.pPrev == null && lp.pNext == null && lp.pLink == null
    {
      if head == null {
        return;
      }
      ghost var s := items;
      assert Linked(s, this, 0);
      Alone(s, 0);
      Alone(s, 1);
      var lp := head;
      assert head == tail <==> |s| == 1;
      if head == tail {
        head, tail := null, null;
      } else {
        head := head.pNext;
      }
      lp.pPrev, lp.pNext := null, null;
      lp.pLink := null;
      if head != null {
        assert head == s[1];
        head.pPrev := null;
      }
      items := items[1..];
      forall i | 0 <= i < |items|
        ensures Linked(items, this, i)
      {
        assert items[i] == s[i + 1] && old(Linked(s, this, i + 1));
      }
    }

    /** The loop of Join: the items of the other list change hands. */
    method Adopt(other: Link)
      requires other.Valid() && other != this
      modifies other.items`pLink
      ensures forall i | 0 <= i < |other.items| :: other.items[i].pLink == this
    {
      ghost var o := other.items;
      var lp := other.head;
      ghost var n := 0;
      while lp != null
        invariant n <= |o| && lp == At(o, n)
        invariant forall i | 0 <= i < n :: o[i].pLink == this
        decreases |o| - n
      {
        assert old(Linked(o, other, n));
        Alone(o, n);
        lp.pLink := this;
        lp := lp.pNext;
        n := n + 1;
      }
    }

    /** Join: the items of the other list come after the own ones, in order. The other list must not be
        empty unless this one is: its first item is written to without a test. */
    method Join(other: Link)
      requires Valid() && other.Valid() && other != this && Apart(items, other.items)
               && (items == [] || other.items != [])
      modifies this, items, other, other.items
      ensures Valid() && other.Valid() && items == old(items) + old(other.items) && other.items == []
    {
      JoinedDistinct(items, other.items);
      Tie(other);
      other.head, other.tail, other.items := null, null, [];
    }

    /** All of Join but the clearing of the other list. */
    method Tie(other: Link)
      requires Valid() && other.Valid() && other != this && Apart(items, other.items)
               && (items == [] || other.items != [])
      requires Distinct(items + other.items)
      modifies this, items, other.items
      ensures Valid() && items == old(items) + other.items
    {
      ghost var s, o := items, other.items;
      Adopt(other);
      var lp := other.head;
      Alone(s, |s| - 1);
      Alone(o, 0);
      if tail != null {
        assert tail == s[|s| - 1] && lp == o[0];
        tail.pNext := lp;
        lp.pPrev := tail;
        tail := other.tail;
      } else {
        head := other.head;
        tail := other.tail;
      }
      items := s + o;
      forall i | 0 <= i < |items|
        ensures Linked(items, this, i)
      {
        Concat(s, o, i - 1);
        Concat(s, o, i + 1);
        if i < |s| {
          assert items[i] == s[i] && old(Linked(s, this, i));
        } else {
          assert items[i] == o[i - |s|] && old(Linked(o, other, i - |s|));
        }
      }
    }
  }

  ghost predicate Apart(s: seq<Item>, o: seq<Item>) {
    forall i, j | 0 <= i < |s| && 0 <= j < |o| :: s[i] != o[j]
  }

  lemma JoinedDistinct(s: seq<Item>, o: seq<Item>)
    requires Distinct(s) && Distinct(o) && Apart(s, o)
    ensures Distinct(s + o)
  {
  }

  lemma Concat(s: seq<Item>, o: seq<Item>, i: int)
    ensures At(s + o, i) == if i < |s| then At(s, i) else At(o, i - |s|)
  {
  }

  /** RemoveFromLink: the item leaves whatever list it is in, from any place; k is its place. */
  method RemoveFromLink(ap: Item, ghost k: nat)
    requires ap.pLink != null ==> ap.pLink.Valid() && k < |ap.pLink.items| && ap.pLink.items[k] == ap
    modifies ap, ap.pLink, if ap.pLink == null then [] else ap.pLink.items
    ensures ap.pLink == null
    ensures var lst := old(ap.pLink);
            if lst == null then ap.pPrev == old(ap.pPrev) && ap.pNext == old(ap.pNext)
            else lst.Valid() && lst.items == Without(old(ap.pLink.items), k) && ap.pPrev == null && ap.pNext == null
  {
    var lst := ap.pLink;
    if lst == null {
      return;
    }
    ghost var s := lst.items;
    Alone(s, k - 1);
    Alone(s, k);
    Alone(s, k + 1);
    assert Linked(s, lst, k);
    assert ap == lst.head <==> k == 0;
    assert ap == lst.tail <==> k == |s| - 1;
    if ap == lst.head {
      lst.head := ap.pNext;
      if lst.head != null {
        assert lst.head == s[1];
        lst.head.pPrev := null;
      }
    } else {
      if ap.pPrev != null {
        assert ap.pPrev == s[k - 1];
        ap.pPrev.pNext := ap.pNext;
      }
    }
    if ap == lst.tail {
      lst.tail := ap.pPrev;
      if lst.tail != null {
        lst.tail.pNext := null;
      }
    } else {
      assert ap.pNext == s[k + 1];
      ap.pNext.pPrev := ap.pPrev;
    }
    ap.pPrev, ap.pNext := null, null;
    ap.pLink := null;
    lst.items := Without(s, k);
    Removed(s, k);
    forall i | 0 <= i < |lst.items|
      ensures Linked(lst.items, lst, i)
    {
      var j := if i < k then i else i + 1;
      assert lst.items[i] == s[j] && old(Linked(s, lst, j));
    }
  }
}
