/** The skip list of deadlines with rings of equal times, against a map from id to deadline. */
module TimeoutLists {

  import opened Common

  const MAX_LEVEL: nat := 16
  const MAX_UINT64: nat := 0xFFFF_FFFF_FFFF_FFFF

  /** A node. next and prev are its links in the skip list, one pair for each of its levels;
      ringNext and ringPrev link the nodes of one time, the first of which is in the skip list. */
  class Node<T> {
    const expireTime: nat
    const id: nat
    const data: T
    var next: seq<Node?<T>>
    var prev: seq<Node?<T>>
    var ringNext: Node?<T>
    var ringPrev: Node?<T>

    constructor (expireTime: nat, id: nat, level: nat, data: T)
      ensures this.expireTime == expireTime && this.id == id && this.data == data
      ensures |next| == |prev| == level && ringNext == this && ringPrev == this
    {
      this.expireTime, this.id, this.data := expireTime, id, data;
      next, prev := seq(level, _ => null), seq(level, _ => null);
      ringNext, ringPrev := this, this;
    }
  }

  // ----- levels -----

  /** At level i, position b follows position a: hs are the heights along the list. */
  ghost predicate Adjacent(hs: seq<nat>, i: nat, a: nat, b: nat) {
    a < b < |hs| && hs[a] > i && hs[b] > i && forall c | a < c < b :: hs[c] <= i
  }

  /** The links of all nodes, as a value. */
  datatype Links<T> = Links(next: seq<Node?<T>>, prev: seq<Node?<T>>)

  ghost function NextOf<T>(m: map<Node<T>, Links<T>>, n: Node<T>, i: nat): Node?<T> {
    if n in m && i < |m[n].next| then m[n].next[i] else null
  }

  ghost function PrevOf<T>(m: map<Node<T>, Links<T>>, n: Node<T>, i: nat): Node?<T> {
    if n in m && i < |m[n].prev| then m[n].prev[i] else null
  }

  ghost predicate Linked<T>(m: map<Node<T>, Links<T>>, chain: seq<Node<T>>, i: nat, a: nat, b: nat)
    requires a < |chain| && b < |chain|
  {
    NextOf(m, chain[a], i) == chain[b] && PrevOf(m, chain[b], i) == chain[a]
  }

  /** At level i, next and prev are those of the nodes that reach the level, in order. */
  ghost predicate Level<T>(m: map<Node<T>, Links<T>>, chain: seq<Node<T>>, hs: seq<nat>, i: nat)
    requires |chain| == |hs|
  {
    forall a, b | Adjacent(hs, i, a, b) :: Linked(m, chain, i, a, b)
  }

  lemma {:induction false} Successor(hs: seq<nat>, i: nat, a: nat, last: nat) returns (b: nat)
    requires a < last < |hs| && hs[a] > i && hs[last] > i
    ensures Adjacent(hs, i, a, b) && b <= last
    decreases last - a
  {
    b := a + 1;
    while hs[b] <= i
      invariant a < b <= last && forall c | a < c < b :: hs[c] <= i
      decreases last - b
    {
      b := b + 1;
    }
  }

  lemma {:induction false} Predecessor(hs: seq<nat>, i: nat, b: nat) returns (a: nat)
    requires 0 < b < |hs| && hs[0] > i && hs[b] > i
    ensures Adjacent(hs, i, a, b)
  {
    a := b - 1;
    while hs[a] <= i
      invariant 0 <= a < b && forall c | a < c < b :: hs[c] <= i
      decreases a
    {
      a := a - 1;
    }
  }

  /** A new position among the heights. */
  ghost function Put<A>(s: seq<A>, k: nat, x: A): seq<A>
    requires k <= |s|
  {
    s[..k] + [x] + s[k..]
  }

  ghost function Cut<A>(s: seq<A>, k: nat): seq<A>
    requires k < |s|
  {
    s[..k] + s[k + 1..]
  }

  ghost function With<A>(s: seq<A>, k: nat, x: A): seq<A>
    requires k < |s|
  {
    s[k := x]
  }

  /** Where a position of the longer list was before. */
  ghost function Before(k: nat, a: nat): nat
    requires a != k
  {
    if a < k then a else a - 1
  }

  /** Links between old positions, where the new one does not come between. */
  lemma AdjacentPut(hs: seq<nat>, k: nat, h: nat, i: nat, a: nat, b: nat)
    requires k <= |hs| && Adjacent(Put(hs, k, h), i, a, b) && a != k && b != k
    ensures Adjacent(hs, i, Before(k, a), Before(k, b)) && (a < k < b ==> h <= i)
  {
    var hs' := Put(hs, k, h);
    var a0, b0 := Before(k, a), Before(k, b);
    assert hs'[a] == hs[a0] && hs'[b] == hs[b0];
    forall c | a0 < c < b0
      ensures hs[c] <= i
    {
      assert hs[c] == hs'[if c < k then c else c + 1];
    }
    if a < k < b { assert hs'[k] == h; }
  }

  /** A level that the new node does not reach stays as it is. */
  lemma LevelUnderPut<T>(m: map<Node<T>, Links<T>>, chain: seq<Node<T>>, hs: seq<nat>, k: nat, n: Node<T>, h: nat,
                         i: nat)
    requires |chain| == |hs| && k <= |hs| && h <= i && Level(m, chain, hs, i)
    ensures Level(m, Put(chain, k, n), Put(hs, k, h), i)
  {
    hide NextOf, PrevOf;
    var chain', hs' := Put(chain, k, n), Put(hs, k, h);
    forall a, b | Adjacent(hs', i, a, b)
      ensures Linked(m, chain', i, a, b)
    {
      AdjacentPut(hs, k, h, i, a, b);
      assert Linked(m, chain, i, Before(k, a), Before(k, b));
    }
  }

  /** A level that the new node does reach: the pair around it makes way. */
  lemma LevelPut<T>(m: map<Node<T>, Links<T>>, m': map<Node<T>, Links<T>>, chain: seq<Node<T>>, hs: seq<nat>, k: nat,
                    n: Node<T>, h: nat, i: nat, a0: nat, b0: nat)
    requires |chain| == |hs| && 0 < k < |hs| && i < h && Level(m, chain, hs, i)
    requires Adjacent(hs, i, a0, b0) && a0 < k <= b0
    requires NextOf(m', n, i) == chain[b0] && PrevOf(m', n, i) == chain[a0]
    requires NextOf(m', chain[a0], i) == n && PrevOf(m', chain[b0], i) == n
    requires forall a | 0 <= a < |chain| && a != a0 :: NextOf(m', chain[a], i) == NextOf(m, chain[a], i)
    requires forall b | 0 <= b < |chain| && b != b0 :: PrevOf(m', chain[b], i) == PrevOf(m, chain[b], i)
    ensures Level(m', Put(chain, k, n), Put(hs, k, h), i)
  {
    hide NextOf, PrevOf;
    var chain', hs' := Put(chain, k, n), Put(hs, k, h);
    forall a, b | Adjacent(hs', i, a, b)
      ensures Linked(m', chain', i, a, b)
    {
      PairPut(hs, k, h, i, a0, b0, a, b);
      if a != k && b != k {
        AdjacentPut(hs, k, h, i, a, b);
        assert Linked(m, chain, i, Before(k, a), Before(k, b));
      }
    }
  }

  /** The only pairs at the new position are those with its neighbours. */
  lemma PairPut(hs: seq<nat>, k: nat, h: nat, i: nat, a0: nat, b0: nat, a: nat, b: nat)
    requires 0 < k < |hs| && i < h && Adjacent(hs, i, a0, b0) && a0 < k <= b0 && Adjacent(Put(hs, k, h), i, a, b)
    ensures a == k ==> b == b0 + 1
    ensures b == k ==> a == a0
    ensures a != k && b != k ==> Before(k, a) != a0 && Before(k, b) != b0
  {
    var hs' := Put(hs, k, h);
    assert hs'[k] == h && hs'[a0] == hs[a0] && hs'[b0 + 1] == hs[b0];
    assert forall c | a0 < c < b0 + 1 && c != k :: hs'[c] == hs[Before(k, c)];
    assert forall c | a0 < c < b0 + 1 && c != k :: hs'[c] <= i;
    if a != k && b != k {
      AdjacentPut(hs, k, h, i, a, b);
    }
  }

  /** Links between positions of the shorter list, seen in the longer one. */
  lemma AdjacentCut(hs: seq<nat>, k: nat, h: nat, i: nat, a: nat, b: nat)
    requires 0 < k < |hs| && Adjacent(hs, i, a, b)
    ensures var a', b' := if a < k then a else a + 1, if b < k then b else b + 1;
            if a < k <= b && i < h then Adjacent(Put(hs, k, h), i, a, k) && Adjacent(Put(hs, k, h), i, k, b')
            else Adjacent(Put(hs, k, h), i, a', b')
  {
    var hs' := Put(hs, k, h);
    assert forall c | 0 <= c < |hs'| && c != k :: hs'[c] == hs[Before(k, c)];
    assert hs'[k] == h;
  }

  /** A level that the removed node did not reach stays as it is. */
  lemma LevelUnderCut<T>(m: map<Node<T>, Links<T>>, chain: seq<Node<T>>, hs: seq<nat>, k: nat, n: Node<T>, h: nat,
                         i: nat)
    requires |chain| == |hs| && 0 < k < |hs| && h <= i && Level(m, Put(chain, k, n), Put(hs, k, h), i)
    ensures Level(m, chain, hs, i)
  {
    hide NextOf, PrevOf;
    forall a: nat, b: nat | Adjacent(hs, i, a, b)
      ensures Linked(m, chain, i, a, b)
    {
      AdjacentCut(hs, k, h, i, a, b);
      assert Linked(m, Put(chain, k, n), i, if a < k then a else a + 1, if b < k then b else b + 1);
    }
  }

  /** A level that the removed node did reach: its neighbours are joined. */
  lemma LevelCut<T>(m: map<Node<T>, Links<T>>, m': map<Node<T>, Links<T>>, chain: seq<Node<T>>, hs: seq<nat>, k: nat,
                    n: Node<T>, h: nat, i: nat, a0: nat, b0: nat)
    requires |chain| == |hs| && 0 < k < |hs| && i < h && Level(m, Put(chain, k, n), Put(hs, k, h), i)
    requires Adjacent(hs, i, a0, b0) && a0 < k <= b0
    requires NextOf(m', chain[a0], i) == chain[b0] && PrevOf(m', chain[b0], i) == chain[a0]
    requires forall a | 0 <= a < |chain| && a != a0 :: NextOf(m', chain[a], i) == NextOf(m, chain[a], i)
    requires forall b | 0 <= b < |chain| && b != b0 :: PrevOf(m', chain[b], i) == PrevOf(m, chain[b], i)
    ensures Level(m', chain, hs, i)
  {
    hide NextOf, PrevOf;
    forall a: nat, b: nat | Adjacent(hs, i, a, b)
      ensures Linked(m', chain, i, a, b)
    {
      SamePair(hs, i, a0, b0, a, b);
      if a != a0 {
        StraddlesOnce(hs, i, k, a0, b0, a, b);
        AdjacentCut(hs, k, h, i, a, b);
        assert Linked(m, Put(chain, k, n), i, if a < k then a else a + 1, if b < k then b else b + 1);
      }
    }
  }

  lemma SamePair(hs: seq<nat>, i: nat, a0: nat, b0: nat, a: nat, b: nat)
    requires Adjacent(hs, i, a0, b0) && Adjacent(hs, i, a, b)
    ensures a == a0 <==> b == b0
  {
  }

  lemma StraddlesOnce(hs: seq<nat>, i: nat, k: nat, a0: nat, b0: nat, a: nat, b: nat)
    requires Adjacent(hs, i, a0, b0) && a0 < k <= b0 && Adjacent(hs, i, a, b) && a != a0
    ensures !(a < k <= b)
  {
  }

  /** Another node at the same position. */
  lemma LevelReplace<T>(m: map<Node<T>, Links<T>>, m': map<Node<T>, Links<T>>, chain: seq<Node<T>>, hs: seq<nat>,
                        k: nat, n: Node<T>, i: nat)
    requires |chain| == |hs| && k < |hs| && Level(m, chain, hs, i)
    requires forall a | 0 <= a < |chain| && a != k ::
               NextOf(m', chain[a], i) == if Adjacent(hs, i, a, k) then n else NextOf(m, chain[a], i)
    requires forall b | 0 <= b < |chain| && b != k ::
               PrevOf(m', chain[b], i) == if Adjacent(hs, i, k, b) then n else PrevOf(m, chain[b], i)
    requires hs[k] > i ==> NextOf(m', n, i) == NextOf(m, chain[k], i) && PrevOf(m', n, i) == PrevOf(m, chain[k], i)
    ensures Level(m', With(chain, k, n), hs, i)
  {
    hide NextOf, PrevOf;
    forall a: nat, b: nat | Adjacent(hs, i, a, b)
      ensures Linked(m', With(chain, k, n), i, a, b)
    {
      assert Linked(m, chain, i, a, b);
    }
  }

  // ----- changing one link -----

  ghost function SetNext<T>(m: map<Node<T>, Links<T>>, n: Node<T>, i: nat, x: Node?<T>): map<Node<T>, Links<T>> {
    if n in m && i < |m[n].next| then m[n := m[n].(next := m[n].next[i := x])] else m
  }

  ghost function SetPrev<T>(m: map<Node<T>, Links<T>>, n: Node<T>, i: nat, x: Node?<T>): map<Node<T>, Links<T>> {
    if n in m && i < |m[n].prev| then m[n := m[n].(prev := m[n].prev[i := x])] else m
  }

  lemma AfterSetNext<T>(m: map<Node<T>, Links<T>>, n: Node<T>, i: nat, x: Node?<T>, q: Node<T>, j: nat)
    ensures NextOf(SetNext(m, n, i, x), q, j) ==
            if q == n && j == i && n in m && i < |m[n].next| then x else NextOf(m, q, j)
    ensures PrevOf(SetNext(m, n, i, x), q, j) == PrevOf(m, q, j)
  {
  }

  lemma AfterSetPrev<T>(m: map<Node<T>, Links<T>>, n: Node<T>, i: nat, x: Node?<T>, q: Node<T>, j: nat)
    ensures PrevOf(SetPrev(m, n, i, x), q, j) ==
            if q == n && j == i && n in m && i < |m[n].prev| then x else PrevOf(m, q, j)
    ensures NextOf(SetPrev(m, n, i, x), q, j) == NextOf(m, q, j)
  {
  }

  /** Every node has as many links as its height. */
  ghost predicate Heights<T>(m: map<Node<T>, Links<T>>, chain: seq<Node<T>>, hs: seq<nat>) {
    |chain| == |hs| && forall a | 0 <= a < |chain| ::
      chain[a] in m && |m[chain[a]].next| == hs[a] && |m[chain[a]].prev| == hs[a]
  }

  ghost predicate Descending<T>(chain: seq<Node<T>>) {
    forall a, b | 0 <= a < b < |chain| :: chain[a].expireTime > chain[b].expireTime
  }

  /** The node n, at level i, between P and N. */
  ghost function Hooked<T>(m: map<Node<T>, Links<T>>, n: Node<T>, i: nat, p: Node<T>,
                           q: Node<T>): map<Node<T>, Links<T>> {
    SetPrev(SetNext(SetPrev(SetNext(m, n, i, q), n, i, p), p, i, n), q, i, n)
  }

  /** P and N, at level i, without what was between. */
  ghost function Unhooked<T>(m: map<Node<T>, Links<T>>, i: nat, p: Node<T>, q: Node<T>): map<Node<T>, Links<T>> {
    SetPrev(SetNext(m, p, i, q), q, i, p)
  }

  lemma AfterHook<T>(m: map<Node<T>, Links<T>>, n: Node<T>, i: nat, p: Node<T>, q: Node<T>, x: Node<T>, j: nat)
    requires n in m && p in m && q in m && n != p && n != q && p != q
    requires i < |m[n].next| && i < |m[n].prev| && i < |m[p].next| && i < |m[q].prev|
    ensures NextOf(Hooked(m, n, i, p, q), x, j) == if j != i then NextOf(m, x, j) else if x == n then q
            else if x == p then n else NextOf(m, x, j)
    ensures PrevOf(Hooked(m, n, i, p, q), x, j) == if j != i then PrevOf(m, x, j) else if x == n then p
            else if x == q then n else PrevOf(m, x, j)
  {
    var m1 := SetNext(m, n, i, q);
    var m2 := SetPrev(m1, n, i, p);
    var m3 := SetNext(m2, p, i, n);
    AfterSetNext(m, n, i, q, x, j);
    AfterSetPrev(m1, n, i, p, x, j);
    AfterSetNext(m2, p, i, n, x, j);
    AfterSetPrev(m3, q, i, n, x, j);
    hide NextOf, PrevOf;
  }

  lemma AfterUnhook<T>(m: map<Node<T>, Links<T>>, i: nat, p: Node<T>, q: Node<T>, x: Node<T>, j: nat)
    requires p in m && q in m && p != q && i < |m[p].next| && i < |m[q].prev|
    ensures NextOf(Unhooked(m, i, p, q), x, j) == if j == i && x == p then q else NextOf(m, x, j)
    ensures PrevOf(Unhooked(m, i, p, q), x, j) == if j == i && x == q then p else PrevOf(m, x, j)
  {
    AfterSetNext(m, p, i, q, x, j);
    AfterSetPrev(SetNext(m, p, i, q), q, i, p, x, j);
    hide NextOf, PrevOf;
  }

  lemma SameLevel<T>(m: map<Node<T>, Links<T>>, m': map<Node<T>, Links<T>>, chain: seq<Node<T>>, hs: seq<nat>, j: nat)
    requires |chain| == |hs| && Level(m, chain, hs, j)
    requires forall a | 0 <= a < |chain| ::
               NextOf(m', chain[a], j) == NextOf(m, chain[a], j) && PrevOf(m', chain[a], j) == PrevOf(m, chain[a], j)
    ensures Level(m', chain, hs, j)
  {
    hide NextOf, PrevOf;
    forall a: nat, b: nat | Adjacent(hs, j, a, b)
      ensures Linked(m', chain, j, a, b)
    {
      assert Linked(m, chain, j, a, b);
    }
  }

  /** The new node is in the levels below i, and not yet in those above. */
  ghost predicate Rising<T>(m: map<Node<T>, Links<T>>, chain: seq<Node<T>>, hs: seq<nat>, k: nat, n: Node<T>, h: nat,
                            i: nat)
    requires |chain| == |hs| && k <= |hs|
  {
    && (forall j: nat | j < i :: Level(m, Put(chain, k, n), Put(hs, k, h), j))
    && (forall j: nat | i <= j < MAX_LEVEL :: Level(m, chain, hs, j))
  }

  /** One turn of the loop that links a new node. */
  lemma RiseOne<T>(m: map<Node<T>, Links<T>>, chain: seq<Node<T>>, hs: seq<nat>, k: nat, n: Node<T>, h: nat, i: nat,
                   a: nat, b: nat)
    requires Heights(m, chain, hs) && Descending(chain) && 0 < k < |hs| && i < h <= MAX_LEVEL
             && Rising(m, chain, hs, k, n, h, i)
    requires n !in chain && n in m && |m[n].next| == |m[n].prev| == h
    requires Adjacent(hs, i, a, b) && a < k <= b
    ensures Rising(Hooked(m, n, i, chain[a], chain[b]), chain, hs, k, n, h, i + 1)
  {
    var m' := Hooked(m, n, i, chain[a], chain[b]);
    hide NextOf, PrevOf, Hooked, Put, Level;
    forall x: nat, j: nat | x < |chain|
      ensures NextOf(m', chain[x], j) == if j == i && x == a then n else NextOf(m, chain[x], j)
      ensures PrevOf(m', chain[x], j) == if j == i && x == b then n else PrevOf(m, chain[x], j)
    {
      AfterHook(m, n, i, chain[a], chain[b], chain[x], j);
    }
    forall j: nat
      ensures NextOf(m', n, j) == if j == i then chain[b] else NextOf(m, n, j)
      ensures PrevOf(m', n, j) == if j == i then chain[a] else PrevOf(m, n, j)
    {
      AfterHook(m, n, i, chain[a], chain[b], n, j);
    }
    assert Level(m, chain, hs, i);
    LevelPut(m, m', chain, hs, k, n, h, i, a, b);
    forall j: nat | i < j < MAX_LEVEL
      ensures Level(m', chain, hs, j)
    {
      SameLevel(m, m', chain, hs, j);
    }
    forall j: nat | j < i
      ensures Level(m', Put(chain, k, n), Put(hs, k, h), j)
    {
      SameLevelPut(m, m', chain, hs, k, n, h, j);
    }
  }

  lemma SameLevelPut<T>(m: map<Node<T>, Links<T>>, m': map<Node<T>, Links<T>>, chain: seq<Node<T>>, hs: seq<nat>,
                        k: nat, n: Node<T>, h: nat, j: nat)
    requires |chain| == |hs| && k <= |hs| && Level(m, Put(chain, k, n), Put(hs, k, h), j)
    requires forall a | 0 <= a < |chain| ::
               NextOf(m', chain[a], j) == NextOf(m, chain[a], j) && PrevOf(m', chain[a], j) == PrevOf(m, chain[a], j)
    requires NextOf(m', n, j) == NextOf(m, n, j) && PrevOf(m', n, j) == PrevOf(m, n, j)
    ensures Level(m', Put(chain, k, n), Put(hs, k, h), j)
  {
    hide NextOf, PrevOf, Level;
    var chain' := Put(chain, k, n);
    forall a | 0 <= a < |chain'|
      ensures NextOf(m', chain'[a], j) == NextOf(m, chain'[a], j) && PrevOf(m', chain'[a], j) == PrevOf(m, chain'[a], j)
    {
      if a != k { assert chain'[a] == chain[Before(k, a)]; }
    }
    SameLevel(m, m', chain', Put(hs, k, h), j);
  }

  /** All levels are right once the new node is in all of its own. */
  lemma Risen<T>(m: map<Node<T>, Links<T>>, chain: seq<Node<T>>, hs: seq<nat>, k: nat, n: Node<T>, h: nat)
    requires |chain| == |hs| && k <= |hs| && h <= MAX_LEVEL && Rising(m, chain, hs, k, n, h, h)
    ensures forall j: nat | j < MAX_LEVEL :: Level(m, Put(chain, k, n), Put(hs, k, h), j)
  {
    forall j: nat | h <= j < MAX_LEVEL
      ensures Level(m, Put(chain, k, n), Put(hs, k, h), j)
    {
      LevelUnderPut(m, chain, hs, k, n, h, j);
    }
  }

  /** The removed node is out of the levels below i, and still in those above. */
  ghost predicate Falling<T>(m: map<Node<T>, Links<T>>, chain: seq<Node<T>>, hs: seq<nat>, k: nat, n: Node<T>, h: nat,
                             i: nat)
    requires |chain| == |hs| && k <= |hs|
  {
    && (forall j: nat | j < i :: Level(m, chain, hs, j))
    && (forall j: nat | i <= j < MAX_LEVEL :: Level(m, Put(chain, k, n), Put(hs, k, h), j))
  }

  /** One turn of the loop that takes a node out. */
  lemma FallOne<T>(m: map<Node<T>, Links<T>>, chain: seq<Node<T>>, hs: seq<nat>, k: nat, n: Node<T>, h: nat, i: nat,
                   a: nat, b: nat)
    requires Heights(m, chain, hs) && Descending(chain) && 0 < k < |hs| && i < h <= MAX_LEVEL
             && Falling(m, chain, hs, k, n, h, i)
    requires n !in chain && Adjacent(hs, i, a, b) && a < k <= b
    ensures NextOf(m, n, i) == chain[b] && PrevOf(m, n, i) == chain[a]
    ensures Falling(Unhooked(m, i, chain[a], chain[b]), chain, hs, k, n, h, i + 1)
  {
    var m' := Unhooked(m, i, chain[a], chain[b]);
    NeighboursOf(m, chain, hs, k, n, h, i, a, b);
    hide NextOf, PrevOf, Unhooked, Put, Level;
    forall x: nat, j: nat | x < |chain|
      ensures NextOf(m', chain[x], j) == if j == i && x == a then chain[b] else NextOf(m, chain[x], j)
      ensures PrevOf(m', chain[x], j) == if j == i && x == b then chain[a] else PrevOf(m, chain[x], j)
    {
      AfterUnhook(m, i, chain[a], chain[b], chain[x], j);
    }
    forall j: nat
      ensures NextOf(m', n, j) == NextOf(m, n, j) && PrevOf(m', n, j) == PrevOf(m, n, j)
    {
      AfterUnhook(m, i, chain[a], chain[b], n, j);
    }
    assert Level(m, Put(chain, k, n), Put(hs, k, h), i);
    LevelCut(m, m', chain, hs, k, n, h, i, a, b);
    forall j: nat | j < i
      ensures Level(m', chain, hs, j)
    {
      SameLevel(m, m', chain, hs, j);
    }
    forall j: nat | i < j < MAX_LEVEL
      ensures Level(m', Put(chain, k, n), Put(hs, k, h), j)
    {
      SameLevelPut(m, m', chain, hs, k, n, h, j);
    }
  }

  lemma NeighboursOf<T>(m: map<Node<T>, Links<T>>, chain: seq<Node<T>>, hs: seq<nat>, k: nat, n: Node<T>, h: nat,
                        i: nat, a: nat, b: nat)
    requires |chain| == |hs| && 0 < k < |hs| && i < h && Level(m, Put(chain, k, n), Put(hs, k, h), i)
    requires Adjacent(hs, i, a, b) && a < k <= b
    ensures NextOf(m, n, i) == chain[b] && PrevOf(m, n, i) == chain[a]
  {
    hide NextOf, PrevOf;
    AdjacentCut(hs, k, h, i, a, b);
    assert Linked(m, Put(chain, k, n), i, a, k) && Linked(m, Put(chain, k, n), i, k, b + 1);
  }

  lemma Fallen<T>(m: map<Node<T>, Links<T>>, chain: seq<Node<T>>, hs: seq<nat>, k: nat, n: Node<T>, h: nat)
    requires |chain| == |hs| && 0 < k < |hs| && h <= MAX_LEVEL && Falling(m, chain, hs, k, n, h, h)
    ensures forall j: nat | j < MAX_LEVEL :: Level(m, chain, hs, j)
  {
    forall j: nat | h <= j < MAX_LEVEL
      ensures Level(m, chain, hs, j)
    {
      LevelUnderCut(m, chain, hs, k, n, h, j);
    }
  }

  /** The links as they would be if the k-th node still had those that it gave to n. */
  ghost function Lent<T>(m: map<Node<T>, Links<T>>, was: Node<T>, n: Node<T>): map<Node<T>, Links<T>> {
    if n in m then m[was := m[n]] else m
  }

  /** n has taken over the k-th place in the levels below i. */
  ghost predicate Replacing<T>(m: map<Node<T>, Links<T>>, chain: seq<Node<T>>, hs: seq<nat>, k: nat, n: Node<T>, i: nat)
    requires |chain| == |hs| && k < |hs|
  {
    && (forall j: nat | j < i :: Level(m, With(chain, k, n), hs, j))
    && (forall j: nat | i <= j < MAX_LEVEL :: Level(Lent(m, chain[k], n), chain, hs, j))
  }

  lemma AfterRelink<T>(m: map<Node<T>, Links<T>>, i: nat, p: Node<T>, q: Node<T>, n: Node<T>, x: Node<T>, j: nat)
    requires p in m && q in m && i < |m[p].next| && i < |m[q].prev|
    ensures var m' := SetPrev(SetNext(m, p, i, n), q, i, n);
            && NextOf(m', x, j) == (if j == i && x == p then n else NextOf(m, x, j))
            && PrevOf(m', x, j) == (if j == i && x == q then n else PrevOf(m, x, j))
  {
    AfterSetNext(m, p, i, n, x, j);
    AfterSetPrev(SetNext(m, p, i, n), q, i, n, x, j);
    hide NextOf, PrevOf;
  }

  lemma OfLent<T>(m: map<Node<T>, Links<T>>, was: Node<T>, n: Node<T>, x: Node<T>, j: nat)
    requires n in m
    ensures NextOf(Lent(m, was, n), x, j) == NextOf(m, if x == was then n else x, j)
    ensures PrevOf(Lent(m, was, n), x, j) == PrevOf(m, if x == was then n else x, j)
  {
  }

  /** One turn of the loop that links a promoted node. */
  lemma ReplaceOne<T>(m: map<Node<T>, Links<T>>, chain: seq<Node<T>>, hs: seq<nat>, k: nat, n: Node<T>, i: nat,
                      a: nat, b: nat)
    requires |chain| == |hs| && 0 < k < |hs| - 1 && i < hs[k] <= MAX_LEVEL
    requires Heights(Lent(m, chain[k], n), chain, hs) && Descending(chain)
    requires Replacing(m, chain, hs, k, n, i) && n !in chain && n in m && chain[k] in m
    requires Adjacent(hs, i, a, k) && Adjacent(hs, i, k, b)
    ensures NextOf(m, n, i) == chain[b] && PrevOf(m, n, i) == chain[a]
    ensures Replacing(SetPrev(SetNext(m, chain[a], i, n), chain[b], i, n), chain, hs, k, n, i + 1)
  {
    var m' := SetPrev(SetNext(m, chain[a], i, n), chain[b], i, n);
    var l, l' := Lent(m, chain[k], n), Lent(m', chain[k], n);
    assert l[chain[a]] == m[chain[a]] && l[chain[b]] == m[chain[b]] && chain[a] in m && chain[b] in m;
    assert Linked(l, chain, i, k, b) && Linked(l, chain, i, a, k) by { assert Level(l, chain, hs, i); }
    OfLent(m, chain[k], n, chain[k], i);
    hide NextOf, PrevOf, SetNext, SetPrev, Lent, Level;
    forall x: nat, j: nat | x < |chain| && x != k
      ensures NextOf(m', chain[x], j) == if j == i && x == a then n else NextOf(l, chain[x], j)
      ensures PrevOf(m', chain[x], j) == if j == i && x == b then n else PrevOf(l, chain[x], j)
      ensures NextOf(m', chain[x], j) == if j == i && x == a then n else NextOf(m, chain[x], j)
      ensures PrevOf(m', chain[x], j) == if j == i && x == b then n else PrevOf(m, chain[x], j)
    {
      AfterRelink(m, i, chain[a], chain[b], n, chain[x], j);
      OfLent(m, chain[k], n, chain[x], j);
    }
    forall j: nat
      ensures NextOf(m', n, j) == NextOf(m, n, j) == NextOf(l, chain[k], j)
      ensures PrevOf(m', n, j) == PrevOf(m, n, j) == PrevOf(l, chain[k], j)
    {
      AfterRelink(m, i, chain[a], chain[b], n, n, j);
      OfLent(m, chain[k], n, chain[k], j);
    }
    assert Level(l, chain, hs, i);
    OnlyPairs(hs, i, a, k, b);
    LevelReplace(l, m', chain, hs, k, n, i);
    ReplaceRest(m, m', l, l', chain, hs, k, n, i);
  }

  lemma OnlyPairs(hs: seq<nat>, i: nat, a: nat, k: nat, b: nat)
    requires Adjacent(hs, i, a, k) && Adjacent(hs, i, k, b)
    ensures forall x: nat :: Adjacent(hs, i, x, k) <==> x == a
    ensures forall x: nat :: Adjacent(hs, i, k, x) <==> x == b
  {
    forall x: nat
      ensures Adjacent(hs, i, x, k) <==> x == a
      ensures Adjacent(hs, i, k, x) <==> x == b
    {
      if Adjacent(hs, i, x, k) { SamePair(hs, i, a, k, x, k); }
      if Adjacent(hs, i, k, x) { SamePair(hs, i, k, b, k, x); }
    }
  }

  lemma ReplaceRest<T>(m: map<Node<T>, Links<T>>, m': map<Node<T>, Links<T>>, l: map<Node<T>, Links<T>>,
                       l': map<Node<T>, Links<T>>,
                       chain: seq<Node<T>>, hs: seq<nat>, k: nat, n: Node<T>, i: nat)
    requires |chain| == |hs| && k < |hs| && Replacing(m, chain, hs, k, n, i) && Level(m', With(chain, k, n), hs, i)
    requires n in m && n in m' && l == Lent(m, chain[k], n) && l' == Lent(m', chain[k], n) && Descending(chain)
    requires forall x: nat, j: nat | x < |chain| && x != k && j != i ::
               NextOf(m', chain[x], j) == NextOf(m, chain[x], j) && PrevOf(m', chain[x], j) == PrevOf(m, chain[x], j)
    requires forall j: nat :: NextOf(m', n, j) == NextOf(m, n, j) && PrevOf(m', n, j) == PrevOf(m, n, j)
    ensures Replacing(m', chain, hs, k, n, i + 1)
  {
    hide NextOf, PrevOf, Lent, Level;
    forall j: nat | j < i
      ensures Level(m', With(chain, k, n), hs, j)
    {
      SameLevel(m, m', With(chain, k, n), hs, j);
    }
    forall j: nat | i < j < MAX_LEVEL
      ensures Level(l', chain, hs, j)
    {
      forall x: nat | x < |chain|
        ensures NextOf(l', chain[x], j) == NextOf(l, chain[x], j) && PrevOf(l', chain[x], j) == PrevOf(l, chain[x], j)
      {
        OfLent(m, chain[k], n, chain[x], j);
        OfLent(m', chain[k], n, chain[x], j);
        if x != k { assert NextOf(m', chain[x], j) == NextOf(m, chain[x], j); }
      }
      SameLevel(l, l', chain, hs, j);
    }
  }

  lemma Replaced<T>(m: map<Node<T>, Links<T>>, chain: seq<Node<T>>, hs: seq<nat>, k: nat, n: Node<T>)
    requires |chain| == |hs| && k < |hs| && hs[k] <= MAX_LEVEL && Replacing(m, chain, hs, k, n, hs[k]) && n in m
             && Descending(chain)
    ensures forall j: nat | j < MAX_LEVEL :: Level(m, With(chain, k, n), hs, j)
  {
    hide NextOf, PrevOf, Lent;
    forall j: nat | hs[k] <= j < MAX_LEVEL
      ensures Level(m, With(chain, k, n), hs, j)
    {
      var l := Lent(m, chain[k], n);
      forall a: nat | a < |chain| && a != k
        ensures NextOf(m, chain[a], j) == NextOf(l, chain[a], j) && PrevOf(m, chain[a], j) == PrevOf(l, chain[a], j)
      {
        OfLent(m, chain[k], n, chain[a], j);
      }
      LevelReplace(l, m, chain, hs, k, n, j);
    }
  }

  // ----- rings -----

  /** The ring links of all nodes, as a value. */
  datatype Ring<T> = Ring(next: Node?<T>, prev: Node?<T>)

  ghost function Up(j: nat, n: nat): nat {
    if j + 1 == n then 0 else j + 1
  }

  ghost function Down(j: nat, n: nat): nat
    requires j < n
  {
    if j == 0 then n - 1 else j - 1
  }

  ghost predicate RingLinked<T>(r: map<Node<T>, Ring<T>>, s: seq<Node<T>>, j: nat)
    requires j < |s|
  {
    s[j] in r && r[s[j]].next == s[Up(j, |s|)] && r[s[j]].prev == s[Down(j, |s|)]
  }

  /** The nodes are linked round in the order of the sequence. */
  ghost predicate RingOk<T>(r: map<Node<T>, Ring<T>>, s: seq<Node<T>>) {
    s != [] && Distinct(s) && forall j | 0 <= j < |s| :: RingLinked(r, s, j)
  }

  lemma RingSame<T>(r: map<Node<T>, Ring<T>>, r': map<Node<T>, Ring<T>>, s: seq<Node<T>>)
    requires RingOk(r, s) && forall j | 0 <= j < |s| :: s[j] in r && s[j] in r' && r'[s[j]] == r[s[j]]
    ensures RingOk(r', s)
  {
    forall j | 0 <= j < |s|
      ensures RingLinked(r', s, j)
    {
      assert RingLinked(r, s, j);
    }
  }

  ghost function SetRingNext<T>(r: map<Node<T>, Ring<T>>, n: Node<T>, x: Node?<T>): map<Node<T>, Ring<T>>
    requires n in r
  {
    r[n := r[n].(next := x)]
  }

  ghost function SetRingPrev<T>(r: map<Node<T>, Ring<T>>, n: Node<T>, x: Node?<T>): map<Node<T>, Ring<T>>
    requires n in r
  {
    r[n := r[n].(prev := x)]
  }

  /** A new node at the end of a ring. */
  ghost function Joined<T>(r: map<Node<T>, Ring<T>>, s: seq<Node<T>>, n: Node<T>): map<Node<T>, Ring<T>>
    requires s != [] && s[0] in r && s[|s| - 1] in r
  {
    SetRingNext(SetRingPrev(r[n := Ring(s[0], s[|s| - 1])], s[0], n), s[|s| - 1], n)
  }

  lemma JoinRing<T>(r: map<Node<T>, Ring<T>>, s: seq<Node<T>>, n: Node<T>)
    requires RingOk(r, s) && n !in s
    ensures s[0] in r && s[|s| - 1] in r && RingOk(Joined(r, s, n), s + [n])
  {
    assert RingLinked(r, s, 0) && RingLinked(r, s, |s| - 1);
    var r', s' := Joined(r, s, n), s + [n];
    forall j | 0 <= j < |s'|
      ensures RingLinked(r', s', j)
    {
      if j < |s| { assert RingLinked(r, s, j) && s'[j] == s[j]; }
    }
  }

  /** The neighbours of a node in a ring are joined. */
  ghost function Parted<T>(r: map<Node<T>, Ring<T>>, p: Node<T>, q: Node<T>): map<Node<T>, Ring<T>>
    requires p in r && q in r
  {
    SetRingPrev(SetRingNext(r, p, q), q, p)
  }

  lemma PartRing<T>(r: map<Node<T>, Ring<T>>, s: seq<Node<T>>, j: nat)
    requires RingOk(r, s) && j < |s| && |s| > 1
    ensures var p, q := s[Down(j, |s|)], s[Up(j, |s|)]; p in r && q in r && RingOk(Parted(r, p, q), Cut(s, j))
  {
    var p, q := s[Down(j, |s|)], s[Up(j, |s|)];
    assert RingLinked(r, s, Down(j, |s|)) && RingLinked(r, s, Up(j, |s|));
    hide RingLinked, Parted;
    var r', s' := Parted(r, p, q), Cut(s, j);
    assert forall i | 0 <= i < |s'| :: s'[i] == s[if i < j then i else i + 1];
    forall i | 0 <= i < |s'|
      ensures RingLinked(r', s', i)
    {
      assert RingLinked(r, s, if i < j then i else i + 1);
      PartRingAt(r, s, j, i);
    }
  }

  lemma PartRingAt<T>(r: map<Node<T>, Ring<T>>, s: seq<Node<T>>, j: nat, i: nat)
    requires j < |s| && i < |s| - 1 && Distinct(s) && s[Down(j, |s|)] in r && s[Up(j, |s|)] in r
    requires RingLinked(r, s, if i < j then i else i + 1)
    ensures RingLinked(Parted(r, s[Down(j, |s|)], s[Up(j, |s|)]), Cut(s, j), i)
  {
    var s', x := Cut(s, j), if i < j then i else i + 1;
    assert s'[i] == s[x];
    assert s'[Up(i, |s'|)] == s[if x == Down(j, |s|) then Up(j, |s|) else Up(x, |s|)];
    assert s'[Down(i, |s'|)] == s[if x == Up(j, |s|) then Down(j, |s|) else Down(x, |s|)];
  }

  // ----- the whole list -----

  /** Every level is a strictly descending sublist of the one below, linked both ways. */
  ghost predicate SkipOk<T>(m: map<Node<T>, Links<T>>, chain: seq<Node<T>>, hs: seq<nat>) {
    && Heights(m, chain, hs) && Descending(chain) && |chain| >= 2
    && hs[0] == hs[|hs| - 1] == MAX_LEVEL && (forall a | 0 < a < |hs| - 1 :: 1 <= hs[a] <= MAX_LEVEL)
    && chain[0].expireTime == MAX_UINT64 && chain[|chain| - 1].expireTime == 0
    && forall j: nat | j < MAX_LEVEL :: Level(m, chain, hs, j)
  }

  /** One ring for each time; its nodes have that time. */
  ghost predicate RingsOk<T>(r: map<Node<T>, Ring<T>>, rings: map<nat, seq<Node<T>>>) {
    forall e | e in rings :: RingOk(r, rings[e]) && forall j | 0 <= j < |rings[e]| :: rings[e][j].expireTime == e
  }

  /** The skip list is made of the first nodes of the rings. */
  ghost predicate HeadsOk<T>(chain: seq<Node<T>>, rings: map<nat, seq<Node<T>>>) {
    && (forall a | 0 < a < |chain| - 1 ::
          var e := chain[a].expireTime; e in rings && rings[e] != [] && rings[e][0] == chain[a])
    && (forall e | e in rings :: 0 < e < MAX_UINT64 && rings[e] != [] && rings[e][0] in chain)
  }

  /** The other nodes of a ring have no level. */
  ghost predicate LowOk<T>(m: map<Node<T>, Links<T>>, rings: map<nat, seq<Node<T>>>) {
    forall e, j | e in rings && 0 < j < |rings[e]| :: rings[e][j] in m && m[rings[e][j]] == Links([], [])
  }

  /** The map finds exactly the nodes that are in rings, by id. */
  ghost predicate MapOk<T>(all: set<Node<T>>, rings: map<nat, seq<Node<T>>>, nodeMap: map<nat, Node<T>>,
                           header: Node<T>, tail: Node<T>) {
    && header in all && tail in all
    && (forall n | n in all && n != header && n != tail ::
          && n.id in nodeMap && nodeMap[n.id] == n && n.expireTime in rings && n in rings[n.expireTime])
    && (forall id | id in nodeMap ::
         nodeMap[id] in all && nodeMap[id].id == id && nodeMap[id] != header && nodeMap[id] != tail)
    && (forall e, j | e in rings && 0 <= j < |rings[e]| ::
          rings[e][j] in all && rings[e][j] != header && rings[e][j] != tail)
  }

  /** The current top level is that of the tallest node, and at least 1. */
  ghost predicate TopOk(hs: seq<nat>, top: nat) {
    && 1 <= top <= MAX_LEVEL && (forall a | 0 < a < |hs| - 1 :: hs[a] <= top)
    && (top > 1 ==> exists a :: 0 < a < |hs| - 1 && hs[a] == top)
  }

  lemma EmptyLevels<T>(m: map<Node<T>, Links<T>>, header: Node<T>, tail: Node<T>)
    requires forall j: nat | j < MAX_LEVEL :: NextOf(m, header, j) == tail && PrevOf(m, tail, j) == header
    ensures forall j: nat | j < MAX_LEVEL :: Level(m, [header, tail], [MAX_LEVEL, MAX_LEVEL], j)
  {
    hide NextOf, PrevOf;
    forall j: nat | j < MAX_LEVEL
      ensures Level(m, [header, tail], [MAX_LEVEL, MAX_LEVEL], j)
    {
      forall a: nat, b: nat | Adjacent([MAX_LEVEL, MAX_LEVEL], j, a, b)
        ensures Linked(m, [header, tail], j, a, b)
      {
        assert a == 0 && b == 1;
      }
    }
  }

  /** Where a time belongs: at each level from i up, the last node that is not earlier and
      the one after it. */
  ghost predicate Found<T>(chain: seq<Node<T>>, hs: seq<nat>, top: nat, expireTime: nat, i: nat, prev: seq<Node<T>>,
                           pos: map<nat, (nat, nat)>) {
    forall j: nat | i <= j < top :: FoundAt(chain, hs, expireTime, j, prev, pos)
  }

  ghost predicate FoundAt<T>(chain: seq<Node<T>>, hs: seq<nat>, expireTime: nat, j: nat, prev: seq<Node<T>>,
                             pos: map<nat, (nat, nat)>) {
    && j in pos && j < |prev| && Adjacent(hs, j, pos[j].0, pos[j].1) && pos[j].0 < |chain| && pos[j].1 < |chain|
    && prev[j] == chain[pos[j].0] && chain[pos[j].0].expireTime >= expireTime > chain[pos[j].1].expireTime
  }

  lemma AdjacentFacts(hs: seq<nat>, i: nat, a: nat, b: nat)
    requires Adjacent(hs, i, a, b)
    ensures a < b < |hs| && hs[a] > i && hs[b] > i
  {
  }

  ghost function SkipOf<T>(all: set<Node<T>>): (m: map<Node<T>, Links<T>>)
    reads all
    ensures m.Keys == all
  {
    map n | n in all :: Links(n.next, n.prev)
  }

  ghost function RoundOf<T>(all: set<Node<T>>): (r: map<Node<T>, Ring<T>>)
    reads all
    ensures r.Keys == all
  {
    map n | n in all :: Ring(n.ringNext, n.ringPrev)
  }

  /** A new node without levels at the end of a ring. */
  method NewInRing<T>(prevNode: Node<T>, nextNode: Node<T>, id: nat, data: T, ghost all: set<Node<T>>,
                      ghost s: seq<Node<T>>)
    returns (node: Node<T>)
    requires prevNode in all && nextNode in all && s != [] && s[0] == nextNode && s[|s| - 1] == prevNode
    modifies prevNode`ringNext, nextNode`ringPrev
    ensures fresh(node) && node.id == id && node.expireTime == nextNode.expireTime && node.data == data
    ensures RoundOf(all + {node}) == Joined(old(RoundOf(all)), s, node)
    ensures SkipOf(all + {node}) == old(SkipOf(all))[node := Links([], [])]
  {
    node := new Node(nextNode.expireTime, id, 0, data);
    assert SkipOf(all + {node}) == old(SkipOf(all))[node := Links([], [])];
    assert RoundOf(all) == old(RoundOf(all));
    hide SkipOf, RoundOf, Joined;
    LinkIntoRing(node, prevNode, nextNode, all, s);
  }

  /** The four assignments that put a node at the end of a ring. */
  method LinkIntoRing<T>(node: Node<T>, prevNode: Node<T>, nextNode: Node<T>, ghost all: set<Node<T>>,
                         ghost s: seq<Node<T>>)
    requires node !in all && prevNode in all && nextNode in all && s != [] && s[0] == nextNode && s[|s| - 1] == prevNode
    modifies node`ringNext, node`ringPrev, prevNode`ringNext, nextNode`ringPrev
    ensures RoundOf(all + {node}) == Joined(old(RoundOf(all)), s, node)
    ensures SkipOf(all + {node}) == old(SkipOf(all + {node}))
  {
    node.ringNext := nextNode;
    node.ringPrev := prevNode;
    nextNode.ringPrev := node;
    prevNode.ringNext := node;
  }

  /** All nodes; the skip list from header to tail with the heights; the ring of each time. */
  datatype Shape<T> = Shape(all: set<Node<T>>, chain: seq<Node<T>>, hs: seq<nat>, rings: map<nat, seq<Node<T>>>)

  /** The whole list as a value. */
  datatype View<T> = View(m: map<Node<T>, Links<T>>, r: map<Node<T>, Ring<T>>, chain: seq<Node<T>>, hs: seq<nat>,
                          rings: map<nat, seq<Node<T>>>, index: map<nat, Node<T>>, header: Node<T>, tail: Node<T>,
                            top: nat)

  ghost predicate ViewOk<T>(v: View<T>) {
    && v.m.Keys == v.r.Keys
    && SkipOk(v.m, v.chain, v.hs) && v.chain[0] == v.header && v.chain[|v.chain| - 1] == v.tail
    && RingsOk(v.r, v.rings) && HeadsOk(v.chain, v.rings) && LowOk(v.m, v.rings)
    && MapOk(v.m.Keys, v.rings, v.index, v.header, v.tail) && TopOk(v.hs, v.top)
  }

  lemma EndLinks<T>(v: View<T>)
    requires ViewOk(v)
    ensures v.header in v.m && v.tail in v.m && |v.m[v.header].next| == |v.m[v.tail].prev| == MAX_LEVEL
            && |v.chain| >= 2
    ensures v.m[v.header].next[0] == v.chain[1] && v.m[v.tail].prev[0] == v.chain[|v.chain| - 2]
    ensures v.chain[1] == v.tail <==> |v.chain| == 2
    ensures v.chain[|v.chain| - 2] == v.header <==> |v.chain| == 2
  {
    hide RingsOk, HeadsOk, LowOk, MapOk, TopOk;
    var n := |v.chain|;
    assert Level(v.m, v.chain, v.hs, 0);
    assert Adjacent(v.hs, 0, 0, 1) && Adjacent(v.hs, 0, n - 2, n - 1);
    hide Level, Adjacent;
    assert Linked(v.m, v.chain, 0, 0, 1) && Linked(v.m, v.chain, 0, n - 2, n - 1);
    assert n > 2 ==>
             v.chain[1].expireTime > v.chain[n - 1].expireTime && v.chain[0].expireTime > v.chain[n - 2].expireTime;
  }

  /** What next at level i is for the node at position a. */
  lemma NextLink<T>(v: View<T>, a: nat, i: nat) returns (b: nat)
    requires ViewOk(v) && a < |v.chain| - 1 && |v.chain| == |v.hs| && i < v.hs[a]
    ensures i < MAX_LEVEL && Adjacent(v.hs, i, a, b) && b < |v.chain|
    ensures v.chain[a] in v.m && i < |v.m[v.chain[a]].next| && v.m[v.chain[a]].next[i] == v.chain[b]
  {
    hide RingsOk, HeadsOk, LowOk, MapOk, TopOk;
    assert i < MAX_LEVEL;
    b := Successor(v.hs, i, a, |v.hs| - 1);
    assert Level(v.m, v.chain, v.hs, i);
    assert Linked(v.m, v.chain, i, a, b);
  }

  /** At every level next and prev are inverse, times fall strictly, no node that reaches the
      level is skipped, and a node of one level is also in the level below. */
  lemma LevelStructure<T>(v: View<T>, a: nat, i: nat) returns (b: nat)
    requires ViewOk(v) && a < |v.chain| - 1 && |v.chain| == |v.hs| && i < v.hs[a]
    ensures a < b < |v.chain| && v.chain[a] in v.m && v.chain[b] in v.m
    ensures i < |v.m[v.chain[a]].next| && v.m[v.chain[a]].next[i] == v.chain[b]
    ensures i < |v.m[v.chain[b]].prev| && v.m[v.chain[b]].prev[i] == v.chain[a]
    ensures v.chain[a].expireTime > v.chain[b].expireTime
    ensures forall c | a < c < b :: v.chain[c] in v.m && |v.m[v.chain[c]].next| <= i
    ensures i > 0 ==> i - 1 < |v.m[v.chain[a]].next| && i - 1 < |v.m[v.chain[b]].next|
  {
    hide RingsOk, HeadsOk, LowOk, MapOk, TopOk, Level;
    b := NextLink(v, a, i);
    assert v.hs[a] <= MAX_LEVEL;
    LinkedAt(v.m, v.chain, v.hs, i, a, b);
    assert |v.m[v.chain[b]].next| == v.hs[b] > i;
    forall c | a < c < b
      ensures v.chain[c] in v.m && |v.m[v.chain[c]].next| <= i
    {
      assert |v.m[v.chain[c]].next| == v.hs[c];
    }
  }

  /** The current top level is the larger of 1 and the tallest node. */
  lemma TopIsTallest<T>(v: View<T>)
    requires ViewOk(v)
    ensures 1 <= v.top <= MAX_LEVEL
    ensures forall a | 0 < a < |v.chain| - 1 :: v.chain[a] in v.m && |v.m[v.chain[a]].next| <= v.top
    ensures v.top > 1 ==> exists a :: 0 < a < |v.chain| - 1 && v.chain[a] in v.m && |v.m[v.chain[a]].next| == v.top
  {
    hide RingsOk, HeadsOk, LowOk, MapOk, Level;
    if v.top > 1 {
      var a :| 0 < a < |v.hs| - 1 && v.hs[a] == v.top;
      assert v.chain[a] in v.m && |v.m[v.chain[a]].next| == v.top;
    }
  }

  // ----- inserting into a ring -----

  lemma SkipSame<T>(m: map<Node<T>, Links<T>>, m': map<Node<T>, Links<T>>, chain: seq<Node<T>>, hs: seq<nat>)
    requires SkipOk(m, chain, hs) && forall a | 0 <= a < |chain| :: chain[a] in m' && m'[chain[a]] == m[chain[a]]
    ensures SkipOk(m', chain, hs)
  {
    hide Adjacent;
    forall j: nat | j < MAX_LEVEL
      ensures Level(m', chain, hs, j)
    {
      SameLevel(m, m', chain, hs, j);
    }
  }

  lemma SkipGrow<T>(m: map<Node<T>, Links<T>>, chain: seq<Node<T>>, hs: seq<nat>, n: Node<T>, links: Links<T>)
    requires SkipOk(m, chain, hs) && n !in m
    ensures SkipOk(m[n := links], chain, hs)
  {
    hide Level;
    SkipSame(m, m[n := links], chain, hs);
  }

  lemma RingsJoin<T>(r: map<Node<T>, Ring<T>>, rings: map<nat, seq<Node<T>>>, e: nat, n: Node<T>)
    requires RingsOk(r, rings) && e in rings && n !in r && n.expireTime == e
    ensures var s := rings[e];
            s != [] && s[0] in r && s[|s| - 1] in r && RingsOk(Joined(r, s, n), rings[e := s + [n]])
  {
    var s := rings[e];
    RingIn(r, s);
    JoinRing(r, s, n);
    var r' := Joined(r, s, n);
    forall d | d in rings && d != e
      ensures RingOk(r', rings[d])
    {
      RingIn(r, rings[d]);
      RingSame(r, r', rings[d]);
    }
    hide RingOk, Joined;
  }

  lemma RingIn<T>(r: map<Node<T>, Ring<T>>, s: seq<Node<T>>)
    requires RingOk(r, s)
    ensures s != [] && forall j | 0 <= j < |s| :: s[j] in r
  {
    forall j | 0 <= j < |s|
      ensures s[j] in r
    {
      assert RingLinked(r, s, j);
    }
  }

  lemma HeadsJoin<T>(chain: seq<Node<T>>, rings: map<nat, seq<Node<T>>>, e: nat, n: Node<T>)
    requires HeadsOk(chain, rings) && e in rings
    ensures HeadsOk(chain, rings[e := rings[e] + [n]])
  {
  }

  lemma LowJoin<T>(m: map<Node<T>, Links<T>>, rings: map<nat, seq<Node<T>>>, e: nat, n: Node<T>)
    requires LowOk(m, rings) && e in rings && n !in m
    ensures LowOk(m[n := Links([], [])], rings[e := rings[e] + [n]])
  {
  }

  /** A node more in the ring of its time. */
  ghost function RingInserted<T>(v: View<T>, n: Node<T>): View<T>
    requires n.expireTime in v.rings && v.rings[n.expireTime] != []
    requires var s := v.rings[n.expireTime]; s[0] in v.r && s[|s| - 1] in v.r
  {
    var s := v.rings[n.expireTime];
    v.(m := v.m[n := Links([], [])], r := Joined(v.r, s, n), rings := v.rings[n.expireTime := s + [n]],
      index := v.index[n.id := n])
  }

  lemma RingInsertKeeps<T>(v: View<T>, n: Node<T>)
    requires ViewOk(v) && n !in v.m && n.expireTime in v.rings && n.id !in v.index
    ensures var s := v.rings[n.expireTime]; s != [] && s[0] in v.r && s[|s| - 1] in v.r
    ensures ViewOk(RingInserted(v, n))
  {
    hide SkipOk, HeadsOk, LowOk, MapOk, TopOk, RingsOk, Joined;
    var e := n.expireTime;
    RingsJoin(v.r, v.rings, e, n);
    HeadsJoin(v.chain, v.rings, e, n);
    LowJoin(v.m, v.rings, e, n);
    MapJoin(v.m.Keys, v.rings, v.index, v.header, v.tail, n);
    SkipGrow(v.m, v.chain, v.hs, n, Links([], []));
    JoinedKeys(v.r, v.rings[e], n);
    assert v.m[n := Links([], [])].Keys == v.m.Keys + {n};
  }

  lemma JoinedKeys<T>(r: map<Node<T>, Ring<T>>, s: seq<Node<T>>, n: Node<T>)
    requires s != [] && s[0] in r && s[|s| - 1] in r
    ensures Joined(r, s, n).Keys == r.Keys + {n}
  {
  }

  lemma MapJoin<T>(all: set<Node<T>>, rings: map<nat, seq<Node<T>>>, nodeMap: map<nat, Node<T>>, header: Node<T>,
                   tail: Node<T>, n: Node<T>)
    requires MapOk(all, rings, nodeMap, header, tail) && n !in all && n.id !in nodeMap
    requires n.expireTime in rings
    ensures MapOk(all + {n}, rings[n.expireTime := rings[n.expireTime] + [n]], nodeMap[n.id := n], header, tail)
  {
  }

  // ----- inserting into the skip list -----

  /** The links of a new node at one level. */
  method HookLevel<T>(node: Node<T>, prevNode: Node<T>, i: nat, ghost all: set<Node<T>>, ghost after: Node<T>)
    requires node in all && prevNode in all && after in all && node != prevNode && node != after && prevNode != after
    requires i < |node.next| && i < |node.prev| && i < |prevNode.next| && prevNode.next[i] == after && i < |after.prev|
    modifies node`next, node`prev, prevNode`next, after`prev
    ensures SkipOf(all) == Hooked(old(SkipOf(all)), node, i, prevNode, after) && RoundOf(all) == old(RoundOf(all))
  {
    hide SkipOf, RoundOf, SetNext, SetPrev;
    var nextNode := prevNode.next[i];
    PutNext(node, i, nextNode, all);
    PutPrev(node, i, prevNode, all);
    PutNext(prevNode, i, node, all);
    PutPrev(nextNode, i, node, all);
  }

  method PutNext<T>(n: Node<T>, i: nat, x: Node<T>, ghost all: set<Node<T>>)
    requires n in all && i < |n.next|
    modifies n`next
    ensures n.next == old(n.next[i := x]) && SkipOf(all) == SetNext(old(SkipOf(all)), n, i, x)
            && RoundOf(all) == old(RoundOf(all))
  {
    n.next := n.next[i := x];
  }

  method PutPrev<T>(n: Node<T>, i: nat, x: Node<T>, ghost all: set<Node<T>>)
    requires n in all && i < |n.prev|
    modifies n`prev
    ensures n.prev == old(n.prev[i := x]) && SkipOf(all) == SetPrev(old(SkipOf(all)), n, i, x)
            && RoundOf(all) == old(RoundOf(all))
  {
    n.prev := n.prev[i := x];
  }

  /** Found at every level, the new place is right after the last node that is not earlier. */
  lemma FoundPlace<T>(v: View<T>, top: nat, expireTime: nat, prev: seq<Node<T>>, pos: map<nat, (nat, nat)>, j: nat)
    requires ViewOk(v) && Found(v.chain, v.hs, top, expireTime, 0, prev, pos) && j < top <= MAX_LEVEL
    ensures 0 in pos && j in pos && |v.chain| == |v.hs| && 0 < |prev|
    ensures var k := pos[0].0 + 1;
            && k < |v.chain| && v.chain[k - 1] == prev[0]
               && v.chain[k - 1].expireTime >= expireTime > v.chain[k].expireTime
            && pos[j].0 < k <= pos[j].1 && Adjacent(v.hs, j, pos[j].0, pos[j].1) && j < |prev|
               && prev[j] == v.chain[pos[j].0]
  {
    hide RingsOk, HeadsOk, LowOk, MapOk, TopOk, Level;
    assert FoundAt(v.chain, v.hs, expireTime, 0, prev, pos);
    assert FoundAt(v.chain, v.hs, expireTime, j, prev, pos);
    var a, b := pos[0].0, pos[0].1;
    assert v.hs[a + 1] >= 1;
  }

  /** Above the current top level there is nothing between header and tail. */
  ghost function Extended<T>(v: View<T>, pos: map<nat, (nat, nat)>): map<nat, (nat, nat)>
    requires |v.chain| >= 1
  {
    map j: nat | j < MAX_LEVEL :: if j < v.top && j in pos then pos[j] else (0, |v.chain| - 1)
  }

  lemma FoundAbove<T>(v: View<T>, expireTime: nat, prev: seq<Node<T>>, pos: map<nat, (nat, nat)>)
    requires ViewOk(v) && 0 < expireTime < MAX_UINT64 && Found(v.chain, v.hs, v.top, expireTime, 0, prev, pos)
             && |prev| == MAX_LEVEL
    requires forall j | v.top <= j < MAX_LEVEL :: prev[j] == v.header
    ensures |v.chain| >= 1 && Found(v.chain, v.hs, MAX_LEVEL, expireTime, 0, prev, Extended(v, pos))
  {
    hide RingsOk, HeadsOk, LowOk, MapOk, Level;
    forall j: nat | j < MAX_LEVEL
      ensures FoundAt(v.chain, v.hs, expireTime, j, prev, Extended(v, pos))
    {
      if j < v.top { assert FoundAt(v.chain, v.hs, expireTime, j, prev, pos); }
    }
  }

  /** On the way: n is linked in the levels below i, and nothing else has changed. */
  ghost predicate Hooking<T>(v: View<T>, m: map<Node<T>, Links<T>>, k: nat, n: Node<T>, h: nat, i: nat) {
    && Heights(m, v.chain, v.hs) && k <= |v.hs| && Rising(m, v.chain, v.hs, k, n, h, i)
    && m.Keys == v.m.Keys + {n} && n !in v.m && |m[n].next| == |m[n].prev| == h
    && forall x | x in v.m && x !in v.chain :: m[x] == v.m[x]
  }

  /** Setting a link changes neither the nodes nor their heights, nor any other node. */
  lemma SetKeepsRest<T>(m: map<Node<T>, Links<T>>, n: Node<T>, i: nat, x: Node?<T>)
    ensures Alike(m, SetNext(m, n, i, x), {n}) && Alike(m, SetPrev(m, n, i, x), {n})
  {
  }

  ghost predicate Alike<T>(m: map<Node<T>, Links<T>>, m': map<Node<T>, Links<T>>, but: set<Node<T>>) {
    && m'.Keys == m.Keys && (forall x | x in m && x !in but :: m'[x] == m[x])
    && (forall x | x in m :: |m'[x].next| == |m[x].next| && |m'[x].prev| == |m[x].prev|)
  }

  lemma AlikeChain<T>(m: map<Node<T>, Links<T>>, m': map<Node<T>, Links<T>>, m'': map<Node<T>, Links<T>>,
                      b: set<Node<T>>, b': set<Node<T>>)
    requires Alike(m, m', b) && Alike(m', m'', b')
    ensures Alike(m, m'', b + b')
  {
  }

  lemma HookKeepsRest<T>(m: map<Node<T>, Links<T>>, n: Node<T>, i: nat, p: Node<T>, q: Node<T>)
    ensures Alike(m, Hooked(m, n, i, p, q), {n, p, q})
  {
    hide Alike, SetNext, SetPrev;
    var m1 := SetNext(m, n, i, q);
    var m2 := SetPrev(m1, n, i, p);
    var m3 := SetNext(m2, p, i, n);
    SetKeepsRest(m, n, i, q);
    SetKeepsRest(m1, n, i, p);
    SetKeepsRest(m2, p, i, n);
    SetKeepsRest(m3, q, i, n);
    AlikeChain(m, m1, m2, {n}, {n});
    AlikeChain(m, m2, m3, {n} + {n}, {p});
    AlikeChain(m, m3, Hooked(m, n, i, p, q), {n} + {n} + {p}, {q});
    assert {n} + {n} + {p} + {q} == {n, p, q};
  }

  lemma HookStart<T>(v: View<T>, m: map<Node<T>, Links<T>>, k: nat, n: Node<T>, h: nat)
    requires ViewOk(v) && k <= |v.hs| && n !in v.m && n in m && |m[n].next| == |m[n].prev| == h && m == v.m[n := m[n]]
    ensures Hooking(v, m, k, n, h, 0)
  {
    hide RingsOk, HeadsOk, LowOk, MapOk, TopOk;
    SkipGrow(v.m, v.chain, v.hs, n, m[n]);
  }

  lemma HookStep<T>(v: View<T>, m: map<Node<T>, Links<T>>, k: nat, n: Node<T>, h: nat, i: nat, a: nat, b: nat)
    requires ViewOk(v) && Hooking(v, m, k, n, h, i) && i < h <= MAX_LEVEL && 0 < k < |v.hs|
    requires Adjacent(v.hs, i, a, b) && a < k <= b
    ensures a < |v.chain| && b < |v.chain| && v.chain[a] in m && v.chain[b] in m && v.chain[a] != n
            && v.chain[b] != n && v.chain[a] != v.chain[b]
    ensures i < |m[v.chain[a]].next| && m[v.chain[a]].next[i] == v.chain[b] && i < |m[v.chain[b]].prev|
    ensures Hooking(v, Hooked(m, n, i, v.chain[a], v.chain[b]), k, n, h, i + 1)
  {
    hide RingsOk, HeadsOk, LowOk, MapOk, TopOk, Level, Hooked;
    LinkedAt(m, v.chain, v.hs, i, a, b);
    AdjacentFacts(v.hs, i, a, b);
    RiseOne(m, v.chain, v.hs, k, n, h, i, a, b);
    hide Adjacent;
    HookKeepsRest(m, n, i, v.chain[a], v.chain[b]);
  }

  lemma LinkedAt<T>(m: map<Node<T>, Links<T>>, chain: seq<Node<T>>, hs: seq<nat>, i: nat, a: nat, b: nat)
    requires |chain| == |hs| && Level(m, chain, hs, i) && Adjacent(hs, i, a, b)
    ensures Linked(m, chain, i, a, b)
  {
  }

  ghost function SkipInserted<T>(v: View<T>, m: map<Node<T>, Links<T>>, n: Node<T>, k: nat, h: nat): View<T>
    requires k <= |v.chain| && k <= |v.hs|
  {
    View(m, v.r[n := Ring(n, n)], Put(v.chain, k, n), Put(v.hs, k, h), v.rings[n.expireTime := [n]], v.index[n.id := n],
         v.header, v.tail, if h > v.top then h else v.top)
  }

  lemma SkipInsertKeeps<T>(v: View<T>, m: map<Node<T>, Links<T>>, n: Node<T>, k: nat, h: nat)
    requires ViewOk(v) && Hooking(v, m, k, n, h, h) && 1 <= h <= MAX_LEVEL && 0 < k < |v.hs| && n.id !in v.index
    requires |v.chain| == |v.hs| && 0 < n.expireTime < MAX_UINT64
             && v.chain[k - 1].expireTime > n.expireTime > v.chain[k].expireTime
    ensures ViewOk(SkipInserted(v, m, n, k, h))
  {
    hide SkipOk, RingsOk, HeadsOk, LowOk, MapOk, TopOk, Rising, Heights, Put, Level;
    NoRing(v, n.expireTime, k);
    PutLow(v, m, n);
    Risen(m, v.chain, v.hs, k, n, h);
    PutSkip(v.m, m, v.chain, v.hs, k, n, h);
    NewRing(v.r, v.rings, n);
    PutHeads(v.chain, v.rings, k, n);
    PutMap(v.m.Keys, v.rings, v.index, v.header, v.tail, n);
    PutTop(v.hs, v.top, k, h);
    assert v.r[n := Ring(n, n)].Keys == v.r.Keys + {n};
  }

  lemma PutAt<A>(s: seq<A>, k: nat, x: A, a: nat)
    requires k <= |s| && a <= |s|
    ensures |Put(s, k, x)| == |s| + 1 && Put(s, k, x)[a] == if a == k then x else s[Before(k, a)]
  {
  }

  lemma PutHeights<T>(m: map<Node<T>, Links<T>>, chain: seq<Node<T>>, hs: seq<nat>, k: nat, n: Node<T>, h: nat)
    requires Heights(m, chain, hs) && k <= |hs| && n in m && |m[n].next| == |m[n].prev| == h
    ensures Heights(m, Put(chain, k, n), Put(hs, k, h))
  {
    hide Put;
    forall a: nat | a <= |chain|
      ensures |Put(chain, k, n)| == |Put(hs, k, h)| == |chain| + 1
      ensures var x := Put(chain, k, n)[a]; x in m && |m[x].next| == |m[x].prev| == Put(hs, k, h)[a]
    {
      PutAt(chain, k, n, a);
      PutAt(hs, k, h, a);
    }
    PutAt(chain, k, n, 0);
    PutAt(hs, k, h, 0);
  }

  lemma PutDescending<T>(chain: seq<Node<T>>, k: nat, n: Node<T>)
    requires Descending(chain) && 0 < k < |chain| && chain[k - 1].expireTime > n.expireTime > chain[k].expireTime
    ensures Descending(Put(chain, k, n))
  {
    hide Put;
    var c := Put(chain, k, n);
    PutAt(chain, k, n, 0);
    forall a: nat, b: nat | a < b < |c|
      ensures c[a].expireTime > c[b].expireTime
    {
      PutAt(chain, k, n, a);
      PutAt(chain, k, n, b);
    }
  }

  lemma PutSkip<T>(was: map<Node<T>, Links<T>>, m: map<Node<T>, Links<T>>, chain: seq<Node<T>>, hs: seq<nat>, k: nat,
                   n: Node<T>, h: nat)
    requires SkipOk(was, chain, hs) && Heights(m, chain, hs) && |chain| == |hs| && 0 < k < |hs| && 1 <= h <= MAX_LEVEL
    requires n in m && |m[n].next| == |m[n].prev| == h && chain[k - 1].expireTime > n.expireTime > chain[k].expireTime
    requires forall j: nat | j < MAX_LEVEL :: Level(m, Put(chain, k, n), Put(hs, k, h), j)
    ensures SkipOk(m, Put(chain, k, n), Put(hs, k, h)) && |Put(chain, k, n)| == |chain| + 1
    ensures Put(chain, k, n)[0] == chain[0] && Put(chain, k, n)[|chain|] == chain[|chain| - 1]
  {
    hide Level, Put, Heights, Descending;
    PutHeights(m, chain, hs, k, n, h);
    PutDescending(chain, k, n);
    PutEnds(was, chain, hs, k, n, h);
  }

  lemma PutEnds<T>(was: map<Node<T>, Links<T>>, chain: seq<Node<T>>, hs: seq<nat>, k: nat, n: Node<T>, h: nat)
    requires SkipOk(was, chain, hs) && 0 < k < |hs| && 1 <= h <= MAX_LEVEL
    ensures var c, s := Put(chain, k, n), Put(hs, k, h);
            && |c| == |s| == |chain| + 1 && c[0] == chain[0] && c[|chain|] == chain[|chain| - 1]
            && s[0] == s[|hs|] == MAX_LEVEL && forall a | 0 < a < |hs| :: 1 <= s[a] <= MAX_LEVEL
  {
    hide Put, Level, Descending;
    forall a: nat | a <= |chain|
      ensures |Put(chain, k, n)| == |Put(hs, k, h)| == |chain| + 1
      ensures Put(chain, k, n)[a] == (if a == k then n else chain[Before(k, a)])
      ensures Put(hs, k, h)[a] == if a == k then h else hs[Before(k, a)]
    {
      PutAt(chain, k, n, a);
      PutAt(hs, k, h, a);
    }
    PutAt(chain, k, n, 0);
    PutAt(hs, k, h, 0);
  }

  /** No ring has a time between two neighbours. */
  lemma NoRing<T>(v: View<T>, e: nat, k: nat)
    requires ViewOk(v) && 0 < k < |v.chain| && v.chain[k - 1].expireTime > e > v.chain[k].expireTime
    ensures e !in v.rings
  {
    hide LowOk, MapOk, TopOk, Level, Heights, RingOk;
    forall d | d in v.rings
      ensures d != e
    {
      var a :| 0 <= a < |v.chain| && v.chain[a] == v.rings[d][0];
      assert v.chain[a].expireTime == d;
      assert a <= k - 1 ==> v.chain[a].expireTime >= v.chain[k - 1].expireTime;
      assert a >= k ==> v.chain[a].expireTime <= v.chain[k].expireTime;
    }
  }

  lemma NewRing<T>(r: map<Node<T>, Ring<T>>, rings: map<nat, seq<Node<T>>>, n: Node<T>)
    requires RingsOk(r, rings) && n !in r && n.expireTime !in rings
    ensures RingsOk(r[n := Ring(n, n)], rings[n.expireTime := [n]])
  {
    var r' := r[n := Ring(n, n)];
    assert RingLinked(r', [n], 0);
    forall d | d in rings
      ensures RingOk(r', rings[d])
    {
      RingIn(r, rings[d]);
      RingSame(r, r', rings[d]);
    }
  }

  lemma PutHeads<T>(chain: seq<Node<T>>, rings: map<nat, seq<Node<T>>>, k: nat, n: Node<T>)
    requires HeadsOk(chain, rings) && 0 < k < |chain| && n.expireTime !in rings && 0 < n.expireTime < MAX_UINT64
    ensures HeadsOk(Put(chain, k, n), rings[n.expireTime := [n]])
  {
    var chain' := Put(chain, k, n);
    assert forall a | 0 <= a < |chain'| && a != k :: chain'[a] == chain[Before(k, a)];
    assert chain'[k] == n;
    forall e | e in rings
      ensures rings[e][0] in chain'
    {
      var a :| 0 <= a < |chain| && chain[a] == rings[e][0];
      assert chain'[if a < k then a else a + 1] == chain[a];
    }
  }

  lemma PutLow<T>(v: View<T>, m: map<Node<T>, Links<T>>, n: Node<T>)
    requires ViewOk(v) && n.expireTime !in v.rings && m.Keys == v.m.Keys + {n}
    requires forall x | x in v.m && x !in v.chain :: m[x] == v.m[x]
    ensures LowOk(m, v.rings[n.expireTime := [n]])
  {
    forall e, j | e in v.rings && 0 < j < |v.rings[e]|
      ensures v.rings[e][j] in m && m[v.rings[e][j]] == Links([], [])
    {
      NotInChain(v, e, j);
    }
  }

  /** Only the first node of a ring is in the skip list. */
  lemma NotInChain<T>(v: View<T>, e: nat, j: nat)
    requires ViewOk(v) && e in v.rings && 0 < j < |v.rings[e]|
    ensures v.rings[e][j] !in v.chain && v.rings[e][j] in v.m
  {
    var n := v.rings[e][j];
    hide RingsOk, HeadsOk, Level, Descending, TopOk, MapOk;
    forall a | 0 <= a < |v.chain|
      ensures v.chain[a] != n
    {
      assert |v.m[v.chain[a]].next| == v.hs[a] >= 1;
    }
  }

  lemma PutMap<T>(all: set<Node<T>>, rings: map<nat, seq<Node<T>>>, nodeMap: map<nat, Node<T>>, header: Node<T>,
                  tail: Node<T>, n: Node<T>)
    requires MapOk(all, rings, nodeMap, header, tail) && n !in all && n.id !in nodeMap && n.expireTime !in rings
    ensures MapOk(all + {n}, rings[n.expireTime := [n]], nodeMap[n.id := n], header, tail)
  {
  }

  lemma PutTop(hs: seq<nat>, top: nat, k: nat, h: nat)
    requires TopOk(hs, top) && 0 < k < |hs| && 1 <= h <= MAX_LEVEL
    ensures TopOk(Put(hs, k, h), if h > top then h else top)
  {
    var hs' := Put(hs, k, h);
    assert forall a | 0 <= a < |hs'| && a != k :: hs'[a] == hs[Before(k, a)];
    assert hs'[k] == h;
    if top > 1 && h <= top {
      var a :| 0 < a < |hs| - 1 && hs[a] == top;
      assert hs'[if a < k then a else a + 1] == top;
    }
  }

  // ----- removing from a ring -----

  lemma CutAt<A>(s: seq<A>, k: nat, a: nat)
    requires k < |s| && a < |s| - 1
    ensures |Cut(s, k)| == |s| - 1 && Cut(s, k)[a] == s[if a < k then a else a + 1]
  {
  }

  ghost function RingRemoved<T>(v: View<T>, e: nat, j: nat): View<T>
    requires e in v.rings && j < |v.rings[e]|
    requires var s := v.rings[e]; s[Down(j, |s|)] in v.r && s[Up(j, |s|)] in v.r
  {
    var s := v.rings[e];
    v.(m := v.m - {s[j]}, r := Parted(v.r, s[Down(j, |s|)], s[Up(j, |s|)]) - {s[j]},
       rings := v.rings[e := Cut(s, j)], index := v.index - {s[j].id})
  }

  lemma RingsCut<T>(r: map<Node<T>, Ring<T>>, rings: map<nat, seq<Node<T>>>, e: nat, j: nat)
    requires RingsOk(r, rings) && e in rings && j < |rings[e]| && |rings[e]| > 1
    ensures var s := rings[e];
            && s[Down(j, |s|)] in r && s[Up(j, |s|)] in r
            && RingsOk(Parted(r, s[Down(j, |s|)], s[Up(j, |s|)]) - {s[j]}, rings[e := Cut(s, j)])
            && (Parted(r, s[Down(j, |s|)], s[Up(j, |s|)]) - {s[j]}).Keys == r.Keys - {s[j]}
  {
    var s := rings[e];
    var p, q := s[Down(j, |s|)], s[Up(j, |s|)];
    PartRing(r, s, j);
    var r1 := Parted(r, p, q);
    var r' := r1 - {s[j]};
    assert forall a | 0 <= a < |s| - 1 :: Cut(s, j)[a] == s[if a < j then a else a + 1];
    RingIn(r1, Cut(s, j));
    RingSame(r1, r', Cut(s, j));
    forall d | d in rings && d != e
      ensures RingOk(r', rings[d])
    {
      RingIn(r, rings[d]);
      RingSame(r, r', rings[d]);
    }
    hide RingOk, Parted;
  }

  lemma SkipLess<T>(m: map<Node<T>, Links<T>>, chain: seq<Node<T>>, hs: seq<nat>, n: Node<T>)
    requires SkipOk(m, chain, hs) && n !in chain
    ensures SkipOk(m - {n}, chain, hs)
  {
    hide Level;
    SkipSame(m, m - {n}, chain, hs);
  }

  lemma HeadsCut<T>(chain: seq<Node<T>>, rings: map<nat, seq<Node<T>>>, e: nat, j: nat)
    requires HeadsOk(chain, rings) && e in rings && 0 < j < |rings[e]|
    ensures HeadsOk(chain, rings[e := Cut(rings[e], j)])
  {
  }

  lemma LowCut<T>(m: map<Node<T>, Links<T>>, rings: map<nat, seq<Node<T>>>, r: map<Node<T>, Ring<T>>, e: nat, j: nat)
    requires LowOk(m, rings) && RingsOk(r, rings) && e in rings && 0 < j < |rings[e]|
    ensures LowOk(m - {rings[e][j]}, rings[e := Cut(rings[e], j)])
  {
    var s := rings[e];
    forall a: nat | 0 < a < |s| - 1
      ensures Cut(s, j)[a] in m - {s[j]} && (m - {s[j]})[Cut(s, j)[a]] == Links([], [])
    {
      CutAt(s, j, a);
      assert RingOk(r, s);
    }
    forall d, a | d in rings && d != e && 0 < a < |rings[d]|
      ensures rings[d][a] in m - {s[j]}
    {
      assert rings[d][a].expireTime == d;
    }
  }

  lemma MapCut<T>(all: set<Node<T>>, rings: map<nat, seq<Node<T>>>, nodeMap: map<nat, Node<T>>, header: Node<T>,
                  tail: Node<T>, r: map<Node<T>, Ring<T>>, e: nat, j: nat)
    requires MapOk(all, rings, nodeMap, header, tail) && RingsOk(r, rings) && e in rings && j < |rings[e]|
             && |rings[e]| > 1
    ensures var n := rings[e][j]; MapOk(all - {n}, rings[e := Cut(rings[e], j)], nodeMap - {n.id}, header, tail)
  {
    var s := rings[e];
    var n, s' := s[j], Cut(s, j);
    assert RingOk(r, s);
    assert forall a | 0 <= a < |s'| :: s'[a] == s[if a < j then a else a + 1];
    forall x | x in s && x != n
      ensures x in s'
    {
      var a :| 0 <= a < |s| && s[a] == x;
      assert s'[if a < j then a else a - 1] == x;
    }
    forall x | x in all - {n} && x != header && x != tail
      ensures x.id in nodeMap - {n.id}
    {
      assert nodeMap[x.id] == x && nodeMap[n.id] == n;
    }
    forall d, a | d in rings && d != e && 0 <= a < |rings[d]|
      ensures rings[d][a] != n
    {
      assert rings[d][a].expireTime == d;
    }
  }

  lemma RingRemoveKeeps<T>(v: View<T>, e: nat, j: nat)
    requires ViewOk(v) && e in v.rings && 0 < j < |v.rings[e]|
    ensures var s := v.rings[e]; s[Down(j, |s|)] in v.r && s[Up(j, |s|)] in v.r
    ensures ViewOk(RingRemoved(v, e, j))
  {
    hide SkipOk, HeadsOk, LowOk, MapOk, TopOk, RingsOk, Parted;
    RingsCut(v.r, v.rings, e, j);
    HeadsCut(v.chain, v.rings, e, j);
    LowCut(v.m, v.rings, v.r, e, j);
    MapCut(v.m.Keys, v.rings, v.index, v.header, v.tail, v.r, e, j);
    NotInChain(v, e, j);
    SkipLess(v.m, v.chain, v.hs, v.rings[e][j]);
    assert (v.m - {v.rings[e][j]}).Keys == v.m.Keys - {v.rings[e][j]};
  }

  // ----- promoting the next of a ring -----

  /** The links as they are when x has taken over those of n. */
  ghost function Handed<T>(m: map<Node<T>, Links<T>>, n: Node<T>, x: Node<T>): map<Node<T>, Links<T>>
    requires n in m
  {
    m[x := m[n]][n := Links([], [])]
  }

  ghost predicate Promoting<T>(v: View<T>, m: map<Node<T>, Links<T>>, a: nat, x: Node<T>, i: nat) {
    && |v.chain| == |v.hs| && a < |v.hs| && m.Keys == v.m.Keys && x in m && v.chain[a] in m
    && Heights(Lent(m, v.chain[a], x), v.chain, v.hs) && Replacing(m, v.chain, v.hs, a, x, i)
    && forall y | y in v.m && y !in v.chain && y != x :: m[y] == v.m[y]
  }

  lemma PromoteStart<T>(v: View<T>, a: nat, x: Node<T>)
    requires ViewOk(v) && 0 < a < |v.chain| - 1 && x in v.m && x !in v.chain
    ensures v.chain[a] in v.m && Promoting(v, Handed(v.m, v.chain[a], x), a, x, 0)
  {
    hide RingsOk, HeadsOk, LowOk, MapOk, TopOk, Level, Descending;
    var n := v.chain[a];
    var m := Handed(v.m, n, x);
    var l := Lent(m, n, x);
    assert l == v.m[x := v.m[n]];
    forall j: nat | j < MAX_LEVEL
      ensures Level(l, v.chain, v.hs, j)
    {
      SameLevel(v.m, l, v.chain, v.hs, j);
    }
  }

  lemma PromoteStep<T>(v: View<T>, m: map<Node<T>, Links<T>>, a: nat, x: Node<T>, i: nat, b: nat, c: nat)
    requires ViewOk(v) && 0 < a < |v.chain| - 1 && x !in v.chain && Promoting(v, m, a, x, i) && i < v.hs[a]
    requires Adjacent(v.hs, i, b, a) && Adjacent(v.hs, i, a, c)
    ensures b < a < c < |v.chain| && v.chain[b] in m && v.chain[c] in m && v.chain[b] != x && v.chain[c] != x
            && v.chain[b] != v.chain[c]
    ensures i < |m[x].next| && i < |m[x].prev| && m[x].next[i] == v.chain[c] && m[x].prev[i] == v.chain[b]
    ensures i < |m[v.chain[b]].next| && i < |m[v.chain[c]].prev|
    ensures Promoting(v, SetPrev(SetNext(m, v.chain[b], i, x), v.chain[c], i, x), a, x, i + 1)
  {
    hide RingsOk, HeadsOk, LowOk, MapOk, TopOk, Level;
    var n, p, q := v.chain[a], v.chain[b], v.chain[c];
    AdjacentFacts(v.hs, i, b, a);
    AdjacentFacts(v.hs, i, a, c);
    assert v.hs[a] <= MAX_LEVEL && n != p && n != q && p != q;
    var l := Lent(m, n, x);
    assert l[p] == m[p] && l[q] == m[q] && l[n] == m[x];
    ReplaceOne(m, v.chain, v.hs, a, x, i, b, c);
    var m1 := SetNext(m, p, i, x);
    var m' := SetPrev(m1, q, i, x);
    SetKeepsRest(m, p, i, x);
    SetKeepsRest(m1, q, i, x);
    AlikeChain(m, m1, m', {p}, {q});
    hide SetNext, SetPrev, Adjacent;
    LentHeights(v, m, m', a, x, p, q);
  }

  lemma LentHeights<T>(v: View<T>, m: map<Node<T>, Links<T>>, m': map<Node<T>, Links<T>>, a: nat, x: Node<T>,
                       p: Node<T>, q: Node<T>)
    requires |v.chain| == |v.hs| && a < |v.hs| && x in m && v.chain[a] in m
             && Heights(Lent(m, v.chain[a], x), v.chain, v.hs)
    requires Alike(m, m', {p} + {q})
    ensures Heights(Lent(m', v.chain[a], x), v.chain, v.hs)
  {
  }

  ghost function Promoted<T>(v: View<T>, m: map<Node<T>, Links<T>>, a: nat): View<T>
    requires a < |v.chain| && v.chain[a].expireTime in v.rings
    requires var s := v.rings[v.chain[a].expireTime]; |s| > 1 && s[0] == v.chain[a] && s[|s| - 1] in v.r && s[1] in v.r
  {
    var n := v.chain[a];
    var e := n.expireTime;
    var s := v.rings[e];
    View(m - {n}, Parted(v.r, s[Down(0, |s|)], s[Up(0, |s|)]) - {n}, With(v.chain, a, s[1]), v.hs,
      v.rings[e := Cut(s, 0)],
         v.index - {n.id}, v.header, v.tail, v.top)
  }

  lemma PromoteSkip<T>(v: View<T>, m: map<Node<T>, Links<T>>, a: nat, x: Node<T>)
    requires ViewOk(v) && 0 < a < |v.chain| - 1 && x !in v.chain && Promoting(v, m, a, x, v.hs[a])
             && x.expireTime == v.chain[a].expireTime
    ensures SkipOk(m - {v.chain[a]}, With(v.chain, a, x), v.hs)
  {
    hide RingsOk, HeadsOk, LowOk, MapOk, TopOk, Level, Heights, Descending, Replacing, Lent, With;
    var n, c := v.chain[a], With(v.chain, a, x);
    Replaced(m, v.chain, v.hs, a, x);
    WithShape(m, v.chain, v.hs, a, x);
    WithEnds(v.chain, a, x);
    assert SkipOk(m, c, v.hs);
    SkipLess(m, c, v.hs, n);
  }

  lemma WithShape<T>(m: map<Node<T>, Links<T>>, chain: seq<Node<T>>, hs: seq<nat>, a: nat, x: Node<T>)
    requires |chain| == |hs| && a < |chain| && x in m && chain[a] in m && x !in chain
             && x.expireTime == chain[a].expireTime
    requires Heights(Lent(m, chain[a], x), chain, hs) && Descending(chain)
    ensures Heights(m, With(chain, a, x), hs) && Descending(With(chain, a, x)) && chain[a] !in With(chain, a, x)
  {
    var n, c := chain[a], With(chain, a, x);
    var l := Lent(m, n, x);
    assert forall b | 0 <= b < |c| && b != a :: c[b] == chain[b] && l[c[b]] == m[c[b]];
    assert c[a] == x && l[n] == m[x];
  }

  lemma PromoteHeads<T>(v: View<T>, a: nat)
    requires ViewOk(v) && 0 < a < |v.chain| - 1
    requires var e := v.chain[a].expireTime; e in v.rings && |v.rings[e]| > 1 && v.rings[e][0] == v.chain[a]
    ensures var e := v.chain[a].expireTime; HeadsOk(With(v.chain, a, v.rings[e][1]), v.rings[e := Cut(v.rings[e], 0)])
  {
    hide LowOk, MapOk, TopOk, Level, Heights, RingOk;
    var e := v.chain[a].expireTime;
    var s := v.rings[e];
    var c, rings := With(v.chain, a, s[1]), v.rings[e := Cut(s, 0)];
    assert Cut(s, 0)[0] == s[1] && c[a] == s[1];
    forall d | d in v.rings && d != e
      ensures rings[d][0] in c
    {
      var b :| 0 <= b < |v.chain| && v.chain[b] == v.rings[d][0];
      assert v.chain[b].expireTime == d;
      assert c[b] == v.chain[b];
    }
  }

  lemma PromoteLow<T>(v: View<T>, m: map<Node<T>, Links<T>>, a: nat)
    requires ViewOk(v) && 0 < a < |v.chain| - 1
    requires var e := v.chain[a].expireTime; e in v.rings && |v.rings[e]| > 1 && v.rings[e][0] == v.chain[a]
    requires var x := v.rings[v.chain[a].expireTime][1];
             m.Keys == v.m.Keys && forall y | y in v.m && y !in v.chain && y != x :: m[y] == v.m[y]
    ensures var e := v.chain[a].expireTime; LowOk(m - {v.chain[a]}, v.rings[e := Cut(v.rings[e], 0)])
  {
    var e, n := v.chain[a].expireTime, v.chain[a];
    var s := v.rings[e];
    var rings := v.rings[e := Cut(s, 0)];
    assert RingOk(v.r, s);
    forall d, j | d in rings && 0 < j < |rings[d]|
      ensures rings[d][j] in m - {n} && (m - {n})[rings[d][j]] == Links([], [])
    {
      if d == e {
        CutAt(s, 0, j);
        NotInChain(v, e, j + 1);
      } else {
        NotInChain(v, d, j);
        assert s[1].expireTime == e && v.rings[d][j].expireTime == d;
      }
    }
  }

  lemma PromoteKeeps<T>(v: View<T>, m: map<Node<T>, Links<T>>, a: nat)
    requires ViewOk(v) && 0 < a < |v.chain| - 1
    requires var e := v.chain[a].expireTime; e in v.rings && |v.rings[e]| > 1 && v.rings[e][0] == v.chain[a]
    requires Promoting(v, m, a, v.rings[v.chain[a].expireTime][1], v.hs[a])
    ensures var s := v.rings[v.chain[a].expireTime]; s[|s| - 1] in v.r && s[1] in v.r
    ensures ViewOk(Promoted(v, m, a))
  {
    hide SkipOk, HeadsOk, LowOk, MapOk, TopOk, RingsOk, Parted, Replacing, Heights, Lent;
    var e := v.chain[a].expireTime;
    var x := v.rings[e][1];
    NotInChain(v, e, 1);
    RingTimes(v.r, v.rings, e);
    PromoteSkip(v, m, a, x);
    RingsCut(v.r, v.rings, e, 0);
    PromoteHeads(v, a);
    PromoteLow(v, m, a);
    MapCut(v.m.Keys, v.rings, v.index, v.header, v.tail, v.r, e, 0);
    assert (m - {v.chain[a]}).Keys == v.m.Keys - {v.chain[a]};
    WithEnds(v.chain, a, x);
  }

  lemma RingTimes<T>(r: map<Node<T>, Ring<T>>, rings: map<nat, seq<Node<T>>>, e: nat)
    requires RingsOk(r, rings) && e in rings
    ensures forall j | 0 <= j < |rings[e]| :: rings[e][j].expireTime == e
  {
  }

  lemma WithEnds<T>(chain: seq<Node<T>>, a: nat, x: Node<T>)
    requires 0 < a < |chain| - 1
    ensures var c := With(chain, a, x); |c| == |chain| && c[0] == chain[0] && c[|c| - 1] == chain[|chain| - 1]
  {
  }

  // ----- removing from the skip list -----

  ghost predicate Unhooking<T>(v: View<T>, m: map<Node<T>, Links<T>>, a: nat, i: nat) {
    && |v.chain| == |v.hs| && 0 < a < |v.hs| - 1 && m.Keys == v.m.Keys && v.chain[a] in m
       && m[v.chain[a]] == v.m[v.chain[a]]
    && Heights(m, Cut(v.chain, a), Cut(v.hs, a))
    && Falling(m, Cut(v.chain, a), Cut(v.hs, a), a, v.chain[a], v.hs[a], i)
    && forall y | y in v.m && y !in v.chain :: m[y] == v.m[y]
  }

  lemma PutCut<A>(s: seq<A>, a: nat)
    requires a < |s|
    ensures |Cut(s, a)| == |s| - 1 && Put(Cut(s, a), a, s[a]) == s
  {
  }

  /** A shorter list is still in order, and does not hold the node. */
  lemma CutShape<T>(m: map<Node<T>, Links<T>>, chain: seq<Node<T>>, hs: seq<nat>, a: nat)
    requires SkipOk(m, chain, hs) && 0 < a < |chain| - 1
    ensures var c, s := Cut(chain, a), Cut(hs, a);
            && |c| == |s| == |chain| - 1 && Heights(m, c, s) && Descending(c) && chain[a] !in c
            && c[0] == chain[0] && c[|c| - 1] == chain[|chain| - 1] && s[0] == s[|s| - 1] == MAX_LEVEL
            && (forall b | 0 < b < |s| - 1 :: 1 <= s[b] <= MAX_LEVEL)
    ensures |chain| == |hs| && chain[a] in m && |m[chain[a]].next| == |m[chain[a]].prev| == hs[a] <= MAX_LEVEL
  {
    hide Level;
    var c, s := Cut(chain, a), Cut(hs, a);
    assert forall b | 0 <= b < |c| ::
             c[b] == chain[if b < a then b else b + 1] && s[b] == hs[if b < a then b else b + 1];
  }

  lemma UnhookStart<T>(v: View<T>, a: nat)
    requires ViewOk(v) && 0 < a < |v.chain| - 1
    ensures Unhooking(v, v.m, a, 0)
  {
    hide RingsOk, HeadsOk, LowOk, MapOk, TopOk, Level, Cut, Put, Heights, Descending;
    CutShape(v.m, v.chain, v.hs, a);
    PutCut(v.chain, a);
    PutCut(v.hs, a);
  }

  /** The neighbours of the removed position at one level, in the shorter list. */
  lemma Around(hs: seq<nat>, a: nat, i: nat) returns (p: nat, q: nat)
    requires 0 < a < |hs| && hs[0] > i && hs[|hs| - 1] > i
    ensures Adjacent(hs, i, p, q) && p < a <= q
  {
    p := a - 1;
    while hs[p] <= i
      invariant 0 <= p < a && forall c | p < c < a :: hs[c] <= i
      decreases p
    {
      p := p - 1;
    }
    q := a;
    while hs[q] <= i
      invariant a <= q < |hs| && forall c | p < c < q :: hs[c] <= i
      decreases |hs| - q
    {
      q := q + 1;
    }
  }

  lemma UnhookStep<T>(v: View<T>, m: map<Node<T>, Links<T>>, a: nat, i: nat, p: nat, q: nat)
    requires ViewOk(v) && Unhooking(v, m, a, i) && i < v.hs[a]
    requires var s := Cut(v.hs, a); Adjacent(s, i, p, q) && p < a <= q
    ensures var c, n := Cut(v.chain, a), v.chain[a];
            && |c| == |v.chain| - 1 && p < q < |c| && c[p] in m && c[q] in m && c[p] != c[q] && c[p] != n && c[q] != n
            && i < |m[n].next| && i < |m[n].prev| && m[n].next[i] == c[q] && m[n].prev[i] == c[p]
            && i < |m[c[p]].next| && i < |m[c[q]].prev|
            && Unhooking(v, Unhooked(m, i, c[p], c[q]), a, i + 1)
  {
    hide SkipOk, RingsOk, HeadsOk, LowOk, MapOk, TopOk, Level, Cut, Put, Adjacent, Unhooked, Falling;
    var c, s, n := Cut(v.chain, a), Cut(v.hs, a), v.chain[a];
    CutShape(v.m, v.chain, v.hs, a);
    AdjacentFacts(s, i, p, q);
    FallOne(m, c, s, a, n, v.hs[a], i, p, q);
    UnhookKeepsRest(m, i, c[p], c[q]);
    InCut(v.chain, a, p);
    InCut(v.chain, a, q);
    assert c[p].expireTime > c[q].expireTime;
  }

  lemma InCut<A>(s: seq<A>, a: nat, b: nat)
    requires a < |s| && b < |s| - 1
    ensures |Cut(s, a)| == |s| - 1 && Cut(s, a)[b] in s
  {
  }

  lemma UnhookKeepsRest<T>(m: map<Node<T>, Links<T>>, i: nat, p: Node<T>, q: Node<T>)
    ensures Alike(m, Unhooked(m, i, p, q), {p} + {q})
  {
    hide Alike, SetNext, SetPrev;
    var m1 := SetNext(m, p, i, q);
    SetKeepsRest(m, p, i, q);
    SetKeepsRest(m1, q, i, p);
    AlikeChain(m, m1, Unhooked(m, i, p, q), {p}, {q});
  }

  ghost function SkipRemoved<T>(v: View<T>, m: map<Node<T>, Links<T>>, a: nat, top: nat): View<T>
    requires a < |v.chain| && a < |v.hs|
  {
    var n := v.chain[a];
    View(m - {n}, v.r - {n}, Cut(v.chain, a), Cut(v.hs, a), v.rings - {n.expireTime}, v.index - {n.id}, v.header,
      v.tail, top)
  }

  lemma SkipRemoveKeeps<T>(v: View<T>, m: map<Node<T>, Links<T>>, a: nat, top: nat)
    requires ViewOk(v) && 0 < a < |v.chain| - 1 && |v.chain| == |v.hs| && Unhooking(v, m, a, v.hs[a])
    requires v.chain[a].expireTime in v.rings && v.rings[v.chain[a].expireTime] == [v.chain[a]]
             && TopOk(Cut(v.hs, a), top)
    ensures ViewOk(SkipRemoved(v, m, a, top))
  {
    hide SkipOk, RingsOk, HeadsOk, LowOk, MapOk, TopOk, Cut, Falling, Heights;
    var n := v.chain[a];
    CutSkip(v, m, a);
    CutRings(v.r, v.rings, n);
    CutHeads(v, a);
    CutLow(v, m, n);
    CutMap(v.m.Keys, v.rings, v.index, v.header, v.tail, n, v.r);
    assert (m - {n}).Keys == v.m.Keys - {n} == (v.r - {n}).Keys;
  }

  lemma CutSkip<T>(v: View<T>, m: map<Node<T>, Links<T>>, a: nat)
    requires ViewOk(v) && a < |v.hs| && Unhooking(v, m, a, v.hs[a])
    ensures var c := Cut(v.chain, a);
            && SkipOk(m - {v.chain[a]}, c, Cut(v.hs, a)) && |c| == |v.chain| - 1 && c[0] == v.header
               && c[|c| - 1] == v.tail
  {
    hide RingsOk, HeadsOk, LowOk, MapOk, TopOk, Level, Cut, Descending, Falling;
    CutShape(v.m, v.chain, v.hs, a);
    Fallen(m, Cut(v.chain, a), Cut(v.hs, a), a, v.chain[a], v.hs[a]);
    hide Heights;
    assert SkipOk(m, Cut(v.chain, a), Cut(v.hs, a));
    SkipLess(m, Cut(v.chain, a), Cut(v.hs, a), v.chain[a]);
  }

  lemma CutRings<T>(r: map<Node<T>, Ring<T>>, rings: map<nat, seq<Node<T>>>, n: Node<T>)
    requires RingsOk(r, rings)
    ensures RingsOk(r - {n}, rings - {n.expireTime})
  {
    forall d | d in rings && d != n.expireTime
      ensures RingOk(r - {n}, rings[d])
    {
      RingIn(r, rings[d]);
      assert forall j | 0 <= j < |rings[d]| :: rings[d][j].expireTime == d;
      RingSame(r, r - {n}, rings[d]);
    }
  }

  lemma CutHeads<T>(v: View<T>, a: nat)
    requires ViewOk(v) && 0 < a < |v.chain| - 1
    ensures HeadsOk(Cut(v.chain, a), v.rings - {v.chain[a].expireTime})
  {
    hide LowOk, MapOk, TopOk, Level, Heights, RingOk, HeadsOk;
    CutHeadsOf(v.chain, v.rings, v.r, a);
  }

  lemma CutHeadsOf<T>(chain: seq<Node<T>>, rings: map<nat, seq<Node<T>>>, r: map<Node<T>, Ring<T>>, a: nat)
    requires HeadsOk(chain, rings) && RingsOk(r, rings) && Descending(chain) && 0 < a < |chain| - 1
    ensures HeadsOk(Cut(chain, a), rings - {chain[a].expireTime})
  {
    hide RingOk, Cut;
    var e, c := chain[a].expireTime, Cut(chain, a);
    CutAt(chain, a, 0);
    forall b | 0 < b < |c| - 1
      ensures var d := c[b].expireTime; d in rings - {e} && rings[d] != [] && rings[d][0] == c[b]
    {
      CutAt(chain, a, b);
    }
    forall d | d in rings && d != e
      ensures rings[d][0] in c
    {
      HeadStays(chain, rings, r, a, d);
    }
  }

  lemma HeadStays<T>(chain: seq<Node<T>>, rings: map<nat, seq<Node<T>>>, r: map<Node<T>, Ring<T>>, a: nat, d: nat)
    requires d in rings && rings[d] != [] && rings[d][0] in chain && RingsOk(r, rings) && 0 < a < |chain| - 1
    requires d != chain[a].expireTime
    ensures rings[d][0] in Cut(chain, a)
  {
    var b :| 0 <= b < |chain| && chain[b] == rings[d][0];
    assert chain[b].expireTime == d;
    CutAt(chain, a, if b < a then b else b - 1);
  }

  lemma CutLow<T>(v: View<T>, m: map<Node<T>, Links<T>>, n: Node<T>)
    requires ViewOk(v) && m.Keys == v.m.Keys && (forall y | y in v.m && y !in v.chain :: m[y] == v.m[y])
    ensures LowOk(m - {n}, v.rings - {n.expireTime})
  {
    forall d, j | d in v.rings && d != n.expireTime && 0 < j < |v.rings[d]|
      ensures v.rings[d][j] in m - {n} && (m - {n})[v.rings[d][j]] == Links([], [])
    {
      NotInChain(v, d, j);
      assert v.rings[d][j].expireTime == d;
    }
  }

  lemma CutMap<T>(all: set<Node<T>>, rings: map<nat, seq<Node<T>>>, nodeMap: map<nat, Node<T>>, header: Node<T>,
                  tail: Node<T>, n: Node<T>, r: map<Node<T>, Ring<T>>)
    requires MapOk(all, rings, nodeMap, header, tail) && RingsOk(r, rings) && n.expireTime in rings
             && rings[n.expireTime] == [n]
    ensures MapOk(all - {n}, rings - {n.expireTime}, nodeMap - {n.id}, header, tail)
  {
    assert rings[n.expireTime][0] == n;
    forall x | x in all - {n} && x != header && x != tail
      ensures x.id in nodeMap - {n.id} && x.expireTime != n.expireTime
    {
      assert nodeMap[x.id] == x && nodeMap[n.id] == n && x in rings[x.expireTime];
    }
    forall d, j | d in rings && d != n.expireTime && 0 <= j < |rings[d]|
      ensures rings[d][j] != n
    {
      assert rings[d][j].expireTime == d;
    }
  }

  // ----- the top level -----

  lemma TopOf(hs: seq<nat>) returns (t: nat)
    requires forall a | 0 < a < |hs| - 1 :: hs[a] <= MAX_LEVEL
    ensures TopOk(hs, t)
  {
    t := 1;
    var a := 1;
    while a < |hs| - 1
      invariant 1 <= t <= MAX_LEVEL && 1 <= a && forall b | 0 < b < a && b < |hs| - 1 :: hs[b] <= t
      invariant t > 1 ==> exists b :: 0 < b < a && b < |hs| - 1 && hs[b] == t
    {
      if hs[a] > t { t := hs[a]; }
      a := a + 1;
    }
  }

  /** The top of a list is the larger of the new node's height and the top without it. */
  lemma TopUnique(hs: seq<nat>, s: nat, t: nat)
    requires TopOk(hs, s) && TopOk(hs, t)
    ensures s == t
  {
  }

  /** At level i >= 1 the neighbours are header and tail exactly when the top is not above i. */
  lemma Lone(hs: seq<nat>, top: nat, i: nat, p: nat, q: nat)
    requires TopOk(hs, top) && |hs| >= 2 && hs[0] > i && hs[|hs| - 1] > i && Adjacent(hs, i, p, q) && i > 0
    ensures p == 0 && q == |hs| - 1 ==> top <= i
    ensures top <= i ==> p == 0 && q == |hs| - 1
  {
    if top <= i {
      assert forall a | 0 < a < |hs| - 1 :: hs[a] <= i;
    }
  }

  // ----- the steps of remove on the heap -----

  /** The two assignments that take a node out of its ring. */
  method PartFromRing<T>(prevNode: Node<T>, nextNode: Node<T>, ghost all: set<Node<T>>)
    requires prevNode in all && nextNode in all
    modifies prevNode`ringNext, nextNode`ringPrev
    ensures RoundOf(all) == Parted(old(RoundOf(all)), prevNode, nextNode) && SkipOf(all) == old(SkipOf(all))
  {
    prevNode.ringNext := nextNode;
    nextNode.ringPrev := prevNode;
  }

  lemma LessNode<T>(all: set<Node<T>>, n: Node<T>)
    ensures SkipOf(all - {n}) == SkipOf(all) - {n} && RoundOf(all - {n}) == RoundOf(all) - {n}
  {
  }

  /** std::move of the links. */
  method HandOver<T>(node: Node<T>, nextNode: Node<T>, ghost all: set<Node<T>>)
    requires node in all && nextNode in all && node != nextNode
    modifies node`next, node`prev, nextNode`next, nextNode`prev
    ensures SkipOf(all) == Handed(old(SkipOf(all)), node, nextNode) && RoundOf(all) == old(RoundOf(all))
  {
    nextNode.next, nextNode.prev := node.next, node.prev;
    node.next, node.prev := [], [];
  }

  /** The loop of remove that puts the promoted node in the place of the old one. */
  method RelinkAll<T>(nextNode: Node<T>, level: nat, ghost v: View<T>, ghost all: set<Node<T>>, ghost a: nat)
    requires ViewOk(v) && 0 < a < |v.chain| - 1 && |v.chain| == |v.hs| && v.hs[a] == level && nextNode !in v.chain
    requires nextNode in all && Promoting(v, SkipOf(all), a, nextNode, 0)
    modifies all
    ensures Promoting(v, SkipOf(all), a, nextNode, level) && RoundOf(all) == old(RoundOf(all))
  {
    hide ViewOk, Promoting, SetNext, SetPrev, Adjacent;
    for i := 0 to level
      invariant Promoting(v, SkipOf(all), a, nextNode, i) && RoundOf(all) == old(RoundOf(all))
    {
      ghost var b, c := Neighbours(v, a, i);
      PromoteStep(v, SkipOf(all), a, nextNode, i, b, c);
      var prevNode, afterNode := nextNode.prev[i], nextNode.next[i];
      PutNext(prevNode, i, nextNode, all);
      PutPrev(afterNode, i, nextNode, all);
    }
  }

  lemma Neighbours<T>(v: View<T>, a: nat, i: nat) returns (b: nat, c: nat)
    requires ViewOk(v) && 0 < a < |v.chain| - 1 && |v.chain| == |v.hs| && i < v.hs[a]
    ensures Adjacent(v.hs, i, b, a) && Adjacent(v.hs, i, a, c)
  {
    hide RingsOk, HeadsOk, LowOk, MapOk, TopOk, Level;
    assert v.hs[a] <= MAX_LEVEL;
    b := Predecessor(v.hs, i, a);
    c := Successor(v.hs, i, a, |v.hs| - 1);
  }

  /** The loop of remove that joins the neighbours at every level, and lowers the top. */
  method UnhookAll<T>(node: Node<T>, level: nat, header: Node<T>, tail: Node<T>, maxCurLevel: nat, ghost v: View<T>,
                      ghost all: set<Node<T>>, ghost a: nat)
    returns (top: nat)
    requires ViewOk(v) && 0 < a < |v.chain| - 1 && |v.chain| == |v.hs| && v.hs[a] == level && v.chain[a] == node
    requires v.header == header && v.tail == tail && v.top == maxCurLevel && v.m == SkipOf(all)
    modifies all
    ensures Unhooking(v, SkipOf(all), a, level) && RoundOf(all) == old(RoundOf(all)) && TopOk(Cut(v.hs, a), top)
  {
    hide ViewOk, Unhooking, SetNext, SetPrev, Adjacent, TopOk, Cut;
    UnhookStart(v, a);
    ghost var t := ShorterTop(v, a);
    top := maxCurLevel;
    for i := 0 to level
      invariant Unhooking(v, SkipOf(all), a, i) && RoundOf(all) == old(RoundOf(all))
      invariant top == (if level > t then level else t) - (if i > t then i - t else 0)
    {
      ghost var p, q := CutNeighbours(v, a, i);
      UnhookStep(v, SkipOf(all), a, i, p, q);
      LoneNode(v, a, i, p, q, t);
      var prevNode, nextNode := node.prev[i], node.next[i];
      PutNext(prevNode, i, nextNode, all);
      PutPrev(nextNode, i, prevNode, all);
      if i > 0 && prevNode == header && nextNode == tail {
        top := top - 1;
      }
    }
  }

  lemma ShorterTop<T>(v: View<T>, a: nat) returns (t: nat)
    requires ViewOk(v) && 0 < a < |v.chain| - 1 && |v.chain| == |v.hs|
    ensures TopOk(Cut(v.hs, a), t) && t >= 1 && v.top == if v.hs[a] > t then v.hs[a] else t
  {
    hide RingsOk, HeadsOk, LowOk, MapOk, Level, Descending;
    CutShape(v.m, v.chain, v.hs, a);
    t := TopOf(Cut(v.hs, a));
    PutTop(Cut(v.hs, a), t, a, v.hs[a]);
    PutCut(v.hs, a);
    TopUnique(v.hs, v.top, if v.hs[a] > t then v.hs[a] else t);
  }

  lemma CutNeighbours<T>(v: View<T>, a: nat, i: nat) returns (p: nat, q: nat)
    requires ViewOk(v) && 0 < a < |v.chain| - 1 && |v.chain| == |v.hs| && i < v.hs[a]
    ensures Adjacent(Cut(v.hs, a), i, p, q) && p < a <= q
  {
    hide RingsOk, HeadsOk, LowOk, MapOk, TopOk, Level, Cut, Descending, Heights;
    CutShape(v.m, v.chain, v.hs, a);
    p, q := Around(Cut(v.hs, a), a, i);
  }

  /** The node is alone at level i exactly when the rest of the list does not reach it. */
  lemma LoneNode<T>(v: View<T>, a: nat, i: nat, p: nat, q: nat, t: nat)
    requires ViewOk(v) && 0 < a < |v.chain| - 1 && |v.chain| == |v.hs| && i < v.hs[a]
    requires Adjacent(Cut(v.hs, a), i, p, q) && TopOk(Cut(v.hs, a), t)
    ensures var c := Cut(v.chain, a);
            p < |c| && q < |c| && (i > 0 && c[p] == v.header && c[q] == v.tail <==> t <= i)
  {
    hide RingsOk, HeadsOk, LowOk, MapOk, Level, Cut, Heights;
    CutShape(v.m, v.chain, v.hs, a);
    var c, s := Cut(v.chain, a), Cut(v.hs, a);
    AdjacentFacts(s, i, p, q);
    assert c[p] == v.header <==> p == 0;
    assert c[q] == v.tail <==> q == |c| - 1;
    if i > 0 { Lone(s, t, i, p, q); }
  }

  lemma EmptyView<T>(v: View<T>)
    requires v.m.Keys == v.r.Keys == {v.header, v.tail} && v.chain == [v.header, v.tail]
             && v.hs == [MAX_LEVEL, MAX_LEVEL]
    requires v.header != v.tail && v.header.expireTime == MAX_UINT64 && v.tail.expireTime == 0
    requires |v.m[v.header].next| == |v.m[v.header].prev| == |v.m[v.tail].next| == |v.m[v.tail].prev| == MAX_LEVEL
    requires forall j: nat | j < MAX_LEVEL :: v.m[v.header].next[j] == v.tail && v.m[v.tail].prev[j] == v.header
    requires v.rings == map[] && v.index == map[] && v.top == 1
    ensures ViewOk(v)
  {
    hide Level;
    EmptyLevels(v.m, v.header, v.tail);
  }

  ghost function AbsOf<T>(index: map<nat, Node<T>>): map<nat, (nat, T)> {
    map id | id in index :: (index[id].expireTime, index[id].data)
  }

  lemma AbsInserted<T>(index: map<nat, Node<T>>, n: Node<T>)
    ensures AbsOf(index[n.id := n]) == AbsOf(index)[n.id := (n.expireTime, n.data)]
  {
  }

  lemma AbsRemoved<T>(index: map<nat, Node<T>>, id: nat)
    ensures AbsOf(index - {id}) == AbsOf(index) - {id}
  {
  }

  ghost function EmptyShape<T>(header: Node<T>, tail: Node<T>): (s: Shape<T>)
    ensures s.all == {header, tail}
  {
    Shape({header, tail}, [header, tail], [MAX_LEVEL, MAX_LEVEL], map[])
  }

  /** Header and tail are next to each other at every level. */
  ghost predicate Tied<T>(header: Node<T>, tail: Node<T>)
    reads header, tail
  {
    && |header.next| == |header.prev| == |tail.next| == |tail.prev| == MAX_LEVEL
    && forall j: nat | j < MAX_LEVEL :: header.next[j] == tail && tail.prev[j] == header
  }

  method TieEnds<T>(header: Node<T>, tail: Node<T>)
    requires header != tail && |header.next| == |header.prev| == |tail.next| == |tail.prev| == MAX_LEVEL
    modifies header`next, tail`prev
    ensures Tied(header, tail)
  {
    for i := 0 to MAX_LEVEL
      invariant |header.next| == |tail.prev| == MAX_LEVEL
      invariant forall j: nat | j < i :: header.next[j] == tail && tail.prev[j] == header
    {
      header.next := header.next[i := tail];
      tail.prev := tail.prev[i := header];
    }
  }

  method NewEnds<T>(blank: T) returns (header: Node<T>, tail: Node<T>)
    ensures header != tail && fresh(header) && fresh(tail) && Tied(header, tail)
    ensures header.expireTime == MAX_UINT64 && tail.expireTime == 0
  {
    header := new Node(MAX_UINT64, 0, MAX_LEVEL, blank);
    tail := new Node(0, 0, MAX_LEVEL, blank);
    TieEnds(header, tail);
  }

  /** The nodes of a time, in the order of their insertion. */
  ghost function RingAt<T>(rings: map<nat, seq<Node<T>>>, e: nat): seq<Node<T>> {
    if e in rings then rings[e] else []
  }

  class TimeoutList<T> {
    var maxCurLevel: nat
    const pHeader: Node<T>
    const pTail: Node<T>
    var nodeMap: map<nat, Node<T>>

    ghost var g: Shape<T>

    ghost function Skip(): map<Node<T>, Links<T>>
      reads this, g.all
    {
      SkipOf(g.all)
    }

    ghost function Round(): map<Node<T>, Ring<T>>
      reads this, g.all
    {
      RoundOf(g.all)
    }

    ghost predicate Valid()
      reads this, g.all
    {
      ViewOk(Now())
    }

    ghost function Now(): View<T>
      reads this, g.all
    {
      View(Skip(), Round(), g.chain, g.hs, g.rings, nodeMap, pHeader, pTail, maxCurLevel)
    }

    /** The map that the list stands for. */
    ghost function Abs(): map<nat, (nat, T)>
      reads this
    {
      AbsOf(nodeMap)
    }

    lemma EmptyNow()
      requires g == EmptyShape(pHeader, pTail)
      requires pHeader != pTail && pHeader.expireTime == MAX_UINT64 && pTail.expireTime == 0
      requires Tied(pHeader, pTail)
      requires nodeMap == map[] && maxCurLevel == 1
      ensures Valid() && Abs() == map[]
    {
      hide ViewOk;
      EmptyView(Now());
    }

    constructor (blank: T)
      ensures Valid() && Abs() == map[] && fresh(g.all)
    {
      hide *;
      var header, tail := NewEnds(blank);
      maxCurLevel := 1;
      pHeader, pTail := header, tail;
      nodeMap := map[];
      g := EmptyShape(header, tail);
      new;
      EmptyNow();
    }

    method GetNode(id: nat) returns (n: Node?<T>)
      requires Valid()
      ensures n == null <==> id !in Abs()
      ensures n != null ==> n.id == id && Abs()[id] == (n.expireTime, n.data)
    {
      if id in nodeMap {
        return nodeMap[id];
      }
      return null;
    }

    lemma HeaderLinks()
      requires Valid()
      ensures pHeader in g.all && pTail in g.all && |pHeader.next| == |pTail.prev| == MAX_LEVEL
      ensures |g.chain| >= 2 && pHeader.next[0] == g.chain[1] && pTail.prev[0] == g.chain[|g.chain| - 2]
      ensures g.chain[1] == pTail <==> |g.chain| == 2
      ensures g.chain[|g.chain| - 2] == pHeader <==> |g.chain| == 2
    {
      hide ViewOk;
      EndLinks(Now());
    }

    /** The list is empty exactly when the map is. */
    lemma EmptyChain()
      requires Valid()
      ensures |g.chain| == 2 <==> nodeMap == map[]
    {
      if |g.chain| > 2 {
        assert g.rings[g.chain[1].expireTime][0] == g.chain[1];
        assert g.chain[1].id in nodeMap;
      }
      if nodeMap != map[] {
        var id :| id in nodeMap;
        var e := nodeMap[id].expireTime;
        var a :| 0 <= a < |g.chain| && g.chain[a] == g.rings[e][0];
        assert g.chain[a].expireTime == e;
      }
    }

    method Empty() returns (empty: bool)
      requires Valid()
      ensures empty <==> Abs() == map[]
    {
      hide SkipOk, RingsOk, HeadsOk, LowOk, MapOk, TopOk;
      HeaderLinks();
      EmptyChain();
      empty := pHeader.next[0] == pTail;
      assert nodeMap == map[] <==> Abs() == map[];
    }

    /** The last ring of the skip list is that of the least time, and its last node is in the map. */
    lemma LastRing(n: Node<T>)
      requires Valid() && |g.chain| > 2 && n == g.chain[|g.chain| - 2]
      ensures n in g.all && n.ringPrev != null && n.ringPrev in g.all && n.ringPrev.id in nodeMap
              && nodeMap[n.ringPrev.id] == n.ringPrev
      ensures n.ringPrev.expireTime == n.expireTime
              && forall id | id in nodeMap :: n.expireTime <= nodeMap[id].expireTime
      ensures n.expireTime in g.rings && g.rings[n.expireTime] != []
      ensures var s := g.rings[n.expireTime]; n.ringPrev == s[|s| - 1]
    {
      var e := n.expireTime;
      var s := g.rings[e];
      assert s[0] == n && RingLinked(Round(), s, 0);
      forall id | id in nodeMap
        ensures n.expireTime <= nodeMap[id].expireTime
      {
        var d := nodeMap[id].expireTime;
        assert d in g.rings && g.rings[d][0] in g.chain;
        var a :| 0 <= a < |g.chain| && g.chain[a] == g.rings[d][0];
        assert g.chain[a].expireTime == d;
      }
    }

    /** getLast: of the nodes of least time the one inserted last, or null exactly when there is none. */
    method GetLast() returns (n: Node?<T>)
      requires Valid()
      ensures n == null <==> Abs() == map[]
      ensures n != null ==> && n.id in nodeMap && nodeMap[n.id] == n
                            && Least(Abs(), n.id, n.expireTime) && Abs()[n.id] == (n.expireTime, n.data)
      ensures n != null ==> && n.expireTime in g.rings && g.rings[n.expireTime] != []
                            && var s := g.rings[n.expireTime]; n == s[|s| - 1]
    {
      hide SkipOk, RingsOk, HeadsOk, LowOk, MapOk, TopOk;
      HeaderLinks();
      EmptyChain();
      assert nodeMap == map[] <==> Abs() == map[];
      var last := pTail.prev[0];
      if last == pHeader {
        return null;
      }
      LastRing(last);
      return last.ringPrev;
    }

    lemma Bounds()
      requires Valid()
      ensures |g.chain| == |g.hs| >= 2 && g.hs[0] == g.hs[|g.hs| - 1] == MAX_LEVEL && g.chain[0] == pHeader
              && g.chain[|g.chain| - 1] == pTail
      ensures pHeader.expireTime == MAX_UINT64 && pTail.expireTime == 0 && 1 <= maxCurLevel <= MAX_LEVEL
    {
    }

    /** Along one level, while times are not earlier. */
    method Walk(start: Node<T>, i: nat, expireTime: nat, ghost from: nat) returns (curNode: Node<T>, ghost a: nat,
                ghost b: nat)
      requires Valid() && 0 < expireTime < MAX_UINT64 && from < |g.chain| - 1 && start == g.chain[from]
               && i < g.hs[from]
      requires start.expireTime >= expireTime
      ensures Adjacent(g.hs, i, a, b) && b < |g.chain| && curNode == g.chain[a]
      ensures g.chain[a].expireTime >= expireTime > g.chain[b].expireTime
    {
      hide ViewOk, Adjacent;
      Bounds();
      curNode, a := start, from;
      b := NextLink(Now(), a, i);
      AdjacentFacts(g.hs, i, a, b);
      var nextNode := curNode.next[i];
      while nextNode.expireTime >= expireTime
        invariant a < b < |g.chain| && curNode == g.chain[a] && nextNode == g.chain[b] && Adjacent(g.hs, i, a, b)
                  && g.hs[b] > i
        invariant curNode.expireTime >= expireTime
        decreases |g.chain| - a
      {
        curNode := nextNode;
        a := b;
        b := NextLink(Now(), a, i);
        AdjacentFacts(g.hs, i, a, b);
        nextNode := curNode.next[i];
      }
    }

    /** The search of insert: from the top level down. */
    method Search(expireTime: nat) returns (prevNodes: array<Node<T>>, curNode: Node<T>,
                  ghost pos: map<nat, (nat, nat)>)
      requires Valid() && 0 < expireTime < MAX_UINT64
      ensures fresh(prevNodes) && prevNodes.Length == MAX_LEVEL && curNode == prevNodes[0]
      ensures Found(g.chain, g.hs, maxCurLevel, expireTime, 0, prevNodes[..], pos)
      ensures forall j | maxCurLevel <= j < MAX_LEVEL :: prevNodes[j] == pHeader
    {
      hide SkipOk, RingsOk, HeadsOk, LowOk, MapOk, TopOk, Adjacent;
      Bounds();
      prevNodes := new Node<T>[MAX_LEVEL](_ => pHeader);
      curNode := pHeader;
      pos := map[];
      ghost var a: nat, b: nat := 0, 0;
      var i := maxCurLevel;
      while i > 0
        invariant 0 <= i <= maxCurLevel && a < |g.chain| - 1 && curNode == g.chain[a] && g.hs[a] > i - 1
        invariant curNode.expireTime >= expireTime
        invariant Found(g.chain, g.hs, maxCurLevel, expireTime, i, prevNodes[..], pos)
        invariant i < maxCurLevel ==> curNode == prevNodes[i]
        invariant forall j | maxCurLevel <= j < MAX_LEVEL :: prevNodes[j] == pHeader
      {
        ghost var prev, pos0 := prevNodes[..], pos;
        i := i - 1;
        curNode, a, b := Walk(curNode, i, expireTime, a);
        AdjacentFacts(g.hs, i, a, b);
        prevNodes[i] := curNode;
        pos := pos[i := (a, b)];
        forall j: nat | i <= j < maxCurLevel
          ensures FoundAt(g.chain, g.hs, expireTime, j, prevNodes[..], pos)
        {
          if j > i { assert FoundAt(g.chain, g.hs, expireTime, j, prev, pos0); }
        }
      }
    }

    /** insert at a time that has a ring. */
    method AddToRing(curNode: Node<T>, id: nat, data: T) returns (node: Node<T>)
      requires Valid() && id !in nodeMap && curNode in g.chain && curNode != pHeader && curNode != pTail
      modifies this, g.all
      ensures Valid() && fresh(node) && node.id == id && node.expireTime == curNode.expireTime && node.data == data
      ensures nodeMap == old(nodeMap)[id := node] && g.all == old(g.all) + {node} && g.chain == old(g.chain)
      ensures g.rings == old(g.rings)[node.expireTime := RingAt(old(g.rings), node.expireTime) + [node]]
    {
      hide ViewOk, Joined, SkipOf, RoundOf;
      RingHead(curNode);
      ghost var v, e := Now(), curNode.expireTime;
      node := NewInRing(curNode.ringPrev, curNode, id, data, g.all, g.rings[e]);
      RingInsertKeeps(v, node);
      Install(nodeMap[id := node], maxCurLevel,
        Shape(g.all + {node}, v.chain, v.hs, v.rings[e := v.rings[e] + [node]]));
    }

    /** The fields of the list itself, after the nodes have been linked. */
    method Install(index: map<nat, Node<T>>, top: nat, ghost shape: Shape<T>)
      modifies this
      ensures g == shape
      ensures Now() == View(old(SkipOf(shape.all)), old(RoundOf(shape.all)), shape.chain, shape.hs, shape.rings,
              index, pHeader, pTail, top)
    {
      hide SkipOf, RoundOf;
      nodeMap, maxCurLevel, g := index, top, shape;
    }

    /** The ring of a node of the skip list starts with it and ends with its ringPrev. */
    lemma RingHead(n: Node<T>)
      requires Valid() && n in g.chain && n != pHeader && n != pTail
      ensures n in g.all && n.expireTime in g.rings
      ensures var s := g.rings[n.expireTime];
              s != [] && s[0] == n && n.ringPrev == s[|s| - 1] && s[|s| - 1] in g.all && s[|s| - 1].ringNext == n
    {
      var a :| 0 <= a < |g.chain| && g.chain[a] == n;
      var s := g.rings[n.expireTime];
      assert RingLinked(Round(), s, 0) && RingLinked(Round(), s, |s| - 1);
    }

    /** insert at a new time, with the level that randomLevel gave. */
    method AddToSkip(prevNodes: array<Node<T>>, ghost pos: map<nat, (nat, nat)>, id: nat, expireTime: nat,
                     newlevel: nat, data: T)
      returns (node: Node<T>)
      requires Valid() && id !in nodeMap && 0 < expireTime < MAX_UINT64 && 1 <= newlevel <= MAX_LEVEL
      requires prevNodes.Length == MAX_LEVEL && Found(g.chain, g.hs, MAX_LEVEL, expireTime, 0, prevNodes[..], pos)
      requires prevNodes[0].expireTime != expireTime
      modifies this, g.all
      ensures Valid() && fresh(node) && node.id == id && node.expireTime == expireTime && node.data == data
      ensures nodeMap == old(nodeMap)[id := node] && g.all == old(g.all) + {node}
      ensures g.rings == old(g.rings)[expireTime := RingAt(old(g.rings), expireTime) + [node]]
    {
      hide ViewOk, Hooking, SkipOf, RoundOf, Found, Put;
      ghost var v := Now();
      FoundPlace(v, MAX_LEVEL, expireTime, prevNodes[..], pos, 0);
      ghost var k := pos[0].0 + 1;
      node := NewInSkip(prevNodes[..], id, expireTime, newlevel, data, v, g.all, pos);
      ghost var m := SkipOf(g.all + {node});
      SkipInsertKeeps(v, m, node, k, newlevel);
      NoRing(v, expireTime, k);
      assert RingAt(v.rings, expireTime) + [node] == [node];
      var top := if newlevel > maxCurLevel then newlevel else maxCurLevel;
      Install(nodeMap[id := node], top,
        Shape(g.all + {node}, Put(v.chain, k, node), Put(v.hs, k, newlevel), v.rings[expireTime := [node]]));
    }

    /** insert: the id must be new. */
    method Insert(id: nat, expireTime: nat, newlevel: nat, data: T) returns (node: Node<T>)
      requires Valid() && id !in Abs() && 0 < expireTime < MAX_UINT64 && 1 <= newlevel <= MAX_LEVEL
      modifies this, g.all
      ensures Valid() && Abs() == old(Abs())[id := (expireTime, data)] && id in nodeMap && nodeMap[id] == node
      ensures node.id == id && fresh(g.all - old(g.all))
      ensures g.rings == old(g.rings)[expireTime := RingAt(old(g.rings), expireTime) + [node]]
    {
      hide ViewOk, Found, RingAt;
      var prevNodes, curNode, pos := Search(expireTime);
      FoundAbove(Now(), expireTime, prevNodes[..], pos);
      ghost var v := Now();
      pos := Extended(v, pos);
      FoundPlace(v, MAX_LEVEL, expireTime, prevNodes[..], pos, 0);
      Bounds();
      if curNode.expireTime == expireTime {
        assert curNode == g.chain[pos[0].0];
        node := AddToRing(curNode, id, data);
      } else {
        node := AddToSkip(prevNodes, pos, id, expireTime, newlevel, data);
      }
      AbsInserted(v.index, node);
      hide AbsOf;
    }

    /** Where a node of the map is: its place in its ring and, if that is the first, in the skip list. */
    lemma Locate(node: Node<T>) returns (j: nat, a: nat)
      requires Valid() && node.id in nodeMap && nodeMap[node.id] == node
      ensures node in g.all && node != pHeader && node != pTail && node.expireTime in g.rings
      ensures var s := g.rings[node.expireTime];
              && j < |s| && s[j] == node && s[Down(j, |s|)] in g.all && s[Up(j, |s|)] in g.all
              && node.ringPrev == s[Down(j, |s|)] && node.ringNext == s[Up(j, |s|)]
                 && (node.ringNext == node <==> |s| == 1)
      ensures |node.next| == 0 <==> j > 0
      ensures j == 0 ==> 0 < a < |g.chain| - 1 && |g.chain| == |g.hs| && g.chain[a] == node && |node.next| == g.hs[a]
    {
      var s := g.rings[node.expireTime];
      j :| 0 <= j < |s| && s[j] == node;
      assert RingLinked(Round(), s, j) && RingLinked(Round(), s, Up(j, |s|)) && RingLinked(Round(), s, Down(j, |s|));
      if j == 0 {
        a :| 0 <= a < |g.chain| && g.chain[a] == node;
      } else {
        a := 0;
      }
    }

    method RemoveFromRing(node: Node<T>, ghost j: nat)
      requires Valid() && node.expireTime in g.rings && 0 < j < |g.rings[node.expireTime]|
               && g.rings[node.expireTime][j] == node
      requires var s := g.rings[node.expireTime];
               && s[Down(j, |s|)] in g.all && s[Up(j, |s|)] in g.all
               && node.ringPrev == s[Down(j, |s|)] && node.ringNext == s[Up(j, |s|)]
      modifies this, g.all
      ensures Valid() && nodeMap == old(nodeMap) - {node.id} && g.all == old(g.all) - {node}
      ensures var e := node.expireTime; g.rings == old(g.rings)[e := Cut(old(g.rings)[e], j)] && g.chain == old(g.chain)
    {
      hide ViewOk, Parted, SkipOf, RoundOf, Cut;
      ghost var v, e := Now(), node.expireTime;
      RingRemoveKeeps(v, e, j);
      PartFromRing(node.ringPrev, node.ringNext, g.all);
      LessNode(g.all, node);
      Install(nodeMap - {node.id}, maxCurLevel, Shape(g.all - {node}, v.chain, v.hs, v.rings[e := Cut(v.rings[e], j)]));
    }

    method Promote(node: Node<T>, ghost a: nat)
      requires Valid() && 0 < a < |g.chain| - 1 && |g.chain| == |g.hs| && g.chain[a] == node && |node.next| == g.hs[a]
      requires node in g.all && node.expireTime in g.rings && |g.rings[node.expireTime]| > 1
               && g.rings[node.expireTime][0] == node
      requires var s := g.rings[node.expireTime];
               s[|s| - 1] in g.all && s[1] in g.all && node.ringPrev == s[|s| - 1] && node.ringNext == s[1]
      modifies this, g.all
      ensures Valid() && nodeMap == old(nodeMap) - {node.id} && g.all == old(g.all) - {node}
      ensures var s := old(g.rings)[node.expireTime];
              && g.rings == old(g.rings)[node.expireTime := Cut(s, 0)]
              && g.chain == With(old(g.chain), a, s[1]) && g.hs == old(g.hs)
    {
      hide ViewOk, Parted, SkipOf, RoundOf, Cut, Promoting, Handed, With;
      ghost var v, e := Now(), node.expireTime;
      NotInChain(v, e, 1);
      var nextNode: Node<T> := node.ringNext;
      PartFromRing(node.ringPrev, nextNode, g.all);
      PromoteStart(v, a, nextNode);
      var level := |node.next|;
      HandOver(node, nextNode, g.all);
      RelinkAll(nextNode, level, v, g.all, a);
      ghost var m := SkipOf(g.all);
      PromoteKeeps(v, m, a);
      LessNode(g.all, node);
      Install(nodeMap - {node.id}, maxCurLevel,
        Shape(g.all - {node}, With(v.chain, a, nextNode), v.hs, v.rings[e := Cut(v.rings[e], 0)]));
    }

    method RemoveFromSkip(node: Node<T>, ghost a: nat)
      requires Valid() && 0 < a < |g.chain| - 1 && |g.chain| == |g.hs| && g.chain[a] == node && |node.next| == g.hs[a]
      requires node.expireTime in g.rings && g.rings[node.expireTime] == [node]
      modifies this, g.all
      ensures Valid() && nodeMap == old(nodeMap) - {node.id} && g.all == old(g.all) - {node}
      ensures g.rings == old(g.rings) - {node.expireTime} && g.chain == Cut(old(g.chain), a)
              && g.hs == Cut(old(g.hs), a)
    {
      hide ViewOk, SkipOf, RoundOf, Cut, Unhooking, TopOk;
      ghost var v, e := Now(), node.expireTime;
      var top := UnhookAll(node, |node.next|, pHeader, pTail, maxCurLevel, v, g.all, a);
      ghost var m := SkipOf(g.all);
      SkipRemoveKeeps(v, m, a, top);
      LessNode(g.all, node);
      Install(nodeMap - {node.id}, top, Shape(g.all - {node}, Cut(v.chain, a), Cut(v.hs, a), v.rings - {e}));
    }

    /** remove of a node in the list. */
    method Remove(node: Node<T>)
      requires Valid() && node.id in nodeMap && nodeMap[node.id] == node
      modifies this, g.all
      ensures Valid() && Abs() == old(Abs()) - {node.id} && g.all <= old(g.all)
    {
      hide ViewOk;
      AbsRemoved(nodeMap, node.id);
      hide AbsOf;
      ghost var j, a := Locate(node);
      if |node.next| == 0 {
        RemoveFromRing(node, j);
      } else if node.ringNext != node {
        Promote(node, a);
      } else {
        RemoveFromSkip(node, a);
      }
    }
  }

  /** What is left once some have been woken. */
  ghost function Left<T>(was: map<nat, (nat, T)>, woken: seq<nat>): map<nat, (nat, T)> {
    was - Elements(woken)
  }

  ghost predicate Least<T>(abs: map<nat, (nat, T)>, id: nat, e: nat) {
    id in abs && abs[id].0 == e && forall x | x in abs :: e <= abs[x].0
  }

  /** Some that were due have been woken, each once, in the order of the deadlines. */
  ghost predicate InOrder<T>(was: map<nat, (nat, T)>, woken: seq<nat>, now: nat) {
    && Distinct(woken) && (forall i | 0 <= i < |woken| :: woken[i] in was && was[woken[i]].0 <= now)
    && (forall i, j | 0 <= i < j < |woken| :: was[woken[i]].0 <= was[woken[j]].0)
  }

  /** And none of them later than what is left. */
  ghost predicate WokenOk<T>(was: map<nat, (nat, T)>, woken: seq<nat>, now: nat) {
    && InOrder(was, woken, now)
    && forall i, id | 0 <= i < |woken| && id in Left(was, woken) :: was[woken[i]].0 <= was[id].0
  }

  lemma NoneWoken<T>(was: map<nat, (nat, T)>, now: nat)
    ensures WokenOk(was, [], now) && Left(was, []) == was
  {
  }

  lemma AllWoken<T>(was: map<nat, (nat, T)>, woken: seq<nat>, now: nat)
    requires WokenOk(was, woken, now) && forall id | id in Left(was, woken) :: was[id].0 > now
    ensures InOrder(was, woken, now) && forall id | id in was :: id in woken <==> was[id].0 <= now
  {
  }

  lemma NothingSooner<T>(was: map<nat, (nat, T)>, woken: seq<nat>, id: nat, e: nat, now: nat)
    requires Left(was, woken) == map[] || (Least(Left(was, woken), id, e) && e > now)
    ensures forall id | id in Left(was, woken) :: was[id].0 > now
  {
  }

  lemma LeftOne<T>(was: map<nat, (nat, T)>, woken: seq<nat>, id: nat)
    requires id in Left(was, woken)
    ensures Left(was, woken + [id]) == Left(was, woken) - {id}
    ensures |Left(was, woken + [id])| < |Left(was, woken)|
  {
    var rest, rest' := Left(was, woken), Left(was, woken + [id]);
    assert rest'.Keys == rest.Keys - {id};
    assert |rest'| == |rest'.Keys| && |rest| == |rest.Keys|;
  }

  lemma LeftAgrees<T>(was: map<nat, (nat, T)>, woken: seq<nat>)
    ensures forall id | id in Left(was, woken) :: id in was && Left(was, woken)[id] == was[id] && id !in woken
  {
  }

  lemma WakeOne<T>(was: map<nat, (nat, T)>, woken: seq<nat>, id: nat, e: nat, now: nat)
    requires WokenOk(was, woken, now) && Least(Left(was, woken), id, e) && e <= now
    ensures WokenOk(was, woken + [id], now)
    ensures Left(was, woken + [id]) == Left(was, woken) - {id}
    ensures |Left(was, woken + [id])| < |Left(was, woken)|
  {
    hide Left;
    LeftOne(was, woken, id);
    LeftAgrees(was, woken);
  }

  /** timeoutRoutine: while the node of least time is due, it is removed and its coroutine woken.
      So all that is due is woken, in the order of the deadlines, and nothing else. */
  method WakeExpired<T>(list: TimeoutList<T>, now: nat) returns (woken: seq<nat>)
    requires list.Valid()
    modifies list, list.g.all
    ensures list.Valid() && list.g.all <= old(list.g.all) && list.Abs() == Left(old(list.Abs()), woken)
    ensures InOrder(old(list.Abs()), woken, now)
    ensures forall id | id in old(list.Abs()) :: id in woken <==> old(list.Abs())[id].0 <= now
  {
    hide *;
    ghost var was := list.Abs();
    woken := [];
    var node := list.GetLast();
    NoneWoken(was, now);
    while node != null && node.expireTime <= now
      invariant list.Valid() && list.g.all <= old(list.g.all) && list.Abs() == Left(was, woken)
      invariant if node == null then list.Abs() == map[] else Least(list.Abs(), node.id, node.expireTime)
      invariant node != null ==> node.id in list.nodeMap && list.nodeMap[node.id] == node
      invariant WokenOk(was, woken, now)
      decreases |Left(was, woken)|
    {
      WakeOne(was, woken, node.id, node.expireTime, now);
      woken := woken + [node.id];
      list.Remove(node);
      node := list.GetLast();
    }
    if node != null {
      NothingSooner(was, woken, node.id, node.expireTime, now);
    } else {
      NothingSooner(was, woken, 0, 0, now);
    }
    AllWoken(was, woken, now);
  }

  /** A new node, linked at all of its levels. */
  method NewInSkip<T>(prevNodes: seq<Node<T>>, id: nat, expireTime: nat, newlevel: nat, data: T, ghost v: View<T>,
                      ghost all: set<Node<T>>, ghost pos: map<nat, (nat, nat)>)
    returns (node: Node<T>)
    requires ViewOk(v) && v.m == SkipOf(all) && v.r == RoundOf(all)
    requires newlevel <= MAX_LEVEL && Found(v.chain, v.hs, MAX_LEVEL, expireTime, 0, prevNodes, pos) && 0 in pos
             && pos[0].0 < |v.hs|
    modifies all
    ensures fresh(node) && node.id == id && node.expireTime == expireTime && node.data == data
    ensures Hooking(v, SkipOf(all + {node}), pos[0].0 + 1, node, newlevel, newlevel)
    ensures RoundOf(all + {node}) == v.r[node := Ring(node, node)]
  {
    hide ViewOk, Hooking, Found;
    node := new Node(expireTime, id, newlevel, data);
    NewNodeView(all, node);
    hide SkipOf, RoundOf;
    HookStart(v, SkipOf(all + {node}), pos[0].0 + 1, node, newlevel);
    HookAll(node, prevNodes, expireTime, newlevel, v, all + {node}, pos);
  }

  /** The loop of insert over the levels of the new node. */
  method HookAll<T>(node: Node<T>, prevNodes: seq<Node<T>>, ghost expireTime: nat, newlevel: nat, ghost v: View<T>,
                    ghost all: set<Node<T>>, ghost pos: map<nat, (nat, nat)>)
    requires ViewOk(v) && newlevel <= MAX_LEVEL && Found(v.chain, v.hs, MAX_LEVEL, expireTime, 0, prevNodes, pos)
    requires 0 in pos && Hooking(v, SkipOf(all), pos[0].0 + 1, node, newlevel, 0)
    modifies all
    ensures Hooking(v, SkipOf(all), pos[0].0 + 1, node, newlevel, newlevel) && RoundOf(all) == old(RoundOf(all))
  {
    hide ViewOk, Hooking, Hooked, Found;
    ghost var k := pos[0].0 + 1;
    for i := 0 to newlevel
      invariant Hooking(v, SkipOf(all), k, node, newlevel, i) && RoundOf(all) == old(RoundOf(all))
    {
      FoundPlace(v, MAX_LEVEL, expireTime, prevNodes, pos, i);
      HookStep(v, SkipOf(all), k, node, newlevel, i, pos[i].0, pos[i].1);
      HookingIn(v, SkipOf(all), k, node, newlevel, i);
      HookLevel(node, prevNodes[i], i, all, v.chain[pos[i].1]);
    }
  }

  lemma HookingIn<T>(v: View<T>, m: map<Node<T>, Links<T>>, k: nat, n: Node<T>, h: nat, i: nat)
    requires Hooking(v, m, k, n, h, i)
    ensures n in m && |m[n].next| == |m[n].prev| == h
  {
  }

  lemma NewNodeView<T>(all: set<Node<T>>, node: Node<T>)
    requires node !in all && node.ringNext == node && node.ringPrev == node
    ensures SkipOf(all + {node}) == SkipOf(all)[node := Links(node.next, node.prev)]
    ensures RoundOf(all + {node}) == RoundOf(all)[node := Ring(node, node)]
  {
  }
}