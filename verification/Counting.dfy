/** Counting the coroutines of a step machine that are at a given kind of program point.

The invariants of the synchronisation machines are linear equations over such
counts; one step moves one coroutine, so every count moves by at most one. */
module Counting {

  import opened Common

  function Where<V>(m: map<Co, V>, p: V -> bool): (s: set<Co>)
    ensures forall k :: k in s <==> k in m && p(m[k])
  {
    set k | k in m && p(m[k])
  }

  function Count<V>(m: map<Co, V>, p: V -> bool): nat {
    |Where(m, p)|
  }

  function Bit(b: bool): nat {
    if b then 1 else 0
  }

  lemma Overwritten<V>(m: map<Co, V>, c: Co, v: V, w: V)
    ensures m[c := v][c := w] == m[c := w] && (c in m ==> m[c := v][c := m[c]] == m)
  {
  }

  lemma CountUpdate<V>(m: map<Co, V>, c: Co, v: V, p: V -> bool)
    requires c in m
    ensures Count(m[c := v], p) == Count(m, p) - Bit(p(m[c])) + Bit(p(v))
  {
    var rest := Where(m, p) - {c};
    assert Where(m, p) == if p(m[c]) then rest + {c} else rest;
    assert Where(m[c := v], p) == if p(v) then rest + {c} else rest;
  }

  lemma CountHas<V>(m: map<Co, V>, c: Co, p: V -> bool)
    requires c in m && p(m[c])
    ensures Count(m, p) >= 1
  {
    CardinalityMonotone({c}, Where(m, p));
  }

  lemma CountWitness<V>(m: map<Co, V>, p: V -> bool) returns (c: Co)
    requires Count(m, p) >= 1
    ensures c in m && p(m[c])
  {
    c :| c in Where(m, p);
  }

  lemma CountUnique<V>(m: map<Co, V>, a: Co, b: Co, p: V -> bool)
    requires Count(m, p) <= 1
    requires a in m && p(m[a]) && b in m && p(m[b])
    ensures a == b
  {
    CardinalityMonotone({a, b}, Where(m, p));
  }

  lemma CountNone<V>(m: map<Co, V>, p: V -> bool)
    requires forall k | k in m :: !p(m[k])
    ensures Count(m, p) == 0
  {
    assert Where(m, p) == {};
  }

  lemma CountZero<V>(m: map<Co, V>, p: V -> bool)
    requires Count(m, p) == 0
    ensures forall k | k in m :: !p(m[k])
  {
    assert Where(m, p) == {};
    assert forall k | k in m && p(m[k]) :: k in Where(m, p);
  }

  /** Disjoint classes inside a third one. */
  lemma CountDisjoint<V>(m: map<Co, V>, p: V -> bool, q: V -> bool, r: V -> bool)
    requires forall k | k in m :: !(p(m[k]) && q(m[k])) && (p(m[k]) || q(m[k]) ==> r(m[k]))
    ensures Count(m, p) + Count(m, q) <= Count(m, r) <= |m|
  {
    assert Where(m, p) !! Where(m, q);
    assert |Where(m, p) + Where(m, q)| == Count(m, p) + Count(m, q);
    CardinalityMonotone(Where(m, p) + Where(m, q), Where(m, r));
    CardinalityMonotone(Where(m, r), m.Keys);
  }

  lemma CardinalityMonotone<T>(a: set<T>, b: set<T>)
    requires a <= b
    ensures |a| <= |b|
  {
    assert (b - a) + a == b;
    assert |(b - a) + a| == |b - a| + |a|;
  }

  lemma SubsetOfSameSize<T>(a: set<T>, b: set<T>)
    requires a <= b && |a| >= |b|
    ensures a == b
  {
    assert |b - a| == |b| - |a|;
  }

  lemma PushCount(q: seq<Co>, c: Co, x: Co)
    ensures multiset(q + [c])[x] == multiset(q)[x] + Bit(x == c)
  {
    assert multiset(q + [c]) == multiset(q) + multiset{c};
  }

  lemma PopCount(q: seq<Co>, x: Co)
    requires q != []
    ensures multiset(q[1..])[x] == multiset(q)[x] - Bit(x == q[0])
  {
    assert q == [q[0]] + q[1..];
    assert multiset(q) == multiset{q[0]} + multiset(q[1..]);
  }
}
