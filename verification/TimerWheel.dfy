/** The hashed timing wheel of the event loop, against a plain set of deadlines. */
module TimerWheel {

  import opened BitWords
  import opened Common

  /** One arming of a timeout; the id tells armings apart. */
  datatype Item = Item(id: nat, expire: nat)

  /** i & (n - 1) for a power of two n and i < 2 * n. */
  function Wrap(i: nat, n: nat): (r: nat)
    requires i < 2 * n
    ensures r < n
  {
    if i < n then i else i - n
  }

  /** The wheel as a value. */
  datatype State = State(slots: seq<seq<Item>>, flags: seq<Word>, start: nat, startIdx: nat) {
    ghost predicate Sized() {
      |slots| == 64 * |flags| && |slots| >= 1024 && startIdx < |slots|
    }

    /** How many milliseconds after start the slot is due. */
    function Offset(idx: nat): nat
      requires startIdx < |slots| && idx < |slots|
    {
      if idx >= startIdx then idx - startIdx else idx + |slots| - startIdx
    }
  }

  ghost predicate FlagOf(flags: seq<Word>, idx: nat)
    requires idx < 64 * |flags|
  {
    Flag(flags[idx / 64], idx % 64)
  }

  /** An item is in its slot, and the slot is not due later than the item. */
  ghost predicate InPlace(s: State, it: Item, idx: nat) {
    s.Sized() && idx < |s.slots| && it in s.slots[idx] && s.start + s.Offset(idx) <= it.expire
  }

  /** An item sits in the slot of its very deadline. */
  ghost predicate Exact(s: State, place: map<Item, nat>, it: Item) {
    it in place && s.startIdx < |s.slots| && place[it] < |s.slots| && s.start + s.Offset(place[it]) == it.expire
  }

  /** A slot holds only items that belong there, none twice, and has its flag if it holds any. */
  ghost predicate SlotOk(s: State, place: map<Item, nat>, idx: nat)
    requires s.Sized() && idx < |s.slots|
  {
    && Distinct(s.slots[idx]) && (s.slots[idx] != [] ==> FlagOf(s.flags, idx))
    && forall k | 0 <= k < |s.slots[idx]| :: s.slots[idx][k] in place && place[s.slots[idx][k]] == idx
  }

  /** place says where every pending item is. */
  ghost predicate Inv(s: State, place: map<Item, nat>) {
    && s.Sized()
    && (forall it | it in place :: InPlace(s, it, place[it]))
    && (forall idx | 0 <= idx < |s.slots| :: SlotOk(s, place, idx))
  }

  // ----- adding -----

  function Target(s: State, expire: nat): nat
    requires s.startIdx < |s.slots| && s.start <= expire
  {
    var diff := expire - s.start;
    Wrap(s.startIdx + if diff >= |s.slots| then |s.slots| - 1 else diff, |s.slots|)
  }

  function Added(s: State, it: Item, idx: nat): State
    requires idx < |s.slots| && |s.slots| == 64 * |s.flags|
  {
    s.(slots := s.slots[idx := s.slots[idx] + [it]],
       flags := s.flags[idx / 64 := SetFlag(s.flags[idx / 64], idx % 64)])
  }

  lemma FlagsAfterSet(flags: seq<Word>, idx: nat, k: nat)
    requires idx < 64 * |flags| && k < 64 * |flags|
    ensures FlagOf(flags[idx / 64 := SetFlag(flags[idx / 64], idx % 64)], k) <==> FlagOf(flags, k) || k == idx
  {
    hide Flag, SetFlag, ClearFlag;
    if k / 64 == idx / 64 {
      FlagSet(flags[idx / 64], idx % 64, k % 64);
    }
  }

  lemma FlagsAfterClear(flags: seq<Word>, idx: nat, k: nat)
    requires idx < 64 * |flags| && k < 64 * |flags|
    ensures FlagOf(flags[idx / 64 := ClearFlag(flags[idx / 64], idx % 64)], k) <==> FlagOf(flags, k) && k != idx
  {
    hide Flag, SetFlag, ClearFlag;
    if k / 64 == idx / 64 {
      FlagCleared(flags[idx / 64], idx % 64, k % 64);
    }
  }

  lemma TargetTime(s: State, expire: nat)
    requires s.Sized() && s.start <= expire
    ensures var idx := Target(s, expire); idx < |s.slots| && s.start + s.Offset(idx) <= expire
  {
  }

  lemma AddKeeps(s: State, place: map<Item, nat>, it: Item)
    requires Inv(s, place) && it !in place && s.start <= it.expire
    ensures var idx := Target(s, it.expire); Inv(Added(s, it, idx), place[it := idx])
    ensures if it.expire - s.start < |s.slots| then s.start + s.Offset(Target(s, it.expire)) == it.expire
            else s.Offset(Target(s, it.expire)) == |s.slots| - 1
  {
    var idx := Target(s, it.expire);
    TargetTime(s, it.expire);
    var s', place' := Added(s, it, idx), place[it := idx];
    hide Target, FlagOf;
    forall x | x in place'
      ensures InPlace(s', x, place'[x])
    {
      if x != it { assert InPlace(s, x, place[x]); }
    }
    forall k | 0 <= k < |s'.slots|
      ensures SlotOk(s', place', k)
    {
      assert SlotOk(s, place, k);
      FlagsAfterSet(s.flags, idx, k);
    }
  }

  // ----- removing -----

  /** The items of a slot are gone from the map. */
  function Vacated(place: map<Item, nat>, idx: nat): map<Item, nat> {
    map it | it in place && place[it] != idx :: place[it]
  }

  function Emptied(s: State, idx: nat): State
    requires idx < |s.slots| && |s.slots| == 64 * |s.flags|
  {
    if s.slots[idx] == [] then s
    else s.(slots := s.slots[idx := []], flags := s.flags[idx / 64 := ClearFlag(s.flags[idx / 64], idx % 64)])
  }

  lemma EmptyKeeps(s: State, place: map<Item, nat>, idx: nat)
    requires Inv(s, place) && idx < |s.slots|
    ensures Inv(Emptied(s, idx), Vacated(place, idx))
  {
    var s', place' := Emptied(s, idx), Vacated(place, idx);
    forall x | x in place'
      ensures InPlace(s', x, place'[x])
    {
      hide SlotOk;
      assert InPlace(s, x, place[x]);
    }
    forall k | 0 <= k < |s'.slots|
      ensures SlotOk(s', place', k)
    {
      assert SlotOk(s, place, k);
      EmptySlots(s, place, idx, k);
    }
    hide SlotOk, InPlace, FlagOf;
  }

  lemma EmptySlots(s: State, place: map<Item, nat>, idx: nat, k: nat)
    requires s.Sized() && idx < |s.slots| && k < |s.slots| && SlotOk(s, place, k)
    ensures SlotOk(Emptied(s, idx), Vacated(place, idx), k)
  {
    hide FlagOf, SetFlag, ClearFlag;
    FlagsAfterClear(s.flags, idx, k);
    if k != idx {
      assert Emptied(s, idx).slots[k] == s.slots[k];
    }
  }

  /** RemoveFromLink: the item leaves its slot; the flag stays as it is. */
  function Dropped(s: State, idx: nat, k: nat): State
    requires idx < |s.slots| && k < |s.slots[idx]|
  {
    s.(slots := s.slots[idx := s.slots[idx][..k] + s.slots[idx][k + 1..]])
  }

  function IndexOf(s: seq<Item>, it: Item): (k: nat)
    requires it in s
    ensures k < |s| && s[k] == it
  {
    if s[0] == it then 0 else IndexOf(s[1..], it) + 1
  }

  lemma LessInOrder(q: seq<Item>, k: nat)
    requires k < |q|
    ensures forall a, b | BeforeIn(q[..k] + q[k + 1..], a, b) :: BeforeIn(q, a, b)
  {
    var r := q[..k] + q[k + 1..];
    forall a, b | BeforeIn(r, a, b)
      ensures BeforeIn(q, a, b)
    {
      var i, j :| 0 <= i < j < |r| && r[i] == a && r[j] == b;
      assert q[if i < k then i else i + 1] == a && q[if j < k then j else j + 1] == b;
    }
  }

  lemma DropKeeps(s: State, place: map<Item, nat>, idx: nat, k: nat)
    requires Inv(s, place) && idx < |s.slots| && k < |s.slots[idx]|
    ensures Inv(Dropped(s, idx, k), place - {s.slots[idx][k]})
  {
    var it := s.slots[idx][k];
    var s', place' := Dropped(s, idx, k), place - {it};
    assert SlotOk(s, place, idx);
    hide FlagOf;
    forall x | x in place'
      ensures InPlace(s', x, place'[x])
    {
      assert InPlace(s, x, place[x]);
      if place[x] == idx {
        var j :| 0 <= j < |s.slots[idx]| && s.slots[idx][j] == x;
        assert s'.slots[idx][if j < k then j else j - 1] == x;
      }
    }
    forall i | 0 <= i < |s'.slots|
      ensures SlotOk(s', place', i)
    {
      assert SlotOk(s, place, i);
    }
  }

  // ----- the wheel turns -----

  ghost predicate Swept(s: State, n: nat)
    requires s.Sized()
  {
    n <= |s.slots| && forall o | 0 <= o < n :: SlotAt(s, o) == []
  }

  ghost function SlotAt(s: State, o: nat): seq<Item>
    requires s.Sized() && o < |s.slots|
  {
    s.slots[Wrap(s.startIdx + o, |s.slots|)]
  }

  lemma SweptBound(s: State, place: map<Item, nat>, n: nat, it: Item)
    requires Inv(s, place) && Swept(s, n) && it in place
    ensures n <= s.Offset(place[it]) < |s.slots|
  {
    assert InPlace(s, it, place[it]);
    var o := s.Offset(place[it]);
    assert SlotAt(s, o) == s.slots[place[it]];
  }

  /** After the slots up to now have been emptied, what is left is due later, and the start
      can move to now. */
  lemma AdvanceKeeps(s: State, place: map<Item, nat>, cnt: nat, now: nat)
    requires Inv(s, place) && s.start <= now && Swept(s, cnt)
    requires cnt == (if now - s.start + 1 > |s.slots| then |s.slots| else now - s.start + 1)
    ensures var s' := s.(start := now, startIdx := Wrap(s.startIdx + cnt - 1, |s.slots|));
            && Inv(s', place)
            && forall it | it in place :: it.expire > now && (Exact(s', place, it) <==> Exact(s, place, it))
  {
    var s' := s.(start := now, startIdx := Wrap(s.startIdx + cnt - 1, |s.slots|));
    forall it | it in place
      ensures InPlace(s', it, place[it]) && it.expire > now && (Exact(s', place, it) <==> Exact(s, place, it))
    {
      hide SlotOk;
      assert InPlace(s, it, place[it]);
      SweptBound(s, place, cnt, it);
      assert s'.Offset(place[it]) == s.Offset(place[it]) - (cnt - 1);
    }
    forall i | 0 <= i < |s'.slots|
      ensures SlotOk(s', place, i)
    {
      assert SlotOk(s, place, i);
    }
    hide SlotOk, InPlace;
  }

  /** An empty wheel can start anywhere. */
  lemma RestartKeeps(s: State, now: nat)
    requires Inv(s, map[])
    ensures Inv(s.(start := now, startIdx := 0), map[])
  {
    var s' := s.(start := now, startIdx := 0);
    forall idx | 0 <= idx < |s'.slots|
      ensures SlotOk(s', map[], idx)
    {
      assert SlotOk(s, map[], idx);
    }
  }

  ghost predicate Whole(all: set<Item>, taken: seq<Item>, place: map<Item, nat>) {
    && Distinct(taken) && (forall it | it in all :: it in taken || it in place)
    && (forall it | it in place :: it in all && it !in taken) && (forall i | 0 <= i < |taken| :: taken[i] in all)
  }

  lemma MoreTaken(s: State, all: set<Item>, taken: seq<Item>, place: map<Item, nat>, idx: nat)
    requires Inv(s, place) && idx < |s.slots| && Whole(all, taken, place)
    ensures Whole(all, taken + s.slots[idx], Vacated(place, idx))
  {
    var more := s.slots[idx];
    assert SlotOk(s, place, idx);
    hide FlagOf;
    forall it | it in all
      ensures it in taken + more || it in Vacated(place, idx)
    {
      if it in place && place[it] == idx { assert InPlace(s, it, idx); }
    }
    forall i | 0 <= i < |more|
      ensures more[i] in all && more[i] !in taken && more[i] !in Vacated(place, idx)
    {
      assert more[i] in place;
    }
  }

  // ----- the order of what is taken -----

  ghost predicate BeforeIn(q: seq<Item>, a: Item, b: Item) {
    exists i, j :: 0 <= i < j < |q| && q[i] == a && q[j] == b
  }

  /** In each slot the items of s' are in the order that they have in s. */
  ghost predicate OrderKept(s: State, s': State) {
    && s'.startIdx == s.startIdx && |s'.slots| == |s.slots|
    && forall idx, a, b | 0 <= idx < |s.slots| && BeforeIn(s'.slots[idx], a, b) :: BeforeIn(s.slots[idx], a, b)
  }

  /** a is due no later than b, and ahead of it if they share a slot. */
  ghost predicate NotAfter(s: State, place: map<Item, nat>, a: Item, b: Item) {
    && s.startIdx < |s.slots| && a in place && b in place && place[a] < |s.slots| && place[b] < |s.slots|
    && s.Offset(place[a]) <= s.Offset(place[b])
    && (place[a] == place[b] ==> BeforeIn(s.slots[place[a]], a, b))
  }

  ghost predicate InOrder(s: State, place: map<Item, nat>, taken: seq<Item>) {
    forall i, j | 0 <= i < j < |taken| :: NotAfter(s, place, taken[i], taken[j])
  }

  ghost predicate TakenFrom(s: State, place: map<Item, nat>, taken: seq<Item>, n: nat) {
    forall i | 0 <= i < |taken| ::
      && taken[i] in place && place[taken[i]] < |s.slots| && s.startIdx < |s.slots|
      && s.Offset(place[taken[i]]) < n
  }

  /** The slots from the n-th on are still as they were. */
  ghost predicate Untouched(s: State, now: State, n: nat)
    requires s.Sized()
  {
    && now.Sized() && |now.slots| == |s.slots| && now.startIdx == s.startIdx
    && forall o | n <= o < |s.slots| :: SlotAt(now, o) == SlotAt(s, o)
  }

  lemma OffsetOfSlot(s: State, o: nat)
    requires s.Sized() && o < |s.slots|
    ensures s.Offset(Wrap(s.startIdx + o, |s.slots|)) == o
  {
  }

  lemma OrderMore(s: State, place: map<Item, nat>, taken: seq<Item>, n: nat)
    requires Inv(s, place) && n < |s.slots| && InOrder(s, place, taken) && TakenFrom(s, place, taken, n)
    ensures InOrder(s, place, taken + SlotAt(s, n)) && TakenFrom(s, place, taken + SlotAt(s, n), n + 1)
  {
    var idx := Wrap(s.startIdx + n, |s.slots|);
    assert SlotOk(s, place, idx);
    OffsetOfSlot(s, n);
    hide FlagOf, InPlace, Inv, Distinct;
    var more := s.slots[idx];
    forall i | 0 <= i < |more|
      ensures more[i] in place && place[more[i]] == idx
    {
    }
    hide SlotOk;
    OrderJoins(s, place, taken, more, idx, n);
  }

  lemma OrderJoins(s: State, place: map<Item, nat>, taken: seq<Item>, more: seq<Item>, idx: nat, n: nat)
    requires s.startIdx < |s.slots| && idx < |s.slots| && more == s.slots[idx] && s.Offset(idx) == n
    requires forall i | 0 <= i < |more| :: more[i] in place && place[more[i]] == idx
    requires InOrder(s, place, taken) && TakenFrom(s, place, taken, n)
    ensures InOrder(s, place, taken + more) && TakenFrom(s, place, taken + more, n + 1)
  {
    forall i, j | 0 <= i < j < |taken + more|
      ensures NotAfter(s, place, (taken + more)[i], (taken + more)[j])
    {
      var a, b := (taken + more)[i], (taken + more)[j];
      if j < |taken| {
        assert a == taken[i] && b == taken[j];
      } else {
        assert b == more[j - |taken|];
        if i < |taken| {
          assert a == taken[i];
        } else {
          assert a == more[i - |taken|];
          assert BeforeIn(s.slots[idx], a, b);
        }
      }
    }
  }

  /** An empty wheel gives nothing. */
  lemma NothingTaken(taken: seq<Item>, place: map<Item, nat>)
    requires Whole({}, taken, place)
    ensures taken == []
  {
    assert Elements(taken) == {};
    DistinctLength(taken);
  }

  lemma InvSized(s: State, place: map<Item, nat>)
    requires Inv(s, place)
    ensures s.Sized()
  {
  }

  lemma NothingYet(s: State, place: map<Item, nat>)
    ensures InOrder(s, place, []) && TakenFrom(s, place, [], 0) && Whole(place.Keys, [], place)
    ensures s.Sized() ==> Untouched(s, s, 0) && Swept(s, 0)
  {
  }

  lemma UntouchedMore(s: State, now: State, n: nat)
    requires s.Sized() && Untouched(s, now, n) && n < |s.slots|
    ensures now.Sized() && |now.slots| == |s.slots| && now.startIdx == s.startIdx
    ensures now.slots[Wrap(now.startIdx + n, |now.slots|)] == SlotAt(s, n)
    ensures Untouched(s, Emptied(now, Wrap(now.startIdx + n, |now.slots|)), n + 1)
  {
    assert SlotAt(now, n) == SlotAt(s, n);
    var now' := Emptied(now, Wrap(now.startIdx + n, |now.slots|));
    forall o | n + 1 <= o < |s.slots|
      ensures SlotAt(now', o) == SlotAt(s, o)
    {
      assert SlotAt(now, o) == SlotAt(s, o);
    }
  }

  lemma SweptMore(s: State, n: nat)
    requires s.Sized() && Swept(s, n) && n < |s.slots|
    ensures Swept(Emptied(s, Wrap(s.startIdx + n, |s.slots|)), n + 1)
  {
    var idx := Wrap(s.startIdx + n, |s.slots|);
    var s' := Emptied(s, idx);
    forall o | 0 <= o <= n
      ensures SlotAt(s', o) == []
    {
      if o < n { assert SlotAt(s, o) == []; }
    }
  }

  // ----- the scan for the next timeout -----

  /** The flag of the slot that is o milliseconds ahead. */
  ghost predicate Flagged(s: State, o: nat)
    requires s.Sized() && o < |s.slots|
  {
    FlagOf(s.flags, Wrap(s.startIdx + o, |s.slots|))
  }

  /** The words of flags run round from the one that holds the start. */
  function WordAt(flags: seq<Word>, startIdx: nat, j: nat): Word
    requires startIdx / 64 + j < 2 * |flags|
  {
    flags[Wrap(startIdx / 64 + j, |flags|)]
  }

  lemma Unrolled(s: State, o: nat)
    requires s.Sized() && o < |s.slots|
    ensures var p := s.startIdx % 64 + o;
            s.startIdx / 64 + p / 64 < 2 * |s.flags|
              && Flagged(s, o) == Flag(WordAt(s.flags, s.startIdx, p / 64), p % 64)
  {
    hide Flag;
    var x, p := s.startIdx + o, s.startIdx % 64 + o;
    assert x / 64 == s.startIdx / 64 + p / 64 && x % 64 == p % 64;
    if x >= |s.slots| {
      assert (x - |s.slots|) / 64 == x / 64 - |s.flags| && (x - |s.slots|) % 64 == x % 64;
    }
  }

  /** No flag before position x, counted from the first flag of the first word. */
  ghost predicate ClearTo(s: State, x: nat)
    requires s.Sized()
  {
    forall o | 0 <= o < |s.slots| && s.startIdx % 64 + o < x :: !Flagged(s, o)
  }

  ghost predicate HitBefore(s: State, x: nat)
    requires s.Sized()
  {
    exists o :: 0 <= o < |s.slots| && Flagged(s, o) && s.startIdx % 64 + o < x
  }

  /** m is the word w from its lo-th flag to before its hi-th, moved down by shift. */
  ghost predicate Window(m: Word, w: Word, lo: nat, hi: nat, shift: nat) {
    forall k | 0 <= k < 64 :: Flag(m, k) == (lo <= k + shift < hi && Flag(w, k + shift))
  }

  /** The j-th word is searched where its flags are those of offsets not yet covered. */
  ghost predicate Covers(s: State, j: nat, lo: nat, hi: nat, shift: nat)
    requires s.Sized()
  {
    && shift <= lo < hi <= 64 && s.startIdx / 64 + j < 2 * |s.flags|
    && (j == 0 ==> lo == s.startIdx % 64) && (j > 0 ==> lo == 0)
    && 64 * j + hi <= |s.slots| + s.startIdx % 64
  }

  lemma FlagInWord(s: State, j: nat, k: nat)
    requires s.Sized() && k < 64 && s.startIdx / 64 + j < 2 * |s.flags|
    requires s.startIdx % 64 <= 64 * j + k < |s.slots| + s.startIdx % 64
    ensures Flagged(s, 64 * j + k - s.startIdx % 64) == Flag(WordAt(s.flags, s.startIdx, j), k)
  {
    hide Flag, Flagged;
    Unrolled(s, 64 * j + k - s.startIdx % 64);
    assert (64 * j + k) / 64 == j && (64 * j + k) % 64 == k;
  }

  lemma NothingFound(s: State, j: nat, m: Word, lo: nat, hi: nat, shift: nat)
    requires s.Sized() && Covers(s, j, lo, hi, shift) && Window(m, WordAt(s.flags, s.startIdx, j), lo, hi, shift)
    requires ClearTo(s, 64 * j + lo) && m == 0
    ensures ClearTo(s, 64 * j + hi)
  {
    hide Flag, Flagged, WordAt;
    var s0 := s.startIdx % 64;
    forall o | 0 <= o < |s.slots| && s0 + o < 64 * j + hi
      ensures !Flagged(s, o)
    {
      if s0 + o >= 64 * j + lo {
        var k := s0 + o - 64 * j;
        FlagInWord(s, j, k);
        NoFlag(k - shift);
        assert Flag(m, k - shift) == (lo <= k < hi && Flag(WordAt(s.flags, s.startIdx, j), k));
      }
    }
  }

  lemma SomethingFound(s: State, j: nat, m: Word, lo: nat, hi: nat, shift: nat)
    requires s.Sized() && Covers(s, j, lo, hi, shift) && Window(m, WordAt(s.flags, s.startIdx, j), lo, hi, shift)
    requires ClearTo(s, 64 * j + lo) && m != 0
    ensures var x := 64 * j + shift + FirstByte(m);
            8 <= x <= 64 * j + shift + 64 && ClearTo(s, x - 8) && HitBefore(s, x) && HitBefore(s, 64 * j + hi)
  {
    hide Flag, Flagged, WordAt, FirstByte;
    var s0 := s.startIdx % 64;
    FirstByteFinds(m);
    var r := FirstByte(m);
    var x := 64 * j + shift + r;
    var k1 :| r - 8 <= k1 < r && Flag(m, k1);
    assert lo <= k1 + shift < hi && Flag(WordAt(s.flags, s.startIdx, j), k1 + shift);
    FlagInWord(s, j, k1 + shift);
    assert Flagged(s, 64 * j + k1 + shift - s0);
    forall o | 0 <= o < |s.slots| && s0 + o < x - 8
      ensures !Flagged(s, o)
    {
      if s0 + o >= 64 * j + lo {
        var k := s0 + o - 64 * j;
        FlagInWord(s, j, k);
        assert Flag(m, k - shift) == (lo <= k < hi && Flag(WordAt(s.flags, s.startIdx, j), k));
      }
    }
  }

  lemma StartWindow(w: Word, s0: nat)
    requires s0 < 64
    ensures Window(ShiftDown(KeepFrom(w, s0), s0 / 8), w, s0, 64, s0 / 8 * 8)
  {
    hide Flag, ShiftDown, KeepFrom;
    forall k | 0 <= k < 64
      ensures var c := s0 / 8 * 8;
              Flag(ShiftDown(KeepFrom(w, s0), s0 / 8), k) == (s0 <= k + c < 64 && Flag(w, k + c))
    {
      FlagShifted(KeepFrom(w, s0), s0 / 8, k);
      if k + s0 / 8 * 8 < 64 { FlagFrom(w, s0, k + s0 / 8 * 8); }
    }
  }

  lemma EndWindow(w: Word, e: nat, full: bool)
    requires e < 64
    ensures Window(KeepUpTo(w, e, full), w, 0, if e == 63 && !full then 0 else e + 1, 0)
  {
    hide Flag, KeepUpTo;
    forall k | 0 <= k < 64
      ensures Flag(KeepUpTo(w, e, full), k) == (0 <= k < (if e == 63 && !full then 0 else e + 1) && Flag(w, k))
    {
      FlagUpTo(w, e, full, k);
    }
  }

  /** An empty mask finds nothing. */
  lemma EmptyWindow(m: Word, w: Word)
    requires Window(m, w, 0, 0, 0)
    ensures m == 0
  {
    hide Flag, FirstByte;
    if m != 0 {
      FirstByteFinds(m);
    }
  }

  /** The wait outlasts the first flag, if that lies within a second. */
  ghost predicate Reaches(s: State, ret: nat)
    requires s.Sized()
  {
    forall o | 0 <= o <= 1000 && Flagged(s, o) && ClearTo(s, s.startIdx % 64 + o) :: o < ret
  }

  /** The second ends on the last flag of a word, its mask came out empty, and the first flag is in
      that word, too late for the rounding to make up for it. */
  ghost predicate Missed(s: State, full: bool)
    requires s.Sized()
  {
    !full && s.startIdx % 64 == 23 && ClearTo(s, 967) && !ClearTo(s, 1024)
  }

  /** The wait is early enough for every flag; and late enough for the first one within a
      second, if and only if that one is not missed; without one it is about a second. */
  ghost predicate GoodWait(s: State, ret: nat, full: bool)
    requires s.Sized()
  {
    && (forall o | 0 <= o < |s.slots| && Flagged(s, o) :: ret <= o + 15)
    && (Reaches(s, ret) <==> !Missed(s, full))
    && (ClearTo(s, s.startIdx % 64 + 1001) ==> 937 <= ret <= 1007)
  }

  /** A search for the first flag. */
  lemma {:induction false} FirstFlag(s: State, x: nat) returns (o: nat)
    requires s.Sized() && !ClearTo(s, x)
    ensures o < |s.slots| && s.startIdx % 64 + o < x && Flagged(s, o) && ClearTo(s, s.startIdx % 64 + o)
    decreases x
  {
    hide Flagged;
    o :| 0 <= o < |s.slots| && s.startIdx % 64 + o < x && Flagged(s, o);
    if !ClearTo(s, s.startIdx % 64 + o) {
      o := FirstFlag(s, s.startIdx % 64 + o);
    }
  }

  lemma HitLater(s: State, x: nat, y: nat)
    requires s.Sized() && HitBefore(s, x) && x <= y
    ensures HitBefore(s, y)
  {
    hide Flagged;
  }

  lemma HitIsGood(s: State, x: nat, full: bool)
    requires s.Sized() && 8 <= x && s.startIdx % 64 / 8 * 8 <= x && ClearTo(s, x - 8) && HitBefore(s, x)
    requires full || s.startIdx % 64 != 23 || x <= 960
    requires HitBefore(s, s.startIdx % 64 + 1001)
    ensures GoodWait(s, x - s.startIdx % 64 / 8 * 8, full)
  {
    hide Flagged;
  }

  lemma NoHitIsGood(s: State, x: nat, full: bool)
    requires s.Sized() && s.startIdx % 64 / 8 * 8 <= x && ClearTo(s, x)
    requires full || s.startIdx % 64 != 23
    requires ClearTo(s, s.startIdx % 64 + 1001) && x == (s.startIdx % 64 + 1000) / 64 * 64
    ensures GoodWait(s, x - s.startIdx % 64 / 8 * 8, full)
  {
    hide Flagged;
  }

  /** With the empty mask the last word counts for nothing, and the wait ends with the word before:
      that is too short exactly for the first flags from offset 944 on. */
  lemma EmptyMaskIsGood(s: State)
    requires s.Sized() && s.startIdx % 64 == 23 && ClearTo(s, 960)
    ensures GoodWait(s, 944, false)
  {
    hide Flagged;
    if !ClearTo(s, 1024) {
      var o := FirstFlag(s, 1024);
      assert ClearTo(s, 967) ==> o >= 944;
    }
  }

  function Blank(size: nat, start: nat, startIdx: nat): State {
    State(seq(64 * size, _ => []), seq(size, _ => 0), start, startIdx)
  }

  lemma BlankIsClear(size: nat, start: nat, startIdx: nat, idx: nat)
    requires idx < 64 * size
    ensures !FlagOf(Blank(size, start, startIdx).flags, idx)
  {
    NoFlag(idx % 64);
  }

  lemma BlankKeeps(size: nat, start: nat, startIdx: nat)
    requires size >= 16 && startIdx < 64 * size
    ensures Inv(Blank(size, start, startIdx), map[])
  {
    var s := Blank(size, start, startIdx);
    assert forall idx | 0 <= idx < |s.slots| :: SlotOk(s, map[], idx);
  }

  /** The instance: a wheel with one timer, 944 milliseconds ahead of a start at 23. No wait that
      the scan may return with the empty mask reaches it. */
  lemma OneTimerIsMissed()
    ensures var it := Item(0, 945); var s := Added(Blank(16, 1, 23), it, 967);
            && Inv(s, map[it := 967]) && Missed(s, false)
            && forall ret: nat | GoodWait(s, ret, false) :: ret <= 944
  {
    var it, s := Item(0, 945), Blank(16, 1, 23);
    BlankKeeps(16, 1, 23);
    assert Target(s, 945) == 967;
    AddKeeps(s, map[], it);
    var s' := Added(s, it, 967);
    forall o | 0 <= o < 1024
      ensures Flagged(s', o) <==> o == 944
    {
      FlagsAfterSet(s.flags, 967, Wrap(23 + o, 1024));
      BlankIsClear(16, 1, 23, Wrap(23 + o, 1024));
    }
    assert Flagged(s', 944) && ClearTo(s', 967) && !ClearTo(s', 1024);
    hide Flagged, Inv, Added;
    forall ret: nat | GoodWait(s', ret, false)
      ensures ret <= 944
    {
      assert !Reaches(s', ret);
      var o :| 0 <= o <= 1000 && Flagged(s', o) && ClearTo(s', 23 + o) && o >= ret;
    }
  }

  /** So a slot that is not empty is never waited past by more than fifteen milliseconds. */
  lemma PendingIsFlagged(s: State, place: map<Item, nat>, o: nat)
    requires Inv(s, place) && o < |s.slots| && SlotAt(s, o) != []
    ensures Flagged(s, o)
  {
    assert SlotOk(s, place, Wrap(s.startIdx + o, |s.slots|));
  }

  /** The words that the scan passes on its way to the end of the second. */
  lemma EndOfScan(s: State)
    requires s.Sized()
    ensures var end := (s.startIdx % 64 + 1000) / 64;
            var e := Wrap(s.startIdx + 1000, |s.slots|);
            && 15 <= end <= 16 && end <= |s.flags|
            && e / 64 == Wrap(s.startIdx / 64 + end, |s.flags|) && e % 64 == (s.startIdx % 64 + 1000) % 64
            && 64 * end + e % 64 == s.startIdx % 64 + 1000
  {
    var x := s.startIdx + 1000;
    assert x / 64 == s.startIdx / 64 + (s.startIdx % 64 + 1000) / 64;
    if x >= |s.slots| {
      assert (x - |s.slots|) / 64 == x / 64 - |s.flags| && (x - |s.slots|) % 64 == x % 64;
    }
  }

  lemma StartReady(s: State)
    requires s.Sized()
    ensures Covers(s, 0, s.startIdx % 64, 64, s.startIdx % 64 / 8 * 8) && ClearTo(s, s.startIdx % 64)
    ensures WordAt(s.flags, s.startIdx, 0) == s.flags[s.startIdx / 64]
  {
  }

  lemma MiddleReady(s: State, j: nat, end: nat)
    requires s.Sized() && 1 <= j < end <= 16
    ensures Covers(s, j, 0, 64, 0)
    ensures WordAt(s.flags, s.startIdx, j) == s.flags[Wrap(s.startIdx / 64 + j, |s.flags|)]
  {
  }

  lemma EndReady(s: State, end: nat, e: nat)
    requires s.Sized() && 1 <= end <= 16 && e < 64 && 64 * end + e == s.startIdx % 64 + 1000
    ensures Covers(s, end, 0, e + 1, 0)
    ensures WordAt(s.flags, s.startIdx, end) == s.flags[Wrap(s.startIdx / 64 + end, |s.flags|)]
  {
  }

  lemma WrapNext(i: nat, n: nat)
    requires i + 1 < 2 * n
    ensures Wrap(Wrap(i, n) + 1, n) == Wrap(i + 1, n)
  {
  }

  lemma WrapApart(i: nat, j: nat, k: nat, n: nat)
    requires i + k < 2 * n && 1 <= j <= k <= n && Wrap(i + j, n) == Wrap(i + k, n)
    ensures j == k
  {
  }

  class Wheel {
    const items: array<seq<Item>>
    const flags: array<Word>
    var start: nat
    var startIdx: nat
    /** The pLink of every pending item: its slot. */
    var place: map<Item, nat>

    ghost function Now(): State
      reads this, items, flags
    {
      State(items[..], flags[..], start, startIdx)
    }

    ghost predicate Valid()
      reads this, items, flags
    {
      Inv(Now(), place) && (start == 0 ==> place == map[])
    }

    /** AllocTimeout */
    constructor (size: nat, now: nat)
      requires size >= 1024 && size % 64 == 0
      ensures Valid() && place == map[] && start == now && fresh(items) && fresh(flags)
    {
      items := new seq<Item>[size](_ => []);
      flags := new Word[size / 64](_ => 0);
      start, startIdx := now, 0;
      place := map[];
      new;
      assert forall idx | 0 <= idx < |Now().slots| :: SlotOk(Now(), place, idx);
    }

    /** AddTimeout: an item in the past is refused, one beyond the wheel goes to its last slot. */
    method AddTimeout(it: Item, now: nat) returns (ok: bool)
      requires Valid() && it !in place && now > 0
      modifies this, items, flags
      ensures Valid() && ok == (old(start) <= now <= it.expire)
      ensures start == if old(start) == 0 then now else old(start)
      ensures ok ==> place == old(place)[it := Target(Now(), it.expire)]
      ensures ok ==> (Exact(Now(), place, it) <==> it.expire - start < items.Length)
      ensures ok ==> items[..] == old(items[..])[place[it] := old(items[..])[place[it]] + [it]]
      ensures !ok ==> place == old(place)
    {
      hide SlotOk, InPlace, SetFlag, Distinct;
      if start == 0 {
        RestartKeeps(Now(), now);
        start, startIdx := now, 0;
      }
      if now < start {
        return false;
      }
      if it.expire < now {
        return false;
      }
      AddKeeps(Now(), place, it);
      var diff := it.expire - start;
      if diff >= items.Length {
        diff := items.Length - 1;
      }
      var idx := Wrap(startIdx + diff, items.Length);
      assert idx == Target(Now(), it.expire);
      items[idx] := items[idx] + [it];
      flags[idx / 64] := SetFlag(flags[idx / 64], idx % 64);
      place := place[it := idx];
      return true;
    }

    /** RemoveFromLink: a pending item leaves the slot it is in; another one is left alone. */
    method Remove(it: Item)
      requires Valid()
      modifies this`place, items
      ensures Valid() && place == old(place) - {it}
      ensures OrderKept(old(Now()), Now())
    {
      hide SlotOk, Distinct;
      if it !in place {
        assert place - {it} == place;
        return;
      }
      var idx := place[it];
      assert InPlace(Now(), it, idx);
      var k := IndexOf(items[idx], it);
      hide InPlace;
      DropKeeps(Now(), place, idx, k);
      LessInOrder(items[idx], k);
      items[idx] := items[idx][..k] + items[idx][k + 1..];
      place := place - {it};
    }

    /** One slot of TakeAllTimeout: its list joins the result. */
    method TakeSlot(idx: nat) returns (taken: seq<Item>)
      requires Valid() && idx < items.Length
      modifies this`place, items, flags
      ensures Valid() && taken == old(items[idx]) && Now() == Emptied(old(Now()), idx)
              && place == Vacated(old(place), idx)
    {
      hide SlotOk, InPlace, ClearFlag, Distinct;
      EmptyKeeps(Now(), place, idx);
      assert place == map[] ==> Vacated(place, idx) == map[];
      taken := items[idx];
      if items[idx] != [] {
        flags[idx / 64] := ClearFlag(flags[idx / 64], idx % 64);
        items[idx] := [];
      }
      place := Vacated(place, idx);
    }

    /** TakeAllTimeout: everything due is taken, and possibly more. */
    method TakeAllTimeout(now: nat) returns (result: seq<Item>)
      requires Valid() && now > 0
      modifies this, items, flags
      ensures Valid() && Whole(old(place).Keys, result, place)
      ensures now < old(start) ==> result == [] && start == old(start) && place == old(place)
      ensures old(start) <= now ==> start == now && forall it | it in place :: it.expire > now
      ensures InOrder(old(Now()), old(place), result)
    {
      hide SlotOk, InPlace, Emptied, Vacated, Distinct, InOrder, TakenFrom, Untouched, Whole, Inv, Swept;
      result := [];
      NothingYet(old(Now()), place);
      if start == 0 {
        RestartKeeps(Now(), now);
        start, startIdx := now, 0;
      }
      if now < start {
        return;
      }
      ghost var begin, was := start, Now();
      InvSized(was, place);
      NothingYet(was, place);
      var cnt := now - start + 1;
      if cnt > items.Length {
        cnt := items.Length;
      }
      for i := 0 to cnt
        invariant Valid() && Now().Sized() && Swept(Now(), i) && start == begin && 0 < begin
        invariant Whole(old(place).Keys, result, place) && Untouched(was, Now(), i)
        invariant InOrder(was, old(place), result) && TakenFrom(was, old(place), result, i)
      {
        InvSized(Now(), place);
        var idx := Wrap(startIdx + i, items.Length);
        OrderMore(was, old(place), result, i);
        UntouchedMore(was, Now(), i);
        MoreTaken(Now(), old(place).Keys, result, place, idx);
        SweptMore(Now(), i);
        var taken := TakeSlot(idx);
        result := result + taken;
      }
      if old(start) == 0 {
        assert old(place).Keys == {};
        NothingTaken(result, place);
      }
      AdvanceKeeps(Now(), place, cnt, now);
      startIdx := Wrap(startIdx + cnt - 1, items.Length);
      start := now;
    }

    lemma ValidSized()
      requires Valid()
      ensures Now().Sized() && Now().slots == items[..] && Now().flags == flags[..] && Now().startIdx == startIdx
      ensures items.Length == 64 * flags.Length && startIdx < items.Length && flags.Length >= 16
    {
    }

    /** The scan of the word that holds the start. */
    method ScanStart(full: bool) returns (found: bool, ret: nat)
      requires Valid()
      ensures found ==> GoodWait(Now(), ret, full)
      ensures !found ==> ClearTo(Now(), 64) && ret == 64 - startIdx % 64 / 8 * 8
    {
      hide *;
      var startFlagIdx := startIdx % 64;
      var shiftRightCnt := startFlagIdx / 8 * 8;
      ghost var s := Now();
      ValidSized();
      var startFlag := ShiftDown(KeepFrom(flags[startIdx / 64], startFlagIdx), startFlagIdx / 8);
      StartReady(s);
      StartWindow(flags[startIdx / 64], startFlagIdx);
      if startFlag != 0 {
        SomethingFound(s, 0, startFlag, startFlagIdx, 64, shiftRightCnt);
        HitLater(s, 64, startFlagIdx + 1001);
        HitIsGood(s, shiftRightCnt + FirstByte(startFlag), full);
        return true, FirstByte(startFlag);
      }
      NothingFound(s, 0, startFlag, startFlagIdx, 64, shiftRightCnt);
      return false, 64 - shiftRightCnt;
    }

    /** The scan of the words up to the one where the second ends. */
    method ScanMiddle(endIdx: nat, full: bool) returns (found: bool, ret: nat)
      requires Valid() && ClearTo(Now(), 64) && endIdx == Wrap(startIdx + 1000, items.Length) / 64
      ensures found ==> GoodWait(Now(), ret, full)
      ensures var end := (startIdx % 64 + 1000) / 64;
              !found ==> ClearTo(Now(), 64 * end) && ret == 64 * end - startIdx % 64 / 8 * 8
    {
      hide *;
      var shiftRightCnt := startIdx % 64 / 8 * 8;
      ghost var s := Now();
      ValidSized();
      EndOfScan(s);
      ret := 64 - shiftRightCnt;
      ghost var end, j := (startIdx % 64 + 1000) / 64, 1;
      var i := Wrap(startIdx / 64 + 1, flags.Length);
      while i != endIdx
        invariant 1 <= j <= end && i == Wrap(startIdx / 64 + j, flags.Length)
        invariant ret == 64 * j - shiftRightCnt && ClearTo(s, 64 * j)
        decreases end - j
      {
        var flag := flags[i];
        WholeWindow(flag);
        MiddleReady(s, j, end);
        if flag != 0 {
          SomethingFound(s, j, flag, 0, 64, 0);
          HitLater(s, 64 * j + 64, startIdx % 64 + 1001);
          HitIsGood(s, 64 * j + FirstByte(flag), full);
          return true, ret + FirstByte(flag);
        }
        NothingFound(s, j, flag, 0, 64, 0);
        ret := ret + 64;
        WrapNext(startIdx / 64 + j, flags.Length);
        i := Wrap(i + 1, flags.Length);
        j := j + 1;
      }
      WrapApart(startIdx / 64, j, end, flags.Length);
      return false, ret;
    }

    /** The scan of the word where the second ends. */
    method ScanEnd(endSlot: nat, full: bool) returns (ret: nat)
      requires Valid() && endSlot == Wrap(startIdx + 1000, items.Length)
      requires ClearTo(Now(), (startIdx % 64 + 1000) / 64 * 64)
      ensures GoodWait(Now(), (startIdx % 64 + 1000) / 64 * 64 - startIdx % 64 / 8 * 8 + ret, full)
    {
      hide *;
      ghost var s, end := Now(), (startIdx % 64 + 1000) / 64;
      ValidSized();
      EndOfScan(s);
      EndReady(s, end, endSlot % 64);
      var endIdx, endFlagIdx := endSlot / 64, endSlot % 64;
      var endFlag := KeepUpTo(flags[endIdx], endFlagIdx, full);
      EndWindow(flags[endIdx], endFlagIdx, full);
      ghost var cut := endFlagIdx == 63 && !full;
      if cut {
        EmptyWindow(endFlag, flags[endIdx]);
        EmptyMaskIsGood(s);
      }
      if endFlag != 0 {
        SomethingFound(s, end, endFlag, 0, endFlagIdx + 1, 0);
        HitIsGood(s, 64 * end + FirstByte(endFlag), full);
        return FirstByte(endFlag);
      }
      if !cut {
        NothingFound(s, end, endFlag, 0, endFlagIdx + 1, 0);
        NoHitIsGood(s, 64 * end, full);
      }
      return 0;
    }

    /** GetNextTimeoutInASecond. full is the outcome of the one shift that C++ leaves open: the wait
        reaches the first flag within a second unless that shift loses it. */
    method GetNextTimeoutInASecond(now: nat, full: bool) returns (ret: nat)
      requires Valid() && now > 0
      modifies this`start, this`startIdx
      ensures Valid()
      ensures now < old(start) ==> ret == 1024
      ensures old(start) <= now ==>
                && (forall o | 0 <= o < |Now().slots| && Flagged(Now(), o) :: ret <= o + 15)
                && (Reaches(Now(), ret) <==>
                      full || startIdx % 64 != 23 || !ClearTo(Now(), 967) || ClearTo(Now(), 1024))
                && (ClearTo(Now(), startIdx % 64 + 1001) ==> 937 <= ret <= 1007)
    {
      hide SlotOk, InPlace, ClearTo, Reaches;
      if start == 0 {
        RestartKeeps(Now(), now);
        start, startIdx := now, 0;
      }
      if now < start {
        return 1024;
      }
      var found: bool;
      found, ret := ScanStart(full);
      if found {
        return;
      }
      var endSlot := Wrap(startIdx + 1000, items.Length);
      found, ret := ScanMiddle(endSlot / 64, full);
      if found {
        return;
      }
      var last := ScanEnd(endSlot, full);
      ret := ret + last;
    }

    /** The file events of a pass take their items off the wheel. */
    method Detach(fired: seq<Item>)
      requires Valid()
      modifies this`place, items
      ensures Valid() && place == old(place) - Elements(fired)
      ensures OrderKept(old(Now()), Now())
    {
      hide Inv, BeforeIn;
      for i := 0 to |fired|
        invariant Valid() && place == old(place) - Elements(fired[..i])
        invariant OrderKept(old(Now()), Now())
      {
        assert fired[..i + 1] == fired[..i] + [fired[i]];
        Remove(fired[i]);
      }
      assert fired[..|fired|] == fired;
    }

    /** What the processing of one item calls: AddTimeout for new timers. */
    method Callback(calls: seq<Call>)
      requires Valid() && 0 < start && NewTo(calls, place.Keys)
      modifies this, items, flags
      ensures Valid() && start == old(start) && place.Keys == old(place).Keys + Accepted(calls, start)
    {
      hide *;
      NoneAccepted(start);
      for i := 0 to |calls|
        invariant Valid() && start == old(start) && place.Keys == old(place).Keys + Accepted(calls[..i], start)
      {
        AcceptedOne(calls, i, start, old(place).Keys);
        var _ := AddTimeout(calls[i].it, calls[i].tick);
      }
      assert calls[..|calls|] == calls;
    }

    /** The part of co_eventloop that deals with time. fired are the items of file events: they leave
        the wheel and are processed first. What TakeAllTimeout took early goes back, the rest is
        processed. After each processed item its callback may arm new timers.
        So exactly the pending items due are processed besides, each once, none armed on the way. */
    method Pass(now: nat, fired: seq<Item>, calls: seq<seq<Call>>) returns (processed: seq<Item>)
      requires Valid() && 0 < now && Distinct(fired)
      requires NewTo(Flat(calls), place.Keys + Elements(fired))
      modifies this, items, flags
      ensures Valid() && start == if old(start) <= now then now else old(start)
      ensures Outcome(old(place).Keys, old(start) <= now, now, fired, processed,
                      place.Keys, Accepted(Made(calls, |processed|), start))
      ensures |fired| <= |processed|
      ensures InOrder(old(Now()), old(place), processed[|fired|..])
      ensures ByDeadline(old(Now()), old(place), processed[|fired|..])
    {
      hide *;
      Detach(fired);
      assert place.Keys == old(place).Keys - Elements(fired);
      ghost var all, before, where := place.Keys, Now(), place;
      var timeout := TakeAllTimeout(now);
      var active := fired + timeout;
      processed := [];
      ghost var i, rest, keys := 0, place, place.Keys;
      PassStarts(fired, timeout, now, rest);
      NoneMade(calls);
      NoneAccepted(start);
      while active != []
        invariant Valid() && start == (if old(start) <= now then now else old(start))
        invariant 0 < start && (start > now ==> timeout == [])
        invariant i <= |fired| + |timeout| && active == (fired + timeout)[i..]
        invariant PassOk(fired, timeout, i, now, processed, rest.Keys, keys)
        invariant place.Keys == keys + Accepted(Made(calls, |processed|), start)
        decreases |active|
      {
        var lp := active[0];
        assert lp == (fired + timeout)[i];
        PassStep(all, fired, timeout, i, now, processed, rest, keys);
        KeysKnown(all, fired, timeout, i, now, processed, rest, keys);
        CallStep(calls, |processed|, keys, start, old(place).Keys + Elements(fired));
        active := active[1..];
        if lp in timeout && now < lp.expire {
          var ok := AddTimeout(lp, now);
          assert ok;
          keys := keys + {lp};
        } else {
          processed := processed + [lp];
          if |processed| <= |calls| {
            Callback(calls[|processed| - 1]);
          }
        }
        i := i + 1;
      }
      DueInOrder(before, where, timeout, now);
      OrderBefore(old(Now()), old(place), before, where, Due(timeout, now));
      DeadlinesInOrder(old(Now()), old(place), Due(timeout, now));
      PassEnds(old(place).Keys, all, fired, timeout, now, old(start) <= now, processed, rest, keys,
        Accepted(Made(calls, |processed|), start));
    }
  }

  /** Those of the items that are due, in the same order. */
  function Due(taken: seq<Item>, now: nat): seq<Item> {
    if taken == [] then []
    else
      var last := taken[|taken| - 1];
      Due(taken[..|taken| - 1], now) + if last.expire <= now then [last] else []
  }

  lemma {:induction false} DueFrom(taken: seq<Item>, now: nat, k: nat) returns (i: nat)
    requires k < |Due(taken, now)|
    ensures i < |taken| && taken[i] == Due(taken, now)[k]
  {
    var front := taken[..|taken| - 1];
    if k < |Due(front, now)| {
      i := DueFrom(front, now, k);
    } else {
      i := |taken| - 1;
    }
  }

  lemma {:induction false} DueInOrder(s: State, place: map<Item, nat>, taken: seq<Item>, now: nat)
    requires InOrder(s, place, taken)
    ensures InOrder(s, place, Due(taken, now))
  {
    hide NotAfter;
    if taken != [] {
      var front, last := taken[..|taken| - 1], taken[|taken| - 1];
      assert forall i | 0 <= i < |front| :: front[i] == taken[i];
      DueInOrder(s, place, front, now);
      forall k | 0 <= k < |Due(front, now)|
        ensures NotAfter(s, place, Due(front, now)[k], last)
      {
        var i := DueFrom(front, now, k);
        assert NotAfter(s, place, taken[i], taken[|taken| - 1]);
      }
    }
  }

  /** The order in a wheel from which items have been taken off is the order in the wheel before. */
  lemma OrderBefore(s: State, place: map<Item, nat>, s': State, place': map<Item, nat>, taken: seq<Item>)
    requires InOrder(s', place', taken) && OrderKept(s, s')
    requires forall it | it in place' :: it in place && place'[it] == place[it]
    ensures InOrder(s, place, taken)
  {
    hide BeforeIn;
    forall i, j | 0 <= i < j < |taken|
      ensures NotAfter(s, place, taken[i], taken[j])
    {
      assert NotAfter(s', place', taken[i], taken[j]);
    }
  }

  /** Items in the slots of their very deadlines come in the order of these. */
  ghost predicate ByDeadline(s: State, place: map<Item, nat>, q: seq<Item>) {
    forall i, j | 0 <= i < j < |q| && Exact(s, place, q[i]) && Exact(s, place, q[j]) :: q[i].expire <= q[j].expire
  }

  lemma DeadlinesInOrder(s: State, place: map<Item, nat>, q: seq<Item>)
    requires InOrder(s, place, q)
    ensures ByDeadline(s, place, q)
  {
    forall i, j | 0 <= i < j < |q| && Exact(s, place, q[i]) && Exact(s, place, q[j])
      ensures q[i].expire <= q[j].expire
    {
      assert NotAfter(s, place, q[i], q[j]);
    }
  }

  /** The first i items taken have been dealt with: those due are processed, the others are
      back on the wheel. */
  ghost predicate Handled(taken: seq<Item>, i: nat, now: nat, processed: seq<Item>, rest: set<Item>, keys: set<Item>)
    requires i <= |taken|
  {
    && Distinct(processed) && processed == Due(taken[..i], now)
    && (forall j | 0 <= j < i :: if taken[j].expire <= now then taken[j] in processed else taken[j] in keys)
    && (forall k | 0 <= k < |processed| :: processed[k] in taken[..i] && processed[k].expire <= now)
    && (forall it | it in rest :: it in keys)
    && (forall it | it in keys :: it in rest || (it in taken[..i] && it.expire > now))
  }

  lemma HandledNone(taken: seq<Item>, now: nat, place: map<Item, nat>)
    ensures Handled(taken, 0, now, [], place.Keys, place.Keys)
  {
  }

  lemma HandledOne(all: set<Item>, taken: seq<Item>, i: nat, now: nat, processed: seq<Item>, rest: map<Item, nat>,
                   keys: set<Item>)
    requires Whole(all, taken, rest) && i < |taken| && Handled(taken, i, now, processed, rest.Keys, keys)
    ensures taken[i] !in keys
    ensures if now < taken[i].expire then Handled(taken, i + 1, now, processed, rest.Keys, keys + {taken[i]})
            else Handled(taken, i + 1, now, processed + [taken[i]], rest.Keys, keys)
  {
    assert taken[..i + 1] == taken[..i] + [taken[i]];
    assert taken[i] !in taken[..i];
    var more := taken[..i + 1];
    assert more[..|more| - 1] == taken[..i] && more[|more| - 1] == taken[i];
  }

  // ----- a pass with events and callbacks -----

  /** A call of AddTimeout, and the clock that it is given. */
  datatype Call = Call(it: Item, tick: nat)

  /** The calls of several callbacks, one after another. */
  function Flat(calls: seq<seq<Call>>): seq<Call> {
    if calls == [] then [] else Flat(calls[..|calls| - 1]) + calls[|calls| - 1]
  }

  /** The calls of the first n callbacks; those without an entry make none. */
  function Made(calls: seq<seq<Call>>, n: nat): seq<Call> {
    Flat(if n <= |calls| then calls[..n] else calls)
  }

  lemma {:induction false} FlatPrefix(calls: seq<seq<Call>>, n: nat)
    requires n <= |calls|
    ensures Flat(calls[..n]) <= Flat(calls)
    decreases |calls|
  {
    if n < |calls| {
      var front := calls[..|calls| - 1];
      FlatPrefix(front, n);
      assert front[..n] == calls[..n];
    } else {
      assert calls[..n] == calls;
    }
  }

  lemma FlatOne(calls: seq<seq<Call>>, n: nat)
    requires n < |calls|
    ensures Flat(calls[..n + 1]) == Flat(calls[..n]) + calls[n]
  {
    var c := calls[..n + 1];
    assert c[..|c| - 1] == calls[..n] && c[|c| - 1] == calls[n];
  }

  lemma MadeOne(calls: seq<seq<Call>>, n: nat)
    ensures Made(calls, n + 1) == Made(calls, n) + if n < |calls| then calls[n] else []
    ensures Made(calls, n + 1) <= Flat(calls)
  {
    hide Flat;
    if n < |calls| {
      FlatOne(calls, n);
      FlatPrefix(calls, n + 1);
    } else {
      assert n == |calls| ==> calls[..n] == calls;
    }
  }

  /** Each call arms an item of its own, none of those given. */
  ghost predicate NewTo(calls: seq<Call>, keys: set<Item>) {
    && (forall i | 0 <= i < |calls| :: calls[i].it !in keys && calls[i].tick > 0)
    && (forall i, j | 0 <= i < j < |calls| :: calls[i].it != calls[j].it)
  }

  /** The items armed by calls on a wheel with that start. */
  ghost function Accepted(calls: seq<Call>, start: nat): set<Item> {
    set c | c in calls && start <= c.tick <= c.it.expire :: c.it
  }

  lemma AcceptedMore(a: seq<Call>, b: seq<Call>, start: nat)
    ensures Accepted(a + b, start) == Accepted(a, start) + Accepted(b, start)
  {
  }

  lemma AcceptedOne(calls: seq<Call>, i: nat, start: nat, keys: set<Item>)
    requires i < |calls| && NewTo(calls, keys)
    ensures calls[i].it !in keys + Accepted(calls[..i], start) && calls[i].tick > 0
    ensures Accepted(calls[..i + 1], start) ==
            Accepted(calls[..i], start) + if start <= calls[i].tick <= calls[i].it.expire then {calls[i].it} else {}
  {
    assert calls[..i + 1] == calls[..i] + [calls[i]];
    AcceptedMore(calls[..i], [calls[i]], start);
  }

  lemma AtPrefix(a: seq<Call>, b: seq<Call>, all: seq<Call>, i: nat)
    requires a + b <= all && i < |a|
    ensures i < |all| && all[i] == a[i]
  {
    assert (a + b)[i] == a[i];
  }

  /** The next callback's calls are new to the wheel as it then is. */
  lemma NextIsNew(a: seq<Call>, b: seq<Call>, all: seq<Call>, keys: set<Item>, start: nat, known: set<Item>)
    requires a + b <= all && NewTo(all, known) && keys <= known
    ensures NewTo(b, keys + Accepted(a, start))
  {
    forall j | 0 <= j < |b|
      ensures b[j].it !in keys + Accepted(a, start) && b[j].tick > 0
    {
      assert all[|a| + j] == b[j];
      if b[j].it in Accepted(a, start) {
        var c :| c in a && c.it == b[j].it;
        var i :| 0 <= i < |a| && a[i] == c;
        AtPrefix(a, b, all, i);
      }
    }
    forall i, j | 0 <= i < j < |b|
      ensures b[i].it != b[j].it
    {
      assert all[|a| + i] == b[i] && all[|a| + j] == b[j];
    }
  }

  lemma NoneMade(calls: seq<seq<Call>>)
    ensures Made(calls, 0) == []
  {
  }

  lemma NoneAccepted(start: nat)
    ensures Accepted([], start) == {}
  {
  }

  lemma CallStep(calls: seq<seq<Call>>, n: nat, keys: set<Item>, start: nat, known: set<Item>)
    requires NewTo(Flat(calls), known) && keys <= known
    ensures var armed := Accepted(Made(calls, n), start);
            && armed !! known
            && Accepted(Made(calls, n + 1), start) == armed + (if n < |calls| then Accepted(calls[n], start) else {})
            && (n < |calls| ==> NewTo(calls[n], keys + armed))
  {
    hide *;
    MadeOne(calls, n);
    var a := Made(calls, n);
    var b := if n < |calls| then calls[n] else [];
    AcceptedMore(a, b, start);
    NoneAccepted(start);
    NextIsNew(a, b, Flat(calls), keys, start, known);
    ArmedIsNew(a, b, Flat(calls), start, known);
  }

  lemma ArmedIsNew(a: seq<Call>, b: seq<Call>, all: seq<Call>, start: nat, known: set<Item>)
    requires a + b <= all && NewTo(all, known)
    ensures Accepted(a, start) !! known
  {
    forall it | it in Accepted(a, start)
      ensures it !in known
    {
      var c :| c in a && c.it == it;
      var i :| 0 <= i < |a| && a[i] == c;
      AtPrefix(a, b, all, i);
    }
  }

  /** The first i active items have been dealt with: those fired, then those taken. */
  ghost predicate PassOk(fired: seq<Item>, taken: seq<Item>, i: nat, now: nat, processed: seq<Item>, rest: set<Item>,
                         keys: set<Item>)
    requires i <= |fired| + |taken|
  {
    var f := |fired|;
    if i < f then processed == fired[..i] && keys == rest
    else f <= |processed| && processed[..f] == fired && Handled(taken, i - f, now, processed[f..], rest, keys)
  }

  lemma PassStarts(fired: seq<Item>, taken: seq<Item>, now: nat, rest: map<Item, nat>)
    ensures PassOk(fired, taken, 0, now, [], rest.Keys, rest.Keys)
  {
    HandledNone(taken, now, rest);
  }

  lemma WholeTaken(all: set<Item>, taken: seq<Item>, rest: map<Item, nat>)
    requires Whole(all, taken, rest)
    ensures forall it | it in taken :: it in all
  {
  }

  lemma PassStep(all: set<Item>, fired: seq<Item>, taken: seq<Item>, i: nat, now: nat, processed: seq<Item>,
                 rest: map<Item, nat>, keys: set<Item>)
    requires Whole(all, taken, rest) && i < |fired| + |taken| && all !! Elements(fired)
    requires PassOk(fired, taken, i, now, processed, rest.Keys, keys)
    ensures var lp := (fired + taken)[i];
            if lp in taken && now < lp.expire then
              lp in all && lp !in keys && PassOk(fired, taken, i + 1, now, processed, rest.Keys, keys + {lp})
            else PassOk(fired, taken, i + 1, now, processed + [lp], rest.Keys, keys)
  {
    WholeTaken(all, taken, rest);
    hide Handled, Whole;
    var f := |fired|;
    if i < f {
      var lp := fired[i];
      assert lp in Elements(fired) && lp !in taken;
      assert fired[..i] + [lp] == fired[..i + 1];
      if i + 1 == f {
        assert fired[..f] == fired && fired[f..] == [];
        HandledNone(taken, now, rest);
      }
    } else {
      HandledOne(all, taken, i - f, now, processed[f..], rest, keys);
      assert (processed + [taken[i - f]])[f..] == processed[f..] + [taken[i - f]];
    }
  }

  /** What is on the wheel besides the new timers were there before. */
  lemma KeysKnown(all: set<Item>, fired: seq<Item>, taken: seq<Item>, i: nat, now: nat, processed: seq<Item>,
                  rest: map<Item, nat>, keys: set<Item>)
    requires Whole(all, taken, rest) && i <= |fired| + |taken|
    requires PassOk(fired, taken, i, now, processed, rest.Keys, keys)
    ensures keys <= all
  {
  }

  /** The outcome of a pass. was and pending are what is on the wheel before and after; late says that
      the clock has not gone back; armed are the new timers. The fired items are processed first,
      then exactly the pending ones that are due, each once; the others stay. */
  ghost predicate Outcome(was: set<Item>, late: bool, now: nat, fired: seq<Item>, processed: seq<Item>,
                          pending: set<Item>, armed: set<Item>) {
    && Distinct(processed) && |fired| <= |processed| && processed[..|fired|] == fired
    && (forall it | it in processed[|fired|..] :: it in was && it.expire <= now && late)
    && (forall it | it in was && it !in fired ::
          if it.expire <= now && late then it in processed else it in pending)
    && (forall it | it in pending :: it in armed || (it in was && it !in processed))
    && armed <= pending
  }

  /** Where everything is in the end; late says that the clock has not gone back. */
  lemma PassEnds(was: set<Item>, all: set<Item>, fired: seq<Item>, taken: seq<Item>, now: nat, late: bool,
                 processed: seq<Item>, rest: map<Item, nat>, keys: set<Item>, armed: set<Item>)
    requires Whole(all, taken, rest) && all == was - Elements(fired) && Distinct(fired)
    requires PassOk(fired, taken, |fired| + |taken|, now, processed, rest.Keys, keys)
    requires if late then forall it | it in rest :: it.expire > now else taken == []
    ensures |fired| <= |processed| && processed[|fired|..] == Due(taken, now)
    ensures Outcome(was, late, now, fired, processed, keys + armed, armed)
  {
    hide *;
    PassSplits(fired, taken, now, processed, rest.Keys, keys);
    var due := processed[|fired|..];
    assert processed == fired + due;
    DueEnds(all, taken, now, late, due, rest, keys);
    OutcomeOf(was, all, fired, now, late, due, keys, armed);
  }

  lemma PassSplits(fired: seq<Item>, taken: seq<Item>, now: nat, processed: seq<Item>, rest: set<Item>, keys: set<Item>)
    requires PassOk(fired, taken, |fired| + |taken|, now, processed, rest, keys)
    ensures |fired| <= |processed| && processed[..|fired|] == fired
    ensures Handled(taken, |taken|, now, processed[|fired|..], rest, keys)
    ensures processed[|fired|..] == Due(taken, now)
  {
    assert taken[..|taken|] == taken;
  }

  /** The items taken, when all of them have been dealt with. */
  lemma DueEnds(all: set<Item>, taken: seq<Item>, now: nat, late: bool, due: seq<Item>, rest: map<Item, nat>,
                keys: set<Item>)
    requires Whole(all, taken, rest) && Handled(taken, |taken|, now, due, rest.Keys, keys)
    requires if late then forall it | it in rest :: it.expire > now else taken == []
    ensures Distinct(due)
    ensures forall it | it in due :: it in all && it.expire <= now && late && it !in keys
    ensures forall it | it in all :: if it.expire <= now && late then it in due else it in keys
    ensures forall it | it in keys :: it in all
  {
    hide Due;
    assert taken[..|taken|] == taken;
    if due != [] {
      assert due[0] in taken;
    }
  }

  lemma OutcomeOf(was: set<Item>, all: set<Item>, fired: seq<Item>, now: nat, late: bool, due: seq<Item>,
                  keys: set<Item>, armed: set<Item>)
    requires all == was - Elements(fired) && Distinct(fired) && Distinct(due)
    requires forall it | it in due :: it in all && it.expire <= now && late && it !in keys
    requires forall it | it in all :: if it.expire <= now && late then it in due else it in keys
    requires forall it | it in keys :: it in all
    ensures Outcome(was, late, now, fired, fired + due, keys + armed, armed)
  {
    var p, f := fired + due, |fired|;
    forall i | 0 <= i < |p|
      ensures if i < f then p[i] == fired[i] && p[i] in Elements(fired) else p[i] == due[i - f] && p[i] in due
    {
    }
    assert p[f..] == due && p[..f] == fired;
    forall i, j | 0 <= i < j < |p|
      ensures p[i] != p[j]
    {
      if i >= f { assert due[i - f] != due[j - f]; }
    }
    forall it | it in keys
      ensures it in was && it !in p
    {
      assert it in all && it !in Elements(fired) && it !in due;
    }
  }

  lemma WholeWindow(w: Word)
    ensures Window(w, w, 0, 64, 0)
  {
  }

  lemma EmptyDistinct()
    ensures Distinct<Item>([])
  {
  }
}
