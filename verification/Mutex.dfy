/** The starvation-mode mutex: a step machine over any number of coroutines.

One step is one atomic access of a coroutine (a load, a compare-exchange, a
fetch-add, or a critical section closed by the store that releases the park
list's spin lock). Weak compare-exchange may fail spuriously, the elapsed time
that makes a waiter starving is free, and so is the choice to take the pause
detour that lastco_ and beginTm_ decide. */
module Mutex {
  import opened Common
  import opened Counting
  import opened Primitives

  /** The word state_: three flag bits below a waiter count. */
  datatype Word = Word(locked: bool, woken: bool, starving: bool, waiters: int) {
    predicate Flagged() {
      locked || woken || starving
    }
  }

  function Pack(w: Word): int {
    Bit(w.locked) + 2 * Bit(w.woken) + 4 * Bit(w.starving) + 8 * w.waiters
  }

  function Unpack(v: int): Word {
    Word(v % 2 == 1, v / 2 % 2 == 1, v / 2 / 2 % 2 == 1, v / 2 / 2 / 2)
  }

  /** state_.fetch_add(delta), which carries across the packed fields. */
  function Add(w: Word, delta: int): Word {
    Unpack(Pack(w) + delta)
  }

  /** The variables of lockSlow: waitStartTime != 0, starving, awoke, iter. */
  datatype Locals = Locals(waited: bool, starving: bool, awoke: bool, iter: nat)

  datatype Pc =
    | Idle
    | FastCas
    | SlowLoad(l: Locals)
    | SlowLoop(l: Locals, view: Word)
    | WaitLock(l: Locals)
    | WaitCrit(l: Locals)
    | Parked(l: Locals)
    | AfterWait(l: Locals)
    | HandOff(l: Locals, view: Word)
    | Holding
    | UnlockLoop(view: Word)
    | UnlockLoad
    | PostLock
    | PostCrit
    | PostResume(target: Co)
    | Aborted

  /** queue is waitRoutines_; resumed holds the resume records under way. */
  datatype State = State(word: Word, waitlock: bool, dontWait: bool,
                         queue: seq<Co>, resumed: multiset<Co>, pcs: map<Co, Pc>)

  /** What the environment decides in a step. */
  datatype Choice = Choice(spurious: bool, timedOut: bool, pause: bool)

  function To(s: State, c: Co, pc: Pc): State {
    s.(pcs := s.pcs[c := pc])
  }

  /** No coroutine but c is at another program point. */
  predicate Moves(s: State, c: Co, r: State) {
    c in r.pcs && r.pcs == s.pcs[c := r.pcs[c]]
  }

  /** The value lockSlow tries to install over view. */
  function Acquired(l: Locals, view: Word): Word {
    var w1 := if view.starving then view else view.(locked := true);
    var w2 := if view.locked || view.starving then Add(w1, 8) else w1;
    var w3 := if l.starving && view.locked then w2.(starving := true) else w2;
    if l.awoke then w3.(woken := false) else w3
  }

  function LoopStep(s: State, c: Co, e: Choice, l: Locals, view: Word): (r: State)
    requires c in s.pcs
    ensures Moves(s, c, r)
  {
    if view.locked && !view.starving && l.iter < 4 then
      if !l.awoke && !view.woken && view.waiters != 0 && s.word == view && !e.spurious then
        To(s.(word := view.(woken := true)), c, SlowLoad(l.(awoke := true, iter := l.iter + 1)))
      else
        To(s, c, SlowLoad(l.(iter := l.iter + 1)))
    else if !l.awoke && view.woken && e.pause then
      s
    else if l.awoke && !view.woken then
      To(s, c, Aborted)
    else if s.word == view && !e.spurious then
      To(s.(word := Acquired(l, view)), c, if view.locked || view.starving then WaitLock(l) else Holding)
    else
      To(s, c, SlowLoad(l))
  }

  function WaitStep(s: State, c: Co, l: Locals): (r: State)
    requires c in s.pcs
    ensures Moves(s, c, r)
  {
    var l' := l.(waited := true);
    if s.dontWait then
      To(s.(dontWait := false, waitlock := false), c, AfterWait(l'))
    else
      To(s.(queue := if l.waited then [c] + s.queue else s.queue + [c], waitlock := false), c, Parked(l'))
  }

  function ReturnStep(s: State, c: Co, e: Choice, l: Locals): (r: State)
    requires c in s.pcs
    ensures Moves(s, c, r)
  {
    var l' := l.(starving := l.starving || e.timedOut);
    if !s.word.starving then
      To(s, c, SlowLoop(l'.(awoke := true, iter := 0), s.word))
    else if s.word.locked || s.word.woken || s.word.waiters == 0 then
      To(s, c, Aborted)
    else
      To(s, c, HandOff(l', s.word))
  }

  function UnlockStep(s: State, c: Co): (r: State)
    requires c in s.pcs
    ensures Moves(s, c, r)
  {
    var w := Add(s.word, -1);
    var t := s.(word := w);
    if Pack(w) == 0 then To(t, c, Idle)
    else if !Unpack(Pack(w) + 1).locked then To(t, c, Aborted)
    else if w.starving then To(t, c, PostLock)
    else To(t, c, UnlockLoop(w))
  }

  function WakeStep(s: State, c: Co, e: Choice, view: Word): (r: State)
    requires c in s.pcs
    ensures Moves(s, c, r)
  {
    if view.waiters == 0 || view.Flagged() then To(s, c, Idle)
    else if s.word == view && !e.spurious then
      To(s.(word := Add(view, -8).(woken := true)), c, PostLock)
    else To(s, c, UnlockLoad)
  }

  function PostStep(s: State, c: Co): (r: State)
    requires c in s.pcs
    ensures Moves(s, c, r)
  {
    if s.queue == [] then To(s.(dontWait := true, waitlock := false), c, Idle)
    else To(s.(queue := s.queue[1..], waitlock := false), c, PostResume(s.queue[0]))
  }

  function Step(s: State, c: Co, e: Choice): (r: State)
    requires c in s.pcs
    ensures Moves(s, c, r)
  {
    match s.pcs[c]
    case Idle => To(s, c, FastCas)
    case FastCas =>
      if Pack(s.word) == 0 && !e.spurious
      then To(s.(word := Unpack(1)), c, Holding)
      else To(s, c, SlowLoad(Locals(false, false, false, 0)))
    case SlowLoad(l) => To(s, c, SlowLoop(l, s.word))
    case SlowLoop(l, view) => LoopStep(s, c, e, l, view)
    case WaitLock(l) =>
      if s.waitlock || e.spurious then s else To(s.(waitlock := true), c, WaitCrit(l))
    case WaitCrit(l) => WaitStep(s, c, l)
    case Parked(l) =>
      if c in s.resumed then To(s.(resumed := s.resumed - multiset{c}), c, AfterWait(l)) else s
    case AfterWait(l) => ReturnStep(s, c, e, l)
    case HandOff(l, view) =>
      var delta := 1 - 8 - (if !l.starving || view.waiters == 1 then 4 else 0);
      To(s.(word := Add(s.word, delta)), c, Holding)
    case Holding => UnlockStep(s, c)
    case UnlockLoop(view) => WakeStep(s, c, e, view)
    case UnlockLoad => To(s, c, UnlockLoop(s.word))
    case PostLock =>
      if s.waitlock || e.spurious then s else To(s.(waitlock := true), c, PostCrit)
    case PostCrit => PostStep(s, c)
    case PostResume(t) => To(s.(resumed := s.resumed + multiset{t}), c, Idle)
    case Aborted => s
  }

  ghost predicate Init(s: State) {
    && s.word == Unpack(0) && !s.waitlock && !s.dontWait && s.queue == [] && s.resumed == multiset{}
    && forall c | c in s.pcs :: s.pcs[c] == Idle
  }

  ghost predicate Next(s: State, s': State) {
    exists c, e :: c in s.pcs && s' == Step(s, c, e)
  }

  /** A finite execution, from any number of idle coroutines. */
  ghost predicate IsRun(run: seq<State>) {
    && |run| > 0 && Init(run[0])
    && forall i | 0 < i < |run| :: Next(run[i - 1], run[i])
  }

  // The classes of program points that the invariant counts.
  predicate IsHolding(pc: Pc) { pc.Holding? }
  predicate IsAwake(pc: Pc) { (pc.SlowLoad? || pc.SlowLoop?) && pc.l.awoke }
  predicate IsPosting(pc: Pc) { pc.PostLock? || pc.PostCrit? || pc.PostResume? }
  predicate IsResuming(pc: Pc) { pc.PostResume? }
  predicate IsAfterWait(pc: Pc) { pc.AfterWait? }
  predicate IsHandOff(pc: Pc) { pc.HandOff? }
  predicate IsWaiting(pc: Pc) { pc.WaitLock? || pc.WaitCrit? || pc.Parked? }
  predicate IsParked(pc: Pc) { pc.Parked? }
  predicate InCrit(pc: Pc) { pc.WaitCrit? || pc.PostCrit? }

  /** An unlocker still in the wake loop whose view of the word asks for a wake-up. */
  predicate IsWaker(pc: Pc) {
    pc.UnlockLoad? || (pc.UnlockLoop? && !pc.view.Flagged() && pc.view.waiters != 0)
  }

  /** How many coroutines are at each class of program points. */
  datatype Tally = Tally(holding: int, awake: int, posting: int, resuming: int, afterWait: int,
                         handOff: int, waiting: int, parked: int, crit: int, waker: int) {
    predicate NonNegative() {
      && holding >= 0 && awake >= 0 && posting >= 0 && resuming >= 0 && afterWait >= 0
      && handOff >= 0 && waiting >= 0 && parked >= 0 && crit >= 0 && waker >= 0
    }

    /** The tally after one coroutine went from a to b. */
    function Moved(a: Pc, b: Pc): Tally {
      Tally(holding - Bit(IsHolding(a)) + Bit(IsHolding(b)),
            awake - Bit(IsAwake(a)) + Bit(IsAwake(b)),
            posting - Bit(IsPosting(a)) + Bit(IsPosting(b)),
            resuming - Bit(IsResuming(a)) + Bit(IsResuming(b)),
            afterWait - Bit(IsAfterWait(a)) + Bit(IsAfterWait(b)),
            handOff - Bit(IsHandOff(a)) + Bit(IsHandOff(b)),
            waiting - Bit(IsWaiting(a)) + Bit(IsWaiting(b)),
            parked - Bit(IsParked(a)) + Bit(IsParked(b)),
            crit - Bit(InCrit(a)) + Bit(InCrit(b)),
            waker - Bit(IsWaker(a)) + Bit(IsWaker(b)))
    }
  }

  function TallyOf(pcs: map<Co, Pc>): Tally {
    Tally(Count(pcs, IsHolding), Count(pcs, IsAwake), Count(pcs, IsPosting), Count(pcs, IsResuming),
          Count(pcs, IsAfterWait), Count(pcs, IsHandOff), Count(pcs, IsWaiting), Count(pcs, IsParked),
          Count(pcs, InCrit), Count(pcs, IsWaker))
  }

  /** In normal mode WOKEN has exactly one owner (a spinner, a wake-up on its way,
      or a woken coroutine), and each wake-up on its way took one waiter off the count. */
  predicate NormalMode(w: Word, grants: int, t: Tally) {
    && t.handOff == 0
    && t.awake + grants + t.afterWait == Bit(w.woken)
    && w.waiters + grants == t.waiting
  }

  /** In starvation mode an unlocked word means exactly one hand-off on its way,
      whose receiver is still counted as a waiter. */
  predicate StarvationMode(w: Word, grants: int, t: Tally) {
    && !w.woken
    && t.awake == 0
    && w.waiters >= 1
    && grants + t.afterWait + t.handOff == Bit(!w.locked)
    && w.waiters == t.waiting + t.afterWait + t.handOff
  }

  /** deposits counts the dontWait_ bit and the resume records; with the posts
      under way they are the wake-ups granted and not yet received. */
  predicate Modes(w: Word, deposits: int, t: Tally) {
    && t.holding == Bit(w.locked)
    && w.waiters >= 0
    && if w.starving then StarvationMode(w, t.posting + deposits, t)
       else NormalMode(w, t.posting + deposits, t)
  }

  function Deposits(s: State): nat {
    Bit(s.dontWait) + |s.resumed|
  }

  /** A word with waiters and no flag is being looked after. */
  predicate NobodyStranded(w: Word, t: Tally) {
    w.waiters > 0 && !w.Flagged() ==> t.waker >= 1
  }

  predicate ParkCounts(s: State, t: Tally) {
    && t.crit == Bit(s.waitlock)
    && t.parked == |s.queue| + t.resuming + |s.resumed|
  }

  /** Every parked coroutine is in exactly one place from which it will be resumed. */
  ghost predicate Parking(s: State) {
    && (s.dontWait ==> s.queue == [])
    && (forall c | c in s.queue :: c in s.pcs && s.pcs[c].Parked? && c !in s.resumed)
    && Distinct(s.queue)
    && (forall c | c in s.resumed :: c in s.pcs && s.pcs[c].Parked?)
    && (forall k | k in s.pcs && s.pcs[k].PostResume? :: Popped(s, s.pcs[k].target))
  }

  /** t left the park list and its resume record is still to be written. */
  ghost predicate Popped(s: State, t: Co) {
    t in s.pcs && s.pcs[t].Parked? && t !in s.queue && t !in s.resumed
  }

  ghost predicate LocalOk(word: Word, pc: Pc) {
    match pc
    case SlowLoad(l) => l.starving ==> l.awoke
    case SlowLoop(l, view) => (l.starving ==> l.awoke) && (l.awoke ==> view.woken && !view.starving)
    case HandOff(_, view) => view.starving && !view.locked && !view.woken && 1 <= view.waiters <= word.waiters
    case Aborted => false
    case _ => true
  }

  ghost predicate Locally(s: State) {
    forall c | c in s.pcs :: LocalOk(s.word, s.pcs[c])
  }

  ghost predicate Inv(s: State) {
    && Modes(s.word, Deposits(s), TallyOf(s.pcs))
    && NobodyStranded(s.word, TallyOf(s.pcs))
    && ParkCounts(s, TallyOf(s.pcs))
    && Parking(s)
    && Locally(s)
  }

  lemma Recount(pcs: map<Co, Pc>, c: Co, pc: Pc)
    requires c in pcs
    ensures TallyOf(pcs[c := pc]) == TallyOf(pcs).Moved(pcs[c], pc)
    ensures TallyOf(pcs).NonNegative() && TallyOf(pcs[c := pc]).NonNegative()
  {
    hide Count;
    CountUpdate(pcs, c, pc, IsHolding);
    CountUpdate(pcs, c, pc, IsAwake);
    CountUpdate(pcs, c, pc, IsPosting);
    CountUpdate(pcs, c, pc, IsResuming);
    CountUpdate(pcs, c, pc, IsAfterWait);
    CountUpdate(pcs, c, pc, IsHandOff);
    CountUpdate(pcs, c, pc, IsWaiting);
    CountUpdate(pcs, c, pc, IsParked);
    CountUpdate(pcs, c, pc, InCrit);
    CountUpdate(pcs, c, pc, IsWaker);
  }

  lemma Halve(x: int, b: bool)
    ensures (2 * x + Bit(b)) / 2 == x && (2 * x + Bit(b)) % 2 == Bit(b)
  {
  }

  lemma UnpackPack(w: Word)
    ensures Unpack(Pack(w)) == w
  {
    var v2 := 2 * w.waiters + Bit(w.starving);
    var v1 := 2 * v2 + Bit(w.woken);
    assert Pack(w) == 2 * v1 + Bit(w.locked);
    Halve(v1, w.locked);
    Halve(v2, w.woken);
    Halve(w.waiters, w.starving);
  }

  /** The packed arithmetic of the source, field by field. */
  lemma PackedArithmetic(w: Word)
    ensures Unpack(Pack(w)) == w
    ensures Pack(w) == 0 <==> w == Word(false, false, false, 0)
    ensures Add(w, 8) == w.(waiters := w.waiters + 1)
    ensures Add(w, -8) == w.(waiters := w.waiters - 1)
    ensures w.locked ==> Add(w, -1) == w.(locked := false)
    ensures Pack(Add(w, -1)) == Pack(w) - 1
  {
    hide Unpack;
    UnpackPack(w);
    UnpackPack(w.(waiters := w.waiters + 1));
    UnpackPack(w.(waiters := w.waiters - 1));
    UnpackPack(w.(locked := false));
    PackUnpack(Pack(w) - 1);
  }

  lemma PackUnpack(v: int)
    ensures Pack(Unpack(v)) == v
  {
    assert v == 2 * (v / 2) + v % 2;
    assert v / 2 == 2 * (v / 2 / 2) + v / 2 % 2;
    assert v / 2 / 2 == 2 * (v / 2 / 2 / 2) + v / 2 / 2 % 2;
  }

  lemma UnpackOne()
    ensures Unpack(1) == Word(true, false, false, 0)
  {
  }

  /** fetch_add(MUTEXLOCKED - (1 << MUTEXWAITERSHIFT)), with and without the end of starvation mode. */
  lemma HandOffArithmetic(w: Word)
    requires !w.locked && w.starving
    ensures Add(w, 1 - 8) == w.(locked := true, waiters := w.waiters - 1)
    ensures Add(w, 1 - 8 - 4) == w.(locked := true, starving := false, waiters := w.waiters - 1)
  {
    hide Unpack;
    UnpackPack(w.(locked := true, waiters := w.waiters - 1));
    UnpackPack(w.(locked := true, starving := false, waiters := w.waiters - 1));
  }

  lemma InitInv(s: State)
    requires Init(s)
    ensures Inv(s)
  {
    CountNone(s.pcs, IsHolding);
    CountNone(s.pcs, IsAwake);
    CountNone(s.pcs, IsPosting);
    CountNone(s.pcs, IsResuming);
    CountNone(s.pcs, IsAfterWait);
    CountNone(s.pcs, IsHandOff);
    CountNone(s.pcs, IsWaiting);
    CountNone(s.pcs, IsParked);
    CountNone(s.pcs, InCrit);
  }

  lemma AcquiredForm(l: Locals, view: Word)
    ensures Acquired(l, view) ==
            Word(view.locked || !view.starving, view.woken && !l.awoke,
                 view.starving || (l.starving && view.locked),
                 view.waiters + Bit(view.locked || view.starving))
  {
    PackedArithmetic(view.(locked := true));
    PackedArithmetic(view);
  }

  /** Program points that take no part in the park list. */
  predicate Plain(pc: Pc) {
    !(pc.WaitCrit? || pc.Parked? || pc.PostCrit? || pc.PostResume?)
  }

  lemma PlainKeepsParking(s: State, c: Co, w: Word, pc: Pc)
    requires Parking(s) && c in s.pcs && Plain(s.pcs[c]) && Plain(pc)
    ensures Parking(To(s.(word := w), c, pc))
  {
    var s' := To(s.(word := w), c, pc);
    forall k | k in s'.pcs && s'.pcs[k].PostResume?
      ensures Popped(s', s'.pcs[k].target)
    {
      assert Popped(s, s.pcs[k].target);
    }
  }

  /** A new word suits the other coroutines unless it lowers the waiter count under a hand-off. */
  lemma MoveKeepsLocally(s: State, c: Co, s': State, pc: Pc)
    requires Locally(s) && c in s.pcs && s'.pcs == s.pcs[c := pc]
    requires LocalOk(s'.word, pc)
    requires s'.word.waiters >= s.word.waiters || TallyOf(s.pcs).handOff <= Bit(IsHandOff(s.pcs[c]))
    ensures Locally(s')
  {
    forall k | k in s'.pcs
      ensures LocalOk(s'.word, s'.pcs[k])
    {
      assert k != c ==> LocalOk(s.word, s.pcs[k]);
      if k != c && s.pcs[k].HandOff? && s'.word.waiters < s.word.waiters {
        CountHas(s.pcs, k, IsHandOff);
        CountUnique(s.pcs, k, c, IsHandOff);
      }
    }
  }

  /** A move outside the park list that installs the word w. */
  lemma PlainMove(s: State, c: Co, w: Word, pc: Pc)
    requires Inv(s) && c in s.pcs && Plain(s.pcs[c]) && Plain(pc)
    requires LocalOk(w, pc)
    requires w.waiters >= s.word.waiters || TallyOf(s.pcs).handOff <= Bit(IsHandOff(s.pcs[c]))
    requires var t := TallyOf(s.pcs).Moved(s.pcs[c], pc);
             TallyOf(s.pcs).NonNegative() && t.NonNegative() ==> Modes(w, Deposits(s), t) && NobodyStranded(w, t)
    ensures Inv(To(s.(word := w), c, pc))
  {
    Recount(s.pcs, c, pc);
    PlainKeepsParking(s, c, w, pc);
    MoveKeepsLocally(s, c, To(s.(word := w), c, pc), pc);
  }

  /** The compare-exchange at the end of lockSlow's loop, on the counts. */
  lemma AcquireModes(v: Word, deposits: nat, t: Tally, l: Locals)
    requires Modes(v, deposits, t) && LocalOk(v, SlowLoop(l, v))
    ensures var w := Word(v.locked || !v.starving, v.woken && !l.awoke, v.starving || (l.starving && v.locked),
                          v.waiters + Bit(v.locked || v.starving));
            var pc := if v.locked || v.starving then WaitLock(l) else Holding;
            var t' := t.Moved(SlowLoop(l, v), pc);
            t.NonNegative() && t'.NonNegative() ==> Modes(w, deposits, t')
  {
  }

  /** A move that changes neither the word nor any count but, possibly, the wakers. */
  lemma QuietMove(s: State, c: Co, pc: Pc)
    requires Inv(s) && c in s.pcs && Plain(s.pcs[c]) && Plain(pc)
    requires LocalOk(s.word, pc)
    requires TallyOf(s.pcs).Moved(s.pcs[c], pc).(waker := 0) == TallyOf(s.pcs).(waker := 0)
    requires IsWaker(s.pcs[c]) && s.word.waiters > 0 && !s.word.Flagged() ==> IsWaker(pc)
    ensures Inv(To(s, c, pc))
  {
    hide Count, TallyOf;
    PlainMove(s, c, s.word, pc);
  }

  /** A spinner takes the WOKEN flag. */
  lemma SpinModes(v: Word, deposits: nat, t: Tally, l: Locals)
    requires Modes(v, deposits, t) && v.locked && !v.starving && !v.woken && !l.awoke
    ensures var t' := t.Moved(SlowLoop(l, v), SlowLoad(l.(awoke := true, iter := l.iter + 1)));
            Modes(v.(woken := true), deposits, t')
  {
  }

  lemma InvParts(s: State, c: Co)
    requires Inv(s) && c in s.pcs
    ensures LocalOk(s.word, s.pcs[c])
    ensures Modes(s.word, Deposits(s), TallyOf(s.pcs))
    ensures NobodyStranded(s.word, TallyOf(s.pcs))
    ensures ParkCounts(s, TallyOf(s.pcs))
    ensures Parking(s) && Locally(s)
    ensures TallyOf(s.pcs).NonNegative() && TallyOf(s.pcs).Moved(s.pcs[c], Idle).NonNegative()
  {
    hide Count, TallyOf;
    Recount(s.pcs, c, Idle);
  }

  lemma SpinKeepsInv(s: State, c: Co, l: Locals)
    requires Inv(s) && c in s.pcs && s.pcs[c] == SlowLoop(l, s.word)
    requires s.word.locked && !s.word.starving && !s.word.woken && !l.awoke
    ensures Inv(To(s.(word := s.word.(woken := true)), c, SlowLoad(l.(awoke := true, iter := l.iter + 1))))
  {
    hide Count, TallyOf;
    SpinModes(s.word, Deposits(s), TallyOf(s.pcs), l);
    PlainMove(s, c, s.word.(woken := true), SlowLoad(l.(awoke := true, iter := l.iter + 1)));
  }

  lemma AcquireKeepsInv(s: State, c: Co, l: Locals)
    requires Inv(s) && c in s.pcs && s.pcs[c] == SlowLoop(l, s.word)
    ensures Inv(To(s.(word := Acquired(l, s.word)), c,
                   if s.word.locked || s.word.starving then WaitLock(l) else Holding))
  {
    hide Count, TallyOf, Acquired, Inv;
    InvParts(s, c);
    AcquiredForm(l, s.word);
    AcquireModes(s.word, Deposits(s), TallyOf(s.pcs), l);
    PlainMove(s, c, Acquired(l, s.word), if s.word.locked || s.word.starving then WaitLock(l) else Holding);
  }

  lemma RetryKeepsInv(s: State, c: Co, l: Locals, view: Word, n: nat)
    requires Inv(s) && c in s.pcs && s.pcs[c] == SlowLoop(l, view)
    ensures Inv(To(s, c, SlowLoad(l.(iter := n))))
  {
    hide Count, TallyOf;
    QuietMove(s, c, SlowLoad(l.(iter := n)));
  }

  lemma LoopKeepsInv(s: State, c: Co, e: Choice, l: Locals, view: Word)
    requires Inv(s) && c in s.pcs && s.pcs[c] == SlowLoop(l, view)
    ensures Inv(LoopStep(s, c, e, l, view))
  {
    hide Count, TallyOf, Acquired, Inv, Modes, Parking, ParkCounts, NobodyStranded, Locally;
    InvParts(s, c);
    RetryKeepsInv(s, c, l, view, l.iter);
    RetryKeepsInv(s, c, l, view, l.iter + 1);
    if view == s.word {
      if s.word.locked && !s.word.starving && !s.word.woken && !l.awoke {
        SpinKeepsInv(s, c, l);
      }
      AcquireKeepsInv(s, c, l);
    }
  }

  /** The load after wait() returns: its receiver is alone with the grant. */
  lemma ReturnKeepsInv(s: State, c: Co, e: Choice, l: Locals)
    requires Inv(s) && c in s.pcs && s.pcs[c] == AfterWait(l)
    ensures Inv(ReturnStep(s, c, e, l))
  {
    hide Count, TallyOf, Inv, Parking, Locally;
    InvParts(s, c);
    PlainMove(s, c, s.word, ReturnStep(s, c, e, l).pcs[c]);
  }

  lemma HandOffKeepsInv(s: State, c: Co, l: Locals, view: Word)
    requires Inv(s) && c in s.pcs && s.pcs[c] == HandOff(l, view)
    ensures var delta := 1 - 8 - (if !l.starving || view.waiters == 1 then 4 else 0);
            Inv(To(s.(word := Add(s.word, delta)), c, Holding))
  {
    hide Count, TallyOf, Add, Inv, Parking, Locally;
    InvParts(s, c);
    HandOffArithmetic(s.word);
    var delta := 1 - 8 - (if !l.starving || view.waiters == 1 then 4 else 0);
    PlainMove(s, c, Add(s.word, delta), Holding);
  }

  lemma UnlockKeepsInv(s: State, c: Co)
    requires Inv(s) && c in s.pcs && s.pcs[c] == Holding
    ensures Inv(UnlockStep(s, c))
  {
    hide Count, TallyOf, Pack, Unpack, Add, Inv, Parking, Locally;
    InvParts(s, c);
    PackedArithmetic(s.word);
    PackedArithmetic(s.word.(locked := false));
    PlainMove(s, c, s.word.(locked := false), UnlockStep(s, c).pcs[c]);
  }

  /** An unlocker takes one waiter off the count, sets WOKEN and owes a post. */
  lemma GrantKeepsInv(s: State, c: Co)
    requires Inv(s) && c in s.pcs && s.pcs[c] == UnlockLoop(s.word)
    requires s.word.waiters != 0 && !s.word.Flagged()
    ensures Inv(To(s.(word := Add(s.word, -8).(woken := true)), c, PostLock))
  {
    hide Count, TallyOf, Pack, Unpack, Add, Inv, Parking, Locally;
    InvParts(s, c);
    PackedArithmetic(s.word);
    PlainMove(s, c, s.word.(waiters := s.word.waiters - 1, woken := true), PostLock);
  }

  lemma WakeKeepsInv(s: State, c: Co, e: Choice, view: Word)
    requires Inv(s) && c in s.pcs && s.pcs[c] == UnlockLoop(view)
    ensures Inv(WakeStep(s, c, e, view))
  {
    hide Count, TallyOf, Add, Inv, Parking, Locally, Modes, ParkCounts;
    InvParts(s, c);
    if view.waiters == 0 || view.Flagged() {
      QuietMove(s, c, Idle);
    } else {
      QuietMove(s, c, UnlockLoad);
      if s.word == view {
        GrantKeepsInv(s, c);
      }
    }
  }

  /** A move that leaves the word alone and works on the park list. */
  lemma ParkMove(s: State, c: Co, s': State, pc: Pc)
    requires Inv(s) && c in s.pcs && s'.pcs == s.pcs[c := pc] && s'.word == s.word
    requires LocalOk(s.word, pc) && !IsWaker(s.pcs[c])
    requires Parking(s')
    requires var t := TallyOf(s.pcs).Moved(s.pcs[c], pc);
             TallyOf(s.pcs).NonNegative() && t.NonNegative() ==>
               Modes(s.word, Deposits(s'), t) && ParkCounts(s', t)
    ensures Inv(s')
  {
    hide Count, TallyOf, Modes, Parking;
    Recount(s.pcs, c, pc);
    MoveKeepsLocally(s, c, s', pc);
  }

  /** Only c moves and the park list stays. */
  lemma LockKeepsParking(s: State, c: Co, pc: Pc)
    requires Parking(s) && c in s.pcs && Plain(s.pcs[c]) && InCrit(pc)
    ensures Parking(To(s.(waitlock := true), c, pc))
  {
    var s' := To(s.(waitlock := true), c, pc);
    forall k | k in s'.pcs && s'.pcs[k].PostResume?
      ensures Popped(s', s'.pcs[k].target)
    {
      assert Popped(s, s.pcs[k].target);
    }
  }

  lemma LockKeepsInv(s: State, c: Co, pc: Pc)
    requires Inv(s) && c in s.pcs && !s.waitlock
    requires (s.pcs[c].WaitLock? && pc.WaitCrit?) || (s.pcs[c].PostLock? && pc.PostCrit?)
    ensures Inv(To(s.(waitlock := true), c, pc))
  {
    hide Count, TallyOf, Inv, Parking, Locally;
    InvParts(s, c);
    LockKeepsParking(s, c, pc);
    ParkMove(s, c, To(s.(waitlock := true), c, pc), pc);
  }

  lemma WaitKeepsParking(s: State, c: Co, l: Locals)
    requires Parking(s) && c in s.pcs && s.pcs[c] == WaitCrit(l)
    ensures Parking(WaitStep(s, c, l))
  {
    var s' := WaitStep(s, c, l);
    assert c !in s.queue && c !in s.resumed;
    forall k | k in s'.pcs && s'.pcs[k].PostResume?
      ensures Popped(s', s'.pcs[k].target)
    {
      assert Popped(s, s.pcs[k].target);
    }
  }

  lemma WaitKeepsInv(s: State, c: Co, l: Locals)
    requires Inv(s) && c in s.pcs && s.pcs[c] == WaitCrit(l)
    ensures Inv(WaitStep(s, c, l))
  {
    hide Count, TallyOf, Inv, Parking, Locally;
    InvParts(s, c);
    WaitKeepsParking(s, c, l);
    ParkMove(s, c, WaitStep(s, c, l), WaitStep(s, c, l).pcs[c]);
  }

  lemma ResumedKeepsInv(s: State, c: Co, l: Locals)
    requires Inv(s) && c in s.pcs && s.pcs[c] == Parked(l) && c in s.resumed
    ensures Inv(To(s.(resumed := s.resumed - multiset{c}), c, AfterWait(l)))
  {
    hide Count, TallyOf, Inv, Locally;
    InvParts(s, c);
    var s' := To(s.(resumed := s.resumed - multiset{c}), c, AfterWait(l));
    assert |s.resumed| == |s'.resumed| + 1;
    forall k | k in s'.pcs && s'.pcs[k].PostResume?
      ensures Popped(s', s'.pcs[k].target)
    {
      assert Popped(s, s.pcs[k].target);
    }
    OnlyOne(s.resumed, c);
    ParkMove(s, c, s', AfterWait(l));
  }

  lemma OnlyOne(r: multiset<Co>, c: Co)
    requires |r| <= 1 && c in r
    ensures r == multiset{c}
  {
    var rest := r - multiset{c};
    assert r == rest + multiset{c};
    assert |rest| == 0;
  }

  lemma PostKeepsParking(s: State, c: Co)
    requires Parking(s) && c in s.pcs && s.pcs[c] == PostCrit
    ensures Parking(PostStep(s, c))
  {
    var s' := PostStep(s, c);
    forall k | k in s'.pcs && s'.pcs[k].PostResume?
      ensures Popped(s', s'.pcs[k].target)
    {
      assert k != c ==> Popped(s, s.pcs[k].target);
    }
  }

  lemma PostKeepsInv(s: State, c: Co)
    requires Inv(s) && c in s.pcs && s.pcs[c] == PostCrit
    ensures Inv(PostStep(s, c))
  {
    hide Count, TallyOf, Inv, Locally, Parking;
    InvParts(s, c);
    PostKeepsParking(s, c);
    ParkMove(s, c, PostStep(s, c), PostStep(s, c).pcs[c]);
  }

  lemma RecordKeepsInv(s: State, c: Co, t: Co)
    requires Inv(s) && c in s.pcs && s.pcs[c] == PostResume(t)
    ensures Inv(To(s.(resumed := s.resumed + multiset{t}), c, Idle))
  {
    hide Count, TallyOf, Inv, Locally;
    InvParts(s, c);
    var s' := To(s.(resumed := s.resumed + multiset{t}), c, Idle);
    assert Popped(s, t);
    Recount(s.pcs, c, Idle);
    NoPoster(s');
    ParkMove(s, c, s', Idle);
  }

  lemma NoPoster(s: State)
    requires TallyOf(s.pcs).posting == 0
    ensures forall k | k in s.pcs :: !s.pcs[k].PostResume?
  {
    CountZero(s.pcs, IsPosting);
    assert forall k | k in s.pcs :: !IsPosting(s.pcs[k]);
  }

  lemma StepKeepsInv(s: State, c: Co, e: Choice)
    requires Inv(s) && c in s.pcs
    ensures Inv(Step(s, c, e))
  {
    hide Count, TallyOf, Inv, Parking, Locally, Modes, LoopStep, WaitStep, ReturnStep, UnlockStep, WakeStep,
      PostStep, Add;
    InvParts(s, c);
    match s.pcs[c]
    case Idle => QuietMove(s, c, FastCas);
    case FastCas => FastKeepsInv(s, c, e);
    case SlowLoad(l) => LoadKeepsInv(s, c, l);
    case SlowLoop(l, view) => LoopKeepsInv(s, c, e, l, view);
    case WaitLock(l) => if !s.waitlock { LockKeepsInv(s, c, WaitCrit(l)); }
    case WaitCrit(l) => WaitKeepsInv(s, c, l);
    case Parked(l) => if c in s.resumed { ResumedKeepsInv(s, c, l); }
    case AfterWait(l) => ReturnKeepsInv(s, c, e, l);
    case HandOff(l, view) => HandOffKeepsInv(s, c, l, view);
    case Holding => UnlockKeepsInv(s, c);
    case UnlockLoop(view) => WakeKeepsInv(s, c, e, view);
    case UnlockLoad => QuietMove(s, c, UnlockLoop(s.word));
    case PostLock => if !s.waitlock { LockKeepsInv(s, c, PostCrit); }
    case PostCrit => PostKeepsInv(s, c);
    case PostResume(t) => RecordKeepsInv(s, c, t);
    case Aborted =>
  }

  /** lock() took a free word, or falls through to lockSlow. */
  lemma FastKeepsInv(s: State, c: Co, e: Choice)
    requires Inv(s) && c in s.pcs && s.pcs[c] == FastCas
    ensures Inv(Step(s, c, e))
  {
    hide Count, TallyOf, Inv, Parking, Locally, Pack, Unpack;
    InvParts(s, c);
    PackedArithmetic(s.word);
    UnpackOne();
    PlainMove(s, c, Step(s, c, e).word, Step(s, c, e).pcs[c]);
  }

  lemma LoadKeepsInv(s: State, c: Co, l: Locals)
    requires Inv(s) && c in s.pcs && s.pcs[c] == SlowLoad(l)
    ensures Inv(To(s, c, SlowLoop(l, s.word)))
  {
    hide Count, TallyOf, Inv, Parking, Locally;
    InvParts(s, c);
    QuietMove(s, c, SlowLoop(l, s.word));
  }

  lemma {:induction false} RunsKeepInv(run: seq<State>, i: nat)
    requires IsRun(run) && i < |run|
    ensures Inv(run[i])
  {
    if i == 0 {
      InitInv(run[0]);
    } else {
      RunsKeepInv(run, i - 1);
      assert Next(run[i - 1], run[i]);
      var c, e :| c in run[i - 1].pcs && run[i] == Step(run[i - 1], c, e);
      StepKeepsInv(run[i - 1], c, e);
    }
  }

  /** At most one coroutine is between the return of lock() and its unlock(). */
  lemma MutualExclusion(run: seq<State>, i: nat, a: Co, b: Co)
    requires IsRun(run) && i < |run|
    requires a in run[i].pcs && run[i].pcs[a].Holding? && b in run[i].pcs && run[i].pcs[b].Holding?
    ensures a == b
    ensures run[i].word.locked
  {
    RunsKeepInv(run, i);
    CountHas(run[i].pcs, a, IsHolding);
    CountUnique(run[i].pcs, a, b, IsHolding);
  }

  /** The abstract lock: its holder, if there is one. */
  ghost function HolderOf(holders: set<Co>): Lock
    requires |holders| <= 1
  {
    if holders == {} then Option.None else var c :| c in holders; Some(c)
  }

  /** What the layers above rely on: seen from outside, a step is a step of the abstract lock. */
  lemma RefinesLock(s: State, c: Co, e: Choice)
    requires Inv(s) && c in s.pcs
    ensures var h, h' := Where(s.pcs, IsHolding), Where(Step(s, c, e).pcs, IsHolding);
            |h| <= 1 && |h'| <= 1 && LockStep(HolderOf(h), HolderOf(h'), c)
  {
    hide Inv, Step, IsHolding;
    StepKeepsInv(s, c, e);
    HoldersFew(s);
    HoldersFew(Step(s, c, e));
    HoldersMove(s.pcs, c, Step(s, c, e).pcs);
    hide Where;
  }

  lemma HoldersFew(s: State)
    requires Inv(s)
    ensures |Where(s.pcs, IsHolding)| <= 1
  {
  }

  lemma HoldersMove(m: map<Co, Pc>, c: Co, n: map<Co, Pc>)
    requires c in m && c in n && n == m[c := n[c]]
    requires |Where(m, IsHolding)| <= 1 && |Where(n, IsHolding)| <= 1
    ensures var h, h' := Where(m, IsHolding), Where(n, IsHolding);
            h' == h || (h == {} && h' == {c}) || (h == {c} && h' == {})
  {
    var h, h' := Where(m, IsHolding), Where(n, IsHolding);
    assert h' - {c} == h - {c};
    hide Where, IsHolding;
    AloneIn(h, c);
    AloneIn(h', c);
  }

  lemma AloneIn(h: set<Co>, c: Co)
    requires |h| <= 1
    ensures if c in h then h == {c} else h == h - {c}
  {
    if c in h { SubsetOfSameSize({c}, h); }
  }

  lemma NotAborted(s: State, c: Co)
    requires Inv(s) && c in s.pcs
    ensures s.pcs[c] != Aborted
  {
    hide Modes, Parking, ParkCounts, NobodyStranded, TallyOf;
    assert LocalOk(s.word, s.pcs[c]);
  }

  /** None of the "inconsistent mutex state" and "unlock of unlocked mutex" exits is reached. */
  lemma NeverAborts(run: seq<State>, i: nat, c: Co)
    requires IsRun(run) && i < |run| && c in run[i].pcs
    ensures run[i].pcs[c] != Aborted
  {
    hide Inv, IsRun;
    RunsKeepInv(run, i);
    NotAborted(run[i], c);
  }

  /** WOKEN has exactly one owner, STARVING without LOCKED exactly one hand-off, and a
      post that finds the park list empty finds dontWait_ clear. */
  lemma TokensAreUnique(run: seq<State>, i: nat)
    requires IsRun(run) && i < |run|
    ensures var s := run[i]; var t := TallyOf(s.pcs); var grants := t.posting + Bit(s.dontWait) + |s.resumed|;
            && (!s.word.starving ==> t.awake + grants + t.afterWait == Bit(s.word.woken) && t.handOff == 0)
            && (s.word.starving ==> !s.word.woken && t.awake == 0 &&
                                    grants + t.afterWait + t.handOff == Bit(!s.word.locked))
    ensures forall c | c in run[i].pcs && IsPosting(run[i].pcs[c]) :: !run[i].dontWait && run[i].resumed == multiset{}
  {
    RunsKeepInv(run, i);
    forall c | c in run[i].pcs && IsPosting(run[i].pcs[c])
      ensures !run[i].dontWait && run[i].resumed == multiset{}
    {
      CountHas(run[i].pcs, c, IsPosting);
    }
  }

  /** The waiter count and the normal-mode wake-ups under way together are the coroutines
      between their queueing compare-exchange and their return from wait(); a hand-off's
      receiver stays counted until it has taken the lock. */
  lemma WaitersAreAccounted(run: seq<State>, i: nat)
    requires IsRun(run) && i < |run|
    ensures var s := run[i]; var t := TallyOf(s.pcs);
            if s.word.starving then s.word.waiters == t.waiting + t.afterWait + t.handOff
            else s.word.waiters + t.posting + Bit(s.dontWait) + |s.resumed| == t.waiting
  {
    RunsKeepInv(run, i);
  }

  /** Waiters under a flag-free word have an unlocker that will still try to wake one. */
  lemma NoWaiterIsStranded(run: seq<State>, i: nat) returns (c: Co)
    requires IsRun(run) && i < |run|
    requires run[i].word.waiters > 0 && !run[i].word.Flagged()
    ensures c in run[i].pcs && IsWaker(run[i].pcs[c])
  {
    RunsKeepInv(run, i);
    c := CountWitness(run[i].pcs, IsWaker);
  }

  /** A wake-up deposited in dontWait_ has a coroutine on its way to take it. */
  lemma DepositHasTaker(run: seq<State>, i: nat) returns (c: Co)
    requires IsRun(run) && i < |run| && run[i].dontWait
    ensures c in run[i].pcs && (run[i].pcs[c].WaitLock? || run[i].pcs[c].WaitCrit?)
  {
    var s := run[i];
    RunsKeepInv(run, i);
    var t := TallyOf(s.pcs);
    CountDisjoint(s.pcs, IsResuming, None, IsPosting);
    assert t.resuming == 0 && |s.resumed| == 0 && t.parked == 0;
    c := CountWitness(s.pcs, IsWaiting);
    CountZero(s.pcs, IsParked);
    assert !IsParked(s.pcs[c]);
  }

  predicate None(pc: Pc) { false }

  /** A parked coroutine is in the park list, or popped by a post, or has its resume record. */
  lemma ParkedIsNotLost(run: seq<State>, i: nat, c: Co)
    requires IsRun(run) && i < |run| && c in run[i].pcs && run[i].pcs[c].Parked?
    ensures var s := run[i];
            c in s.queue || c in s.resumed || exists k :: k in s.pcs && s.pcs[k] == PostResume(c)
  {
    RunsKeepInv(run, i);
    ParkedIsCovered(run[i], c);
  }

  lemma ParkedIsCovered(s: State, c: Co)
    requires Inv(s) && c in s.pcs && s.pcs[c].Parked?
    ensures c in s.queue || c in s.resumed || exists k :: k in s.pcs && s.pcs[k] == PostResume(c)
  {
    hide Modes, Locally, NobodyStranded;
    var popped: set<Co> := {};
    if TallyOf(s.pcs).resuming > 0 {
      var k := CountWitness(s.pcs, IsResuming);
      assert Popped(s, s.pcs[k].target);
      popped := {s.pcs[k].target};
    }
    FewGrants(s);
    assert c in Where(s.pcs, IsParked);
    Covered(s.queue, s.resumed, popped, Where(s.pcs, IsParked));
  }

  lemma FewGrants(s: State)
    requires Inv(s)
    ensures TallyOf(s.pcs).resuming + |s.resumed| <= 1
    ensures |Where(s.pcs, IsParked)| == |s.queue| + TallyOf(s.pcs).resuming + |s.resumed|
  {
    CountDisjoint(s.pcs, IsResuming, None, IsPosting);
  }

  lemma Covered(queue: seq<Co>, resumed: multiset<Co>, popped: set<Co>, parked: set<Co>)
    requires Distinct(queue)
    requires forall x | x in queue :: x in parked && x !in resumed && x !in popped
    requires forall x | x in resumed :: x in parked
    requires popped <= parked && |popped| + |resumed| <= 1
    requires |parked| == |queue| + |popped| + |resumed|
    ensures forall x | x in parked :: x in queue || x in resumed || x in popped
  {
    DistinctLength(queue);
    var q, rest := Elements(queue), popped;
    if |resumed| == 1 {
      var x :| x in resumed;
      OnlyOne(resumed, x);
      rest := {x};
    }
    assert q !! rest;
    assert |q + rest| == |q| + |rest|;
    SubsetOfSameSize(q + rest, parked);
  }

  /** With fewer than 2^28 coroutines the word stays inside the source's int32_t. */
  lemma WordFitsInt32(run: seq<State>, i: nat)
    requires IsRun(run) && i < |run| && |run[i].pcs| < 0x1000_0000
    ensures 0 <= Pack(run[i].word) < 0x8000_0000
  {
    hide IsRun, Parking, Locally, NobodyStranded, Count;
    var s := run[i];
    RunsKeepInv(run, i);
    CountDisjoint(s.pcs, IsAfterWait, IsHandOff, IsReturning);
    CountDisjoint(s.pcs, IsWaiting, IsReturning, IsCounted);
  }

  predicate IsReturning(pc: Pc) { pc.AfterWait? || pc.HandOff? }
  predicate IsCounted(pc: Pc) { IsWaiting(pc) || IsReturning(pc) }
}
