/** The readers-writer lock, over the specifications of the mutex (one holder) and of
the two semaphores (anonymous permits). One step is one atomic access or one call
of a lower layer that returns. */
module RWMutex {
  import opened Common
  import opened Counting
  import opened Primitives

  const MAX_READERS: int := 0x4000_0000

  datatype Pc =
    | Idle
    | WMutex
    | WAnnounce
    | WAdd(r: int)
    | WSem
    | WIn
    | WPost(k: int)
    | WRelease
    | RSem
    | RIn
    | RDec
    | RPost
    | Aborted

  /** rc is readerCount_, rw readerWait_, lock is wlock_. */
  datatype State = State(rc: int, rw: int, readerPermits: nat, writerPermits: nat, lock: Lock,
                         pcs: map<Co, Pc>)

  datatype Choice = Choice(reader: bool)

  function To(s: State, c: Co, pc: Pc): State {
    s.(pcs := s.pcs[c := pc])
  }

  function AnnounceStep(s: State, c: Co): State {
    To(s.(rc := s.rc - MAX_READERS), c, if s.rc != 0 then WAdd(s.rc) else WIn)
  }

  function AddStep(s: State, c: Co, r: int): State {
    To(s.(rw := s.rw + r), c, if s.rw + r != 0 then WSem else WIn)
  }

  function UnlockStep(s: State, c: Co): State {
    To(s.(rc := s.rc + MAX_READERS), c, if s.rc >= 0 then Aborted else WPost(s.rc + MAX_READERS))
  }

  function RegisterStep(s: State, c: Co): State {
    To(s.(rc := s.rc + 1), c,
       if s.rc == -1 || s.rc >= MAX_READERS - 1 then Aborted else if s.rc < 0 then RSem else RIn)
  }

  function LeaveStep(s: State, c: Co): State {
    To(s.(rc := s.rc - 1), c,
       if s.rc > 0 then Idle else if s.rc == 0 || s.rc == -MAX_READERS then Aborted else RDec)
  }

  function Step(s: State, c: Co, e: Choice): (r: State)
    requires c in s.pcs
    ensures c in r.pcs && r.pcs == s.pcs[c := r.pcs[c]]
  {
    match s.pcs[c]
    case Idle => if e.reader then RegisterStep(s, c) else To(s, c, WMutex)
    case WMutex => if s.lock.Some? then s else To(s.(lock := Acquired(s.lock, c)), c, WAnnounce)
    case WAnnounce => AnnounceStep(s, c)
    case WAdd(r) => AddStep(s, c, r)
    case WSem => if s.writerPermits == 0 then s else To(s.(writerPermits := Waited(s.writerPermits)), c, WIn)
    case WIn => UnlockStep(s, c)
    case WPost(k) =>
      if k > 0 then To(s.(readerPermits := Posted(s.readerPermits)), c, WPost(k - 1)) else To(s, c, WRelease)
    case WRelease => To(s.(lock := Released(s.lock, c)), c, Idle)
    case RSem => if s.readerPermits == 0 then s else To(s.(readerPermits := Waited(s.readerPermits)), c, RIn)
    case RIn => LeaveStep(s, c)
    case RDec => To(s.(rw := s.rw - 1), c, if s.rw == 1 then RPost else Idle)
    case RPost => To(s.(writerPermits := Posted(s.writerPermits)), c, Idle)
    case Aborted => s
  }

  /** rlock aborts on overflow, so the population is bounded as the source's constant demands. */
  ghost predicate Init(s: State) {
    && s.rc == 0 && s.rw == 0 && s.readerPermits == 0 && s.writerPermits == 0 && s.lock.None?
    && |s.pcs| < MAX_READERS - 1
    && forall c | c in s.pcs :: s.pcs[c] == Idle
  }

  ghost predicate Next(s: State, s': State) {
    exists c, e :: c in s.pcs && s' == Step(s, c, e)
  }

  ghost predicate IsRun(run: seq<State>) {
    && |run| > 0 && Init(run[0])
    && forall i | 0 < i < |run| :: Next(run[i - 1], run[i])
  }

  predicate IsReading(pc: Pc) { pc.RIn? }
  predicate IsBehind(pc: Pc) { pc.RSem? }
  predicate IsRegistered(pc: Pc) { pc.RIn? || pc.RSem? }
  predicate IsDeparting(pc: Pc) { pc.RDec? }
  predicate IsPosting(pc: Pc) { pc.RPost? }
  predicate IsOwner(pc: Pc) {
    pc.WAnnounce? || pc.WAdd? || pc.WSem? || pc.WIn? || pc.WPost? || pc.WRelease?
  }
  predicate IsAdding(pc: Pc) { pc.WAdd? }
  predicate IsAsleep(pc: Pc) { pc.WSem? }
  predicate IsWriting(pc: Pc) { pc.WIn? }
  predicate IsGranting(pc: Pc) { pc.WPost? }
  predicate IsResting(pc: Pc) { pc.WAnnounce? || pc.WRelease? }

  datatype Tally = Tally(reading: int, behind: int, departing: int, posting: int, owner: int,
                         adding: int, asleep: int, writing: int, granting: int, resting: int) {
    predicate NonNegative() {
      && reading >= 0 && behind >= 0 && departing >= 0 && posting >= 0 && owner >= 0
      && adding >= 0 && asleep >= 0 && writing >= 0 && granting >= 0 && resting >= 0
    }

    function Moved(a: Pc, b: Pc): Tally {
      Tally(reading - Bit(IsReading(a)) + Bit(IsReading(b)),
            behind - Bit(IsBehind(a)) + Bit(IsBehind(b)),
            departing - Bit(IsDeparting(a)) + Bit(IsDeparting(b)),
            posting - Bit(IsPosting(a)) + Bit(IsPosting(b)),
            owner - Bit(IsOwner(a)) + Bit(IsOwner(b)),
            adding - Bit(IsAdding(a)) + Bit(IsAdding(b)),
            asleep - Bit(IsAsleep(a)) + Bit(IsAsleep(b)),
            writing - Bit(IsWriting(a)) + Bit(IsWriting(b)),
            granting - Bit(IsGranting(a)) + Bit(IsGranting(b)),
            resting - Bit(IsResting(a)) + Bit(IsResting(b)))
    }

    /** A writer took the maximum off readerCount_ and has not put it back. */
    function Announced(): int { adding + asleep + writing }
  }

  function TallyOf(pcs: map<Co, Pc>): Tally {
    Tally(Count(pcs, IsReading), Count(pcs, IsBehind), Count(pcs, IsDeparting), Count(pcs, IsPosting),
          Count(pcs, IsOwner), Count(pcs, IsAdding), Count(pcs, IsAsleep), Count(pcs, IsWriting),
          Count(pcs, IsGranting), Count(pcs, IsResting))
  }

  /** Readers the announced writer still has to wait for: inside, or holding a permit to enter. */
  function Ahead(s: State, t: Tally): int {
    t.reading + s.readerPermits
  }

  predicate Balanced(s: State, t: Tally) {
    && t.owner == Bit(s.lock.Some?)
    && t.owner == t.Announced() + t.granting + t.resting
    && s.rc == t.reading + t.behind - MAX_READERS * t.Announced()
    && t.behind >= s.readerPermits
    && t.reading + t.behind < MAX_READERS - 1
    && (t.Announced() == 0 ==> s.rw == 0 && t.departing == 0)
    && (t.Announced() == 0 && t.granting == 0 ==> t.behind == s.readerPermits)
    && (t.asleep == 0 ==> s.writerPermits == 0 && t.posting == 0)
    && (t.adding == 1 ==> s.rw <= 0)
    && (t.asleep == 1 ==> s.rw == Ahead(s, t) + t.departing && t.posting + s.writerPermits == Bit(s.rw == 0))
    && (t.writing == 1 ==> s.rw == 0 && Ahead(s, t) == 0 && t.departing == 0)
  }

  /** The values the owner carries between two of its steps. */
  predicate LocalOk(s: State, t: Tally, pc: Pc) {
    match pc
    case WAdd(r) => s.rw + r == Ahead(s, t) + t.departing
    case WPost(k) => k >= 0 && t.behind == s.readerPermits + k
    case Aborted => false
    case _ => true
  }

  ghost predicate Inv(s: State) {
    && Balanced(s, TallyOf(s.pcs))
    && |s.pcs| < MAX_READERS - 1
    && (forall c | c in s.pcs :: LocalOk(s, TallyOf(s.pcs), s.pcs[c]))
    && Held(s)
  }

  /** The owner, and nobody else, holds wlock_. */
  ghost predicate Held(s: State) {
    forall c | c in s.pcs :: IsOwner(s.pcs[c]) <==> s.lock == Some(c)
  }

  lemma Recount(pcs: map<Co, Pc>, c: Co, pc: Pc)
    requires c in pcs
    ensures TallyOf(pcs[c := pc]) == TallyOf(pcs).Moved(pcs[c], pc)
    ensures TallyOf(pcs).NonNegative() && TallyOf(pcs[c := pc]).NonNegative()
  {
    hide Count;
    CountUpdate(pcs, c, pc, IsReading);
    CountUpdate(pcs, c, pc, IsBehind);
    CountUpdate(pcs, c, pc, IsDeparting);
    CountUpdate(pcs, c, pc, IsPosting);
    CountUpdate(pcs, c, pc, IsOwner);
    CountUpdate(pcs, c, pc, IsAdding);
    CountUpdate(pcs, c, pc, IsAsleep);
    CountUpdate(pcs, c, pc, IsWriting);
    CountUpdate(pcs, c, pc, IsGranting);
    CountUpdate(pcs, c, pc, IsResting);
  }

  lemma RegisteredFew(pcs: map<Co, Pc>, c: Co, pc: Pc)
    requires c in pcs
    ensures TallyOf(pcs[c := pc]).reading + TallyOf(pcs[c := pc]).behind <= |pcs|
  {
    hide Count;
    CountDisjoint(pcs[c := pc], IsReading, IsBehind, IsRegistered);
    assert pcs[c := pc].Keys == pcs.Keys;
    assert |pcs[c := pc]| == |pcs[c := pc].Keys| == |pcs|;
  }

  lemma InitInv(s: State)
    requires Init(s)
    ensures Inv(s)
  {
    hide Count;
    CountNone(s.pcs, IsReading);
    CountNone(s.pcs, IsBehind);
    CountNone(s.pcs, IsDeparting);
    CountNone(s.pcs, IsPosting);
    CountNone(s.pcs, IsOwner);
    CountNone(s.pcs, IsAdding);
    CountNone(s.pcs, IsAsleep);
    CountNone(s.pcs, IsWriting);
    CountNone(s.pcs, IsGranting);
    CountNone(s.pcs, IsResting);
  }

  /** c's own step, on the counts alone. */
  ghost predicate Ready(s: State, c: Co, t: Tally) {
    && c in s.pcs && Balanced(s, t) && LocalOk(s, t, s.pcs[c])
    && t.NonNegative() && t.Moved(s.pcs[c], Idle).NonNegative()
    && (IsOwner(s.pcs[c]) ==> s.lock == Some(c))
    && t.Moved(s.pcs[c], RIn).reading + t.Moved(s.pcs[c], RIn).behind < MAX_READERS - 1
  }

  lemma WriterKeepsBalance(s: State, c: Co, s': State, t: Tally)
    requires Ready(s, c, t)
    requires var pc := s.pcs[c];
             || (pc.WAnnounce? && s' == AnnounceStep(s, c))
             || (pc.WAdd? && s' == AddStep(s, c, pc.r))
             || (pc.WIn? && s' == UnlockStep(s, c))
    ensures var t' := t.Moved(s.pcs[c], s'.pcs[c]); Balanced(s', t') && LocalOk(s', t', s'.pcs[c])
  {
    var pc := s.pcs[c];
    if pc.WAnnounce? {
    } else if pc.WAdd? {
    } else {
    }
  }

  lemma ReaderKeepsBalance(s: State, c: Co, s': State, t: Tally)
    requires Ready(s, c, t)
    requires var pc := s.pcs[c];
             || (pc.Idle? && s' == RegisterStep(s, c))
             || (pc.RIn? && s' == LeaveStep(s, c))
    ensures var t' := t.Moved(s.pcs[c], s'.pcs[c]); Balanced(s', t') && LocalOk(s', t', s'.pcs[c])
  {
  }

  lemma StepKeepsBalance(s: State, c: Co, e: Choice, t: Tally)
    requires Ready(s, c, t)
    ensures var s' := Step(s, c, e); var t' := t.Moved(s.pcs[c], s'.pcs[c]);
            Balanced(s', t') && LocalOk(s', t', s'.pcs[c])
  {
    hide Balanced, LocalOk, AnnounceStep, AddStep, UnlockStep, RegisterStep, LeaveStep;
    var pc, s' := s.pcs[c], Step(s, c, e);
    if pc.WAnnounce? || pc.WAdd? || pc.WIn? {
      WriterKeepsBalance(s, c, s', t);
    } else if (pc.Idle? && e.reader) || pc.RIn? {
      ReaderKeepsBalance(s, c, s', t);
    } else {
      OtherKeepsBalance(s, c, e, t);
    }
  }

  lemma OtherKeepsBalance(s: State, c: Co, e: Choice, t: Tally)
    requires Ready(s, c, t)
    requires var pc := s.pcs[c]; !(pc.WAnnounce? || pc.WAdd? || pc.WIn? || pc.RIn? || (pc.Idle? && e.reader))
    ensures var s' := Step(s, c, e); var t' := t.Moved(s.pcs[c], s'.pcs[c]);
            Balanced(s', t') && LocalOk(s', t', s'.pcs[c])
  {
    hide Balanced, LocalOk, AnnounceStep, AddStep, UnlockStep, RegisterStep, LeaveStep;
    var pc := s.pcs[c];
    if pc.RDec? {
      DepartKeepsBalance(s, c, t);
    } else if pc.RSem? && s.readerPermits > 0 {
      EnterKeepsBalance(s, c, t);
    } else if pc.WPost? {
      GrantKeepsBalance(s, c, t);
    } else {
      LowerLayerKeepsBalance(s, c, Step(s, c, e), t);
    }
  }

  /** Calls of the mutex and of the semaphores that return or still block. */
  lemma LowerLayerKeepsBalance(s: State, c: Co, s': State, t: Tally)
    requires Ready(s, c, t)
    requires var pc := s.pcs[c];
             || s' == s
             || (pc.Idle? && s' == To(s, c, WMutex))
             || (pc.WMutex? && s.lock.None? && s' == To(s.(lock := Acquired(s.lock, c)), c, WAnnounce))
             || (pc.WRelease? && s' == To(s.(lock := Released(s.lock, c)), c, Idle))
             || (pc.WSem? && s.writerPermits > 0 && s' == To(s.(writerPermits := s.writerPermits - 1), c, WIn))
             || (pc.RPost? && s' == To(s.(writerPermits := s.writerPermits + 1), c, Idle))
    ensures var t' := t.Moved(s.pcs[c], s'.pcs[c]); Balanced(s', t') && LocalOk(s', t', s'.pcs[c])
  {
  }

  lemma DepartKeepsBalance(s: State, c: Co, t: Tally)
    requires Ready(s, c, t) && s.pcs[c].RDec?
    ensures var s' := To(s.(rw := s.rw - 1), c, if s.rw == 1 then RPost else Idle);
            var t' := t.Moved(s.pcs[c], s'.pcs[c]); Balanced(s', t') && LocalOk(s', t', s'.pcs[c])
  {
  }

  lemma EnterKeepsBalance(s: State, c: Co, t: Tally)
    requires Ready(s, c, t) && s.pcs[c].RSem? && s.readerPermits > 0
    ensures var s' := To(s.(readerPermits := s.readerPermits - 1), c, RIn);
            var t' := t.Moved(s.pcs[c], RIn); Balanced(s', t') && LocalOk(s', t', RIn)
  {
  }

  lemma GrantKeepsBalance(s: State, c: Co, t: Tally)
    requires Ready(s, c, t) && s.pcs[c].WPost?
    ensures var k := s.pcs[c].k;
            var s' := if k > 0 then To(s.(readerPermits := s.readerPermits + 1), c, WPost(k - 1))
                else To(s, c, WRelease);
            var t' := t.Moved(s.pcs[c], s'.pcs[c]); Balanced(s', t') && LocalOk(s', t', s'.pcs[c])
  {
  }

  /** What the owner carries stays right while other coroutines step. */
  lemma StepKeepsOthers(s: State, c: Co, e: Choice, t: Tally, pc: Pc)
    requires c in s.pcs && Balanced(s, t) && LocalOk(s, t, pc) && LocalOk(s, t, s.pcs[c])
    requires t.NonNegative() && t.Moved(s.pcs[c], Idle).NonNegative()
    requires t.Moved(pc, Idle).NonNegative() && (IsOwner(pc) ==> !IsOwner(s.pcs[c]))
    ensures var s' := Step(s, c, e); LocalOk(s', t.Moved(s.pcs[c], s'.pcs[c]), pc)
  {
  }

  lemma StepKeepsInv(s: State, c: Co, e: Choice)
    requires Inv(s) && c in s.pcs
    ensures Inv(Step(s, c, e))
  {
    hide Count, TallyOf, Balanced, LocalOk, Step;
    var s', t := Step(s, c, e), TallyOf(s.pcs);
    Recount(s.pcs, c, s'.pcs[c]);
    Recount(s.pcs, c, RIn);
    RegisteredFew(s.pcs, c, RIn);
    Recount(s.pcs, c, Idle);
    assert Ready(s, c, t) by { assert LocalOk(s, t, s.pcs[c]); }
    StepKeepsBalance(s, c, e, t);
    LocalIsAlive(s', t.Moved(s.pcs[c], s'.pcs[c]), s'.pcs[c]);
    StepKeepsHeld(s, c, e);
    forall k | k in s'.pcs
      ensures LocalOk(s', TallyOf(s'.pcs), s'.pcs[k])
    {
      if k != c {
        Recount(s.pcs, k, Idle);
        OneOwner(s, c, k);
        StepKeepsOthers(s, c, e, t, s.pcs[k]);
      }
    }
    assert s'.pcs.Keys == s.pcs.Keys;
    assert |s'.pcs| == |s'.pcs.Keys| == |s.pcs|;
  }

  lemma StepKeepsHeld(s: State, c: Co, e: Choice)
    requires Held(s) && c in s.pcs && Step(s, c, e).pcs[c] != Aborted
    ensures Held(Step(s, c, e))
  {
  }

  lemma LocalIsAlive(s: State, t: Tally, pc: Pc)
    requires LocalOk(s, t, pc)
    ensures pc != Aborted
  {
  }

  /** In every step a coroutine uses mutex and semaphores as they are meant to be used: it takes
      what is free and gives back what it holds. */
  lemma UsesPrimitives(s: State, c: Co, e: Choice)
    requires Held(s) && c in s.pcs
    ensures var s' := Step(s, c, e);
            && LockStep(s.lock, s'.lock, c)
            && CounterStep(s.readerPermits, s'.readerPermits) && CounterStep(s.writerPermits, s'.writerPermits)
            && (s.pcs[c].WRelease? ==> s.lock == Some(c))
  {
  }

  lemma OneOwner(s: State, a: Co, b: Co)
    requires Inv(s) && a in s.pcs && b in s.pcs && a != b
    ensures IsOwner(s.pcs[a]) ==> !IsOwner(s.pcs[b])
  {
    if IsOwner(s.pcs[a]) && IsOwner(s.pcs[b]) {
      CountUnique(s.pcs, a, b, IsOwner);
    }
  }

  lemma {:induction false} RunsKeepInv(run: seq<State>, i: nat)
    requires IsRun(run) && i < |run|
    ensures Inv(run[i])
  {
    if i == 0 {
      InitInv(run[0]);
    } else {
      RunsKeepInv(run, i - 1);
      assert Next(run[i - 1], run[i]);
      var c, e :| c in run[i - 1].pcs && run[i] == Step(run[i - 1], c, e);
      StepKeepsInv(run[i - 1], c, e);
    }
  }

  /** A writer inside excludes every reader and every other writer. */
  lemma WriterExcludesAll(run: seq<State>, i: nat, w: Co, c: Co)
    requires IsRun(run) && i < |run| && w in run[i].pcs && run[i].pcs[w].WIn?
    requires c in run[i].pcs && c != w
    ensures !run[i].pcs[c].WIn? && !run[i].pcs[c].RIn?
  {
    hide Count;
    var s := run[i];
    RunsKeepInv(run, i);
    Inside(s, w);
    OneOwner(s, w, c);
    Recount(s.pcs, c, Idle);
  }

  lemma Inside(s: State, w: Co)
    requires Inv(s) && w in s.pcs && s.pcs[w].WIn?
    ensures TallyOf(s.pcs).writing == 1
  {
    hide Count;
    Recount(s.pcs, w, Idle);
  }

  lemma NeverAborts(run: seq<State>, i: nat, c: Co)
    requires IsRun(run) && i < |run| && c in run[i].pcs
    ensures run[i].pcs[c] != Aborted
  {
    hide Balanced, TallyOf;
    RunsKeepInv(run, i);
    assert LocalOk(run[i], TallyOf(run[i].pcs), run[i].pcs[c]);
  }

  /** The departing readers post the writer once if it waits, and never otherwise: a post or
      its permit exists exactly when a writer sleeps on writerSem_ and readerWait_ is zero. */
  lemma WriterIsPostedOnce(run: seq<State>, i: nat)
    requires IsRun(run) && i < |run|
    ensures var s := run[i]; var t := TallyOf(s.pcs);
            && t.posting + s.writerPermits == Bit(t.asleep == 1 && s.rw == 0)
            && (t.asleep == 1 && s.rw == 0 ==> Ahead(s, t) + t.departing == 0)
  {
    hide Count, LocalOk;
    RunsKeepInv(run, i);
    Counts(run[i].pcs);
  }

  lemma Counts(pcs: map<Co, Pc>)
    ensures TallyOf(pcs).NonNegative()
  {
  }

  /** unlock() issues one reader grant for each reader registered behind the writer. */
  lemma UnlockGrantsAllBehind(run: seq<State>, i: nat, w: Co)
    requires IsRun(run) && i < |run| && w in run[i].pcs && run[i].pcs[w].WIn?
    ensures Step(run[i], w, Choice(false)).pcs[w] == WPost(Count(run[i].pcs, IsBehind))
    ensures run[i].readerPermits == 0
  {
    hide Count;
    RunsKeepInv(run, i);
    Inside(run[i], w);
    Counts(run[i].pcs);
  }

  /** With no writer announced and no grant left to post, every registered reader that
      waits has a permit waiting for it. */
  lemma NoReaderIsStranded(run: seq<State>, i: nat)
    requires IsRun(run) && i < |run|
    ensures var s := run[i]; var t := TallyOf(s.pcs);
            t.Announced() == 0 && t.granting == 0 ==> t.behind == s.readerPermits
  {
    RunsKeepInv(run, i);
  }
}
