/** Whom the mutex wakes, and to whom starvation mode gives the lock: a history beside the runs of
the mutex, which looks at program points and outcomes of waits and at none of the variables of
lockSlow. */
module MutexOrder {

  import opened Common
  import opened Counting
  import opened Mutex

  /** When a coroutine was parked last, and whether it had been in wait() before in that lock(). */
  datatype Entry = Entry(time: nat, repeat: bool)

  /** again: who has been in wait() since its lock() began; late: whose wait() in this lock() was too
      long; entries: the last parking of each. */
  datatype History = History(time: nat, again: set<Co>, late: set<Co>, entries: map<Co, Entry>)

  function Noted(h: History, c: Co, from: Pc, to: Pc, e: Choice): History {
    History(h.time + 1,
            if to.Holding? then h.again - {c} else if from.WaitCrit? then h.again + {c} else h.again,
            if to.Holding? then h.late - {c} else if from.AfterWait? && e.timedOut then h.late + {c} else h.late,
            if from.WaitCrit? && to.Parked? then h.entries[c := Entry(h.time, c in h.again)] else h.entries)
  }

  /** Coroutines that waited before come first, the latest of them foremost; then the newcomers in
      the order of their arrival. */
  predicate Before(a: Entry, b: Entry) {
    if a.repeat != b.repeat then a.repeat else if a.repeat then a.time > b.time else a.time < b.time
  }

  datatype Move = Move(c: Co, e: Choice)

  ghost predicate IsLog(run: seq<State>, hist: seq<History>, moves: seq<Move>) {
    && |run| == |hist| == |moves| + 1 && Init(run[0]) && hist[0] == History(0, {}, {}, map[])
    && forall i | 0 <= i < |moves| :: Follows(run[i], hist[i], moves[i], run[i + 1], hist[i + 1])
  }

  ghost predicate Follows(s: State, h: History, m: Move, s': State, h': History) {
    && m.c in s.pcs && s' == Step(s, m.c, m.e)
    && h' == Noted(h, m.c, s.pcs[m.c], s'.pcs[m.c], m.e)
  }

  /** The variables of lockSlow, while it has any. */
  function LocalsOf(pc: Pc): Option<Locals> {
    if pc.SlowLoad? || pc.SlowLoop? || pc.WaitLock? || pc.WaitCrit? || pc.Parked? || pc.AfterWait? || pc.HandOff?
    then Some(pc.l) else Option.None
  }

  /** What a coroutine knows of its waits is what happened. */
  predicate Remembers(h: History, c: Co, pc: Pc) {
    match LocalsOf(pc)
    case None => c !in h.again && c !in h.late
    case Some(l) => (l.waited <==> c in h.again) && (l.starving <==> c in h.late)
  }

  ghost predicate Remembered(s: State, h: History) {
    forall c | c in s.pcs :: Remembers(h, c, s.pcs[c])
  }

  ghost predicate Ordered(queue: seq<Co>, h: History) {
    && (forall i | 0 <= i < |queue| :: queue[i] in h.entries && h.entries[queue[i]].time < h.time)
    && (forall i, j | 0 <= i < j < |queue| :: Before(h.entries[queue[i]], h.entries[queue[j]]))
  }

  lemma StepKeepsRemembered(s: State, h: History, m: Move, s': State, h': History)
    requires Follows(s, h, m, s', h') && Remembered(s, h) && s'.pcs[m.c] != Aborted
    ensures Remembered(s', h')
  {
    var pc, pc' := s.pcs[m.c], s'.pcs[m.c];
    LocalsMove(s, m.c, m.e);
    hide Step;
    assert Remembers(h, m.c, pc);
    forall c | c in s'.pcs && c != m.c
      ensures Remembers(h', c, s'.pcs[c])
    {
      assert Remembers(h, c, s.pcs[c]);
    }
  }

  /** A wait marks waited; its outcome marks starving; and only the lock itself ends the memory. */
  predicate LocalsFollow(from: Pc, to: Pc, e: Choice) {
    match LocalsOf(to)
    case None => LocalsOf(from).None? || to.Holding?
    case Some(l') =>
      if from.FastCas? then !l'.waited && !l'.starving
      else
        && LocalsOf(from).Some? && l'.waited == (LocalsOf(from).value.waited || from.WaitCrit?)
        && l'.starving == (LocalsOf(from).value.starving || (from.AfterWait? && e.timedOut))
  }

  lemma LocalsMove(s: State, c: Co, e: Choice)
    requires c in s.pcs && Step(s, c, e).pcs[c] != Aborted
    ensures LocalsFollow(s.pcs[c], Step(s, c, e).pcs[c], e)
  {
    hide Step, LocalsFollow, LocalsOf;
    var pc := s.pcs[c];
    if pc.SlowLoop? {
      LoopIsStep(s, c, e);
      LoopLocals(s, c, e, pc.l, pc.view);
    } else if pc.WaitCrit? || pc.AfterWait? {
      ReturnLocals(s, c, e);
    } else if pc.Holding? {
      UnlockLocals(s, c, e);
    } else if pc.UnlockLoop? || pc.PostCrit? {
      WakeLocals(s, c, e);
    } else if pc.SlowLoad? || pc.HandOff? {
      LoadLocals(s, c, e);
    } else if pc.WaitLock? || pc.Parked? {
      KeptLocals(s, c, e);
    } else {
      NoLocals(s, c, e);
    }
  }

  lemma LoopIsStep(s: State, c: Co, e: Choice)
    requires c in s.pcs && s.pcs[c].SlowLoop?
    ensures Step(s, c, e) == LoopStep(s, c, e, s.pcs[c].l, s.pcs[c].view)
  {
    hide LoopStep, WaitStep, ReturnStep, UnlockStep, WakeStep, PostStep, Pack, Unpack, Add;
  }

  lemma LoadLocals(s: State, c: Co, e: Choice)
    requires c in s.pcs && (s.pcs[c].SlowLoad? || s.pcs[c].HandOff?)
    ensures LocalsFollow(s.pcs[c], Step(s, c, e).pcs[c], e)
  {
    hide LoopStep, WaitStep, ReturnStep, UnlockStep, WakeStep, PostStep, Pack, Unpack, Add;
  }

  lemma KeptLocals(s: State, c: Co, e: Choice)
    requires c in s.pcs && (s.pcs[c].WaitLock? || s.pcs[c].Parked?)
    ensures LocalsFollow(s.pcs[c], Step(s, c, e).pcs[c], e)
  {
    hide LoopStep, WaitStep, ReturnStep, UnlockStep, WakeStep, PostStep, Pack, Unpack, Add;
    assert LocalsOf(Step(s, c, e).pcs[c]) == Some(s.pcs[c].l);
  }

  lemma NoLocals(s: State, c: Co, e: Choice)
    requires c in s.pcs && Step(s, c, e).pcs[c] != Aborted
    requires var pc := s.pcs[c];
             pc.Idle? || pc.FastCas? || pc.UnlockLoad? || pc.PostLock? || pc.PostResume? || pc.Aborted?
    ensures LocalsFollow(s.pcs[c], Step(s, c, e).pcs[c], e)
  {
    hide LoopStep, WaitStep, ReturnStep, UnlockStep, WakeStep, PostStep, Pack, Unpack, Add;
  }

  lemma UnlockLocals(s: State, c: Co, e: Choice)
    requires c in s.pcs && s.pcs[c].Holding?
    ensures LocalsFollow(s.pcs[c], Step(s, c, e).pcs[c], e)
  {
    hide LoopStep, WaitStep, ReturnStep, WakeStep, PostStep, Pack, Unpack, Add;
  }

  lemma WakeLocals(s: State, c: Co, e: Choice)
    requires c in s.pcs && (s.pcs[c].UnlockLoop? || s.pcs[c].PostCrit?)
    ensures LocalsFollow(s.pcs[c], Step(s, c, e).pcs[c], e)
  {
    hide LoopStep, WaitStep, ReturnStep, UnlockStep, Pack, Unpack, Add;
  }

  lemma ReturnLocals(s: State, c: Co, e: Choice)
    requires c in s.pcs && (s.pcs[c].WaitCrit? || s.pcs[c].AfterWait?) && Step(s, c, e).pcs[c] != Aborted
    ensures LocalsFollow(s.pcs[c], Step(s, c, e).pcs[c], e)
  {
    hide LoopStep, UnlockStep, WakeStep, PostStep, Pack, Unpack, Add;
  }

  lemma LoopLocals(s: State, c: Co, e: Choice, l: Locals, view: Word)
    requires c in s.pcs && s.pcs[c] == SlowLoop(l, view) && LoopStep(s, c, e, l, view).pcs[c] != Aborted
    ensures LocalsFollow(SlowLoop(l, view), LoopStep(s, c, e, l, view).pcs[c], e)
  {
    hide Acquired;
  }

  /** The park list changes by one parking, at the end that the history asks for, or by one post. */
  lemma QueueMoves(s: State, h: History, m: Move, s': State, h': History)
    requires Follows(s, h, m, s', h') && Remembered(s, h)
    ensures var c, q := m.c, s.queue;
            if s.pcs[c].WaitCrit? && s'.pcs[c].Parked? then s'.queue == if c in h.again then [c] + q else q + [c]
            else if s.pcs[c].PostCrit? && q != [] then s'.queue == q[1..] && s'.pcs[c] == PostResume(q[0])
            else s'.queue == q
  {
    hide Acquired, Add, Pack, Unpack;
    assert Remembers(h, m.c, s.pcs[m.c]);
  }

  lemma StepKeepsOrdered(s: State, h: History, m: Move, s': State, h': History)
    requires Follows(s, h, m, s', h') && Remembered(s, h) && Ordered(s.queue, h) && Inv(s)
    ensures Ordered(s'.queue, h')
  {
    hide Inv, Step, Remembered, Ordered;
    QueueMoves(s, h, m, s', h');
    if s.pcs[m.c].WaitCrit? && s'.pcs[m.c].Parked? {
      NotParked(s, m.c);
      Parks(s.queue, h, m.c, h');
    } else {
      Stays(s.queue, h, h');
    }
  }

  lemma Stays(queue: seq<Co>, h: History, h': History)
    requires Ordered(queue, h) && h'.time == h.time + 1 && h'.entries == h.entries
    ensures Ordered(queue, h') && (queue != [] ==> Ordered(queue[1..], h'))
  {
  }

  lemma NotParked(s: State, c: Co)
    requires Inv(s) && c in s.pcs && s.pcs[c].WaitCrit?
    ensures c !in s.queue
  {
    hide Modes, Locally, NobodyStranded, ParkCounts;
  }

  lemma Parks(queue: seq<Co>, h: History, c: Co, h': History)
    requires Ordered(queue, h) && c !in queue
    requires h'.time == h.time + 1 && h'.entries == h.entries[c := Entry(h.time, c in h.again)]
    ensures Ordered(if c in h.again then [c] + queue else queue + [c], h')
  {
    var last := h'.entries[c];
    forall i | 0 <= i < |queue|
      ensures queue[i] in h'.entries && h'.entries[queue[i]] == h.entries[queue[i]]
      ensures if c in h.again then Before(last, h'.entries[queue[i]]) else Before(h'.entries[queue[i]], last)
    {
      assert queue[i] != c;
    }
    assert Ordered(queue, h');
    hide Before;
    if c in h.again { InFront(queue, c, h'); } else { Behind(queue, c, h'); }
  }

  lemma InFront(queue: seq<Co>, c: Co, h: History)
    requires Ordered(queue, h) && c in h.entries && h.entries[c].time < h.time
    requires forall i | 0 <= i < |queue| :: Before(h.entries[c], h.entries[queue[i]])
    ensures Ordered([c] + queue, h)
  {
    hide Before;
    assert forall i | 0 < i < |queue| + 1 :: ([c] + queue)[i] == queue[i - 1];
  }

  lemma Behind(queue: seq<Co>, c: Co, h: History)
    requires Ordered(queue, h) && c in h.entries && h.entries[c].time < h.time
    requires forall i | 0 <= i < |queue| :: Before(h.entries[queue[i]], h.entries[c])
    ensures Ordered(queue + [c], h)
  {
    hide Before;
  }

  lemma {:induction false} LogsAreOrdered(run: seq<State>, hist: seq<History>, moves: seq<Move>, n: nat)
    requires IsLog(run, hist, moves) && n < |run|
    ensures Inv(run[n]) && Remembered(run[n], hist[n]) && Ordered(run[n].queue, hist[n])
  {
    hide Inv, Step, Remembered, Ordered;
    if n == 0 {
      InitInv(run[0]);
      Starts(run[0]);
    } else {
      LogsAreOrdered(run, hist, moves, n - 1);
      var s, m := run[n - 1], moves[n - 1];
      assert Follows(s, hist[n - 1], m, run[n], hist[n]);
      StepKeepsInv(s, m.c, m.e);
      NotAborted(run[n], m.c);
      StepKeepsRemembered(s, hist[n - 1], m, run[n], hist[n]);
      StepKeepsOrdered(s, hist[n - 1], m, run[n], hist[n]);
    }
  }

  lemma Starts(s: State)
    requires Init(s)
    ensures Remembered(s, History(0, {}, {}, map[])) && Ordered(s.queue, History(0, {}, {}, map[]))
  {
  }

  /** In every run the park list is in that order, and a post wakes the first of it: among newcomers
      the one that was parked first, and anyone that waited before ahead of all newcomers. */
  lemma WokenInOrder(run: seq<State>, hist: seq<History>, moves: seq<Move>, n: nat)
    requires IsLog(run, hist, moves) && n < |moves|
    ensures Ordered(run[n].queue, hist[n])
    ensures var c, q := moves[n].c, run[n].queue;
            c in run[n].pcs && run[n].pcs[c].PostCrit? && q != [] ==>
              && run[n + 1].pcs[c] == PostResume(q[0]) && run[n + 1].queue == q[1..]
              && forall x | x in q && x != q[0] :: Before(hist[n].entries[q[0]], hist[n].entries[x])
  {
    LogsAreOrdered(run, hist, moves, n);
    assert Follows(run[n], hist[n], moves[n], run[n + 1], hist[n + 1]);
    QueueMoves(run[n], hist[n], moves[n], run[n + 1], hist[n + 1]);
  }

  /** In every run a coroutine whose wait was too long, and that has to queue again, leaves the mutex
      in starvation mode. */
  lemma StarvationIsDeclared(run: seq<State>, hist: seq<History>, moves: seq<Move>, n: nat)
    requires IsLog(run, hist, moves) && n < |moves| && moves[n].c in run[n].pcs && moves[n].c in hist[n].late
    requires run[n].pcs[moves[n].c].SlowLoop? && run[n + 1].pcs[moves[n].c].WaitLock?
    ensures run[n + 1].word.starving
  {
    LogsAreOrdered(run, hist, moves, n);
    var c := moves[n].c;
    assert Follows(run[n], hist[n], moves[n], run[n + 1], hist[n + 1]);
    assert Remembers(hist[n], c, run[n].pcs[c]);
    AcquiredForm(run[n].pcs[c].l, run[n].pcs[c].view);
    hide Inv, Acquired, Remembered, Ordered;
  }

  /** In every run starvation mode hands the lock over: nobody gets it but a coroutine that returned
      from wait(), and the mode ends exactly if that one was not late or saw itself the last waiter. */
  lemma StarvationHandsOver(run: seq<State>, hist: seq<History>, moves: seq<Move>, n: nat)
    requires IsLog(run, hist, moves) && n < |moves| && moves[n].c in run[n].pcs && run[n].word.starving
    requires !run[n].pcs[moves[n].c].Holding? && run[n + 1].pcs[moves[n].c].Holding?
    ensures var pc := run[n].pcs[moves[n].c];
            pc.HandOff? && (run[n + 1].word.starving <==> moves[n].c in hist[n].late && pc.view.waiters != 1)
  {
    LogsAreOrdered(run, hist, moves, n);
    var s, c := run[n], moves[n].c;
    assert Follows(s, hist[n], moves[n], run[n + 1], hist[n + 1]);
    assert Remembers(hist[n], c, s.pcs[c]);
    InvParts(s, c);
    hide Inv, Remembered, Ordered, Parking, Locally, TallyOf;
    Acquirers(s, c, moves[n].e);
    HandOffArithmetic(s.word);
    hide Add;
  }

  /** The three ways to get the lock. */
  lemma Acquirers(s: State, c: Co, e: Choice)
    requires c in s.pcs && !s.pcs[c].Holding? && Step(s, c, e).pcs[c].Holding?
    ensures || (s.pcs[c].FastCas? && Pack(s.word) == 0)
            || (s.pcs[c].SlowLoop? && !s.word.locked && !s.word.starving)
            || s.pcs[c].HandOff?
  {
    hide Acquired, Add, Pack, Unpack;
  }

  // ----- one coroutine at a time -----

  const PLAIN: Choice := Choice(false, false, false)

  /** n steps of c alone, without spurious failures. */
  function Alone(s: State, c: Co, n: nat): (r: State)
    requires c in s.pcs
    ensures c in r.pcs
  {
    if n == 0 then s else Step(Alone(s, c, n - 1), c, PLAIN)
  }

  /** Where nobody else is about, lock() gets the mutex in two steps and unlock() leaves no trace. */
  lemma UncontendedLock(s: State, c: Co)
    requires c in s.pcs && s.pcs[c] == Idle && Pack(s.word) == 0
    ensures Alone(s, c, 2).pcs[c] == Holding && Alone(s, c, 2).word.locked && Alone(s, c, 3) == s
  {
    hide Pack, Unpack, Add, Step, Alone;
    var held := s.(word := Word(true, false, false, 0));
    Enters(s, c);
    FastLock(To(s, c, FastCas), c);
    FastUnlock(To(held, c, Holding), c);
    PackedArithmetic(s.word);
    Overwritten(s.pcs, c, FastCas, Holding);
    Overwritten(s.pcs, c, Holding, Idle);
    AloneNext(s, c, 0);
    AloneNext(s, c, 1);
    AloneNext(s, c, 2);
  }

  lemma Enters(s: State, c: Co)
    requires c in s.pcs && s.pcs[c] == Idle
    ensures Alone(s, c, 0) == s && Step(s, c, PLAIN) == To(s, c, FastCas)
  {
    hide LoopStep, WaitStep, ReturnStep, UnlockStep, WakeStep, PostStep, Pack, Unpack, Add;
  }

  lemma Loads(s: State, c: Co)
    requires c in s.pcs && s.pcs[c].SlowLoad?
    ensures Alone(s, c, 0) == s && Step(s, c, PLAIN) == To(s, c, SlowLoop(s.pcs[c].l, s.word))
  {
    hide LoopStep, WaitStep, ReturnStep, UnlockStep, WakeStep, PostStep, Pack, Unpack, Add;
  }

  lemma FastLock(s: State, c: Co)
    requires c in s.pcs && s.pcs[c] == FastCas && Pack(s.word) == 0
    ensures Step(s, c, PLAIN) == To(s.(word := Word(true, false, false, 0)), c, Holding)
  {
    UnpackOne();
    hide LoopStep, WaitStep, ReturnStep, UnlockStep, WakeStep, PostStep, Pack, Unpack, Add;
  }

  lemma FastUnlock(s: State, c: Co)
    requires c in s.pcs && s.pcs[c] == Holding && s.word == Word(true, false, false, 0)
    ensures Step(s, c, PLAIN) == To(s.(word := Word(false, false, false, 0)), c, Idle)
  {
    PackedArithmetic(s.word);
    PackedArithmetic(Word(false, false, false, 0));
    hide LoopStep, WaitStep, ReturnStep, WakeStep, PostStep, Pack, Unpack, Add;
  }

  /** A mutex that is neither locked nor being handed over is taken in two steps. */
  lemma FreeIsTaken(s: State, c: Co)
    requires Inv(s) && c in s.pcs && s.pcs[c].SlowLoad? && !s.word.locked && !s.word.starving
    ensures Alone(s, c, 2).pcs[c] == Holding && Alone(s, c, 2).word.locked
  {
    var l := s.pcs[c].l;
    if l.awoke { AwakeHasFlag(s, c); }
    LoopTakes(To(s, c, SlowLoop(l, s.word)), c, l);
    Loads(s, c);
    hide Inv, Step;
    AloneNext(s, c, 0);
    AloneNext(s, c, 1);
  }

  lemma AwakeHasFlag(s: State, c: Co)
    requires Inv(s) && c in s.pcs && s.pcs[c].SlowLoad? && !s.word.starving && s.pcs[c].l.awoke
    ensures s.word.woken
  {
    hide Parking, Locally, ParkCounts, NobodyStranded;
    CountHas(s.pcs, c, IsAwake);
  }

  lemma LoopTakes(s: State, c: Co, l: Locals)
    requires c in s.pcs && s.pcs[c] == SlowLoop(l, s.word) && !s.word.locked && !s.word.starving
    requires l.awoke ==> s.word.woken
    ensures Step(s, c, PLAIN).pcs[c] == Holding && Step(s, c, PLAIN).word.locked
  {
    AcquiredForm(l, s.word);
    hide Acquired, Pack, Unpack, Add, WaitStep, ReturnStep, UnlockStep, WakeStep, PostStep;
  }

  /** unlock() with coroutines parked, and no wake-up under way, sends the first of them its resume
      record: by five steps in normal mode, by four as a hand-off. */
  lemma UnlockWakesFirst(s: State, c: Co)
    requires Inv(s) && c in s.pcs && s.pcs[c] == Holding && s.queue != [] && !s.waitlock && !s.word.woken
    ensures var r := Alone(s, c, if s.word.starving then 4 else 5);
            r.pcs[c] == Idle && s.queue[0] in r.resumed && r.queue == s.queue[1..]
  {
    ParkedAreCounted(s, c);
    FlaglessAfter(s.word);
    UnlockOpens(s, c);
    hide *;
    var s1 := Alone(s, c, 1);
    if s.word.starving {
      PostWakesFirst(s, s1, c, 1);
    } else {
      WakeGrants(s1, c);
      AloneNext(s, c, 1);
      PostWakesFirst(s, Alone(s, c, 2), c, 2);
    }
  }

  lemma AloneNext(s: State, c: Co, n: nat)
    requires c in s.pcs
    ensures Alone(s, c, n + 1) == Step(Alone(s, c, n), c, PLAIN)
  {
  }

  lemma FlaglessAfter(w: Word)
    ensures !w.woken && !w.starving ==> !w.(locked := false).Flagged()
  {
  }

  lemma UnlockOpens(s: State, c: Co)
    requires c in s.pcs && s.pcs[c] == Holding && s.word.locked && s.word.waiters > 0
    ensures var s1 := Alone(s, c, 1); var w := s.word.(locked := false);
            && s1.queue == s.queue && s1.waitlock == s.waitlock && s1.word == w
            && s1.pcs[c] == if w.starving then PostLock else UnlockLoop(w)
  {
    hide Step, UnlockStep, Alone;
    AloneNext(s, c, 0);
    UnlockIsStep(s, c);
    UnlockLeaves(s, c);
  }

  lemma UnlockIsStep(s: State, c: Co)
    requires c in s.pcs && s.pcs[c] == Holding
    ensures Alone(s, c, 0) == s && Step(s, c, PLAIN) == UnlockStep(s, c)
  {
    hide LoopStep, WaitStep, ReturnStep, UnlockStep, WakeStep, PostStep, Pack, Unpack, Add;
  }

  lemma UnlockLeaves(s: State, c: Co)
    requires c in s.pcs && s.word.locked && s.word.waiters > 0
    ensures var s1 := UnlockStep(s, c); var w := s.word.(locked := false);
            && s1.queue == s.queue && s1.waitlock == s.waitlock && s1.word == w
            && s1.pcs[c] == if w.starving then PostLock else UnlockLoop(w)
  {
    hide Pack, Unpack, Add;
    PackedArithmetic(s.word);
    PackedArithmetic(s.word.(locked := false));
  }

  lemma WakeGrants(s: State, c: Co)
    requires c in s.pcs && s.pcs[c] == UnlockLoop(s.word) && s.word.waiters > 0 && !s.word.Flagged()
    ensures var r := Step(s, c, PLAIN);
            r.queue == s.queue && r.waitlock == s.waitlock && c in r.pcs && r.pcs[c] == PostLock
  {
    hide LoopStep, WaitStep, ReturnStep, UnlockStep, PostStep, Pack, Unpack, Add;
  }

  lemma PostWakesFirst(s: State, p: State, c: Co, n: nat)
    requires c in s.pcs && c in p.pcs && p == Alone(s, c, n)
    requires p.pcs[c] == PostLock && p.queue != [] && !p.waitlock
    ensures var r := Alone(s, c, n + 3);
            r.pcs[c] == Idle && p.queue[0] in r.resumed && r.queue == p.queue[1..]
  {
    var p1 := Step(p, c, PLAIN);
    var p2 := Step(p1, c, PLAIN);
    assert Alone(s, c, n + 1) == p1 && p1.pcs[c] == PostCrit && p1.queue == p.queue;
    assert Alone(s, c, n + 2) == p2 && p2.pcs[c] == PostResume(p.queue[0]) && p2.queue == p.queue[1..];
  }

  /** While somebody is parked the holder's word counts a waiter. */
  lemma ParkedAreCounted(s: State, c: Co)
    requires Inv(s) && c in s.pcs && s.pcs[c] == Holding && s.queue != [] && !s.word.woken
    ensures s.word.locked && s.word.waiters > 0
  {
    hide Parking, Locally, NobodyStranded;
    CountHas(s.pcs, c, IsHolding);
    CountDisjoint(s.pcs, IsParked, Mutex.None, IsWaiting);
    Recount(s.pcs, c, s.pcs[c]);
  }
}
