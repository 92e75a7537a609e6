/** The compare-exchange semaphore: res_ holds the free units, or -1 while one
coroutine works on the waiter list. */
module Semaphore {
  import opened Common
  import opened Counting
  import opened Primitives

  datatype Pc =
    | Idle
    | WaitLoad
    | WaitTry(v: int)
    | WaitCrit
    | Parked
    | PostLoad
    | PostTry(v: int)
    | PostCrit
    | PostResume(target: Co)

  /** initial is the constructor's count; posts and waits count the completed post()s
      and the wait()s that got their unit. */
  datatype State = State(initial: nat, res: int, queue: seq<Co>, resumed: multiset<Co>,
                         posts: nat, waits: nat, pcs: map<Co, Pc>)

  datatype Choice = Choice(spurious: bool, post: bool)

  function To(s: State, c: Co, pc: Pc): State {
    s.(pcs := s.pcs[c := pc])
  }

  function WaitTryStep(s: State, c: Co, e: Choice, v: int): State {
    if v < 0 || s.res != v || e.spurious then To(s, c, WaitLoad)
    else if v == 0 then To(s.(res := -1), c, WaitCrit)
    else To(s.(res := v - 1, waits := s.waits + 1), c, Idle)
  }

  function PostTryStep(s: State, c: Co, e: Choice, v: int): State {
    if v < 0 || s.res != v || e.spurious then To(s, c, PostLoad)
    else if v == 0 then To(s.(res := -1), c, PostCrit)
    else To(s.(res := v + 1, posts := s.posts + 1), c, Idle)
  }

  function PostCritStep(s: State, c: Co): State {
    var p := s.(posts := s.posts + 1);
    if s.queue == [] then To(p.(res := 1), c, Idle)
    else To(p.(queue := s.queue[1..], res := 0), c, PostResume(s.queue[0]))
  }

  function Step(s: State, c: Co, e: Choice): (r: State)
    requires c in s.pcs
    ensures c in r.pcs && r.pcs == s.pcs[c := r.pcs[c]]
  {
    match s.pcs[c]
    case Idle => To(s, c, if e.post then PostLoad else WaitLoad)
    case WaitLoad => To(s, c, WaitTry(s.res))
    case WaitTry(v) => WaitTryStep(s, c, e, v)
    case WaitCrit => To(s.(queue := s.queue + [c], res := 0), c, Parked)
    case Parked =>
      if c in s.resumed
      then To(s.(resumed := s.resumed - multiset{c}, waits := s.waits + 1), c, Idle)
      else s
    case PostLoad => To(s, c, PostTry(s.res))
    case PostTry(v) => PostTryStep(s, c, e, v)
    case PostCrit => PostCritStep(s, c)
    case PostResume(t) => To(s.(resumed := s.resumed + multiset{t}), c, Idle)
  }

  ghost predicate Init(s: State) {
    && s.res == s.initial && s.queue == [] && s.resumed == multiset{} && s.posts == 0 && s.waits == 0
    && forall c | c in s.pcs :: s.pcs[c] == Idle
  }

  ghost predicate Next(s: State, s': State) {
    exists c, e :: c in s.pcs && s' == Step(s, c, e)
  }

  ghost predicate IsRun(run: seq<State>) {
    && |run| > 0 && Init(run[0])
    && forall i | 0 < i < |run| :: Next(run[i - 1], run[i])
  }

  predicate InCrit(pc: Pc) { pc.WaitCrit? || pc.PostCrit? }
  predicate IsResuming(pc: Pc) { pc.PostResume? }

  function Targets(t: Co): Pc -> bool {
    (pc: Pc) => pc == PostResume(t)
  }

  /** Units a wait() may still take: free ones and those granted to a parked coroutine. */
  function Permits(s: State): int {
    (if s.res > 0 then s.res else 0) + Count(s.pcs, IsResuming) + |s.resumed|
  }

  /** In how many places a coroutine is due to be resumed from. */
  function Places(s: State, c: Co): nat {
    multiset(s.queue)[c] + s.resumed[c] + Count(s.pcs, Targets(c))
  }

  ghost predicate Inv(s: State) {
    && s.res >= -1
    && Count(s.pcs, InCrit) == Bit(s.res == -1)
    && (s.res > 0 ==> s.queue == [])
    && s.initial + s.posts == s.waits + Permits(s)
    && Placed(s)
  }

  /** A parked coroutine is due from exactly one place, any other from none. */
  ghost predicate Placed(s: State) {
    forall c :: Places(s, c) == Bit(c in s.pcs && s.pcs[c].Parked?)
  }

  lemma InitInv(s: State)
    requires Init(s)
    ensures Inv(s)
  {
    CountNone(s.pcs, InCrit);
    CountNone(s.pcs, IsResuming);
    forall c
      ensures Places(s, c) == Bit(c in s.pcs && s.pcs[c].Parked?)
    {
      CountNone(s.pcs, Targets(c));
    }
  }

  lemma Recount(pcs: map<Co, Pc>, c: Co, pc: Pc)
    requires c in pcs
    ensures Count(pcs[c := pc], InCrit) == Count(pcs, InCrit) - Bit(InCrit(pcs[c])) + Bit(InCrit(pc))
    ensures Count(pcs[c := pc], IsResuming) == Count(pcs, IsResuming) - Bit(IsResuming(pcs[c])) + Bit(IsResuming(pc))
    ensures forall t :: Count(pcs[c := pc], Targets(t)) ==
                        Count(pcs, Targets(t)) - Bit(pcs[c] == PostResume(t)) + Bit(pc == PostResume(t))
  {
    hide Count;
    CountUpdate(pcs, c, pc, InCrit);
    CountUpdate(pcs, c, pc, IsResuming);
    forall t
      ensures Count(pcs[c := pc], Targets(t)) ==
              Count(pcs, Targets(t)) - Bit(pcs[c] == PostResume(t)) + Bit(pc == PostResume(t))
    {
      CountUpdate(pcs, c, pc, Targets(t));
    }
  }

  /** c's move changed the list and the records by dq and dr. */
  lemma MoveKeepsPlaced(s: State, c: Co, s': State, x: Co, dq: int, dr: int)
    requires Placed(s) && c in s.pcs && c in s'.pcs && s'.pcs == s.pcs[c := s'.pcs[c]]
    requires multiset(s'.queue)[x] == multiset(s.queue)[x] + dq && s'.resumed[x] == s.resumed[x] + dr
    requires dq + dr - Bit(s.pcs[c] == PostResume(x)) + Bit(s'.pcs[c] == PostResume(x)) ==
             if x == c then Bit(s'.pcs[c].Parked?) - Bit(s.pcs[c].Parked?) else 0
    ensures Places(s', x) == Bit(x in s'.pcs && s'.pcs[x].Parked?)
  {
    hide Count;
    Recount(s.pcs, c, s'.pcs[c]);
    assert Places(s, x) == Bit(x in s.pcs && s.pcs[x].Parked?);
  }

  /** The invariant but for the places, over the two counts it uses. */
  predicate Ledger(s: State, crit: int, resuming: int) {
    && s.res >= -1
    && crit == Bit(s.res == -1)
    && (s.res > 0 ==> s.queue == [])
    && s.initial + s.posts == s.waits + (if s.res > 0 then s.res else 0) + resuming + |s.resumed|
  }

  lemma Settle(s: State, c: Co, s': State)
    requires Inv(s) && c in s.pcs && c in s'.pcs && s'.pcs == s.pcs[c := s'.pcs[c]]
    requires forall crit: nat, resuming: nat ::
               crit >= Bit(InCrit(s.pcs[c])) && Ledger(s, crit, resuming) ==>
                 Ledger(s', crit - Bit(InCrit(s.pcs[c])) + Bit(InCrit(s'.pcs[c])),
                        resuming - Bit(IsResuming(s.pcs[c])) + Bit(IsResuming(s'.pcs[c])))
    requires Placed(s')
    ensures Inv(s')
  {
    hide Count, Placed;
    Recount(s.pcs, c, s'.pcs[c]);
    Recount(s.pcs, c, Idle);
    assert Ledger(s, Count(s.pcs, InCrit), Count(s.pcs, IsResuming));
  }

  /** A move between points that own neither the list nor a unit. */
  lemma QuietMove(s: State, c: Co, s': State)
    requires Inv(s) && c in s.pcs && c in s'.pcs
             && s' == s.(res := s'.res, posts := s'.posts, waits := s'.waits, pcs := s.pcs[c := s'.pcs[c]])
    requires !IsResuming(s.pcs[c]) && !IsResuming(s'.pcs[c]) && !s.pcs[c].Parked? && !s'.pcs[c].Parked?
    requires s'.res >= -1 && Bit(s'.res == -1) - Bit(InCrit(s'.pcs[c])) == Bit(s.res == -1) - Bit(InCrit(s.pcs[c]))
    requires s'.res > 0 ==> s.queue == []
    requires s'.posts - s.posts - (s'.waits - s.waits) ==
             (if s'.res > 0 then s'.res else 0) - (if s.res > 0 then s.res else 0)
    ensures Inv(s')
  {
    hide Count;
    forall x
      ensures Places(s', x) == Bit(x in s'.pcs && s'.pcs[x].Parked?)
    {
      MoveKeepsPlaced(s, c, s', x, 0, 0);
    }
    Settle(s, c, s');
  }

  lemma QueueKeepsInv(s: State, c: Co)
    requires Inv(s) && c in s.pcs && s.pcs[c] == WaitCrit
    ensures Inv(To(s.(queue := s.queue + [c], res := 0), c, Parked))
  {
    hide Count;
    var s' := To(s.(queue := s.queue + [c], res := 0), c, Parked);
    forall x
      ensures Places(s', x) == Bit(x in s'.pcs && s'.pcs[x].Parked?)
    {
      PushCount(s.queue, c, x);
      MoveKeepsPlaced(s, c, s', x, Bit(x == c), 0);
    }
    Settle(s, c, s');
  }

  lemma ResumedKeepsInv(s: State, c: Co)
    requires Inv(s) && c in s.pcs && s.pcs[c] == Parked && c in s.resumed
    ensures Inv(To(s.(resumed := s.resumed - multiset{c}, waits := s.waits + 1), c, Idle))
  {
    hide Count;
    var s' := To(s.(resumed := s.resumed - multiset{c}, waits := s.waits + 1), c, Idle);
    assert |s.resumed| == |s'.resumed| + 1;
    forall x
      ensures Places(s', x) == Bit(x in s'.pcs && s'.pcs[x].Parked?)
    {
      MoveKeepsPlaced(s, c, s', x, 0, if x == c then -1 else 0);
    }
    Settle(s, c, s');
  }

  lemma PopKeepsInv(s: State, c: Co)
    requires Inv(s) && c in s.pcs && s.pcs[c] == PostCrit && s.queue != []
    ensures Inv(PostCritStep(s, c))
  {
    hide Count;
    var s' := PostCritStep(s, c);
    forall x
      ensures Places(s', x) == Bit(x in s'.pcs && s'.pcs[x].Parked?)
    {
      PopCount(s.queue, x);
      MoveKeepsPlaced(s, c, s', x, 0 - Bit(x == s.queue[0]), 0);
    }
    Settle(s, c, s');
  }

  lemma RecordKeepsInv(s: State, c: Co, t: Co)
    requires Inv(s) && c in s.pcs && s.pcs[c] == PostResume(t)
    ensures Inv(To(s.(resumed := s.resumed + multiset{t}), c, Idle))
  {
    hide Count;
    var s' := To(s.(resumed := s.resumed + multiset{t}), c, Idle);
    forall x
      ensures Places(s', x) == Bit(x in s'.pcs && s'.pcs[x].Parked?)
    {
      MoveKeepsPlaced(s, c, s', x, 0, Bit(x == t));
    }
    Settle(s, c, s');
  }

  lemma InCritHasLock(s: State, c: Co)
    requires Inv(s) && c in s.pcs
    ensures InCrit(s.pcs[c]) ==> s.res == -1
    ensures s.res >= -1 && (s.res > 0 ==> s.queue == [])
  {
    if InCrit(s.pcs[c]) { CountHas(s.pcs, c, InCrit); }
  }

  lemma StepKeepsInv(s: State, c: Co, e: Choice)
    requires Inv(s) && c in s.pcs
    ensures Inv(Step(s, c, e))
  {
    hide Inv, PostCritStep, WaitTryStep, PostTryStep;
    InCritHasLock(s, c);
    match s.pcs[c]
    case WaitCrit => QueueKeepsInv(s, c);
    case Parked => if c in s.resumed { ResumedKeepsInv(s, c); }
    case PostCrit => if s.queue != [] { PopKeepsInv(s, c); } else { RaiseKeepsInv(s, c); }
    case PostResume(t) => RecordKeepsInv(s, c, t);
    case WaitTry(v) => WaitTryKeepsInv(s, c, e, v);
    case PostTry(v) => PostTryKeepsInv(s, c, e, v);
    case Idle => QuietMove(s, c, Step(s, c, e));
    case WaitLoad => QuietMove(s, c, Step(s, c, e));
    case PostLoad => QuietMove(s, c, Step(s, c, e));
  }

  lemma RaiseKeepsInv(s: State, c: Co)
    requires Inv(s) && c in s.pcs && s.pcs[c] == PostCrit && s.queue == []
    ensures Inv(PostCritStep(s, c))
  {
    hide Inv;
    InCritHasLock(s, c);
    QuietMove(s, c, PostCritStep(s, c));
  }

  lemma WaitTryKeepsInv(s: State, c: Co, e: Choice, v: int)
    requires Inv(s) && c in s.pcs && s.pcs[c] == WaitTry(v)
    ensures Inv(WaitTryStep(s, c, e, v))
  {
    hide Inv;
    InCritHasLock(s, c);
    QuietMove(s, c, WaitTryStep(s, c, e, v));
  }

  lemma PostTryKeepsInv(s: State, c: Co, e: Choice, v: int)
    requires Inv(s) && c in s.pcs && s.pcs[c] == PostTry(v)
    ensures Inv(PostTryStep(s, c, e, v))
  {
    hide Inv;
    InCritHasLock(s, c);
    QuietMove(s, c, PostTryStep(s, c, e, v));
  }

  /** What the layers above rely on: a step is a step of the abstract counter. It adds one permit
      per post(), takes one per returning wait(), and nothing else changes their number. */
  lemma RefinesCounter(s: State, c: Co, e: Choice)
    requires Inv(s) && c in s.pcs
    ensures var s' := Step(s, c, e);
            && Permits(s) >= 0 && Permits(s') >= 0 && CounterStep(Permits(s), Permits(s'))
            && Permits(s') - Permits(s) == (s'.posts - s.posts) - (s'.waits - s.waits)
            && s.posts <= s'.posts && s.waits <= s'.waits && s'.posts + s'.waits <= s.posts + s.waits + 1
  {
    hide Placed, Places, Count;
    StepKeepsInv(s, c, e);
    StepBooks(s, c, e);
  }

  lemma StepBooks(s: State, c: Co, e: Choice)
    requires c in s.pcs
    ensures var s' := Step(s, c, e);
            && s'.initial == s.initial
            && s.posts <= s'.posts && s.waits <= s'.waits && s'.posts + s'.waits <= s.posts + s.waits + 1
  {
  }

  lemma {:induction false} RunsKeepInv(run: seq<State>, i: nat)
    requires IsRun(run) && i < |run|
    ensures Inv(run[i])
  {
    if i == 0 {
      InitInv(run[0]);
    } else {
      RunsKeepInv(run, i - 1);
      assert Next(run[i - 1], run[i]);
      var c, e :| c in run[i - 1].pcs && run[i] == Step(run[i - 1], c, e);
      StepKeepsInv(run[i - 1], c, e);
    }
  }

  /** No run hands out more units than it was given, and a unit is free only when no
      coroutine is queued for one. */
  lemma UnitsAreConserved(run: seq<State>, i: nat)
    requires IsRun(run) && i < |run|
    ensures var s := run[i];
            && s.initial + s.posts == s.waits + Permits(s) && Permits(s) >= 0
            && (s.res > 0 ==> s.queue == [])
  {
    RunsKeepInv(run, i);
  }

  /** The list is only ever touched by the one coroutine that set res_ to -1. */
  lemma ListIsGuarded(run: seq<State>, i: nat, a: Co, b: Co)
    requires IsRun(run) && i < |run|
    requires a in run[i].pcs && InCrit(run[i].pcs[a]) && b in run[i].pcs && InCrit(run[i].pcs[b])
    ensures a == b && run[i].res == -1
  {
    RunsKeepInv(run, i);
    CountHas(run[i].pcs, a, InCrit);
    CountUnique(run[i].pcs, a, b, InCrit);
  }

  /** A parked coroutine is queued, or popped by a post, or has its resume record, and
      that in exactly one of the three ways. */
  lemma ParkedIsNotLost(run: seq<State>, i: nat, c: Co)
    requires IsRun(run) && i < |run| && c in run[i].pcs && run[i].pcs[c].Parked?
    ensures var s := run[i];
            multiset(s.queue)[c] + s.resumed[c] + Count(s.pcs, Targets(c)) == 1
  {
    RunsKeepInv(run, i);
    assert Places(run[i], c) == 1;
  }

  // ----- the order of service -----

  /** A history beside a run: when each coroutine was parked last. */
  datatype History = History(time: nat, parked: map<Co, nat>)

  function Noted(h: History, c: Co, from: Pc, to: Pc): History {
    History(h.time + 1, if !from.Parked? && to.Parked? then h.parked[c := h.time] else h.parked)
  }

  datatype Move = Move(c: Co, e: Choice)

  ghost predicate IsLog(run: seq<State>, hist: seq<History>, moves: seq<Move>) {
    && |run| == |hist| == |moves| + 1 && Init(run[0]) && hist[0] == History(0, map[])
    && forall i | 0 <= i < |moves| :: Follows(run[i], hist[i], moves[i], run[i + 1], hist[i + 1])
  }

  ghost predicate Follows(s: State, h: History, m: Move, s': State, h': History) {
    m.c in s.pcs && s' == Step(s, m.c, m.e) && h' == Noted(h, m.c, s.pcs[m.c], s'.pcs[m.c])
  }

  /** The list is in the order of parking. */
  ghost predicate Ordered(queue: seq<Co>, h: History) {
    && (forall i | 0 <= i < |queue| :: queue[i] in h.parked && h.parked[queue[i]] < h.time)
    && (forall i, j | 0 <= i < j < |queue| :: h.parked[queue[i]] < h.parked[queue[j]])
  }

  /** The list changes by one parking at its end or by one post at its front. */
  lemma QueueMoves(s: State, c: Co, e: Choice)
    requires c in s.pcs
    ensures var s' := Step(s, c, e);
            if !s.pcs[c].Parked? && s'.pcs[c].Parked? then s.pcs[c].WaitCrit? && s'.queue == s.queue + [c]
            else if s.pcs[c].PostCrit? && s.queue != [] then
              s'.queue == s.queue[1..] && s'.pcs[c] == PostResume(s.queue[0])
            else s'.queue == s.queue
  {
  }

  lemma StepKeepsOrdered(s: State, h: History, m: Move, s': State, h': History)
    requires Follows(s, h, m, s', h') && Ordered(s.queue, h) && Inv(s)
    ensures Ordered(s'.queue, h')
  {
    hide Inv, Step, Ordered;
    QueueMoves(s, m.c, m.e);
    if !s.pcs[m.c].Parked? && s'.pcs[m.c].Parked? {
      NotParked(s, m.c);
      Parks(s.queue, h, m.c, h');
    } else {
      Stays(s.queue, h, h');
    }
  }

  lemma NotParked(s: State, c: Co)
    requires Inv(s) && c in s.pcs && s.pcs[c].WaitCrit?
    ensures c !in s.queue
  {
    hide Count;
    assert Places(s, c) == 0;
  }

  lemma Parks(queue: seq<Co>, h: History, c: Co, h': History)
    requires Ordered(queue, h) && c !in queue && h' == History(h.time + 1, h.parked[c := h.time])
    ensures Ordered(queue + [c], h')
  {
    assert forall i | 0 <= i < |queue| :: queue[i] != c;
  }

  lemma Stays(queue: seq<Co>, h: History, h': History)
    requires Ordered(queue, h) && h' == History(h.time + 1, h.parked)
    ensures Ordered(queue, h') && (queue != [] ==> Ordered(queue[1..], h'))
  {
  }

  lemma {:induction false} LogsAreOrdered(run: seq<State>, hist: seq<History>, moves: seq<Move>, n: nat)
    requires IsLog(run, hist, moves) && n < |run|
    ensures Inv(run[n]) && Ordered(run[n].queue, hist[n])
  {
    hide Inv, Step, Ordered;
    if n == 0 {
      InitInv(run[0]);
      assert Ordered([], hist[0]) by { NoneParked(hist[0]); }
    } else {
      LogsAreOrdered(run, hist, moves, n - 1);
      var s, m := run[n - 1], moves[n - 1];
      assert Follows(s, hist[n - 1], m, run[n], hist[n]);
      StepKeepsInv(s, m.c, m.e);
      StepKeepsOrdered(s, hist[n - 1], m, run[n], hist[n]);
    }
  }

  lemma NoneParked(h: History)
    ensures Ordered([], h)
  {
  }

  /** In every run a post that finds coroutines parked resumes the one that was parked first. */
  lemma ServedInOrder(run: seq<State>, hist: seq<History>, moves: seq<Move>, n: nat)
    requires IsLog(run, hist, moves) && n < |moves|
    ensures Ordered(run[n].queue, hist[n])
    ensures var c, q := moves[n].c, run[n].queue;
            c in run[n].pcs && run[n].pcs[c].PostCrit? && q != [] ==>
              && run[n + 1].pcs[c] == PostResume(q[0]) && run[n + 1].queue == q[1..]
              && forall x | x in q && x != q[0] :: hist[n].parked[q[0]] < hist[n].parked[x]
  {
    hide Inv, Step;
    LogsAreOrdered(run, hist, moves, n);
    assert Follows(run[n], hist[n], moves[n], run[n + 1], hist[n + 1]);
    QueueMoves(run[n], moves[n].c, moves[n].e);
  }

  /** n steps of c alone, without spurious failures. */
  function Alone(s: State, c: Co, post: bool, n: nat): (r: State)
    requires c in s.pcs
    ensures c in r.pcs
  {
    if n == 0 then s else Step(Alone(s, c, post, n - 1), c, Choice(false, post))
  }

  lemma AloneNext(s: State, c: Co, post: bool, n: nat)
    requires c in s.pcs
    ensures Alone(s, c, post, n + 1) == Step(Alone(s, c, post, n), c, Choice(false, post))
  {
  }

  /** The first two steps: a call and the load of res_. */
  lemma Loads(s: State, c: Co, post: bool)
    requires c in s.pcs && s.pcs[c] == Idle
    ensures Alone(s, c, post, 2) == To(s, c, if post then PostTry(s.res) else WaitTry(s.res))
  {
    hide WaitTryStep, PostTryStep, PostCritStep;
    var s1 := To(s, c, if post then PostLoad else WaitLoad);
    assert Alone(s, c, post, 0) == s && Alone(s, c, post, 1) == s1;
    Overwritten(s.pcs, c, s1.pcs[c], if post then PostTry(s.res) else WaitTry(s.res));
  }

  /** wait() takes a free unit in three steps. */
  lemma UnitIsTaken(s: State, c: Co)
    requires c in s.pcs && s.pcs[c] == Idle && s.res > 0
    ensures Alone(s, c, false, 3) == s.(res := s.res - 1, waits := s.waits + 1)
  {
    hide Alone, PostTryStep, PostCritStep;
    Loads(s, c, false);
    AloneNext(s, c, false, 2);
    Overwritten(s.pcs, c, WaitTry(s.res), Idle);
  }

  /** post() frees a unit if there is one or nobody waits, by three or four steps. */
  lemma PostFrees(s: State, c: Co)
    requires c in s.pcs && s.pcs[c] == Idle && (s.res > 0 || (s.res == 0 && s.queue == []))
    ensures Alone(s, c, true, if s.res > 0 then 3 else 4) == s.(res := s.res + 1, posts := s.posts + 1)
  {
    hide Alone, Step;
    if s.res > 0 {
      Loads(s, c, true);
      AloneNext(s, c, true, 2);
      PostTries(To(s, c, PostTry(s.res)), c);
      Overwritten(s.pcs, c, PostTry(s.res), Idle);
    } else {
      PostLocks(s, c);
      AloneNext(s, c, true, 3);
      PostPops(To(s.(res := -1), c, PostCrit), c);
      Overwritten(s.pcs, c, PostCrit, Idle);
    }
  }

  lemma PostLocks(s: State, c: Co)
    requires c in s.pcs && s.pcs[c] == Idle && s.res == 0
    ensures Alone(s, c, true, 3) == To(s.(res := -1), c, PostCrit)
  {
    hide Alone, Step;
    Loads(s, c, true);
    AloneNext(s, c, true, 2);
    PostTries(To(s, c, PostTry(s.res)), c);
    Overwritten(s.pcs, c, PostTry(s.res), PostCrit);
  }

  /** post() sends the first waiter its resume record, by five steps. */
  lemma PostWakesFirst(s: State, c: Co)
    requires c in s.pcs && s.pcs[c] == Idle && s.res == 0 && s.queue != []
    ensures Alone(s, c, true, 5) ==
            s.(posts := s.posts + 1, queue := s.queue[1..], resumed := s.resumed + multiset{s.queue[0]})
  {
    hide Alone, Step;
    PostLocks(s, c);
    var s3 := To(s.(res := -1), c, PostCrit);
    AloneNext(s, c, true, 3);
    PostPops(s3, c);
    Overwritten(s.pcs, c, PostCrit, PostResume(s.queue[0]));
    AloneNext(s, c, true, 4);
    PostRecords(PostCritStep(s3, c), c);
    Overwritten(s.pcs, c, PostResume(s.queue[0]), Idle);
  }

  lemma PostTries(s: State, c: Co)
    requires c in s.pcs && s.pcs[c] == PostTry(s.res) && s.res >= 0
    ensures Step(s, c, Choice(false, true)) ==
            if s.res == 0 then To(s.(res := -1), c, PostCrit)
            else To(s.(res := s.res + 1, posts := s.posts + 1), c, Idle)
  {
    hide WaitTryStep, PostCritStep;
  }

  lemma PostPops(s: State, c: Co)
    requires c in s.pcs && s.pcs[c] == PostCrit
    ensures Step(s, c, Choice(false, true)) == PostCritStep(s, c)
  {
    hide WaitTryStep, PostTryStep, PostCritStep;
  }

  lemma PostRecords(s: State, c: Co)
    requires c in s.pcs && s.pcs[c].PostResume?
    ensures Step(s, c, Choice(false, true)) == To(s.(resumed := s.resumed + multiset{s.pcs[c].target}), c, Idle)
  {
    hide WaitTryStep, PostTryStep, PostCritStep;
  }
}
