/** The blocking queue of many producers and consumers, over the specifications of the
mutex (one holder) and of the semaphore (anonymous permits). */
module MpmcQueue {
  import opened Common
  import opened Counting
  import opened Primitives

  type Value = int

  /** Underflow: pop() took the front of an empty list. */
  datatype Pc =
    | Idle
    | PushLock(v: Value)
    | PushCrit(v: Value)
    | PushPost
    | PopWait
    | PopLock
    | PopCrit
    | Underflow

  datatype State = State(queue: seq<Value>, permits: nat, lock: Lock,
                         pushed: seq<Value>, popped: seq<Value>, pcs: map<Co, Pc>)

  datatype Choice = Choice(push: bool, value: Value)

  function To(s: State, c: Co, pc: Pc): State {
    s.(pcs := s.pcs[c := pc])
  }

  function Step(s: State, c: Co, e: Choice): (r: State)
    requires c in s.pcs
    ensures c in r.pcs && r.pcs == s.pcs[c := r.pcs[c]]
  {
    match s.pcs[c]
    case Idle => To(s, c, if e.push then PushLock(e.value) else PopWait)
    case PushLock(v) => if s.lock.Some? then s else To(s.(lock := Acquired(s.lock, c)), c, PushCrit(v))
    case PushCrit(v) =>
      To(s.(queue := s.queue + [v], pushed := s.pushed + [v], lock := Released(s.lock, c)), c, PushPost)
    case PushPost => To(s.(permits := Posted(s.permits)), c, Idle)
    case PopWait => if s.permits == 0 then s else To(s.(permits := Waited(s.permits)), c, PopLock)
    case PopLock => if s.lock.Some? then s else To(s.(lock := Acquired(s.lock, c)), c, PopCrit)
    case PopCrit =>
      if s.queue == [] then To(s, c, Underflow)
      else To(s.(queue := s.queue[1..], popped := s.popped + [s.queue[0]], lock := Released(s.lock, c)), c, Idle)
    case Underflow => s
  }

  ghost predicate Init(s: State) {
    && s.queue == [] && s.permits == 0 && s.lock.None? && s.pushed == [] && s.popped == []
    && forall c | c in s.pcs :: s.pcs[c] == Idle
  }

  ghost predicate Next(s: State, s': State) {
    exists c, e :: c in s.pcs && s' == Step(s, c, e)
  }

  ghost predicate IsRun(run: seq<State>) {
    && |run| > 0 && Init(run[0])
    && forall i | 0 < i < |run| :: Next(run[i - 1], run[i])
  }

  predicate IsPosting(pc: Pc) { pc.PushPost? }
  predicate IsTaking(pc: Pc) { pc.PopLock? || pc.PopCrit? }
  predicate IsInside(pc: Pc) { pc.PushCrit? || pc.PopCrit? }
  predicate IsFailed(pc: Pc) { pc.Underflow? }

  /** Each queued item is backed by a permit, by a post still to come or by a consumer
      that already holds its permit. */
  ghost predicate Inv(s: State) {
    && |s.queue| == s.permits + Count(s.pcs, IsPosting) + Count(s.pcs, IsTaking)
    && Count(s.pcs, IsInside) == Bit(s.lock.Some?)
    && (forall c | c in s.pcs :: IsInside(s.pcs[c]) <==> s.lock == Some(c))
    && Count(s.pcs, IsFailed) == 0
    && s.pushed == s.popped + s.queue
  }

  lemma InitInv(s: State)
    requires Init(s)
    ensures Inv(s)
  {
    CountNone(s.pcs, IsPosting);
    CountNone(s.pcs, IsTaking);
    CountNone(s.pcs, IsInside);
    CountNone(s.pcs, IsFailed);
  }

  lemma StepKeepsInv(s: State, c: Co, e: Choice)
    requires Inv(s) && c in s.pcs
    ensures Inv(Step(s, c, e))
  {
    hide Count;
    var pc := Step(s, c, e).pcs[c];
    CountUpdate(s.pcs, c, pc, IsPosting);
    CountUpdate(s.pcs, c, pc, IsTaking);
    CountUpdate(s.pcs, c, pc, IsInside);
    CountUpdate(s.pcs, c, pc, IsFailed);
    CountUpdate(s.pcs, c, Idle, IsTaking);
  }

  /** In every step a coroutine uses mutex and semaphore as they are meant to be used. */
  lemma UsesPrimitives(s: State, c: Co, e: Choice)
    requires Inv(s) && c in s.pcs
    ensures var s' := Step(s, c, e);
            && LockStep(s.lock, s'.lock, c) && CounterStep(s.permits, s'.permits)
            && (IsInside(s.pcs[c]) ==> s.lock == Some(c))
  {
    hide Count;
  }

  lemma {:induction false} RunsKeepInv(run: seq<State>, i: nat)
    requires IsRun(run) && i < |run|
    ensures Inv(run[i])
  {
    if i == 0 {
      InitInv(run[0]);
    } else {
      RunsKeepInv(run, i - 1);
      assert Next(run[i - 1], run[i]);
      var c, e :| c in run[i - 1].pcs && run[i] == Step(run[i - 1], c, e);
      StepKeepsInv(run[i - 1], c, e);
    }
  }

  /** pop() never takes from an empty list, and the values come out in the order in
      which the pushes went through the mutex, none lost and none twice. */
  lemma PopsInPushOrder(run: seq<State>, i: nat, c: Co)
    requires IsRun(run) && i < |run| && c in run[i].pcs
    ensures run[i].pcs[c] != Underflow && (run[i].pcs[c].PopCrit? ==> run[i].queue != [])
    ensures run[i].pushed == run[i].popped + run[i].queue
  {
    RunsKeepInv(run, i);
    CountZero(run[i].pcs, IsFailed);
    assert !IsFailed(run[i].pcs[c]);
    if run[i].pcs[c].PopCrit? {
      CountHas(run[i].pcs, c, IsTaking);
    }
  }

  /** A consumer that blocks without permits, while nobody is between queueing and posting
      or between its permit and its item, waits on an empty queue. */
  lemma BlockedOnlyWhenEmpty(run: seq<State>, i: nat)
    requires IsRun(run) && i < |run| && run[i].permits == 0
    requires forall c | c in run[i].pcs :: !IsPosting(run[i].pcs[c]) && !IsTaking(run[i].pcs[c])
    ensures run[i].queue == []
  {
    RunsKeepInv(run, i);
    CountNone(run[i].pcs, IsPosting);
    CountNone(run[i].pcs, IsTaking);
  }
}
