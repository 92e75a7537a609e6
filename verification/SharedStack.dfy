/** Coroutines that share stacks by copying, against coroutines that own theirs.

The first half is the specification: every coroutine has private stack bytes. The
class is the source's scheme: a stack has one occupant whose bytes lie in the
memory, and a suspended coroutine that lost the stack has them in its save buffer. */
module SharedStack {

  import opened Common

  type CoId = nat
  type StackId = nat
  type Byte = bv8

  const CALL_STACK_SIZE: nat := 128

  // ----- the specification: private stacks -----

  datatype Private = Private(bytes: seq<Byte>, started: bool, ended: bool)

  /** calls is the resume chain, the running coroutine last. */
  datatype Spec = Spec(calls: seq<CoId>, own: map<CoId, Private>) {
    predicate Ok() {
      calls != [] && forall i | 0 <= i < |calls| :: calls[i] in own
    }

    function Running(): CoId
      requires calls != []
    {
      calls[|calls| - 1]
    }
  }

  /** What can happen: a coroutine is created, resumed or released, or the running one
      computes (leaving the given bytes on its stack), yields or ends. */
  datatype Op = Create(co: CoId) | Resume(co: CoId) | Run(bytes: seq<Byte>) | Yield | End | Release(co: CoId)

  ghost predicate Allowed(s: Spec, op: Op) {
    && s.Ok()
    && match op
       case Create(co) => co !in s.own
       case Resume(co) => co in s.own && co !in s.calls && !s.own[co].ended && |s.calls| < CALL_STACK_SIZE
       case Run(_) => true
       case Yield => |s.calls| >= 2
       case End => |s.calls| >= 2
       case Release(co) => co in s.own && co !in s.calls
  }

  ghost function Apply(s: Spec, op: Op): Spec
    requires Allowed(s, op)
  {
    match op
    case Create(co) => s.(own := s.own[co := Private([], false, false)])
    case Resume(co) => s.(calls := s.calls + [co], own := s.own[co := s.own[co].(started := true)])
    case Run(b) => s.(own := s.own[s.Running() := s.own[s.Running()].(bytes := b)])
    case Yield => s.(calls := s.calls[..|s.calls| - 1])
    case End => s.(calls := s.calls[..|s.calls| - 1], own := s.own[s.Running() := Private([], true, true)])
    case Release(co) => s.(own := s.own - {co})
  }

  /** states is a run of the specification under ops. */
  ghost predicate IsRun(states: seq<Spec>, ops: seq<Op>) {
    && |states| == |ops| + 1
    && forall i | 0 <= i < |ops| :: Allowed(states[i], ops[i]) && states[i + 1] == Apply(states[i], ops[i])
  }

  /** From the moment a live coroutine stops running until it runs again or is released,
      whatever the others do, its bytes stay as they were. */
  lemma {:induction false} BytesSurviveSuspension(states: seq<Spec>, ops: seq<Op>, co: CoId, n: nat)
    requires IsRun(states, ops) && n < |states|
    requires states[0].Ok() && co in states[0].own
    requires forall i | 0 <= i < n :: states[i].calls != [] && states[i].Running() != co && ops[i] != Release(co)
    ensures co in states[n].own && states[n].own[co].bytes == states[0].own[co].bytes
  {
    if n > 0 {
      BytesSurviveSuspension(states, ops, co, n - 1);
      assert Allowed(states[n - 1], ops[n - 1]) && states[n] == Apply(states[n - 1], ops[n - 1]);
    }
  }

  /** A coroutine that is resumed runs, and when it yields or ends control is back with its resumer. */
  lemma ResumeReturns(s: Spec, co: CoId)
    requires Allowed(s, Resume(co))
    ensures var t := Apply(s, Resume(co));
            && t.calls != [] && t.Running() == co && Allowed(t, Yield) && Allowed(t, End)
            && Apply(t, Yield).calls == s.calls && Apply(t, End).calls == s.calls
  {
  }

  /** Over any run, the part of the resume chain that is never unwound stays as it was. */
  lemma {:induction false} ChainIsKept(states: seq<Spec>, ops: seq<Op>, k: nat, n: nat)
    requires IsRun(states, ops) && n < |states|
    requires forall i | 0 <= i <= n :: k <= |states[i].calls|
    ensures states[n].calls[..k] == states[0].calls[..k]
  {
    if n > 0 {
      ChainIsKept(states, ops, k, n - 1);
      assert Allowed(states[n - 1], ops[n - 1]) && states[n] == Apply(states[n - 1], ops[n - 1]);
    }
  }

  /** Over any run, after any balanced sequence of operations control is back where it was: the same
      coroutine runs, below it the same resumers. */
  lemma ControlReturns(states: seq<Spec>, ops: seq<Op>, n: nat)
    requires IsRun(states, ops) && n < |states|
    requires forall i | 0 <= i <= n :: |states[0].calls| <= |states[i].calls|
    requires |states[n].calls| == |states[0].calls|
    ensures states[n].calls == states[0].calls
  {
    ChainIsKept(states, ops, |states[0].calls|, n);
  }

  /** What a coroutine left on its stack before it gave control away is what it finds. */
  lemma WrittenIsFound(states: seq<Spec>, ops: seq<Op>, bytes: seq<Byte>, n: nat)
    requires IsRun(states, ops) && 2 <= n < |states|
    requires ops[0] == Run(bytes) && (ops[1].Resume? || ops[1].Yield?)
    requires var r := states[0].calls[|states[0].calls| - 1];
             forall i | 2 <= i < n :: states[i].calls != [] && states[i].Running() != r && ops[i] != Release(r)
    ensures var r := states[0].Running(); r in states[n].own && states[n].own[r].bytes == bytes
  {
    var r := states[0].Running();
    assert Allowed(states[0], ops[0]) && states[1] == Apply(states[0], ops[0]);
    assert Allowed(states[1], ops[1]) && states[2] == Apply(states[1], ops[1]);
    var later, rest := states[2..], ops[2..];
    forall i | 0 <= i < |rest|
      ensures Allowed(later[i], rest[i]) && later[i + 1] == Apply(later[i], rest[i])
    {
      assert later[i] == states[i + 2] && rest[i] == ops[i + 2] && Allowed(states[i + 2], ops[i + 2]);
    }
    assert states[2].Ok();
    BytesSurviveSuspension(later, rest, r, n - 2);
  }

  /** A new coroutine starts on an empty stack. */
  lemma NewStartsEmpty(s: Spec, co: CoId)
    requires Allowed(s, Create(co)) && |s.calls| < CALL_STACK_SIZE && co !in s.calls
    ensures var t := Apply(s, Create(co));
            Allowed(t, Resume(co)) && Apply(t, Resume(co)).own[co].bytes == []
  {
  }

  /** A coroutine that has ended is not resumed again, until its place has been released. */
  lemma {:induction false} EndedForGood(states: seq<Spec>, ops: seq<Op>, co: CoId, n: nat)
    requires IsRun(states, ops) && n < |states|
    requires |ops| > 0 && ops[0] == End && states[0].calls != [] && co == states[0].Running()
    requires co !in states[0].calls[..|states[0].calls| - 1]
    requires forall i | 0 <= i < n :: ops[i] != Release(co)
    ensures n > 0 ==> co in states[n].own && states[n].own[co].ended && co !in states[n].calls
    ensures 0 < n < |ops| ==> ops[n] != Resume(co)
  {
    if n > 0 {
      EndedForGood(states, ops, co, n - 1);
      assert Allowed(states[n - 1], ops[n - 1]) && states[n] == Apply(states[n - 1], ops[n - 1]);
      if n < |ops| {
        assert Allowed(states[n], ops[n]);
      }
    }
  }

  // ----- the source's scheme -----

  /** depth is stack_bp - stack_sp at the last switch; saved is save_buffer. */
  datatype Coroutine = Coroutine(share: bool, stack: StackId, started: bool, ended: bool,
                                 depth: nat, saved: Option<seq<Byte>>)

  /** All coroutines, the memory of all stacks, and occupy_co of each shared one. */
  datatype Store = Store(cos: map<CoId, Coroutine>, memory: map<StackId, seq<Byte>>, occupant: map<StackId, CoId>)

  function Tail(m: seq<Byte>, n: nat): seq<Byte> {
    if n <= |m| then m[|m| - n..] else m
  }

  /** memcpy of bytes to the live end of a stack. */
  function Overlay(m: seq<Byte>, bytes: seq<Byte>): (r: seq<Byte>)
    ensures |bytes| <= |m| ==> |r| == |m| && Tail(r, |bytes|) == bytes
  {
    if |bytes| <= |m| then m[..|m| - |bytes|] + bytes else bytes
  }

  ghost predicate Shaped(st: Store) {
    && (forall c | c in st.cos :: st.cos[c].stack in st.memory && st.cos[c].depth <= |st.memory[st.cos[c].stack]|)
    && (forall c, d | c in st.cos && d in st.cos && c != d && !st.cos[c].share :: st.cos[d].stack != st.cos[c].stack)
    && (forall k | k in st.occupant ::
          st.occupant[k] in st.cos && st.cos[st.occupant[k]].stack == k && st.cos[st.occupant[k]].share)
  }

  function Memory(st: Store, k: StackId): seq<Byte> {
    if k in st.memory then st.memory[k] else []
  }

  /** The coroutine's bytes lie in its stack's memory. */
  predicate Resident(st: Store, c: CoId)
    requires c in st.cos
  {
    !st.cos[c].share || (st.cos[c].stack in st.occupant && st.occupant[st.cos[c].stack] == c)
  }

  predicate Alive(st: Store, c: CoId)
    requires c in st.cos
  {
    st.cos[c].started && !st.cos[c].ended
  }

  ghost predicate IsSaved(st: Store, c: CoId)
    requires c in st.cos
  {
    st.cos[c].saved.Some? && |st.cos[c].saved.value| == st.cos[c].depth
  }

  /** cpu is on the processor, its stack pointer at live, and resident; every other live
      coroutine, but for a newcomer, is resident or saved. */
  ghost predicate Kept(st: Store, cpu: CoId, live: nat, newcomer: Option<CoId>) {
    && Shaped(st)
    && cpu in st.cos && Resident(st, cpu) && live <= |st.memory[st.cos[cpu].stack]|
    && forall c | c in st.cos && Alive(st, c) && c != cpu && newcomer != Some(c) && !Resident(st, c) :: IsSaved(st, c)
  }

  /** The live stack bytes of c while cpu is on the processor. */
  function Bytes(st: Store, c: CoId, cpu: CoId, live: nat): seq<Byte>
    requires c in st.cos
  {
    var m := Memory(st, st.cos[c].stack);
    if !Alive(st, c) then []
    else if c == cpu then Tail(m, live)
    else if Resident(st, c) then Tail(m, st.cos[c].depth)
    else if st.cos[c].saved.Some? then st.cos[c].saved.value
    else []
  }

  function SetCo(st: Store, c: CoId, co: Coroutine): Store {
    st.(cos := st.cos[c := co])
  }

  /** co_swap up to the context switch: the stack pointer is noted, and the occupant of
      a shared stack that pending takes over is saved, unless it has ended. */
  function SwappedOut(st: Store, curr: CoId, pending: CoId, live: nat): Store
    requires curr in st.cos && pending in st.cos
  {
    var st1 := SetCo(st, curr, st.cos[curr].(depth := live));
    if !st1.cos[pending].share then st1
    else
      var k := st1.cos[pending].stack;
      var st2 := st1.(occupant := st1.occupant[k := pending]);
      if k !in st1.occupant || st1.occupant[k] == pending || st1.occupant[k] !in st1.cos then st2
      else
        var oc := st1.occupant[k];
        var co := st2.cos[oc];
        SetCo(st2, oc, co.(saved := if co.ended then None else Some(Tail(Memory(st, k), co.depth))))
  }

  /** co_swap after the context switch, on the side of pending: its bytes come back if
      another coroutine, or nobody, had the stack. */
  function SwappedIn(st: Store, pending: CoId, occupyCo: Option<CoId>): Store
    requires pending in st.cos
  {
    var co := st.cos[pending];
    if co.stack in st.memory && co.share && occupyCo != Some(pending) && co.saved.Some? && |co.saved.value| > 0
    then st.(memory := st.memory[co.stack := Overlay(st.memory[co.stack], co.saved.value)])
    else st
  }

  function OccupantOf(st: Store, c: CoId): Option<CoId>
    requires c in st.cos
  {
    var k := st.cos[c].stack;
    if k in st.occupant then Some(st.occupant[k]) else None
  }

  lemma SetCoShaped(st: Store, c: CoId, co: Coroutine)
    requires Shaped(st) && c in st.cos && co.stack == st.cos[c].stack && co.share == st.cos[c].share
    requires co.depth <= |st.memory[co.stack]|
    ensures Shaped(SetCo(st, c, co))
  {
  }

  lemma SwapOutShaped(st: Store, curr: CoId, pending: CoId, live: nat)
    requires Shaped(st) && curr in st.cos && pending in st.cos && pending != curr
    requires live <= |st.memory[st.cos[curr].stack]|
    ensures var r := SwappedOut(st, curr, pending, live);
            && Shaped(r) && r.memory == st.memory && r.cos.Keys == st.cos.Keys
            && r.cos[pending] == st.cos[pending] && Resident(r, pending)
  {
    SetCoShaped(st, curr, st.cos[curr].(depth := live));
    var st1 := SetCo(st, curr, st.cos[curr].(depth := live));
    if st1.cos[pending].share {
      var k := st1.cos[pending].stack;
      var st2 := st1.(occupant := st1.occupant[k := pending]);
      assert Shaped(st2);
      if k in st1.occupant && st1.occupant[k] != pending {
        var oc := st1.occupant[k];
        SetCoShaped(st2, oc, SwappedOut(st, curr, pending, live).cos[oc]);
      }
    }
  }

  /** What became of a coroutine that is neither the old nor the new one on the processor. */
  lemma SwapOutBystander(st: Store, curr: CoId, pending: CoId, live: nat, newcomer: Option<CoId>, c: CoId)
    requires Kept(st, curr, live, newcomer) && pending in st.cos && pending != curr
    requires newcomer == None || newcomer == Some(pending)
    requires c in st.cos && c != pending
    ensures var r := SwappedOut(st, curr, pending, live);
            && c in r.cos && r.cos[c].stack == st.cos[c].stack && r.cos[c].share == st.cos[c].share
            && r.cos[c].started == st.cos[c].started && r.cos[c].ended == st.cos[c].ended
            && (Alive(r, c) && !Resident(r, c) ==> IsSaved(r, c))
            && (Alive(r, c) ==> Bytes(st, c, curr, live) ==
                                if Resident(r, c) then Tail(st.memory[st.cos[c].stack], r.cos[c].depth)
                                else r.cos[c].saved.value)
  {
  }

  /** The coroutine switched to finds its bytes again. */
  lemma SwapInRestores(st: Store, r: Store, pending: CoId)
    requires Shaped(st) && Shaped(r) && pending in st.cos && pending in r.cos && r.memory == st.memory
    requires r.cos[pending] == st.cos[pending] && Resident(r, pending) && Alive(st, pending)
    requires !Resident(st, pending) ==> IsSaved(st, pending)
    ensures var r' := SwappedIn(r, pending, OccupantOf(st, pending));
            && Shaped(r') && r'.cos == r.cos && r'.occupant == r.occupant && r'.memory.Keys == r.memory.Keys
            && (forall k | k in r.memory && (k != st.cos[pending].stack || !st.cos[pending].share) ::
                  r'.memory[k] == r.memory[k])
            && (forall k | k in r.memory :: |r'.memory[k]| == |r.memory[k]|)
            && Tail(r'.memory[st.cos[pending].stack], st.cos[pending].depth) ==
               if Resident(st, pending) then Tail(st.memory[st.cos[pending].stack], st.cos[pending].depth)
               else st.cos[pending].saved.value
  {
  }

  function Swapped(st: Store, curr: CoId, pending: CoId, live: nat, newcomer: bool): Store
    requires curr in st.cos && pending in st.cos
  {
    var r := SwappedOut(st, curr, pending, live);
    if newcomer then r else SwappedIn(r, pending, OccupantOf(st, pending))
  }

  lemma SwapBystander(st: Store, curr: CoId, pending: CoId, live: nat, newcomer: bool, c: CoId)
    requires Kept(st, curr, live, if newcomer then Some(pending) else None)
    requires pending in st.cos && pending != curr && Alive(st, pending) && c in st.cos && c != pending
    ensures var r := Swapped(st, curr, pending, live, newcomer);
            var live' := if newcomer then 0 else st.cos[pending].depth;
            && c in r.cos && r.cos[c].stack in r.memory
            && r.cos[c].started == st.cos[c].started && r.cos[c].ended == st.cos[c].ended
            && Bytes(r, c, pending, live') == Bytes(st, c, curr, live)
            && (Alive(r, c) && !Resident(r, c) ==> IsSaved(r, c))
  {
    hide SwappedOut, SwappedIn, Bytes, IsSaved, Tail;
    SwapOutShaped(st, curr, pending, live);
    SwapOutBystander(st, curr, pending, live, if newcomer then Some(pending) else None, c);
    var out := SwappedOut(st, curr, pending, live);
    if !newcomer {
      SwapInRestores(st, out, pending);
    }
    if Resident(out, c) {
      NotOnOneStack(out, pending, c);
    }
    BystanderBytes(st, out, Swapped(st, curr, pending, live, newcomer), c, curr, live, pending,
                   if newcomer then 0 else st.cos[pending].depth);
  }

  lemma BystanderBytes(st: Store, out: Store, r: Store, c: CoId, curr: CoId, live: nat, pending: CoId, live': nat)
    requires c in st.cos && c in out.cos && st.cos[c].stack in st.memory && c != pending
    requires r.cos == out.cos && r.occupant == out.occupant && out.cos[c].stack in r.memory
    requires out.cos[c].stack == st.cos[c].stack && Alive(out, c) == Alive(st, c)
    requires Resident(out, c) ==> r.memory[out.cos[c].stack] == st.memory[st.cos[c].stack]
    requires Alive(out, c) && !Resident(out, c) ==> IsSaved(out, c)
    requires Alive(out, c) ==> Bytes(st, c, curr, live) ==
                               if Resident(out, c) then Tail(st.memory[st.cos[c].stack], out.cos[c].depth)
                               else out.cos[c].saved.value
    ensures Bytes(r, c, pending, live') == Bytes(st, c, curr, live)
    ensures Alive(r, c) && !Resident(r, c) ==> IsSaved(r, c)
  {
  }

  lemma NotOnOneStack(st: Store, a: CoId, b: CoId)
    requires Shaped(st) && a in st.cos && b in st.cos && a != b && Resident(st, a) && Resident(st, b)
    ensures st.cos[a].stack != st.cos[b].stack
  {
  }

  lemma SwapPending(st: Store, curr: CoId, pending: CoId, live: nat, newcomer: bool)
    requires Kept(st, curr, live, if newcomer then Some(pending) else None)
    requires pending in st.cos && pending != curr && Alive(st, pending)
    ensures var r := Swapped(st, curr, pending, live, newcomer);
            var live' := if newcomer then 0 else st.cos[pending].depth;
            && Shaped(r) && r.cos.Keys == st.cos.Keys && r.cos[pending] == st.cos[pending]
            && Resident(r, pending) && live' <= |r.memory[r.cos[pending].stack]|
            && Bytes(r, pending, pending, live') == if newcomer then [] else Bytes(st, pending, curr, live)
  {
    SwapOutShaped(st, curr, pending, live);
    if !newcomer {
      SwapInRestores(st, SwappedOut(st, curr, pending, live), pending);
    }
    hide SwappedOut, SwappedIn;
  }

  /** A whole co_swap: pending is on the processor, and every coroutine has the bytes it had. */
  lemma SwapKeeps(st: Store, curr: CoId, pending: CoId, live: nat, newcomer: bool)
    requires Kept(st, curr, live, if newcomer then Some(pending) else None)
    requires pending in st.cos && pending != curr && Alive(st, pending)
    ensures var r := Swapped(st, curr, pending, live, newcomer);
            var live' := if newcomer then 0 else st.cos[pending].depth;
            && Kept(r, pending, live', None)
            && r.cos.Keys == st.cos.Keys
            && (forall c | c in st.cos :: r.cos[c].started == st.cos[c].started && r.cos[c].ended == st.cos[c].ended)
            && (forall c | c in st.cos :: Bytes(r, c, pending, live') ==
                  if newcomer && c == pending then [] else Bytes(st, c, curr, live))
  {
    var r := Swapped(st, curr, pending, live, newcomer);
    var live' := if newcomer then 0 else st.cos[pending].depth;
    SwapPending(st, curr, pending, live, newcomer);
    hide Swapped, Bytes;
    forall c | c in st.cos
      ensures r.cos[c].started == st.cos[c].started && r.cos[c].ended == st.cos[c].ended
      ensures Bytes(r, c, pending, live') == if newcomer && c == pending then [] else Bytes(st, c, curr, live)
      ensures Alive(r, c) && c != pending && !Resident(r, c) ==> IsSaved(r, c)
    {
      hide Kept, Shaped;
      if c != pending {
        SwapBystander(st, curr, pending, live, newcomer, c);
      }
    }
  }

  // ----- the whole environment, as a value -----

  /** What private stacks show of a coroutine. */
  ghost function AbsOf(st: Store, cpu: CoId, live: nat, c: CoId): Private
    requires c in st.cos
  {
    Private(Bytes(st, c, cpu, live), st.cos[c].started, st.cos[c].ended)
  }

  ghost predicate Chain(st: Store, calls: seq<CoId>) {
    && calls != []
    && (forall i | 0 <= i < |calls| :: calls[i] in st.cos && Alive(st, calls[i]))
    && (forall i, j | 0 <= i < j < |calls| :: calls[i] != calls[j])
  }

  /** The environment stands for the private-stack machine s. */
  ghost predicate StandsFor(st: Store, live: nat, s: Spec) {
    && Chain(st, s.calls)
    && Kept(st, s.Running(), live, None)
    && s.own.Keys == st.cos.Keys
    && forall c | c in st.cos :: s.own[c] == AbsOf(st, s.Running(), live, c)
  }

  /** What the methods below need to know before they move anything. */
  lemma Basics(st: Store, live: nat, s: Spec)
    requires StandsFor(st, live, s)
    ensures s.calls != [] && (forall i | 0 <= i < |s.calls| :: s.calls[i] in st.cos) && s.own.Keys == st.cos.Keys
    ensures Shaped(st) && live <= |st.memory[st.cos[s.Running()].stack]|
  {
  }

  /** What the running coroutine reads on its stack is what private stacks would show it. */
  lemma RunningSeesItsBytes(st: Store, live: nat, s: Spec)
    requires StandsFor(st, live, s)
    ensures var k := st.cos[s.Running()].stack;
            k in st.memory && live <= |st.memory[k]|
              && st.memory[k][|st.memory[k]| - live..] == s.own[s.Running()].bytes
  {
    var co := s.calls[|s.calls| - 1];
    assert Alive(st, co) && s.own[co] == AbsOf(st, co, live, co);
  }

  function Created(st: Store, co: CoId, share: bool, stack: StackId, mem: seq<Byte>): Store {
    Store(st.cos[co := Coroutine(share, stack, false, false, 0, None)],
          if share then st.memory else st.memory[stack := mem], st.occupant)
  }

  lemma CreateKeeps(st: Store, cpu: CoId, live: nat, co: CoId, share: bool, stack: StackId, mem: seq<Byte>)
    requires Kept(st, cpu, live, None) && co !in st.cos
    requires share ==> stack in st.memory && forall c | c in st.cos && !st.cos[c].share :: st.cos[c].stack != stack
    requires !share ==> stack !in st.memory
    ensures var r := Created(st, co, share, stack, mem);
            && Kept(r, cpu, live, None) && r.cos.Keys == st.cos.Keys + {co}
            && (forall c | c in st.cos :: AbsOf(r, cpu, live, c) == AbsOf(st, cpu, live, c))
            && AbsOf(r, cpu, live, co) == Private([], false, false)
  {
    var r := Created(st, co, share, stack, mem);
    assert Shaped(r);
    forall c | c in r.cos && Alive(r, c) && c != cpu && !Resident(r, c)
      ensures IsSaved(r, c)
    {
      assert Alive(st, c) && !Resident(st, c);
    }
  }

  lemma CreateRefines(st: Store, live: nat, s: Spec, co: CoId, share: bool, stack: StackId, mem: seq<Byte>)
    requires StandsFor(st, live, s) && co !in st.cos
    requires share ==> stack in st.memory && forall c | c in st.cos && !st.cos[c].share :: st.cos[c].stack != stack
    requires !share ==> stack !in st.memory
    ensures Allowed(s, Op.Create(co))
    ensures StandsFor(Created(st, co, share, stack, mem), live, Apply(s, Op.Create(co)))
  {
    hide Kept, Shaped, AbsOf;
    CreateKeeps(st, s.Running(), live, co, share, stack, mem);
    var r := Created(st, co, share, stack, mem);
    assert Chain(r, s.calls);
    var s1 := Apply(s, Op.Create(co));
    assert forall c | c in r.cos :: s1.own[c] == AbsOf(r, s1.Running(), live, c);
  }

  /** A switch from curr to the last of calls, seen from the private stacks. */
  lemma SwitchRefines(st: Store, curr: CoId, live: nat, newcomer: bool, s: Spec)
    requires Chain(st, s.calls) && curr != s.Running() && curr in st.cos
    requires Kept(st, curr, live, if newcomer then Some(s.Running()) else None)
    requires s.own.Keys == st.cos.Keys
    requires forall c | c in st.cos ::
               s.own[c] == if newcomer && c == s.Running() then Private([], true, false) else AbsOf(st, curr, live, c)
    ensures StandsFor(Swapped(st, curr, s.Running(), live, newcomer),
                      if newcomer then 0 else st.cos[s.Running()].depth, s)
  {
    hide Swapped, Kept, Bytes, Shaped, IsSaved;
    var co := s.Running();
    SwapKeeps(st, curr, co, live, newcomer);
    var r := Swapped(st, curr, co, live, newcomer);
    assert Chain(r, s.calls);
    forall c | c in r.cos
      ensures s.own[c] == AbsOf(r, co, if newcomer then 0 else st.cos[co].depth, c)
    {
      assert c in st.cos;
    }
  }

  lemma StartKeeps(st: Store, cpu: CoId, live: nat, co: CoId)
    requires Kept(st, cpu, live, None) && co in st.cos && co != cpu && !st.cos[co].ended
    ensures var st1 := SetCo(st, co, st.cos[co].(started := true));
            && Kept(st1, cpu, live, if st.cos[co].started then None else Some(co)) && Alive(st1, co) && Shaped(st1)
            && (forall c | c in st.cos && c != co :: AbsOf(st1, cpu, live, c) == AbsOf(st, cpu, live, c))
            && if st.cos[co].started then AbsOf(st1, cpu, live, co) == AbsOf(st, cpu, live, co)
               else AbsOf(st, cpu, live, co) == Private([], false, false)
  {
    var st1 := SetCo(st, co, st.cos[co].(started := true));
    SetCoShaped(st, co, st.cos[co].(started := true));
    forall c | c in st1.cos && Alive(st1, c) && c != cpu && (st.cos[co].started || c != co) && !Resident(st1, c)
      ensures IsSaved(st1, c)
    {
      assert Alive(st, c) && !Resident(st, c);
    }
  }

  /** co_resume of a suspended or fresh coroutine. */
  lemma ResumeRefines(st: Store, live: nat, s: Spec, co: CoId)
    requires StandsFor(st, live, s) && Allowed(s, Op.Resume(co))
    ensures var newcomer := !st.cos[co].started;
            var st1 := SetCo(st, co, st.cos[co].(started := true));
            && Shaped(st1) && co != s.Running()
            && StandsFor(Swapped(st1, s.Running(), co, live, newcomer), if newcomer then 0 else st.cos[co].depth,
                         Apply(s, Op.Resume(co)))
  {
    hide Swapped, Kept, Bytes, Shaped;
    var cpu, newcomer := s.Running(), !st.cos[co].started;
    var st1 := SetCo(st, co, st.cos[co].(started := true));
    var s1 := Apply(s, Op.Resume(co));
    StartKeeps(st, cpu, live, co);
    assert Chain(st1, s1.calls);
    assert s1.Running() == co;
    assert s1.own[co] == if newcomer then Private([], true, false) else AbsOf(st1, cpu, live, co);
    SwitchRefines(st1, cpu, live, newcomer, s1);
  }

  lemma YieldRefines(st: Store, live: nat, s: Spec)
    requires StandsFor(st, live, s) && |s.calls| >= 2
    ensures Allowed(s, Op.Yield)
    ensures var last := s.calls[|s.calls| - 2];
            && last != s.Running()
            && StandsFor(Swapped(st, s.Running(), last, live, false), st.cos[last].depth, Apply(s, Op.Yield))
  {
    hide Swapped, Bytes, Kept;
    var s1 := Apply(s, Op.Yield);
    assert Chain(st, s1.calls);
    SwitchRefines(st, s.Running(), live, false, s1);
  }

  lemma EndKeeps(st: Store, cpu: CoId, live: nat)
    requires Kept(st, cpu, live, None)
    ensures var st1 := SetCo(st, cpu, st.cos[cpu].(ended := true));
            && Kept(st1, cpu, live, None) && Shaped(st1)
            && (forall c | c in st.cos && c != cpu :: AbsOf(st1, cpu, live, c) == AbsOf(st, cpu, live, c))
            && AbsOf(st1, cpu, live, cpu) == Private([], st.cos[cpu].started, true)
  {
    var st1 := SetCo(st, cpu, st.cos[cpu].(ended := true));
    SetCoShaped(st, cpu, st.cos[cpu].(ended := true));
    forall c | c in st1.cos && Alive(st1, c) && c != cpu && !Resident(st1, c)
      ensures IsSaved(st1, c)
    {
      assert Alive(st, c) && !Resident(st, c);
    }
  }

  lemma EndRefines(st: Store, live: nat, s: Spec)
    requires StandsFor(st, live, s) && |s.calls| >= 2
    ensures Allowed(s, Op.End)
    ensures var last := s.calls[|s.calls| - 2];
            var st1 := SetCo(st, s.Running(), st.cos[s.Running()].(ended := true));
            && Shaped(st1) && last in st1.cos && last != s.Running()
            && StandsFor(Swapped(st1, s.Running(), last, live, false), st.cos[last].depth, Apply(s, Op.End))
  {
    hide Swapped, Kept, Bytes, Shaped;
    var st1 := SetCo(st, s.Running(), st.cos[s.Running()].(ended := true));
    EndKeeps(st, s.Running(), live);
    var s1 := Apply(s, Op.End);
    assert Chain(st1, s1.calls);
    SwitchRefines(st1, s.Running(), live, false, s1);
  }

  lemma RunKeeps(st: Store, cpu: CoId, live: nat, mem: seq<Byte>, depth: nat)
    requires Kept(st, cpu, live, None) && depth <= |mem| == |st.memory[st.cos[cpu].stack]|
    ensures var r := st.(memory := st.memory[st.cos[cpu].stack := mem]);
            && Kept(r, cpu, depth, None)
            && forall c | c in st.cos && c != cpu :: AbsOf(r, cpu, depth, c) == AbsOf(st, cpu, live, c)
  {
    var r := st.(memory := st.memory[st.cos[cpu].stack := mem]);
    forall c | c in st.cos && c != cpu
      ensures AbsOf(r, cpu, depth, c) == AbsOf(st, cpu, live, c)
    {
      if Resident(st, c) { NotOnOneStack(st, cpu, c); }
    }
  }

  lemma RunRefines(st: Store, live: nat, s: Spec, mem: seq<Byte>, depth: nat)
    requires StandsFor(st, live, s) && depth <= |mem| == |st.memory[st.cos[s.Running()].stack]|
    ensures Allowed(s, Op.Run(Tail(mem, depth)))
    ensures StandsFor(st.(memory := st.memory[st.cos[s.Running()].stack := mem]), depth,
            Apply(s, Op.Run(Tail(mem, depth))))
  {
    RunKeeps(st, s.Running(), live, mem, depth);
    hide Kept;
  }

  function Released(st: Store, co: CoId): Store
    requires co in st.cos
  {
    var k := st.cos[co].stack;
    var occupies := st.cos[co].share && k in st.occupant && st.occupant[k] == co;
    st.(occupant := if occupies then st.occupant - {k} else st.occupant,
        cos := st.cos - {co})
  }

  lemma ReleaseKeeps(st: Store, cpu: CoId, live: nat, co: CoId)
    requires Kept(st, cpu, live, None) && co in st.cos && co != cpu
    ensures var r := Released(st, co);
            && Kept(r, cpu, live, None)
            && forall c | c in r.cos :: AbsOf(r, cpu, live, c) == AbsOf(st, cpu, live, c)
  {
    var r := Released(st, co);
    assert forall c | c in r.cos :: Resident(r, c) == Resident(st, c) && Alive(r, c) == Alive(st, c);
    assert Shaped(r);
  }

  lemma ReleaseRefines(st: Store, live: nat, s: Spec, co: CoId)
    requires StandsFor(st, live, s) && co in st.cos && co !in s.calls
    ensures Allowed(s, Op.Release(co))
    ensures StandsFor(Released(st, co), live, Apply(s, Op.Release(co)))
  {
    ReleaseKeeps(st, s.Running(), live, co);
    hide Kept, Bytes;
  }

  lemma StartsRight(main: CoId, mainStack: StackId, mem: seq<Byte>, stacks: map<StackId, seq<Byte>>)
    ensures StandsFor(Store(map[main := Coroutine(false, mainStack, true, false, 0, None)],
            stacks[mainStack := mem], map[]), 0,
                      Spec([main], map[main := Private([], true, false)]))
  {
  }

  class Env {
    var callStack: seq<CoId>
    var cos: map<CoId, Coroutine>
    var memory: map<StackId, seq<Byte>>
    var occupant: map<StackId, CoId>
    /** env->pending_co and env->occupy_co, the notes co_swap leaves for its second half. */
    var pendingCo: Option<CoId>
    var occupyCo: Option<CoId>
    /** The stack pointer: how deep the coroutine on the processor is in its stack. */
    var live: nat

    /** The private-stack machine that this environment stands for. */
    ghost var spec: Spec

    function Now(): Store
      reads this
    {
      Store(cos, memory, occupant)
    }

    ghost predicate Valid()
      reads this
    {
      callStack == spec.calls && StandsFor(Now(), live, spec)
    }

    /** The thread's main coroutine runs on a stack of its own. */
    constructor (main: CoId, mainStack: StackId, mem: seq<Byte>, stacks: map<StackId, seq<Byte>>)
      requires mainStack !in stacks
      ensures Valid() && spec == Spec([main], map[main := Private([], true, false)])
      ensures memory == stacks[mainStack := mem]
    {
      callStack := [main];
      cos := map[main := Coroutine(false, mainStack, true, false, 0, None)];
      memory := stacks[mainStack := mem];
      occupant := map[];
      pendingCo, occupyCo := None, None;
      live := 0;
      spec := Spec([main], map[main := Private([], true, false)]);
      StartsRight(main, mainStack, mem, stacks);
      hide StandsFor;
    }

    /** save_stack_buffer */
    method SaveStackBuffer(oc: CoId)
      requires oc in cos && cos[oc].stack in memory && cos[oc].depth <= |memory[cos[oc].stack]|
      modifies this`cos
      ensures cos == old(cos)[oc := old(cos[oc]).(saved := Some(Tail(memory[old(cos[oc]).stack], old(cos[oc]).depth)))]
    {
      var m := memory[cos[oc].stack];
      cos := cos[oc := cos[oc].(saved := Some(m[|m| - cos[oc].depth..]))];
    }

    /** co_swap up to the context switch. */
    method SwapOut(curr: CoId, pending: CoId)
      requires Shaped(Now()) && curr in cos && pending in cos && pending != curr
      requires live <= |memory[cos[curr].stack]|
      modifies this`cos, this`occupant, this`pendingCo, this`occupyCo
      ensures Now() == SwappedOut(old(Now()), curr, pending, live)
      ensures pendingCo == if old(cos[pending]).share then Some(pending) else None
      ensures pendingCo.Some? ==> occupyCo == OccupantOf(old(Now()), pending)
    {
      cos := cos[curr := cos[curr].(depth := live)];
      if !cos[pending].share {
        pendingCo, occupyCo := None, None;
      } else {
        pendingCo := Some(pending);
        var k := cos[pending].stack;
        occupyCo := if k in occupant then Some(occupant[k]) else None;
        occupant := occupant[k := pending];
        if occupyCo.Some? && occupyCo.value != pending {
          var oc := occupyCo.value;
          if cos[oc].ended {
            cos := cos[oc := cos[oc].(saved := None)];
          } else {
            SaveStackBuffer(oc);
          }
        }
      }
    }

    /** co_swap. A newcomer starts at the top of its stack and never runs the second half. */
    method CoSwap(curr: CoId, pending: CoId, newcomer: bool)
      requires Shaped(Now()) && curr in cos && pending in cos && pending != curr
      requires live <= |memory[cos[curr].stack]|
      modifies this`cos, this`memory, this`occupant, this`pendingCo, this`occupyCo, this`live
      ensures Now() == Swapped(old(Now()), curr, pending, old(live), newcomer)
      ensures live == if newcomer then 0 else old(cos[pending].depth)
    {
      SwapOutShaped(Now(), curr, pending, live);
      SwapOut(curr, pending);
      hide SwappedOut, Shaped;
      live := if newcomer then 0 else cos[pending].depth;
      if !newcomer && pendingCo.Some? && occupyCo != pendingCo {
        var co := cos[pendingCo.value];
        if co.saved.Some? && |co.saved.value| > 0 {
          memory := memory[co.stack := Overlay(memory[co.stack], co.saved.value)];
        }
      }
    }

    /** co_create_env on a shared stack, whichever co_get_stackmem deals out, or on a new private one. */
    method Create(co: CoId, share: bool, stack: StackId, mem: seq<Byte>)
      requires Valid() && co !in cos
      requires share ==> stack in memory && forall c | c in cos && !cos[c].share :: cos[c].stack != stack
      requires !share ==> stack !in memory
      modifies this
      ensures Valid() && Allowed(old(spec), Op.Create(co)) && spec == Apply(old(spec), Op.Create(co))
    {
      hide StandsFor;
      CreateRefines(Now(), live, spec, co, share, stack, mem);
      cos := cos[co := Coroutine(share, stack, false, false, 0, None)];
      if !share {
        memory := memory[stack := mem];
      }
      spec := Apply(spec, Op.Create(co));
    }

    /** co_resume */
    method Resume(co: CoId)
      requires Valid() && Allowed(spec, Op.Resume(co))
      modifies this
      ensures Valid() && spec == Apply(old(spec), Op.Resume(co)) && callStack == old(callStack) + [co]
    {
      hide StandsFor, Swapped, Shaped;
      Basics(Now(), live, spec);
      ResumeRefines(Now(), live, spec, co);
      var curr := callStack[|callStack| - 1];
      var newcomer := !cos[co].started;
      cos := cos[co := cos[co].(started := true)];
      callStack := callStack + [co];
      CoSwap(curr, co, newcomer);
      spec := Apply(spec, Op.Resume(co));
    }

    /** The running coroutine computes: it may rewrite its whole stack, and nobody else's. */
    method Run(mem: seq<Byte>, depth: nat)
      requires Valid() && depth <= |mem| == |memory[cos[callStack[|callStack| - 1]].stack]|
      modifies this
      ensures Valid() && Allowed(old(spec), Op.Run(Tail(mem, depth)))
              && spec == Apply(old(spec), Op.Run(Tail(mem, depth)))
      ensures callStack == old(callStack) && cos == old(cos) && live == depth
      ensures memory == old(memory)[cos[callStack[|callStack| - 1]].stack := mem]
    {
      hide StandsFor, Shaped;
      Basics(Now(), live, spec);
      RunRefines(Now(), live, spec, mem, depth);
      memory := memory[cos[callStack[|callStack| - 1]].stack := mem];
      live := depth;
      spec := Apply(spec, Op.Run(Tail(mem, depth)));
    }

    /** co_yield_env */
    method Yield()
      requires Valid() && |callStack| >= 2
      modifies this
      ensures Valid() && Allowed(old(spec), Op.Yield) && spec == Apply(old(spec), Op.Yield)
      ensures callStack == old(callStack)[..|old(callStack)| - 1]
    {
      hide StandsFor, Swapped, Shaped;
      Basics(Now(), live, spec);
      YieldRefines(Now(), live, spec);
      var last := callStack[|callStack| - 2];
      var curr := callStack[|callStack| - 1];
      callStack := callStack[..|callStack| - 1];
      CoSwap(curr, last, false);
      spec := Apply(spec, Op.Yield);
    }

    /** The end of CoRoutineFunc: cEnd is set and control goes back for good. */
    method End()
      requires Valid() && |callStack| >= 2
      modifies this
      ensures Valid() && Allowed(old(spec), Op.End) && spec == Apply(old(spec), Op.End)
      ensures callStack == old(callStack)[..|old(callStack)| - 1]
    {
      hide StandsFor, Swapped, Shaped;
      Basics(Now(), live, spec);
      EndRefines(Now(), live, spec);
      var last := callStack[|callStack| - 2];
      var curr := callStack[|callStack| - 1];
      cos := cos[curr := cos[curr].(ended := true)];
      callStack := callStack[..|callStack| - 1];
      CoSwap(curr, last, false);
      spec := Apply(spec, Op.End);
    }

    /** co_free of a coroutine that is not in the resume chain. */
    method Release(co: CoId)
      requires Valid() && co in cos && co !in callStack
      modifies this
      ensures Valid() && Allowed(old(spec), Op.Release(co)) && spec == Apply(old(spec), Op.Release(co))
    {
      hide StandsFor;
      ReleaseRefines(Now(), live, spec, co);
      if cos[co].share && cos[co].stack in occupant && occupant[cos[co].stack] == co {
        occupant := occupant - {cos[co].stack};
      }
      cos := cos - {co};
      spec := Apply(spec, Op.Release(co));
    }
  }
}
