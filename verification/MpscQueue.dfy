/** The lock-free queue of many producers and one consumer, with the pipe that wakes
the consumer. Nodes live in an explicit heap, and the address of a freed node may
be handed out again. One step is one access of shared memory or one system call. */
module MpscQueue {
  import opened Common
  import opened Counting

  type Ptr = nat
  type Value = int
  const NULL: Ptr := 0
  const READ_SIZE: nat := 1024

  datatype Node = Node(value: Value, next: Ptr)

  /** Where a producer stands in Co_MPSC_NoLockQueue::push. Fault, like Crashed below, means
      that an address was dereferenced at which there is no node; v is what push() was given. */
  datatype PushPc = Idle | Link(n: Ptr, v: Value) | Cas(n: Ptr, v: Value) | Write | Fault

  /** Where the consumer stands in its loop of read() and pop(). */
  datatype PopPc = Read | Check | Peek | Load | Detach | Reverse | Take | Crashed

  /** heap, head_, outqueue_ and pop()'s n1, with what they amount to: behind holds the
      nodes still to be reversed, ready the out-queue, stack the nodes under head_
      (behind and stack are written oldest first). capacity bounds the pipe. */
  datatype State = State(heap: map<Ptr, Node>, head: Ptr, outqueue: Ptr, n1: Ptr, pipe: nat, capacity: nat,
                         behind: seq<Ptr>, ready: seq<Ptr>, stack: seq<Ptr>,
                         pushed: seq<Value>, popped: seq<Value>,
                         consumer: PopPc, pcs: map<Co, PushPc>)

  /** What the environment decides: a fresh address, the value to push, a spurious failure, a pipe error. */
  datatype Choice = Choice(spurious: bool, addr: Ptr, value: Value, ioError: bool)

  function To(s: State, c: Co, pc: PushPc): State {
    s.(pcs := s.pcs[c := pc])
  }

  function Produce(s: State, c: Co, e: Choice): State
    requires c in s.pcs
  {
    match s.pcs[c]
    case Idle =>
      if e.addr == NULL || e.addr in s.heap then s
      else To(s.(heap := s.heap[e.addr := Node(e.value, NULL)]), c, Link(e.addr, e.value))
    case Link(n, v) =>
      if n !in s.heap then To(s, c, Fault)
      else To(s.(heap := s.heap[n := s.heap[n].(next := s.head)]), c, Cas(n, v))
    case Cas(n, v) =>
      if n !in s.heap then To(s, c, Fault)
      else if s.head == s.heap[n].next && !e.spurious then
        To(s.(head := n, stack := s.stack + [n], pushed := s.pushed + [v]), c, Write)
      else
        s.(heap := s.heap[n := s.heap[n].(next := s.head)])
    case Write =>
      To(s.(pipe := if s.pipe < s.capacity then s.pipe + 1 else s.pipe), c, Idle)
    case Fault => s
  }

  function Consume(s: State, e: Choice): State {
    match s.consumer
    case Read =>
      if e.ioError then s.(consumer := Check)
      else if s.pipe == 0 then s
      else s.(pipe := if s.pipe <= READ_SIZE then 0 else s.pipe - READ_SIZE, consumer := Check)
    case Check => s.(consumer := if s.outqueue != NULL then Take else Peek)
    case Peek => s.(consumer := if s.head == NULL then Read else Load)
    case Load => s.(outqueue := s.head, consumer := Detach)
    case Detach =>
      if s.head == s.outqueue && !e.spurious then
        s.(head := NULL, n1 := s.outqueue, outqueue := NULL, behind := s.stack, stack := [], consumer := Reverse)
      else
        s.(outqueue := s.head)
    case Reverse =>
      if s.n1 == NULL then s.(consumer := Take)
      else if s.n1 !in s.heap then s.(consumer := Crashed)
      else
        s.(n1 := s.heap[s.n1].next, heap := s.heap[s.n1 := s.heap[s.n1].(next := s.outqueue)], outqueue := s.n1,
           behind := if s.behind == [] then [] else s.behind[..|s.behind| - 1], ready := [s.n1] + s.ready)
    case Take =>
      if s.outqueue == NULL then s.(consumer := Read)
      else if s.outqueue !in s.heap then s.(consumer := Crashed)
      else
        s.(popped := s.popped + [s.heap[s.outqueue].value], outqueue := s.heap[s.outqueue].next,
           heap := s.heap - {s.outqueue}, ready := if s.ready == [] then [] else s.ready[1..],
           consumer := Check)
    case Crashed => s
  }

  ghost predicate Init(s: State) {
    && s.heap == map[] && s.head == NULL && s.outqueue == NULL && s.n1 == NULL && s.pipe == 0 && s.capacity > 0
    && s.behind == s.ready == s.stack == [] && s.pushed == s.popped == [] && s.consumer == Read
    && forall c | c in s.pcs :: s.pcs[c] == Idle
  }

  ghost predicate Next(s: State, s': State) {
    || (exists e :: s' == Consume(s, e))
    || (exists c, e :: c in s.pcs && s' == Produce(s, c, e))
  }

  ghost predicate IsRun(run: seq<State>) {
    && |run| > 0 && Init(run[0])
    && forall i | 0 < i < |run| :: Next(run[i - 1], run[i])
  }

  /** The nodes of q, oldest first, each pointing to the one before, p the newest. */
  predicate Backward(heap: map<Ptr, Node>, p: Ptr, q: seq<Ptr>) {
    && p == (if q == [] then NULL else q[|q| - 1])
    && (forall i | 0 <= i < |q| :: q[i] != NULL && q[i] in heap)
    && (forall i | 0 < i < |q| :: heap[q[i]].next == q[i - 1])
    && (q != [] ==> heap[q[0]].next == NULL)
  }

  /** The nodes of q, each pointing to the one after, p the first. */
  predicate Forward(heap: map<Ptr, Node>, p: Ptr, q: seq<Ptr>) {
    && p == (if q == [] then NULL else q[0])
    && (forall i | 0 <= i < |q| :: q[i] != NULL && q[i] in heap)
    && (forall i | 0 <= i < |q| - 1 :: heap[q[i]].next == q[i + 1])
    && (q != [] ==> heap[q[|q| - 1]].next == NULL)
  }

  /** All queued nodes, oldest first. */
  function Line(s: State): seq<Ptr> {
    s.behind + s.ready + s.stack
  }

  predicate Owns(pc: PushPc, p: Ptr) {
    (pc.Link? || pc.Cas?) && pc.n == p
  }

  ghost predicate Shape(s: State) {
    && Backward(s.heap, s.head, s.stack)
    && Backward(s.heap, s.n1, s.behind)
    && (if s.consumer == Detach then s.ready == [] else Forward(s.heap, s.outqueue, s.ready))
    && (s.consumer != Reverse ==> s.behind == [])
    && (s.consumer in {Read, Peek, Load} ==> s.ready == [])
    && (s.consumer in {Load, Detach} ==> s.stack != [])
    && (s.consumer in {Reverse, Take} ==> s.behind + s.ready != [])
    && s.consumer != Crashed
    && Distinct(Line(s))
  }

  /** A producer's unlinked node is its own. */
  ghost predicate Private(s: State) {
    && (forall c | c in s.pcs && (s.pcs[c].Link? || s.pcs[c].Cas?) ::
          && s.pcs[c].n != NULL && s.pcs[c].n in s.heap && s.pcs[c].n !in Line(s)
          && s.heap[s.pcs[c].n].value == s.pcs[c].v)
    && (forall c | c in s.pcs :: s.pcs[c] != Fault)
    && (forall c, d | c in s.pcs && d in s.pcs && c != d && (s.pcs[c].Link? || s.pcs[c].Cas?) ::
          !Owns(s.pcs[d], s.pcs[c].n))
  }

  /** What was pushed is what was popped followed by what is queued. */
  ghost predicate Fifo(s: State) {
    && |s.pushed| == |s.popped| + |Line(s)|
    && (forall i | 0 <= i < |s.popped| :: s.pushed[i] == s.popped[i])
    && (forall i | 0 <= i < |Line(s)| :: Line(s)[i] in s.heap && s.pushed[|s.popped| + i] == s.heap[Line(s)[i]].value)
  }

  predicate IsWriting(pc: PushPc) { pc.Write? }

  ghost predicate Notified(s: State) {
    && s.capacity > 0
    && (s.consumer == Read && s.stack != [] ==> s.pipe > 0 || Count(s.pcs, IsWriting) >= 1)
  }

  ghost predicate Inv(s: State) {
    Shape(s) && Private(s) && Fifo(s) && Notified(s)
  }

  lemma InitInv(s: State)
    requires Init(s)
    ensures Inv(s)
  {
  }

  /** Writing a node outside q leaves q's chain alone. */
  predicate Agree(heap: map<Ptr, Node>, heap': map<Ptr, Node>, q: seq<Ptr>) {
    forall i | 0 <= i < |q| :: q[i] in heap && q[i] in heap' && heap'[q[i]] == heap[q[i]]
  }

  lemma ChainFrame(heap: map<Ptr, Node>, heap': map<Ptr, Node>, p: Ptr, q: seq<Ptr>)
    requires Agree(heap, heap', q)
    ensures Backward(heap, p, q) ==> Backward(heap', p, q)
    ensures Forward(heap, p, q) ==> Forward(heap', p, q)
  {
  }

  /** Every queued node stays, with its value. */
  lemma SameLine(s: State, s': State)
    requires Private(s) && Fifo(s)
    requires Line(s') == Line(s) && s'.pcs == s.pcs && s'.pushed == s.pushed && s'.popped == s.popped
    requires forall p | p in s.heap :: p in s'.heap && s'.heap[p].value == s.heap[p].value
    ensures Private(s') && Fifo(s')
  {
  }

  lemma DetachKeepsInv(s: State)
    requires Inv(s) && s.consumer == Detach && s.head == s.outqueue
    ensures Inv(s.(head := NULL, n1 := s.outqueue, outqueue := NULL, behind := s.stack, stack := [],
            consumer := Reverse))
  {
    var s' := s.(head := NULL, n1 := s.outqueue, outqueue := NULL, behind := s.stack, stack := [], consumer := Reverse);
    assert Line(s') == Line(s);
    SameLine(s, s');
  }

  /** The chain without its newest node. */
  lemma DropNewest(heap: map<Ptr, Node>, heap': map<Ptr, Node>, p: Ptr, q: seq<Ptr>)
    requires q != [] && Backward(heap, p, q)
    requires Agree(heap, heap', q[..|q| - 1])
    ensures Backward(heap', heap[p].next, q[..|q| - 1])
  {
  }

  lemma AddFront(heap: map<Ptr, Node>, heap': map<Ptr, Node>, p: Ptr, q: seq<Ptr>, n: Ptr)
    requires Forward(heap, p, q) && Agree(heap, heap', q)
    requires n != NULL && n in heap' && heap'[n].next == p
    ensures Forward(heap', n, [n] + q)
  {
    var r := [n] + q;
    forall i | 0 <= i < |r| - 1
      ensures heap'[r[i]].next == r[i + 1]
    {
      if i > 0 { assert r[i] == q[i - 1] && r[i + 1] == q[i]; }
    }
  }

  /** Nodes of a line without repetition. */
  lemma Apart(s: State)
    requires Distinct(Line(s))
    ensures forall i, j | 0 <= i < |s.behind| && 0 <= j < |s.ready| :: s.behind[i] != s.ready[j]
    ensures forall i, j | 0 <= i < |s.behind| && 0 <= j < |s.stack| :: s.behind[i] != s.stack[j]
    ensures forall i, j | 0 <= i < |s.ready| && 0 <= j < |s.stack| :: s.ready[i] != s.stack[j]
    ensures Distinct(s.behind) && Distinct(s.ready) && Distinct(s.stack)
  {
    LineAt(s);
  }

  /** One turn of the reversal loop moves the newest node behind to the front of the out-queue. */
  lemma ReverseKeepsInv(s: State, e: Choice)
    requires Inv(s) && s.consumer == Reverse && s.n1 != NULL
    ensures Inv(Consume(s, e))
  {
    hide Private, Fifo, Distinct;
    var s' := Consume(s, e);
    var k := |s.behind| - 1;
    assert s.behind == s.behind[..k] + [s.n1];
    assert Line(s') == Line(s);
    ReverseApart(s);
    DropNewest(s.heap, s'.heap, s.n1, s.behind);
    AddFront(s.heap, s'.heap, s.outqueue, s.ready, s.n1);
    ChainFrame(s.heap, s'.heap, s.head, s.stack);
    SameLine(s, s');
  }

  lemma ReverseApart(s: State)
    requires Shape(s) && s.consumer == Reverse && s.n1 != NULL
    ensures s.behind != [] && s.n1 in s.heap && s.n1 == s.behind[|s.behind| - 1]
    ensures var h := s.heap[s.n1 := s.heap[s.n1].(next := s.outqueue)];
            && Agree(s.heap, h, s.behind[..|s.behind| - 1]) && Agree(s.heap, h, s.ready) && Agree(s.heap, h, s.stack)
  {
    Apart(s);
  }

  /** Where the parts of the line are in it. */
  lemma LineAt(s: State)
    ensures var b, r := |s.behind|, |s.ready|;
            && (forall i | 0 <= i < b :: s.behind[i] == Line(s)[i])
            && (forall i | 0 <= i < r :: s.ready[i] == Line(s)[b + i])
            && (forall i | 0 <= i < |s.stack| :: s.stack[i] == Line(s)[b + r + i])
  {
  }

  lemma DropFront(heap: map<Ptr, Node>, heap': map<Ptr, Node>, p: Ptr, q: seq<Ptr>)
    requires q != [] && Forward(heap, p, q)
    requires Agree(heap, heap', q[1..])
    ensures Forward(heap', heap[p].next, q[1..])
  {
    var r := q[1..];
    assert forall i | 0 <= i < |r| :: r[i] == q[i + 1];
  }

  lemma TakeApart(s: State)
    requires Shape(s) && s.consumer == Take && s.outqueue != NULL
    ensures s.behind == [] && s.ready != [] && s.outqueue in s.heap && s.outqueue == s.ready[0]
    ensures var h := s.heap - {s.outqueue}; Agree(s.heap, h, s.ready[1..]) && Agree(s.heap, h, s.stack)
  {
    Apart(s);
  }

  /** The oldest node leaves the line. */
  lemma TakeLine(s: State, s': State)
    requires Private(s) && Fifo(s) && Line(s) != [] && Distinct(Line(s))
    requires Line(s') == Line(s)[1..] && s'.pcs == s.pcs && s'.pushed == s.pushed
    requires Line(s)[0] in s.heap && s'.popped == s.popped + [s.heap[Line(s)[0]].value]
    requires s'.heap == s.heap - {Line(s)[0]}
    ensures Private(s') && Fifo(s') && Distinct(Line(s'))
  {
    var l, l' := Line(s), Line(s');
    assert forall i | 0 <= i < |l'| :: l'[i] == l[i + 1] && l'[i] != l[0];
    forall i | 0 <= i < |l'|
      ensures l'[i] in s'.heap && s'.pushed[|s'.popped| + i] == s'.heap[l'[i]].value
    {
      assert s.pushed[|s.popped| + (i + 1)] == s.heap[l[i + 1]].value;
    }
    assert s.pushed[|s.popped| + 0] == s.heap[l[0]].value;
  }

  lemma TakeKeepsShape(s: State, s': State)
    requires Shape(s) && s.consumer == Take && s' == Consume(s, Choice(false, 0, 0, false))
    ensures s.outqueue in s.heap && s.ready != [] && s.outqueue == s.ready[0]
    ensures Line(s) == [s.outqueue] + Line(s') && s'.heap == s.heap - {s.outqueue}
    ensures Distinct(Line(s')) ==> Shape(s')
  {
    hide Distinct, Backward, Forward;
    EmptyChain(s.heap, s.outqueue, s.ready);
    assert s.ready == [s.ready[0]] + s.ready[1..];
    TakeApart(s);
    ChainFrame(s.heap, s'.heap, s.n1, s.behind);
    DropFront(s.heap, s'.heap, s.outqueue, s.ready);
    ChainFrame(s.heap, s'.heap, s.head, s.stack);
  }

  lemma TakeKeepsInv(s: State, e: Choice)
    requires Inv(s) && s.consumer == Take
    ensures Inv(Consume(s, e))
  {
    hide Private, Fifo, Distinct;
    var s' := Consume(s, e);
    TakeKeepsShape(s, s');
    assert Distinct(Line(s));
    hide Shape;
    TakeLine(s, s');
  }

  lemma ConsumeKeepsInv(s: State, e: Choice)
    requires Inv(s)
    ensures Inv(Consume(s, e))
  {
    hide Private, Fifo, Shape, Notified;
    if s.consumer == Detach && s.head == s.outqueue && !e.spurious {
      DetachKeepsInv(s);
    } else if s.consumer == Reverse && s.n1 != NULL {
      ReverseKeepsInv(s, e);
    } else if s.consumer == Take {
      TakeKeepsInv(s, e);
    } else {
      QuietKeepsShape(s, e);
      QuietKeepsLine(s, Consume(s, e));
    }
  }

  /** The steps of the consumer that leave the nodes alone. */
  predicate Quiet(s: State, e: Choice) {
    && !(s.consumer == Detach && s.head == s.outqueue && !e.spurious)
    && !(s.consumer == Reverse && s.n1 != NULL) && s.consumer != Take
  }

  lemma QuietKeepsShape(s: State, e: Choice)
    requires Shape(s) && Notified(s) && Quiet(s, e)
    ensures Shape(Consume(s, e)) && Notified(Consume(s, e))
  {
    hide Distinct, Count, Backward, Forward;
    EmptyChain(s.heap, s.head, s.stack);
    EmptyChain(s.heap, s.n1, s.behind);
    EmptyChain(s.heap, s.outqueue, s.ready);
    assert Line(Consume(s, e)) == Line(s);
  }

  lemma EmptyChain(heap: map<Ptr, Node>, p: Ptr, q: seq<Ptr>)
    ensures Backward(heap, p, q) || Forward(heap, p, q) ==> (p == NULL <==> q == [])
    ensures Forward(heap, NULL, [])
  {
  }

  lemma QuietKeepsLine(s: State, s': State)
    requires Private(s) && Fifo(s)
    requires s'.heap == s.heap && s'.behind == s.behind && s'.ready == s.ready && s'.stack == s.stack
    requires s'.pcs == s.pcs && s'.pushed == s.pushed && s'.popped == s.popped
    ensures Private(s') && Fifo(s')
  {
    hide Private, Fifo;
    assert Line(s') == Line(s);
    SameLine(s, s');
  }

  /** A producer writes its own, unlinked node. */
  predicate Writes(s: State, c: Co, s': State, n: Ptr) {
    && c in s.pcs && c in s'.pcs && n != NULL && n !in Line(s) && n in s'.heap
    && s' == s.(heap := s.heap[n := s'.heap[n]], pcs := s.pcs[c := s'.pcs[c]])
    && (n in s.heap ==> Owns(s.pcs[c], n))
    && Owns(s'.pcs[c], n) && s'.heap[n].value == s'.pcs[c].v
    && !IsWriting(s.pcs[c])
  }

  lemma WriteKeepsShape(s: State, c: Co, s': State, n: Ptr)
    requires Shape(s) && Writes(s, c, s', n)
    ensures Shape(s')
  {
    hide Distinct, Backward, Forward, Owns;
    assert n !in s.behind && n !in s.ready && n !in s.stack;
    WriteKeepsChain(s.heap, s.head, s.stack, n, s'.heap[n]);
    WriteKeepsChain(s.heap, s.n1, s.behind, n, s'.heap[n]);
    WriteKeepsChain(s.heap, s.outqueue, s.ready, n, s'.heap[n]);
    assert Line(s') == Line(s);
  }

  lemma WriteKeepsChain(heap: map<Ptr, Node>, p: Ptr, q: seq<Ptr>, n: Ptr, x: Node)
    requires n !in q
    ensures Backward(heap, p, q) ==> Backward(heap[n := x], p, q)
    ensures Forward(heap, p, q) ==> Forward(heap[n := x], p, q)
  {
  }

  lemma WriteKeepsPrivate(s: State, c: Co, s': State, n: Ptr)
    requires Private(s) && Writes(s, c, s', n)
    ensures Private(s')
  {
    assert Line(s') == Line(s);
  }

  lemma WriteKeepsInv(s: State, c: Co, s': State, n: Ptr)
    requires Inv(s) && Writes(s, c, s', n)
    ensures Inv(s')
  {
    hide Count, Distinct, Shape, Private;
    WriteKeepsShape(s, c, s', n);
    WriteKeepsPrivate(s, c, s', n);
    assert Line(s') == Line(s);
    CountUpdate(s.pcs, c, s'.pcs[c], IsWriting);
  }

  lemma PushKeepsChains(s: State, c: Co, n: Ptr, s': State)
    requires Shape(s) && n != NULL && n in s.heap && s.head == s.heap[n].next && n !in Line(s)
    requires s' == To(s.(head := n, stack := s.stack + [n], pushed := s'.pushed), c, Write)
    ensures Shape(s') && Line(s') == Line(s) + [n]
  {
    assert Line(s') == Line(s) + [n];
  }

  lemma PushKeepsFifo(s: State, c: Co, n: Ptr, v: Value, s': State)
    requires Private(s) && Fifo(s) && c in s.pcs && s.pcs[c] == Cas(n, v) && n in s.heap
    requires s' == To(s.(head := n, stack := s.stack + [n], pushed := s.pushed + [v]), c, Write)
    requires Line(s') == Line(s) + [n]
    ensures Private(s') && Fifo(s')
  {
    hide Line;
  }

  /** The successful compare-exchange puts the node at the young end of the line. */
  lemma PushKeepsInv(s: State, c: Co, n: Ptr, v: Value)
    requires Inv(s) && c in s.pcs && s.pcs[c] == Cas(n, v) && n in s.heap && s.head == s.heap[n].next
    ensures Inv(To(s.(head := n, stack := s.stack + [n], pushed := s.pushed + [v]), c, Write))
  {
    hide Count, Shape, Fifo, Distinct;
    var s' := To(s.(head := n, stack := s.stack + [n], pushed := s.pushed + [v]), c, Write);
    PushKeepsChains(s, c, n, s');
    PushKeepsFifo(s, c, n, v, s');
    CountUpdate(s.pcs, c, Write, IsWriting);
  }

  lemma NotifyKeepsInv(s: State, c: Co)
    requires Inv(s) && c in s.pcs && s.pcs[c] == Write
    ensures Inv(To(s.(pipe := if s.pipe < s.capacity then s.pipe + 1 else s.pipe), c, Idle))
  {
    hide Count, Shape, Distinct;
    var s' := To(s.(pipe := if s.pipe < s.capacity then s.pipe + 1 else s.pipe), c, Idle);
    assert Line(s') == Line(s);
    assert Shape(s') by { PipeKeepsShape(s, s'); }
    CountUpdate(s.pcs, c, Idle, IsWriting);
  }

  lemma PipeKeepsShape(s: State, s': State)
    requires Shape(s) && s' == s.(pipe := s'.pipe, pcs := s'.pcs)
    ensures Shape(s')
  {
  }

  lemma ProduceKeepsInv(s: State, c: Co, e: Choice)
    requires Inv(s) && c in s.pcs
    ensures Inv(Produce(s, c, e))
  {
    hide Count, Shape, Fifo, Distinct, Notified;
    var s' := Produce(s, c, e);
    match s.pcs[c]
    case Idle =>
      if s' != s {
        NotQueued(s, e.addr);
        WriteKeepsInv(s, c, s', e.addr);
      }
    case Link(n, _) => WriteKeepsInv(s, c, s', n);
    case Cas(n, v) =>
      if s.head == s.heap[n].next && !e.spurious {
        PushKeepsInv(s, c, n, v);
      } else {
        assert s'.pcs == s.pcs[c := s'.pcs[c]];
        WriteKeepsInv(s, c, s', n);
      }
    case Write => NotifyKeepsInv(s, c);
  }

  lemma NotQueued(s: State, p: Ptr)
    requires Fifo(s) && p !in s.heap
    ensures p !in Line(s)
  {
  }

  lemma {:induction false} RunsKeepInv(run: seq<State>, i: nat)
    requires IsRun(run) && i < |run|
    ensures Inv(run[i])
  {
    hide Inv;
    if i == 0 {
      InitInv(run[0]);
    } else {
      RunsKeepInv(run, i - 1);
      var s := run[i - 1];
      assert Next(s, run[i]);
      if e :| run[i] == Consume(s, e) {
        ConsumeKeepsInv(s, e);
      } else {
        var c, e :| c in s.pcs && run[i] == Produce(s, c, e);
        ProduceKeepsInv(s, c, e);
      }
    }
  }

  function Values(heap: map<Ptr, Node>, q: seq<Ptr>): seq<Value>
    requires forall i | 0 <= i < |q| :: q[i] in heap
  {
    seq(|q|, i requires 0 <= i < |q| => heap[q[i]].value)
  }

  /** Values come out in the order of the successful push compare-exchanges, none lost,
      none twice: what was pushed is what was popped and then what is queued. */
  lemma PopsInPushOrder(run: seq<State>, i: nat)
    requires IsRun(run) && i < |run|
    ensures forall k | 0 <= k < |Line(run[i])| :: Line(run[i])[k] in run[i].heap
    ensures run[i].pushed == run[i].popped + Values(run[i].heap, Line(run[i]))
  {
    hide Shape, Private, Notified, IsRun;
    RunsKeepInv(run, i);
  }

  /** A consumer that blocks in read() on an empty pipe, with no producer between its
      compare-exchange and its write, has an empty queue, even though writes to a full
      pipe are dropped. */
  lemma BlockedOnlyWhenEmpty(run: seq<State>, i: nat)
    requires IsRun(run) && i < |run|
    requires run[i].consumer == Read && run[i].pipe == 0
    requires forall c | c in run[i].pcs :: run[i].pcs[c] != Write
    ensures run[i].pushed == run[i].popped
  {
    hide Private, IsRun, Distinct;
    RunsKeepInv(run, i);
    CountNone(run[i].pcs, IsWriting);
    assert Line(run[i]) == [];
  }

  /** No access to an address without a node: neither side touches a freed one. */
  lemma NoDanglingAccess(run: seq<State>, i: nat)
    requires IsRun(run) && i < |run|
    ensures run[i].consumer != Crashed && forall c | c in run[i].pcs :: run[i].pcs[c] != Fault
  {
    hide IsRun, Fifo, Notified, Distinct;
    RunsKeepInv(run, i);
  }
}
