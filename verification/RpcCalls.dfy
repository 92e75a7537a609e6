/** The life of RPC calls across the threads of a client.

A call is known outside its thread only by the address of its coroutine and its expiry.
Both are used again: a coroutine that has timed out makes new calls, and its address may
pass to another coroutine, while tokens and messages of the old call are still about.
Any number of calls, connections and threads; one event is one atomic action. */
module RpcCalls {

  import opened Common

  type Pid = nat
  type Conn = nat
  type CallId = nat

  /** expire 0 is a call without timeout. */
  datatype Call = Call(pid: Pid, co: Co, expire: nat)

  /** Where the task of a call is. loc is a history variable: no event looks at it. */
  datatype Loc = Queued | ToSend(conn: Conn) | InHand(conn: Conn) | Awaiting(conn: Conn) | Recorded | Gone

  /** blocked: the call in which the coroutine at an address waits.
      timers: timeoutList_ of each thread.
      queue, sends, hands: taskQueue_, waitSendTaskCoList_, tasks between the choice of a connection and the map.
      results: waitResultCoMap_ of each connection, by coroutine address.
      messages: requests and replies under way. records: waitResumeQueue_ of the threads.
      wakes: for each activation, the call it was meant for and the call the coroutine was blocked in.
      fills: for each reply used, the call it answers and the call that got it. */
  datatype State = State(clock: nat, calls: seq<Call>, blocked: map<Co, CallId>, timers: map<(Pid, Co), CallId>,
                         queue: multiset<CallId>, sends: multiset<(Conn, CallId)>, hands: multiset<(Conn, CallId)>,
                         results: map<(Conn, Co), CallId>, messages: set<(Conn, CallId)>, records: multiset<CallId>,
                         closed: set<Conn>, loc: map<CallId, Loc>,
                         wakes: seq<(CallId, Option<CallId>)>, fills: seq<(CallId, CallId)>)

  predicate Init(s: State) {
    && s.calls == [] && s.blocked == map[] && s.timers == map[] && s.queue == multiset{} && s.sends == multiset{}
    && s.hands == multiset{} && s.results == map[] && s.messages == {} && s.records == multiset{}
    && s.loc == map[] && s.wakes == [] && s.fills == []
  }

  datatype Event =
    | Tick(clock: nat)                                // time passes
    | Invoke(pid: Pid, co: Co, timeout: nat)          // CallMethod up to the yield
    | Refuse(c: CallId)                               // no connection to be had
    | Choose(c: CallId, conn: Conn, connecting: bool) // taskHandleRoutine picks a connection
    | Fail(c: CallId, conn: Conn)                     // connect failed for a task that waits to be sent
    | Connected(c: CallId, conn: Conn)                // the connection is there for a task that waits
    | Submit(c: CallId, conn: Conn, now: nat)         // into the map and off, unless expired at now
    | Lose(c: CallId, conn: Conn)                     // no reply comes
    | Reply(c: CallId, conn: Conn)                    // decode of the reply to c
    | Close(conn: Conn)                               // the connection goes down
    | Clean(conn: Conn, co: Co)                       // one entry of a closed connection's map
    | Resume(c: CallId)                               // resumeRoutine takes the record of c
    | Expire(pid: Pid, co: Co)                        // timeoutRoutine

  predicate Enabled(s: State, e: Event) {
    match e
    case Tick(t) => s.clock <= t
    case Invoke(_, co, _) => co !in s.blocked
    case Refuse(c) => c in s.queue
    case Choose(c, _, _) => c in s.queue
    case Fail(c, k) => (k, c) in s.sends
    case Connected(c, k) => (k, c) in s.sends
    case Submit(c, k, now) => (k, c) in s.hands && now <= s.clock
    case Lose(c, k) => (k, c) in s.messages
    case Reply(c, k) => (k, c) in s.messages && c < |s.calls|
    case Close(_) => true
    case Clean(k, co) => k in s.closed && (k, co) in s.results
    case Resume(c) => c in s.records && c < |s.calls|
    case Expire(p, co) =>
      (p, co) in s.timers && s.timers[(p, co)] < |s.calls| && s.calls[s.timers[(p, co)]].expire <= s.clock
  }

  /** co_activate: the coroutine at the address runs again. */
  function Activated(s: State, co: Co, c: CallId): State {
    s.(wakes := s.wakes + [(c, if co in s.blocked then Some(s.blocked[co]) else None)], blocked := s.blocked - {co})
  }

  /** resumeCoroutine of a task. */
  function Posted(s: State, c: CallId): State {
    s.(records := s.records + multiset{c}, loc := s.loc[c := Recorded])
  }

  /** An entry of a connection's map makes way. */
  function Evict(s: State, k: Conn, co: Co): State {
    if (k, co) in s.results then s.(results := s.results - {(k, co)}, loc := s.loc[s.results[(k, co)] := Gone]) else s
  }

  function Enter(s: State, c: CallId, k: Conn): State
    requires c < |s.calls|
  {
    s.(hands := s.hands - multiset{(k, c)}, loc := s.loc[c := Awaiting(k)],
      results := s.results[(k, s.calls[c].co) := c],
       messages := if k in s.closed then s.messages else s.messages + {(k, c)})
  }

  /** The map entry is assigned, not inserted: an older one under the address is lost. */
  function Submitted(s: State, c: CallId, k: Conn, now: nat): State
    requires c < |s.calls|
  {
    var a := s.calls[c];
    if a.expire != 0 && a.expire <= now then s.(hands := s.hands - multiset{(k, c)}, loc := s.loc[c := Gone])
    else Enter(Evict(s, k, a.co), c, k)
  }

  /** decode: found by address, checked by expiry. */
  function Replied(s: State, c: CallId, k: Conn): State
    requires c < |s.calls|
  {
    var s1 := s.(messages := s.messages - {(k, c)});
    var key := (k, s.calls[c].co);
    if key !in s.results || s.results[key] >= |s.calls| || s.calls[s.results[key]].expire != s.calls[c].expire then s1
    else
      var d := s.results[key];
      Posted(s1.(results := s.results - {key}, fills := s.fills + [(c, d)]), d)
  }

  /** resumeRoutine: a record with an expiry counts only if the timer of that very expiry is still there. */
  function Resumed(s: State, c: CallId): State
    requires c < |s.calls|
  {
    var s1 := s.(records := s.records - multiset{c}, loc := s.loc[c := Gone]);
    var a := s.calls[c];
    var key := (a.pid, a.co);
    if a.expire == 0 then Activated(s1, a.co, c)
    else if key in s.timers && s.timers[key] < |s.calls| && s.calls[s.timers[key]].expire == a.expire then
      Activated(s1.(timers := s.timers - {key}), a.co, c)
    else s1
  }

  function Invoked(s: State, pid: Pid, co: Co, timeout: nat): State {
    var c, expire := |s.calls|, if timeout > 0 then s.clock + timeout else 0;
    s.(calls := s.calls + [Call(pid, co, expire)], blocked := s.blocked[co := c],
       timers := if timeout > 0 then s.timers[(pid, co) := c] else s.timers,
       queue := s.queue + multiset{c}, loc := s.loc[c := Queued])
  }

  function Next(s: State, e: Event): State
    requires Enabled(s, e)
  {
    match e
    case Tick(t) => s.(clock := t)
    case Invoke(pid, co, timeout) => Invoked(s, pid, co, timeout)
    case Refuse(c) => Posted(s.(queue := s.queue - multiset{c}), c)
    case Choose(c, k, connecting) =>
      if connecting
      then s.(queue := s.queue - multiset{c}, sends := s.sends + multiset{(k, c)}, loc := s.loc[c := ToSend(k)])
      else s.(queue := s.queue - multiset{c}, hands := s.hands + multiset{(k, c)}, loc := s.loc[c := InHand(k)])
    case Fail(c, k) => Posted(s.(sends := s.sends - multiset{(k, c)}), c)
    case Connected(c, k) =>
      s.(sends := s.sends - multiset{(k, c)}, hands := s.hands + multiset{(k, c)}, loc := s.loc[c := InHand(k)])
    case Submit(c, k, now) => if c < |s.calls| then Submitted(s, c, k, now) else s
    case Lose(c, k) => s.(messages := s.messages - {(k, c)})
    case Reply(c, k) => Replied(s, c, k)
    case Close(k) => s.(closed := s.closed + {k}, messages := set m | m in s.messages && m.0 != k)
    case Clean(k, co) => Posted(s.(results := s.results - {(k, co)}), s.results[(k, co)])
    case Resume(c) => Resumed(s, c)
    case Expire(p, co) => Activated(s.(timers := s.timers - {(p, co)}), co, s.timers[(p, co)])
  }

  ghost predicate IsRun(run: seq<State>, events: seq<Event>) {
    && |run| == |events| + 1 && Init(run[0])
    && forall i | 0 <= i < |events| :: Enabled(run[i], events[i]) && run[i + 1] == Next(run[i], events[i])
  }

  // ----- invariants -----

  ghost predicate At(loc: map<CallId, Loc>, c: CallId, l: Loc) {
    c in loc && loc[c] == l
  }

  /** A call has at most one task, and it is where loc says. */
  ghost predicate TasksOk(n: nat, loc: map<CallId, Loc>, queue: multiset<CallId>, sends: multiset<(Conn, CallId)>,
                          hands: multiset<(Conn, CallId)>, records: multiset<CallId>) {
    && (forall c: nat :: c in loc <==> c < n)
    && Held(loc, queue, Queued) && Held(loc, records, Recorded) && HeldAt(loc, sends, false) && HeldAt(loc, hands, true)
  }

  ghost predicate Held(loc: map<CallId, Loc>, ms: multiset<CallId>, l: Loc) {
    (forall c | c in ms :: ms[c] == 1 && At(loc, c, l)) && (forall c | At(loc, c, l) :: c in ms)
  }

  function Place(k: Conn, hand: bool): Loc {
    if hand then InHand(k) else ToSend(k)
  }

  ghost predicate HeldAt(loc: map<CallId, Loc>, ms: multiset<(Conn, CallId)>, hand: bool) {
    && (forall k, c | (k, c) in ms :: ms[(k, c)] == 1 && At(loc, c, Place(k, hand)))
    && (forall k: Conn, c: CallId | At(loc, c, Place(k, hand)) :: (k, c) in ms)
  }

  lemma HeldMoves(loc: map<CallId, Loc>, ms: multiset<CallId>, l: Loc, c: CallId, l': Loc)
    requires Held(loc, ms, l)
    ensures c in ms ==> c in loc && loc[c] == l && (l' != l ==> Held(loc[c := l'], ms - multiset{c}, l))
    ensures c !in loc || loc[c] != l ==>
              (l' != l ==> Held(loc[c := l'], ms, l)) && Held(loc[c := l], ms + multiset{c}, l)
  {
    assert c in ms ==> At(loc, c, l);
    hide Held;
    if c in ms && l' != l { HeldLeaves(loc, ms, l, c, l'); }
    if c !in loc || loc[c] != l {
      if l' != l { HeldStays(loc, ms, l, c, l'); }
      HeldJoins(loc, ms, l, c);
    }
  }

  lemma HeldLeaves(loc: map<CallId, Loc>, ms: multiset<CallId>, l: Loc, c: CallId, l': Loc)
    requires Held(loc, ms, l) && c in ms && l' != l
    ensures Held(loc[c := l'], ms - multiset{c}, l)
  {
    forall x: CallId | At(loc[c := l'], x, l)
      ensures x in ms - multiset{c}
    {
      assert At(loc, x, l);
    }
  }

  lemma HeldStays(loc: map<CallId, Loc>, ms: multiset<CallId>, l: Loc, c: CallId, l': Loc)
    requires Held(loc, ms, l) && (c !in loc || loc[c] != l) && l' != l
    ensures Held(loc[c := l'], ms, l)
  {
    forall x: CallId | At(loc[c := l'], x, l)
      ensures x in ms
    {
      assert At(loc, x, l);
    }
  }

  lemma HeldJoins(loc: map<CallId, Loc>, ms: multiset<CallId>, l: Loc, c: CallId)
    requires Held(loc, ms, l) && (c !in loc || loc[c] != l)
    ensures Held(loc[c := l], ms + multiset{c}, l)
  {
    assert c !in ms;
    forall x: CallId | At(loc[c := l], x, l)
      ensures x in ms + multiset{c}
    {
      assert x != c ==> At(loc, x, l);
    }
  }

  /** The places that a task holder of that kind stands for. */
  predicate IsPlace(l: Loc, hand: bool) {
    if hand then l.InHand? else l.ToSend?
  }

  lemma HeldAtMoves(loc: map<CallId, Loc>, ms: multiset<(Conn, CallId)>, hand: bool, k: Conn, c: CallId, l': Loc)
    requires HeldAt(loc, ms, hand)
    ensures (k, c) in ms ==>
              && c in loc && loc[c] == Place(k, hand)
              && (!IsPlace(l', hand) ==> HeldAt(loc[c := l'], ms - multiset{(k, c)}, hand))
    ensures c !in loc || !IsPlace(loc[c], hand) ==>
              && (!IsPlace(l', hand) ==> HeldAt(loc[c := l'], ms, hand))
              && HeldAt(loc[c := Place(k, hand)], ms + multiset{(k, c)}, hand)
  {
    hide HeldAt;
    if (k, c) in ms && !IsPlace(l', hand) { HeldAtLeaves(loc, ms, hand, k, c, l'); }
    if (k, c) in ms { HeldAtPlace(loc, ms, hand, k, c); }
    if c !in loc || !IsPlace(loc[c], hand) {
      if !IsPlace(l', hand) { HeldAtStays(loc, ms, hand, c, l'); }
      HeldAtJoins(loc, ms, hand, k, c);
    }
  }

  lemma HeldAtPlace(loc: map<CallId, Loc>, ms: multiset<(Conn, CallId)>, hand: bool, k: Conn, c: CallId)
    requires HeldAt(loc, ms, hand) && (k, c) in ms
    ensures At(loc, c, Place(k, hand)) && ms[(k, c)] == 1
  {
  }

  lemma HeldAtLeaves(loc: map<CallId, Loc>, ms: multiset<(Conn, CallId)>, hand: bool, k: Conn, c: CallId, l': Loc)
    requires HeldAt(loc, ms, hand) && (k, c) in ms && !IsPlace(l', hand)
    ensures HeldAt(loc[c := l'], ms - multiset{(k, c)}, hand)
  {
    assert At(loc, c, Place(k, hand));
    forall k': Conn, c': CallId | At(loc[c := l'], c', Place(k', hand))
      ensures (k', c') in ms - multiset{(k, c)}
    {
      assert At(loc, c', Place(k', hand));
    }
  }

  lemma HeldAtStays(loc: map<CallId, Loc>, ms: multiset<(Conn, CallId)>, hand: bool, c: CallId, l': Loc)
    requires HeldAt(loc, ms, hand) && (c !in loc || !IsPlace(loc[c], hand)) && !IsPlace(l', hand)
    ensures HeldAt(loc[c := l'], ms, hand)
  {
    forall k': Conn, c': CallId | At(loc[c := l'], c', Place(k', hand))
      ensures (k', c') in ms
    {
      assert At(loc, c', Place(k', hand));
    }
  }

  lemma HeldAtJoins(loc: map<CallId, Loc>, ms: multiset<(Conn, CallId)>, hand: bool, k: Conn, c: CallId)
    requires HeldAt(loc, ms, hand) && (c !in loc || !IsPlace(loc[c], hand))
    ensures HeldAt(loc[c := Place(k, hand)], ms + multiset{(k, c)}, hand)
  {
    assert (k, c) !in ms;
    forall k': Conn, c': CallId | At(loc[c := Place(k, hand)], c', Place(k', hand))
      ensures (k', c') in ms + multiset{(k, c)}
    {
      assert c' != c ==> At(loc, c', Place(k', hand));
    }
  }

  /** What the four holders of tasks become when the task of c moves to l. */
  lemma TasksMove(s: State, k: Conn, c: CallId, l: Loc)
    requires Inv(s)
    ensures var loc := s.loc[c := l];
            && (c in s.queue ==> At(s.loc, c, Queued) && (l != Queued ==> Held(loc, s.queue - multiset{c}, Queued)))
            && (c in s.records ==>
                  At(s.loc, c, Recorded) && (l != Recorded ==> Held(loc, s.records - multiset{c}, Recorded)))
            && ((k, c) in s.sends ==>
                  At(s.loc, c, ToSend(k)) && (!l.ToSend? ==> HeldAt(loc, s.sends - multiset{(k, c)}, false)))
            && ((k, c) in s.hands ==>
                  At(s.loc, c, InHand(k)) && (!l.InHand? ==> HeldAt(loc, s.hands - multiset{(k, c)}, true)))
            && (c !in s.loc || s.loc[c] != Queued ==>
                  && (l != Queued ==> Held(loc, s.queue, Queued))
                  && Held(s.loc[c := Queued], s.queue + multiset{c}, Queued))
            && (c !in s.loc || s.loc[c] != Recorded ==>
                  && (l != Recorded ==> Held(loc, s.records, Recorded))
                  && Held(s.loc[c := Recorded], s.records + multiset{c}, Recorded))
            && (c !in s.loc || !s.loc[c].ToSend? ==>
                  && (!l.ToSend? ==> HeldAt(loc, s.sends, false))
                  && HeldAt(s.loc[c := ToSend(k)], s.sends + multiset{(k, c)}, false))
            && (c !in s.loc || !s.loc[c].InHand? ==>
                  && (!l.InHand? ==> HeldAt(loc, s.hands, true))
                  && HeldAt(s.loc[c := InHand(k)], s.hands + multiset{(k, c)}, true))
  {
    hide ResultsOk, MessagesOk, BlockedOk, PastOk, LogsOk, Held, HeldAt;
    HeldMoves(s.loc, s.queue, Queued, c, l);
    HeldMoves(s.loc, s.records, Recorded, c, l);
    HeldAtMoves(s.loc, s.sends, false, k, c, l);
    HeldAtMoves(s.loc, s.hands, true, k, c, l);
  }

  /** The map of a connection holds exactly the tasks that await their reply there. */
  ghost predicate ResultsOk(calls: seq<Call>, loc: map<CallId, Loc>, results: map<(Conn, Co), CallId>) {
    && (forall k, co | (k, co) in results ::
          var c := results[(k, co)]; c < |calls| && At(loc, c, Awaiting(k)) && calls[c].co == co)
    && (forall c | c in loc && loc[c].Awaiting? && c < |calls| ::
          var key := (loc[c].conn, calls[c].co); key in results && results[key] == c)
  }

  /** A message belongs to a task that awaits it, or has lost its place. */
  ghost predicate MessagesOk(loc: map<CallId, Loc>, messages: set<(Conn, CallId)>) {
    forall k, c | (k, c) in messages :: At(loc, c, Awaiting(k)) || At(loc, c, Gone)
  }

  ghost predicate ClosedOk(closed: set<Conn>, messages: set<(Conn, CallId)>) {
    forall k, c | (k, c) in messages :: k !in closed
  }

  ghost predicate Waits(calls: seq<Call>, blocked: map<Co, CallId>, c: CallId) {
    c < |calls| && calls[c].co in blocked && blocked[calls[c].co] == c
  }

  /** A coroutine is blocked in its own latest call; timers are exactly those of timed calls that wait. */
  ghost predicate BlockedOk(calls: seq<Call>, blocked: map<Co, CallId>, timers: map<(Pid, Co), CallId>) {
    && (forall co | co in blocked :: Waits(calls, blocked, blocked[co]) && calls[blocked[co]].co == co)
    && (forall d: nat | d < |calls| && calls[d].co in blocked :: d <= blocked[calls[d].co])
    && (forall p, co | (p, co) in timers ::
          var c := timers[(p, co)];
          Waits(calls, blocked, c) && calls[c].pid == p && calls[c].co == co && calls[c].expire > 0)
    && (forall c: nat | Waits(calls, blocked, c) && calls[c].expire > 0 ::
          var key := (calls[c].pid, calls[c].co); key in timers && timers[key] == c)
  }

  ghost predicate HasMessage(messages: set<(Conn, CallId)>, c: CallId) {
    exists k :: (k, c) in messages
  }

  ghost predicate Lingers(loc: map<CallId, Loc>, messages: set<(Conn, CallId)>, c: CallId) {
    (c in loc && loc[c] != Gone) || HasMessage(messages, c)
  }

  /** What is left of a call that is over has an expiry in the past, unlike every later call from the address. */
  ghost predicate PastOk(clock: nat, calls: seq<Call>, blocked: map<Co, CallId>, loc: map<CallId, Loc>,
                         messages: set<(Conn, CallId)>) {
    && (forall c: nat | c < |calls| && Lingers(loc, messages, c) && !Waits(calls, blocked, c) ::
          0 < calls[c].expire <= clock)
    && (forall c: nat, d: nat | c < d < |calls| && calls[c].co == calls[d].co && Lingers(loc, messages, c) ::
          calls[d].expire == 0 || calls[c].expire < calls[d].expire)
  }

  /** Every activation was meant for the call that the coroutine was blocked in, and happened once;
      every reply went to the call that it answers. */
  ghost predicate LogsOk(calls: seq<Call>, blocked: map<Co, CallId>, wakes: seq<(CallId, Option<CallId>)>,
                         fills: seq<(CallId, CallId)>) {
    && (forall i | 0 <= i < |wakes| ::
         wakes[i].0 < |calls| && !Waits(calls, blocked, wakes[i].0) && wakes[i].1 == Some(wakes[i].0))
    && (forall i, j | 0 <= i < j < |wakes| :: wakes[i].0 != wakes[j].0)
    && (forall i | 0 <= i < |fills| :: fills[i].0 == fills[i].1)
  }

  ghost predicate Inv(s: State) {
    && TasksOk(|s.calls|, s.loc, s.queue, s.sends, s.hands, s.records) && ResultsOk(s.calls, s.loc, s.results)
    && MessagesOk(s.loc, s.messages) && ClosedOk(s.closed, s.messages) && BlockedOk(s.calls, s.blocked, s.timers)
    && PastOk(s.clock, s.calls, s.blocked, s.loc, s.messages) && LogsOk(s.calls, s.blocked, s.wakes, s.fills)
  }

  lemma InitInv(s: State)
    requires Init(s)
    ensures Inv(s)
  {
  }

  // ----- tasks that move -----

  /** A call whose task is neither in a map nor gone has no message. */
  lemma NoMessage(loc: map<CallId, Loc>, messages: set<(Conn, CallId)>, c: CallId)
    requires MessagesOk(loc, messages) && c in loc && !loc[c].Awaiting? && loc[c] != Gone
    ensures !HasMessage(messages, c)
  {
  }

  lemma PastShrinks(clock: nat, clock': nat, calls: seq<Call>, blocked: map<Co, CallId>, loc: map<CallId, Loc>,
                    messages: set<(Conn, CallId)>,
                    loc': map<CallId, Loc>, messages': set<(Conn, CallId)>)
    requires PastOk(clock, calls, blocked, loc, messages) && clock <= clock'
    requires forall c: nat | c < |calls| && Lingers(loc', messages', c) :: Lingers(loc, messages, c)
    ensures PastOk(clock', calls, blocked, loc', messages')
  {
    hide Lingers, Waits;
  }

  /** A task goes from one place to another, neither of them a map. */
  lemma MoveKeeps(s: State, c: CallId, l: Loc)
    requires Inv(s) && c in s.loc && !s.loc[c].Awaiting? && s.loc[c] != Gone && !l.Awaiting? && l != Gone
    ensures var loc := s.loc[c := l];
            && ResultsOk(s.calls, loc, s.results) && MessagesOk(loc, s.messages)
            && PastOk(s.clock, s.calls, s.blocked, loc, s.messages)
  {
    hide TasksOk, BlockedOk, LogsOk;
    var loc := s.loc[c := l];
    NoMessage(s.loc, s.messages, c);
    PastShrinks(s.clock, s.clock, s.calls, s.blocked, s.loc, s.messages, loc, s.messages);
    hide PastOk;
  }

  lemma RefuseKeeps(s: State, c: CallId)
    requires Inv(s) && Enabled(s, Refuse(c))
    ensures Inv(Next(s, Refuse(c)))
  {
    hide ResultsOk, MessagesOk, BlockedOk, PastOk, LogsOk, Held, HeldAt;
    TasksMove(s, 0, c, Recorded);
    MoveKeeps(s, c, Recorded);
  }

  lemma ChooseKeeps(s: State, c: CallId, k: Conn, connecting: bool)
    requires Inv(s) && Enabled(s, Choose(c, k, connecting))
    ensures Inv(Next(s, Choose(c, k, connecting)))
  {
    hide ResultsOk, MessagesOk, BlockedOk, PastOk, LogsOk, Held, HeldAt;
    TasksMove(s, k, c, if connecting then ToSend(k) else InHand(k));
    MoveKeeps(s, c, if connecting then ToSend(k) else InHand(k));
  }

  lemma FailKeeps(s: State, c: CallId, k: Conn)
    requires Inv(s) && Enabled(s, Fail(c, k))
    ensures Inv(Next(s, Fail(c, k)))
  {
    hide ResultsOk, MessagesOk, BlockedOk, PastOk, LogsOk, Held, HeldAt;
    TasksMove(s, k, c, Recorded);
    MoveKeeps(s, c, Recorded);
  }

  lemma ConnectedKeeps(s: State, c: CallId, k: Conn)
    requires Inv(s) && Enabled(s, Connected(c, k))
    ensures Inv(Next(s, Connected(c, k)))
  {
    hide ResultsOk, MessagesOk, BlockedOk, PastOk, LogsOk, Held, HeldAt;
    TasksMove(s, k, c, InHand(k));
    MoveKeeps(s, c, InHand(k));
  }

  lemma TickKeeps(s: State, t: nat)
    requires Inv(s) && s.clock <= t
    ensures Inv(Next(s, Tick(t)))
  {
    hide TasksOk, ResultsOk, MessagesOk, BlockedOk, LogsOk, PastOk;
    PastShrinks(s.clock, t, s.calls, s.blocked, s.loc, s.messages, s.loc, s.messages);
  }

  /** Fewer messages leave everything in order. */
  lemma FewerMessages(s: State, messages: set<(Conn, CallId)>)
    requires Inv(s) && messages <= s.messages
    ensures Inv(s.(messages := messages))
  {
    hide TasksOk, ResultsOk, BlockedOk, LogsOk;
    PastShrinks(s.clock, s.clock, s.calls, s.blocked, s.loc, s.messages, s.loc, messages);
    hide PastOk;
  }

  lemma InvokeKeeps(s: State, pid: Pid, co: Co, timeout: nat)
    requires Inv(s) && co !in s.blocked
    ensures Inv(Invoked(s, pid, co, timeout))
  {
    InvokeTasks(s, pid, co, timeout);
    InvokeBlocked(s, pid, co, timeout);
    InvokePast(s, pid, co, timeout);
    hide TasksOk, ResultsOk, BlockedOk, LogsOk, MessagesOk, PastOk;
  }

  lemma InvokeTasks(s: State, pid: Pid, co: Co, timeout: nat)
    requires Inv(s)
    ensures var s' := Invoked(s, pid, co, timeout);
            && TasksOk(|s'.calls|, s'.loc, s'.queue, s'.sends, s'.hands, s'.records)
               && ResultsOk(s'.calls, s'.loc, s'.results)
            && MessagesOk(s'.loc, s'.messages)
  {
    hide BlockedOk, LogsOk, PastOk, Held, HeldAt;
    var n := |s.calls|;
    TasksMove(s, 0, n, Queued);
    HeldMoves(s.loc, s.queue, Queued, n, Queued);
  }

  lemma InvokeBlocked(s: State, pid: Pid, co: Co, timeout: nat)
    requires Inv(s) && co !in s.blocked
    ensures var s' := Invoked(s, pid, co, timeout);
            BlockedOk(s'.calls, s'.blocked, s'.timers) && LogsOk(s'.calls, s'.blocked, s'.wakes, s'.fills)
  {
    hide TasksOk, ResultsOk, MessagesOk, PastOk;
    var s' := Invoked(s, pid, co, timeout);
    InvokeWaits(s, pid, co, timeout);
    assert LogsOk(s'.calls, s'.blocked, s'.wakes, s'.fills) by { hide BlockedOk, Waits; }
    hide LogsOk;
  }

  lemma InvokeWaits(s: State, pid: Pid, co: Co, timeout: nat)
    requires co !in s.blocked
    ensures var s' := Invoked(s, pid, co, timeout);
            && Waits(s'.calls, s'.blocked, |s.calls|)
            && forall c: nat | c < |s.calls| ::
                 s'.calls[c] == s.calls[c] && (Waits(s'.calls, s'.blocked, c) <==> Waits(s.calls, s.blocked, c))
  {
  }

  lemma InvokePast(s: State, pid: Pid, co: Co, timeout: nat)
    requires Inv(s) && co !in s.blocked
    ensures var s' := Invoked(s, pid, co, timeout); PastOk(s'.clock, s'.calls, s'.blocked, s'.loc, s'.messages)
  {
    hide TasksOk, ResultsOk, MessagesOk, LogsOk, HasMessage, BlockedOk;
    var s', n := Invoked(s, pid, co, timeout), |s.calls|;
    assert Waits(s'.calls, s'.blocked, n);
    assert forall c: nat | c < n ::
             s'.calls[c] == s.calls[c] && (Waits(s'.calls, s'.blocked, c) <==> Waits(s.calls, s.blocked, c));
    assert forall c: nat | c < n :: Lingers(s'.loc, s'.messages, c) == Lingers(s.loc, s.messages, c);
  }

  lemma CloseKeeps(s: State, k: Conn)
    requires Inv(s)
    ensures Inv(Next(s, Close(k)))
  {
    var messages := set m | m in s.messages && m.0 != k;
    FewerMessages(s, messages);
    hide TasksOk, ResultsOk, MessagesOk, BlockedOk, LogsOk, PastOk;
  }

  // ----- into the map -----

  lemma SubmitLate(s: State, c: CallId, k: Conn)
    requires Inv(s) && (k, c) in s.hands
    ensures Inv(s.(hands := s.hands - multiset{(k, c)}, loc := s.loc[c := Gone]))
  {
    hide BlockedOk, LogsOk, Held, HeldAt;
    TasksMove(s, k, c, Gone);
    NoMessage(s.loc, s.messages, c);
    PastShrinks(s.clock, s.clock, s.calls, s.blocked, s.loc, s.messages, s.loc[c := Gone], s.messages);
    hide PastOk;
  }

  /** The task that loses its place in the map: it is nowhere else. */
  lemma Evicted(s: State, k: Conn, co: Co)
    requires Inv(s) && (k, co) in s.results
    ensures Inv(Evict(s, k, co))
  {
    hide BlockedOk, LogsOk, Held, HeldAt;
    var d := s.results[(k, co)];
    assert d < |s.calls| && At(s.loc, d, Awaiting(k)) && s.calls[d].co == co;
    TasksMove(s, k, d, Gone);
    PastShrinks(s.clock, s.clock, s.calls, s.blocked, s.loc, s.messages, s.loc[d := Gone], s.messages);
    hide PastOk;
  }

  lemma Placed(s: State, c: CallId, k: Conn)
    requires Inv(s) && (k, c) in s.hands && c < |s.calls| && (k, s.calls[c].co) !in s.results
    ensures Inv(Enter(s, c, k))
  {
    hide BlockedOk, LogsOk, Held, HeldAt;
    var loc := s.loc[c := Awaiting(k)];
    var messages := if k in s.closed then s.messages else s.messages + {(k, c)};
    TasksMove(s, k, c, Awaiting(k));
    NoMessage(s.loc, s.messages, c);
    PastShrinks(s.clock, s.clock, s.calls, s.blocked, s.loc, s.messages, loc, messages);
    hide PastOk;
  }

  lemma SubmitKeeps(s: State, c: CallId, k: Conn, now: nat)
    requires Inv(s) && Enabled(s, Submit(c, k, now))
    ensures c < |s.calls| && Inv(Submitted(s, c, k, now))
  {
    HandIssued(s, c, k);
    hide TasksOk, ResultsOk, MessagesOk, ClosedOk, BlockedOk, PastOk, LogsOk;
    var a := s.calls[c];
    if a.expire != 0 && a.expire <= now {
      SubmitLate(s, c, k);
    } else {
      if (k, a.co) in s.results { Evicted(s, k, a.co); }
      Placed(Evict(s, k, a.co), c, k);
    }
  }

  lemma HandIssued(s: State, c: CallId, k: Conn)
    requires Inv(s) && (k, c) in s.hands
    ensures c < |s.calls| && At(s.loc, c, InHand(k))
  {
    hide ResultsOk, MessagesOk, ClosedOk, BlockedOk, PastOk, LogsOk;
    TasksMove(s, k, c, Gone);
  }

  // ----- out of the map -----

  /** Two different calls from one address that linger never have the same expiry. */
  lemma ExpiryTells(s: State, c: CallId, d: CallId)
    requires Inv(s) && c < |s.calls| && d < |s.calls| && c != d && s.calls[c].co == s.calls[d].co
    requires Lingers(s.loc, s.messages, c) && Lingers(s.loc, s.messages, d)
    ensures s.calls[c].expire != s.calls[d].expire
  {
    hide TasksOk, ResultsOk, MessagesOk, LogsOk, Lingers;
    var a, b := if c < d then c else d, if c < d then d else c;
    assert !Waits(s.calls, s.blocked, a);
  }

  /** A reply that passes the check of decode finds the task of its own call. */
  lemma ReplyFindsOwn(s: State, c: CallId, k: Conn)
    requires Inv(s) && (k, c) in s.messages && c < |s.calls| && (k, s.calls[c].co) in s.results
    requires var d := s.results[(k, s.calls[c].co)]; d < |s.calls| && s.calls[d].expire == s.calls[c].expire
    ensures s.results[(k, s.calls[c].co)] == c
  {
    hide TasksOk, BlockedOk, LogsOk, PastOk;
    var d := s.results[(k, s.calls[c].co)];
    assert At(s.loc, d, Awaiting(k)) && s.calls[d].co == s.calls[c].co;
    assert HasMessage(s.messages, c);
    if d != c {
      ExpiryTells(s, c, d);
    }
  }

  /** A task goes from the map to the resume queue, its messages gone. */
  lemma Answered(s: State, c: CallId, k: Conn, messages: set<(Conn, CallId)>)
    requires Inv(s) && c < |s.calls| && (k, s.calls[c].co) in s.results && s.results[(k, s.calls[c].co)] == c
    requires messages <= s.messages && (k, c) !in messages
    ensures Inv(Posted(s.(messages := messages, results := s.results - {(k, s.calls[c].co)}), c))
  {
    hide BlockedOk, LogsOk, Held, HeldAt;
    FewerMessages(s, messages);
    var s1 := s.(messages := messages);
    assert At(s.loc, c, Awaiting(k));
    TasksMove(s1, k, c, Recorded);
    PastShrinks(s.clock, s.clock, s.calls, s.blocked, s.loc, messages, s.loc[c := Recorded], messages);
    hide PastOk;
  }

  lemma MoreFills(s: State, c: CallId)
    requires Inv(s)
    ensures Inv(s.(fills := s.fills + [(c, c)]))
  {
    hide TasksOk, ResultsOk, MessagesOk, ClosedOk, BlockedOk, PastOk;
  }

  lemma ReplyKeeps(s: State, c: CallId, k: Conn)
    requires Inv(s) && Enabled(s, Reply(c, k))
    ensures Inv(Replied(s, c, k))
  {
    hide TasksOk, ResultsOk, MessagesOk, ClosedOk, BlockedOk, PastOk, LogsOk;
    var key := (k, s.calls[c].co);
    if key !in s.results || s.results[key] >= |s.calls| || s.calls[s.results[key]].expire != s.calls[c].expire {
      FewerMessages(s, s.messages - {(k, c)});
    } else {
      ReplyFindsOwn(s, c, k);
      MoreFills(s, c);
      Answered(s.(fills := s.fills + [(c, c)]), c, k, s.messages - {(k, c)});
    }
  }

  lemma CleanKeeps(s: State, k: Conn, co: Co)
    requires Inv(s) && Enabled(s, Clean(k, co))
    ensures Inv(Next(s, Clean(k, co)))
  {
    hide TasksOk, MessagesOk, BlockedOk, PastOk, LogsOk;
    Answered(s, s.results[(k, co)], k, s.messages);
  }

  // ----- activation -----

  /** A record is taken; its call no longer lingers. */
  lemma RecordTaken(s: State, c: CallId)
    requires Inv(s) && c in s.records
    ensures var s1 := s.(records := s.records - multiset{c}, loc := s.loc[c := Gone]);
            Inv(s1) && !Lingers(s1.loc, s1.messages, c) && At(s.loc, c, Recorded)
  {
    hide BlockedOk, LogsOk, Held, HeldAt;
    TasksMove(s, 0, c, Gone);
    NoMessage(s.loc, s.messages, c);
    PastShrinks(s.clock, s.clock, s.calls, s.blocked, s.loc, s.messages, s.loc[c := Gone], s.messages);
    hide PastOk;
  }

  /** The coroutine that waits in c is activated for c. */
  lemma ActivateKeeps(s: State, c: CallId)
    requires Inv(s) && Waits(s.calls, s.blocked, c)
    requires Lingers(s.loc, s.messages, c) ==> 0 < s.calls[c].expire <= s.clock
    ensures var a := s.calls[c];
            Inv(Activated(s.(timers := s.timers - {(a.pid, a.co)}), a.co, c))
    ensures s.calls[c].expire == 0 ==> s.timers - {(s.calls[c].pid, s.calls[c].co)} == s.timers
  {
    hide TasksOk, ResultsOk, MessagesOk, ClosedOk, Lingers, BlockedOk, LogsOk, PastOk, Waits;
    ActivateWaits(s.calls, s.blocked, c);
    var a := s.calls[c];
    var s' := Activated(s.(timers := s.timers - {(a.pid, a.co)}), a.co, c);
    ActivateLogs(s, s', c);
    ActivateBlocked(s, s', c);
    ActivatePast(s, s', c);
  }

  lemma ActivateWaits(calls: seq<Call>, blocked: map<Co, CallId>, c: CallId)
    requires Waits(calls, blocked, c)
    ensures c < |calls| && calls[c].co in blocked && blocked[calls[c].co] == c
    ensures forall x: nat :: Waits(calls, blocked - {calls[c].co}, x) <==> Waits(calls, blocked, x) && x != c
  {
  }

  lemma ActivatePast(s: State, s': State, c: CallId)
    requires Inv(s) && c < |s.calls| && s'.calls == s.calls && s'.loc == s.loc && s'.messages == s.messages
    requires s'.clock == s.clock && (Lingers(s.loc, s.messages, c) ==> 0 < s.calls[c].expire <= s.clock)
    requires forall x: nat :: Waits(s'.calls, s'.blocked, x) <==> Waits(s.calls, s.blocked, x) && x != c
    ensures PastOk(s'.clock, s'.calls, s'.blocked, s'.loc, s'.messages)
  {
    hide TasksOk, ResultsOk, MessagesOk, ClosedOk, BlockedOk, LogsOk, Waits, Lingers;
  }

  lemma ActivateLogs(s: State, s': State, c: CallId)
    requires Inv(s) && c < |s.calls| && Waits(s.calls, s.blocked, c) && s'.calls == s.calls && s'.fills == s.fills
    requires s'.wakes == s.wakes + [(c, Some(c))]
    requires forall x: nat :: Waits(s'.calls, s'.blocked, x) <==> Waits(s.calls, s.blocked, x) && x != c
    ensures LogsOk(s'.calls, s'.blocked, s'.wakes, s'.fills)
  {
    hide TasksOk, ResultsOk, MessagesOk, ClosedOk, BlockedOk, PastOk, Waits;
  }

  lemma ActivateBlocked(s: State, s': State, c: CallId)
    requires Inv(s) && Waits(s.calls, s.blocked, c) && s'.calls == s.calls
    requires s'.blocked == s.blocked - {s.calls[c].co} && s'.timers == s.timers - {(s.calls[c].pid, s.calls[c].co)}
    ensures BlockedOk(s'.calls, s'.blocked, s'.timers)
    ensures s.calls[c].expire == 0 ==> s'.timers == s.timers
  {
    hide TasksOk, ResultsOk, MessagesOk, ClosedOk, LogsOk, PastOk;
    assert forall p, co | (p, co) in s.timers && co == s.calls[c].co :: s.timers[(p, co)] == c;
  }

  /** The record of a call finds its coroutine blocked in that very call, if it finds a timer of its
      expiry or needs none. */
  lemma RecordFindsOwn(s: State, c: CallId)
    requires Inv(s) && c in s.records && c < |s.calls|
    ensures s.calls[c].expire == 0 ==> Waits(s.calls, s.blocked, c)
    ensures var key := (s.calls[c].pid, s.calls[c].co);
            key in s.timers && s.timers[key] < |s.calls| && s.calls[s.timers[key]].expire == s.calls[c].expire ==>
              s.timers[key] == c && Waits(s.calls, s.blocked, c)
  {
    hide ResultsOk, MessagesOk, ClosedOk, LogsOk, HeldAt;
    assert At(s.loc, c, Recorded);
    hide TasksOk, Held;
    var key := (s.calls[c].pid, s.calls[c].co);
    if key in s.timers && s.timers[key] < |s.calls| && s.calls[s.timers[key]].expire == s.calls[c].expire {
      var d := s.timers[key];
      assert Waits(s.calls, s.blocked, d) && s.calls[d].co == s.calls[c].co;
      assert c <= d;
    }
  }

  lemma ResumeKeeps(s: State, c: CallId)
    requires Inv(s) && Enabled(s, Resume(c))
    ensures Inv(Resumed(s, c))
  {
    hide TasksOk, ResultsOk, MessagesOk, ClosedOk, BlockedOk, PastOk, LogsOk, Lingers;
    RecordTaken(s, c);
    RecordFindsOwn(s, c);
    var s1 := s.(records := s.records - multiset{c}, loc := s.loc[c := Gone]);
    if Waits(s.calls, s.blocked, c) {
      ActivateKeeps(s1, c);
      assert s1.(timers := s1.timers) == s1;
    }
  }

  lemma ExpireKeeps(s: State, p: Pid, co: Co)
    requires Inv(s) && Enabled(s, Expire(p, co))
    ensures Inv(Next(s, Expire(p, co)))
  {
    hide TasksOk, ResultsOk, MessagesOk, ClosedOk, PastOk, LogsOk, Lingers;
    var c := s.timers[(p, co)];
    assert Waits(s.calls, s.blocked, c) && s.calls[c].pid == p && s.calls[c].co == co && s.calls[c].expire > 0;
    ActivateKeeps(s, c);
  }

  lemma StepKeepsInv(s: State, e: Event)
    requires Inv(s) && Enabled(s, e)
    ensures Inv(Next(s, e))
  {
    hide Inv, Submitted, Replied, Resumed, Activated, Posted, Invoked;
    match e
    case Tick(t) => TickKeeps(s, t);
    case Invoke(pid, co, timeout) => InvokeKeeps(s, pid, co, timeout);
    case Refuse(c) => RefuseKeeps(s, c);
    case Choose(c, k, connecting) => ChooseKeeps(s, c, k, connecting);
    case Fail(c, k) => FailKeeps(s, c, k);
    case Connected(c, k) => ConnectedKeeps(s, c, k);
    case Submit(c, k, now) => SubmitKeeps(s, c, k, now);
    case Lose(c, k) => FewerMessages(s, s.messages - {(k, c)});
    case Reply(c, k) => ReplyKeeps(s, c, k);
    case Close(k) => CloseKeeps(s, k);
    case Clean(k, co) => CleanKeeps(s, k, co);
    case Resume(c) => ResumeKeeps(s, c);
    case Expire(p, co) => ExpireKeeps(s, p, co);
  }

  lemma {:induction false} RunsKeepInv(run: seq<State>, events: seq<Event>, n: nat)
    requires IsRun(run, events) && n < |run|
    ensures Inv(run[n])
  {
    hide Inv, Next;
    if n == 0 {
      InitInv(run[0]);
    } else {
      RunsKeepInv(run, events, n - 1);
      assert Enabled(run[n - 1], events[n - 1]) && run[n] == Next(run[n - 1], events[n - 1]);
      StepKeepsInv(run[n - 1], events[n - 1]);
    }
  }

  /** In every run each activation wakes a coroutine out of the very call it was meant for,
      and no call is woken twice, whether by reply, failure, close or timeout. */
  lemma WokenOnceForOwnCall(run: seq<State>, events: seq<Event>, n: nat)
    requires IsRun(run, events) && n < |run|
    ensures forall i | 0 <= i < |run[n].wakes| :: run[n].wakes[i].1 == Some(run[n].wakes[i].0)
    ensures forall i, j | 0 <= i < j < |run[n].wakes| :: run[n].wakes[i].0 != run[n].wakes[j].0
  {
    RunsKeepInv(run, events, n);
  }

  /** In every run a reply that is used goes to the call that it answers. */
  lemma RepliesReachTheirCalls(run: seq<State>, events: seq<Event>, n: nat)
    requires IsRun(run, events) && n < |run|
    ensures forall i | 0 <= i < |run[n].fills| :: run[n].fills[i].0 == run[n].fills[i].1
  {
    RunsKeepInv(run, events, n);
  }

  /** In every run the id is new whenever CallMethod adds to the timeout list. */
  lemma TimerIdsAreNew(run: seq<State>, events: seq<Event>, n: nat, pid: Pid, co: Co)
    requires IsRun(run, events) && n < |run| && co !in run[n].blocked
    ensures (pid, co) !in run[n].timers
  {
    RunsKeepInv(run, events, n);
    hide TasksOk, ResultsOk, MessagesOk, ClosedOk, PastOk, LogsOk;
  }

  // ----- what comes of a call -----

  /** A reply is used, for the call that it answers, if and only if that call still awaits it there. */
  lemma ReplyIsUsed(s: State, c: CallId, k: Conn)
    requires Inv(s) && Enabled(s, Reply(c, k))
    ensures var s' := Next(s, Reply(c, k));
            if At(s.loc, c, Awaiting(k)) then
              s'.fills == s.fills + [(c, c)] && c in s'.records && (k, s.calls[c].co) !in s'.results
            else s'.fills == s.fills && s'.records == s.records && s'.results == s.results
  {
    hide TasksOk, ClosedOk, BlockedOk, PastOk, LogsOk;
    var key := (k, s.calls[c].co);
    if key in s.results {
      var d := s.results[key];
      assert At(s.loc, d, Awaiting(k)) && d < |s.calls|;
      if s.calls[d].expire == s.calls[c].expire {
        ReplyFindsOwn(s, c, k);
      }
    }
  }

  /** A resume record wakes its call if and only if that call still waits. */
  lemma RecordWakes(s: State, c: CallId)
    requires Inv(s) && Enabled(s, Resume(c))
    ensures var s' := Next(s, Resume(c));
            if Waits(s.calls, s.blocked, c) then
              s'.wakes == s.wakes + [(c, Some(c))] && s.calls[c].co !in s'.blocked
            else s'.wakes == s.wakes && s'.blocked == s.blocked && s'.timers == s.timers
  {
    hide TasksOk, ResultsOk, MessagesOk, ClosedOk, PastOk, LogsOk;
    RecordFindsOwn(s, c);
    if Waits(s.calls, s.blocked, c) && s.calls[c].expire > 0 {
      var key := (s.calls[c].pid, s.calls[c].co);
      assert key in s.timers && s.timers[key] == c;
    }
  }

  /** An expiry wakes the call of its timer. */
  lemma ExpiryWakes(s: State, p: Pid, co: Co)
    requires Inv(s) && Enabled(s, Expire(p, co))
    ensures var s', c := Next(s, Expire(p, co)), s.timers[(p, co)];
            s'.wakes == s.wakes + [(c, Some(c))] && co !in s'.blocked && (p, co) !in s'.timers
  {
    hide TasksOk, ResultsOk, MessagesOk, ClosedOk, PastOk, LogsOk;
    assert Waits(s.calls, s.blocked, s.timers[(p, co)]);
  }

  /** A task that finds no connection, or loses it, has its resume record written. */
  lemma FailureIsRecorded(s: State, e: Event)
    requires Inv(s) && Enabled(s, e) && (e.Refuse? || e.Fail? || e.Clean?)
    ensures var c := if e.Clean? then s.results[(e.conn, e.co)] else e.c;
            c in Next(s, e).records && At(Next(s, e).loc, c, Recorded)
  {
  }

  /** A task that has been given a connection is on its way to that connection's map: at once if the
      connection is there, otherwise as soon as it is. */
  lemma TaskMovesOn(s: State, e: Event)
    requires Inv(s) && Enabled(s, e) && (e.Choose? || e.Connected?)
    ensures var s', key := Next(s, e), (e.conn, e.c);
            && e.c !in s'.queue
            && if e.Choose? && e.connecting then key in s'.sends && key !in s'.hands
               else key in s'.hands && key !in s'.sends
  {
    hide Inv, Next;
    StepKeepsInv(s, e);
    MovedTo(s, e);
    var s' := Next(s, e);
    KnownCall(s', e.c);
    Mislaid(s', e.c);
  }

  lemma MovedTo(s: State, e: Event)
    requires Enabled(s, e) && (e.Choose? || e.Connected?)
    ensures At(Next(s, e).loc, e.c, if e.Choose? && e.connecting then ToSend(e.conn) else InHand(e.conn))
  {
  }

  lemma KnownCall(s: State, c: CallId)
    requires Inv(s) && c in s.loc
    ensures c < |s.calls|
  {
    hide ResultsOk, MessagesOk, ClosedOk, BlockedOk, PastOk, LogsOk;
  }

  /** In every run a call is exactly where its task is, and a call that waits with a timeout has its timer. */
  lemma NoCallIsMislaid(run: seq<State>, events: seq<Event>, n: nat, c: CallId)
    requires IsRun(run, events) && n < |run| && c < |run[n].calls|
    ensures var s := run[n];
            && c in s.loc
            && (s.loc[c] == Queued <==> c in s.queue) && (s.loc[c] == Recorded <==> c in s.records)
            && (forall k: Conn :: s.loc[c] == ToSend(k) <==> (k, c) in s.sends)
            && (forall k: Conn :: s.loc[c] == InHand(k) <==> (k, c) in s.hands)
            && (forall k: Conn :: s.loc[c] == Awaiting(k) <==>
                  (k, s.calls[c].co) in s.results && s.results[(k, s.calls[c].co)] == c)
            && (Waits(s.calls, s.blocked, c) && s.calls[c].expire > 0 ==>
                  var key := (s.calls[c].pid, s.calls[c].co); key in s.timers && s.timers[key] == c)
  {
    hide Next;
    RunsKeepInv(run, events, n);
    Mislaid(run[n], c);
  }

  lemma Mislaid(s: State, c: CallId)
    requires Inv(s) && c < |s.calls|
    ensures c in s.loc
    ensures (s.loc[c] == Queued <==> c in s.queue) && (s.loc[c] == Recorded <==> c in s.records)
    ensures forall k: Conn :: s.loc[c] == ToSend(k) <==> (k, c) in s.sends
    ensures forall k: Conn :: s.loc[c] == InHand(k) <==> (k, c) in s.hands
    ensures forall k: Conn :: s.loc[c] == Awaiting(k) <==>
              (k, s.calls[c].co) in s.results && s.results[(k, s.calls[c].co)] == c
    ensures Waits(s.calls, s.blocked, c) && s.calls[c].expire > 0 ==>
              var key := (s.calls[c].pid, s.calls[c].co); key in s.timers && s.timers[key] == c
  {
    hide MessagesOk, ClosedOk, PastOk, LogsOk;
    forall k: Conn
      ensures s.loc[c] == ToSend(k) <==> (k, c) in s.sends
      ensures s.loc[c] == InHand(k) <==> (k, c) in s.hands
    {
      assert At(s.loc, c, Place(k, false)) <==> s.loc[c] == ToSend(k);
      assert At(s.loc, c, Place(k, true)) <==> s.loc[c] == InHand(k);
    }
    assert At(s.loc, c, Queued) <==> s.loc[c] == Queued;
    assert At(s.loc, c, Recorded) <==> s.loc[c] == Recorded;
  }

  /** A submission that takes a place in a map from a call that waits there. */
  predicate Displaces(s: State, e: Event, c: CallId) {
    && e.Submit? && e.c != c && e.c < |s.calls| && c < |s.calls| && s.calls[e.c].co == s.calls[c].co
    && (s.calls[e.c].expire == 0 || e.now < s.calls[e.c].expire) && c in s.loc && s.loc[c] == Awaiting(e.conn)
  }

  /** A call that still waits loses its task in exactly two ways: its own submission comes after its
      expiry, or an older call from its address, itself over, is submitted on its connection with a
      clock that is behind. */
  lemma LostExactly(s: State, e: Event, c: CallId)
    requires Inv(s) && Enabled(s, e) && Waits(s.calls, s.blocked, c) && !At(s.loc, c, Gone)
    requires Waits(Next(s, e).calls, Next(s, e).blocked, c)
    ensures At(Next(s, e).loc, c, Gone) <==>
            (e.Submit? && e.c == c && 0 < s.calls[c].expire <= e.now) || Displaces(s, e, c)
    ensures Displaces(s, e, c) ==> e.c < c && e.now < s.calls[e.c].expire <= s.clock
  {
    hide TasksOk, MessagesOk, ClosedOk, LogsOk, Inv, Next;
    Mislaid(s, c);
    if e.Submit? {
      SubmitLoses(s, e.c, e.conn, e.now, c);
    } else if e.Resume? {
      ResumeLoses(s, e.c, c);
    } else {
      OthersKeepTask(s, e, c);
    }
  }

  lemma OthersKeepTask(s: State, e: Event, c: CallId)
    requires Enabled(s, e) && !At(s.loc, c, Gone) && c in s.loc && !e.Submit? && !e.Resume?
    ensures !At(Next(s, e).loc, c, Gone)
  {
    hide Next, Enabled, At;
    if e.Reply? {
      ReplyKeepsTask(s, e, c);
    } else if e.Refuse? || e.Fail? || e.Clean? {
      PostKeepsTask(s, e, c);
    } else if e.Invoke? || e.Choose? || e.Connected? {
      MoveKeepsTask(s, e, c);
    } else {
      QuietKeepsTask(s, e, c);
    }
  }

  lemma ReplyKeepsTask(s: State, e: Event, c: CallId)
    requires Enabled(s, e) && !At(s.loc, c, Gone) && c in s.loc && e.Reply?
    ensures !At(Next(s, e).loc, c, Gone)
  {
  }

  lemma PostKeepsTask(s: State, e: Event, c: CallId)
    requires Enabled(s, e) && !At(s.loc, c, Gone) && c in s.loc && (e.Refuse? || e.Fail? || e.Clean?)
    ensures !At(Next(s, e).loc, c, Gone)
  {
    hide Submitted, Resumed, Replied, Activated, Invoked;
  }

  lemma MoveKeepsTask(s: State, e: Event, c: CallId)
    requires Enabled(s, e) && !At(s.loc, c, Gone) && c in s.loc && (e.Invoke? || e.Choose? || e.Connected?)
    ensures !At(Next(s, e).loc, c, Gone)
  {
    if e.Invoke? {
      StillThere(s.loc, |s.calls|, Queued, c);
    } else {
      StillThere(s.loc, e.c, if e.Choose? && e.connecting then ToSend(e.conn) else InHand(e.conn), c);
    }
    hide Submitted, Resumed, Replied, Posted, Activated, At;
  }

  lemma StillThere(loc: map<CallId, Loc>, d: CallId, l: Loc, c: CallId)
    requires !At(loc, c, Gone) && l != Gone
    ensures !At(loc[d := l], c, Gone)
  {
  }

  lemma QuietKeepsTask(s: State, e: Event, c: CallId)
    requires Enabled(s, e) && !At(s.loc, c, Gone) && (e.Tick? || e.Lose? || e.Close? || e.Expire?)
    ensures !At(Next(s, e).loc, c, Gone)
  {
    hide Submitted, Resumed, Replied, Posted, Invoked;
    assert Next(s, e).loc == s.loc;
  }

  lemma ResumedForm(s: State, c: CallId)
    requires Enabled(s, Resume(c))
    ensures var s' := Next(s, Resume(c));
            && s'.loc == s.loc[c := Gone] && s'.fills == s.fills && s'.calls == s.calls
            && (s'.blocked == s.blocked || s'.blocked == s.blocked - {s.calls[c].co})
  {
  }

  lemma ResumeLoses(s: State, d: CallId, c: CallId)
    requires Inv(s) && Enabled(s, Resume(d)) && Waits(s.calls, s.blocked, c) && !At(s.loc, c, Gone) && c in s.loc
    requires Waits(Next(s, Resume(d)).calls, Next(s, Resume(d)).blocked, c)
    ensures !At(Next(s, Resume(d)).loc, c, Gone)
  {
    hide Inv, Next, Enabled;
    RecordWakes(s, d);
    ResumedForm(s, d);
  }

  lemma SubmittedForm(s: State, d: CallId, k: Conn, now: nat)
    requires Enabled(s, Submit(d, k, now)) && d < |s.calls|
    ensures var a, loc := s.calls[d], Next(s, Submit(d, k, now)).loc;
            if 0 < a.expire <= now then loc == s.loc[d := Gone]
            else if (k, a.co) in s.results then loc == s.loc[s.results[(k, a.co)] := Gone][d := Awaiting(k)]
            else loc == s.loc[d := Awaiting(k)]
  {
  }

  /** A task at hand from the address of a call that waits is that call's own, or that of an older call
      which is over. */
  lemma OlderIsOver(s: State, d: CallId, k: Conn, c: CallId)
    requires Inv(s) && (k, d) in s.hands && Waits(s.calls, s.blocked, c) && d != c
    requires d < |s.calls| && s.calls[d].co == s.calls[c].co
    ensures d < c && 0 < s.calls[d].expire <= s.clock
  {
    HandIssued(s, d, k);
    hide TasksOk, ResultsOk, MessagesOk, ClosedOk, LogsOk, HasMessage;
    assert Lingers(s.loc, s.messages, d) && !Waits(s.calls, s.blocked, d);
  }

  lemma SubmitLoses(s: State, d: CallId, k: Conn, now: nat, c: CallId)
    requires Inv(s) && Enabled(s, Submit(d, k, now)) && Waits(s.calls, s.blocked, c)
    requires !At(s.loc, c, Gone) && c in s.loc
    ensures var e := Submit(d, k, now);
            && (At(Next(s, e).loc, c, Gone) <==> (d == c && 0 < s.calls[c].expire <= now) || Displaces(s, e, c))
            && (Displaces(s, e, c) ==> d < c && now < s.calls[d].expire <= s.clock)
  {
    hide Inv, Next;
    HandIssued(s, d, k);
    Mislaid(s, c);
    Entry(s, k, s.calls[d].co);
    SubmittedForm(s, d, k, now);
    if d != c && s.calls[d].co == s.calls[c].co {
      OlderIsOver(s, d, k, c);
    }
  }

  lemma Entry(s: State, k: Conn, co: Co)
    requires Inv(s)
    ensures (k, co) in s.results ==>
              var c := s.results[(k, co)]; c < |s.calls| && At(s.loc, c, Awaiting(k)) && s.calls[c].co == co
  {
    hide TasksOk, MessagesOk, ClosedOk, BlockedOk, PastOk, LogsOk;
  }

  ghost predicate Leads(s: State, events: seq<Event>, r: State)
    decreases |events|
  {
    if events == [] then r == s else Enabled(s, events[0]) && Leads(Next(s, events[0]), events[1..], r)
  }

  lemma LeadsOn(s: State, e: Event, events: seq<Event>, r: State)
    requires Enabled(s, e) && Leads(Next(s, e), events, r)
    ensures Leads(s, [e] + events, r)
  {
    hide Next, Enabled;
    assert ([e] + events)[1..] == events;
  }

  /** From any state: a call that is issued, sent over an open connection and answered wakes its
      coroutine with that very answer. */
  lemma CallIsAnswered(s: State, pid: Pid, co: Co, timeout: nat, k: Conn) returns (r: State)
    requires Inv(s) && co !in s.blocked && k !in s.closed
    ensures var c: CallId := |s.calls|;
            && Leads(s, [Invoke(pid, co, timeout)] + ([Choose(c, k, false)] + Answering(c, k, s.clock)), r)
            && r.fills == s.fills + [(c, c)] && r.wakes == s.wakes + [(c, Some(c))] && r.blocked == s.blocked
  {
    hide *;
    var c: CallId := |s.calls|;
    var s2 := Issued(s, pid, co, timeout, k);
    r := Completed(s2, c, co, k);
    assert s.blocked[co := c] - {co} == s.blocked;
    LeadsOn(Next(s, Invoke(pid, co, timeout)), Choose(c, k, false), Answering(c, k, s.clock), r);
    LeadsOn(s, Invoke(pid, co, timeout), [Choose(c, k, false)] + Answering(c, k, s.clock), r);
  }

  function Answering(c: CallId, k: Conn, now: nat): seq<Event> {
    [Submit(c, k, now)] + ([Reply(c, k)] + ([Resume(c)] + []))
  }

  lemma Completed(s: State, c: CallId, co: Co, k: Conn) returns (r: State)
    requires Inv(s) && Enabled(s, Submit(c, k, s.clock)) && k !in s.closed && (k, c) in s.hands
    requires c < |s.calls| && s.calls[c].co == co && (s.calls[c].expire == 0 || s.clock < s.calls[c].expire)
    requires co in s.blocked && s.blocked[co] == c
    ensures Leads(s, Answering(c, k, s.clock), r)
    ensures r.fills == s.fills + [(c, c)] && r.wakes == s.wakes + [(c, Some(c))] && r.blocked == s.blocked - {co}
  {
    hide Inv, Next, Enabled, At, Waits, Leads;
    var s3 := Next(s, Submit(c, k, s.clock));
    StepKeepsInv(s, Submit(c, k, s.clock));
    Sent(s, c, k);
    ReplyIsUsed(s3, c, k);
    var s4 := Next(s3, Reply(c, k));
    StepKeepsInv(s3, Reply(c, k));
    ReplyBlocks(s3, c, k);
    Resumable(s4, c);
    ResumeBlocks(s4, c, co);
    r := Next(s4, Resume(c));
    Ends(r);
    LeadsOn(s4, Resume(c), [], r);
    LeadsOn(s3, Reply(c, k), [Resume(c)] + [], r);
    LeadsOn(s, Submit(c, k, s.clock), [Reply(c, k)] + ([Resume(c)] + []), r);
  }

  lemma Ends(s: State)
    ensures Leads(s, [], s)
  {
  }

  lemma Issued(s: State, pid: Pid, co: Co, timeout: nat, k: Conn) returns (s2: State)
    requires Inv(s) && co !in s.blocked && k !in s.closed
    ensures var c := |s.calls|; var s1 := Next(s, Invoke(pid, co, timeout));
            && Enabled(s, Invoke(pid, co, timeout)) && Enabled(s1, Choose(c, k, false))
            && s2 == Next(s1, Choose(c, k, false))
    ensures var c := |s.calls|;
            && Inv(s2) && Enabled(s2, Submit(c, k, s.clock)) && s2.clock == s.clock
            && k !in s2.closed && (k, c) in s2.hands
            && c < |s2.calls| && s2.calls[c].co == co && (s2.calls[c].expire == 0 || s.clock < s2.calls[c].expire)
            && s2.fills == s.fills && s2.wakes == s.wakes && s2.blocked == s.blocked[co := c]
  {
    hide TasksOk, ResultsOk, MessagesOk, ClosedOk, BlockedOk, PastOk, LogsOk;
    var c := |s.calls|;
    StepKeepsInv(s, Invoke(pid, co, timeout));
    var s1 := Next(s, Invoke(pid, co, timeout));
    assert c in s1.queue;
    StepKeepsInv(s1, Choose(c, k, false));
    s2 := Next(s1, Choose(c, k, false));
    hide Inv;
  }

  lemma Resumable(s: State, c: CallId)
    requires c in s.records && c < |s.calls|
    ensures Enabled(s, Resume(c))
  {
  }

  lemma Sent(s: State, c: CallId, k: Conn)
    requires c < |s.calls| && (s.calls[c].expire == 0 || s.clock < s.calls[c].expire)
    requires (k, c) in s.hands && k !in s.closed
    ensures var s' := Next(s, Submit(c, k, s.clock));
            && At(s'.loc, c, Awaiting(k)) && Enabled(s', Reply(c, k)) && s'.blocked == s.blocked && s'.calls == s.calls
            && s'.fills == s.fills && s'.wakes == s.wakes
  {
  }

  lemma ReplyBlocks(s: State, c: CallId, k: Conn)
    requires Enabled(s, Reply(c, k))
    ensures var s' := Next(s, Reply(c, k));
            s'.blocked == s.blocked && s'.calls == s.calls && s'.wakes == s.wakes && s'.clock == s.clock
  {
  }

  lemma ResumeBlocks(s: State, c: CallId, co: Co)
    requires Inv(s) && Enabled(s, Resume(c)) && c < |s.calls|
    requires s.calls[c].co == co && co in s.blocked && s.blocked[co] == c
    ensures var s' := Next(s, Resume(c));
            s'.blocked == s.blocked - {co} && s'.fills == s.fills && s'.wakes == s.wakes + [(c, Some(c))]
  {
    hide Inv, Next, Enabled;
    RecordWakes(s, c);
    ResumedForm(s, c);
  }
}
