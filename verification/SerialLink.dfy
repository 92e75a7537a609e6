/** Serial numbers, acknowledgements and replay between two terminals.

One direction of a conversation: the sender numbers its messages and keeps those that
may have to be sent again; the receiver insists on consecutive serials; what it has
received comes back as acknowledgements; the connection may break and be resumed. */
module SerialLink {

  import opened Codec
  import opened Common
  import opened MessageBuffers
  import opened NormalLinks

  // ----- the sender -----

  /** out is what has gone to the connection and is not yet at the other side. */
  datatype Sender = Sender(open: bool, lastSend: nat, buffer: Option<Buffer>, out: seq<Message>)

  /** MessageTerminal::Connection::send */
  function AfterSend(serials: bool, s: Sender, m: Message, needBuffer: bool): Sender {
    if !s.open && (m.kind < 0 || s.buffer.None? || !needBuffer) then s
    else if m.kind > 0 && serials then
      var m1 := m.(serial := s.lastSend + 1);
      var b := if s.buffer.None? then None
               else if needBuffer then Some(Inserted(s.buffer.value, m1))
               else Some(Jumped(s.buffer.value, m1.serial));
      Sender(s.open, s.lastSend + 1, b, if s.open then s.out + [m1] else s.out)
    else if s.open then s.(out := s.out + [m.(serial := 0)])
    else s
  }

  /** The message that lets the receiver skip serials. */
  function Jump(serial: nat): Message {
    Message(TYPE_JUMP_SERIAL, 0, serial, false, [])
  }

  /** The buffered messages again, each gap bridged. */
  function Replay(s: seq<Message>, lastSerial: nat): seq<Message> {
    if s == [] then [] else Bridge(lastSerial, s[0].serial) + [s[0]] + Replay(s[1..], s[0].serial)
  }

  function Bridge(lastSerial: nat, serial: nat): seq<Message> {
    if 0 < lastSerial < serial && serial != lastSerial + 1 then [Jump(serial - 1)] else []
  }

  lemma ReplayStep(out: seq<Message>, s: seq<Message>, i: nat, lastSerial: nat)
    requires i < |s|
    ensures out + Replay(s[i..], lastSerial) ==
            out + Bridge(lastSerial, s[i].serial) + [s[i]] + Replay(s[i + 1..], s[i].serial)
  {
    assert s[i..][0] == s[i] && s[i..][1..] == s[i + 1..];
  }

  /** The source's connection, with the buffer on the heap. */
  class Connection {
    const serials: bool
    const msgBuffer: MessageBuffer?
    var isOpen: bool
    var lastSendSerial: nat
    var out: seq<Message>

    ghost predicate Valid()
      reads this, msgBuffer, if msgBuffer == null then {} else {msgBuffer.bufMsglink},
            if msgBuffer == null then [] else msgBuffer.bufMsglink.nodes
    {
      msgBuffer != null ==> serials && msgBuffer.Valid()
    }

    ghost function Abs(): Sender
      reads this, msgBuffer
    {
      Sender(isOpen, lastSendSerial, if msgBuffer == null then None else Some(msgBuffer.Abs()), out)
    }

    constructor (serials: bool, msgBuffer: MessageBuffer?)
      requires msgBuffer != null ==> serials && msgBuffer.Valid()
      ensures Valid() && this.serials == serials && this.msgBuffer == msgBuffer
      ensures isOpen && lastSendSerial == 0 && out == []
    {
      this.serials, this.msgBuffer := serials, msgBuffer;
      isOpen, lastSendSerial, out := true, 0, [];
    }

    method Send(m: Message, needBuffer: bool)
      requires Valid()
      modifies this, msgBuffer, if msgBuffer == null then {} else {msgBuffer.bufMsglink},
               if msgBuffer == null then [] else msgBuffer.bufMsglink.nodes
      ensures Valid() && Abs() == AfterSend(serials, old(Abs()), m, needBuffer)
      ensures msgBuffer != null ==>
                forall i | 0 <= i < |msgBuffer.bufMsglink.nodes| ::
                  var n := msgBuffer.bufMsglink.nodes[i]; n in old(msgBuffer.bufMsglink.nodes) || fresh(n)
      ensures var used := m.kind > 0 && serials && (isOpen || (msgBuffer != null && needBuffer));
              lastSendSerial == old(lastSendSerial) + if used then 1 else 0
      ensures isOpen == old(isOpen)
      ensures isOpen ==> out == old(out) + [m.(serial := if m.kind > 0 && serials then lastSendSerial else 0)]
      ensures !isOpen ==> out == old(out)
      ensures !isOpen && !needBuffer ==> Abs() == old(Abs())
    {
      hide Inserted, Jumped, MessageBuffer.Valid;
      if !isOpen {
        if m.kind < 0 { return; }
        if msgBuffer == null { return; }
        if !needBuffer { return; }
      }
      var sendInfo;
      if m.kind > 0 && serials {
        lastSendSerial := lastSendSerial + 1;
        sendInfo := m.(serial := lastSendSerial);
        if msgBuffer != null {
          if needBuffer {
            var _ := msgBuffer.InsertMessage(sendInfo);
          } else {
            var _ := msgBuffer.JumpToSerial(sendInfo.serial);
          }
        }
      } else {
        sendInfo := m.(serial := 0);
      }
      if isOpen {
        out := out + [sendInfo];
      }
    }

    /** MessageTerminal::Connection::resend, with the walk over the list that traverse makes. */
    method Resend()
      requires Valid()
      modifies this`out
      ensures Valid()
      ensures out == if isOpen && msgBuffer != null then old(out) + Replay(msgBuffer.messages, 0) else old(out)
    {
      hide MessageBuffer.Shape;
      if msgBuffer == null { return; }
      ghost var s := msgBuffer.messages;
      ghost var nodes := msgBuffer.bufMsglink.nodes;
      msgBuffer.Front();
      var lastSerial := 0;
      var it := msgBuffer.bufMsglink.head;
      ghost var i := 0;
      assert s[0..] == s;
      while it != null
        invariant i <= |s| && it == At(nodes, i) && |nodes| == |s|
        invariant isOpen ==> out + Replay(s[i..], lastSerial) == old(out) + Replay(s, 0)
        invariant !isOpen ==> out == old(out)
        invariant lastSerial == if i == 0 then 0 else s[i - 1].serial
        decreases |s| - i
      {
        msgBuffer.NodeAt(i);
        if !isOpen { return; }
        var sendInfo := it.data;
        ReplayStep(out, s, i, lastSerial);
        ghost var view := out;
        if lastSerial > 0 && sendInfo.serial != lastSerial + 1 {
          out := out + [Jump(sendInfo.serial - 1)];
        }
        assert i > 0 ==> s[i - 1].serial < s[i].serial;
        assert out == view + Bridge(lastSerial, sendInfo.serial);
        out := out + [sendInfo];
        lastSerial := sendInfo.serial;
        it := it.next;
        i := i + 1;
      }
      assert s[i..] == [] && Replay([], lastSerial) == [];
    }
  }

  // ----- the receiver -----

  /** Serials on; checksum and cipher are out of this picture; every type has a handler. */
  const PLAIN: Options := Options(true, false, None, {}, true)

  /** What recvSerial_ is after the messages, or None if one of them is refused. */
  function Accepts(recv: nat, out: seq<Message>): Option<nat>
    decreases |out|
  {
    if out == [] then Some(recv)
    else
      var r := Receive(PLAIN, recv, out[0], 0);
      if r.error then None else Accepts(r.recvSerial, out[1..])
  }

  lemma {:induction false} AcceptsAppend(recv: nat, a: seq<Message>, b: seq<Message>)
    ensures Accepts(recv, a + b) == if Accepts(recv, a).None? then None else Accepts(Accepts(recv, a).value, b)
    decreases |a|
  {
    hide Receive;
    if a == [] {
      assert a + b == b;
    } else {
      assert (a + b)[0] == a[0] && (a + b)[1..] == a[1..] + b;
      var r := Receive(PLAIN, recv, a[0], 0);
      if !r.error {
        AcceptsAppend(r.recvSerial, a[1..], b);
      }
    }
  }

  lemma AcceptsOne(recv: nat, m: Message)
    ensures Accepts(recv, [m]) == var r := Receive(PLAIN, recv, m, 0); if r.error then None else Some(r.recvSerial)
  {
    hide Receive;
    assert [m][1..] == [];
    assert forall k: nat :: Accepts(k, []) == Some(k);
  }

  /** Messages as send numbers them: no type 0, ordinary ones from 1 on. */
  predicate Numbered(m: Message) {
    m.kind != 0 && m.serial < TWO_32 && (m.kind > 0 ==> 0 < m.serial)
  }

  /** Acceptance only moves forward, and an ordinary message on the way lies ahead. */
  lemma {:induction false} AcceptsForward(recv: nat, out: seq<Message>)
    requires recv < TWO_32 && (forall i | 0 <= i < |out| :: Numbered(out[i])) && Accepts(recv, out).Some?
    ensures recv <= Accepts(recv, out).value
    ensures forall i | 0 <= i < |out| && out[i].kind > 0 :: recv < out[i].serial <= Accepts(recv, out).value
    decreases |out|
  {
    if out != [] {
      var r := Receive(PLAIN, recv, out[0], 0);
      assert Numbered(out[0]);
      assert recv <= r.recvSerial < TWO_32 && (out[0].kind > 0 ==> recv < out[0].serial == r.recvSerial);
      hide Receive;
      AcceptsForward(r.recvSerial, out[1..]);
      forall i | 0 <= i < |out| && out[i].kind > 0
        ensures recv < out[i].serial <= Accepts(recv, out).value
      {
        if i > 0 { assert out[i] == out[1..][i - 1]; }
      }
    }
  }

  // ----- what send and replay promise -----

  /** A message just sent over an open connection to a receiver that is up to date is
      accepted unless its type is 0 or that of the jump message. */
  lemma SendIsAccepted(s: Sender, m: Message, needBuffer: bool, recv: nat)
    requires s.open && s.lastSend + 1 < TWO_32 && Accepts(recv, s.out) == Some(s.lastSend)
    ensures var s' := AfterSend(true, s, m, needBuffer);
            Accepts(recv, s'.out) == Some(s'.lastSend) <==> m.kind != 0 && m.kind != TYPE_JUMP_SERIAL
  {
    var s' := AfterSend(true, s, m, needBuffer);
    var m1 := m.(serial := if m.kind > 0 then s.lastSend + 1 else 0);
    assert s'.out == s.out + [m1];
    AcceptsAppend(recv, s.out, [m1]);
    AcceptsOne(s.lastSend, m1);
  }

  /** A message of type 0 goes out with serial 0, but the receiver counts it. */
  lemma TypeZeroIsRefused()
    ensures var m := Message(0, 0, 0, false, []);
            Accepts(0, AfterSend(true, Sender(true, 0, None, []), m, false).out) == None
  {
    var m := Message(0, 0, 0, false, []);
    assert AfterSend(true, Sender(true, 0, None, []), m, false).out == [] + [m] == [m];
    AcceptsOne(0, m);
  }

  /** Buffered messages are ordinary ones. */
  ghost predicate Ordinary(s: seq<Message>) {
    forall i | 0 <= i < |s| :: s[i].kind > 0 && 0 < s[i].serial < TWO_32
  }

  lemma OrdinaryAccepted(recv: nat, m: Message)
    requires recv < TWO_32 && m.kind > 0 && 0 < m.serial < TWO_32
    ensures Accepts(recv, [m]) == if recv + 1 == m.serial then Some(m.serial) else None
  {
    AcceptsOne(recv, m);
  }

  lemma BridgeAccepted(lastSerial: nat, m: Message)
    requires 0 < lastSerial < m.serial < TWO_32 && m.kind > 0
    ensures Accepts(lastSerial, Bridge(lastSerial, m.serial) + [m]) == Some(m.serial)
  {
    var bridge := Bridge(lastSerial, m.serial);
    AcceptsAppend(lastSerial, bridge, [m]);
    OrdinaryAccepted(m.serial - 1, m);
    if bridge != [] {
      AcceptsOne(lastSerial, Jump(m.serial - 1));
    }
  }

  /** From a receiver at lastSerial the rest of a replay is accepted to its end. */
  lemma {:induction false} ReplayRest(s: seq<Message>, lastSerial: nat)
    requires Increasing(s) && Ordinary(s) && lastSerial > 0 && (s != [] ==> lastSerial < s[0].serial)
    ensures Accepts(lastSerial, Replay(s, lastSerial)) == Some(if s == [] then lastSerial else s[|s| - 1].serial)
    decreases |s|
  {
    hide Receive, Bridge;
    if s != [] {
      var m := s[0];
      var front := Bridge(lastSerial, m.serial) + [m];
      assert Replay(s, lastSerial) == front + Replay(s[1..], m.serial);
      BridgeAccepted(lastSerial, m);
      ReplayRest(s[1..], m.serial);
      AcceptsAppend(lastSerial, front, Replay(s[1..], m.serial));
    }
  }

  /** The ordinary messages among all. */
  function Delivered(out: seq<Message>): seq<Message> {
    if out == [] then []
    else (if out[0].kind > 0 then [out[0]] else []) + Delivered(out[1..])
  }

  lemma {:induction false} DeliveredAppend(a: seq<Message>, b: seq<Message>)
    ensures Delivered(a + b) == Delivered(a) + Delivered(b)
    decreases |a|
  {
    if a == [] {
      assert a + b == b;
    } else {
      assert (a + b)[0] == a[0] && (a + b)[1..] == a[1..] + b;
      DeliveredAppend(a[1..], b);
    }
  }

  /** What a replay delivers are the buffered messages, in order and complete. */
  lemma {:induction false} ReplayDelivers(s: seq<Message>, lastSerial: nat)
    requires Ordinary(s)
    ensures Delivered(Replay(s, lastSerial)) == s
    decreases |s|
  {
    if s != [] {
      var bridge := Bridge(lastSerial, s[0].serial);
      DeliveredAppend(bridge + [s[0]], Replay(s[1..], s[0].serial));
      DeliveredAppend(bridge, [s[0]]);
      assert Delivered(bridge) == [];
      assert [s[0]][1..] == [] && Delivered([s[0]]) == [s[0]];
      ReplayDelivers(s[1..], s[0].serial);
    }
  }

  /** Replay is accepted, and leaves the receiver at the last buffered serial, if and only
      if the receiver waits for the first buffered message. */
  lemma ReplayIsAccepted(s: seq<Message>, recv: nat)
    requires Increasing(s) && Ordinary(s) && s != [] && recv < TWO_32
    ensures Accepts(recv, Replay(s, 0)) ==
            if recv + 1 == s[0].serial then Some(s[|s| - 1].serial) else None
  {
    hide Receive, Accepts;
    var m := s[0];
    assert Bridge(0, m.serial) == [];
    assert Replay(s, 0) == [m] + Replay(s[1..], m.serial);
    AcceptsAppend(recv, [m], Replay(s[1..], m.serial));
    OrdinaryAccepted(recv, m);
    if recv + 1 == m.serial {
      ReplayRest(s[1..], m.serial);
    }
  }

  /** After a replay the next new message is accepted if and only if no unbuffered message
      was numbered after the last buffered one: that gap is not bridged. */
  lemma NextAfterReplay(s: seq<Message>, recv: nat, lastSend: nat, m: Message)
    requires Increasing(s) && Ordinary(s) && s != [] && recv + 1 == s[0].serial
    requires m.kind > 0 && m.serial == lastSend + 1 < TWO_32
    ensures Accepts(recv, Replay(s, 0) + [m]) == if s[|s| - 1].serial == lastSend then Some(m.serial) else None
  {
    ReplayIsAccepted(s, recv);
    AcceptsAppend(recv, Replay(s, 0), [m]);
    AcceptsOne(s[|s| - 1].serial, m);
  }

  // ----- both sides over any run -----

  /** acks are acknowledgements on their way back, in any order; taken is what the receiver
      has handed on; kept is every message that was sent with the wish to be buffered. */
  datatype Link = Link(s: Sender, recv: nat, failed: bool, acks: seq<nat>, taken: seq<Message>, kept: set<Message>) {
    function Held(): seq<Message> {
      if s.buffer.Some? then s.buffer.value.messages else []
    }

    function ScrapSerial(): nat {
      if s.buffer.Some? then s.buffer.value.lastScrapSerial else 0
    }

    predicate Unlimited() {
      s.buffer.Some? && s.buffer.value.maxMsgNum == 0
    }
  }

  datatype Event = Send(m: Message, needBuffer: bool) | Arrive | Acknowledge | Scrap(k: nat) | Close | Reopen

  /** What can be checked before a broken connection is resumed by replay: the receiver
      waits for the oldest message still held, and the newest one held is the last sent. */
  predicate Resumable(l: Link) {
    var r := After(l.Held(), l.recv);
    if r == [] then l.recv == l.s.lastSend else r[0].serial == l.recv + 1 && r[|r| - 1].serial == l.s.lastSend
  }

  predicate Enabled(l: Link, e: Event) {
    match e
    case Send(m, _) => m.kind != 0 && m.kind != TYPE_JUMP_SERIAL && l.s.lastSend + 1 < TWO_32
    case Arrive => l.s.out != [] && !l.failed
    case Acknowledge => true
    case Scrap(k) => k < |l.acks| && l.s.buffer.Some?
    case Close => true
    case Reopen => !l.s.open && l.s.buffer.Some? && Resumable(l)
  }

  function Stamped(s: Sender, m: Message): Message {
    m.(serial := s.lastSend + 1)
  }

  function AfterArrive(l: Link): Link
    requires l.s.out != []
  {
    var m := l.s.out[0];
    var r := Receive(PLAIN, l.recv, m, 0);
    l.(s := l.s.(out := l.s.out[1..]), recv := r.recvSerial, failed := r.error,
       taken := if m.kind > 0 && !r.error then l.taken + [m] else l.taken)
  }

  function Next(l: Link, e: Event): Link
    requires Enabled(l, e)
  {
    match e
    case Send(m, needBuffer) =>
      l.(s := AfterSend(true, l.s, m, needBuffer),
         kept := if m.kind > 0 && needBuffer then l.kept + {Stamped(l.s, m)} else l.kept)
    case Arrive => AfterArrive(l)
    case Acknowledge => l.(acks := l.acks + [l.recv])
    case Scrap(k) => l.(s := l.s.(buffer := Some(Scrapped(l.s.buffer.value, l.acks[k]))))
    case Close => l.(s := l.s.(open := false, out := []))
    case Reopen =>
      var b := Scrapped(l.s.buffer.value, l.recv);
      l.(s := Sender(true, l.s.lastSend, Some(b), Replay(b.messages, 0)))
  }

  predicate Init(l: Link) {
    && l.s.open && l.s.lastSend == 0 && l.s.out == [] && l.recv == 0 && !l.failed && l.acks == [] && l.taken == []
    && l.kept == {} && l.s.buffer.Some? && l.s.buffer.value == Buffer([], false, l.s.buffer.value.maxMsgNum, 0, 0)
  }

  ghost predicate IsRun(run: seq<Link>, events: seq<Event>) {
    && |run| == |events| + 1 && Init(run[0])
    && forall i | 0 <= i < |events| :: Enabled(run[i], events[i]) && run[i + 1] == Next(run[i], events[i])
  }

  ghost predicate SenderOk(s: Sender) {
    && s.lastSend < TWO_32 && s.buffer.Some? && Ok(s.buffer.value) && Ordinary(s.buffer.value.messages)
    && !s.buffer.value.broken && s.buffer.value.lastSerial == s.lastSend
    && (!s.open ==> s.out == []) && forall i | 0 <= i < |s.out| :: Numbered(s.out[i])
  }

  /** The receiver is in step: all that is on its way will be accepted and bring it up to date. */
  ghost predicate InStep(l: Link) {
    !l.failed && l.recv <= l.s.lastSend && (l.s.open ==> Accepts(l.recv, l.s.out) == Some(l.s.lastSend))
  }

  ghost predicate AcksOk(l: Link) {
    forall i | 0 <= i < |l.acks| :: l.acks[i] <= l.recv
  }

  ghost predicate TakenOk(l: Link) {
    Increasing(l.taken) && forall i | 0 <= i < |l.taken| :: l.taken[i].serial <= l.recv
  }

  /** Every message to be buffered has been taken, or it is on its way if the connection is
      open, and held unless the cap has pushed it out. */
  ghost predicate KeptOk(l: Link, m: Message) {
    && m.kind > 0 && 0 < m.serial <= l.s.lastSend
    && if m.serial <= l.recv then m in l.taken
       else (l.s.open ==> m in l.s.out) && (l.ScrapSerial() < m.serial ==> m in l.Held())
  }

  /** Without a cap nothing is scrapped but what was acknowledged. */
  ghost predicate ScrapOk(l: Link) {
    l.s.buffer.Some? && Ranged(l.s.buffer.value) && (l.Unlimited() ==> l.ScrapSerial() <= l.recv)
  }

  ghost predicate Inv(l: Link) {
    SenderOk(l.s) && InStep(l) && AcksOk(l) && TakenOk(l) && ScrapOk(l) && forall m | m in l.kept :: KeptOk(l, m)
  }

  lemma InitInv(l: Link)
    requires Init(l)
    ensures Inv(l)
  {
  }

  lemma SendKeeps(l: Link, m: Message, needBuffer: bool)
    requires Inv(l) && Enabled(l, Send(m, needBuffer))
    ensures Inv(Next(l, Send(m, needBuffer)))
  {
    var l' := Next(l, Send(m, needBuffer));
    SendSender(l.s, m, needBuffer);
    if l.s.open { SendIsAccepted(l.s, m, needBuffer, l.recv); }
    SendScrapped(l.s, m, needBuffer);
    hide Accepts, AfterSend, SenderOk, Ranged;
    forall x | x in l'.kept
      ensures KeptOk(l', x)
    {
      SendKept(l, m, needBuffer, x);
    }
  }

  lemma SendScrapped(s: Sender, m: Message, needBuffer: bool)
    requires SenderOk(s) && Ranged(s.buffer.value)
    ensures var s' := AfterSend(true, s, m, needBuffer);
            && s'.buffer.Some? && Ranged(s'.buffer.value) && s'.open == s.open && s.lastSend <= s'.lastSend
            && s'.buffer.value.maxMsgNum == s.buffer.value.maxMsgNum
            && (s.buffer.value.maxMsgNum == 0 ==> s'.buffer.value.lastScrapSerial == s.buffer.value.lastScrapSerial)
  {
    var m1 := m.(serial := s.lastSend + 1);
    InsertKeeps(s.buffer.value, m1);
    JumpKeeps(s.buffer.value, m1.serial);
    hide Ranged, Ok;
  }

  lemma SendKept(l: Link, m: Message, needBuffer: bool, x: Message)
    requires Inv(l) && Enabled(l, Send(m, needBuffer)) && x in Next(l, Send(m, needBuffer)).kept
    ensures KeptOk(Next(l, Send(m, needBuffer)), x)
  {
    hide Accepts;
    assert x in l.kept ==> KeptOk(l, x);
  }

  /** The buffer takes every new serial, or skips it; it never breaks. */
  lemma SendSender(s: Sender, m: Message, needBuffer: bool)
    requires SenderOk(s) && s.lastSend + 1 < TWO_32 && m.kind != 0 && m.kind != TYPE_JUMP_SERIAL
    ensures SenderOk(AfterSend(true, s, m, needBuffer))
  {
    hide Ok, Inserted, Jumped, Ordinary, Ranged;
    var m1 := m.(serial := s.lastSend + 1);
    InsertKeeps(s.buffer.value, m1);
    JumpKeeps(s.buffer.value, m1.serial);
    if m.kind > 0 { InsertedOrdinary(s.buffer.value, m1); }
  }

  lemma InsertedOrdinary(b: Buffer, m: Message)
    requires Ordinary(b.messages) && m.kind > 0 && 0 < m.serial < TWO_32 && !b.broken && m.serial == b.lastSerial + 1
    ensures var b' := Inserted(b, m); Ordinary(b'.messages) && !b'.broken && b'.lastSerial == m.serial
    ensures var b' := Jumped(b, m.serial); b'.messages == b.messages && !b'.broken && b'.lastSerial == m.serial
  {
    assert Ordinary(Trimmed(b).messages);
  }

  /** The front message is accepted, and it is the one buffered message with its serial. */
  lemma ArriveKeeps(l: Link)
    requires Inv(l) && Enabled(l, Arrive)
    ensures Inv(Next(l, Arrive))
  {
    var m, rest := l.s.out[0], l.s.out[1..];
    var l' := AfterArrive(l);
    assert Numbered(m) && l.s.open;
    assert Accepts(l'.recv, rest) == Some(l.s.lastSend) && !l'.failed;
    assert l.recv <= l'.recv && (m.kind > 0 ==> l'.recv == l.recv + 1 == m.serial);
    AcceptsForward(l'.recv, rest);
    hide Accepts, Receive;
    forall x | x in l.kept
      ensures KeptOk(l', x)
    {
      ArriveKept(l, l', x);
    }
  }

  lemma ArriveKept(l: Link, l': Link, x: Message)
    requires KeptOk(l, x) && l.s.open && l.s.out != []
    requires var m := l.s.out[0];
             && l.recv <= l'.recv && (m.kind > 0 ==> l'.recv == l.recv + 1 == m.serial)
             && l'.taken == if m.kind > 0 then l.taken + [m] else l.taken
    requires l'.s == l.s.(out := l.s.out[1..])
    requires forall i | 0 <= i < |l'.s.out| && l'.s.out[i].kind > 0 :: l'.recv < l'.s.out[i].serial
    ensures KeptOk(l', x)
  {
    if x.serial > l.recv {
      var i :| 0 <= i < |l.s.out| && l.s.out[i] == x;
      if i > 0 {
        assert l'.s.out[i - 1] == x;
      }
    }
  }

  /** Only what the receiver has accepted is removed. */
  lemma ScrapKept(l: Link, serial: nat)
    requires Inv(l) && serial <= l.recv
    ensures Inv(l.(s := l.s.(buffer := Some(Scrapped(l.s.buffer.value, serial)))))
    ensures forall i | 0 <= i < |l.Held()| && l.Held()[i].serial > l.recv ::
              l.Held()[i] in Scrapped(l.s.buffer.value, serial).messages
  {
    var b := l.s.buffer.value;
    var l' := l.(s := l.s.(buffer := Some(Scrapped(b, serial))));
    hide After, Accepts, Ok, Increasing, Ordinary;
    ScrapKeeps(b, serial);
    ScrapOrdinary(b.messages, serial);
    forall i | 0 <= i < |b.messages| && b.messages[i].serial > serial
      ensures b.messages[i] in l'.Held()
    {
      ScrapSpares(b, serial, i);
    }
    forall x | x in l.kept
      ensures KeptOk(l', x)
    {
      if x.serial > l.recv && x.serial > l.ScrapSerial() {
        var i :| 0 <= i < |b.messages| && b.messages[i] == x;
      }
    }
  }

  lemma ScrapOrdinary(s: seq<Message>, serial: nat)
    requires Ordinary(s)
    ensures Ordinary(After(s, serial))
  {
    hide After;
    AfterIsSuffix(s, serial);
  }

  /** The guard of Reopen is exact: replay brings the receiver up to date if and only if it holds. */
  lemma ResumableIsExact(l: Link)
    requires Inv(l) && !l.s.open
    ensures Resumable(l) <==> Accepts(l.recv, Replay(After(l.Held(), l.recv), 0)) == Some(l.s.lastSend)
  {
    var b := l.s.buffer.value;
    ScrapKeeps(b, l.recv);
    AfterIsSuffix(b.messages, l.recv);
    var r := After(b.messages, l.recv);
    if r != [] {
      ReplayIsAccepted(r, l.recv);
    }
    hide After;
  }

  lemma {:induction false} ReplayHolds(s: seq<Message>, lastSerial: nat)
    requires Ordinary(s)
    ensures forall i | 0 <= i < |s| :: s[i] in Replay(s, lastSerial)
    ensures forall i | 0 <= i < |Replay(s, lastSerial)| :: Numbered(Replay(s, lastSerial)[i])
    decreases |s|
  {
    if s != [] {
      ReplayHolds(s[1..], s[0].serial);
      forall i | 0 <= i < |s|
        ensures s[i] in Replay(s, lastSerial)
      {
        if i > 0 { assert s[i] == s[1..][i - 1]; }
      }
    }
  }

  lemma ReopenKeeps(l: Link)
    requires Inv(l) && Enabled(l, Reopen)
    ensures Inv(Next(l, Reopen))
  {
    hide Accepts, After, Replay, Ok, Resumable, Increasing;
    ResumableIsExact(l);
    ScrapKept(l, l.recv);
    var l1 := l.(s := l.s.(buffer := Some(Scrapped(l.s.buffer.value, l.recv))));
    var l' := Next(l, Reopen);
    ReplayHolds(l1.Held(), 0);
    forall x | x in l.kept
      ensures KeptOk(l', x)
    {
      assert KeptOk(l, x) && KeptOk(l1, x);
      if x.serial > l.recv { ResumableHolds(l, x); }
    }
  }

  /** A connection that can be resumed still holds all that the receiver lacks. */
  lemma ResumableHolds(l: Link, x: Message)
    requires Inv(l) && Resumable(l) && KeptOk(l, x) && x.serial > l.recv
    ensures l.ScrapSerial() < x.serial && x in Scrapped(l.s.buffer.value, l.recv).messages
  {
    hide After, Accepts;
    var b := l.s.buffer.value;
    AfterIsSuffix(b.messages, l.recv);
    var r := After(b.messages, l.recv);
    assert r != [] && r[0] == b.messages[|b.messages| - |r|];
    var i :| 0 <= i < |b.messages| && b.messages[i] == x;
    ScrapSpares(b, l.recv, i);
  }

  lemma CloseKeeps(l: Link)
    requires Inv(l)
    ensures Inv(Next(l, Close))
  {
    hide Accepts;
  }

  lemma AcknowledgeKeeps(l: Link)
    requires Inv(l)
    ensures Inv(Next(l, Acknowledge))
  {
    hide Accepts;
    var l' := Next(l, Acknowledge);
    assert forall m | m in l.kept :: KeptOk(l, m) ==> KeptOk(l', m);
  }

  lemma StepKeepsInv(l: Link, e: Event)
    requires Inv(l) && Enabled(l, e)
    ensures Inv(Next(l, e))
  {
    hide Inv, AfterArrive, AfterSend;
    match e
    case Send(m, needBuffer) => SendKeeps(l, m, needBuffer);
    case Arrive => ArriveKeeps(l);
    case Acknowledge => AcknowledgeKeeps(l);
    case Scrap(k) => AckIsAccepted(l, k); ScrapKept(l, l.acks[k]);
    case Close => CloseKeeps(l);
    case Reopen => ReopenKeeps(l);
  }

  /** An acknowledgement never names a serial that the receiver has not reached. */
  lemma AckIsAccepted(l: Link, k: nat)
    requires Inv(l) && k < |l.acks|
    ensures l.acks[k] <= l.recv
  {
  }

  lemma {:induction false} RunsKeepInv(run: seq<Link>, events: seq<Event>, n: nat)
    requires IsRun(run, events) && n < |run|
    ensures Inv(run[n])
  {
    hide Inv, Next;
    if n == 0 {
      InitInv(run[0]);
    } else {
      RunsKeepInv(run, events, n - 1);
      assert Enabled(run[n - 1], events[n - 1]) && run[n] == Next(run[n - 1], events[n - 1]);
      StepKeepsInv(run[n - 1], events[n - 1]);
    }
  }

  /** In every run the receiver never meets a serial it does not expect. */
  lemma NeverMismatched(run: seq<Link>, events: seq<Event>, n: nat)
    requires IsRun(run, events) && n < |run|
    ensures !run[n].failed && run[n].recv <= run[n].s.lastSend
    ensures run[n].s.open ==> Accepts(run[n].recv, run[n].s.out) == Some(run[n].s.lastSend)
  {
    RunsKeepInv(run, events, n);
  }

  /** In every run a message that was to be buffered has been taken, or is still held, or was
      pushed out by the cap before the receiver took it; and without a cap that does not happen. */
  lemma NothingIsLost(run: seq<Link>, events: seq<Event>, n: nat, m: Message)
    requires IsRun(run, events) && n < |run| && m in run[n].kept
    ensures m in run[n].taken || (run[n].recv < m.serial && (m in run[n].Held() || m.serial <= run[n].ScrapSerial()))
    ensures run[n].Unlimited() ==> m in run[n].taken || m in run[n].Held()
    ensures forall k | 0 <= k < |run[n].acks| :: run[n].acks[k] <= run[n].recv
  {
    RunsKeepInv(run, events, n);
    assert KeptOk(run[n], m);
  }

  /** In every run the receiver hands messages on in the order of their serials, none twice. */
  lemma TakenOnceInOrder(run: seq<Link>, events: seq<Event>, n: nat)
    requires IsRun(run, events) && n < |run|
    ensures Increasing(run[n].taken)
  {
    RunsKeepInv(run, events, n);
  }

  /** In every run the buffer is in order, after what was scrapped, within its cap and whole. */
  lemma BufferIsSound(run: seq<Link>, events: seq<Event>, n: nat)
    requires IsRun(run, events) && n < |run|
    ensures run[n].s.buffer.Some? && Ok(run[n].s.buffer.value) && !run[n].s.buffer.value.broken
    ensures Ranged(run[n].s.buffer.value)
  {
    RunsKeepInv(run, events, n);
  }

  // ----- connections that cannot be resumed -----

  /** The connection is broken, and the next message that the receiver needs is not held. */
  ghost predicate Stuck(l: Link) {
    !l.s.open && l.recv < l.s.lastSend && forall i | 0 <= i < |l.Held()| :: l.Held()[i].serial != l.recv + 1
  }

  /** The instance: one unbuffered message is sent, and the connection breaks before it arrives. */
  lemma UnbufferedIsStuck(l: Link, m: Message)
    requires Init(l) && m.kind > 0
    ensures Enabled(l, Send(m, false)) && Enabled(Next(l, Send(m, false)), Close)
    ensures var l' := Next(Next(l, Send(m, false)), Close); Stuck(l') && !Resumable(l')
  {
    var l' := Next(Next(l, Send(m, false)), Close);
    assert l'.Held() == [] && l'.s.lastSend == 1 && l'.recv == 0;
  }

  lemma StuckIsNotResumable(l: Link)
    requires Inv(l) && Stuck(l)
    ensures !Resumable(l)
  {
    hide After, Accepts;
    var s := l.Held();
    AfterIsSuffix(s, l.recv);
    var r := After(s, l.recv);
    if r != [] {
      assert r[0] == s[|s| - |r|];
    }
  }

  /** Whatever happens then, the connection stays broken. */
  lemma StuckStays(l: Link, e: Event)
    requires Inv(l) && Stuck(l) && Enabled(l, e)
    ensures e != Reopen && Stuck(Next(l, e))
  {
    StuckIsNotResumable(l);
    hide After, Accepts;
    if e.Scrap? {
      var b := l.s.buffer.value;
      AfterIsSuffix(b.messages, l.acks[e.k]);
    }
  }

  /** In every run, once stuck is stuck for good. */
  lemma {:induction false} StuckForGood(run: seq<Link>, events: seq<Event>, i: nat, n: nat)
    requires IsRun(run, events) && i <= n < |run| && Stuck(run[i])
    ensures Stuck(run[n]) && (n < |events| ==> events[n] != Reopen)
    decreases n
  {
    hide Stuck, Inv, Next;
    if i < n {
      StuckForGood(run, events, i, n - 1);
      RunsKeepInv(run, events, n - 1);
      assert Enabled(run[n - 1], events[n - 1]) && run[n] == Next(run[n - 1], events[n - 1]);
      StuckStays(run[n - 1], events[n - 1]);
    }
    if n < |events| {
      RunsKeepInv(run, events, n);
      assert Enabled(run[n], events[n]);
      StuckStays(run[n], events[n]);
    }
  }

  /** The buffer is full, and the next message would push out the one that the receiver needs. */
  ghost predicate Cramped(l: Link) {
    && l.s.buffer.Some? && 0 < l.s.buffer.value.maxMsgNum <= |l.Held()|
    && l.Held()[0].serial == l.recv + 1
  }

  /** A broken connection can be resumed at once, or after one more buffered message has bridged the
      gap at the end, if and only if it can be resumed now or is neither stuck nor cramped. */
  lemma StuckIsExact(l: Link, m: Message)
    requires Inv(l) && !l.s.open && m.kind > 0 && l.s.lastSend + 1 < TWO_32
    ensures Resumable(l) || Resumable(Next(l, Send(m, true))) <==> Resumable(l) || (!Stuck(l) && !Cramped(l))
  {
    hide Resumable, Inv, Next;
    if Stuck(l) {
      StuckIsNotResumable(l);
      StuckStays(l, Send(m, true));
      StepKeepsInv(l, Send(m, true));
      StuckIsNotResumable(Next(l, Send(m, true)));
    } else if Cramped(l) {
      CrampedIsStuck(l, m);
      StepKeepsInv(l, Send(m, true));
      StuckIsNotResumable(Next(l, Send(m, true)));
    } else {
      Mended(l, m);
    }
  }

  /** What comes after the acknowledged serial starts with the next one, if that is there. */
  lemma FromNext(s: seq<Message>, recv: nat, i: nat)
    requires Increasing(s) && i < |s| && s[i].serial == recv + 1
    ensures After(s, recv) == s[i..]
  {
    hide After;
    AfterIsSuffix(s, recv);
    AfterCut(s, recv, i);
    if i > 0 { AfterCut(s, recv, i - 1); }
  }

  lemma {:induction false} AllAcknowledged(s: seq<Message>, serial: nat)
    requires forall i | 0 <= i < |s| :: s[i].serial <= serial
    ensures After(s, serial) == []
  {
    if s != [] {
      AllAcknowledged(s[1..], serial);
    }
  }

  /** A buffered message sent over a broken connection. */
  lemma NewHeld(l: Link, m: Message)
    requires Inv(l) && !l.s.open && m.kind > 0 && l.s.lastSend + 1 < TWO_32
    ensures var l', m1 := Next(l, Send(m, true)), Stamped(l.s, m);
            var kept := Trimmed(l.s.buffer.value).messages;
            && l'.Held() == kept + [m1] && Increasing(kept + [m1])
            && l'.recv == l.recv <= l.s.lastSend && !l'.s.open && l'.s.lastSend == m1.serial == l.s.lastSend + 1
    ensures Increasing(l.Held()) && forall i | 0 <= i < |l.Held()| :: l.Held()[i].serial <= l.s.lastSend
  {
    hide Accepts, KeptOk;
  }

  lemma CrampedIsStuck(l: Link, m: Message)
    requires Inv(l) && !l.s.open && m.kind > 0 && l.s.lastSend + 1 < TWO_32 && Cramped(l)
    ensures Stuck(Next(l, Send(m, true)))
  {
    NewHeld(l, m);
    hide Next, Stamped, Inv;
    var s, m1 := l.Held(), Stamped(l.s, m);
    assert forall i | 0 <= i < |s[1..]| :: s[1..][i] == s[i + 1] && s[0].serial < s[i + 1].serial;
  }

  lemma Mended(l: Link, m: Message)
    requires Inv(l) && !l.s.open && m.kind > 0 && l.s.lastSend + 1 < TWO_32 && !Stuck(l) && !Cramped(l)
    ensures Resumable(l) || Resumable(Next(l, Send(m, true)))
  {
    NewHeld(l, m);
    hide After, Increasing, Next, Stamped, Inv;
    var s, m1, kept := l.Held(), Stamped(l.s, m), Trimmed(l.s.buffer.value).messages;
    if l.recv == l.s.lastSend {
      AllAcknowledged(s, l.recv);
    } else {
      var i :| 0 <= i < |s| && s[i].serial == l.recv + 1;
      var j := i - (|s| - |kept|);
      assert kept[j] == s[i];
      FromNext(kept + [m1], l.recv, j);
      assert (kept + [m1])[j..] == kept[j..] + [m1];
    }
  }
}
