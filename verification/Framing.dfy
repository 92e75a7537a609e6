/** The pipelines between a byte stream and messages: cutting frames out of chunks, and
filling send buffers from the queue. */
module Framing {

  import opened Codec
  import opened Common
  import Crc

  // ----- the specification of upflow: one byte at a time -----

  /** A partly read frame, what the receiver knows and what it has handed on. */
  datatype Up =
    | Reading(head: seq<Byte>, body: seq<Byte>, recvSerial: nat, tasks: seq<Task>)
    | Failed(tasks: seq<Task>)

  function TaskList(t: Option<Task>): seq<Task> {
    if t.Some? then [t.value] else []
  }

  /** A whole frame goes through decode. */
  function Dispatch(o: Options, s: Up): Up
    requires o.Ok() && s.Reading? && |s.head| == HEAD_SIZE
  {
    var r := Decode(o, s.recvSerial, s.head, s.body);
    if r.error then Failed(s.tasks) else Reading([], [], r.recvSerial, s.tasks + TaskList(r.task))
  }

  /** What follows when the last byte of a head is there. */
  function AfterHead(o: Options, s: Up): Up
    requires o.Ok() && s.Reading? && |s.head| == HEAD_SIZE
  {
    if SizeOf(s.head) > MAX_MESSAGE_SIZE then Failed(s.tasks)
    else if SizeOf(s.head) == 0 then Dispatch(o, s)
    else s
  }

  function Step(o: Options, s: Up, b: Byte): Up
    requires o.Ok()
  {
    if s.Failed? then s
    else if |s.head| < HEAD_SIZE then
      var s1 := s.(head := s.head + [b]);
      if |s1.head| < HEAD_SIZE then s1 else AfterHead(o, s1)
    else if |s.head| == HEAD_SIZE then
      var s1 := s.(body := s.body + [b]);
      if |s1.body| < SizeOf(s1.head) then s1 else Dispatch(o, s1)
    else s
  }

  function Feed(o: Options, s: Up, bytes: seq<Byte>): Up
    requires o.Ok()
    decreases |bytes|
  {
    if bytes == [] then s else Feed(o, Step(o, s, bytes[0]), bytes[1..])
  }

  /** A head that announces more than 0x10000 bytes is refused on its last byte; one that announces
      less is not, before its body. */
  lemma OversizedIsRefused(o: Options, s: Up, b: Byte)
    requires o.Ok() && s.Reading? && |s.head| == HEAD_SIZE - 1 && s.body == []
    ensures var size := SizeOf(s.head + [b]);
            && (size > 0x1_0000 ==> Step(o, s, b) == Failed(s.tasks))
            && (0 < size <= 0x1_0000 ==> Step(o, s, b) == s.(head := s.head + [b]))
  {
    hide SizeOf, Dispatch;
  }

  /** How the stream is cut into chunks makes no difference. */
  lemma {:induction false} Rechunk(o: Options, s: Up, a: seq<Byte>, b: seq<Byte>)
    requires o.Ok()
    ensures Feed(o, s, a + b) == Feed(o, Feed(o, s, a), b)
    decreases |a|
  {
    hide Step;
    if a == [] {
      assert a + b == b;
    } else {
      assert (a + b)[1..] == a[1..] + b;
      Rechunk(o, Step(o, s, a[0]), a[1..], b);
    }
  }

  lemma {:induction false} FailureIsFinal(o: Options, s: Up, bytes: seq<Byte>)
    requires o.Ok() && s.Failed?
    ensures Feed(o, s, bytes) == s
    decreases |bytes|
  {
    if bytes != [] {
      FailureIsFinal(o, s, bytes[1..]);
    }
  }

  lemma {:induction false} FeedHead(o: Options, s: Up, x: seq<Byte>)
    requires o.Ok() && s.Reading? && x != [] && |s.head| + |x| <= HEAD_SIZE
    ensures var s1 := s.(head := s.head + x);
            Feed(o, s, x) == if |s1.head| < HEAD_SIZE then s1 else AfterHead(o, s1)
    decreases |x|
  {
    hide AfterHead;
    var s1 := s.(head := s.head + [x[0]]);
    if |x| == 1 {
      assert x == [x[0]];
      assert Feed(o, Step(o, s, x[0]), x[1..]) == Step(o, s, x[0]);
    } else {
      FeedHead(o, s1, x[1..]);
      assert s.head + [x[0]] + x[1..] == s.head + x;
    }
  }

  lemma {:induction false} FeedBody(o: Options, s: Up, x: seq<Byte>)
    requires o.Ok() && s.Reading? && |s.head| == HEAD_SIZE && x != [] && |s.body| + |x| <= SizeOf(s.head)
    ensures var s1 := s.(body := s.body + x);
            Feed(o, s, x) == if |s1.body| < SizeOf(s1.head) then s1 else Dispatch(o, s1)
    decreases |x|
  {
    hide Dispatch, SizeOf;
    var s1 := s.(body := s.body + [x[0]]);
    if |x| == 1 {
      assert x == [x[0]];
      assert Feed(o, Step(o, s, x[0]), x[1..]) == Step(o, s, x[0]);
    } else {
      FeedBody(o, s1, x[1..]);
      assert s.body + [x[0]] + x[1..] == s.body + x;
    }
  }

  // ----- what the stream of frames says -----

  /** A message and the acknowledgement stamped on it. */
  datatype Sent = Sent(m: Message, ack: nat)

  predicate Sendable(o: Options, e: Sent) {
    e.m.Ok() && e.ack < TWO_32 && (e.m.crypt ==> o.key.Some?)
  }

  ghost predicate AllSendable(o: Options, log: seq<Sent>) {
    forall i | 0 <= i < |log| :: Sendable(o, log[i])
  }

  ghost function Frames(o: Options, log: seq<Sent>): seq<Byte>
    requires o.Ok() && AllSendable(o, log)
  {
    if log == [] then [] else Frame(o, log[0].m, log[0].ack) + Frames(o, log[1..])
  }

  /** The receiver's view without bytes: the messages one after another, up to an error. */
  function ReceiveAll(o: Options, s: Up, log: seq<Sent>): Up
    requires o.Ok()
    decreases |log|
  {
    if log == [] || s.Failed? then s
    else
      var r := Receive(o, s.recvSerial, log[0].m, log[0].ack);
      ReceiveAll(o, if r.error then Failed(s.tasks)
        else Reading([], [], r.recvSerial, s.tasks + TaskList(r.task)), log[1..])
  }

  lemma OneFrame(o: Options, s: Up, e: Sent)
    requires o.Ok() && Sendable(o, e) && s.Reading? && s.head == [] && s.body == []
    ensures var r := Receive(o, s.recvSerial, e.m, e.ack);
            Feed(o, s, Frame(o, e.m, e.ack)) ==
            if r.error then Failed(s.tasks) else Reading([], [], r.recvSerial, s.tasks + TaskList(r.task))
  {
    hide Feed, Decode, Receive, Frame, SizeOf;
    DecodeFrame(o, e.m, e.ack, s.recvSerial);
    var f := Frame(o, e.m, e.ack);
    var h, p := f[..HEAD_SIZE], f[HEAD_SIZE..];
    assert f == h + p;
    Rechunk(o, s, h, p);
    FeedHead(o, s, h);
    assert s.head + h == h && s.body + p == p;
    if p == [] {
      assert s.(head := h).body == p;
      FeedNothing(o, AfterHead(o, s.(head := h)));
    } else {
      FeedBody(o, s.(head := h), p);
    }
  }

  lemma FeedNothing(o: Options, s: Up)
    requires o.Ok()
    ensures Feed(o, s, []) == s
  {
  }

  /** The round trip: the bytes of any log of messages, however cut, give the receiver
      exactly what the messages say. */
  lemma {:induction false} RoundTrip(o: Options, s: Up, log: seq<Sent>)
    requires o.Ok() && AllSendable(o, log)
    requires s.Failed? || (s.head == [] && s.body == [])
    ensures Feed(o, s, Frames(o, log)) == ReceiveAll(o, s, log)
    decreases |log|
  {
    hide Feed, Receive, Frame;
    if log == [] {
      FeedNothing(o, s);
    } else if s.Failed? {
      FailureIsFinal(o, s, Frames(o, log));
    } else {
      OneFrame(o, s, log[0]);
      Rechunk(o, s, Frame(o, log[0].m, log[0].ack), Frames(o, log[1..]));
      RoundTrip(o, Feed(o, s, Frame(o, log[0].m, log[0].ack)), log[1..]);
    }
  }

  function Flatten(chunks: seq<seq<Byte>>): seq<Byte> {
    if chunks == [] then [] else chunks[0] + Flatten(chunks[1..])
  }

  /** One upflow call after another. */
  function FeedChunks(o: Options, s: Up, chunks: seq<seq<Byte>>): Up
    requires o.Ok()
    decreases |chunks|
  {
    if chunks == [] then s else FeedChunks(o, Feed(o, s, chunks[0]), chunks[1..])
  }

  lemma {:induction false} ChunksDoNotMatter(o: Options, s: Up, chunks: seq<seq<Byte>>)
    requires o.Ok()
    ensures FeedChunks(o, s, chunks) == Feed(o, s, Flatten(chunks))
    decreases |chunks|
  {
    hide Feed;
    if chunks == [] {
      FeedNothing(o, s);
    } else {
      ChunksDoNotMatter(o, Feed(o, s, chunks[0]), chunks[1..]);
      Rechunk(o, s, chunks[0], Flatten(chunks[1..]));
    }
  }

  /** What the worker gets from a log of ordinary messages. */
  function Deliveries(o: Options, log: seq<Sent>): seq<Task> {
    if log == [] then []
    else
      [Deliver(log[0].m.kind, log[0].m.tag, if o.serials then log[0].ack else 0, log[0].m.body)]
      + Deliveries(o, log[1..])
  }

  /** Ordinary messages of types with a handler, numbered without a gap from the serial expected. */
  ghost predicate InSequence(o: Options, recvSerial: nat, log: seq<Sent>) {
    forall i | 0 <= i < |log| ::
      && log[i].m.kind >= 0 && (log[i].m.kind in o.known || o.bypass)
      && (o.serials ==> log[i].m.serial == recvSerial + 1 + i < TWO_32)
  }

  lemma {:induction false} AllDelivered(o: Options, recvSerial: nat, tasks: seq<Task>, log: seq<Sent>)
    requires o.Ok() && InSequence(o, recvSerial, log)
    ensures ReceiveAll(o, Reading([], [], recvSerial, tasks), log) ==
            Reading([], [], if o.serials then recvSerial + |log| else recvSerial, tasks + Deliveries(o, log))
    decreases |log|
  {
    if log == [] {
      assert tasks + [] == tasks;
    } else {
      var next := if o.serials then recvSerial + 1 else recvSerial;
      var task := Deliver(log[0].m.kind, log[0].m.tag, if o.serials then log[0].ack else 0, log[0].m.body);
      assert Receive(o, recvSerial, log[0].m, log[0].ack) == Outcome(next, Some(task), false);
      hide Receive;
      AllDelivered(o, next, tasks + [task], log[1..]);
      assert tasks + [task] + Deliveries(o, log[1..]) == tasks + Deliveries(o, log);
    }
  }

  /** End to end: the frames of a log, cut into any chunks, reach the worker as the
      messages that were sent, in order and complete. */
  lemma StreamIsDelivered(o: Options, recvSerial: nat, tasks: seq<Task>, log: seq<Sent>, chunks: seq<seq<Byte>>)
    requires o.Ok() && AllSendable(o, log) && InSequence(o, recvSerial, log)
    requires Flatten(chunks) == Frames(o, log)
    ensures FeedChunks(o, Reading([], [], recvSerial, tasks), chunks) ==
            Reading([], [], if o.serials then recvSerial + |log| else recvSerial, tasks + Deliveries(o, log))
  {
    hide Feed, FeedChunks, ReceiveAll, Frames, Flatten, Deliveries, InSequence;
    var s := Reading([], [], recvSerial, tasks);
    ChunksDoNotMatter(o, s, chunks);
    RoundTrip(o, s, log);
    AllDelivered(o, recvSerial, tasks, log);
  }

  // ----- buffers -----

  function Blit(a: seq<Byte>, at: nat, x: seq<Byte>): (r: seq<Byte>)
    requires at + |x| <= |a|
    ensures |r| == |a|
  {
    a[..at] + x + a[at + |x|..]
  }

  /** memcpy */
  method Copy(dst: array<Byte>, at: nat, src: array<Byte>, start: nat, n: nat)
    requires dst != src && at + n <= dst.Length && start + n <= src.Length
    modifies dst
    ensures dst[..] == Blit(old(dst[..]), at, src[start..start + n])
  {
    forall i | 0 <= i < n {
      dst[at + i] := src[start + i];
    }
  }

  /** SimpleXORCrypter::encrypt, in place. */
  method Encrypt(key: seq<Byte>, a: array<Byte>, start: nat, size: nat)
    requires key != [] && start + size <= a.Length
    modifies a
    ensures a[..] == Blit(old(a[..]), start, Cipher(key, old(a[start..start + size])))
    ensures forall k | 0 <= k < size :: a[start + k] == old(a[start + k]) ^ key[k % |key|]
    ensures forall k | 0 <= k < a.Length && !(start <= k < start + size) :: a[k] == old(a[k])
  {
    for i := 0 to size
      invariant forall k | 0 <= k < a.Length && !(start <= k < start + i) :: a[k] == old(a[k])
      invariant forall k | 0 <= k < i :: a[start + k] == old(a[start + k]) ^ key[k % |key|]
    {
      a[start + i] := a[start + i] ^ key[i % |key|];
    }
    ghost var c := Cipher(key, old(a[start..start + size]));
    assert forall k | 0 <= k < size :: c[k] == old(a[start + k]) ^ key[k % |key|];
  }

  // ----- upflow -----

  class TcpPipeline {
    const o: Options
    var headBuf: array<Byte>
    var bodyBuf: array<Byte>
    var headNum: nat
    var bodyNum: nat
    var bodySize: nat
    /** recvSerial_ of the connection. */
    var recvSerial: nat
    /** What went to the worker. */
    var tasks: seq<Task>

    ghost predicate Shape()
      reads this, headBuf, bodyBuf
    {
      && o.Ok() && headBuf != bodyBuf && headBuf.Length == HEAD_SIZE && bodyBuf.Length == MAX_MESSAGE_SIZE
      && headNum <= HEAD_SIZE && bodyNum <= bodySize <= MAX_MESSAGE_SIZE
    }

    /** Between calls: in the head with no body yet, or in a body with its size read. */
    ghost predicate Valid()
      reads this, headBuf, bodyBuf
    {
      && Shape()
      && (headNum < HEAD_SIZE ==> bodySize == 0)
      && (headNum == HEAD_SIZE ==> bodySize == SizeOf(headBuf[..]) && bodyNum < bodySize)
    }

    ghost function Abs(): Up
      reads this, headBuf, bodyBuf
      requires Shape()
    {
      Reading(headBuf[..headNum], bodyBuf[..bodyNum], recvSerial, tasks)
    }

    constructor (o: Options)
      requires o.Ok()
      ensures Valid() && this.o == o && Abs() == Reading([], [], 0, [])
      ensures fresh(headBuf) && fresh(bodyBuf)
    {
      this.o := o;
      headBuf, bodyBuf := new Byte[HEAD_SIZE], new Byte[MAX_MESSAGE_SIZE];
      headNum, bodyNum, bodySize, recvSerial, tasks := 0, 0, 0, 0, [];
    }

    method TakeHead(buf: array<Byte>, offset: nat, size: nat) returns (offset': nat)
      requires Shape() && headNum < HEAD_SIZE && offset < size <= buf.Length && buf != headBuf
      modifies this`headNum, headBuf
      ensures Shape() && offset < offset' <= size && (headNum < HEAD_SIZE ==> offset' == size)
      ensures headBuf[..headNum] == old(headBuf[..headNum]) + buf[offset..offset']
    {
      var needNum := HEAD_SIZE - headNum;
      if size - offset >= needNum {
        Copy(headBuf, headNum, buf, offset, needNum);
        headNum, offset' := HEAD_SIZE, offset + needNum;
      } else {
        Copy(headBuf, headNum, buf, offset, size - offset);
        headNum, offset' := headNum + (size - offset), size;
      }
    }

    method TakeBody(buf: array<Byte>, offset: nat, size: nat) returns (offset': nat)
      requires Shape() && bodyNum < bodySize && offset <= size <= buf.Length && buf != bodyBuf
      modifies this`bodyNum, bodyBuf
      ensures Shape() && offset <= offset' <= size && (bodyNum < bodySize ==> offset' == size)
      ensures bodyBuf[..bodyNum] == old(bodyBuf[..bodyNum]) + buf[offset..offset']
    {
      var needNum := bodySize - bodyNum;
      if size - offset >= needNum {
        Copy(bodyBuf, bodyNum, buf, offset, needNum);
        bodyNum, offset' := bodySize, offset + needNum;
      } else {
        Copy(bodyBuf, bodyNum, buf, offset, size - offset);
        bodyNum, offset' := bodyNum + (size - offset), size;
      }
    }

    /** MessageTerminal::decode, on the pipeline's buffers. */
    method DecodeFun(size: nat) returns (task: Option<Task>, error: bool)
      requires Shape() && size <= bodyBuf.Length
      modifies this`recvSerial, bodyBuf
      ensures Decode(o, old(recvSerial), headBuf[..], old(bodyBuf[..size])) == Outcome(recvSerial, task, error)
    {
      hide Get32, Get16, GetCrc, Crc.BitSerial, Cipher;
      task, error := None, false;
      var msgType := Signed(Get32(headBuf[4..8]));
      var tag := Get16(headBuf[8..10]);
      var flag := Get16(headBuf[10..12]);
      var reqSerial := 0;
      ghost var h := headBuf[..];
      assert h[4..8] == headBuf[4..8] && h[8..10] == headBuf[8..10] && h[10..12] == headBuf[10..12];
      assert h[12..16] == headBuf[12..16] && h[16..20] == headBuf[16..20] && h[20..22] == headBuf[20..22];
      if msgType < 0 {
        if msgType == TYPE_HEARTBEAT {
          if o.serials {
            reqSerial := Get32(headBuf[12..16]);
            task := Some(Heartbeat(reqSerial));
          }
        } else if msgType == TYPE_JUMP_SERIAL {
          var serial := Get32(headBuf[16..20]);
          if serial <= recvSerial {
            error := true;
          } else {
            recvSerial := serial;
          }
        }
        return;
      }
      if o.serials {
        recvSerial := Next(recvSerial);
        var serial := Get32(headBuf[16..20]);
        if recvSerial != serial {
          error := true;
          return;
        }
        reqSerial := Get32(headBuf[12..16]);
      }
      if o.crc {
        var crc := GetCrc(headBuf[20..22]);
        var crc1 := Crc.CheckSum(bodyBuf, 0, 0xFFFF, size);
        assert bodyBuf[0..0 + size] == bodyBuf[..size];
        if crc != crc1 {
          error := true;
          return;
        }
      }
      if flag % 2 != 0 {
        if o.key.None? {
          error := true;
          return;
        }
        assert bodyBuf[0..0 + size] == bodyBuf[..size];
        Encrypt(o.key.value, bodyBuf, 0, size);
        assert bodyBuf[..size] == Cipher(o.key.value, old(bodyBuf[..size]));
      }
      if msgType in o.known || o.bypass {
        task := Some(Deliver(msgType, tag, reqSerial, bodyBuf[..size]));
      } else {
        error := true;
      }
    }

    /** A head that is complete, with the size of its body read. */
    ghost predicate HeadDone()
      reads this, headBuf, bodyBuf
    {
      Shape() && headNum == HEAD_SIZE && bodySize == SizeOf(headBuf[..])
    }

    method HeadRound(buf: array<Byte>, offset: nat, size: nat) returns (offset': nat, ok: bool)
      requires Valid() && headNum < HEAD_SIZE && offset < size <= buf.Length && buf != headBuf && buf != bodyBuf
      modifies this`headNum, this`bodySize, headBuf
      ensures offset < offset' <= size && headNum <= HEAD_SIZE
      ensures !ok ==> Failed(tasks) == Feed(o, old(Abs()), buf[offset..offset'])
      ensures ok && headNum < HEAD_SIZE ==>
                offset' == size && Valid() && Abs() == Feed(o, old(Abs()), buf[offset..offset'])
      ensures ok && headNum == HEAD_SIZE ==>
                && HeadDone() && bodyNum == 0
                && Feed(o, old(Abs()), buf[offset..offset']) == if bodySize == 0 then Dispatch(o, Abs()) else Abs()
    {
      hide Feed, Dispatch, SizeOf;
      ghost var s := Abs();
      ok := true;
      offset' := TakeHead(buf, offset, size);
      assert Abs() == s.(head := s.head + buf[offset..offset']);
      FeedHead(o, s, buf[offset..offset']);
      if headNum == HEAD_SIZE {
        assert headBuf[..headNum] == headBuf[..];
        bodySize := SizeOf(headBuf[..]);
        ok := bodySize <= MAX_MESSAGE_SIZE;
      }
    }

    method BodyRound(buf: array<Byte>, offset: nat, size: nat) returns (offset': nat)
      requires HeadDone() && bodyNum < bodySize && offset <= size <= buf.Length && buf != headBuf && buf != bodyBuf
      modifies this`bodyNum, bodyBuf
      ensures offset <= offset' <= size && HeadDone() && (offset < size ==> offset < offset')
      ensures bodyNum < bodySize ==> offset' == size && Abs() == Feed(o, old(Abs()), buf[offset..offset'])
      ensures bodyNum == bodySize ==> Dispatch(o, Abs()) == Feed(o, old(Abs()), buf[offset..offset'])
    {
      hide Feed, Dispatch, SizeOf;
      ghost var s := Abs();
      assert s.head == headBuf[..];
      offset' := TakeBody(buf, offset, size);
      assert Abs() == s.(body := s.body + buf[offset..offset']);
      if offset < offset' {
        FeedBody(o, s, buf[offset..offset']);
      } else {
        FeedNothing(o, s);
      }
    }

    /** decodeFun_, addTask and the reset. */
    method Complete() returns (ok: bool)
      requires HeadDone() && bodyNum == bodySize
      modifies this`recvSerial, this`tasks, this`headNum, this`bodyNum, this`bodySize, bodyBuf
      ensures ok ==> Valid() && Abs() == Dispatch(o, old(Abs()))
      ensures !ok ==> Failed(tasks) == Dispatch(o, old(Abs()))
    {
      hide Decode, SizeOf;
      assert Abs().head == headBuf[..];
      var task, error := DecodeFun(bodySize);
      if error {
        return false;
      }
      if task.Some? {
        tasks := tasks + [task.value];
      }
      headNum, bodyNum, bodySize := 0, 0, 0;
      return true;
    }

    /** One turn of the loop in upflow. */
    method Round(buf: array<Byte>, offset: nat, size: nat) returns (offset': nat, ok: bool)
      requires Valid() && offset < size <= buf.Length && buf != headBuf && buf != bodyBuf
      modifies this`recvSerial, this`tasks, this`headNum, this`bodyNum, this`bodySize, headBuf, bodyBuf
      ensures offset < offset' <= size
      ensures ok ==> Valid() && Abs() == Feed(o, old(Abs()), buf[offset..offset'])
      ensures !ok ==> Failed(tasks) == Feed(o, old(Abs()), buf[offset..offset'])
    {
      hide Feed, Dispatch, SizeOf;
      ghost var s := Abs();
      offset', ok := offset, true;
      if headNum < HEAD_SIZE {
        offset', ok := HeadRound(buf, offset, size);
        if !ok || headNum < HEAD_SIZE {
          return;
        }
      } else {
        FeedNothing(o, s);
      }
      var mid := offset';
      Resumed(o, s, buf[..], offset, mid, mid);
      if bodyNum < bodySize {
        offset' := BodyRound(buf, mid, size);
        Resumed(o, s, buf[..], offset, mid, offset');
        if bodyNum < bodySize {
          return;
        }
      }
      ok := Complete();
    }

    /** TcpPipeline::upflow: one chunk of the stream, taken at once, is its bytes taken one by one. */
    method Upflow(buf: array<Byte>, size: nat) returns (ok: bool)
      requires Valid() && size <= buf.Length && buf != headBuf && buf != bodyBuf
      modifies this`recvSerial, this`tasks, this`headNum, this`bodyNum, this`bodySize, headBuf, bodyBuf
      ensures ok ==> Valid() && Abs() == Feed(o, old(Abs()), buf[..size])
      ensures !ok ==> Failed(tasks) == Feed(o, old(Abs()), buf[..size])
    {
      hide Feed, SizeOf;
      ghost var s := Abs();
      var offset := 0;
      ok := true;
      FeedNothing(o, s);
      assert buf[0..0] == [];
      while offset < size
        invariant offset <= size && Valid()
        invariant Feed(o, s, buf[0..offset]) == Abs()
      {
        var start := offset;
        offset, ok := Round(buf, offset, size);
        Resumed(o, s, buf[..], 0, start, offset);
        if !ok {
          Resumed(o, s, buf[..], 0, offset, size);
          FailureIsFinal(o, Failed(tasks), buf[offset..size]);
          assert buf[0..size] == buf[..size];
          return;
        }
      }
      assert buf[0..offset] == buf[..size];
    }
  }

  lemma Resumed(o: Options, s: Up, buf: seq<Byte>, h: nat, i: nat, j: nat)
    requires o.Ok() && h <= i <= j <= |buf|
    ensures Feed(o, s, buf[h..j]) == Feed(o, Feed(o, s, buf[h..i]), buf[i..j])
  {
    Rechunk(o, s, buf[h..i], buf[i..j]);
    assert buf[h..i] + buf[i..j] == buf[h..j];
  }

  // ----- downflow -----

  /** memcpy from bytes that are not in a buffer. */
  method Put(dst: array<Byte>, at: nat, x: seq<Byte>)
    requires at + |x| <= dst.Length
    modifies dst
    ensures dst[..] == Blit(old(dst[..]), at, x)
  {
    forall i | 0 <= i < |x| {
      dst[at + i] := x[i];
    }
  }

  lemma BlitNext(a: seq<Byte>, at: nat, x: seq<Byte>, y: seq<Byte>)
    requires at + |x| + |y| <= |a|
    ensures Blit(Blit(a, at, x), at + |x|, y) == Blit(a, at, x + y)
    ensures Blit(Blit(a, at + |x|, y), at, x) == Blit(a, at, x + y)
  {
  }

  /** The fields of the head, one after another. */
  method PutHeader(dst: array<Byte>, at: nat, m: Message, size: nat, ack: nat, crc: bv16)
    requires m.Ok() && at + HEAD_SIZE <= dst.Length
    modifies dst
    ensures dst[..] == Blit(old(dst[..]), at, Header(m, size, ack, crc))
  {
    hide Put32, Put16, PutCrc, Blit;
    ghost var a := dst[..];
    Put(dst, at, Put32(size));
    Put(dst, at + 4, Put32(Unsigned(m.kind)));
    ghost var x := Put32(size) + Put32(Unsigned(m.kind));
    BlitNext(a, at, Put32(size), Put32(Unsigned(m.kind)));
    Put(dst, at + 8, Put16(m.tag));
    BlitNext(a, at, x, Put16(m.tag));
    x := x + Put16(m.tag);
    var flag := if m.crypt then FLAG_CRYPT else 0;
    Put(dst, at + 10, Put16(flag));
    BlitNext(a, at, x, Put16(flag));
    x := x + Put16(flag);
    Put(dst, at + 12, Put32(ack));
    BlitNext(a, at, x, Put32(ack));
    x := x + Put32(ack);
    Put(dst, at + 16, Put32(m.serial));
    BlitNext(a, at, x, Put32(m.serial));
    x := x + Put32(m.serial);
    Put(dst, at + 20, PutCrc(crc));
    BlitNext(a, at, x, PutCrc(crc));
  }

  lemma BlitNothing(a: seq<Byte>, at: nat, x: seq<Byte>)
    requires at <= |a| && x == []
    ensures Blit(a, at, x) == a
  {
  }

  lemma BlitTwice(a: seq<Byte>, at: nat, x: seq<Byte>, y: seq<Byte>)
    requires at + |x| <= |a| && |x| == |y|
    ensures Blit(a, at, x)[at..at + |x|] == x
    ensures Blit(Blit(a, at, x), at, y) == Blit(a, at, y)
  {
  }

  /** The body as it is sent, and its checksum. */
  method PutPayload(o: Options, m: Message, buf: array<Byte>, at: nat) returns (crc: bv16)
    requires o.Ok() && m.Ok() && (m.crypt ==> o.key.Some?) && at + |m.body| <= buf.Length
    modifies buf
    ensures buf[..] == Blit(old(buf[..]), at, Payload(o, m)) && crc == CrcOf(o, Payload(o, m))
  {
    hide Cipher, Crc.BitSerial, Blit;
    ghost var a := buf[..];
    var n := |m.body|;
    Put(buf, at, m.body);
    BlitTwice(a, at, m.body, Payload(o, m));
    BlitTwice(a, at, Payload(o, m), m.body);
    assert buf[at..at + n] == buf[..][at..at + n];
    if m.crypt {
      Encrypt(o.key.value, buf, at, n);
    }
    assert buf[at..at + n] == buf[..][at..at + n];
    crc := 0;
    if o.crc {
      crc := Crc.CheckSum(buf, at, 0xFFFF, n);
    }
  }

  method SpilledPayload(o: Options, m: Message) returns (dbuf: array<Byte>, crc: bv16)
    requires o.Ok() && m.Ok() && (m.crypt ==> o.key.Some?)
    ensures fresh(dbuf) && dbuf[..] == Payload(o, m) && crc == CrcOf(o, Payload(o, m))
  {
    dbuf := new Byte[|m.body|];
    crc := PutPayload(o, m, dbuf, 0);
  }

  /** The front of the queue has gone to the log, each message with its acknowledgement. */
  ghost predicate Moved(log0: seq<Sent>, queue0: seq<Message>, acks: seq<nat>, log: seq<Sent>, queue: seq<Message>)
    requires |queue0| <= |acks|
  {
    && |log0| <= |log| <= |log0| + |queue0| && log[..|log0|] == log0 && queue == queue0[|log| - |log0|..]
    && forall i | |log0| <= i < |log| :: log[i] == Sent(queue0[i - |log0|], acks[i - |log0|])
  }

  lemma Glue(out: seq<Byte>, buf: seq<Byte>, i: nat, n: nat)
    requires i + n <= |buf|
    ensures out + buf[..i] + buf[i..i + n] == out + buf[..i + n]
  {
  }

  lemma NoneMoved(log: seq<Sent>, queue: seq<Message>, acks: seq<nat>)
    requires |queue| <= |acks|
    ensures Moved(log, queue, acks, log, queue)
  {
  }

  lemma OneMoved(log0: seq<Sent>, queue0: seq<Message>, acks: seq<nat>, log: seq<Sent>, queue: seq<Message>)
    requires |queue0| <= |acks| && Moved(log0, queue0, acks, log, queue) && queue != []
    ensures |queue| <= |queue0|
    ensures Moved(log0, queue0, acks, log + [Sent(queue[0], acks[|queue0| - |queue|])], queue[1..])
  {
  }

  class MessagePipeline {
    const o: Options
    /** The body that did not fit, and how much of it is out. */
    var downflowBuf: seq<Byte>
    var downflowBufSentNum: nat
    /** The connection's messages that are still to be encoded. */
    var queue: seq<Message>

    /** The messages encoded so far, each with its acknowledgement, and the bytes put out. */
    ghost var log: seq<Sent>
    ghost var emitted: seq<Byte>

    ghost function Spill(): seq<Byte>
      reads this
    {
      if downflowBufSentNum <= |downflowBuf| then downflowBuf[downflowBufSentNum..] else []
    }

    /** What is out, followed by what did not fit, is the frames of the log. */
    ghost predicate Valid()
      reads this
    {
      && o.Ok() && (downflowBuf != [] ==> downflowBufSentNum < |downflowBuf|)
      && (downflowBuf == [] ==> downflowBufSentNum == 0)
      && (forall i | 0 <= i < |queue| :: queue[i].Ok())
      && AllSendable(o, log)
      && emitted + Spill() == Frames(o, log)
    }

    constructor (o: Options)
      requires o.Ok()
      ensures Valid() && this.o == o && queue == [] && log == [] && emitted == []
    {
      this.o := o;
      downflowBuf, downflowBufSentNum, queue := [], 0, [];
      log, emitted := [], [];
    }

    /** Connection::send puts a message in the queue. */
    method Send(m: Message)
      requires Valid() && m.Ok()
      modifies this`queue
      ensures Valid() && queue == old(queue) + [m]
    {
      queue := queue + [m];
    }

    /** MessageTerminal::encode: as much of the frame as there is room for, the rest of the
        body to downflowBuf; nothing if the head does not fit. */
    method Encode(m: Message, ack: nat, buf: array<Byte>, at: nat, space: nat) returns (ok: bool, size: nat)
      requires o.Ok() && m.Ok() && at + space <= buf.Length
      modifies this`downflowBuf, this`downflowBufSentNum, buf
      ensures !ok <==> HEAD_SIZE <= space && m.crypt && o.key.None?
      ensures !ok || space < HEAD_SIZE ==> size == 0
      ensures ok && HEAD_SIZE <= space ==> 0 < size <= space && (size == space || size == |Frame(o, m, ack)|)
      ensures size <= |Frame(o, m, ack)| && at + size <= buf.Length
      ensures buf[..] == Blit(old(buf[..]), at, Frame(o, m, ack)[..size])
      ensures size == 0 || size == |Frame(o, m, ack)| ==>
                downflowBuf == old(downflowBuf) && downflowBufSentNum == old(downflowBufSentNum)
      ensures 0 < size < |Frame(o, m, ack)| ==>
                && downflowBufSentNum < |downflowBuf|
                && downflowBuf[downflowBufSentNum..] == Frame(o, m, ack)[size..]
    {
      hide Header, Cipher, Crc.BitSerial, Blit;
      size := 0;
      ghost var frame := Frame(o, m, ack);
      BlitNothing(buf[..], at, frame[..0]);
      if HEAD_SIZE > space {
        return true, 0;
      }
      if m.crypt && o.key.None? {
        return false, 0;
      }
      ghost var a := buf[..];
      var crc: bv16;
      var msgSize := |m.body|;
      var spaceleft := space - HEAD_SIZE;
      ghost var p := Payload(o, m);
      if spaceleft >= msgSize {
        crc := PutPayload(o, m, buf, at + HEAD_SIZE);
        size := HEAD_SIZE + msgSize;
        PutHeader(buf, at, m, msgSize, ack, crc);
        BlitNext(a, at, Header(m, msgSize, ack, crc), p);
        assert frame[..size] == frame;
      } else {
        var dbuf, crc1 := SpilledPayload(o, m);
        crc := crc1;
        assert dbuf[..] == p;
        Copy(buf, at + HEAD_SIZE, dbuf, 0, spaceleft);
        downflowBuf, downflowBufSentNum := dbuf[..], spaceleft;
        size := space;
        PutHeader(buf, at, m, msgSize, ack, crc);
        BlitNext(a, at, Header(m, msgSize, ack, crc), p[..spaceleft]);
        assert dbuf[0..0 + spaceleft] == p[..spaceleft];
        assert frame[..size] == Header(m, msgSize, ack, crc) + p[..spaceleft];
        assert frame[size..] == p[spaceleft..];
      }
      return true, size;
    }

    /** The first part of downflow: what is left of the last body goes first. */
    method Flush(buf: array<Byte>, space: nat) returns (size: nat)
      requires Valid() && space <= buf.Length
      modifies this`downflowBuf, this`downflowBufSentNum, this`emitted, buf
      ensures Valid() && size <= space && (Spill() != [] ==> size == space)
      ensures emitted == old(emitted) + buf[..size]
    {
      hide Frames, AllSendable;
      size := 0;
      ghost var spill := Spill();
      var dlen := |downflowBuf|;
      if dlen > 0 {
        if space >= dlen - downflowBufSentNum {
          size := dlen - downflowBufSentNum;
          Put(buf, 0, downflowBuf[downflowBufSentNum..]);
          downflowBuf, downflowBufSentNum := [], 0;
        } else {
          size := space;
          Put(buf, 0, downflowBuf[downflowBufSentNum..downflowBufSentNum + space]);
          downflowBufSentNum := downflowBufSentNum + space;
        }
      }
      assert buf[..size] == spill[..size] && Spill() == spill[size..];
      assert emitted + spill == emitted + buf[..size] + Spill();
      emitted := emitted + buf[..size];
    }

    /** The front message has been encoded: it is in the log, and the queue is one shorter. */
    ghost method Record(m: Message, ack: nat, out: seq<Byte>)
      requires o.Ok() && AllSendable(o, log) && Sendable(o, Sent(m, ack))
      requires emitted == Frames(o, log) && out + Spill() == Frame(o, m, ack)
      modifies this`log, this`emitted
      ensures log == old(log) + [Sent(m, ack)] && emitted == old(emitted) + out
      ensures AllSendable(o, log) && emitted + Spill() == Frames(o, log)
    {
      hide Frame;
      FramesAppend(o, log, Sent(m, ack));
      assert emitted + out + Spill() == emitted + (out + Spill());
      log, emitted := log + [Sent(m, ack)], emitted + out;
    }

    /** One turn of the loop in downflow. */
    method EncodeFront(buf: array<Byte>, size: nat, space: nat, ack: nat) returns (encoded: bool, tmp: nat)
      requires Valid() && queue != [] && size <= space <= buf.Length && ack < TWO_32
      requires Spill() != [] ==> size == space
      modifies this`queue, this`log, this`emitted, this`downflowBuf, this`downflowBufSentNum, buf
      ensures Valid() && size + tmp <= space && buf[..size] == old(buf[..size])
      ensures Spill() != [] ==> size + tmp == space
      ensures tmp == 0 ==> queue == old(queue) && log == old(log) && emitted == old(emitted)
      ensures tmp > 0 ==>
                && queue == old(queue)[1..] && log == old(log) + [Sent(old(queue)[0], ack)]
                && emitted == old(emitted) + buf[size..size + tmp]
      ensures encoded && tmp == 0 ==> space - size < HEAD_SIZE
      ensures !encoded ==> tmp == 0 && queue[0].crypt && o.key.None?
    {
      hide Frames, Frame, AllSendable;
      var m := queue[0];
      ghost var view := buf[..];
      encoded, tmp := Encode(m, ack, buf, size, space - size);
      assert buf[..size] == view[..size] && buf[size..size + tmp] == Frame(o, m, ack)[..tmp];
      if tmp > 0 {
        assert Frame(o, m, ack)[..tmp] + Frame(o, m, ack)[tmp..] == Frame(o, m, ack);
        Record(m, ack, buf[size..size + tmp]);
        queue := queue[1..];
      }
    }

    /** MessagePipeline::downflow. acks are the values of recvSerial_ that the encoder meets. */
    method Downflow(buf: array<Byte>, space: nat, acks: seq<nat>) returns (ok: bool, size: nat)
      requires Valid() && space <= buf.Length
      requires |queue| <= |acks| && forall i | 0 <= i < |acks| :: acks[i] < TWO_32
      modifies this, buf
      ensures Valid() && size <= space && emitted == old(emitted) + buf[..size]
      ensures Moved(old(log), old(queue), acks, log, queue)
      ensures Spill() != [] ==> size == space
      ensures ok ==> queue == [] || space - size < HEAD_SIZE
      ensures !ok ==> queue != [] && queue[0].crypt && o.key.None?
    {
      hide Valid, Spill, Moved;
      NoneMoved(log, queue, acks);
      size := Flush(buf, space);
      if space == size {
        return true, size;
      }
      var k := 0;
      while queue != []
        invariant Valid() && size <= space && emitted == old(emitted) + buf[..size]
        invariant Moved(old(log), old(queue), acks, log, queue) && k == |old(queue)| - |queue|
        invariant Spill() != [] ==> size == space
        decreases |queue|
      {
        OneMoved(old(log), old(queue), acks, log, queue);
        var encoded, tmp := EncodeFront(buf, size, space, acks[k]);
        if !encoded {
          return false, size;
        }
        if tmp == 0 {
          return true, size;
        }
        Glue(old(emitted), buf[..], size, tmp);
        size := size + tmp;
        k := k + 1;
      }
      return true, size;
    }
  }

  lemma {:induction false} FramesAppend(o: Options, log: seq<Sent>, e: Sent)
    requires o.Ok() && AllSendable(o, log) && Sendable(o, e)
    ensures AllSendable(o, log + [e]) && Frames(o, log + [e]) == Frames(o, log) + Frame(o, e.m, e.ack)
    decreases |log|
  {
    hide Frame, Sendable;
    if log == [] {
      assert log + [e] == [e] && [e][1..] == [];
      assert Frames(o, [e][1..]) == [];
    } else {
      assert (log + [e])[1..] == log[1..] + [e];
      FramesAppend(o, log[1..], e);
    }
  }
}
