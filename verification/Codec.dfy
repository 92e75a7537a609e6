/** What a message looks like on the wire, and what the receiver makes of it. */
module Codec {

  import opened Common
  import Crc

  type Byte = bv8

  const HEAD_SIZE: nat := 22
  const MAX_MESSAGE_SIZE: nat := 0x10000
  const FLAG_CRYPT: nat := 1
  const TYPE_HEARTBEAT: int := -115
  const TYPE_JUMP_SERIAL: int := -116
  const TWO_32: nat := 0x1_0000_0000

  /** SendMessageInfo, its body serialized. */
  datatype Message = Message(kind: int, tag: nat, serial: nat, crypt: bool, body: seq<Byte>) {
    predicate Ok() {
      -0x8000_0000 <= kind < 0x8000_0000 && tag < 0x1_0000 && serial < TWO_32 && |body| <= MAX_MESSAGE_SIZE
    }
  }

  /** The settings of a terminal and the key of the connection's crypter. known are the
      registered message types; bypass says that there is a handler for all others. */
  datatype Options = Options(serials: bool, crc: bool, key: Option<seq<Byte>>, known: set<int>, bypass: bool) {
    predicate Ok() {
      key.Some? ==> key.value != []
    }
  }

  /** What decode hands to the worker. */
  datatype Task = Heartbeat(reqSerial: nat) | Deliver(kind: int, tag: nat, reqSerial: nat, body: seq<Byte>)

  /** The outcome of a decode: recvSerial_ afterwards, the task if any, and the error flag. */
  datatype Outcome = Outcome(recvSerial: nat, task: Option<Task>, error: bool)

  // ----- big-endian fields -----

  function Nibble(k: nat): Byte {
    if k == 0 then 0 else if k == 1 then 1 else if k == 2 then 2 else if k == 3 then 3
    else if k == 4 then 4 else if k == 5 then 5 else if k == 6 then 6 else if k == 7 then 7
    else if k == 8 then 8 else if k == 9 then 9 else if k == 10 then 10 else if k == 11 then 11
    else if k == 12 then 12 else if k == 13 then 13 else if k == 14 then 14 else 15
  }

  function NibbleValue(b: Byte): nat {
    if b == 0 then 0 else if b == 1 then 1 else if b == 2 then 2 else if b == 3 then 3
    else if b == 4 then 4 else if b == 5 then 5 else if b == 6 then 6 else if b == 7 then 7
    else if b == 8 then 8 else if b == 9 then 9 else if b == 10 then 10 else if b == 11 then 11
    else if b == 12 then 12 else if b == 13 then 13 else if b == 14 then 14 else 15
  }

  /** The byte n % 256. */
  function Digit(n: nat): Byte {
    (Nibble(n / 0x10 % 0x10) << 4) | Nibble(n % 0x10)
  }

  function Value(b: Byte): (n: nat)
    ensures n < 0x100
  {
    NibbleValue(b >> 4) * 0x10 + NibbleValue(b & 0xF)
  }

  lemma DigitValue(n: nat)
    ensures Value(Digit(n)) == n % 0x100
  {
    hide Nibble, NibbleValue;
    var high, low := n / 0x10 % 0x10, n % 0x10;
    NibbleBack(high);
    NibbleBack(low);
    Halves(Nibble(high), Nibble(low));
    TwoDigits(n);
  }

  lemma TwoDigits(n: nat)
    ensures n / 0x10 % 0x10 * 0x10 + n % 0x10 == n % 0x100
  {
  }

  lemma NibbleBack(k: nat)
    requires k < 0x10
    ensures NibbleValue(Nibble(k)) == k && Nibble(k) < 0x10
  {
  }

  lemma Halves(a: Byte, b: Byte)
    requires a < 0x10 && b < 0x10
    ensures ((a << 4) | b) >> 4 == a && ((a << 4) | b) & 0xF == b
  {
  }

  /** The value of a byte is its number: 0 has 0, and the next byte has the next. */
  lemma ValueCounts(b: Byte)
    ensures Value(0) == 0 && (b < 0xFF ==> Value(b + 1) == Value(b) + 1)
  {
    if b < 0xFF {
      NextHalves(b);
      NibbleCounts(b & 0xF);
      NibbleCounts(b >> 4);
      hide NibbleValue;
      assert NibbleValue(0xF) == 15 && NibbleValue(0) == 0 by { NibbleEnds(); }
    }
    NibbleEnds();
    assert (0 as Byte) >> 4 == 0 && (0 as Byte) & 0xF == 0;
  }

  lemma NextHalves(b: Byte)
    requires b < 0xFF
    ensures if b & 0xF == 0xF then (b + 1) & 0xF == 0 && (b + 1) >> 4 == (b >> 4) + 1 && b >> 4 < 0xF
            else (b + 1) & 0xF == (b & 0xF) + 1 && (b + 1) >> 4 == b >> 4 && b & 0xF < 0xF
  {
  }

  lemma NibbleCounts(b: Byte)
    ensures b < 0xF ==> NibbleValue(b + 1) == NibbleValue(b) + 1
  {
  }

  lemma NibbleEnds()
    ensures NibbleValue(0) == 0 && NibbleValue(0xF) == 15
  {
  }

  function Put16(n: nat): (s: seq<Byte>)
    ensures |s| == 2
  {
    [Digit(n / 0x100), Digit(n)]
  }

  function Get16(s: seq<Byte>): (n: nat)
    requires |s| == 2
    ensures n < 0x1_0000
  {
    Value(s[0]) * 0x100 + Value(s[1])
  }

  lemma Back16(n: nat)
    requires n < 0x1_0000
    ensures Get16(Put16(n)) == n
  {
    hide Digit, Value;
    DigitValue(n / 0x100);
    DigitValue(n);
    assert n / 0x100 % 0x100 == n / 0x100;
  }

  function Put32(n: nat): (s: seq<Byte>)
    ensures |s| == 4
  {
    Put16(n / 0x1_0000) + Put16(n % 0x1_0000)
  }

  function Get32(s: seq<Byte>): (n: nat)
    requires |s| == 4
    ensures n < TWO_32
  {
    Get16(s[..2]) * 0x1_0000 + Get16(s[2..])
  }

  lemma Back32(n: nat)
    requires n < TWO_32
    ensures Get32(Put32(n)) == n
  {
    Back16(n / 0x1_0000);
    Back16(n % 0x1_0000);
    assert Put32(n)[..2] == Put16(n / 0x1_0000) && Put32(n)[2..] == Put16(n % 0x1_0000);
  }

  /** Network order: the first byte of a field counts most. */
  lemma FieldBytes(n: nat)
    ensures n < 0x1_0000 ==> Value(Put16(n)[0]) == n / 0x100 && Value(Put16(n)[1]) == n % 0x100
    ensures n < TWO_32 ==>
              var s := Put32(n);
              && Value(s[0]) == n / 0x100_0000 && Value(s[1]) == n / 0x1_0000 % 0x100
              && Value(s[2]) == n / 0x100 % 0x100 && Value(s[3]) == n % 0x100
  {
    PairBytes(n);
    if n < TWO_32 {
      PairBytes(n / 0x1_0000);
      PairBytes(n % 0x1_0000);
      Quotients(n);
    }
    hide Put16, Value;
  }

  lemma PairBytes(n: nat)
    ensures Value(Put16(n)[0]) == n / 0x100 % 0x100 && Value(Put16(n)[1]) == n % 0x100
    ensures n < 0x1_0000 ==> n / 0x100 % 0x100 == n / 0x100
  {
    hide Digit, Value;
    DigitValue(n / 0x100);
    DigitValue(n);
  }

  lemma Quotients(n: nat)
    requires n < TWO_32
    ensures n / 0x1_0000 / 0x100 % 0x100 == n / 0x100_0000 && n % 0x1_0000 % 0x100 == n % 0x100
    ensures n % 0x1_0000 / 0x100 % 0x100 == n / 0x100 % 0x100
  {
    var high, low := n / 0x1_0000, n % 0x1_0000;
    assert n == 0x1_0000 * high + low;
    var a, b, c, d := high / 0x100, high % 0x100, low / 0x100, low % 0x100;
    assert n == 0x100_0000 * a + 0x1_0000 * b + 0x100 * c + d;
    assert n / 0x100 == 0x1_0000 * a + 0x100 * b + c;
  }

  /** A signed 32-bit field. */
  function Unsigned(k: int): nat
    requires -0x8000_0000 <= k < 0x8000_0000
  {
    if k < 0 then k + TWO_32 else k
  }

  function Signed(n: nat): int
    requires n < TWO_32
  {
    if n < 0x8000_0000 then n else n - TWO_32
  }

  function PutCrc(c: bv16): (s: seq<Byte>)
    ensures |s| == 2
  {
    [((c >> 8) & 0xFF) as bv8, (c & 0xFF) as bv8]
  }

  function GetCrc(s: seq<Byte>): bv16
    requires |s| == 2
  {
    ((s[0] as bv16) << 8) | (s[1] as bv16)
  }

  lemma BackCrc(c: bv16)
    ensures GetCrc(PutCrc(c)) == c
  {
  }

  /** The checksum goes in network order too. */
  lemma CrcBytes(c: bv16)
    ensures PutCrc(c)[0] as bv16 == c >> 8 && PutCrc(c)[1] as bv16 == c & 0xFF
  {
  }

  // ----- the crypter -----

  /** SimpleXORCrypter. */
  function Cipher(key: seq<Byte>, s: seq<Byte>): (r: seq<Byte>)
    requires key != []
    ensures |r| == |s|
  {
    seq(|s|, i requires 0 <= i < |s| => s[i] ^ key[i % |key|])
  }

  /** decrypt is encrypt. */
  lemma CipherIsItsOwnInverse(key: seq<Byte>, s: seq<Byte>)
    requires key != []
    ensures Cipher(key, Cipher(key, s)) == s
  {
    forall i | 0 <= i < |s|
      ensures Cipher(key, Cipher(key, s))[i] == s[i]
    {
      XorTwice(s[i], key[i % |key|]);
    }
  }

  lemma XorTwice(a: Byte, k: Byte)
    ensures (a ^ k) ^ k == a
  {
  }

  // ----- frames -----

  /** The body as it is sent. */
  function Payload(o: Options, m: Message): (s: seq<Byte>)
    requires o.Ok()
    ensures |s| == |m.body|
  {
    if m.crypt && o.key.Some? then Cipher(o.key.value, m.body) else m.body
  }

  function CrcOf(o: Options, s: seq<Byte>): bv16 {
    if o.crc then Crc.BitSerial(0xFFFF, s) else 0
  }

  /** size, type, tag, flag, acknowledged serial, serial and checksum. */
  function Header(m: Message, size: nat, ack: nat, crc: bv16): (s: seq<Byte>)
    requires m.Ok()
    ensures |s| == HEAD_SIZE
  {
    Put32(size) + Put32(Unsigned(m.kind)) + Put16(m.tag) + Put16(if m.crypt then FLAG_CRYPT else 0)
    + Put32(ack) + Put32(m.serial) + PutCrc(crc)
  }

  function Frame(o: Options, m: Message, ack: nat): (s: seq<Byte>)
    requires o.Ok() && m.Ok()
    ensures |s| == HEAD_SIZE + |m.body|
  {
    Header(m, |m.body|, ack, CrcOf(o, Payload(o, m))) + Payload(o, m)
  }

  function SizeOf(head: seq<Byte>): nat
    requires |head| == HEAD_SIZE
  {
    Get32(head[0..4])
  }

  /** MessageTerminal::decode of one head and body. */
  function Decode(o: Options, recvSerial: nat, head: seq<Byte>, body: seq<Byte>): Outcome
    requires o.Ok() && |head| == HEAD_SIZE
  {
    var kind := Signed(Get32(head[4..8]));
    var tag := Get16(head[8..10]);
    var flag := Get16(head[10..12]);
    var reqSerial := Get32(head[12..16]);
    var serial := Get32(head[16..20]);
    if kind < 0 then
      Control(o, recvSerial, kind, reqSerial, serial)
    else if o.serials && Next(recvSerial) != serial then
      Outcome(Next(recvSerial), None, true)
    else
      var recv := if o.serials then serial else recvSerial;
      if o.crc && GetCrc(head[20..22]) != Crc.BitSerial(0xFFFF, body) then Outcome(recv, None, true)
      else if flag % 2 == 1 && o.key.None? then Outcome(recv, None, true)
      else
        var plain := if flag % 2 == 1 then Cipher(o.key.value, body) else body;
        Routed(o, recv, kind, tag, if o.serials then reqSerial else 0, plain)
  }

  function Next(serial: nat): nat {
    (serial + 1) % TWO_32
  }

  /** Messages of negative type are the system's own. */
  function Control(o: Options, recvSerial: nat, kind: int, reqSerial: nat, serial: nat): Outcome {
    if kind == TYPE_HEARTBEAT then
      Outcome(recvSerial, if o.serials then Some(Heartbeat(reqSerial)) else None, false)
    else if kind == TYPE_JUMP_SERIAL then
      if serial <= recvSerial then Outcome(recvSerial, None, true) else Outcome(serial, None, false)
    else
      Outcome(recvSerial, None, false)
  }

  function Routed(o: Options, recvSerial: nat, kind: int, tag: nat, reqSerial: nat, body: seq<Byte>): Outcome {
    if kind in o.known || o.bypass then Outcome(recvSerial, Some(Deliver(kind, tag, reqSerial, body)), false)
    else Outcome(recvSerial, None, true)
  }

  /** The specification of decode, on the message that was sent: no bytes. */
  function Receive(o: Options, recvSerial: nat, m: Message, ack: nat): Outcome {
    if m.kind < 0 then
      Control(o, recvSerial, m.kind, ack, m.serial)
    else if o.serials && Next(recvSerial) != m.serial then
      Outcome(Next(recvSerial), None, true)
    else
      Routed(o, if o.serials then m.serial else recvSerial, m.kind, m.tag, if o.serials then ack else 0, m.body)
  }

  lemma HeaderFields(m: Message, size: nat, ack: nat, crc: bv16)
    requires m.Ok() && size < TWO_32 && ack < TWO_32
    ensures var h := Header(m, size, ack, crc);
            && SizeOf(h) == size && Signed(Get32(h[4..8])) == m.kind && Get16(h[8..10]) == m.tag
            && Get16(h[10..12]) == (if m.crypt then FLAG_CRYPT else 0)
            && Get32(h[12..16]) == ack && Get32(h[16..20]) == m.serial && GetCrc(h[20..22]) == crc
  {
    hide Get32, Put32, Get16, Put16, GetCrc, PutCrc;
    var h := Header(m, size, ack, crc);
    assert h[0..4] == Put32(size);
    assert h[4..8] == Put32(Unsigned(m.kind));
    assert h[8..10] == Put16(m.tag);
    assert h[10..12] == Put16(if m.crypt then FLAG_CRYPT else 0);
    assert h[12..16] == Put32(ack);
    assert h[16..20] == Put32(m.serial);
    assert h[20..22] == PutCrc(crc);
    Back32(size);
    Back32(Unsigned(m.kind));
    Back16(m.tag);
    Back16(if m.crypt then FLAG_CRYPT else 0);
    Back32(ack);
    Back32(m.serial);
    BackCrc(crc);
  }

  /** Decoding a frame gives what was sent: type, tag, serial, acknowledgement and body,
      through checksum and cipher. */
  lemma DecodeFrame(o: Options, m: Message, ack: nat, recvSerial: nat)
    requires o.Ok() && m.Ok() && ack < TWO_32 && (m.crypt ==> o.key.Some?)
    ensures var f := Frame(o, m, ack);
            && SizeOf(f[..HEAD_SIZE]) == |m.body| == |f[HEAD_SIZE..]|
            && Decode(o, recvSerial, f[..HEAD_SIZE], f[HEAD_SIZE..]) == Receive(o, recvSerial, m, ack)
  {
    hide Header, Get32, Get16, GetCrc, Cipher, Crc.BitSerial, Control, Routed;
    var p := Payload(o, m);
    var h := Header(m, |m.body|, ack, CrcOf(o, p));
    HeaderFields(m, |m.body|, ack, CrcOf(o, p));
    assert Frame(o, m, ack)[..HEAD_SIZE] == h && Frame(o, m, ack)[HEAD_SIZE..] == p;
    if m.crypt {
      CipherIsItsOwnInverse(o.key.value, m.body);
    }
  }

  /** With the checksum on, a body that a burst of up to sixteen bits has changed on the way is
      refused: no task comes of it. */
  lemma CorruptionIsRefused(o: Options, m: Message, ack: nat, recvSerial: nat, body: seq<Byte>,
                            p: seq<bool>, u: seq<bool>, v: seq<bool>, s: seq<bool>)
    requires o.Ok() && m.Ok() && ack < TWO_32 && o.crc && m.kind >= 0
    requires Crc.Stream(Payload(o, m)) == p + u + s && Crc.Stream(body) == p + v + s
    requires |u| == |v| <= 16 && u != v
    ensures var r := Decode(o, recvSerial, Frame(o, m, ack)[..HEAD_SIZE], body); r.error && r.task == None
  {
    hide Header, Get32, Get16, GetCrc, Cipher, Crc.BitSerial, Crc.Stream, Control, Routed;
    var h := Header(m, |m.body|, ack, CrcOf(o, Payload(o, m)));
    HeaderFields(m, |m.body|, ack, CrcOf(o, Payload(o, m)));
    assert Frame(o, m, ack)[..HEAD_SIZE] == h;
    Crc.BurstIsDetected(0xFFFF, Payload(o, m), body, p, u, v, s);
  }

  /** What is on the wire of a body: with crypt set every byte is exclusive-ored with its byte of
      the key, round and round; without, the bytes go as they are. */
  lemma BodyOnTheWire(o: Options, m: Message, ack: nat, i: nat)
    requires o.Ok() && m.Ok() && i < |m.body| && (m.crypt ==> o.key.Some?)
    ensures Frame(o, m, ack)[HEAD_SIZE + i] == if m.crypt then m.body[i] ^ o.key.value[i % |o.key.value|] else m.body[i]
  {
    hide Header, CrcOf;
    assert Frame(o, m, ack)[HEAD_SIZE + i] == Payload(o, m)[i];
  }

  /** Exactly when an ordinary frame is refused, and what becomes of it otherwise. */
  lemma OrdinaryFrame(o: Options, recvSerial: nat, head: seq<Byte>, body: seq<Byte>)
    requires o.Ok() && |head| == HEAD_SIZE && Signed(Get32(head[4..8])) >= 0
    ensures var r := Decode(o, recvSerial, head, body);
            var kind, ciphered := Signed(Get32(head[4..8])), Get16(head[10..12]) % 2 == 1;
            && (r.error <==> || (o.serials && Get32(head[16..20]) != (recvSerial + 1) % TWO_32)
                             || (o.crc && GetCrc(head[20..22]) != Crc.BitSerial(0xFFFF, body))
                             || (ciphered && o.key.None?)
                             || (kind !in o.known && !o.bypass))
            && (r.error ==> r.task == None)
            && (!r.error ==>
                  && r.task.Some? && r.task.value.Deliver? && |r.task.value.body| == |body|
                  && r.task.value.kind == kind && r.task.value.tag == Get16(head[8..10])
                  && r.task.value.reqSerial == (if o.serials then Get32(head[12..16]) else 0)
                  && forall i | 0 <= i < |body| ::
                       r.task.value.body[i] == if ciphered then body[i] ^ o.key.value[i % |o.key.value|] else body[i])
            && r.recvSerial == if o.serials then (recvSerial + 1) % TWO_32 else recvSerial
  {
    hide Get32, Get16, GetCrc, Crc.BitSerial, Control;
  }

  /** A frame of the system: a heartbeat carries the acknowledged serial to the worker, a jump moves
      the receiver forward or is refused, and no other has any effect. */
  lemma SystemFrame(o: Options, recvSerial: nat, head: seq<Byte>, body: seq<Byte>)
    requires o.Ok() && |head| == HEAD_SIZE && Signed(Get32(head[4..8])) < 0
    ensures var r, kind, serial := Decode(o, recvSerial, head, body), Signed(Get32(head[4..8])), Get32(head[16..20]);
            && (r.error <==> kind == -116 && serial <= recvSerial)
            && r.recvSerial == (if kind == -116 && serial > recvSerial then serial else recvSerial)
            && r.task == if kind == -115 && o.serials then Some(Heartbeat(Get32(head[12..16]))) else None
  {
    hide Get32, Get16, GetCrc, Crc.BitSerial;
  }
}
