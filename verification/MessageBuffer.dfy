/** The buffer of messages that the peer has not acknowledged. */
module MessageBuffers {

  import opened Codec
  import opened Common
  import opened NormalLinks

  // ----- as a value -----

  /** maxMsgNum 0 is no limit. */
  datatype Buffer = Buffer(messages: seq<Message>, broken: bool, maxMsgNum: nat, lastSerial: nat, lastScrapSerial: nat)

  ghost predicate Increasing(s: seq<Message>) {
    forall i, j | 0 <= i < j < |s| :: s[i].serial < s[j].serial
  }

  /** Serials increase and none is past the last one given out; the cap holds. */
  ghost predicate Ok(b: Buffer) {
    && Increasing(b.messages)
    && (forall i | 0 <= i < |b.messages| :: b.messages[i].serial <= b.lastSerial)
    && (b.maxMsgNum > 0 ==> |b.messages| <= b.maxMsgNum)
    && (b.broken ==> b.messages == [])
  }

  /** The messages lie after the last serial that was scrapped, and that is not past the last one. */
  ghost predicate Ranged(b: Buffer) {
    b.lastScrapSerial <= b.lastSerial && forall i | 0 <= i < |b.messages| :: b.lastScrapSerial < b.messages[i].serial
  }

  /** The oldest message makes room when the buffer is full. */
  function Trimmed(b: Buffer): Buffer {
    if b.maxMsgNum > 0 && |b.messages| >= b.maxMsgNum
    then b.(messages := b.messages[1..], lastScrapSerial := b.messages[0].serial)
    else b
  }

  function Inserted(b: Buffer, m: Message): Buffer {
    if b.broken then b
    else
      var t := Trimmed(b);
      if m.serial != b.lastSerial + 1 then t.(messages := [], broken := true)
      else t.(messages := t.messages + [m], lastSerial := m.serial)
  }

  function Jumped(b: Buffer, serial: nat): Buffer {
    if b.broken then b
    else if serial != b.lastSerial + 1 then b.(messages := [], broken := true)
    else b.(lastSerial := serial)
  }

  /** The messages after the acknowledged serial. */
  function After(s: seq<Message>, serial: nat): seq<Message> {
    if s == [] || s[0].serial > serial then s else After(s[1..], serial)
  }

  lemma {:induction false} AfterIsSuffix(s: seq<Message>, serial: nat)
    ensures var r := After(s, serial);
            && |r| <= |s| && r == s[|s| - |r|..]
            && (forall i | 0 <= i < |s| - |r| :: s[i].serial <= serial)
            && (r != [] ==> r[0].serial > serial)
  {
    if s != [] && s[0].serial <= serial {
      AfterIsSuffix(s[1..], serial);
    }
  }

  function Scrapped(b: Buffer, serial: nat): Buffer {
    b.(messages := After(b.messages, serial),
       lastScrapSerial := if b.lastScrapSerial < serial then serial else b.lastScrapSerial)
  }

  lemma InsertKeeps(b: Buffer, m: Message)
    requires Ok(b)
    ensures Ok(Inserted(b, m)) && (Ranged(b) ==> Ranged(Inserted(b, m)))
  {
    TrimmedSerials(b);
    hide Trimmed;
  }

  /** The next serial is held at the end, the older ones stay but for the first when the buffer is full;
      a serial that is skipped changes none of them; any other serial breaks the buffer. */
  lemma InsertHolds(b: Buffer, m: Message)
    requires Ok(b) && !b.broken
    ensures var r, n := Inserted(b, m), |b.messages|;
            if m.serial != b.lastSerial + 1 then r.broken && r.messages == []
            else
              && !r.broken && r.lastSerial == m.serial
              && r.messages == (if 0 < b.maxMsgNum == n then b.messages[1..] else b.messages) + [m]
    ensures var r := Jumped(b, m.serial);
            if m.serial != b.lastSerial + 1 then r.broken && r.messages == []
            else !r.broken && r.lastSerial == m.serial && r.messages == b.messages
  {
  }

  lemma TrimmedSerials(b: Buffer)
    requires Ok(b)
    ensures var t := Trimmed(b);
            && Ok(t) && (b.maxMsgNum > 0 ==> |t.messages| < b.maxMsgNum) && (Ranged(b) ==> Ranged(t))
            && t.broken == b.broken && t.lastSerial == b.lastSerial && t.maxMsgNum == b.maxMsgNum
            && forall i | 0 <= i < |t.messages| :: t.messages[i].serial <= b.lastSerial
  {
  }

  lemma JumpKeeps(b: Buffer, serial: nat)
    requires Ok(b)
    ensures Ok(Jumped(b, serial)) && (Ranged(b) ==> Ranged(Jumped(b, serial)))
  {
  }

  lemma AfterFirst(s: seq<Message>, serial: nat)
    requires Increasing(s)
    ensures s == [] || s[0].serial > serial ==> After(s, serial) == s
    ensures s != [] ==> Increasing(s[1..])
    ensures s != [] && s[0].serial <= serial ==> After(s, serial) == After(s[1..], serial)
  {
  }

  lemma AfterCut(s: seq<Message>, serial: nat, i: nat)
    requires Increasing(s) && i < |s|
    ensures s[i].serial > serial <==> i >= |s| - |After(s, serial)|
  {
    hide After;
    AfterIsSuffix(s, serial);
    var r := After(s, serial);
    var k := |s| - |r|;
    if i >= k {
      assert r[0] == s[k];
    }
  }

  /** An acknowledgement removes exactly the messages up to its serial. */
  lemma ScrapKeeps(b: Buffer, serial: nat)
    requires Ok(b)
    ensures Ok(Scrapped(b, serial)) && Increasing(b.messages)
    ensures Ranged(b) && serial <= b.lastSerial ==> Ranged(Scrapped(b, serial))
  {
    hide After;
    AfterIsSuffix(b.messages, serial);
  }

  lemma ScrapSpares(b: Buffer, serial: nat, i: nat)
    requires Ok(b) && i < |b.messages| && b.messages[i].serial > serial
    ensures b.messages[i] in Scrapped(b, serial).messages
  {
    hide After;
    var s, r := b.messages, After(b.messages, serial);
    AfterIsSuffix(s, serial);
    AfterCut(s, serial, i);
    assert r[i - (|s| - |r|)] == s[i];
  }

  lemma ScrapRemoves(b: Buffer, serial: nat, i: nat)
    requires Ok(b) && i < |Scrapped(b, serial).messages|
    ensures var m := Scrapped(b, serial).messages[i]; m in b.messages && m.serial > serial
  {
    hide After;
    var s, r := b.messages, After(b.messages, serial);
    AfterIsSuffix(s, serial);
    var k := |s| - |r|;
    assert r[i] == s[k + i];
    AfterCut(s, serial, k + i);
  }

  // ----- as the source keeps it: a list and a map over its nodes -----

  ghost predicate Finds(index: map<nat, Node<Message>>, node: Node<Message>) {
    node.data.serial in index && index[node.data.serial] == node
  }

  /** The map indexes exactly the nodes of the list, by serial. */
  ghost predicate Indexed(nodes: seq<Node<Message>>, index: map<nat, Node<Message>>, messages: seq<Message>) {
    && |nodes| == |messages| && index.Keys == Serials(messages)
    && forall i | 0 <= i < |nodes| :: nodes[i].data == messages[i] && Finds(index, nodes[i])
  }

  ghost function Serials(s: seq<Message>): set<nat> {
    if s == [] then {} else {s[0].serial} + Serials(s[1..])
  }

  lemma {:induction false} SerialsLess(s: seq<Message>, k: nat)
    requires forall i | 0 <= i < |s| :: s[i].serial != k
    ensures k !in Serials(s)
  {
    if s != [] {
      SerialsLess(s[1..], k);
    }
  }

  lemma {:induction false} SerialsAppend(s: seq<Message>, m: Message)
    ensures Serials(s + [m]) == Serials(s) + {m.serial}
  {
    if s == [] {
      assert s + [m] == [m] && [m][1..] == [];
      assert Serials([m][1..]) == {};
    } else {
      assert (s + [m])[1..] == s[1..] + [m];
      SerialsAppend(s[1..], m);
    }
  }

  /** So the map has as many entries as the list has nodes. */
  lemma {:induction false} SerialsCount(s: seq<Message>)
    requires Increasing(s)
    ensures |Serials(s)| == |s|
  {
    if s != [] {
      SerialsCount(s[1..]);
      SerialsLess(s[1..], s[0].serial);
    }
  }

  lemma IndexWithoutFirst(nodes: seq<Node<Message>>, index: map<nat, Node<Message>>, messages: seq<Message>)
    requires Indexed(nodes, index, messages) && Increasing(messages) && nodes != []
    ensures Indexed(nodes[1..], index - {messages[0].serial}, messages[1..])
  {
    var k := messages[0].serial;
    SerialsLess(messages[1..], k);
    assert (index - {k}).Keys == Serials(messages[1..]);
    forall i | 0 <= i < |nodes| - 1
      ensures nodes[1..][i].data == messages[1..][i] && Finds(index - {k}, nodes[1..][i])
    {
      assert nodes[i + 1].data == messages[i + 1] && Finds(index, nodes[i + 1]);
      assert messages[0].serial < messages[i + 1].serial;
    }
  }

  lemma IndexWithNew(nodes: seq<Node<Message>>, index: map<nat, Node<Message>>, messages: seq<Message>,
                     node: Node<Message>)
    requires Indexed(nodes, index, messages)
    requires forall i | 0 <= i < |messages| :: messages[i].serial < node.data.serial
    ensures Indexed(nodes + [node], index[node.data.serial := node], messages + [node.data])
  {
    var k := node.data.serial;
    SerialsAppend(messages, node.data);
    assert index[k := node].Keys == index.Keys + {k};
    forall i | 0 <= i < |nodes|
      ensures Finds(index[k := node], nodes[i])
    {
      assert nodes[i].data == messages[i] && Finds(index, nodes[i]);
      assert messages[i].serial < k;
    }
  }

  ghost predicate Suffix(a: seq<Node<Message>>, b: seq<Node<Message>>) {
    |a| <= |b| && a == b[|b| - |a|..]
  }

  lemma SuffixTail(a: seq<Node<Message>>, b: seq<Node<Message>>)
    requires Suffix(a, b) && a != []
    ensures Suffix(a[1..], b)
  {
  }

  class MessageBuffer {
    const bufMsglink: NormalLink<Message>
    var bufMsgMap: map<nat, Node<Message>>
    var broken: bool
    const maxMsgNum: nat
    var lastSerial: nat
    var lastScrapSerial: nat
    /** The messages in the list. */
    ghost var messages: seq<Message>

    ghost function Abs(): Buffer
      reads this
    {
      Buffer(messages, broken, maxMsgNum, lastSerial, lastScrapSerial)
    }

    ghost predicate Shape()
      reads this, bufMsglink, bufMsglink.nodes
    {
      bufMsglink.Valid() && Indexed(bufMsglink.nodes, bufMsgMap, messages)
    }

    ghost predicate Valid()
      reads this, bufMsglink, bufMsglink.nodes
    {
      Shape() && Ok(Abs())
    }

    constructor (maxMsgNum: nat)
      ensures Valid() && fresh(bufMsglink) && bufMsglink.nodes == [] && Abs() == Buffer([], false, maxMsgNum, 0, 0)
    {
      this.maxMsgNum := maxMsgNum;
      bufMsglink := new NormalLink();
      bufMsgMap := map[];
      broken, lastSerial, lastScrapSerial, messages := false, 0, 0, [];
    }

    lemma Front()
      requires Shape()
      ensures |bufMsglink.nodes| == |messages|
      ensures if messages == [] then bufMsglink.head == null
              else bufMsglink.head == bufMsglink.nodes[0] && bufMsglink.head.data == messages[0]
    {
      bufMsglink.Ends();
    }

    lemma NodeAt(i: nat)
      requires Shape() && i < |messages|
      ensures |bufMsglink.nodes| == |messages|
      ensures bufMsglink.nodes[i].data == messages[i] && bufMsglink.nodes[i].next == At(bufMsglink.nodes, i + 1)
    {
      assert Linked(bufMsglink.nodes, i);
    }

    /** The first node leaves the list and the map. */
    method DropFirst()
      requires Shape() && Increasing(messages) && messages != []
      modifies this`bufMsgMap, this`messages, bufMsglink, bufMsglink.nodes
      ensures Shape() && messages == old(messages)[1..]
      ensures bufMsglink.nodes == old(bufMsglink.nodes)[1..]
    {
      hide Indexed, NormalLink.Valid;
      Front();
      var node := bufMsglink.head;
      IndexWithoutFirst(bufMsglink.nodes, bufMsgMap, messages);
      bufMsgMap := bufMsgMap - {node.data.serial};
      assert Without(bufMsglink.nodes, 0) == bufMsglink.nodes[1..];
      bufMsglink.Erase(node, 0);
      messages := messages[1..];
    }

    method Clear()
      requires Shape()
      modifies this`bufMsgMap, this`messages, bufMsglink
      ensures Shape() && bufMsglink.nodes == [] && messages == []
    {
      bufMsglink.Clear();
      bufMsgMap, messages := map[], [];
    }

    method Reset(serial: nat)
      requires Valid()
      modifies this, bufMsglink
      ensures Valid() && bufMsglink.nodes == [] && Abs() == Buffer([], false, maxMsgNum, serial, serial)
    {
      broken := false;
      Clear();
      lastSerial, lastScrapSerial := serial, serial;
    }

    /** A node for the message at the end of the list, and its entry in the map. */
    method Append(m: Message)
      requires Shape() && forall i | 0 <= i < |messages| :: messages[i].serial < m.serial
      modifies this`bufMsgMap, this`messages, bufMsglink, bufMsglink.nodes
      ensures Shape() && messages == old(messages) + [m]
      ensures forall i | 0 <= i < |bufMsglink.nodes| ::
                bufMsglink.nodes[i] in old(bufMsglink.nodes) || fresh(bufMsglink.nodes[i])
    {
      var node := new Node(m);
      hide Indexed, NormalLink.Valid;
      IndexWithNew(bufMsglink.nodes, bufMsgMap, messages, node);
      bufMsglink.PushBack(node);
      bufMsgMap := bufMsgMap[m.serial := node];
      messages := messages + [m];
    }

    /** If the buffer is full the oldest message makes room. */
    method Trim()
      requires Valid()
      modifies this`bufMsgMap, this`messages, this`lastScrapSerial, bufMsglink, bufMsglink.nodes
      ensures Shape() && Abs() == Trimmed(old(Abs()))
      ensures Suffix(bufMsglink.nodes, old(bufMsglink.nodes))
    {
      SerialsCount(messages);
      assert |bufMsgMap| == |bufMsgMap.Keys| == |messages|;
      hide Indexed, NormalLink.Valid;
      Front();
      if maxMsgNum > 0 && |bufMsgMap| >= maxMsgNum {
        lastScrapSerial := bufMsglink.head.data.serial;
        DropFirst();
      }
    }

    method InsertMessage(m: Message) returns (ok: bool)
      requires Valid()
      modifies this, bufMsglink, bufMsglink.nodes
      ensures Valid() && Abs() == Inserted(old(Abs()), m) && ok == !broken
      ensures forall i | 0 <= i < |bufMsglink.nodes| ::
                bufMsglink.nodes[i] in old(bufMsglink.nodes) || fresh(bufMsglink.nodes[i])
    {
      hide Indexed, NormalLink.Valid, Ok, Trimmed;
      InsertKeeps(Abs(), m);
      TrimmedSerials(Abs());
      if !broken {
        Trim();
        if m.serial != lastSerial + 1 {
          broken := true;
        }
        if broken {
          Clear();
          return false;
        }
        Append(m);
        lastSerial := m.serial;
        return true;
      }
      return false;
    }

    method JumpToSerial(serial: nat) returns (ok: bool)
      requires Valid()
      modifies this, bufMsglink
      ensures Valid() && Abs() == Jumped(old(Abs()), serial) && ok == !broken
      ensures Suffix(bufMsglink.nodes, old(bufMsglink.nodes))
    {
      hide Indexed, NormalLink.Valid;
      JumpKeeps(Abs(), serial);
      if !broken {
        if serial != lastSerial + 1 {
          broken := true;
        }
        if broken {
          Clear();
          return false;
        }
        lastSerial := serial;
        return true;
      }
      return false;
    }

    /** Acknowledged messages leave from the front. */
    method ScrapMessages(serial: nat)
      requires Valid()
      modifies this, bufMsglink, bufMsglink.nodes
      ensures Valid() && Abs() == Scrapped(old(Abs()), serial)
      ensures Suffix(bufMsglink.nodes, old(bufMsglink.nodes))
    {
      hide Indexed, NormalLink.Valid, Ok, Increasing, After;
      ScrapKeeps(Abs(), serial);
      Front();
      while bufMsglink.head != null && bufMsglink.head.data.serial <= serial
        invariant Shape() && Increasing(messages)
        invariant bufMsglink.head == null <==> messages == []
        invariant bufMsglink.head != null ==> bufMsglink.head.data == messages[0]
        invariant After(messages, serial) == After(old(messages), serial)
        invariant Suffix(bufMsglink.nodes, old(bufMsglink.nodes))
        invariant Abs().(messages := []) == old(Abs().(messages := []))
        decreases |messages|
      {
        AfterFirst(messages, serial);
        Front();
        SuffixTail(bufMsglink.nodes, old(bufMsglink.nodes));
        DropFirst();
        Front();
      }
      AfterFirst(messages, serial);
      if lastScrapSerial < serial {
        lastScrapSerial := serial;
      }
    }
  }
}
