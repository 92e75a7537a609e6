/** The pool of redis connections. One thread runs it, so it changes hands only where a
coroutine yields: while it connects, or while it waits for a connection. Each method
is the stretch of take() or put() between two such points, and co_resume of a waiter
runs the waiter's own stretch to its end. */
module ConnectPool {

  import opened Common

  type Handle = nat

  datatype Idle = Idle(handle: Handle, time: int)

  /** What a take() ends with, or why it has to yield. */
  datatype Taken = Got(handle: Handle) | Failed | Connecting | Waiting

  /** What a put() did: nothing more, ran one waiter, or yields to reconnect for one. */
  datatype Returned = Done | Resumed(co: Co, outcome: Taken) | Reconnecting(co: Co)

  /** The result of a connection attempt. */
  datatype Attempt = Connected(handle: Handle) | Refused

  /** A waiter that was resumed, and what its take() ended with. */
  datatype Woken = Woken(co: Co, outcome: Taken)

  function Failures(waiting: seq<Co>): seq<Woken> {
    seq(|waiting|, i requires 0 <= i < |waiting| => Woken(waiting[i], Failed))
  }

  class RedisConnectPool {
    const maxConnectNum: nat
    var idleList: seq<Idle>
    var waitingList: seq<Co>
    var realConnectCount: int
    /** Connections in the hands of clients, and attempts under way. */
    ghost var lent: set<Handle>
    ghost var connecting: nat

    ghost predicate Owned(h: Handle)
      reads this
    {
      h in lent || exists i | 0 <= i < |idleList| :: idleList[i].handle == h
    }

    /** No connection is in two hands. */
    ghost predicate Disjoint()
      reads this
    {
      && (forall i, j | 0 <= i < j < |idleList| :: idleList[i].handle != idleList[j].handle)
      && (forall i | 0 <= i < |idleList| :: idleList[i].handle !in lent)
    }

    ghost predicate Conserved()
      reads this
    {
      realConnectCount == |idleList| + |lent| + connecting <= maxConnectNum
    }

    /** What holds whenever a coroutine yields. */
    ghost predicate Valid()
      reads this
    {
      && Disjoint()
      && Conserved()
      && (waitingList != [] ==> idleList == [] && realConnectCount == maxConnectNum)
    }

    constructor (max: nat)
      ensures Valid() && maxConnectNum == max
      ensures idleList == [] && waitingList == [] && lent == {} && connecting == 0
    {
      maxConnectNum := max;
      idleList, waitingList, realConnectCount := [], [], 0;
      lent, connecting := {}, 0;
    }

    /** A waiter waits for something that is out, a lent connection or an attempt, if and only if
        the pool may have connections at all. */
    lemma WaitersAreServed()
      requires Valid() && waitingList != []
      ensures idleList == [] && |lent| + connecting == maxConnectNum
      ensures |lent| + connecting > 0 <==> maxConnectNum > 0
    {
    }

    /** take() up to its result or its first yield. */
    method Take(co: Co) returns (outcome: Taken)
      requires Valid()
      modifies this
      ensures Valid()
      ensures match outcome
              case Got(h) =>
                && old(idleList) != [] && h == old(idleList)[|old(idleList)| - 1].handle && h !in old(lent)
                && idleList == old(idleList)[..|old(idleList)| - 1] && lent == old(lent) + {h}
                && waitingList == old(waitingList) && connecting == old(connecting)
                && realConnectCount == old(realConnectCount)
              case Connecting =>
                && old(idleList) == [] && old(realConnectCount) < maxConnectNum
                && connecting == old(connecting) + 1 && realConnectCount == old(realConnectCount) + 1
                && idleList == old(idleList) && lent == old(lent) && waitingList == old(waitingList)
              case Waiting =>
                && old(idleList) == [] && old(realConnectCount) == maxConnectNum
                && waitingList == old(waitingList) + [co]
                && idleList == old(idleList) && lent == old(lent) && connecting == old(connecting)
                && realConnectCount == old(realConnectCount)
              case Failed => false
    {
      if |idleList| > 0 {
        outcome := PopIdle();
      } else if realConnectCount < maxConnectNum {
        realConnectCount := realConnectCount + 1;
        connecting := connecting + 1;
        outcome := Connecting;
      } else {
        waitingList := waitingList + [co];
        outcome := Waiting;
      }
    }

    /** The back of the idle list goes to a client. */
    method PopIdle() returns (outcome: Taken)
      requires Disjoint() && idleList != []
      modifies this`idleList, this`lent
      ensures Disjoint()
      ensures outcome == Got(old(idleList)[|old(idleList)| - 1].handle)
      ensures outcome.handle !in old(lent) && lent == old(lent) + {outcome.handle}
      ensures idleList == old(idleList)[..|old(idleList)| - 1]
    {
      var last := idleList[|idleList| - 1];
      idleList := idleList[..|idleList| - 1];
      lent := lent + {last.handle};
      outcome := Got(last.handle);
    }

    /** What a resumed waiter does: take an idle connection or report failure. */
    method Wake() returns (outcome: Taken)
      requires Disjoint()
      modifies this`idleList, this`lent
      ensures Disjoint()
      ensures old(idleList) == [] ==> outcome == Failed && idleList == [] && lent == old(lent)
      ensures old(idleList) != [] ==>
                && outcome == Got(old(idleList)[|old(idleList)| - 1].handle)
                && outcome.handle !in old(lent) && lent == old(lent) + {outcome.handle}
                && idleList == old(idleList)[..|old(idleList)| - 1]
    {
      if |idleList| == 0 {
        outcome := Failed;
      } else {
        outcome := PopIdle();
      }
    }

    /** Resume every waiter, after a failed attempt: each of them fails as well. */
    method WakeAll() returns (woken: seq<Woken>)
      requires Disjoint() && (waitingList != [] ==> idleList == [])
      modifies this
      ensures Disjoint() && waitingList == [] && woken == Failures(old(waitingList))
      ensures idleList == old(idleList) && lent == old(lent) && connecting == old(connecting)
      ensures realConnectCount == old(realConnectCount)
    {
      woken := [];
      while waitingList != []
        invariant Disjoint() && (waitingList != [] ==> idleList == [])
        invariant |woken| <= |old(waitingList)| && waitingList == old(waitingList)[|woken|..]
        invariant forall i | 0 <= i < |woken| :: woken[i] == Woken(old(waitingList)[i], Failed)
        invariant idleList == old(idleList) && lent == old(lent) && connecting == old(connecting)
        invariant realConnectCount == old(realConnectCount)
        decreases |waitingList|
      {
        var co := waitingList[0];
        waitingList := waitingList[1..];
        var outcome := Wake();
        woken := woken + [Woken(co, outcome)];
      }
    }

    /** take() after its connection attempt. */
    method TakeConnected(attempt: Attempt) returns (outcome: Taken, woken: seq<Woken>)
      requires Valid() && connecting > 0
      requires attempt.Connected? ==> !Owned(attempt.handle)
      modifies this
      ensures Valid() && connecting == old(connecting) - 1 && idleList == old(idleList)
      ensures attempt.Connected? ==>
                && outcome == Got(attempt.handle) && lent == old(lent) + {attempt.handle} && woken == []
                && realConnectCount == old(realConnectCount) && waitingList == old(waitingList)
      ensures attempt.Refused? ==>
                && outcome == Failed && lent == old(lent) && realConnectCount == old(realConnectCount) - 1
                && waitingList == [] && woken == Failures(old(waitingList))
    {
      connecting := connecting - 1;
      woken := [];
      match attempt
      case Connected(h) =>
        lent := lent + {h};
        outcome := Got(h);
      case Refused =>
        realConnectCount := realConnectCount - 1;
        woken := WakeAll();
        outcome := Failed;
    }

    /** put() up to its end or its yield. The list never grows past the maximum, so the
        branch that throws a connection away is dead. */
    method Put(handle: Handle, time: int, error: bool) returns (outcome: Returned)
      requires Valid() && handle in lent
      modifies this
      ensures Valid()
      ensures !error && old(waitingList) == [] ==>
                && outcome == Done && idleList == old(idleList) + [Idle(handle, time)]
                && lent == old(lent) - {handle} && waitingList == [] && connecting == old(connecting)
                && realConnectCount == old(realConnectCount)
      ensures !error && old(waitingList) != [] ==>
                && outcome == Resumed(old(waitingList)[0], Got(handle)) && idleList == []
                && lent == old(lent) && waitingList == old(waitingList)[1..] && connecting == old(connecting)
                && realConnectCount == old(realConnectCount)
      ensures error && old(waitingList) == [] ==>
                && outcome == Done && realConnectCount == old(realConnectCount) - 1
                && idleList == old(idleList) && lent == old(lent) - {handle} && waitingList == []
                && connecting == old(connecting)
      ensures error && old(waitingList) != [] ==>
                && outcome == Reconnecting(old(waitingList)[0]) && realConnectCount == old(realConnectCount)
                && connecting == old(connecting) + 1 && lent == old(lent) - {handle}
                && waitingList == old(waitingList)[1..] && idleList == []
    {
      assert |lent| == |lent - {handle}| + 1;
      outcome := Done;
      if |idleList| < maxConnectNum {
        lent := lent - {handle};
        if error {
          realConnectCount := realConnectCount - 1;
          if |waitingList| > 0 {
            assert |idleList| == 0;
            if realConnectCount < maxConnectNum {
              var co := waitingList[0];
              waitingList := waitingList[1..];
              realConnectCount := realConnectCount + 1;
              connecting := connecting + 1;
              outcome := Reconnecting(co);
            }
          }
        } else {
          idleList := idleList + [Idle(handle, time)];
          if |waitingList| > 0 {
            assert |idleList| == 1;
            var co := waitingList[0];
            waitingList := waitingList[1..];
            var taken := Wake();
            outcome := Resumed(co, taken);
            assert lent == old(lent);
          }
        }
      } else {
        assert false;
      }
    }

    /** put() after the attempt it made for the waiter it had taken off the list. */
    method PutReconnected(co: Co, attempt: Attempt, time: int) returns (outcome: Taken, woken: seq<Woken>)
      requires Valid() && connecting > 0
      requires attempt.Connected? ==> !Owned(attempt.handle)
      modifies this
      ensures Valid() && connecting == old(connecting) - 1
      ensures attempt.Connected? ==>
                && outcome == Got(attempt.handle) && lent == old(lent) + {attempt.handle} && woken == []
                && idleList == old(idleList) && waitingList == old(waitingList)
                && realConnectCount == old(realConnectCount)
      ensures attempt.Refused? ==>
                && waitingList == [] && woken == Failures(old(waitingList))
                && realConnectCount == old(realConnectCount) - 1
                && if old(idleList) == [] then outcome == Failed && idleList == [] && lent == old(lent)
                   else && outcome == Got(old(idleList)[|old(idleList)| - 1].handle)
                        && lent == old(lent) + {outcome.handle} && outcome.handle !in old(lent)
                        && idleList == old(idleList)[..|old(idleList)| - 1]
    {
      connecting := connecting - 1;
      woken := [];
      match attempt
      case Connected(h) =>
        idleList := idleList + [Idle(h, time)];
        outcome := Wake();
        assert idleList == old(idleList);
      case Refused =>
        realConnectCount := realConnectCount - 1;
        outcome := Wake();
        woken := WakeAll();
    }

    /** clearIdleRoutine's sweep: the expired connections at the front go. */
    method ClearIdle(now: int)
      requires Valid()
      modifies this
      ensures Valid() && lent == old(lent) && connecting == old(connecting) && waitingList == old(waitingList)
      ensures exists k | 0 <= k <= |old(idleList)| ::
                && idleList == old(idleList)[k..] && realConnectCount == old(realConnectCount) - k
                && (forall i | 0 <= i < k :: old(idleList)[i].time < now - 60)
                && (k < |old(idleList)| ==> old(idleList)[k].time >= now - 60)
    {
      ghost var k := 0;
      while |idleList| > 0 && idleList[0].time < now - 60
        invariant 0 <= k <= |old(idleList)|
        invariant Valid() && lent == old(lent) && connecting == old(connecting) && waitingList == old(waitingList)
        invariant idleList == old(idleList)[k..] && realConnectCount == old(realConnectCount) - k
        invariant forall i | 0 <= i < k :: old(idleList)[i].time < now - 60
        decreases |idleList|
      {
        idleList := idleList[1..];
        realConnectCount := realConnectCount - 1;
        k := k + 1;
      }
    }
  }
}
