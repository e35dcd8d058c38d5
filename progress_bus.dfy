/**
 * The `progressEmitter` and the `/progress-stream` subscribers attached to
 * it. Each subscriber is a listener id; what the stream has written to that
 * subscriber's response is kept per id in `received`.
 */
module ProgressBus {
  import opened Base
  import opened Stems

  type ListenerId = nat

  /** Deleting position `k` removes one copy of `ls[k]` and keeps every other element. */
  lemma DeleteAtCount(ls: seq<ListenerId>, k: nat)
    requires k < |ls|
    ensures multiset(ls[..k] + ls[k + 1..]) == multiset(ls) - multiset{ls[k]}
  {
    assert ls == ls[..k] + [ls[k]] + ls[k + 1..];
  }

  /** Deleting a position from a list without repeats leaves the other elements, without repeats. */
  lemma DeleteAtDistinct(ls: seq<ListenerId>, k: nat)
    requires k < |ls| && Distinct(ls)
    ensures var r := ls[..k] + ls[k + 1..];
      Distinct(r) && forall x :: x in r <==> x in ls && x != ls[k]
  {
    var r := ls[..k] + ls[k + 1..];
    assert forall m | 0 <= m < |r| :: r[m] == ls[if m < k then m else m + 1];
    assert ls == ls[..k] + [ls[k]] + ls[k + 1..];
  }

  /**
   * `removeListener`: drops the most recently added occurrence of `id` and
   * keeps the order of the rest; a no-op when `id` is not registered.
   */
  function Without(ls: seq<ListenerId>, id: ListenerId): (r: seq<ListenerId>)
    ensures id !in ls ==> r == ls
    ensures multiset(r) == multiset(ls) - multiset{id}
    ensures LastIndex(ls, id) >= 0 ==> r == ls[..LastIndex(ls, id)] + ls[LastIndex(ls, id) + 1..]
    ensures Distinct(ls) ==> Distinct(r) && forall x :: x in r <==> x in ls && x != id
  {
    var k := LastIndex(ls, id);
    if k < 0 then
      assert multiset(ls)[id] == 0;
      ls
    else
      var r := ls[..k] + ls[k + 1..];
      assert ls[k] == id;
      DeleteAtCount(ls, k);
      if Distinct(ls) then DeleteAtDistinct(ls, k); r else r
  }

  /** An emit extends the window of a registered subscriber and leaves a removed one's alone. */
  lemma WindowAfterEmit(e: seq<Snapshot>, x: Snapshot, j: nat, l: nat)
    requires j <= l <= |e|
    ensures (e + [x])[j..l] == e[j..l]
    ensures (e + [x])[j..|e| + 1] == e[j..] + [x]
  {
  }

  /** A registered subscriber's window of a longer history is its old window plus the new snapshots. */
  lemma HistoryTail(e0: seq<Snapshot>, e1: seq<Snapshot>, j: nat)
    requires j <= |e0| <= |e1| && e1[..|e0|] == e0
    ensures e1[j..] == e0[j..] + e1[|e0|..]
  {
    var t := e1[|e0|..];
    assert e1 == e0 + t;
    assert (e0 + t)[j..] == e0[j..] + t;
  }

  /** A removed subscriber's window is the same in any longer history. */
  lemma HistoryWindow(e0: seq<Snapshot>, e1: seq<Snapshot>, j: nat, l: nat)
    requires j <= l <= |e0| <= |e1| && e1[..|e0|] == e0
    ensures e1[j..l] == e0[j..l]
  {
    assert forall k | j <= k < l :: e1[k] == e1[..|e0|][k];
  }

  /**
   * The history of one subscriber: the snapshot written when it connected,
   * how many snapshots had been emitted by then, and, once it is removed,
   * how many had been emitted by that time.
   */
  datatype Session = Session(greeting: Snapshot, joinedAt: nat, leftAt: Option<nat>)

  class ProgressEmitter {
    /** The registered `progress` listeners, in registration order. */
    var listeners: seq<ListenerId>
    /** Every snapshot written to each subscriber's response, in order. */
    var received: map<ListenerId, seq<Snapshot>>
    /** The id the next subscriber gets: each connection has its own closure. */
    var nextId: ListenerId

    /** Every snapshot emitted so far. */
    ghost var emitted: seq<Snapshot>
    ghost var sessions: map<ListenerId, Session>

    ghost function End(id: ListenerId): nat
      reads this
      requires id in sessions
    {
      match sessions[id].leftAt
      case Some(l) => l
      case None => |emitted|
    }

    /**
     * The delivery guarantee for one subscriber: it has received the
     * snapshot current when it connected, then exactly the snapshots emitted
     * from then until its removal, in emit order.
     */
    ghost predicate Delivered(id: ListenerId)
      reads this
    {
      && id in received && id in sessions
      && sessions[id].joinedAt <= End(id) <= |emitted|
      && received[id] == [sessions[id].greeting] + emitted[sessions[id].joinedAt..End(id)]
    }

    /** The emitter's invariant: a subscriber stays registered until it is removed, and each was delivered to. */
    ghost predicate Valid()
      reads this
    {
      && Distinct(listeners)
      && sessions.Keys == received.Keys
      && (forall id :: id in listeners ==> id in received)
      && (forall id :: id in received ==>
            id < nextId && Delivered(id) && (id in listeners <==> sessions[id].leftAt.None?))
    }

    /**
     * Between the old state and this one, snapshots were only emitted: the
     * history grew, every registered subscriber's log gained exactly the new
     * snapshots, and every removed subscriber's log stayed as it was.
     */
    twostate predicate Relayed()
      reads this
    {
      && old(emitted) <= emitted
      && listeners == old(listeners) && received.Keys == old(received).Keys
      && (forall id | id in listeners ::
            id in old(received) && id in received
            && received[id] == old(received[id]) + emitted[|old(emitted)|..])
      && (forall id | id in old(received) && id !in listeners ::
            id in received && received[id] == old(received[id]))
    }

    /**
     * The delivery invariant alone fixes the logs: when only emits happened
     * (same subscribers, same registrations, a longer history), the
     * subscribers' logs followed the history.
     */
    twostate lemma RelayFollowsHistory()
      requires old(Valid()) && Valid()
      requires sessions == old(sessions) && listeners == old(listeners)
      requires old(emitted) <= emitted
      ensures Relayed()
    {
      forall id | id in listeners
        ensures id in old(received) && id in received
        ensures received[id] == old(received[id]) + emitted[|old(emitted)|..]
      {
        assert old(Delivered(id)) && Delivered(id);
        var g, j := sessions[id].greeting, sessions[id].joinedAt;
        assert sessions[id].leftAt.None?;
        assert received[id] == [g] + emitted[j..];
        assert old(received[id]) == [g] + old(emitted)[j..];
        HistoryTail(old(emitted), emitted, j);
        assert [g] + (old(emitted)[j..] + emitted[|old(emitted)|..])
            == ([g] + old(emitted)[j..]) + emitted[|old(emitted)|..];
      }
      forall id | id in old(received) && id !in listeners
        ensures id in received && received[id] == old(received[id])
      {
        assert old(Delivered(id)) && Delivered(id);
        assert sessions[id].leftAt.Some?;
        HistoryWindow(old(emitted), emitted, sessions[id].joinedAt, sessions[id].leftAt.value);
      }
    }

    constructor ()
      ensures Valid()
      ensures listeners == [] && received == map[] && emitted == []
    {
      listeners, received, nextId := [], map[], 0;
      emitted, sessions := [], map[];
    }

    /**
     * The `/progress-stream` handler: writes the current snapshot to a new
     * connection, then registers its listener.
     */
    method Subscribe(current: Snapshot) returns (id: ListenerId)
      requires Valid()
      modifies this
      ensures Valid()
      ensures id !in old(received)
      ensures received == old(received)[id := [current]]
      ensures listeners == old(listeners) + [id]
      ensures emitted == old(emitted)
      ensures sessions[id] == Session(current, |emitted|, None)
    {
      id := nextId;
      assert id !in listeners;
      nextId := nextId + 1;
      received := received[id := [current]];
      listeners := listeners + [id];
      sessions := sessions[id := Session(current, |emitted|, None)];
      assert emitted[|emitted|..|emitted|] == [];
      forall x | x in old(received)
        ensures x < nextId && Delivered(x) && (x in listeners <==> sessions[x].leftAt.None?)
      {
        assert old(Delivered(x));
      }
    }

    /** The connection's `close` handler: `removeListener`. Calling it again changes nothing. */
    method RemoveListener(id: ListenerId)
      requires Valid()
      modifies this`listeners, this`sessions
      ensures Valid()
      ensures listeners == Without(old(listeners), id) && id !in listeners
      ensures received == old(received) && emitted == old(emitted)
    {
      var remaining := Without(listeners, id);
      assert forall x :: x in remaining <==> x in listeners && x != id;
      assert id !in remaining;
      if id in listeners {
        sessions := sessions[id := sessions[id].(leftAt := Some(|emitted|))];
      }
      listeners := remaining;
      forall x | x in received
        ensures x < nextId && Delivered(x) && (x in listeners <==> sessions[x].leftAt.None?)
      {
        assert old(Delivered(x));
        assert End(x) == old(End(x));
      }
    }

    /**
     * `emit('progress', snap)`: each registered listener, in registration
     * order, writes `snap` to its response; removed subscribers get nothing.
     */
    method Emit(snap: Snapshot)
      requires Valid()
      modifies this
      ensures Valid()
      ensures listeners == old(listeners) && emitted == old(emitted) + [snap]
      ensures sessions == old(sessions) && nextId == old(nextId)
      ensures Relayed()
      ensures received.Keys == old(received).Keys
      ensures forall id :: id in listeners ==> received[id] == old(received)[id] + [snap]
      ensures forall id :: id in received && id !in listeners ==> received[id] == old(received)[id]
    {
      WriteToListeners(snap);
      emitted := emitted + [snap];
      forall id | id in received
        ensures id < nextId && Delivered(id) && (id in listeners <==> sessions[id].leftAt.None?)
      {
        assert old(Delivered(id));
        WindowAfterEmit(old(emitted), snap, sessions[id].joinedAt, old(End(id)));
      }
      RelayFollowsHistory();
    }

    /** The loop inside `emit`: calls each registered listener in turn. */
    method WriteToListeners(snap: Snapshot)
      requires Distinct(listeners) && forall id :: id in listeners ==> id in received
      modifies this`received
      ensures received.Keys == old(received).Keys
      ensures forall id :: id in listeners ==> received[id] == old(received)[id] + [snap]
      ensures forall id :: id in received && id !in listeners ==> received[id] == old(received)[id]
    {
      var k := 0;
      while k < |listeners|
        invariant 0 <= k <= |listeners|
        invariant received.Keys == old(received).Keys
        invariant forall m | 0 <= m < |listeners| ::
                    received[listeners[m]] == old(received)[listeners[m]] + if m < k then [snap] else []
        invariant forall id :: id in received && id !in listeners ==> received[id] == old(received)[id]
      {
        received := received[listeners[k] := received[listeners[k]] + [snap]];
        k := k + 1;
      }
    }
  }
}
