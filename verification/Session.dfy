/** The output session task of one agent, as sequential code: the ring, the subscriber
    list, and the event channels it writes to. */
module Session {
  import opened Bytes
  import opened Ring

  const RING_BUFFER_BYTES: nat := 65536

  datatype SessionEvent = Output(bytes: seq<byte>) | Ended(code: Option<int>)

  /** The code that the end of the PTY reports: the child's own, or zero when polling it tells
      none because it still runs or was ended by a signal. */
  function ExitCode(status: Option<int>): Option<int> {
    if status.Some? then status else Some(0)
  }

  /** One event channel. `open` says that the receiving half still exists. */
  datatype Mailbox = Mailbox(open: bool, queue: seq<SessionEvent>)

  predicate CanSend(boxes: map<nat, Mailbox>, id: nat) {
    id in boxes && boxes[id].open
  }

  /** A send to a closed channel has no effect. */
  function SendTo(boxes: map<nat, Mailbox>, id: nat, e: SessionEvent): map<nat, Mailbox> {
    if CanSend(boxes, id) then boxes[id := Mailbox(true, boxes[id].queue + [e])] else boxes
  }

  function SendAll(boxes: map<nat, Mailbox>, ids: seq<nat>, e: SessionEvent): map<nat, Mailbox> {
    if ids == [] then boxes else SendAll(SendTo(boxes, ids[0], e), ids[1..], e)
  }

  /** The subscribers whose receiver still exists, in order. */
  function Reachable(boxes: map<nat, Mailbox>, ids: seq<nat>): seq<nat> {
    if ids == [] then []
    else (if CanSend(boxes, ids[0]) then [ids[0]] else []) + Reachable(boxes, ids[1..])
  }

  /** Sending never opens or closes a channel. */
  lemma {:induction false} SendKeepsReachable(boxes: map<nat, Mailbox>, id: nat, e: SessionEvent, ids: seq<nat>)
    ensures Reachable(SendTo(boxes, id, e), ids) == Reachable(boxes, ids)
  {
    if ids == [] {
    } else {
      SendKeepsReachable(boxes, id, e, ids[1..]);
    }
  }

  lemma {:induction false} SendAllAppend(boxes: map<nat, Mailbox>, a: seq<nat>, b: seq<nat>, e: SessionEvent)
    ensures SendAll(boxes, a + b, e) == SendAll(SendAll(boxes, a, e), b, e)
  {
    if a == [] {
      assert a + b == b;
    } else {
      assert (a + b)[1..] == a[1..] + b;
      SendAllAppend(SendTo(boxes, a[0], e), a[1..], b, e);
    }
  }

  lemma {:induction false} ReachableAppend(boxes: map<nat, Mailbox>, a: seq<nat>, b: seq<nat>)
    ensures Reachable(boxes, a + b) == Reachable(boxes, a) + Reachable(boxes, b)
  {
    if a == [] {
      assert a + b == b;
    } else {
      assert (a + b)[1..] == a[1..] + b;
      ReachableAppend(boxes, a[1..], b);
    }
  }

  /** A broadcast reaches every open subscriber once and nobody else. */
  lemma {:induction false} BroadcastDelivers(boxes: map<nat, Mailbox>, ids: seq<nat>, e: SessionEvent, id: nat)
    requires NoDup(ids) && id in boxes
    ensures id in SendAll(boxes, ids, e)
    ensures SendAll(boxes, ids, e)[id].open == boxes[id].open
    ensures SendAll(boxes, ids, e)[id].queue ==
            boxes[id].queue + if id in ids && boxes[id].open then [e] else []
    ensures id in Reachable(boxes, ids) <==> id in ids && boxes[id].open
  {
    if ids == [] {
      assert boxes[id].queue + [] == boxes[id].queue;
    } else {
      var next := SendTo(boxes, ids[0], e);
      BroadcastDelivers(next, ids[1..], e, id);
      SendKeepsReachable(boxes, ids[0], e, ids[1..]);
      if id == ids[0] {
        assert id !in ids[1..];
      }
    }
  }

  class SessionTask {
    const ring: RingBuffer
    var subscribers: seq<nat>
    var boxes: map<nat, Mailbox>
    var dead: bool

    ghost predicate Valid()
      reads this, ring
    {
      ring.Valid() && ring.cells.Length == RING_BUFFER_BYTES
    }

    constructor ()
      ensures Valid() && fresh(ring) && fresh(ring.cells)
      ensures ring.Contents() == [] && subscribers == [] && boxes == map[] && !dead
    {
      ring := new RingBuffer(RING_BUFFER_BYTES);
      subscribers := [];
      boxes := map[];
      dead := false;
    }

    /** PTY output: remember it, pass it on, and forget receivers that are gone. */
    method TakeChunk(bytes: seq<byte>)
      requires Valid()
      modifies this`subscribers, this`boxes, ring, ring.cells
      ensures Valid()
      ensures ring.Contents() == LastN(old(ring.Contents()) + bytes, RING_BUFFER_BYTES)
      ensures subscribers == Reachable(old(boxes), old(subscribers))
      ensures boxes == SendAll(old(boxes), old(subscribers), Output(bytes))
    {
      ring.Push(bytes);
      var retained: seq<nat> := [];
      var i := 0;
      assert subscribers[..0] == [];
      while i < |subscribers|
        invariant i <= |subscribers| && subscribers == old(subscribers)
        invariant Valid() && ring.Contents() == LastN(old(ring.Contents()) + bytes, RING_BUFFER_BYTES)
        invariant boxes == SendAll(old(boxes), subscribers[..i], Output(bytes))
        invariant retained == Reachable(old(boxes), subscribers[..i])
        invariant forall id :: CanSend(boxes, id) <==> CanSend(old(boxes), id)
      {
        var id := subscribers[i];
        assert subscribers[..i + 1] == subscribers[..i] + [id];
        SendAllAppend(old(boxes), subscribers[..i], [id], Output(bytes));
        ReachableAppend(old(boxes), subscribers[..i], [id]);
        assert Reachable(old(boxes), [id]) == if CanSend(old(boxes), id) then [id] else [];
        assert SendAll(boxes, [id], Output(bytes)) == SendTo(boxes, id, Output(bytes));
        if CanSend(boxes, id) {
          retained := retained + [id];
        }
        boxes := SendTo(boxes, id, Output(bytes));
        i := i + 1;
      }
      assert subscribers[..i] == subscribers;
      subscribers := retained;
    }

    /** A subscribe request. `waiting` says that the requester still waits for the reply. */
    method ServeSubscribe(id: nat, waiting: bool) returns (backlog: seq<byte>)
      requires Valid() && id !in boxes
      modifies this`subscribers, this`boxes
      ensures Valid()
      ensures backlog == ring.Contents()
      ensures waiting ==> subscribers == old(subscribers) + [id] && boxes == old(boxes)[id := Mailbox(true, [])]
      ensures !waiting ==> subscribers == old(subscribers) && boxes == old(boxes)
    {
      backlog := ring.Copy();
      if waiting {
        boxes := boxes[id := Mailbox(true, [])];
        subscribers := subscribers + [id];
      }
    }

    /** End of the PTY: the death mark, then one last event to every subscriber. `status` is
        what polling the child tells. */
    method EndSession(status: Option<int>)
      requires Valid()
      modifies this`boxes, this`dead
      ensures Valid() && dead
      ensures forall c | status == Some(c) :: boxes == SendAll(old(boxes), subscribers, Ended(Some(c)))
      ensures status == None ==> boxes == SendAll(old(boxes), subscribers, Ended(Some(0)))
    {
      var code := ExitCode(status);
      dead := true;
      var i := 0;
      assert subscribers[..0] == [];
      while i < |subscribers|
        invariant i <= |subscribers| && dead
        invariant boxes == SendAll(old(boxes), subscribers[..i], Ended(code))
      {
        var id := subscribers[i];
        assert subscribers[..i + 1] == subscribers[..i] + [id];
        SendAllAppend(old(boxes), subscribers[..i], [id], Ended(code));
        assert SendAll(boxes, [id], Ended(code)) == SendTo(boxes, id, Ended(code));
        boxes := SendTo(boxes, id, Ended(code));
        i := i + 1;
      }
      assert subscribers[..i] == subscribers;
    }
  }
}
