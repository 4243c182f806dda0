/** Every step of the attach protocol keeps its invariant, so every reachable state has it. */
module AttachProofs {
  import opened Bytes
  import opened Session
  import opened AttachProtocol

  // ----- streams and frames -----

  lemma {:induction false} OutsAppend(a: seq<SessionEvent>, b: seq<SessionEvent>)
    ensures Outs(a + b) == Outs(a) + Outs(b)
  {
    if a == [] {
      assert a + b == b;
    } else {
      assert (a + b)[1..] == a[1..] + b;
      OutsAppend(a[1..], b);
    }
  }

  lemma OutsOne(e: SessionEvent)
    ensures Outs([e]) == if e.Output? then e.bytes else []
  {
    assert [e][1..] == [];
  }

  lemma {:induction false} StdoutAppend(a: seq<Frame>, b: seq<Frame>)
    ensures StdoutBytes(a + b) == StdoutBytes(a) + StdoutBytes(b)
  {
    if a == [] {
      assert a + b == b;
    } else {
      assert (a + b)[1..] == a[1..] + b;
      StdoutAppend(a[1..], b);
    }
  }

  lemma StdoutOne(f: Frame)
    ensures StdoutBytes([f]) == if f.FStdout? then f.bytes else []
  {
    assert [f][1..] == [];
  }

  lemma StdoutTwo(f: Frame, g: Frame)
    requires !f.FStdout? && !g.FStdout?
    ensures StdoutBytes([f, g]) == []
  {
    StdoutAppend([f], [g]);
    StdoutOne(f);
    StdoutOne(g);
    assert [f] + [g] == [f, g];
  }

  lemma StreamGrows(taken: seq<byte>, more: seq<byte>, at: nat)
    requires at <= |taken|
    ensures Stream(taken + more, at) == Stream(taken, at) + more
  {
    assert (taken + more)[..at] == taken[..at];
    assert (taken + more)[at..] == taken[at..] + more;
  }

  lemma StreamStarts(taken: seq<byte>)
    ensures Stream(taken, |taken|) == LastN(taken, RING_BUFFER_BYTES)
  {
    assert taken[..|taken|] == taken;
    assert LastN(taken, RING_BUFFER_BYTES) + [] == LastN(taken, RING_BUFFER_BYTES);
  }

  // ----- what a step of the session task means for one handler -----

  lemma OneTakeChunk(c: Core, id: nat, h: Handler, box: Option<Mailbox>, chunk: seq<byte>)
    requires HandlerOk(c, id, h, box) && c.task.Idle?
    ensures HandlerOk(c.(task := Sending(chunk, c.subs), subs := [], taken := c.taken + chunk), id, h, box)
  {
    if box.Some? {
      StreamGrows(c.taken, chunk, h.at);
      assert [] + c.subs == c.subs;
      if box.value.open {
        var s := h.backlog + Outs(h.got + box.value.queue);
        assert s + [] == s;
      }
    }
  }

  lemma OneSendOther(c: Core, id: nat, h: Handler, box: Option<Mailbox>, sent: nat, ok: bool)
    requires HandlerOk(c, id, h, box) && c.task.Sending? && c.task.todo != [] && c.task.todo[0] == sent && sent != id
    ensures HandlerOk(c.(task := Sending(c.task.chunk, c.task.todo[1..]),
                         subs := c.subs + if ok then [sent] else []), id, h, box)
  {
    assert id in c.task.todo <==> id in c.task.todo[1..] by {
      assert c.task.todo == [sent] + c.task.todo[1..];
    }
  }

  lemma OneSendThis(c: Core, id: nat, h: Handler, box: Mailbox)
    requires HandlerOk(c, id, h, Some(box)) && c.task.Sending? && c.task.todo != [] && c.task.todo[0] == id
    requires NoDup(c.task.todo)
    ensures HandlerOk(c.(task := Sending(c.task.chunk, c.task.todo[1..]),
                         subs := c.subs + if box.open then [id] else []), id, h,
                      Some(if box.open then Mailbox(true, box.queue + [Output(c.task.chunk)]) else box))
  {
    assert id !in c.task.todo[1..];
    if box.open {
      LiveSend(c, id, h, box.queue);
    }
  }

  lemma LiveSend(c: Core, id: nat, h: Handler, queue: seq<SessionEvent>)
    requires h.at <= |c.taken| && LiveOk(c, id, h, queue)
    requires c.task.Sending? && c.task.todo != [] && c.task.todo[0] == id && id !in c.task.todo[1..]
    ensures LiveOk(c.(task := Sending(c.task.chunk, c.task.todo[1..]), subs := c.subs + [id]), id, h,
                   queue + [Output(c.task.chunk)])
  {
    var e, events := Output(c.task.chunk), h.got + queue;
    assert h.got + (queue + [e]) == events + [e];
    OutsAppend(events, [e]);
    OutsOne(e);
    Regroup(h.backlog, Outs(events), c.task.chunk, [], []);
    var s := h.backlog + Outs(events + [e]);
    assert s + [] == s;
  }

  lemma OneSendDone(c: Core, id: nat, h: Handler, box: Option<Mailbox>)
    requires HandlerOk(c, id, h, box) && c.task.Sending? && c.task.todo == []
    ensures HandlerOk(c.(task := Idle), id, h, box)
  {
    assert c.subs + [] == c.subs;
  }

  lemma OneTakeEof(c: Core, id: nat, h: Handler, box: Option<Mailbox>, code: Option<int>)
    requires HandlerOk(c, id, h, box) && c.task.Idle?
    ensures HandlerOk(c.(task := Ending(code, c.subs), dead := true), id, h, box)
  {
  }

  lemma OneEndOther(c: Core, id: nat, h: Handler, box: Option<Mailbox>)
    requires HandlerOk(c, id, h, box) && c.task.Ending? && c.task.todo != [] && c.task.todo[0] != id
    ensures HandlerOk(c.(task := Ending(c.task.code, c.task.todo[1..])), id, h, box)
  {
    assert id in c.task.todo <==> id in c.task.todo[1..] by {
      assert c.task.todo == [c.task.todo[0]] + c.task.todo[1..];
    }
  }

  lemma OneEndThis(c: Core, id: nat, h: Handler, box: Mailbox)
    requires HandlerOk(c, id, h, Some(box)) && c.task.Ending? && c.task.todo != [] && c.task.todo[0] == id
    requires NoDup(c.task.todo) && c.dead && c.taken == c.produced
    ensures HandlerOk(c.(task := Ending(c.task.code, c.task.todo[1..])), id, h,
                      Some(if box.open then Mailbox(true, box.queue + [Ended(c.task.code)]) else box))
  {
    assert id !in c.task.todo[1..];
    if box.open {
      LiveEnd(c, id, h, box.queue);
    }
  }

  lemma LiveEnd(c: Core, id: nat, h: Handler, queue: seq<SessionEvent>)
    requires h.at <= |c.taken| && LiveOk(c, id, h, queue) && c.dead && c.taken == c.produced
    requires c.task.Ending? && c.task.todo != [] && c.task.todo[0] == id && id !in c.task.todo[1..]
    ensures LiveOk(c.(task := Ending(c.task.code, c.task.todo[1..])), id, h, queue + [Ended(c.task.code)])
  {
    var e, events := Ended(c.task.code), h.got + queue;
    assert h.got + (queue + [e]) == events + [e];
    OutsAppend(events, [e]);
    OutsOne(e);
    assert Outs(events) + [] == Outs(events);
    assert !Ends(events);
    if events != [] {
      assert events[|events| - 1].Output?;
    }
  }

  lemma OneFinish(c: Core, id: nat, h: Handler, box: Option<Mailbox>)
    requires HandlerOk(c, id, h, box) && c.task.Ending? && c.task.todo == []
    ensures HandlerOk(c.(task := Finished, subs := []), id, h, box)
  {
  }

  /** Once nobody holds an inbox handle, nobody holds an event receiver. */
  lemma OneDrain(c: Core, id: nat, h: Handler, box: Option<Mailbox>, task: Task, subs: seq<nat>)
    requires HandlerOk(c, id, h, box) && !HoldsInbox(h)
    requires task.Draining? || (c.task.Draining? && task.Finished?)
    requires !c.task.Ending? && !c.task.Finished?
    ensures HandlerOk(c.(task := task, subs := subs), id, h, box)
  {
  }

  lemma OneSubscribed(c: Core, id: nat, h: Handler, ring: seq<byte>)
    requires HandlerOk(c, id, h, None) && c.task.Idle? && h.reply.Pending? && ring == LastN(c.taken, RING_BUFFER_BYTES)
    ensures HandlerOk(c.(subs := c.subs + [id]), id, h.(reply := Ready, backlog := ring, at := |c.taken|),
                      Some(Mailbox(true, [])))
  {
    StreamStarts(c.taken);
    assert h.got + [] == [];
    assert ring + [] == ring && ring + [] + [] == ring;
  }

  lemma OneOtherSubscribed(c: Core, id: nat, h: Handler, box: Option<Mailbox>, other: nat)
    requires HandlerOk(c, id, h, box) && c.task.Idle?
    ensures HandlerOk(c.(subs := c.subs + [other]), id, h, box)
  {
  }

  // ----- steps of the session task -----

  lemma KeepTakeChunk(w: World)
    requires Inv(w) && DoTakeChunk(w).Some?
    ensures Inv(DoTakeChunk(w).value)
  {
    var v := DoTakeChunk(w).value;
    var c := w.chunks[0];
    forall id | id in v.handlers ensures HandlerOk(v.core, id, v.handlers[id], Box(v, id)) {
      OneTakeChunk(w.core, id, w.handlers[id], Box(w, id), c);
    }
    TakeChunkKeepsFlow(w);
    ViewersKeep(w, v, c);
    SameGuards(w, v);
  }

  lemma TakeChunkKeepsFlow(w: World)
    requires FlowOk(w) && RosterOk(w) && DoTakeChunk(w).Some?
    ensures FlowOk(DoTakeChunk(w).value) && RosterOk(DoTakeChunk(w).value)
  {
    var v := DoTakeChunk(w).value;
    assert Roster(v.core) == Roster(w.core);
    LastNAppend(w.core.taken, w.chunks[0], RING_BUFFER_BYTES);
    Associates(w.core.taken, w.chunks[0], Concat(v.chunks));
  }

  /** A view answer stays right as more is taken. */
  lemma ViewersKeep(w: World, v: World, more: seq<byte>)
    requires ViewersOk(w) && v.viewers == w.viewers && v.core.taken == w.core.taken + more
    ensures ViewersOk(v)
  {
    forall k | k in v.viewers && v.viewers[k].answer.Some?
      ensures v.viewers[k].at <= |v.core.taken| && v.core.taken[..v.viewers[k].at] == w.core.taken[..v.viewers[k].at]
    {
    }
  }

  lemma SameGuards(w: World, v: World)
    requires Exclusive(w) && v.attached == w.attached && v.handlers == w.handlers
    ensures Exclusive(v)
  {
    assert forall h :: InGuard(v, h) == InGuard(w, h);
  }

  lemma KeepSendOne(w: World)
    requires Inv(w) && DoSendOne(w).Some?
    ensures Inv(DoSendOne(w).value)
  {
    var v := DoSendOne(w).value;
    var todo := w.core.task.todo;
    var sent := todo[0];
    forall id | id in v.handlers ensures HandlerOk(v.core, id, v.handlers[id], Box(v, id)) {
      if id == sent {
        assert HandlerOk(w.core, id, w.handlers[id], Box(w, id));
        OneSendThis(w.core, id, w.handlers[id], w.boxes[id]);
      } else {
        OneSendOther(w.core, id, w.handlers[id], Box(w, id), sent, CanSend(w.boxes, sent));
      }
    }
    RosterShrinks(w.core.subs, todo, CanSend(w.boxes, sent));
    SameGuards(w, v);
  }

  lemma RosterShrinks(subs: seq<nat>, todo: seq<nat>, keep: bool)
    requires NoDup(subs + todo) && todo != []
    ensures var r := (subs + if keep then [todo[0]] else []) + todo[1..];
            NoDup(r) && NoDup(todo[1..]) && forall id | id in r :: id in subs + todo
  {
    var all := subs + todo;
    var r := (subs + if keep then [todo[0]] else []) + todo[1..];
    if keep {
      assert r == all;
    } else {
      assert r == all[..|subs|] + all[|subs| + 1..];
    }
    forall i, j | 0 <= i < j < |todo| - 1 ensures todo[1..][i] != todo[1..][j] {
      assert all[|subs| + 1 + i] != all[|subs| + 1 + j];
    }
  }

  lemma KeepSendDone(w: World)
    requires Inv(w) && DoSendDone(w).Some?
    ensures Inv(DoSendDone(w).value)
  {
    var v := DoSendDone(w).value;
    forall id | id in v.handlers ensures HandlerOk(v.core, id, v.handlers[id], Box(v, id)) {
      OneSendDone(w.core, id, w.handlers[id], Box(w, id));
    }
    assert Roster(w.core) == w.core.subs;
    SameGuards(w, v);
  }

  lemma KeepSubscribed(w: World, h: nat)
    requires Inv(w) && w.core.task.Idle? && w.requests != [] && w.requests[0] == Subscribe(h)
    requires h in w.handlers && w.handlers[h].reply.Pending?
    ensures Inv(DoServeRequest(w).value)
  {
    var v := DoServeRequest(w).value;
    assert h !in w.boxes by { assert HandlerOk(w.core, h, w.handlers[h], Box(w, h)); }
    AllSubscribed(w, v, h);
    JoinsRoster(w, v, h);
    SameStages(w, v);
  }

  lemma AllSubscribed(w: World, v: World, h: nat)
    requires HandlersOk(w) && FlowOk(w) && w.core.task.Idle? && h in w.handlers && h !in w.boxes
    requires w.handlers[h].reply.Pending? && v.core == w.core.(subs := w.core.subs + [h])
    requires v.boxes == w.boxes[h := Mailbox(true, [])]
    requires v.handlers == w.handlers[h := w.handlers[h].(reply := Ready, backlog := w.ring, at := |w.core.taken|)]
    ensures HandlersOk(v)
  {
    forall id | id in v.handlers ensures HandlerOk(v.core, id, v.handlers[id], Box(v, id)) {
      if id == h {
        assert HandlerOk(w.core, h, w.handlers[h], Box(w, h));
        OneSubscribed(w.core, h, w.handlers[h], w.ring);
      } else {
        OneOtherSubscribed(w.core, id, w.handlers[id], Box(w, id), h);
      }
    }
  }

  lemma JoinsRoster(w: World, v: World, h: nat)
    requires RosterOk(w) && w.core.task.Idle? && h !in w.boxes
    requires v.core == w.core.(subs := w.core.subs + [h]) && v.boxes.Keys == w.boxes.Keys + {h}
    ensures RosterOk(v)
  {
  }

  lemma SameStages(w: World, v: World)
    requires Exclusive(w) && v.attached == w.attached && v.handlers.Keys == w.handlers.Keys
    requires forall h | h in w.handlers :: v.handlers[h].stage == w.handlers[h].stage
    ensures Exclusive(v)
  {
    assert forall k :: InGuard(v, k) == InGuard(w, k);
  }

  /** A step that changes neither handlers nor channels nor the session task. */
  lemma QuietStepKeeps(w: World, v: World)
    requires Inv(w) && v.core == w.core && v.handlers == w.handlers && v.boxes == w.boxes && v.attached == w.attached
    requires FlowOk(v) && DrainOk(v) && ViewersOk(v)
    ensures Inv(v)
  {
    SameGuards(w, v);
    forall id | id in v.handlers ensures HandlerOk(v.core, id, v.handlers[id], Box(v, id)) {
      assert HandlerOk(w.core, id, w.handlers[id], Box(w, id));
    }
  }

  lemma KeepSnapshot(w: World, k: nat)
    requires Inv(w) && w.core.task.Idle? && w.requests != [] && w.requests[0] == Snapshot(k)
    ensures Inv(DoServeRequest(w).value)
  {
    var v := DoServeRequest(w).value;
    AnswerIsRing(w, v);
    QuietStepKeeps(w, v);
  }

  lemma AnswerIsRing(w: World, v: World)
    requires FlowOk(w) && ViewersOk(w) && w.core.task.Idle? && v.core == w.core
    requires forall k | k in v.viewers && v.viewers[k].answer.Some? ::
               (k in w.viewers && v.viewers[k] == w.viewers[k])
               || (v.viewers[k].answer.value == w.ring && v.viewers[k].at == |w.core.taken|)
    ensures ViewersOk(v)
  {
    assert w.core.taken[..|w.core.taken|] == w.core.taken;
  }

  lemma KeepServeRequest(w: World)
    requires Inv(w) && DoServeRequest(w).Some?
    ensures Inv(DoServeRequest(w).value)
  {
    match w.requests[0] {
      case Subscribe(h) =>
        if h in w.handlers && w.handlers[h].reply.Pending? {
          KeepSubscribed(w, h);
        } else {
          QuietStepKeeps(w, DoServeRequest(w).value);
        }
      case Snapshot(k) => KeepSnapshot(w, k);
    }
  }

  lemma KeepTakeEof(w: World, status: Option<int>)
    requires Inv(w) && DoTakeEof(w, status).Some?
    ensures Inv(DoTakeEof(w, status).value)
  {
    var v := DoTakeEof(w, status).value;
    forall id | id in v.handlers ensures HandlerOk(v.core, id, v.handlers[id], Box(v, id)) {
      OneTakeEof(w.core, id, w.handlers[id], Box(w, id), ExitCode(status));
    }
    assert w.core.taken + Concat(w.chunks) == w.core.taken;
    SameGuards(w, v);
  }

  lemma KeepEndOne(w: World)
    requires Inv(w) && DoEndOne(w).Some?
    ensures Inv(DoEndOne(w).value)
  {
    var v := DoEndOne(w).value;
    forall id | id in v.handlers ensures HandlerOk(v.core, id, v.handlers[id], Box(v, id)) {
      if id == w.core.task.todo[0] {
        assert HandlerOk(w.core, id, w.handlers[id], Box(w, id));
        OneEndThis(w.core, id, w.handlers[id], w.boxes[id]);
      } else {
        OneEndOther(w.core, id, w.handlers[id], Box(w, id));
      }
    }
    SameGuards(w, v);
  }

  lemma KeepEndDone(w: World)
    requires Inv(w) && DoEndDone(w).Some?
    ensures Inv(DoEndDone(w).value)
  {
    var v := DoEndDone(w).value;
    forall id | id in v.handlers ensures HandlerOk(v.core, id, v.handlers[id], Box(v, id)) {
      OneFinish(w.core, id, w.handlers[id], Box(w, id));
    }
    SameGuards(w, v);
  }

  lemma KeepNoInboxes(w: World)
    requires Inv(w) && DoNoInboxes(w).Some?
    ensures Inv(DoNoInboxes(w).value)
  {
    var v := DoNoInboxes(w).value;
    forall id | id in v.handlers ensures HandlerOk(v.core, id, v.handlers[id], Box(v, id)) {
      OneDrain(w.core, id, w.handlers[id], Box(w, id), Draining, w.core.subs);
    }
    SameGuards(w, v);
  }

  lemma KeepDrainDone(w: World)
    requires Inv(w) && DoDrainDone(w).Some?
    ensures Inv(DoDrainDone(w).value)
  {
    var v := DoDrainDone(w).value;
    forall id | id in v.handlers ensures HandlerOk(v.core, id, v.handlers[id], Box(v, id)) {
      OneDrain(w.core, id, w.handlers[id], Box(w, id), Finished, []);
    }
    SameGuards(w, v);
  }

  /** More output or an earlier death mark changes nothing for a single handler. */
  lemma OneEarlier(c: Core, id: nat, h: Handler, box: Option<Mailbox>, dead: bool, more: seq<byte>)
    requires HandlerOk(c, id, h, box) && (c.dead ==> dead)
    requires more == [] || !(c.task.Ending? || c.task.Finished?)
    ensures HandlerOk(c.(dead := dead, produced := c.produced + more), id, h, box)
  {
    assert c.produced + [] == c.produced;
  }

  lemma KeepReadChunk(w: World, bytes: seq<byte>)
    requires Inv(w) && DoReadChunk(w, bytes).Some?
    ensures Inv(DoReadChunk(w, bytes).value)
  {
    var v := DoReadChunk(w, bytes).value;
    if w.core.task.Finished? {
      QuietStepKeeps(w, v);
    } else {
      ConcatOne(w.chunks, bytes);
      assert w.core.taken + (Concat(w.chunks) + bytes) == w.core.taken + Concat(w.chunks) + bytes;
      forall id | id in v.handlers ensures HandlerOk(v.core, id, v.handlers[id], Box(v, id)) {
        OneEarlier(w.core, id, w.handlers[id], Box(w, id), w.core.dead, bytes);
      }
      SameGuards(w, v);
    }
  }

  lemma KeepMarkDead(w: World)
    requires Inv(w)
    ensures Inv(w.(core := w.core.(dead := true)))
  {
    var v := w.(core := w.core.(dead := true));
    forall id | id in v.handlers ensures HandlerOk(v.core, id, v.handlers[id], Box(v, id)) {
      OneEarlier(w.core, id, w.handlers[id], Box(w, id), true, []);
      assert w.core.produced + [] == w.core.produced;
    }
    SameGuards(w, v);
  }

  // ----- steps of an attach handler -----

  lemma KeepNewAttach(w: World, h: nat)
    requires Inv(w) && DoNewAttach(w, h).Some?
    ensures Inv(DoNewAttach(w, h).value)
  {
    var v := DoNewAttach(w, h).value;
    StdoutNone();
    forall id | id in v.handlers ensures HandlerOk(v.core, id, v.handlers[id], Box(v, id)) {
      if id != h {
        assert HandlerOk(w.core, id, w.handlers[id], Box(w, id));
      }
    }
    assert forall k :: InGuard(v, k) == InGuard(w, k);
  }

  lemma StdoutNone()
    ensures StdoutBytes([]) == []
  {
  }

  lemma OneRefused(c: Core, id: nat, h: Handler, box: Option<Mailbox>)
    requires HandlerOk(c, id, h, box) && h.stage.Found?
    ensures HandlerOk(c, id, h.(stage := Refused, out := [FError]), box)
    ensures HandlerOk(c, id, h.(stage := Guarded), box)
  {
    StdoutOne(FError);
  }

  lemma OneLeaves(c: Core, id: nat, h: Handler, box: Option<Mailbox>)
    requires HandlerOk(c, id, h, box) && (h.stage.Deaf? || h.stage.Unguarded?)
    ensures HandlerOk(c, id, h.(stage := Unguarded), box)
    ensures HandlerOk(c, id, h.(stage := Gone), box)
  {
  }

  lemma OneAcked(c: Core, id: nat, h: Handler, box: Option<Mailbox>)
    requires HandlerOk(c, id, h, box) && h.stage.Guarded?
    ensures HandlerOk(c, id, h.(stage := Acked, out := [FOk]), box)
  {
    StdoutOne(FOk);
  }

  lemma OneAsks(c: Core, id: nat, h: Handler, box: Option<Mailbox>)
    requires HandlerOk(c, id, h, box) && h.stage.Acked?
    ensures HandlerOk(c, id, h.(stage := Waiting, reply := Pending), box)
  {
  }

  /** The session task is gone: the acknowledgement is followed by an error. */
  lemma OneOrphaned(c: Core, id: nat, h: Handler, box: Option<Mailbox>)
    requires HandlerOk(c, id, h, box) && c.task.Finished?
    requires h.stage.Acked? || (h.stage.Waiting? && !h.reply.Ready?)
    ensures HandlerOk(c, id, h.(stage := Unwinding, out := [FOk, FError]), box)
  {
    StdoutTwo(FOk, FError);
  }

  lemma OneReplays(c: Core, id: nat, h: Handler, box: Option<Mailbox>)
    requires HandlerOk(c, id, h, box) && h.stage.Waiting? && h.reply.Ready?
    ensures HandlerOk(c, id, h.(stage := Replaying, reply := Taken), box)
  {
  }

  lemma OneStreams(c: Core, id: nat, h: Handler, box: Option<Mailbox>)
    requires HandlerOk(c, id, h, box) && h.stage.Replaying?
    ensures HandlerOk(c, id, h.(stage := Streaming,
                                out := h.out + if h.backlog == [] then [] else [FStdout(h.backlog)]), box)
  {
    BacklogFrame(h.backlog);
    assert h.backlog + Outs(h.got) == h.backlog;
  }

  lemma BacklogFrame(backlog: seq<byte>)
    ensures StdoutBytes([FOk] + if backlog == [] then [] else [FStdout(backlog)]) == backlog
  {
    StdoutOne(FOk);
    StdoutOne(FStdout(backlog));
    StdoutAppend([FOk], [FStdout(backlog)]);
    assert [FOk] + [] == [FOk];
  }

  /** How the events still queued relate to the ones received, around one receive. */
  lemma RecvSplits(h: Handler, queue: seq<SessionEvent>, pend: seq<byte>)
    requires queue != []
    ensures var e, rest := queue[0], queue[1..];
            && h.got + [e] + rest == h.got + queue
            && (h.got + queue)[|h.got|] == e
            && h.backlog + Outs(h.got + [e]) == h.backlog + Outs(h.got) + (if e.Output? then e.bytes else [])
            && h.backlog + Outs(h.got + [e]) <= h.backlog + Outs(h.got + queue) + pend
  {
    var e, rest := queue[0], queue[1..];
    assert h.got + [e] + rest == h.got + queue;
    OutsAppend(h.got, [e]);
    OutsAppend(h.got + [e], rest);
    OutsOne(e);
    Regroup(h.backlog, Outs(h.got), Outs([e]), Outs(rest), pend);
  }

  lemma Regroup(a: seq<byte>, b: seq<byte>, c: seq<byte>, d: seq<byte>, e: seq<byte>)
    ensures a + (b + c) == a + b + c
    ensures a + (b + c) <= a + (b + c + d) + e
  {
    assert a + (b + c + d) + e == a + (b + c) + (d + e);
  }

  lemma OneRecvOutput(c: Core, id: nat, h: Handler, box: Mailbox)
    requires HandlerOk(c, id, h, Some(box)) && h.stage.Streaming? && box.queue != [] && box.queue[0].Output?
    ensures var e := box.queue[0];
            HandlerOk(c, id, h.(got := h.got + [e], out := h.out + [FStdout(e.bytes)]),
                      Some(box.(queue := box.queue[1..])))
  {
    var e := box.queue[0];
    BoxRecvOutput(c, id, h, box);
    OutRecvOutput(c, h, e, box.queue, Pend(c.task, id));
  }

  /** The channel's side: the event moves from the queue to the received ones. */
  lemma BoxRecvOutput(c: Core, id: nat, h: Handler, box: Mailbox)
    requires BoxOk(c, id, h, box) && box.open && h.stage.Streaming? && box.queue != [] && box.queue[0].Output?
    ensures var e := box.queue[0];
            BoxOk(c, id, h.(got := h.got + [e], out := h.out + [FStdout(e.bytes)]), box.(queue := box.queue[1..]))
  {
    RecvSplits(h, box.queue, Pend(c.task, id));
  }

  /** The client's side: the frame continues what it has been sent. */
  lemma OutRecvOutput(c: Core, h: Handler, e: SessionEvent, queue: seq<SessionEvent>, pend: seq<byte>)
    requires h.at <= |c.taken| && h.backlog + Outs(h.got + queue) + pend == Stream(c.taken, h.at)
    requires StdoutBytes(h.out) == h.backlog + Outs(h.got) && queue != [] && queue[0] == e && e.Output?
    ensures var out := h.out + [FStdout(e.bytes)];
            StdoutBytes(out) == h.backlog + Outs(h.got + [e]) && StdoutBytes(out) <= Stream(c.taken, h.at)
  {
    RecvSplits(h, queue, pend);
    StdoutAppend(h.out, [FStdout(e.bytes)]);
    StdoutOne(FStdout(e.bytes));
  }

  lemma OneRecvEnded(c: Core, id: nat, h: Handler, box: Mailbox)
    requires HandlerOk(c, id, h, Some(box)) && h.stage.Streaming? && box.queue != [] && box.queue[0].Ended?
    ensures var e := box.queue[0];
            HandlerOk(c, id, h.(stage := Unwinding, got := h.got + [e], out := h.out + [FEnded(e.code)]),
                      Some(box.(queue := box.queue[1..])))
  {
    var e := box.queue[0];
    RecvSplits(h, box.queue, Pend(c.task, id));
    assert h.got + box.queue == h.got + [e];
    StdoutAppend(h.out, [FEnded(e.code)]);
    StdoutOne(FEnded(e.code));
    var s := h.backlog + Outs(h.got);
    assert s + [] == s;
    assert s + [] + Pend(c.task, id) == s;
  }

  lemma OneNotSilent(c: Core, id: nat, h: Handler, box: Option<Mailbox>)
    requires HandlerOk(c, id, h, box) && h.stage.Streaming? && id !in Roster(c)
    ensures box.Some? && box.value.queue != []
  {
    assert h.got + [] == h.got;
  }

  /** The event channel of a streaming handler never closes without a final event. */
  lemma NeverSilentlyClosed(c: Core, id: nat, h: Handler, box: Option<Mailbox>)
    requires HandlerOk(c, id, h, box)
    ensures !SilentlyClosed(h, box, id !in Roster(c))
  {
    if h.stage.Streaming? && id !in Roster(c) {
      OneNotSilent(c, id, h, box);
    }
  }

  lemma OneDetaches(c: Core, id: nat, h: Handler, box: Option<Mailbox>)
    requires HandlerOk(c, id, h, box) && h.stage.Streaming?
    ensures HandlerOk(c, id, h.(stage := Unwinding, out := h.out + [FOk]), box)
  {
    StdoutAppend(h.out, [FOk]);
    StdoutOne(FOk);
    assert StdoutBytes(h.out) + [] == StdoutBytes(h.out);
  }

  lemma OneFails(c: Core, id: nat, h: Handler, box: Option<Mailbox>)
    requires HandlerOk(c, id, h, box)
    ensures h.stage.Found? || h.stage.Refused? ==> HandlerOk(c, id, h.(stage := Unguarded), box)
    ensures HoldsGuard(h.stage) && !h.stage.Deaf? ==> HandlerOk(c, id, h.(stage := Unwinding), box)
  {
  }

  lemma OneDeaf(c: Core, id: nat, h: Handler, box: Option<Mailbox>)
    requires HandlerOk(c, id, h, box) && h.stage.Unwinding?
    ensures HandlerOk(c, id, h.(stage := Deaf, reply := if h.reply.Pending? then Abandoned else h.reply),
                      if box.Some? then Some(box.value.(open := false)) else None)
  {
  }

  /** The state of handler `h` as its steps see it. */
  function LocalOf(w: World, h: nat): Local
    requires h in w.handlers
  {
    Local(w.handlers[h], Box(w, h), w.attached, false)
  }

  /** A step of a handler keeps the handler in order. */
  lemma StepKeepsHandler(c: Core, h: nat, l: Local, step: AttachStep)
    requires HandlerOk(c, h, l.x, l.box) && StepAttach(l, step, c.task.Finished?, h !in Roster(c)).Some?
    ensures var m := StepAttach(l, step, c.task.Finished?, h !in Roster(c)).value;
            HandlerOk(c, h, m.x, m.box) && (m.box.Some? <==> l.box.Some?)
  {
    match step {
      case CompareExchange => OneRefused(c, h, l.x, l.box);
      case WriteOk => OneAcked(c, h, l.x, l.box);
      case AskSubscribe => StepAsks(c, h, l);
      case AwaitReply => StepAwaits(c, h, l);
      case WriteBacklog => OneStreams(c, h, l.x, l.box);
      case RecvEvent => StepReceives(c, h, l);
      case RecvNone => NeverSilentlyClosed(c, h, l.x, l.box);
      case Detach => OneDetaches(c, h, l.x, l.box);
      case Fail => OneFails(c, h, l.x, l.box);
      case DropEvents => OneDeaf(c, h, l.x, l.box);
      case DropGuard => OneLeaves(c, h, l.x, l.box);
      case DropHandles => OneLeaves(c, h, l.x, l.box);
    }
  }

  lemma StepAsks(c: Core, h: nat, l: Local)
    requires HandlerOk(c, h, l.x, l.box) && l.x.stage.Acked?
    ensures var m := StepAttach(l, AskSubscribe, c.task.Finished?, h !in Roster(c)).value;
            HandlerOk(c, h, m.x, m.box)
  {
    if c.task.Finished? {
      OneOrphaned(c, h, l.x, l.box);
    } else {
      OneAsks(c, h, l.x, l.box);
    }
  }

  lemma StepAwaits(c: Core, h: nat, l: Local)
    requires HandlerOk(c, h, l.x, l.box) && StepAttach(l, AwaitReply, c.task.Finished?, h !in Roster(c)).Some?
    ensures var m := StepAttach(l, AwaitReply, c.task.Finished?, h !in Roster(c)).value;
            HandlerOk(c, h, m.x, m.box)
  {
    if l.x.reply.Ready? {
      OneReplays(c, h, l.x, l.box);
    } else {
      OneOrphaned(c, h, l.x, l.box);
    }
  }

  lemma StepReceives(c: Core, h: nat, l: Local)
    requires HandlerOk(c, h, l.x, l.box) && StepRecv(l).Some?
    ensures HandlerOk(c, h, StepRecv(l).value.x, StepRecv(l).value.box) && StepRecv(l).value.box.Some?
  {
    if l.box.value.queue[0].Output? {
      OneRecvOutput(c, h, l.x, l.box.value);
    } else {
      OneRecvEnded(c, h, l.x, l.box.value);
    }
  }

  /** A step of a handler takes the free flag, gives its own flag back, or leaves it alone. */
  lemma StepKeepsGuard(l: Local, step: AttachStep, finished: bool, gone: bool)
    requires StepAttach(l, step, finished, gone).Some? && (HoldsGuard(l.x.stage) ==> l.attached)
    ensures HoldsInbox(l.x)
    ensures var m := StepAttach(l, step, finished, gone).value;
            var held, holds := HoldsGuard(l.x.stage), HoldsGuard(m.x.stage);
            || (m.attached == l.attached && holds == held)
            || (!l.attached && m.attached && holds)
            || (held && !m.attached && !holds)
  {
  }

  lemma KeepAttach(w: World, h: nat, step: AttachStep)
    requires Inv(w) && DoAttach(w, h, step).Some?
    ensures Inv(DoAttach(w, h, step).value)
  {
    var l := LocalOf(w, h);
    assert HandlerOk(w.core, h, l.x, l.box);
    StepKeepsHandler(w.core, h, l, step);
    assert HoldsGuard(l.x.stage) ==> InGuard(w, h);
    StepKeepsGuard(l, step, w.core.task.Finished?, h !in Roster(w.core));
    var m := StepAttach(l, step, w.core.task.Finished?, h !in Roster(w.core)).value;
    SteppedHandlers(w, h, m);
    SteppedGuard(w, h, m);
    SteppedRest(w, h, m);
  }

  lemma SteppedHandlers(w: World, h: nat, m: Local)
    requires HandlersOk(w) && h in w.handlers && HandlerOk(w.core, h, m.x, m.box) && (m.box.Some? <==> h in w.boxes)
    ensures HandlersOk(Stepped(w, h, m))
  {
    var v := Stepped(w, h, m);
    forall id | id in v.handlers ensures HandlerOk(v.core, id, v.handlers[id], Box(v, id)) {
      if id != h {
        assert HandlerOk(w.core, id, w.handlers[id], Box(w, id));
      }
    }
  }

  lemma SteppedGuard(w: World, h: nat, m: Local)
    requires Exclusive(w) && h in w.handlers
    requires var held, holds := HoldsGuard(w.handlers[h].stage), HoldsGuard(m.x.stage);
             || (m.attached == w.attached && holds == held)
             || (!w.attached && m.attached && holds)
             || (held && !m.attached && !holds)
    ensures Exclusive(Stepped(w, h, m))
  {
    var v := Stepped(w, h, m);
    assert forall k | k != h :: InGuard(v, k) == InGuard(w, k);
    assert InGuard(v, h) == HoldsGuard(m.x.stage) && InGuard(w, h) == HoldsGuard(w.handlers[h].stage);
  }

  /** Nothing else changes, and while a handler holds an inbox handle the session task does
      not drain. */
  lemma SteppedRest(w: World, h: nat, m: Local)
    requires RosterOk(w) && FlowOk(w) && DrainOk(w) && ViewersOk(w)
    requires h in w.handlers && HoldsInbox(w.handlers[h]) && (m.box.Some? <==> h in w.boxes)
    ensures var v := Stepped(w, h, m);
            RosterOk(v) && FlowOk(v) && DrainOk(v) && ViewersOk(v)
  {
  }

  // ----- all steps -----

  /** The steps that write to nobody. */
  predicate Silent(a: Action) {
    && !a.NewAttach? && !a.Attach?
    && !a.TakeChunk? && !a.SendOne? && !a.ServeRequest? && !a.TakeEof? && !a.EndOne?
  }

  lemma SilentFrame(w: World, a: Action)
    requires Silent(a) && Do(w, a).Some?
    ensures var v := Do(w, a).value;
            && v.handlers == w.handlers && v.boxes == w.boxes && v.exit == w.exit && v.ring == w.ring
            && (v.core.subs == w.core.subs || v.core.subs == [])
  {
  }

  /** Views, the entry, and the reader's end: the session and its handlers do not change. */
  lemma KeepOther(w: World, v: World)
    requires Inv(w) && v.core == w.core && v.handlers == w.handlers && v.boxes == w.boxes && v.attached == w.attached
    requires v.ring == w.ring && (v.readerOpen ==> w.readerOpen)
    requires v.chunks == w.chunks || w.core.task.Draining?
    requires w.core.task.Draining? ==> v.entry == w.entry && v.requests == w.requests && v.viewers == w.viewers
    requires forall k | k in v.viewers && v.viewers[k].answer.Some? ::
               k in w.viewers && v.viewers[k].answer == w.viewers[k].answer && v.viewers[k].at == w.viewers[k].at
    ensures Inv(v)
  {
    assert FlowOk(v);
    assert DrainOk(v);
    assert ViewersOk(v);
    QuietStepKeeps(w, v);
  }

  lemma KeepQuiet(w: World, a: Action)
    requires Inv(w) && Do(w, a).Some? && (a.CloseReader? || a.Unlist? || a.DropEntry? || a.Discard?)
    ensures Inv(Do(w, a).value)
  {
    var v := Do(w, a).value;
    assert w.core.task.Draining? ==> v.entry == w.entry;
    KeepOther(w, v);
  }

  lemma KeepView(w: World, a: Action)
    requires Inv(w) && Do(w, a).Some? && (a.NewView? || a.EndView?)
    ensures Inv(Do(w, a).value)
  {
    var v := Do(w, a).value;
    assert !w.core.task.Draining?;
    KeepOther(w, v);
  }

  lemma StepKeepsInv(w: World, a: Action)
    requires Inv(w) && Do(w, a).Some?
    ensures Inv(Do(w, a).value)
  {
    match a {
      case ReadChunk(bytes) => KeepReadChunk(w, bytes);
      case MarkDead => KeepMarkDead(w);
      case TakeChunk => KeepTakeChunk(w);
      case SendOne => KeepSendOne(w);
      case SendDone => KeepSendDone(w);
      case ServeRequest => KeepServeRequest(w);
      case TakeEof(status) => KeepTakeEof(w, status);
      case EndOne => KeepEndOne(w);
      case EndDone => KeepEndDone(w);
      case NoInboxes => KeepNoInboxes(w);
      case DrainDone => KeepDrainDone(w);
      case NewAttach(h) => KeepNewAttach(w, h);
      case Attach(h, step) => KeepAttach(w, h, step);
      case NewView(_) => KeepView(w, a);
      case EndView(_) => KeepView(w, a);
      case _ => KeepQuiet(w, a);
    }
  }

  lemma {:induction false} RunKeepsInv(w: World, run: seq<Action>)
    requires Inv(w) && Run(w, run).Some?
    ensures Inv(Run(w, run).value)
    decreases |run|
  {
    if run == [] {
    } else {
      StepKeepsInv(w, run[0]);
      RunKeepsInv(Do(w, run[0]).value, run[1..]);
    }
  }

  lemma ReachableInv(w: World)
    requires ReachableWorld(w)
    ensures Inv(w)
  {
    var run: seq<Action> :| Run(INIT, run) == Some(w);
    RunKeepsInv(INIT, run);
  }
}
