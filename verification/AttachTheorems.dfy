/** What the attach protocol promises, for every reachable state. */
module AttachTheorems {
  import opened Bytes
  import opened Session
  import opened AttachHistory
  import opened AttachProtocol
  import opened AttachProofs

  // ----- promises to a subscriber -----

  /** No gap and no duplicate at the seam between backlog and live output: while a handler
      has its event receiver, backlog and events, received or queued, plus what the running
      broadcast still owes it, are exactly the owed stream. */
  lemma NoGapNoDuplicate(w: World, h: nat)
    requires ReachableWorld(w) && h in w.boxes && w.boxes[h].open
    ensures h in w.handlers && w.handlers[h].at <= |w.core.taken|
    ensures var x := w.handlers[h];
            x.backlog + Outs(x.got + w.boxes[h].queue) + Pend(w.core.task, h) == Stream(w.core.taken, x.at)
  {
    ReachableInv(w);
    assert HandlerOk(w.core, h, w.handlers[h], Box(w, h));
  }

  /** Where the output owed to a subscriber starts: at most one ring before it joined. */
  function StartOf(at: nat): nat {
    if at <= RING_BUFFER_BYTES then 0 else at - RING_BUFFER_BYTES
  }

  /** Whatever a client has been sent, at any time, is an unbroken piece of the agent's output.
      It starts exactly one ring before the client subscribed, or with the first byte; a client
      that has not subscribed has been sent nothing. */
  lemma ClientSeesUnbrokenOutput(w: World, h: nat)
    requires ReachableWorld(w) && h in w.handlers
    ensures var x := w.handlers[h];
            var out, taken, start := StdoutBytes(x.out), w.core.taken, StartOf(x.at);
            if h in w.boxes then
              x.at <= |taken| && start + |out| <= |taken| && out == taken[start..start + |out|]
            else out == []
  {
    ReachableInv(w);
    var x, taken := w.handlers[h], w.core.taken;
    assert HandlerOk(w.core, h, x, Box(w, h));
    if h in w.boxes {
      StreamPiece(taken, x.at, StdoutBytes(x.out));
    }
  }

  lemma StreamPiece(taken: seq<byte>, at: nat, out: seq<byte>)
    requires at <= |taken| && out <= Stream(taken, at)
    ensures StartOf(at) + |out| <= |taken| && out == taken[StartOf(at)..StartOf(at) + |out|]
  {
    assert Stream(taken, at) == taken[StartOf(at)..];
    assert out == taken[StartOf(at)..][..|out|];
  }

  /** A subscriber's backlog is the last ring-full of the output before it joined. */
  lemma BacklogIsRing(w: World, h: nat)
    requires ReachableWorld(w) && h in w.boxes
    ensures h in w.handlers && w.handlers[h].at <= |w.core.taken|
    ensures w.handlers[h].backlog == LastN(w.core.taken[..w.handlers[h].at], RING_BUFFER_BYTES)
  {
    ReachableInv(w);
    assert HandlerOk(w.core, h, w.handlers[h], Box(w, h));
  }

  /** The end of the session comes last, once, after everything that was read from the PTY in
      the whole run, and not before the agent is marked dead. */
  lemma EndIsLastAndComplete(run: seq<Action>, h: nat)
    requires Run(INIT, run).Some? && h in Run(INIT, run).value.handlers
    requires EndsSession(Run(INIT, run).value.handlers[h].out)
    ensures var w := Run(INIT, run).value;
            && w.core.dead && w.handlers[h].at <= |ReadIn(run)|
            && StdoutBytes(w.handlers[h].out) == Stream(ReadIn(run), w.handlers[h].at)
  {
    var w := Run(INIT, run).value;
    ReachableInv(w);
    RunHistory(run);
    assert HandlerOk(w.core, h, w.handlers[h], Box(w, h));
  }

  /** While the session task serves, everything read is either in its history or still on its
      way to it, in order. */
  lemma ReadsAreTakenInOrder(run: seq<Action>)
    requires Run(INIT, run).Some?
    ensures var w := Run(INIT, run).value;
            w.core.task.Idle? || w.core.task.Sending? ==> ReadIn(run) == w.core.taken + Concat(w.chunks)
  {
    ReachableInv(Run(INIT, run).value);
    RunHistory(run);
  }

  /** The events of a subscriber: received and, while the receiver exists, queued. */
  function EventsOf(w: World, h: nat): seq<SessionEvent>
    requires h in w.handlers
  {
    w.handlers[h].got + if h in w.boxes && w.boxes[h].open then w.boxes[h].queue else []
  }

  /** An event stream, also that of a handler that has dropped its receiver, is output, then at
      most one end; an end implies the death mark and that everything produced was taken. */
  lemma EventsAreOutputThenEnd(w: World, h: nat, i: nat)
    requires ReachableWorld(w) && h in w.handlers && i < |EventsOf(w, h)| && EventsOf(w, h)[i].Ended?
    ensures i == |EventsOf(w, h)| - 1
    ensures w.core.dead && w.core.taken == w.core.produced
  {
    ReachableInv(w);
    assert HandlerOk(w.core, h, w.handlers[h], Box(w, h));
    assert w.handlers[h].got + [] == w.handlers[h].got;
  }

  /** Once the session task is over, an attached client still has the end of session coming. */
  lemma EndIsNeverLost(w: World, h: nat)
    requires ReachableWorld(w) && At(w, h, Streaming) && w.core.task.Finished?
    ensures h in w.boxes && Ends(w.handlers[h].got + w.boxes[h].queue)
    ensures w.boxes[h].queue != []
  {
    ReachableInv(w);
    assert HandlerOk(w.core, h, w.handlers[h], Box(w, h));
    assert w.handlers[h].got + [] == w.handlers[h].got;
  }

  // ----- exclusion and draining -----

  /** The flag is set exactly while one handler is between its compare-exchange and its
      guard drop, and there is never a second one. */
  lemma AttachIsExclusive(w: World)
    requires ReachableWorld(w)
    ensures w.attached <==> exists h :: InGuard(w, h)
    ensures forall h, k | InGuard(w, h) && InGuard(w, k) :: h == k
  {
    ReachableInv(w);
  }

  /** Receivers are dropped before the guard: at most one exists per agent. */
  lemma OneReceiverPerAgent(w: World, h: nat, k: nat)
    requires ReachableWorld(w)
    requires h in w.boxes && w.boxes[h].open && k in w.boxes && w.boxes[k].open
    ensures h == k && w.attached
  {
    ReachableInv(w);
    assert HandlerOk(w.core, h, w.handlers[h], Box(w, h));
    assert HandlerOk(w.core, k, w.handlers[k], Box(w, k));
    assert InGuard(w, h) && InGuard(w, k);
  }

  /** The session task does not discard output while anybody is attached or being attached. */
  lemma NoDrainWhileAttached(w: World)
    requires ReachableWorld(w) && (w.core.task.Draining? || Do(w, NoInboxes).Some?)
    ensures !w.attached
    ensures forall h | h in w.boxes :: !w.boxes[h].open
    ensures forall h | h in w.handlers :: w.handlers[h].stage.Gone?
    ensures w.entry.Dropped? && w.requests == [] && forall v | v in w.viewers :: !w.viewers[v].busy
  {
    ReachableInv(w);
    forall h | h in w.boxes ensures !w.boxes[h].open {
      assert HandlerOk(w.core, h, w.handlers[h], Box(w, h));
    }
  }

  /** The branch for a closed event channel is never taken. */
  lemma EventChannelNeverJustCloses(w: World, h: nat)
    requires ReachableWorld(w)
    ensures Do(w, Attach(h, RecvNone)).None?
  {
    ReachableInv(w);
    if h in w.handlers {
      NeverSilentlyClosed(w.core, h, w.handlers[h], Box(w, h));
    }
  }

  // ----- the transcript -----

  lemma TranscriptIsWellFormed(w: World, h: nat)
    requires ReachableWorld(w) && h in w.handlers
    ensures Transcript(w.handlers[h].out)
  {
    ReachableInv(w);
    assert HandlerOk(w.core, h, w.handlers[h], Box(w, h));
  }

  /** While one client is attached, another one is refused, and the first is not affected. */
  lemma SecondAttachIsRefused(w: World, h: nat, k: nat)
    requires ReachableWorld(w) && InGuard(w, k) && At(w, h, Found)
    ensures Do(w, Attach(h, CompareExchange)).Some?
    ensures var v := Do(w, Attach(h, CompareExchange)).value;
            && v.handlers[h].out == [FError] && v.handlers[h].stage == Refused
            && v.attached && v.handlers[k] == w.handlers[k] && v.boxes == w.boxes && v.core == w.core
  {
    AttachIsExclusive(w);
  }

  // ----- views -----

  /** A view answer is the last ring-full of the output at the moment it was served. */
  lemma ViewShowsRecentOutput(w: World, v: nat)
    requires ReachableWorld(w) && v in w.viewers && w.viewers[v].answer.Some?
    ensures w.viewers[v].at <= |w.core.taken|
    ensures w.viewers[v].answer.value == LastN(w.core.taken[..w.viewers[v].at], RING_BUFFER_BYTES)
  {
    ReachableInv(w);
  }

  /** A view that waits is answered with the last ring-full of the output so far. */
  lemma ViewIsServedNow(w: World, v: nat)
    requires ReachableWorld(w) && w.core.task.Idle? && w.requests != [] && w.requests[0] == Snapshot(v)
    requires v in w.viewers && w.viewers[v].busy
    ensures Do(w, ServeRequest).Some?
    ensures var x := Do(w, ServeRequest).value.viewers[v];
            x.at == |w.core.taken| && x.answer == Some(LastN(w.core.taken, RING_BUFFER_BYTES))
  {
    ReachableInv(w);
  }

  // ----- stale subscribers -----

  /** `h` has no receiver and is not, and will not be, among the subscribers. */
  predicate Forgotten(w: World, h: nat) {
    h in w.boxes && !w.boxes[h].open && h !in w.core.subs
  }

  lemma ForgottenStays(w: World, a: Action, h: nat)
    requires Inv(w) && Forgotten(w, h) && Do(w, a).Some?
    ensures Forgotten(Do(w, a).value, h)
  {
    ClosedHandler(w, h);
    ForgottenStep(w, a, h);
  }

  lemma ClosedHandler(w: World, h: nat)
    requires HandlersOk(w) && h in w.boxes && !w.boxes[h].open
    ensures h in w.handlers && !w.handlers[h].reply.Pending? && !w.handlers[h].stage.Streaming?
  {
    assert HandlerOk(w.core, h, w.handlers[h], Box(w, h));
  }

  lemma ForgottenStep(w: World, a: Action, h: nat)
    requires Forgotten(w, h) && Do(w, a).Some?
    requires h in w.handlers && !w.handlers[h].reply.Pending? && !w.handlers[h].stage.Streaming?
    ensures Forgotten(Do(w, a).value, h)
  {
    match a {
      case SendOne => assert !CanSend(w.boxes, h);
      case EndOne => assert !CanSend(w.boxes, h);
      case ServeRequest => ForgottenServe(w, h);
      case Attach(k, step) => ForgottenAttach(w, h, k, step);
      case TakeChunk =>
      case TakeEof(_) =>
      case NewAttach(_) =>
      case _ => SilentFrame(w, a);
    }
  }

  lemma ForgottenServe(w: World, h: nat)
    requires Forgotten(w, h) && DoServeRequest(w).Some? && h in w.handlers && !w.handlers[h].reply.Pending?
    ensures Forgotten(DoServeRequest(w).value, h)
  {
  }

  /** A handler's step never opens a channel. */
  lemma ForgottenAttach(w: World, h: nat, k: nat, step: AttachStep)
    requires Forgotten(w, h) && DoAttach(w, k, step).Some?
    ensures Forgotten(DoAttach(w, k, step).value, h)
  {
    var l := LocalOf(w, k);
    var m := StepAttach(l, step, w.core.task.Finished?, k !in Roster(w.core)).value;
    assert m.box == l.box || (m.box.Some? && l.box.Some? && (m.box.value.open ==> l.box.value.open));
  }

  lemma {:induction false} ForgottenForever(w: World, run: seq<Action>, h: nat)
    requires Inv(w) && Forgotten(w, h) && Run(w, run).Some?
    ensures Forgotten(Run(w, run).value, h)
    decreases |run|
  {
    if run == [] {
    } else {
      ForgottenStays(w, run[0], h);
      StepKeepsInv(w, run[0]);
      ForgottenForever(Do(w, run[0]).value, run[1..], h);
    }
  }

  /** A receiver dropped before a broadcast starts is out of the subscriber list whenever
      the session task is idle again, in every continuation. */
  lemma StaleSendersGo(w: World, h: nat, run: seq<Action>)
    requires ReachableWorld(w) && h in w.boxes && !w.boxes[h].open && Do(w, TakeChunk).Some?
    requires Run(Do(w, TakeChunk).value, run).Some?
    ensures var v := Run(Do(w, TakeChunk).value, run).value;
            v.core.task.Idle? ==> h !in Roster(v.core)
  {
    ReachableInv(w);
    StepKeepsInv(w, TakeChunk);
    ForgottenForever(Do(w, TakeChunk).value, run, h);
  }

  // ----- the sequential task refines its steps -----

  lemma {:induction false} RunAppend(w: World, a: seq<Action>, b: seq<Action>)
    requires Run(w, a).Some?
    ensures Run(w, a + b) == Run(Run(w, a).value, b)
    decreases |a|
  {
    if a == [] {
      assert a + b == b;
    } else {
      assert (a + b)[1..] == a[1..] + b;
      RunAppend(Do(w, a[0]).value, a[1..], b);
    }
  }

  lemma RunFirst(w: World, a: Action, rest: seq<Action>)
    requires Do(w, a).Some?
    ensures Run(w, [a] + rest) == Run(Do(w, a).value, rest)
  {
    assert ([a] + rest)[0] == a && ([a] + rest)[1..] == rest;
  }

  lemma ReachesRun(w: World, run: seq<Action>)
    requires ReachableWorld(w) && Run(w, run).Some?
    ensures ReachableWorld(Run(w, run).value)
  {
    var first: seq<Action> :| Run(INIT, first) == Some(w);
    RunAppend(INIT, first, run);
  }

  lemma Reaches(w: World, a: Action)
    requires ReachableWorld(w) && Do(w, a).Some?
    ensures ReachableWorld(Do(w, a).value)
  {
    RunFirst(w, a, []);
    assert [a] + [] == [a];
    ReachesRun(w, [a]);
  }

  function Repeat(a: Action, n: nat): seq<Action> {
    if n == 0 then [] else [a] + Repeat(a, n - 1)
  }

  /** Undisturbed, a broadcast does what `SessionTask.TakeChunk` does to the channels. */
  lemma {:induction false} BroadcastRefines(w: World, todo: seq<nat>)
    requires w.core.task.Sending? && w.core.task.todo == todo
    ensures Run(w, Repeat(SendOne, |todo|) + [SendDone]) ==
            Some(w.(boxes := SendAll(w.boxes, todo, Output(w.core.task.chunk)),
                    core := w.core.(task := Idle, subs := w.core.subs + Reachable(w.boxes, todo))))
    decreases |todo|
  {
    if todo == [] {
      RunFirst(w, SendDone, []);
      assert Repeat(SendOne, 0) + [SendDone] == [SendDone] + [];
      assert w.core.subs + [] == w.core.subs;
    } else {
      var v := Do(w, SendOne).value;
      var rest := Repeat(SendOne, |todo[1..]|) + [SendDone];
      RunFirst(w, SendOne, rest);
      assert Repeat(SendOne, |todo|) + [SendDone] == [SendOne] + rest;
      BroadcastRefines(v, todo[1..]);
      SendKeepsReachable(w.boxes, todo[0], Output(w.core.task.chunk), todo[1..]);
      var one := if CanSend(w.boxes, todo[0]) then [todo[0]] else [];
      assert w.core.subs + one + Reachable(w.boxes, todo[1..]) == w.core.subs + Reachable(w.boxes, todo);
    }
  }

  /** One chunk, from take to the last send: ring, history, channels and subscriber list. */
  lemma TakeChunkRefines(w: World)
    requires w.core.task.Idle? && w.chunks != []
    ensures var c, s := w.chunks[0], w.core.subs;
            Run(w, [TakeChunk] + (Repeat(SendOne, |s|) + [SendDone])) ==
            Some(w.(chunks := w.chunks[1..],
                    ring := LastN(w.ring + c, RING_BUFFER_BYTES),
                    boxes := SendAll(w.boxes, s, Output(c)),
                    core := w.core.(taken := w.core.taken + c, subs := Reachable(w.boxes, s))))
  {
    var s := w.core.subs;
    var v := Do(w, TakeChunk).value;
    RunFirst(w, TakeChunk, Repeat(SendOne, |s|) + [SendDone]);
    BroadcastRefines(v, s);
    assert [] + Reachable(w.boxes, s) == Reachable(w.boxes, s);
  }

  /** Serving a subscription does what `SessionTask.ServeSubscribe` does, whose demand that the
      subscriber is new is met in every reachable state. */
  lemma ServeSubscribeRefines(w: World, h: nat)
    requires ReachableWorld(w) && w.core.task.Idle? && w.requests != [] && w.requests[0] == Subscribe(h)
    requires h in w.handlers
    ensures Do(w, ServeRequest).Some?
    ensures var v, waiting := Do(w, ServeRequest).value, w.handlers[h].reply.Pending?;
            && (waiting ==> h !in w.boxes && v.handlers[h].at == |w.core.taken|
                            && v.handlers[h].backlog == w.ring == LastN(w.core.taken, RING_BUFFER_BYTES)
                            && v.core.subs == w.core.subs + [h] && v.boxes == w.boxes[h := Mailbox(true, [])])
            && (!waiting ==> v.core.subs == w.core.subs && v.boxes == w.boxes)
  {
    ReachableInv(w);
    assert HandlerOk(w.core, h, w.handlers[h], Box(w, h));
  }

  /** Undisturbed, the end of the session does what `SessionTask.EndSession` does. */
  lemma {:induction false} EndRefines(w: World, todo: seq<nat>)
    requires w.core.task.Ending? && w.core.task.todo == todo
    ensures Run(w, Repeat(EndOne, |todo|) + [EndDone]) ==
            Some(w.(boxes := SendAll(w.boxes, todo, Ended(w.core.task.code)), requests := [],
                    core := w.core.(task := Finished, subs := [])))
    decreases |todo|
  {
    if todo == [] {
      RunFirst(w, EndDone, []);
      assert Repeat(EndOne, 0) + [EndDone] == [EndDone] + [];
    } else {
      var rest := Repeat(EndOne, |todo[1..]|) + [EndDone];
      RunFirst(w, EndOne, rest);
      assert Repeat(EndOne, |todo|) + [EndDone] == [EndOne] + rest;
      EndRefines(Do(w, EndOne).value, todo[1..]);
    }
  }
}
