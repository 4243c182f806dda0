/** When a view is answered, when an acknowledged attach still fails, and that a handler that
    stops makes room for the next one. */
module AttachReplies {
  import opened Bytes
  import opened Session
  import opened AttachProtocol
  import opened AttachProofs
  import opened AttachTheorems

  // ----- views -----

  /** No answer for `v` yet, and none to come: its request is not queued, or the session task
      has seen the end of the PTY. */
  predicate Lost(w: World, v: nat) {
    && (v in w.viewers ==> w.viewers[v].answer.None?)
    && (w.core.task.Ending? || w.core.task.Finished? || (v in w.viewers && Snapshot(v) !in w.requests))
  }

  lemma LostStays(w: World, a: Action, v: nat)
    requires Lost(w, v) && Do(w, a).Some?
    ensures Lost(Do(w, a).value, v)
  {
    match a {
      case ServeRequest => assert forall r | r in w.requests[1..] :: r in w.requests;
      case Attach(h, step) => AttachSendsNoSnapshot(w, h, step, v);
      case _ =>
    }
  }

  lemma AttachSendsNoSnapshot(w: World, h: nat, step: AttachStep, v: nat)
    requires DoAttach(w, h, step).Some?
    ensures var u := DoAttach(w, h, step).value;
            u.core == w.core && u.viewers == w.viewers && (Snapshot(v) in u.requests ==> Snapshot(v) in w.requests)
  {
  }

  lemma {:induction false} LostForever(w: World, run: seq<Action>, v: nat)
    requires Lost(w, v) && Run(w, run).Some?
    ensures Lost(Run(w, run).value, v)
    decreases |run|
  {
    if run == [] {
    } else {
      LostStays(w, run[0], v);
      LostForever(Do(w, run[0]).value, run[1..], v);
    }
  }

  /** Once the session task has seen the end of the PTY no view is ever answered, whether it
      was asked for before or after. */
  lemma NoViewAfterTheEnd(w: World, run: seq<Action>, v: nat)
    requires (w.core.task.Ending? || w.core.task.Finished?) && Run(w, run).Some?
    requires v in w.viewers ==> w.viewers[v].answer.None?
    ensures v in Run(w, run).value.viewers ==> Run(w, run).value.viewers[v].answer.None?
  {
    LostForever(w, run, v);
  }

  /** The run ends with an answer for `v`. */
  predicate Answers(w: World, run: seq<Action>, v: nat) {
    Run(w, run).Some? && v in Run(w, run).value.viewers && Run(w, run).value.viewers[v].answer.Some?
  }

  predicate Asking(w: World, v: nat) {
    v in w.viewers && w.viewers[v].busy && w.viewers[v].answer.None?
  }

  /** Serve the queue up to the request of `v`. */
  lemma {:induction false} ServeUpTo(w: World, v: nat) returns (run: seq<Action>)
    requires w.core.task.Idle? && Asking(w, v) && Snapshot(v) in w.requests
    ensures Answers(w, run, v)
    decreases |w.requests|
  {
    var u := Do(w, ServeRequest).value;
    if w.requests[0] == Snapshot(v) {
      run := [ServeRequest];
      assert run[0] == ServeRequest && run[1..] == [];
      assert Run(w, run) == Run(u, []);
    } else {
      assert w.requests == [w.requests[0]] + w.requests[1..];
      var rest := ServeUpTo(u, v);
      run := [ServeRequest] + rest;
      RunFirst(w, ServeRequest, rest);
    }
  }

  /** Finish the broadcast first, if there is one. */
  lemma AnswerRun(w: World, v: nat) returns (run: seq<Action>)
    requires (w.core.task.Idle? || w.core.task.Sending?) && Asking(w, v) && Snapshot(v) in w.requests
    ensures Answers(w, run, v)
  {
    if w.core.task.Idle? {
      run := ServeUpTo(w, v);
    } else {
      var todo := w.core.task.todo;
      var first := Repeat(SendOne, |todo|) + [SendDone];
      BroadcastRefines(w, todo);
      var rest := ServeUpTo(Run(w, first).value, v);
      RunAppend(w, first, rest);
      run := first + rest;
    }
  }

  /** A view that waits can still be answered exactly as long as the session task has not seen
      the end of the PTY. */
  lemma ViewIsAnswerable(w: World, v: nat)
    requires ReachableWorld(w) && Asking(w, v)
    ensures (exists run :: Answers(w, run, v)) <==> w.core.task.Idle? || w.core.task.Sending?
  {
    ReachableInv(w);
    NoRequestIsLost(w);
    if w.core.task.Idle? || w.core.task.Sending? {
      var run := AnswerRun(w, v);
    } else {
      forall run | Run(w, run).Some? ensures !Answers(w, run, v) {
        LostForever(w, run, v);
      }
    }
  }

  /** So a view of a listed agent, dead or not, can be answered exactly when it is asked for
      before the session task sees the end of the PTY. */
  lemma NewViewIsAnswerable(w: World, v: nat)
    requires ReachableWorld(w) && Do(w, NewView(v)).Some?
    ensures (exists run :: Answers(Do(w, NewView(v)).value, run, v)) <==>
            !w.core.task.Ending? && !w.core.task.Finished?
  {
    ReachableInv(w);
    Reaches(w, NewView(v));
    ViewIsAnswerable(Do(w, NewView(v)).value, v);
  }

  // ----- an acknowledged attach that fails -----

  /** An error after the first `Ok` means that the session task returned without serving the
      subscription. */
  lemma OkThenError(w: World, h: nat)
    requires ReachableWorld(w) && h in w.handlers && w.handlers[h].out == [FOk, FError]
    ensures w.core.task.Finished? && h !in w.boxes
  {
    ReachableInv(w);
    assert HandlerOk(w.core, h, w.handlers[h], Box(w, h));
  }

  /** Only the session's own steps: handlers keep waiting, and nobody is subscribed. */
  predicate SameHandlers(w: World, v: World) {
    v.handlers == w.handlers && v.boxes.Keys == w.boxes.Keys
  }

  lemma {:induction false} SendAllKeys(boxes: map<nat, Mailbox>, ids: seq<nat>, e: SessionEvent)
    ensures SendAll(boxes, ids, e).Keys == boxes.Keys
  {
    if ids == [] {
    } else {
      SendAllKeys(SendTo(boxes, ids[0], e), ids[1..], e);
    }
  }

  /** An idle session task can go through the rest of its chunks. */
  lemma {:induction false} TakeAll(w: World) returns (run: seq<Action>)
    requires w.core.task.Idle?
    ensures Run(w, run).Some? && SameHandlers(w, Run(w, run).value)
    ensures Run(w, run).value.core.task.Idle? && Run(w, run).value.chunks == []
    ensures Run(w, run).value.readerOpen == w.readerOpen
    decreases |w.chunks|
  {
    if w.chunks == [] {
      run := [];
    } else {
      var first := [TakeChunk] + (Repeat(SendOne, |w.core.subs|) + [SendDone]);
      TakeChunkRefines(w);
      SendAllKeys(w.boxes, w.core.subs, Output(w.chunks[0]));
      var rest := TakeAll(Run(w, first).value);
      RunAppend(w, first, rest);
      run := first + rest;
    }
  }

  lemma EndAll(w: World) returns (run: seq<Action>)
    requires w.core.task.Ending?
    ensures Run(w, run).Some? && SameHandlers(w, Run(w, run).value) && Run(w, run).value.core.task.Finished?
  {
    var todo := w.core.task.todo;
    EndRefines(w, todo);
    SendAllKeys(w.boxes, todo, Ended(w.core.task.code));
    run := Repeat(EndOne, |todo|) + [EndDone];
  }

  /** From an idle session task: the reader stops, the chunks are taken, the session ends. */
  lemma EndFromIdle(w: World) returns (run: seq<Action>)
    requires w.core.task.Idle?
    ensures Run(w, run).Some? && SameHandlers(w, Run(w, run).value) && Run(w, run).value.core.task.Finished?
  {
    var closed := Do(w, CloseReader).value;
    var take := TakeAll(closed);
    var taken := Run(closed, take).value;
    var end := EndAll(Do(taken, TakeEof(None)).value);
    RunFirst(taken, TakeEof(None), end);
    RunAppend(closed, take, [TakeEof(None)] + end);
    RunFirst(w, CloseReader, take + ([TakeEof(None)] + end));
    run := [CloseReader] + (take + ([TakeEof(None)] + end));
  }

  /** As long as it does not drain, the session can end without another request served. */
  lemma SessionCanEnd(w: World) returns (run: seq<Action>)
    requires !w.core.task.Draining?
    ensures Run(w, run).Some? && SameHandlers(w, Run(w, run).value) && Run(w, run).value.core.task.Finished?
  {
    match w.core.task {
      case Idle => run := EndFromIdle(w);
      case Sending(c, todo) =>
        var first := Repeat(SendOne, |todo|) + [SendDone];
        BroadcastRefines(w, todo);
        SendAllKeys(w.boxes, todo, Output(c));
        var rest := EndFromIdle(Run(w, first).value);
        RunAppend(w, first, rest);
        run := first + rest;
      case Ending(_, _) => run := EndAll(w);
      case Finished => run := [];
    }
  }

  /** Channels are never removed. */
  lemma BoxesStay(w: World, a: Action)
    requires Do(w, a).Some?
    ensures w.boxes.Keys <= Do(w, a).value.boxes.Keys
  {
    if Silent(a) {
      SilentFrame(w, a);
    }
  }

  lemma {:induction false} BoxesStayForever(w: World, run: seq<Action>)
    requires Run(w, run).Some?
    ensures w.boxes.Keys <= Run(w, run).value.boxes.Keys
    decreases |run|
  {
    if run == [] {
    } else {
      BoxesStay(w, run[0]);
      BoxesStayForever(Do(w, run[0]).value, run[1..]);
    }
  }

  /** The run ends with an error for `h` after its first `Ok`. */
  predicate EndsInError(w: World, run: seq<Action>, h: nat) {
    Run(w, run).Some? && h in Run(w, run).value.handlers && Run(w, run).value.handlers[h].out == [FOk, FError]
  }

  lemma ErrorRun(w: World, h: nat) returns (run: seq<Action>)
    requires Inv(w) && (At(w, h, Acked) || At(w, h, Waiting)) && h !in w.boxes
    ensures EndsInError(w, run, h)
  {
    assert HandlerOk(w.core, h, w.handlers[h], Box(w, h));
    var end := SessionCanEnd(w);
    var v := Run(w, end).value;
    var step := Attach(h, if At(w, h, Acked) then AskSubscribe else AwaitReply);
    RunAppend(w, end, [step]);
    RunFirst(v, step, []);
    assert [step] + [] == [step];
    run := end + [step];
  }

  /** An acknowledged attach can still fail exactly as long as its subscription has not been
      served. */
  lemma AttachCanFail(w: World, h: nat)
    requires ReachableWorld(w) && (At(w, h, Acked) || At(w, h, Waiting))
    ensures (exists run :: EndsInError(w, run, h)) <==> h !in w.boxes
  {
    ReachableInv(w);
    if h !in w.boxes {
      var run := ErrorRun(w, h);
    } else {
      forall run | Run(w, run).Some? ensures !EndsInError(w, run, h) {
        BoxesStayForever(w, run);
        ReachesRun(w, run);
        if EndsInError(w, run, h) {
          OkThenError(Run(w, run).value, h);
        }
      }
    }
  }

  // ----- no request is lost -----

  /** Whoever waits for a reply is queued, unless the session task has returned. */
  predicate WaitersQueued(w: World) {
    w.core.task.Finished? || (
      && (forall h | h in w.handlers && w.handlers[h].reply.Pending? :: Subscribe(h) in w.requests)
      && (forall v | v in w.viewers && Asking(w, v) :: Snapshot(v) in w.requests))
  }

  lemma ServeKeepsQueued(w: World)
    requires WaitersQueued(w) && DoServeRequest(w).Some?
    ensures WaitersQueued(DoServeRequest(w).value)
  {
    QueueTail(w.requests);
    match w.requests[0] {
      case Subscribe(h) => ServeSubscribeKeepsQueued(w, h);
      case Snapshot(v) =>
    }
  }

  lemma ServeSubscribeKeepsQueued(w: World, h: nat)
    requires WaitersQueued(w) && DoServeRequest(w).Some? && w.requests[0] == Subscribe(h)
    requires forall r | r in w.requests :: r == w.requests[0] || r in w.requests[1..]
    ensures WaitersQueued(DoServeRequest(w).value)
  {
  }

  lemma QueueTail(requests: seq<Request>)
    requires requests != []
    ensures forall r | r in requests :: r == requests[0] || r in requests[1..]
  {
    assert requests == [requests[0]] + requests[1..];
  }

  lemma AttachKeepsQueued(w: World, h: nat, step: AttachStep)
    requires WaitersQueued(w) && DoAttach(w, h, step).Some?
    ensures WaitersQueued(DoAttach(w, h, step).value)
  {
  }

  lemma StepKeepsQueued(w: World, a: Action)
    requires WaitersQueued(w) && Do(w, a).Some?
    ensures WaitersQueued(Do(w, a).value)
  {
    match a {
      case ServeRequest => ServeKeepsQueued(w);
      case Attach(h, step) => AttachKeepsQueued(w, h, step);
      case _ =>
    }
  }

  lemma {:induction false} RunKeepsQueued(w: World, run: seq<Action>)
    requires WaitersQueued(w) && Run(w, run).Some?
    ensures WaitersQueued(Run(w, run).value)
    decreases |run|
  {
    if run == [] {
    } else {
      StepKeepsQueued(w, run[0]);
      RunKeepsQueued(Do(w, run[0]).value, run[1..]);
    }
  }

  /** No request is lost: as long as the session task has not returned, every subscription and
      every view that is waited for is in its queue. */
  lemma NoRequestIsLost(w: World)
    requires ReachableWorld(w)
    ensures WaitersQueued(w)
  {
    var run: seq<Action> :| Run(INIT, run) == Some(w);
    RunKeepsQueued(INIT, run);
  }

  /** The run ends with the subscription of `h` served. */
  predicate Serves(w: World, run: seq<Action>, h: nat) {
    Run(w, run).Some? && h in Run(w, run).value.handlers && h in Run(w, run).value.boxes
    && Run(w, run).value.handlers[h].reply.Ready?
  }

  lemma {:induction false} ServeSubscriptionsUpTo(w: World, h: nat) returns (run: seq<Action>)
    requires w.core.task.Idle? && h in w.handlers && w.handlers[h].reply.Pending? && Subscribe(h) in w.requests
    ensures Serves(w, run, h)
    decreases |w.requests|
  {
    var u := Do(w, ServeRequest).value;
    QueueTail(w.requests);
    if w.requests[0] == Subscribe(h) {
      run := [ServeRequest] + [];
      RunFirst(w, ServeRequest, []);
    } else {
      var rest := ServeSubscriptionsUpTo(u, h);
      run := [ServeRequest] + rest;
      RunFirst(w, ServeRequest, rest);
    }
  }

  /** A subscription that waits can still be served as long as the session task has not seen the
      end of the PTY. */
  lemma SubscriptionCanBeServed(w: World, h: nat) returns (run: seq<Action>)
    requires ReachableWorld(w) && h in w.handlers && w.handlers[h].reply.Pending?
    requires w.core.task.Idle? || w.core.task.Sending?
    ensures Serves(w, run, h)
  {
    NoRequestIsLost(w);
    if w.core.task.Idle? {
      run := ServeSubscriptionsUpTo(w, h);
    } else {
      var todo := w.core.task.todo;
      var first := Repeat(SendOne, |todo|) + [SendDone];
      BroadcastRefines(w, todo);
      var rest := ServeSubscriptionsUpTo(Run(w, first).value, h);
      RunAppend(w, first, rest);
      run := first + rest;
    }
  }

  // ----- leaving -----

  /** `h` is gone, its flag is free, its receiver closed, and nobody else is affected. */
  predicate HasLeft(w: World, v: World, h: nat) {
    && h in v.handlers && v.handlers == w.handlers[h := v.handlers[h]] && v.handlers[h].stage.Gone?
    && !v.attached && v.entry == w.entry && v.core == w.core && v.boxes.Keys == w.boxes.Keys
    && (h in v.boxes ==> !v.boxes[h].open)
    && (forall k | k in w.boxes && k != h :: v.boxes[k] == w.boxes[k])
  }

  /** The flag is given back, then the inbox handles. */
  lemma DeafRun(w: World, h: nat) returns (run: seq<Action>)
    requires At(w, h, Deaf) && (h in w.boxes ==> !w.boxes[h].open)
    ensures Run(w, run).Some? && HasLeft(w, Run(w, run).value, h)
  {
    var b, c := Attach(h, DropGuard), Attach(h, DropHandles);
    var v := Do(w, b).value;
    RunFirst(v, c, []);
    RunFirst(w, b, [c] + []);
    run := [b] + ([c] + []);
  }

  /** Before that, the receiver is dropped. */
  lemma UnwindRun(w: World, h: nat) returns (run: seq<Action>)
    requires At(w, h, Unwinding)
    ensures Run(w, run).Some? && HasLeft(w, Run(w, run).value, h)
  {
    var a := Attach(h, DropEvents);
    var v := Do(w, a).value;
    var rest := DeafRun(v, h);
    RunFirst(w, a, rest);
    run := [a] + rest;
  }

  /** However an attached handler stops, and at whatever point, it can always give back the flag
      and go, without anybody's help. */
  lemma HandlerCanLeave(w: World, h: nat) returns (run: seq<Action>)
    requires ReachableWorld(w) && InGuard(w, h)
    ensures Run(w, run).Some? && HasLeft(w, Run(w, run).value, h)
  {
    if At(w, h, Deaf) {
      DeafHasNoReceiver(w, h);
      run := DeafRun(w, h);
    } else if At(w, h, Unwinding) {
      run := UnwindRun(w, h);
    } else {
      var v := Do(w, Attach(h, Fail)).value;
      var rest := UnwindRun(v, h);
      FailEffect(w, v, h);
      RunFirst(w, Attach(h, Fail), rest);
      run := [Attach(h, Fail)] + rest;
    }
  }

  lemma DeafHasNoReceiver(w: World, h: nat)
    requires ReachableWorld(w) && At(w, h, Deaf)
    ensures h in w.boxes ==> !w.boxes[h].open
  {
    ReachableInv(w);
    assert HandlerOk(w.core, h, w.handlers[h], Box(w, h));
  }

  lemma FailEffect(w: World, v: World, h: nat)
    requires InGuard(w, h) && Do(w, Attach(h, Fail)) == Some(v)
    ensures v.entry == w.entry && v.core == w.core && v.boxes == w.boxes
    ensures v.handlers == w.handlers[h := v.handlers[h]] && v.handlers[h].stage.Unwinding?
  {
  }

  /** So the next client can attach: a run leads from any attached client to another one. */
  lemma NextClientCanAttach(w: World, h: nat, k: nat) returns (run: seq<Action>)
    requires ReachableWorld(w) && InGuard(w, h) && w.entry.Listed? && k !in w.handlers
    ensures Run(w, run).Some? && InGuard(Run(w, run).value, k) && !InGuard(Run(w, run).value, h)
  {
    var leave := HandlerCanLeave(w, h);
    var v := Run(w, leave).value;
    var u := Do(v, NewAttach(k)).value;
    var next := Attach(k, CompareExchange);
    RunFirst(u, next, []);
    RunFirst(v, NewAttach(k), [next] + []);
    RunAppend(w, leave, [NewAttach(k)] + ([next] + []));
    run := leave + ([NewAttach(k)] + ([next] + []));
  }
}
