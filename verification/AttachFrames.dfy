/** What single frames carry: how large output frames get, and which exit code is reported. */
module AttachFrames {
  import opened Bytes
  import opened Session
  import opened AttachHistory
  import opened AttachProtocol
  import opened AttachProofs
  import opened AttachTheorems
  import Framing

  /** Output is a single read; an end carries the reported exit code. */
  predicate EventOk(exit: Option<Option<int>>, e: SessionEvent) {
    match e
    case Output(bytes) => |bytes| <= READ_BYTES
    case Ended(code) => exit == Some(code)
  }

  predicate EventsFit(exit: Option<Option<int>>, queue: seq<SessionEvent>) {
    forall i | 0 <= i < |queue| :: EventOk(exit, queue[i])
  }

  /** The backlog is the second frame, if there is one; all others hold a single read. */
  predicate FrameOk(exit: Option<Option<int>>, backlog: seq<byte>, i: nat, f: Frame) {
    match f
    case FStdout(bytes) => |bytes| <= READ_BYTES || (i == 1 && bytes == backlog)
    case FEnded(code) => exit == Some(code)
    case _ => true
  }

  predicate FramesFit(exit: Option<Option<int>>, x: Handler) {
    && |x.backlog| <= RING_BUFFER_BYTES
    && (x.reply.Unasked? || x.reply.Pending? ==> x.backlog == [])
    && forall i | 0 <= i < |x.out| :: FrameOk(exit, x.backlog, i, x.out[i])
  }

  predicate TaskOk(w: World) {
    && (forall i | 0 <= i < |w.chunks| :: |w.chunks[i]| <= READ_BYTES)
    && (w.core.task.Sending? ==> |w.core.task.chunk| <= READ_BYTES)
    && (w.core.task.Ending? ==> w.exit == Some(w.core.task.code))
    && (w.exit.Some? ==> w.core.task.Ending? || w.core.task.Finished?)
    && (w.exit.Some? ==> w.exit.value.Some?)
    && |w.ring| <= RING_BUFFER_BYTES
  }

  predicate BoxesFit(w: World) {
    forall id | id in w.boxes :: EventsFit(w.exit, w.boxes[id].queue)
  }

  predicate HandlersFit(w: World) {
    forall id | id in w.handlers :: FramesFit(w.exit, w.handlers[id])
  }

  predicate Fits(w: World) {
    TaskOk(w) && BoxesFit(w) && HandlersFit(w)
  }

  // ----- steps -----

  /** A handler step changes one handler and takes at most one event. */
  lemma AttachFits(w: World, h: nat, step: AttachStep)
    requires Inv(w) && Fits(w) && DoAttach(w, h, step).Some?
    ensures Fits(DoAttach(w, h, step).value)
  {
    var l := LocalOf(w, h);
    assert FramesFit(w.exit, l.x) && (l.box.Some? ==> EventsFit(w.exit, l.box.value.queue));
    StagesFit(w, h);
    LocalFits(w.exit, l, step, w.core.task.Finished?, h !in Roster(w.core));
    SteppedFits(w, h, StepAttach(l, step, w.core.task.Finished?, h !in Roster(w.core)).value);
  }

  lemma StagesFit(w: World, h: nat)
    requires Inv(w) && h in w.handlers
    ensures w.handlers[h].stage.Replaying? ==> w.handlers[h].out == [FOk]
    ensures w.handlers[h].stage.Acked? ==> w.handlers[h].reply.Unasked?
  {
    assert HandlerOk(w.core, h, w.handlers[h], Box(w, h));
  }

  lemma SteppedFits(w: World, h: nat, m: Local)
    requires Fits(w) && FramesFit(w.exit, m.x)
    requires m.box.Some? ==> EventsFit(w.exit, m.box.value.queue)
    ensures Fits(Stepped(w, h, m))
  {
  }

  lemma LocalFits(exit: Option<Option<int>>, l: Local, step: AttachStep, finished: bool, gone: bool)
    requires StepAttach(l, step, finished, gone).Some?
    requires (l.x.stage.Replaying? ==> l.x.out == [FOk]) && (l.x.stage.Acked? ==> l.x.reply.Unasked?)
    requires FramesFit(exit, l.x) && (l.box.Some? ==> EventsFit(exit, l.box.value.queue))
    ensures var m := StepAttach(l, step, finished, gone).value;
            && FramesFit(exit, m.x)
            && (m.box.Some? ==> EventsFit(exit, m.box.value.queue))
  {
    if step.RecvEvent? {
      RecvFits(exit, l);
    }
  }

  lemma RecvFits(exit: Option<Option<int>>, l: Local)
    requires StepRecv(l).Some? && FramesFit(exit, l.x) && EventsFit(exit, l.box.value.queue)
    ensures var m := StepRecv(l).value;
            FramesFit(exit, m.x) && m.box.Some? && EventsFit(exit, m.box.value.queue)
  {
    assert EventOk(exit, l.box.value.queue[0]);
  }

  lemma TakeChunkFits(w: World)
    requires Fits(w) && DoTakeChunk(w).Some?
    ensures Fits(DoTakeChunk(w).value)
  {
  }

  lemma SendOneFits(w: World)
    requires Fits(w) && DoSendOne(w).Some?
    ensures Fits(DoSendOne(w).value)
  {
  }

  lemma RequestFits(w: World)
    requires Fits(w) && DoServeRequest(w).Some?
    ensures Fits(DoServeRequest(w).value)
  {
  }

  /** Before the end of the PTY nobody has been told about the end. */
  lemma TakeEofFits(w: World, status: Option<int>)
    requires Fits(w) && DoTakeEof(w, status).Some?
    ensures Fits(DoTakeEof(w, status).value)
  {
  }

  lemma EndOneFits(w: World)
    requires Fits(w) && DoEndOne(w).Some?
    ensures Fits(DoEndOne(w).value)
  {
  }

  lemma SilentTask(w: World, a: Action)
    requires TaskOk(w) && Silent(a) && Do(w, a).Some?
    ensures TaskOk(Do(w, a).value)
  {
  }

  lemma StepFits(w: World, a: Action)
    requires Inv(w) && Fits(w) && Do(w, a).Some?
    ensures Fits(Do(w, a).value)
  {
    match a {
      case Attach(h, step) => AttachFits(w, h, step);
      case TakeChunk => TakeChunkFits(w);
      case SendOne => SendOneFits(w);
      case ServeRequest => RequestFits(w);
      case TakeEof(status) => TakeEofFits(w, status);
      case EndOne => EndOneFits(w);
      case NewAttach(h) =>
        SteppedFits(w, h, Local(Handler(Found, Unasked, [], 0, [], []), None, w.attached, false));
      case _ =>
        SilentFrame(w, a);
        SilentTask(w, a);
    }
  }

  lemma {:induction false} RunFits(w: World, run: seq<Action>)
    requires Inv(w) && Fits(w) && Run(w, run).Some?
    ensures Fits(Run(w, run).value)
    decreases |run|
  {
    if run == [] {
    } else {
      StepFits(w, run[0]);
      StepKeepsInv(w, run[0]);
      RunFits(Do(w, run[0]).value, run[1..]);
    }
  }

  /** Every output frame is the backlog, which is at most one ring, or at most one read; with a
      codec that adds at most 16 MiB less 64 KiB they all fit. */
  lemma StdoutFits(w: World, h: nat, i: nat, overhead: nat)
    requires ReachableWorld(w) && h in w.handlers && i < |w.handlers[h].out| && w.handlers[h].out[i].FStdout?
    ensures var bytes := w.handlers[h].out[i].bytes;
            && |bytes| <= RING_BUFFER_BYTES
            && (|bytes| > READ_BYTES ==> i == 1 && bytes == w.handlers[h].backlog)
            && (overhead <= Framing.MAX_FRAME_LEN - RING_BUFFER_BYTES ==> |bytes| + overhead <= Framing.MAX_FRAME_LEN)
  {
    ReachableFits(w);
    var x := w.handlers[h];
    assert FramesFit(w.exit, x) && FrameOk(w.exit, x.backlog, i, x.out[i]);
  }

  /** An attached client has been sent an output frame above 16 KiB exactly when the agent had
      written more than that before the client subscribed and anything has been sent after the
      first `Ok`. */
  lemma AttachAboveCap(w: World, h: nat)
    requires ReachableWorld(w) && h in w.handlers
    ensures var x := w.handlers[h];
            (exists i | 0 <= i < |x.out| :: x.out[i].FStdout? && |x.out[i].bytes| > 16384) <==>
            h in w.boxes && x.at > 16384 && |x.out| > 1
  {
    var x := w.handlers[h];
    forall i | 0 <= i < |x.out| && x.out[i].FStdout? && |x.out[i].bytes| > 16384
      ensures i == 1 && x.out[i].bytes == x.backlog && h in w.boxes
    {
      StdoutFits(w, h, i, 0);
      BacklogNeedsChannel(w, h);
    }
    if h in w.boxes {
      BacklogIsRing(w, h);
      SentBacklog(w, h);
      assert |x.backlog| > 16384 <==> x.at > 16384;
      assert |x.backlog| > 16384 && |x.out| > 1 ==> x.out[1].FStdout?;
    }
  }

  lemma BacklogNeedsChannel(w: World, h: nat)
    requires ReachableWorld(w) && h in w.handlers && w.handlers[h].backlog != []
    ensures h in w.boxes
  {
    ReachableInv(w);
    assert HandlerOk(w.core, h, w.handlers[h], Box(w, h));
  }

  /** The first frame after the first `Ok` is the backlog, unless that is empty. */
  lemma SentBacklog(w: World, h: nat)
    requires ReachableWorld(w) && h in w.boxes
    ensures h in w.handlers
    ensures var x := w.handlers[h]; x.backlog != [] && |x.out| > 1 ==> x.out[1] == FStdout(x.backlog)
  {
    ReachableInv(w);
    assert HandlerOk(w.core, h, w.handlers[h], Box(w, h));
  }

  /** A view is answered in one frame of at most one ring, above 16 KiB exactly when the agent
      has written more than that. */
  lemma ViewAboveCap(w: World, v: nat, overhead: nat)
    requires ReachableWorld(w) && v in w.viewers && w.viewers[v].answer.Some?
    ensures var bytes := w.viewers[v].answer.value;
            && |bytes| <= RING_BUFFER_BYTES
            && (|bytes| > 16384 <==> w.viewers[v].at > 16384)
            && (overhead <= Framing.MAX_FRAME_LEN - RING_BUFFER_BYTES ==> |bytes| + overhead <= Framing.MAX_FRAME_LEN)
  {
    ViewShowsRecentOutput(w, v);
  }

  /** Every client that is told about the end is told what polling the child told at the end of
      the PTY: its exit code, or zero if there was none. */
  lemma EndTellsExitCode(run: seq<Action>, h: nat)
    requires Run(INIT, run).Some? && h in Run(INIT, run).value.handlers
    requires EndsSession(Run(INIT, run).value.handlers[h].out)
    ensures var out := Run(INIT, run).value.handlers[h].out;
            && SawEof(run)
            && (forall c | TakeEof(Some(c)) in run :: out[|out| - 1] == FEnded(Some(c)))
            && (TakeEof(None) in run ==> out[|out| - 1] == FEnded(Some(0)))
  {
    var w := Run(INIT, run).value;
    RunHistory(run);
    ReachableFits(w);
    var out := w.handlers[h].out;
    assert FramesFit(w.exit, w.handlers[h]) && FrameOk(w.exit, w.handlers[h].backlog, |out| - 1, out[|out| - 1]);
  }

  lemma ReachableFits(w: World)
    requires ReachableWorld(w)
    ensures Fits(w)
  {
    var run: seq<Action> :| Run(INIT, run) == Some(w);
    RunFits(INIT, run);
  }
}
