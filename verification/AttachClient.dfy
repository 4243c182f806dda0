/** The attach client's loop: it sends what its own threads queue and prints what the daemon
    sends, until something ends it. */
module AttachClient {
  import opened Bytes
  import opened DetachMatcher
  import opened Session
  import opened AttachProtocol
  import opened AttachProofs
  import opened AttachSample
  import opened AttachTheorems

  datatype AttachExit = Detached | SessionEnded(code: Option<int>) | Closed

  /** One turn of the loop. Outgoing messages are taken first when there are any, so every
      order of sends and reads can occur. When the local write of some output fails, `shown`
      bytes of it have been printed. */
  datatype Turn =
    | Send(m: ClientMsg, ok: bool)
    | Read(f: Frame)
    | PrintFails(bytes: seq<byte>, shown: nat)
    | ReadFails

  /** How the loop ended, if it has, what it printed, and the messages it tried to send. */
  datatype Progress = Progress(exit: Option<AttachExit>, printed: seq<byte>, tried: seq<ClientMsg>)

  function OneTurn(t: Turn): Progress {
    match t
    case Send(m, ok) => Progress(if ok then None else Some(Closed), [], [m])
    case Read(FStdout(bytes)) => Progress(None, bytes, [])
    case Read(FEnded(code)) => Progress(Some(SessionEnded(code)), [], [])
    case Read(FOk) => Progress(Some(Detached), [], [])
    case Read(FError) => Progress(Some(Closed), [], [])
    case PrintFails(bytes, shown) => Progress(Some(Closed), Take(bytes, shown), [])
    case ReadFails => Progress(Some(Closed), [], [])
  }

  /** What the loop makes of these turns. */
  function ClientRun(turns: seq<Turn>): Progress {
    if turns == [] then Progress(None, [], [])
    else
      var p := OneTurn(turns[0]);
      if p.exit.Some? then p
      else
        var q := ClientRun(turns[1..]);
        Progress(q.exit, p.printed + q.printed, p.tried + q.tried)
  }

  method StreamLoop(turns: seq<Turn>) returns (exit: Option<AttachExit>, printed: seq<byte>, tried: seq<ClientMsg>)
    ensures Progress(exit, printed, tried) == ClientRun(turns)
  {
    exit, printed, tried := None, [], [];
    var n := 0;
    ghost var all := ClientRun(turns);
    assert turns[0..] == turns;
    assert After([], [], all) == all;
    while n < |turns|
      invariant n <= |turns| && exit == None
      invariant all == After(printed, tried, ClientRun(turns[n..]))
    {
      AfterTurn(printed, tried, turns[n..]);
      assert turns[n..][1..] == turns[n + 1..];
      match turns[n] {
        case Send(m, ok) =>
          tried := tried + [m];
          if !ok {
            return Some(Closed), printed, tried;
          }
        case Read(FStdout(bytes)) =>
          printed := printed + bytes;
        case Read(FEnded(code)) =>
          return Some(SessionEnded(code)), printed, tried;
        case Read(FOk) =>
          return Some(Detached), printed, tried;
        case Read(FError) =>
          return Some(Closed), printed, tried;
        case PrintFails(bytes, shown) =>
          return Some(Closed), printed + Take(bytes, shown), tried;
        case ReadFails =>
          return Some(Closed), printed, tried;
      }
      n := n + 1;
    }
  }

  /** A result with what came before it. */
  function After(printed: seq<byte>, tried: seq<ClientMsg>, p: Progress): Progress {
    Progress(p.exit, printed + p.printed, tried + p.tried)
  }

  lemma AfterTurn(printed: seq<byte>, tried: seq<ClientMsg>, turns: seq<Turn>)
    requires turns != []
    ensures var p := OneTurn(turns[0]);
            After(printed, tried, ClientRun(turns)) ==
            if p.exit.Some? then After(printed, tried, p)
            else After(printed + p.printed, tried + p.tried, ClientRun(turns[1..]))
    ensures printed + [] == printed && tried + [] == tried
  {
    var p := OneTurn(turns[0]);
    if p.exit.None? {
      var q := ClientRun(turns[1..]);
      Associates(printed, p.printed, q.printed);
      Associates(tried, p.tried, q.tried);
    }
  }

  // ----- what the turns bring -----

  function FrameOf(t: Turn): seq<Frame> {
    match t
    case Read(f) => [f]
    case PrintFails(bytes, _) => [FStdout(bytes)]
    case _ => []
  }

  /** The frames read, in order. */
  function FramesOf(turns: seq<Turn>): seq<Frame> {
    if turns == [] then [] else FrameOf(turns[0]) + FramesOf(turns[1..])
  }

  /** The messages taken from the client's own threads, in order. */
  function Outgoing(turns: seq<Turn>): seq<ClientMsg> {
    if turns == [] then []
    else (if turns[0].Send? then [turns[0].m] else []) + Outgoing(turns[1..])
  }

  predicate Fails(t: Turn) {
    (t.Send? && !t.ok) || t.PrintFails? || t.ReadFails?
  }

  /** Neither a send, nor a read, nor a local write fails. */
  predicate Smooth(turns: seq<Turn>) {
    forall i | 0 <= i < |turns| :: !Fails(turns[i])
  }

  /** All of `frames` are read before anything fails. */
  predicate ReadsAll(turns: seq<Turn>, frames: seq<Frame>) {
    exists k | 0 <= k <= |turns| :: Smooth(turns[..k]) && FramesOf(turns[..k]) == frames
  }

  /** Only output, then possibly one other frame. */
  predicate OutputThenLast(frames: seq<Frame>) {
    forall i | 0 <= i < |frames| - 1 :: frames[i].FStdout?
  }

  predicate Final(f: Frame) {
    f.FOk? || f.FEnded?
  }

  function ExitFor(f: Frame): AttachExit
    requires Final(f)
  {
    if f.FOk? then Detached else SessionEnded(f.code)
  }

  predicate Reported(p: Progress) {
    p.exit.Some? && !p.exit.value.Closed?
  }

  /** Whatever is reported is the last frame, and what is printed is a start of the output, all
      of it when something is reported. */
  predicate Truthful(p: Progress, frames: seq<Frame>) {
    && p.printed <= StdoutBytes(frames)
    && (Reported(p) ==>
          && frames != [] && Final(frames[|frames| - 1])
          && p.exit == Some(ExitFor(frames[|frames| - 1]))
          && p.printed == StdoutBytes(frames))
  }

  lemma {:induction false} ReportsAreTrue(turns: seq<Turn>, frames: seq<Frame>)
    requires OutputThenLast(frames) && FramesOf(turns) <= frames
    ensures Truthful(ClientRun(turns), frames)
    decreases |turns|
  {
    if turns == [] {
    } else if FrameOf(turns[0]) == [] {
      assert FramesOf(turns) == FramesOf(turns[1..]);
      ReportsAreTrue(turns[1..], frames);
      NoOutputFirst(turns, frames);
    } else {
      FirstFrame(turns, frames);
      if frames[0].FStdout? {
        RestIsOutput(frames);
        ReportsAreTrue(turns[1..], frames[1..]);
        OutputFirst(turns, frames);
      } else {
        assert |frames| == 1;
        LastFirst(turns, frames);
      }
    }
  }

  lemma NoOutputFirst(turns: seq<Turn>, frames: seq<Frame>)
    requires turns != [] && FrameOf(turns[0]) == [] && Truthful(ClientRun(turns[1..]), frames)
    ensures Truthful(ClientRun(turns), frames)
  {
    var p, q := ClientRun(turns), ClientRun(turns[1..]);
    assert (p.exit == Some(Closed) && p.printed == []) || (p.exit == q.exit && p.printed == q.printed);
  }

  /** Output in front of a run that is in order. */
  lemma OutputFirst(turns: seq<Turn>, frames: seq<Frame>)
    requires turns != [] && frames != [] && frames[0].FStdout? && FrameOf(turns[0]) == [frames[0]]
    requires Truthful(ClientRun(turns[1..]), frames[1..])
    ensures Truthful(ClientRun(turns), frames)
  {
    var bytes := frames[0].bytes;
    if turns[0].Read? {
      PrefixAfter(bytes, ClientRun(turns[1..]).printed, StdoutBytes(frames[1..]));
    } else {
      PrefixAfter(Take(bytes, turns[0].shown), [], StdoutBytes(frames[1..]));
      assert Take(bytes, turns[0].shown) <= bytes;
    }
  }

  /** The last frame, when it is not output. */
  lemma LastFirst(turns: seq<Turn>, frames: seq<Frame>)
    requires turns != [] && |frames| == 1 && !frames[0].FStdout? && FrameOf(turns[0]) == [frames[0]]
    ensures Truthful(ClientRun(turns), frames)
  {
    StdoutOne(frames[0]);
    assert frames == [frames[0]];
  }

  lemma PrefixAfter<T>(a: seq<T>, b: seq<T>, c: seq<T>)
    requires b <= c
    ensures a + b <= a + c
  {
  }

  lemma FirstFrame(turns: seq<Turn>, frames: seq<Frame>)
    requires turns != [] && FrameOf(turns[0]) != [] && FramesOf(turns) <= frames
    ensures frames != [] && FrameOf(turns[0]) == [frames[0]] && FramesOf(turns[1..]) <= frames[1..]
  {
    assert FramesOf(turns) == FrameOf(turns[0]) + FramesOf(turns[1..]);
    assert FramesOf(turns)[0] == frames[0];
    assert FramesOf(turns)[1..] == FramesOf(turns[1..]);
  }

  lemma RestIsOutput(frames: seq<Frame>)
    requires frames != [] && OutputThenLast(frames)
    ensures OutputThenLast(frames[1..])
  {
    forall i | 0 <= i < |frames[1..]| - 1 ensures frames[1..][i].FStdout? {
      assert frames[i + 1].FStdout?;
    }
  }

  /** Everything read has been printed, and everything queued has been tried, up to a last frame,
      which is reported if it is a final one. */
  predicate UpToDate(p: Progress, frames: seq<Frame>, queued: seq<ClientMsg>) {
    && p.printed == StdoutBytes(frames)
    && (frames == [] || frames[|frames| - 1].FStdout? ==> p.exit == None && p.tried == queued)
    && (frames != [] && Final(frames[|frames| - 1]) ==> p.exit == Some(ExitFor(frames[|frames| - 1])))
  }

  /** As long as nothing fails, what has been printed after any turns, also while the loop is
      running, is exactly the output read so far. */
  lemma {:induction false} PrintsAtOnce(turns: seq<Turn>)
    requires Smooth(turns) && OutputThenLast(FramesOf(turns))
    ensures UpToDate(ClientRun(turns), FramesOf(turns), Outgoing(turns))
    decreases |turns|
  {
    if turns == [] {
    } else {
      assert !Fails(turns[0]);
      SmoothTail(turns);
      FramesTail(turns);
      PrintsAtOnce(turns[1..]);
      if turns[0].Send? {
        SendFirst(turns);
      } else if turns[0].f.FStdout? {
        OutputReadFirst(turns);
      } else {
        LastReadFirst(turns);
      }
    }
  }

  lemma FramesTail(turns: seq<Turn>)
    requires turns != [] && OutputThenLast(FramesOf(turns))
    ensures OutputThenLast(FramesOf(turns[1..]))
    ensures turns[0].Read? && !turns[0].f.FStdout? ==> FramesOf(turns[1..]) == []
  {
    var frames, rest := FramesOf(turns), FramesOf(turns[1..]);
    assert frames == FrameOf(turns[0]) + rest;
    if FrameOf(turns[0]) == [] {
      assert frames == rest;
    } else {
      assert frames[1..] == rest && frames[0] == FrameOf(turns[0])[0];
      RestIsOutput(frames);
    }
  }

  lemma SendFirst(turns: seq<Turn>)
    requires turns != [] && turns[0].Send? && turns[0].ok
    requires UpToDate(ClientRun(turns[1..]), FramesOf(turns[1..]), Outgoing(turns[1..]))
    ensures UpToDate(ClientRun(turns), FramesOf(turns), Outgoing(turns))
  {
    assert FramesOf(turns) == FramesOf(turns[1..]);
    var q := ClientRun(turns[1..]);
    assert [] + q.printed == q.printed;
  }

  lemma OutputReadFirst(turns: seq<Turn>)
    requires turns != [] && turns[0].Read? && turns[0].f.FStdout?
    requires UpToDate(ClientRun(turns[1..]), FramesOf(turns[1..]), Outgoing(turns[1..]))
    ensures UpToDate(ClientRun(turns), FramesOf(turns), Outgoing(turns))
  {
    var f, rest, q := turns[0].f, FramesOf(turns[1..]), ClientRun(turns[1..]);
    assert FramesOf(turns) == [f] + rest;
    StdoutAppend([f], rest);
    StdoutOne(f);
    assert ClientRun(turns) == Progress(q.exit, f.bytes + q.printed, [] + q.tried);
    assert [] + q.tried == q.tried && [] + Outgoing(turns[1..]) == Outgoing(turns[1..]);
  }

  lemma LastReadFirst(turns: seq<Turn>)
    requires turns != [] && turns[0].Read? && !turns[0].f.FStdout? && FramesOf(turns[1..]) == []
    ensures UpToDate(ClientRun(turns), FramesOf(turns), Outgoing(turns))
  {
    var f := turns[0].f;
    StdoutOne(f);
    assert FramesOf(turns) == [f];
  }

  lemma SmoothTail(turns: seq<Turn>)
    requires turns != [] && Smooth(turns)
    ensures Smooth(turns[1..])
  {
    forall i | 0 <= i < |turns[1..]| ensures !Fails(turns[1..][i]) {
      assert !Fails(turns[i + 1]);
    }
  }

  /** Once the loop has ended, later turns do not matter. */
  lemma {:induction false} EndIsFinal(turns: seq<Turn>, k: nat)
    requires k <= |turns| && ClientRun(turns[..k]).exit.Some?
    ensures ClientRun(turns) == ClientRun(turns[..k])
    decreases k
  {
    if k == 0 {
    } else {
      assert turns[..k][0] == turns[0] && turns[..k][1..] == turns[1..][..k - 1];
      if OneTurn(turns[0]).exit.None? {
        EndIsFinal(turns[1..], k - 1);
      }
    }
  }

  /** When everything is read before anything fails, the last frame is reported. */
  lemma SmoothReports(turns: seq<Turn>, k: nat, frames: seq<Frame>)
    requires k <= |turns| && Smooth(turns[..k]) && FramesOf(turns[..k]) == frames
    requires OutputThenLast(frames) && frames != [] && Final(frames[|frames| - 1])
    ensures ClientRun(turns).exit == Some(ExitFor(frames[|frames| - 1]))
  {
    PrintsAtOnce(turns[..k]);
    EndIsFinal(turns, k);
  }

  /** A client that reports has read everything before anything failed. */
  lemma {:induction false} ReportsReadAll(turns: seq<Turn>, frames: seq<Frame>) returns (k: nat)
    requires OutputThenLast(frames) && FramesOf(turns) <= frames && Reported(ClientRun(turns))
    ensures k <= |turns| && Smooth(turns[..k]) && FramesOf(turns[..k]) == frames
    decreases |turns|
  {
    var first, rest := turns[0], turns[1..];
    assert !Fails(first);
    if FrameOf(first) != [] {
      FirstFrame(turns, frames);
    }
    if first.Send? {
      assert FramesOf(turns) == FramesOf(rest);
      k := ReportsReadAll(rest, frames);
    } else if first.f.FStdout? {
      RestIsOutput(frames);
      k := ReportsReadAll(rest, frames[1..]);
    } else {
      assert |frames| == 1;
      k := 0;
      assert FramesOf([]) == frames[1..];
    }
    OneMore(turns, k);
    assert first.Read? ==> [frames[0]] + frames[1..] == frames;
    k := k + 1;
  }

  lemma OneMore(turns: seq<Turn>, k: nat)
    requires turns != [] && k <= |turns| - 1 && Smooth(turns[1..][..k]) && !Fails(turns[0])
    ensures Smooth(turns[..k + 1]) && FramesOf(turns[..k + 1]) == FrameOf(turns[0]) + FramesOf(turns[1..][..k])
  {
    assert turns[..k + 1] == [turns[0]] + turns[1..][..k];
    assert turns[..k + 1][1..] == turns[1..][..k];
  }

  // ----- against the daemon -----

  /** The turns bring frames that the daemon has sent to `h` after its first `Ok`. */
  predicate Serves(w: World, h: nat, turns: seq<Turn>) {
    && h in w.handlers && w.handlers[h].out != [] && w.handlers[h].out[0] == FOk
    && FramesOf(turns) <= w.handlers[h].out[1..]
  }

  lemma TranscriptTail(w: World, h: nat)
    requires ReachableWorld(w) && h in w.handlers && w.handlers[h].out != [] && w.handlers[h].out[0] == FOk
    ensures OutputThenLast(w.handlers[h].out[1..])
    ensures StdoutBytes(w.handlers[h].out[1..]) == StdoutBytes(w.handlers[h].out)
  {
    TranscriptIsWellFormed(w, h);
    var out := w.handlers[h].out;
    forall i | 0 <= i < |out[1..]| - 1 ensures out[1..][i].FStdout? {
      assert out[i + 1].FStdout?;
    }
    assert out == [FOk] + out[1..];
    StdoutAppend([FOk], out[1..]);
    StdoutOne(FOk);
  }

  /** Whatever fails and in whatever order: a client prints a start of the output it was sent;
      it reports a detach only for a second `Ok` and an end only for that frame, and then it
      has printed all of the output. */
  lemma ClientReportsTruthfully(w: World, h: nat, turns: seq<Turn>)
    requires ReachableWorld(w) && Serves(w, h, turns)
    ensures var out, p := w.handlers[h].out, ClientRun(turns);
            && p.printed <= StdoutBytes(out)
            && (p.exit == Some(Detached) ==> |out| > 1 && out[|out| - 1] == FOk)
            && (forall code | p.exit == Some(SessionEnded(code)) :: out[|out| - 1] == FEnded(code))
            && (Reported(p) ==> p.printed == StdoutBytes(out))
  {
    TranscriptTail(w, h);
    ReportsAreTrue(turns, w.handlers[h].out[1..]);
  }

  /** The client reports exactly when there is a last frame and the client reads it, and all
      before it, before any send, read or local write fails. */
  lemma ReportsIffNothingFails(w: World, h: nat, turns: seq<Turn>)
    requires ReachableWorld(w) && Serves(w, h, turns)
    ensures var frames := w.handlers[h].out[1..];
            Reported(ClientRun(turns)) <==>
            frames != [] && Final(frames[|frames| - 1]) && ReadsAll(turns, frames)
  {
    TranscriptTail(w, h);
    var frames := w.handlers[h].out[1..];
    if Reported(ClientRun(turns)) {
      ReportsAreTrue(turns, frames);
      var k := ReportsReadAll(turns, frames);
    }
    if frames != [] && Final(frames[|frames| - 1]) && ReadsAll(turns, frames) {
      var k: nat :| k <= |turns| && Smooth(turns[..k]) && FramesOf(turns[..k]) == frames;
      SmoothReports(turns, k, frames);
    }
  }

  /** After the handler has taken a detach, the client reports it, with all output printed,
      exactly when nothing fails before it has read the acknowledgement. */
  lemma DetachIsReported(w: World, h: nat, turns: seq<Turn>)
    requires ReachableWorld(w) && Do(w, Attach(h, AttachStep.Detach)).Some?
    requires Serves(Do(w, Attach(h, AttachStep.Detach)).value, h, turns)
    ensures var out := Do(w, Attach(h, AttachStep.Detach)).value.handlers[h].out;
            (ClientRun(turns).exit == Some(Detached) && ClientRun(turns).printed == StdoutBytes(out))
            <==> ReadsAll(turns, out[1..])
  {
    Reaches(w, Attach(h, AttachStep.Detach));
    var v := Do(w, Attach(h, AttachStep.Detach)).value;
    SentOkFirst(w, h);
    ReportsIffNothingFails(v, h, turns);
    ClientReportsTruthfully(v, h, turns);
  }

  /** The same for the end of the session and its exit code. */
  lemma EndIsReported(w: World, h: nat, code: Option<int>, turns: seq<Turn>)
    requires ReachableWorld(w) && Do(w, Attach(h, RecvEvent)).Some? && w.boxes[h].queue[0] == Ended(code)
    requires Serves(Do(w, Attach(h, RecvEvent)).value, h, turns)
    ensures var out := Do(w, Attach(h, RecvEvent)).value.handlers[h].out;
            (ClientRun(turns).exit == Some(SessionEnded(code)) && ClientRun(turns).printed == StdoutBytes(out))
            <==> ReadsAll(turns, out[1..])
  {
    Reaches(w, Attach(h, RecvEvent));
    var v := Do(w, Attach(h, RecvEvent)).value;
    SentOkFirst(w, h);
    ReportsIffNothingFails(v, h, turns);
    ClientReportsTruthfully(v, h, turns);
  }

  lemma SentOkFirst(w: World, h: nat)
    requires ReachableWorld(w) && At(w, h, Streaming)
    ensures w.handlers[h].out != [] && w.handlers[h].out[0] == FOk
  {
    ReachableInv(w);
    assert HandlerOk(w.core, h, w.handlers[h], Box(w, h));
  }

  /** A session that ended properly, and a client that reports a lost connection and prints
      nothing: a queued message is sent first, and fails. */
  lemma FailedSendHidesTheEnd(m: ClientMsg, rest: seq<Turn>) returns (w: World)
    requires FramesOf(rest) == [FStdout([1]), FStdout([2]), FEnded(Some(0))]
    ensures ReachableWorld(w) && Serves(w, 0, [Send(m, false)] + rest) && EndsSession(w.handlers[0].out)
    ensures ClientRun([Send(m, false)] + rest) == Progress(Some(Closed), [], [m])
    ensures ClientRun([Send(m, true)] + rest).exit == ClientRun(rest).exit
  {
    w := SampleSession();
    assert ([Send(m, false)] + rest)[1..] == rest && ([Send(m, true)] + rest)[1..] == rest;
    assert w.handlers[0].out[1..] == [FStdout([1]), FStdout([2]), FEnded(Some(0))];
  }

  // ----- what the client sends -----

  /** The messages tried are the first ones that the client's threads queued. */
  lemma {:induction false} TriedIsOutgoing(turns: seq<Turn>)
    ensures ClientRun(turns).tried <= Outgoing(turns)
  {
    if turns == [] {
    } else {
      TriedIsOutgoing(turns[1..]);
      TriedFirst(turns[0], ClientRun(turns[1..]).tried, Outgoing(turns[1..]));
    }
  }

  lemma TriedFirst(t: Turn, tried: seq<ClientMsg>, queued: seq<ClientMsg>)
    requires tried <= queued
    ensures OneTurn(t).tried == if t.Send? then [t.m] else []
    ensures OneTurn(t).tried <= OneTurn(t).tried + queued
    ensures OneTurn(t).tried + tried <= OneTurn(t).tried + queued
  {
    PrefixAfter(OneTurn(t).tried, tried, queued);
  }
}
