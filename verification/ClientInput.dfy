/** Keystrokes end to end: from the terminal reads of an attached client, through its
    message channel and the attach handler, to the PTY. */
module ClientInput {
  import opened Bytes
  import opened DetachMatcher
  import AttachClient
  import DetachKey
  import Framing
  import PtyInput

  // ----- the handler's side -----

  /** The payloads a handler passes to the PTY, message by message, until a detach. */
  function Submitted(wire: seq<ClientMsg>): seq<seq<byte>> {
    if wire == [] then []
    else match wire[0]
      case Stdin(bytes) => [bytes] + Submitted(wire[1..])
      case Resize(_, _) => Submitted(wire[1..])
      case Detach => []
  }

  lemma {:induction false} SubmittedAppend(a: seq<ClientMsg>, m: ClientMsg)
    requires Detach !in a
    ensures Submitted(a + [m]) == Submitted(a) + if m.Stdin? then [m.bytes] else []
  {
    if a == [] {
      assert [m][1..] == [];
    } else {
      assert (a + [m])[1..] == a[1..] + [m];
      SubmittedAppend(a[1..], m);
    }
  }

  /** The client half of the attach handler's loop: payloads in order, and whether a detach
      was acknowledged. `wire` ends where the connection or the session does. */
  method HandleClient(wire: seq<ClientMsg>) returns (payloads: seq<seq<byte>>, acked: bool)
    ensures payloads == Submitted(wire)
    ensures acked <==> Detach in wire
  {
    payloads, acked := [], false;
    var n := 0;
    while n < |wire|
      invariant n <= |wire|
      invariant Detach !in wire[..n]
      invariant payloads == Submitted(wire[..n])
    {
      assert wire[..n + 1] == wire[..n] + [wire[n]];
      SubmittedAppend(wire[..n], wire[n]);
      match wire[n] {
        case Stdin(bytes) => payloads := payloads + [bytes];
        case Resize(_, _) =>
        case Detach =>
          StopsAtDetach(wire, n);
          return payloads, true;
      }
      n := n + 1;
    }
    assert wire[..n] == wire;
  }

  lemma {:induction false} StopsAtDetach(wire: seq<ClientMsg>, n: nat)
    requires n < |wire| && wire[n] == Detach
    ensures Submitted(wire) == Submitted(wire[..n + 1])
    decreases n
  {
    if n == 0 {
    } else {
      assert wire[..n + 1][1..] == wire[1..][..n];
      StopsAtDetach(wire[1..], n - 1);
    }
  }

  // ----- the client's side -----

  /** The messages of the stdin thread among everything on the wire; window sizes come from
      another thread and may stand anywhere. */
  function FromStdin(wire: seq<ClientMsg>): seq<ClientMsg> {
    if wire == [] then []
    else (if wire[0].Resize? then [] else [wire[0]]) + FromStdin(wire[1..])
  }

  lemma {:induction false} SubmittedIsForwarded(wire: seq<ClientMsg>)
    requires WellFormedRun(FromStdin(wire))
    ensures Concat(Submitted(wire)) == Forwarded(FromStdin(wire))
  {
    if wire == [] {
    } else {
      var rest := FromStdin(wire[1..]);
      match wire[0] {
        case Stdin(bytes) =>
          assert FromStdin(wire)[1..] == rest;
          forall i | 0 <= i < |rest| ensures rest[i] == FromStdin(wire)[i + 1] {
          }
          SubmittedIsForwarded(wire[1..]);
          assert Submitted(wire)[1..] == Submitted(wire[1..]);
        case Resize(_, _) =>
          assert FromStdin(wire) == rest;
          SubmittedIsForwarded(wire[1..]);
        case Detach =>
          assert FromStdin(wire)[0] == Detach;
          assert |FromStdin(wire)| == 1;
          assert FromStdin(wire)[1..] == [];
      }
    }
  }

  lemma {:induction false} DetachComesFromStdin(wire: seq<ClientMsg>)
    ensures Detach in wire <==> Detach in FromStdin(wire)
  {
    if wire == [] {
    } else {
      DetachComesFromStdin(wire[1..]);
    }
  }

  lemma PrefixOfRun(part: seq<ClientMsg>, msgs: seq<ClientMsg>)
    requires part <= msgs && WellFormedRun(msgs)
    ensures WellFormedRun(part)
    ensures Forwarded(part) <= Forwarded(msgs)
    ensures Detach in part ==> part == msgs
  {
    forall i | 0 <= i < |part| ensures part[i] == msgs[i] {
    }
    assert msgs == part + msgs[|part|..];
    ForwardedAppend(part, msgs[|part|..]);
  }

  /** What the handler was given is the start of the answer for the input, and all of it
      once the detach came through. */
  lemma SubmittedInput(t: DetachTrigger, chunks: seq<seq<byte>>, wire: seq<ClientMsg>)
    requires ChunkSafe(t) && AllNonempty(chunks) && FromStdin(wire) <= StdinRun(t, [], chunks)
    ensures Concat(Submitted(wire)) <= Answer(Concat(chunks), t).0
    ensures Detach in wire ==>
              Answer(Concat(chunks), t).1 && Concat(Submitted(wire)) == Answer(Concat(chunks), t).0
  {
    var msgs := StdinRun(t, [], chunks);
    RunIsWellFormed(t, [], chunks);
    PrefixOfRun(FromStdin(wire), msgs);
    SubmittedIsForwarded(wire);
    DetachComesFromStdin(wire);
    assert Outcome(msgs) == Answer(Concat(chunks), t) by {
      SafeRunAnswersInput(t, chunks);
    }
  }

  /** With any configured key and reads of at most 4096 bytes, every stdin message fits into
      a frame as long as the codec adds less than 16773113 bytes to a payload. */
  lemma StdinFits(key: char, chunks: seq<seq<byte>>, overhead: nat, m: ClientMsg)
    requires DetachKey.IsAscii(key) && forall i | 0 <= i < |chunks| :: |chunks[i]| <= 4096
    requires m in StdinRun(DetachKey.TriggerFor(key), [], chunks) && m.Stdin?
    requires overhead <= Framing.MAX_FRAME_LEN - 4103
    ensures |m.bytes| + overhead <= Framing.MAX_FRAME_LEN
  {
    DetachKey.TriggersAreSafe(key);
    PayloadBound(DetachKey.TriggerFor(key), [], chunks, 4096);
  }

  // ----- the PTY -----

  /** The finished writes of `w`, and the one in progress if it holds the lock. */
  function Parts(p: PtyInput.Pty, w: nat): seq<PtyInput.Record> {
    PtyInput.By(p.log, w) +
    if p.lock.Held? && p.lock.writer == w
    then [PtyInput.Record(w, p.lock.payload, PtyInput.Partial(p.lock))] else []
  }

  lemma {:induction false} RecordsOfOneWriter(log: seq<PtyInput.Record>, w: nat)
    requires PtyInput.Prefixes(log)
    ensures PtyInput.Prefixes(PtyInput.By(log, w))
  {
    if log == [] {
    } else {
      RecordsOfOneWriter(log[..|log| - 1], w);
    }
  }

  lemma {:induction false} FullRecords(parts: seq<PtyInput.Record>)
    requires forall i | 0 <= i < |parts| :: parts[i].written == parts[i].payload
    ensures PtyInput.Written(parts) == PtyInput.Payloads(parts)
  {
  }

  /** What reaches the handler comes from the stdin thread: the client's loop tries messages in
      the order they were queued, and the handler receives the first of those. */
  lemma WireComesFromStdin(msgs: seq<ClientMsg>, turns: seq<AttachClient.Turn>, wire: seq<ClientMsg>)
    requires FromStdin(AttachClient.Outgoing(turns)) <= msgs && wire <= AttachClient.ClientRun(turns).tried
    ensures FromStdin(wire) <= msgs
  {
    AttachClient.TriedIsOutgoing(turns);
    FromStdinPrefix(wire, AttachClient.Outgoing(turns));
  }

  lemma {:induction false} FromStdinPrefix(a: seq<ClientMsg>, b: seq<ClientMsg>)
    requires a <= b
    ensures FromStdin(a) <= FromStdin(b)
    decreases |a|
  {
    if a == [] {
    } else {
      assert a[0] == b[0] && a[1..] <= b[1..];
      FromStdinPrefix(a[1..], b[1..]);
      AttachClient.PrefixAfter(if a[0].Resize? then [] else [a[0]], FromStdin(a[1..]), FromStdin(b[1..]));
    }
  }

  /** What writer `w` contributes when it was given the payloads of `wire`. */
  lemma ContributionOfWire(
      t: DetachTrigger, chunks: seq<seq<byte>>, wire: seq<ClientMsg>, p: PtyInput.Pty, w: nat)
    requires ChunkSafe(t) && AllNonempty(chunks) && FromStdin(wire) <= StdinRun(t, [], chunks)
    requires PtyInput.ReachablePty(p) && PtyInput.Of(p.submitted, w) == Submitted(wire)
    ensures PtyInput.Prefixes(Parts(p, w))
    ensures Concat(PtyInput.Payloads(Parts(p, w))) <= Answer(Concat(chunks), t).0
    ensures && Detach in wire
            && PtyInput.Of(p.waiting, w) == []
            && (forall i | 0 <= i < |Parts(p, w)| :: Parts(p, w)[i].written == Parts(p, w)[i].payload)
            ==> Concat(PtyInput.Written(Parts(p, w))) == Answer(Concat(chunks), t).0
    ensures PtyInput.NothingAfterShort(Parts(p, w)) ==>
              Concat(PtyInput.Written(Parts(p, w))) <= Answer(Concat(chunks), t).0
  {
    var parts, waiting := Parts(p, w), PtyInput.Of(p.waiting, w);
    PartsOfWriter(p, w);
    SubmittedInput(t, chunks, wire);
    if waiting == [] {
      assert Submitted(wire) == PtyInput.Payloads(parts);
    }
    if forall i | 0 <= i < |parts| :: parts[i].written == parts[i].payload {
      FullRecords(parts);
    }
    if PtyInput.NothingAfterShort(parts) {
      PtyInput.ContributionIsPrefix(parts);
    }
  }

  /** The parts of a writer are prefixes of its payloads, which start what it was given. */
  lemma PartsOfWriter(p: PtyInput.Pty, w: nat)
    requires PtyInput.ReachablePty(p)
    ensures PtyInput.Prefixes(Parts(p, w))
    ensures PtyInput.Payloads(Parts(p, w)) + PtyInput.Of(p.waiting, w) == PtyInput.Of(p.submitted, w)
    ensures Concat(PtyInput.Payloads(Parts(p, w))) <= Concat(PtyInput.Of(p.submitted, w))
  {
    PtyInput.PtyInputIsSerial(p, w);
    RecordsOfOneWriter(p.log, w);
    var parts := Parts(p, w);
    assert PtyInput.Payloads(parts) == PtyInput.Payloads(PtyInput.By(p.log, w)) + PtyInput.Current(p.lock, w);
    ConcatAppend(PtyInput.Payloads(parts), PtyInput.Of(p.waiting, w));
  }

  // ----- the handler among the other writers -----

  /** The attach handler as writer `w` of the PTY. It handles one message at a time: it waits for
      the write of a payload before it takes the next message. */
  datatype Attached = Attached(p: PtyInput.Pty, rest: seq<ClientMsg>, handled: seq<ClientMsg>, acked: bool)

  datatype Step = Handle | Other(a: PtyInput.Action)

  /** Nothing of `w` is waiting or being written. */
  predicate IsIdle(p: PtyInput.Pty, w: nat) {
    PtyInput.Of(p.waiting, w) == [] && (p.lock.Held? ==> p.lock.writer != w)
  }

  /** Other writers submit payloads at any time, and all writes, also those of `w`, go on in
      pieces and can fail. */
  function DoStep(s: Attached, w: nat, step: Step): Option<Attached> {
    match step
    case Handle =>
      if s.rest == [] || s.acked || !IsIdle(s.p, w) then None
      else
        var t := s.(rest := s.rest[1..], handled := s.handled + [s.rest[0]]);
        (match s.rest[0]
         case Stdin(bytes) => Some(t.(p := PtyInput.Do(s.p, PtyInput.Submit(w, bytes)).value))
         case Resize(_, _) => Some(t)
         case Detach => Some(t.(acked := true)))
    case Other(a) =>
      if a.Submit? && a.writer == w then None
      else match PtyInput.Do(s.p, a)
        case Some(q) => Some(s.(p := q))
        case None => None
  }

  function RunSteps(s: Attached, w: nat, run: seq<Step>): Option<Attached>
    decreases |run|
  {
    if run == [] then Some(s)
    else match DoStep(s, w, run[0])
      case Some(t) => RunSteps(t, w, run[1..])
      case None => None
  }

  /** What the handler has handled is the start of what it received, its payloads are what it
      submitted, and after the acknowledgement it has nothing left to write. */
  ghost predicate Sound(s: Attached, w: nat, wire: seq<ClientMsg>) {
    && PtyInput.ReachablePty(s.p)
    && s.handled + s.rest == wire
    && (s.acked <==> Detach in s.handled)
    && PtyInput.Of(s.p.submitted, w) == Submitted(s.handled)
    && (s.acked ==> IsIdle(s.p, w))
  }

  lemma HandleIsSound(s: Attached, w: nat, wire: seq<ClientMsg>)
    requires Sound(s, w, wire) && DoStep(s, w, Handle).Some?
    ensures Sound(DoStep(s, w, Handle).value, w, wire)
  {
    var m := s.rest[0];
    assert s.handled + [m] + s.rest[1..] == s.handled + s.rest;
    SubmittedAppend(s.handled, m);
    if m.Stdin? {
      PtyInput.Reaches(s.p, PtyInput.Submit(w, m.bytes));
    } else {
      assert Submitted(s.handled) + [] == Submitted(s.handled);
    }
  }

  lemma OtherIsSound(s: Attached, w: nat, wire: seq<ClientMsg>, a: PtyInput.Action)
    requires Sound(s, w, wire) && DoStep(s, w, Other(a)).Some?
    ensures Sound(DoStep(s, w, Other(a)).value, w, wire)
  {
    PtyInput.Reaches(s.p, a);
  }

  lemma {:induction false} RunIsSound(s: Attached, w: nat, wire: seq<ClientMsg>, run: seq<Step>)
    requires Sound(s, w, wire) && RunSteps(s, w, run).Some?
    ensures Sound(RunSteps(s, w, run).value, w, wire)
    decreases |run|
  {
    if run == [] {
    } else {
      match run[0] {
        case Handle => HandleIsSound(s, w, wire);
        case Other(a) => OtherIsSound(s, w, wire, a);
      }
      RunIsSound(DoStep(s, w, run[0]).value, w, wire, run[1..]);
    }
  }

  /** A handler at the start of an attach: the PTY has any past, but none with this writer. */
  ghost predicate Begins(s: Attached, w: nat, wire: seq<ClientMsg>) {
    PtyInput.ReachablePty(s.p) && PtyInput.Of(s.p.submitted, w) == [] && s.handled == [] && s.rest == wire && !s.acked
  }

  /** From the terminal to the PTY, among any other writers: for any reads of the terminal, any
      turns of the client's loop, and any run of the handler on what it receives, what the
      client contributes to the PTY is made of starts of consecutive pieces of the input before
      the trigger, in order, so no byte from the trigger on is ever written. Once the detach is
      acknowledged and if every write was complete it is exactly the input before the trigger.
      As long as nothing of it follows a short write it is a start of that input. */
  lemma ContributionEndsBeforeTrigger(
      t: DetachTrigger, chunks: seq<seq<byte>>, turns: seq<AttachClient.Turn>, wire: seq<ClientMsg>,
      s0: Attached, w: nat, run: seq<Step>)
    requires ChunkSafe(t) && AllNonempty(chunks)
    requires FromStdin(AttachClient.Outgoing(turns)) <= StdinRun(t, [], chunks)
    requires wire <= AttachClient.ClientRun(turns).tried
    requires Begins(s0, w, wire) && RunSteps(s0, w, run).Some?
    ensures var s, input := RunSteps(s0, w, run).value, Answer(Concat(chunks), t).0;
            var parts := Parts(s.p, w);
            && PtyInput.Prefixes(parts)
            && Concat(PtyInput.Payloads(parts)) <= input
            && (s.acked && (forall i | 0 <= i < |parts| :: parts[i].written == parts[i].payload)
                ==> Concat(PtyInput.Written(parts)) == input)
            && (PtyInput.NothingAfterShort(parts) ==> Concat(PtyInput.Written(parts)) <= input)
  {
    assert s0.handled + s0.rest == wire;
    RunIsSound(s0, w, wire, run);
    var s := RunSteps(s0, w, run).value;
    assert s.handled <= wire;
    WireComesFromStdin(StdinRun(t, [], chunks), turns, s.handled);
    ContributionOfWire(t, chunks, s.handled, s.p, w);
  }
}
