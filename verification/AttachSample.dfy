/** Runs that can happen: a whole session from the first output to the end, which shows that
    the premises of the attach theorems can be met, and an output frame above 16 KiB. */
module AttachSample {
  import opened Bytes
  import opened Session
  import opened AttachProtocol
  import opened AttachReplies
  import opened AttachTheorems

  /** Nobody is subscribed and nothing is on its way. */
  predicate Quiet(w: World) {
    && w.entry.Listed? && !w.attached && w.readerOpen && w.chunks == [] && w.requests == []
    && w.core.task.Idle? && w.core.subs == [] && w.handlers == map[] && w.boxes == map[]
  }

  /** The agent writes while nobody is attached. */
  lemma Write(w: World, bytes: seq<byte>) returns (v: World)
    requires ReachableWorld(w) && Quiet(w) && 0 < |bytes| <= READ_BYTES && |w.ring + bytes| <= RING_BUFFER_BYTES
    ensures ReachableWorld(v) && Quiet(v) && v.ring == w.ring + bytes && v.viewers == w.viewers
    ensures v.core == w.core.(taken := w.core.taken + bytes, produced := w.core.produced + bytes)
  {
    Reaches(w, ReadChunk(bytes));
    v := Do(w, ReadChunk(bytes)).value;
    assert v.chunks == [bytes];
    Reaches(v, TakeChunk);
    v := Do(v, TakeChunk).value;
    Reaches(v, SendDone);
    v := Do(v, SendDone).value;
  }

  /** A client gets the flag. */
  lemma TakeFlag(w: World) returns (v: World)
    requires ReachableWorld(w) && Quiet(w)
    ensures ReachableWorld(v)
    ensures v == w.(attached := true, handlers := map[0 := Handler(Guarded, Unasked, [], 0, [], [])])
  {
    Reaches(w, NewAttach(0));
    v := Do(w, NewAttach(0)).value;
    Reaches(v, Attach(0, CompareExchange));
    v := Do(v, Attach(0, CompareExchange)).value;
  }

  /** It is acknowledged and its subscription is on the way. */
  lemma Ask(w: World) returns (v: World)
    requires ReachableWorld(w) && Quiet(w)
    ensures ReachableWorld(v) && v.core == w.core && v.ring == w.ring
    ensures v.boxes == map[] && v.requests == [Subscribe(0)]
    ensures v.handlers == map[0 := Handler(Waiting, Pending, [], 0, [], [FOk])] && v.readerOpen && v.chunks == []
  {
    v := TakeFlag(w);
    Reaches(v, Attach(0, WriteOk));
    v := Do(v, Attach(0, WriteOk)).value;
    Reaches(v, Attach(0, AskSubscribe));
    v := Do(v, Attach(0, AskSubscribe)).value;
  }

  /** Its subscription is served. */
  lemma Join(w: World) returns (v: World)
    requires ReachableWorld(w) && Quiet(w)
    ensures ReachableWorld(v) && v.core == w.core.(subs := [0]) && v.boxes == map[0 := Mailbox(true, [])]
    ensures v.handlers == map[0 := Handler(Waiting, Ready, w.ring, |w.core.taken|, [], [FOk])]
    ensures v.readerOpen && v.chunks == []
  {
    v := Ask(w);
    Reaches(v, ServeRequest);
    v := Do(v, ServeRequest).value;
  }

  /** It replays the backlog, if there is one, and streams. */
  lemma ClientAttaches(w: World) returns (v: World)
    requires ReachableWorld(w) && Quiet(w)
    ensures ReachableWorld(v) && v.core == w.core.(subs := [0]) && v.boxes == map[0 := Mailbox(true, [])]
    ensures var out := [FOk] + if w.ring == [] then [] else [FStdout(w.ring)];
            v.handlers == map[0 := Handler(Streaming, Taken, w.ring, |w.core.taken|, [], out)]
    ensures v.readerOpen && v.chunks == []
  {
    v := Join(w);
    Reaches(v, Attach(0, AwaitReply));
    v := Do(v, Attach(0, AwaitReply)).value;
    Reaches(v, Attach(0, WriteBacklog));
    v := Do(v, Attach(0, WriteBacklog)).value;
  }

  /** The agent writes 24 KiB while nobody is attached. */
  lemma MuchOutput() returns (w: World)
    ensures ReachableWorld(w) && Quiet(w) && |w.ring| > 16384 && w.viewers == map[]
  {
    var full := seq(READ_BYTES, i => 0 as byte);
    assert Run(INIT, []) == Some(INIT);
    w := Write(INIT, full);
    w := Write(w, full);
    w := Write(w, full);
  }

  /** A backlog goes out as one frame, which can be larger than 16 KiB. */
  lemma LargeFrame() returns (w: World)
    ensures ReachableWorld(w) && 0 in w.handlers && |w.handlers[0].out| == 2
    ensures w.handlers[0].out[1].FStdout? && |w.handlers[0].out[1].bytes| > 16384
  {
    w := MuchOutput();
    w := ClientAttaches(w);
  }

  /** So does the answer to a view, with nobody attached. */
  lemma LargeView() returns (w: World)
    ensures ReachableWorld(w) && w.handlers == map[]
    ensures 0 in w.viewers && w.viewers[0].answer.Some? && |w.viewers[0].answer.value| > 16384
  {
    w := MuchOutput();
    Reaches(w, NewView(0));
    w := Do(w, NewView(0)).value;
    assert w.requests == [Snapshot(0)];
    Reaches(w, ServeRequest);
    w := Do(w, ServeRequest).value;
  }

  // ----- views of a dead agent, and an attach that fails after its `Ok` -----

  lemma EndedSession() returns (w: World)
    ensures ReachableWorld(w) && w.entry.Listed? && w.core.task.Finished? && w.core.dead && w.viewers == map[]
  {
    assert Run(INIT, []) == Some(INIT);
    Reaches(INIT, CloseReader);
    w := Do(INIT, CloseReader).value;
    Reaches(w, TakeEof(Some(0)));
    w := Do(w, TakeEof(Some(0))).value;
    Reaches(w, EndDone);
    w := Do(w, EndDone).value;
  }

  /** A listed, dead agent whose view is never answered, whatever happens next. */
  lemma DeadViewUnanswered() returns (w: World)
    ensures ReachableWorld(w) && w.entry.Listed? && w.core.dead && Asking(w, 0)
    ensures forall run :: !Answers(w, run, 0)
  {
    w := EndedSession();
    Reaches(w, NewView(0));
    w := Do(w, NewView(0)).value;
    ViewIsAnswerable(w, 0);
  }

  /** A dead agent whose view is answered: a status poll saw its child exit while the PTY was
      still open. */
  lemma DeadViewAnswered() returns (w: World)
    ensures ReachableWorld(w) && w.core.dead && 0 in w.viewers && w.viewers[0].answer.Some?
  {
    assert Run(INIT, []) == Some(INIT);
    Reaches(INIT, MarkDead);
    w := Do(INIT, MarkDead).value;
    Reaches(w, NewView(0));
    w := Do(w, NewView(0)).value;
    assert w.requests == [Snapshot(0)];
    Reaches(w, ServeRequest);
    w := Do(w, ServeRequest).value;
  }

  /** A client that is told `Ok` and then `Error`. */
  lemma OkThenErrorHappens() returns (w: World)
    ensures ReachableWorld(w) && 0 in w.handlers && w.handlers[0].out == [FOk, FError]
  {
    assert Run(INIT, []) == Some(INIT);
    w := Ask(INIT);
    AttachCanFail(w, 0);
    var run: seq<Action> :| EndsInError(w, run, 0);
    ReachesRun(w, run);
    w := Run(w, run).value;
  }

  lemma EverybodyGone() returns (w: World)
    ensures ReachableWorld(w) && w == INIT.(entry := Dropped, core := INIT.core.(task := Draining))
  {
    assert Run(INIT, []) == Some(INIT);
    Reaches(INIT, Unlist);
    w := Do(INIT, Unlist).value;
    Reaches(w, DropEntry);
    w := Do(w, DropEntry).value;
    Reaches(w, NoInboxes);
    w := Do(w, NoInboxes).value;
  }

  /** An agent that was removed, with nobody left: output is discarded so that it can go on. */
  lemma OutputDiscarded() returns (w: World)
    ensures ReachableWorld(w) && w.core == Core(Draining, [], false, [], [1]) && w.chunks == [] && w.readerOpen
  {
    w := EverybodyGone();
    Reaches(w, ReadChunk([1]));
    w := Do(w, ReadChunk([1])).value;
    Reaches(w, Discard);
    w := Do(w, Discard).value;
  }

  // ----- one whole session -----

  /** More output, and the PTY ends. */
  lemma LiveOutput() returns (w: World)
    ensures ReachableWorld(w) && w.core == Core(Idle, [0], false, [1, 2], [1, 2])
    ensures w.handlers == map[0 := Handler(Streaming, Taken, [1], 1, [], [FOk, FStdout([1])])]
    ensures w.boxes == map[0 := Mailbox(true, [Output([2])])] && !w.readerOpen && w.chunks == []
  {
    assert Run(INIT, []) == Some(INIT);
    w := Write(INIT, [1]);
    assert [] + [1 as byte] == [1 as byte] && [1 as byte] + [2] == [1, 2];
    w := ClientAttaches(w);
    assert [FOk] + [FStdout([1])] == [FOk, FStdout([1])];
    Reaches(w, ReadChunk([2]));
    w := Do(w, ReadChunk([2])).value;
    assert w.chunks == [[2]];
    Reaches(w, TakeChunk);
    w := Do(w, TakeChunk).value;
    w := Broadcast(w);
    Reaches(w, CloseReader);
    w := Do(w, CloseReader).value;
  }

  lemma Broadcast(w: World) returns (v: World)
    requires ReachableWorld(w) && w.core == Core(Sending([2], [0]), [], false, [1, 2], [1, 2])
    requires w.boxes == map[0 := Mailbox(true, [])]
    ensures ReachableWorld(v)
    ensures v == w.(core := Core(Idle, [0], false, [1, 2], [1, 2]), boxes := map[0 := Mailbox(true, [Output([2])])])
  {
    Reaches(w, SendOne);
    assert [] + [0] == [0] && [] + [Output([2])] == [Output([2])];
    v := Do(w, SendOne).value;
    assert v.boxes == map[0 := Mailbox(true, [Output([2])])];
    Reaches(v, SendDone);
    v := Do(v, SendDone).value;
  }

  /** The client has seen everything, and then the end. */
  lemma SampleSession() returns (w: World)
    ensures ReachableWorld(w) && 0 in w.handlers && w.core.task.Finished?
    ensures w.handlers[0].out == [FOk, FStdout([1]), FStdout([2]), FEnded(Some(0))]
  {
    w := LiveOutput();
    Reaches(w, TakeEof(Some(0)));
    w := Do(w, TakeEof(Some(0))).value;
    Reaches(w, EndOne);
    assert [Output([2])] + [Ended(Some(0))] == [Output([2]), Ended(Some(0))];
    w := Do(w, EndOne).value;
    Reaches(w, EndDone);
    w := Do(w, EndDone).value;
    assert w.boxes == map[0 := Mailbox(true, [Output([2]), Ended(Some(0))])];
    w := Drained(w);
  }

  lemma Drained(w: World) returns (v: World)
    requires ReachableWorld(w) && w.boxes == map[0 := Mailbox(true, [Output([2]), Ended(Some(0))])]
    requires w.handlers == map[0 := Handler(Streaming, Taken, [1], 1, [], [FOk, FStdout([1])])]
    ensures ReachableWorld(v) && v.core == w.core && 0 in v.handlers
    ensures v.handlers[0].out == [FOk, FStdout([1]), FStdout([2]), FEnded(Some(0))]
  {
    Reaches(w, Attach(0, RecvEvent));
    assert [FOk, FStdout([1])] + [FStdout([2])] == [FOk, FStdout([1]), FStdout([2])];
    v := Do(w, Attach(0, RecvEvent)).value;
    assert v.boxes == map[0 := Mailbox(true, [Ended(Some(0))])];
    Reaches(v, Attach(0, RecvEvent));
    assert v.handlers[0].out + [FEnded(Some(0))] == [FOk, FStdout([1]), FStdout([2]), FEnded(Some(0))];
    v := Do(v, Attach(0, RecvEvent)).value;
  }
}
