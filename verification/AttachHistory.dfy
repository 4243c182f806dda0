/** What the history fields of the attach protocol mean: they say what has happened in a run. */
module AttachHistory {
  import opened Bytes
  import opened Session
  import opened AttachProtocol
  import opened AttachProofs

  /** Everything that the reader thread has read in a run, in order. */
  function ReadIn(run: seq<Action>): seq<byte> {
    if run == [] then []
    else (if run[0].ReadChunk? then run[0].bytes else []) + ReadIn(run[1..])
  }

  /** The session task has seen the end of the PTY in this run. */
  ghost predicate SawEof(run: seq<Action>) {
    exists status :: TakeEof(status) in run
  }

  /** The reported exit code belongs to the end of the PTY, which is seen once. */
  predicate ExitOk(w: World) {
    w.exit.Some? ==> w.core.task.Ending? || w.core.task.Finished?
  }

  lemma StepKeepsExit(w: World, a: Action)
    requires ExitOk(w) && Do(w, a).Some?
    ensures ExitOk(Do(w, a).value)
    ensures a.TakeEof? ==> w.exit == None
    ensures var v := Do(w, a).value;
            v.exit == match a
              case TakeEof(Some(c)) => Some(Some(c))
              case TakeEof(None) => Some(Some(0))
              case _ => w.exit
  {
  }

  /** One step reads what it says, and marks the agent dead only if it says so. */
  lemma StepHistory(w: World, a: Action)
    requires FlowOk(w) && Do(w, a).Some?
    ensures var v := Do(w, a).value;
            && v.core.produced == w.core.produced + (if a.ReadChunk? then a.bytes else [])
            && (v.core.dead <==> w.core.dead || a.MarkDead? || a.TakeEof?)
  {
    assert w.core.produced + [] == w.core.produced;
  }

  /** Every read is in the history, in order: none is lost, also when others still wait. */
  lemma {:induction false} ProducedIsRead(w: World, run: seq<Action>)
    requires Inv(w) && Run(w, run).Some?
    ensures Run(w, run).value.core.produced == w.core.produced + ReadIn(run)
    decreases |run|
  {
    if run == [] {
      assert w.core.produced + [] == w.core.produced;
    } else {
      StepHistory(w, run[0]);
      StepKeepsInv(w, run[0]);
      ProducedIsRead(Do(w, run[0]).value, run[1..]);
      Associates(w.core.produced, if run[0].ReadChunk? then run[0].bytes else [], ReadIn(run[1..]));
    }
  }

  lemma {:induction false} DeadIsMarked(w: World, run: seq<Action>)
    requires Inv(w) && Run(w, run).Some?
    ensures Run(w, run).value.core.dead <==> w.core.dead || MarkDead in run || SawEof(run)
    decreases |run|
  {
    if run == [] {
    } else {
      StepHistory(w, run[0]);
      StepKeepsInv(w, run[0]);
      DeadIsMarked(Do(w, run[0]).value, run[1..]);
      assert run == [run[0]] + run[1..];
    }
  }

  /** Once an end of the PTY has been seen no second one is. */
  lemma {:induction false} ExitStays(w: World, run: seq<Action>)
    requires ExitOk(w) && w.exit.Some? && Run(w, run).Some?
    ensures Run(w, run).value.exit == w.exit && !SawEof(run)
    decreases |run|
  {
    if run == [] {
    } else {
      StepKeepsExit(w, run[0]);
      ExitStays(Do(w, run[0]).value, run[1..]);
      assert run == [run[0]] + run[1..];
    }
  }

  /** The exit code is what polling the child told at the end of the PTY, or zero if that told
      nothing. */
  lemma {:induction false} ExitIsPolled(w: World, run: seq<Action>)
    requires ExitOk(w) && w.exit == None && Run(w, run).Some?
    ensures var exit := Run(w, run).value.exit;
            && (exit.Some? <==> SawEof(run))
            && (forall c | TakeEof(Some(c)) in run :: exit == Some(Some(c)))
            && (TakeEof(None) in run ==> exit == Some(Some(0)))
    decreases |run|
  {
    if run == [] {
    } else {
      var v := Do(w, run[0]).value;
      StepKeepsExit(w, run[0]);
      assert run == [run[0]] + run[1..];
      if run[0].TakeEof? {
        ExitStays(v, run[1..]);
        assert forall status | TakeEof(status) in run :: status == run[0].status;
      } else {
        ExitIsPolled(v, run[1..]);
      }
    }
  }

  /** From the start: what was read, whether the agent is dead, and its exit code. */
  lemma RunHistory(run: seq<Action>)
    requires Run(INIT, run).Some?
    ensures var w := Run(INIT, run).value;
            && w.core.produced == ReadIn(run)
            && (w.core.dead <==> MarkDead in run || SawEof(run))
            && (w.exit.Some? <==> SawEof(run))
            && (forall c | TakeEof(Some(c)) in run :: w.exit == Some(Some(c)))
            && (TakeEof(None) in run ==> w.exit == Some(Some(0)))
  {
    ProducedIsRead(INIT, run);
    assert [] + ReadIn(run) == ReadIn(run);
    DeadIsMarked(INIT, run);
    ExitIsPolled(INIT, run);
  }
}
