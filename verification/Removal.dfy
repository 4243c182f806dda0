/** Removals over every interleaving of registry operations. A removal takes the entry out under
    the lock and cleans up after it without the lock, so other operations come in between. */
module Removal {
  import opened Bytes
  import opened Registry

  /** Indexes, inbox files, and the names whose removal is not finished yet. */
  datatype Store = Store(ix: Index, files: set<InboxFile>, pending: seq<string>)

  datatype Step =
    | InsertEntry(e: Info, stuck: set<InboxFile>)
    | TakeOut(name: string)
    | Dispose(k: nat, stuck: set<InboxFile>)
    | PruneDead(dead: set<nat>, stuck: set<InboxFile>)
    | ShutdownAll
    | Post(name: string)
    | Read(name: string)

  function NamesOf(ix: Index, ids: set<nat>): set<string> {
    set i | i in ids && i in ix.byId :: ix.byId[i].name
  }

  function Apply(s: Store, step: Step): Store {
    match step
    case InsertEntry(e, stuck) =>
      if e.name in s.ix.byName then s
      else s.(ix := Insert(s.ix, e), files := Cleaned(s.files, e.name, stuck))
    case TakeOut(name) =>
      if name !in s.ix.byName then s else s.(ix := Remove(s.ix, name), pending := s.pending + [name])
    case Dispose(k, stuck) =>
      if k >= |s.pending| then s
      else s.(files := Cleaned(s.files, s.pending[k], stuck), pending := s.pending[..k] + s.pending[k + 1..])
    case PruneDead(dead, stuck) =>
      var names := NamesOf(s.ix, dead);
      s.(ix := RemoveIds(s.ix, dead), files := set f | f in s.files && (f.name !in names || f in stuck))
    case ShutdownAll => s.(ix := EMPTY_INDEX)
    case Post(name) => s.(files := s.files + {Messages(name)})
    case Read(name) => s.(files := s.files + {Cursor(name)})
  }

  /** What a step does to the indexes. */
  function IndexOps(step: Step): seq<Op> {
    match step
    case InsertEntry(e, _) => [DoInsert(e)]
    case TakeOut(name) => [DoRemove(name)]
    case PruneDead(dead, _) => [DoPrune(dead)]
    case ShutdownAll => [DoShutdown]
    case _ => []
  }

  /** An insertion brings an id that has not been used before. */
  predicate Allowed(s: Store, step: Step) {
    step.InsertEntry? ==> step.e.id !in s.ix.byId
  }

  function RunSteps(s: Store, steps: seq<Step>): Store
    decreases |steps|
  {
    if steps == [] then s else RunSteps(Apply(s, steps[0]), steps[1..])
  }

  predicate AllAllowed(s: Store, steps: seq<Step>)
    decreases |steps|
  {
    steps == [] || (Allowed(s, steps[0]) && AllAllowed(Apply(s, steps[0]), steps[1..]))
  }

  function AllOps(steps: seq<Step>): seq<Op> {
    if steps == [] then [] else IndexOps(steps[0]) + AllOps(steps[1..])
  }

  /** Splitting a removal does not matter for the indexes: in every interleaving they stay
      consistent and do what the same operations do to one table. */
  lemma {:induction false} IndexesIgnoreDisposal(s: Store, steps: seq<Step>)
    requires Consistent(s.ix) && AllAllowed(s, steps)
    ensures Consistent(RunSteps(s, steps).ix)
    ensures Table(RunSteps(s, steps).ix) == RunTable(Table(s.ix), AllOps(steps))
    decreases |steps|
  {
    if steps == [] {
    } else {
      StepKeepsIndex(s, steps[0]);
      IndexesIgnoreDisposal(Apply(s, steps[0]), steps[1..]);
      var ops, rest := IndexOps(steps[0]), AllOps(steps[1..]);
      if ops == [] {
        assert ops + rest == rest;
      } else {
        assert (ops + rest)[0] == ops[0] && (ops + rest)[1..] == rest;
      }
    }
  }

  lemma StepKeepsIndex(s: Store, step: Step)
    requires Consistent(s.ix) && Allowed(s, step)
    ensures Consistent(Apply(s, step).ix)
    ensures var ops := IndexOps(step);
            Table(Apply(s, step).ix) == if ops == [] then Table(s.ix) else ApplyTable(Table(s.ix), ops[0])
  {
    match step {
      case InsertEntry(e, _) => InsertRefines(s.ix, e);
      case TakeOut(name) => RemoveRefines(s.ix, name);
      case PruneDead(dead, _) => PruneRefines(s.ix, dead);
      case ShutdownAll => assert Table(EMPTY_INDEX) == map[];
      case _ =>
    }
  }

  // ----- which inboxes survive -----

  /** The agent listed under `name` at the start is listed all the way. */
  predicate StaysListed(s: Store, steps: seq<Step>, name: string)
    decreases |steps|
  {
    && name in s.ix.byName
    && (steps != [] ==>
          var t := Apply(s, steps[0]);
          name in t.ix.byName && t.ix.byName[name] == s.ix.byName[name] && StaysListed(t, steps[1..], name))
  }

  /** A step after which the agent is still listed keeps its mail, and makes no removal of its
      name pending, unless one was pending. */
  lemma ListedKeepsMail(s: Store, step: Step, name: string)
    requires Consistent(s.ix) && Allowed(s, step) && name in s.ix.byName && name !in s.pending
    requires Messages(name) in s.files
    requires name in Apply(s, step).ix.byName && Apply(s, step).ix.byName[name] == s.ix.byName[name]
    ensures Messages(name) in Apply(s, step).files && name !in Apply(s, step).pending
  {
    match step {
      case PruneDead(dead, _) => assert name !in NamesOf(s.ix, dead);
      case Dispose(k, _) =>
        if k < |s.pending| {
          assert s.pending[k] in s.pending;
        }
      case _ =>
    }
  }

  lemma {:induction false} MailSurvives(s: Store, steps: seq<Step>, name: string)
    requires Consistent(s.ix) && AllAllowed(s, steps) && StaysListed(s, steps, name)
    requires name !in s.pending && Messages(name) in s.files
    ensures Messages(name) in RunSteps(s, steps).files
    decreases |steps|
  {
    if steps == [] {
    } else {
      StepKeepsIndex(s, steps[0]);
      ListedKeepsMail(s, steps[0], name);
      MailSurvives(Apply(s, steps[0]), steps[1..], name);
    }
  }

  /** The mail of a listed agent survives every continuation in which the agent stays listed,
      whatever else happens, exactly when no removal of its name is pending. */
  lemma MailIsSafeIffNothingPending(s: Store, name: string)
    requires Consistent(s.ix) && name in s.ix.byName && Messages(name) in s.files
    ensures (forall steps | AllAllowed(s, steps) && StaysListed(s, steps, name) ::
               Messages(name) in RunSteps(s, steps).files)
            <==> name !in s.pending
  {
    if name !in s.pending {
      forall steps | AllAllowed(s, steps) && StaysListed(s, steps, name)
        ensures Messages(name) in RunSteps(s, steps).files
      {
        MailSurvives(s, steps, name);
      }
    } else {
      var steps := PendingLoses(s, name);
    }
  }

  /** A removal stays pending until it is finished: only taking out an agent adds one, and only
      finishing one takes it away. */
  lemma PendingUntilDisposed(s: Store, step: Step)
    ensures step.TakeOut? && step.name in s.ix.byName ==> Apply(s, step).pending == s.pending + [step.name]
    ensures step.Dispose? && step.k < |s.pending| ==>
              multiset(Apply(s, step).pending) == multiset(s.pending) - multiset{s.pending[step.k]}
    ensures !step.Dispose? && (step.TakeOut? ==> step.name !in s.ix.byName) ==> Apply(s, step).pending == s.pending
  {
    if step.Dispose? && step.k < |s.pending| {
      assert s.pending == s.pending[..step.k] + [s.pending[step.k]] + s.pending[step.k + 1..];
    }
  }

  /** A message that is posted to a listed agent with no removal of its name pending is there as
      long as the agent stays listed. */
  lemma PostedMailSurvives(s: Store, steps: seq<Step>, name: string)
    requires Consistent(s.ix) && name !in s.pending
    requires AllAllowed(Apply(s, Post(name)), steps) && StaysListed(Apply(s, Post(name)), steps, name)
    ensures Messages(name) in RunSteps(s, [Post(name)] + steps).files
  {
    assert ([Post(name)] + steps)[1..] == steps;
    MailSurvives(Apply(s, Post(name)), steps, name);
  }

  /** A fresh agent starts without the mail and the cursor of an earlier one, as far as they can
      be deleted, and nobody else's inbox is touched. */
  lemma FreshInbox(s: Store, e: Info, stuck: set<InboxFile>, f: InboxFile)
    requires e.name !in s.ix.byName
    ensures f in Apply(s, InsertEntry(e, stuck)).files <==> f in s.files && (f.name != e.name || f in stuck)
  {
  }

  /** An agent that is removed and registered again under its name, and then gets mail, can lose
      that mail to the first removal. */
  lemma SuccessorAtRisk(s: Store, e: Info, stuck: set<InboxFile>) returns (steps: seq<Step>)
    requires Consistent(s.ix) && e.name in s.ix.byName && e.id !in s.ix.byId
    ensures var t := RunSteps(s, [TakeOut(e.name), InsertEntry(e, stuck), Post(e.name)]);
            && Lookup(t.ix, e.name) == Some(e) && Messages(e.name) in t.files
            && AllAllowed(t, steps) && StaysListed(t, steps, e.name)
            && Messages(e.name) !in RunSteps(t, steps).files
  {
    var s1 := Apply(s, TakeOut(e.name));
    var s2 := Apply(s1, InsertEntry(e, stuck));
    var s3 := Apply(s2, Post(e.name));
    var three := [TakeOut(e.name), InsertEntry(e, stuck), Post(e.name)];
    assert three[1..] == [InsertEntry(e, stuck), Post(e.name)] && three[1..][1..] == [Post(e.name)];
    assert RunSteps(s, three) == RunSteps(s1, three[1..]) == RunSteps(s2, [Post(e.name)]);
    assert [Post(e.name)][1..] == [] && RunSteps(s2, [Post(e.name)]) == RunSteps(s3, []) == s3;
    assert s1.pending[|s.pending|] == e.name;
    steps := PendingLoses(s3, e.name);
  }

  /** Once a removal is finished, or an agent pruned, its inbox is gone as far as it can be
      deleted; no other inbox is touched. */
  lemma RemovedInboxGoes(s: Store, name: string, stuck: set<InboxFile>, f: InboxFile)
    requires Consistent(s.ix) && name in s.ix.byName && s.pending == []
    ensures var t := Apply(Apply(s, TakeOut(name)), Dispose(0, stuck));
            && t.pending == [] && name !in t.ix.byName
            && (f in t.files <==> f in s.files && (f.name != name || f in stuck))
    ensures var t := Apply(s, PruneDead({s.ix.byName[name]}, stuck));
            && name !in t.ix.byName
            && (f in t.files <==> f in s.files && (f.name != name || f in stuck))
  {
    assert NamesOf(s.ix, {s.ix.byName[name]}) == {name};
  }

  /** Finishing the pending removal takes the mail away. */
  lemma PendingLoses(s: Store, name: string) returns (steps: seq<Step>)
    requires name in s.ix.byName && name in s.pending
    ensures AllAllowed(s, steps) && StaysListed(s, steps, name) && Messages(name) !in RunSteps(s, steps).files
  {
    var k: nat :| k < |s.pending| && s.pending[k] == name;
    steps := [Dispose(k, {})];
    var t := Apply(s, steps[0]);
    assert Messages(name) in FilesOf(name) - {} && Messages(name) !in t.files;
    assert steps[1..] == [];
    assert RunSteps(t, []) == t && AllAllowed(t, []) && StaysListed(t, [], name);
  }
}
