/** The agent registry: two hash indexes, by id and by name, that act as one table. */
module Registry {
  import opened Bytes

  /** The immutable part of an entry. Only a spawned agent has a working directory. */
  datatype Info = Info(id: nat, name: string, spawned: bool, createdAt: int, cwd: Option<string>)

  // ----- the two indexes as values -----

  datatype Index = Index(byId: map<nat, Info>, byName: map<string, nat>)

  const EMPTY_INDEX := Index(map[], map[])

  /** Both indexes describe the same entries, each under its own id and name. */
  ghost predicate Consistent(ix: Index) {
    && (forall n | n in ix.byName :: ix.byName[n] in ix.byId && ix.byId[ix.byName[n]].name == n)
    && (forall i | i in ix.byId ::
          ix.byId[i].id == i && ix.byId[i].name in ix.byName && ix.byName[ix.byId[i].name] == i)
  }

  function Insert(ix: Index, e: Info): Index {
    if e.name in ix.byName then ix
    else Index(ix.byId[e.id := e], ix.byName[e.name := e.id])
  }

  function Lookup(ix: Index, name: string): Option<Info> {
    if name !in ix.byName then None
    else if ix.byName[name] !in ix.byId then None
    else Some(ix.byId[ix.byName[name]])
  }

  /** The name goes first, then the entry it led to. */
  function Remove(ix: Index, name: string): Index {
    if name !in ix.byName then ix
    else Index(ix.byId - {ix.byName[name]}, ix.byName - {name})
  }

  /** Remove these ids, and the name of each removed entry. */
  function RemoveIds(ix: Index, ids: set<nat>): Index {
    Index(ix.byId - ids, ix.byName - set i | i in ids && i in ix.byId :: ix.byId[i].name)
  }

  /** The single table that the two indexes stand for. */
  ghost function Table(ix: Index): map<string, Info>
    requires Consistent(ix)
  {
    map n | n in ix.byName :: ix.byId[ix.byName[n]]
  }

  datatype Op =
    | DoInsert(e: Info)
    | DoRemove(name: string)
    | DoPrune(dead: set<nat>)
    | DoShutdown

  /** An insertion brings an id that has not been used before. */
  predicate Possible(ix: Index, op: Op) {
    op.DoInsert? ==> op.e.id !in ix.byId
  }

  function Apply(ix: Index, op: Op): Index {
    match op
    case DoInsert(e) => Insert(ix, e)
    case DoRemove(name) => Remove(ix, name)
    case DoPrune(dead) => RemoveIds(ix, dead)
    case DoShutdown => EMPTY_INDEX
  }

  /** The same operation on the single table. */
  function ApplyTable(t: map<string, Info>, op: Op): map<string, Info> {
    match op
    case DoInsert(e) => if e.name in t then t else t[e.name := e]
    case DoRemove(name) => t - {name}
    case DoPrune(dead) => map n | n in t && t[n].id !in dead :: t[n]
    case DoShutdown => map[]
  }

  lemma InsertRefines(ix: Index, e: Info)
    requires Consistent(ix) && e.id !in ix.byId
    ensures Consistent(Insert(ix, e))
    ensures Table(Insert(ix, e)) == ApplyTable(Table(ix), DoInsert(e))
  {
  }

  lemma RemoveRefines(ix: Index, name: string)
    requires Consistent(ix)
    ensures Consistent(Remove(ix, name))
    ensures Table(Remove(ix, name)) == ApplyTable(Table(ix), DoRemove(name))
  {
  }

  lemma PruneRefines(ix: Index, dead: set<nat>)
    requires Consistent(ix)
    ensures Consistent(RemoveIds(ix, dead))
    ensures Table(RemoveIds(ix, dead)) == ApplyTable(Table(ix), DoPrune(dead))
  {
    var v := RemoveIds(ix, dead);
    forall n | n in ix.byName ensures n in v.byName <==> ix.byName[n] !in dead {
      assert ix.byId[ix.byName[n]].name == n;
    }
  }

  /** Removing one entry after the others, in both indexes. */
  lemma RemoveOneMore(ix: Index, gone: set<nat>, id: nat)
    requires Consistent(ix) && id in ix.byId && id !in gone
    ensures var v := RemoveIds(ix, gone);
            RemoveIds(ix, gone + {id}) == Index(v.byId - {id}, v.byName - {ix.byId[id].name})
  {
    var names := set i | i in gone && i in ix.byId :: ix.byId[i].name;
    assert (set i | i in gone + {id} && i in ix.byId :: ix.byId[i].name) == names + {ix.byId[id].name};
    assert ix.byId - (gone + {id}) == ix.byId - gone - {id};
    assert ix.byName - (names + {ix.byId[id].name}) == ix.byName - names - {ix.byId[id].name};
  }

  function Run(ix: Index, ops: seq<Op>): Index
    decreases |ops|
  {
    if ops == [] then ix else Run(Apply(ix, ops[0]), ops[1..])
  }

  function RunTable(t: map<string, Info>, ops: seq<Op>): map<string, Info>
    decreases |ops|
  {
    if ops == [] then t else RunTable(ApplyTable(t, ops[0]), ops[1..])
  }

  predicate AllPossible(ix: Index, ops: seq<Op>)
    decreases |ops|
  {
    ops == [] || (Possible(ix, ops[0]) && AllPossible(Apply(ix, ops[0]), ops[1..]))
  }

  /** Any sequence of operations keeps the indexes consistent and is the same sequence of
      operations on one table. */
  lemma {:induction false} IndexesRefineTable(ix: Index, ops: seq<Op>)
    requires Consistent(ix) && AllPossible(ix, ops)
    ensures Consistent(Run(ix, ops))
    ensures Table(Run(ix, ops)) == RunTable(Table(ix), ops)
    decreases |ops|
  {
    if ops == [] {
    } else {
      match ops[0] {
        case DoInsert(e) => InsertRefines(ix, e);
        case DoRemove(name) => RemoveRefines(ix, name);
        case DoPrune(dead) => PruneRefines(ix, dead);
        case DoShutdown => assert Table(EMPTY_INDEX) == map[];
      }
      IndexesRefineTable(Apply(ix, ops[0]), ops[1..]);
    }
  }

  /** After any operations from the empty registry, a lookup is a lookup in the table, and a
      name that is found always leads to an entry. */
  lemma LookupAgrees(ops: seq<Op>, name: string)
    requires AllPossible(EMPTY_INDEX, ops)
    ensures var t := RunTable(map[], ops);
            Lookup(Run(EMPTY_INDEX, ops), name) == if name in t then Some(t[name]) else None
    ensures name in Run(EMPTY_INDEX, ops).byName ==> Run(EMPTY_INDEX, ops).byName[name] in Run(EMPTY_INDEX, ops).byId
  {
    assert Table(EMPTY_INDEX) == map[];
    IndexesRefineTable(EMPTY_INDEX, ops);
  }

  // ----- the registry object -----

  datatype Status = Running | Dead | Registered

  datatype Event = Idle | Attention | Exit

  datatype Summary = Summary(
    id: nat, name: string, status: Status, cwd: Option<string>, createdAt: int, lastEvent: Option<(Event, int)>)

  datatype TermOutcome = Sent | NoSuchProcess | OtherError

  /** An entry. Clones share the flags, so a clone is the same object. `exited` is the
      child's own doing; `killed` says that it was sent SIGKILL. */
  class AgentEntry {
    const info: Info
    var attached: bool
    var dead: bool
    var exited: bool
    var killed: bool
    var lastEvent: Option<(Event, int)>

    /** Only an entry with a child can be dead. */
    ghost predicate Valid()
      reads this
    {
      dead ==> info.spawned
    }

    constructor (info: Info)
      ensures Valid() && this.info == info && !attached && !dead && !exited && !killed && lastEvent == None
    {
      this.info := info;
      attached, dead, exited, killed := false, false, false, false;
      lastEvent := None;
    }

    function StatusOf(): Status
      reads this
    {
      if !info.spawned then Registered else if dead then Dead else Running
    }

    function SummaryOf(): Summary
      reads this
    {
      Summary(info.id, info.name, StatusOf(), if info.spawned then info.cwd else None, info.createdAt, lastEvent)
    }

    method RecordEvent(event: Event, now: int)
      modifies this`lastEvent
      ensures SummaryOf() == old(SummaryOf()).(lastEvent := Some((event, now)))
    {
      lastEvent := Some((event, now));
    }

    /** Poll the child; a spawned entry whose child has exited becomes dead. */
    method Refresh()
      modifies this`dead
      ensures dead == (old(dead) || (info.spawned && exited))
      ensures old(Valid()) ==> Valid()
    {
      if info.spawned && !dead && exited {
        dead := true;
      }
    }

    /** The session task has seen the end of the PTY, whatever the child does. */
    method MarkDead()
      requires info.spawned
      modifies this`dead
      ensures dead
    {
      dead := true;
    }

    /** `polls` are the outcomes of the polls that fit into the grace period. */
    method Terminate(force: bool, term: TermOutcome, polls: seq<bool>)
      modifies this`killed
      ensures killed == (old(killed) || (info.spawned && (force || (!term.NoSuchProcess? && true !in polls))))
    {
      if !info.spawned {
        return;
      }
      if force {
        killed := true;
        return;
      }
      if term.NoSuchProcess? {
        return;
      }
      var n := 0;
      while n < |polls|
        invariant n <= |polls| && true !in polls[..n]
      {
        if polls[n] {
          assert polls[n] in polls;
          return;
        }
        n := n + 1;
      }
      assert polls[..n] == polls;
      killed := true;
    }
  }

  // ----- inbox files -----

  datatype InboxFile = Messages(name: string) | Cursor(name: string)

  function FilesOf(name: string): set<InboxFile> {
    {Messages(name), Cursor(name)}
  }

  /** What is left after deleting the files of an agent; those in `stuck` cannot be deleted. */
  function Cleaned(files: set<InboxFile>, name: string, stuck: set<InboxFile>): set<InboxFile> {
    files - (FilesOf(name) - stuck)
  }

  function FilesOfAll(names: seq<string>): set<InboxFile> {
    if names == [] then {} else FilesOfAll(names[..|names| - 1]) + FilesOf(names[|names| - 1])
  }

  lemma {:induction false} FilesOfEach(names: seq<string>, f: InboxFile)
    ensures f in FilesOfAll(names) <==> f.name in names
  {
    if names == [] {
    } else {
      FilesOfEach(names[..|names| - 1], f);
      assert names == names[..|names| - 1] + [names[|names| - 1]];
    }
  }

  /** The inbox directory. Files in `stuck` cannot be deleted. */
  class InboxDir {
    var files: set<InboxFile>

    constructor ()
      ensures files == {}
    {
      files := {};
    }

    /** Delete both files of an agent; a failure is ignored. */
    method Cleanup(name: string, stuck: set<InboxFile>)
      modifies this
      ensures files == Cleaned(old(files), name, stuck)
    {
      if Messages(name) !in stuck {
        files := files - {Messages(name)};
      }
      if Cursor(name) !in stuck {
        files := files - {Cursor(name)};
      }
    }
  }

  /** The spawned entries that are marked dead. */
  ghost function DeadSet(all: map<nat, AgentEntry>): set<nat>
    reads all.Values
  {
    set i | i in all && all[i].info.spawned && all[i].dead
  }

  function IdSet(ids: seq<nat>): set<nat> {
    set i | i in ids
  }

  lemma NextId(ids: seq<nat>, k: nat)
    requires NoDup(ids) && k < |ids|
    ensures IdSet(ids[..k + 1]) == IdSet(ids[..k]) + {ids[k]}
    ensures ids[k] !in IdSet(ids[..k])
  {
    assert ids[..k + 1] == ids[..k] + [ids[k]];
  }

  lemma {:induction false} DistinctCount(ids: seq<nat>)
    requires NoDup(ids)
    ensures |IdSet(ids)| == |ids|
  {
    if ids == [] {
    } else {
      var rest := ids[1..];
      DistinctCount(rest);
      assert IdSet(ids) == {ids[0]} + IdSet(rest);
      assert ids[0] !in rest;
    }
  }

  lemma NamesAreDistinct(ix: Index, ids: seq<nat>, names: seq<string>)
    requires Consistent(ix) && NoDup(ids) && |names| == |ids|
    requires forall k | 0 <= k < |ids| :: ids[k] in ix.byId && names[k] == ix.byId[ids[k]].name
    ensures NoDup(names)
  {
  }

  class AgentRegistry {
    var byId: map<nat, AgentEntry>
    var byName: map<string, nat>
    const inboxes: InboxDir

    /** The immutable contents of both indexes. */
    ghost function Contents(): Index
      reads this
    {
      Index(map i | i in byId :: byId[i].info, byName)
    }

    ghost predicate Indexed()
      reads this
    {
      Consistent(Contents())
    }

    /** The indexes agree, and no entry without a child is marked dead. */
    ghost predicate Valid()
      reads this, byId.Values
    {
      Indexed() && forall i | i in byId :: byId[i].Valid()
    }

    constructor (inboxes: InboxDir)
      ensures Valid() && Contents() == EMPTY_INDEX && this.inboxes == inboxes
    {
      byId, byName := map[], map[];
      this.inboxes := inboxes;
    }

    /** A free name gets a fresh inbox; a taken one changes nothing. */
    method InsertEntry(e: AgentEntry, stuck: set<InboxFile>) returns (ok: bool)
      requires Valid() && e.Valid() && e.info.id !in byId
      modifies this, inboxes
      ensures Valid()
      ensures ok <==> e.info.name !in old(Table(Contents()))
      ensures Contents() == Insert(old(Contents()), e.info)
      ensures byId == if ok then old(byId)[e.info.id := e] else old(byId)
      ensures inboxes.files == if ok then Cleaned(old(inboxes.files), e.info.name, stuck) else old(inboxes.files)
    {
      if e.info.name in byName {
        return false;
      }
      inboxes.Cleanup(e.info.name, stuck);
      Add(e);
      return true;
    }

    method Add(e: AgentEntry)
      requires Indexed() && e.info.id !in byId && e.info.name !in byName
      modifies this
      ensures Indexed() && Contents() == Insert(old(Contents()), e.info)
      ensures byId == old(byId)[e.info.id := e]
    {
      InsertRefines(Contents(), e.info);
      ghost var before := Contents();
      byName := byName[e.info.name := e.info.id];
      byId := byId[e.info.id := e];
      assert Contents() == Insert(before, e.info);
    }

    method LookupEntry(name: string) returns (e: Option<AgentEntry>)
      requires Valid()
      ensures e.None? <==> name !in Table(Contents())
      ensures e.Some? ==> e.value.info == Table(Contents())[name]
      ensures e.Some? ==> byName[name] in byId && e.value == byId[byName[name]]
    {
      if name !in byName {
        return None;
      }
      return Some(byId[byName[name]]);
    }

    /** A lifecycle event that an agent reports about itself: only that entry's last event
        changes, and only if the name is listed. */
    method HandleEvent(name: string, event: Event, now: int) returns (ok: bool)
      requires Valid()
      modifies byId.Values`lastEvent
      ensures Valid()
      ensures ok <==> name in Table(Contents())
      ensures forall i | i in byId ::
                byId[i].lastEvent == if byId[i].info.name == name then Some((event, now)) else old(byId[i].lastEvent)
    {
      var entry := LookupEntry(name);
      if entry.None? {
        EntryFacts();
        return false;
      }
      EntryFacts();
      entry.value.RecordEvent(event, now);
      return true;
    }

    /** The part of a removal that holds the lock: both indexes lose the entry. The second
        lookup cannot fail. */
    method TakeOut(name: string) returns (e: Option<AgentEntry>)
      requires Valid()
      modifies this
      ensures Valid()
      ensures Contents() == Remove(old(Contents()), name)
      ensures byId.Keys <= old(byId).Keys && byId.Values <= old(byId).Values
      ensures e.None? <==> name !in old(Table(Contents()))
      ensures e.Some? ==> e.value.info == old(Table(Contents()))[name] && e.value in old(byId).Values
    {
      if name !in byName {
        return None;
      }
      RemoveRefines(Contents(), name);
      ghost var before := Contents();
      var id := byName[name];
      byName := byName - {name};
      var entry := byId[id];
      byId := byId - {id};
      assert Contents() == Remove(before, name);
      return Some(entry);
    }

    /** The rest of a removal. The lock is free: whatever other operations do comes in between.
        It leaves the mail of every listed agent alone exactly unless an agent of the same name
        is listed again, has mail, and the file can be deleted. */
    method Dispose(entry: AgentEntry, force: bool, term: TermOutcome, polls: seq<bool>, stuck: set<InboxFile>)
      modifies entry`killed, inboxes
      ensures var kill := entry.info.spawned && (force || (!term.NoSuchProcess? && true !in polls));
              entry.killed == (old(entry.killed) || kill)
      ensures inboxes.files == Cleaned(old(inboxes.files), entry.info.name, stuck)
      ensures forall f ::
                f in inboxes.files <==> f in old(inboxes.files) && (f.name != entry.info.name || f in stuck)
      ensures var mine := Messages(entry.info.name);
              (forall n | n in byName && Messages(n) in old(inboxes.files) :: Messages(n) in inboxes.files) <==>
              !(entry.info.name in byName && mine in old(inboxes.files) && mine !in stuck)
    {
      entry.Terminate(force, term, polls);
      inboxes.Cleanup(entry.info.name, stuck);
    }

    /** A removal that nothing comes between. */
    method RemoveEntry(name: string, force: bool, term: TermOutcome, polls: seq<bool>, stuck: set<InboxFile>)
      returns (e: Option<AgentEntry>)
      requires Valid()
      modifies this, byId.Values`killed, inboxes
      ensures Valid()
      ensures Contents() == Remove(old(Contents()), name)
      ensures e.None? <==> name !in old(Table(Contents()))
      ensures e.Some? ==> e.value.info == old(Table(Contents()))[name] && e.value in old(byId.Values)
      ensures forall x | x in old(byId.Values) && Some(x) != e :: x.killed == old(x.killed)
      ensures e.Some? ==>
                var kill := e.value.info.spawned && (force || (!term.NoSuchProcess? && true !in polls));
                e.value.killed == (old(e.value.killed) || kill)
      ensures inboxes.files == if e.Some? then Cleaned(old(inboxes.files), name, stuck) else old(inboxes.files)
    {
      e := TakeOut(name);
      if e.Some? {
        Dispose(e.value, force, term, polls, stuck);
      }
    }

    /** The rest of a removal can hit a successor: an agent of the same name that was inserted
        in between, and has mail, loses its inbox. */
    method SuccessorLosesInbox(name: string, successor: AgentEntry) returns (ok: bool)
      requires Valid() && successor.Valid()
      requires name in byName && successor.info.name == name && successor.info.id !in byId
      modifies this, byId.Values`killed, inboxes
      ensures ok && name in byName && byName[name] in byId && byId[byName[name]] == successor
      ensures Messages(name) !in inboxes.files
    {
      var gone := TakeOut(name);
      ok := InsertEntry(successor, {});
      inboxes.files := inboxes.files + {Messages(name)};
      Dispose(gone.value, true, Sent, [], {});
    }

    /** What consistency means for the entry objects. In particular an entry is stored under
        one id only. */
    lemma EntryFacts()
      requires Indexed()
      ensures forall i | i in byId ::
                byId[i].info.id == i && byId[i].info.name in byName && byName[byId[i].info.name] == i
      ensures forall n | n in byName :: byName[n] in byId && byId[byName[n]].info.name == n
    {
      assert forall i | i in byId :: Contents().byId[i] == byId[i].info;
    }

    /** Refresh the dead flag of every entry. */
    method RefreshAll()
      requires Indexed()
      modifies byId.Values`dead
      ensures forall i | i in byId ::
                byId[i].dead == (old(byId[i].dead) || (byId[i].info.spawned && byId[i].exited))
    {
      var todo := byId.Keys;
      while todo != {}
        invariant todo <= byId.Keys
        invariant forall i | i in byId ::
                    byId[i].dead == (old(byId[i].dead) || (i !in todo && byId[i].info.spawned && byId[i].exited))
      {
        var i :| i in todo;
        EntryFacts();
        byId[i].Refresh();
        todo := todo - {i};
      }
    }

    /** The ids of the spawned entries that are marked dead. */
    method DeadIds() returns (ids: seq<nat>)
      requires Indexed()
      ensures forall i :: i in ids <==> i in byId && byId[i].info.spawned && byId[i].dead
      ensures NoDup(ids)
    {
      ids := [];
      var todo := byId.Keys;
      while todo != {}
        invariant todo <= byId.Keys
        invariant forall i :: i in ids <==> i in byId && i !in todo && byId[i].info.spawned && byId[i].dead
        invariant NoDup(ids)
      {
        var i :| i in todo;
        if byId[i].info.spawned && byId[i].dead {
          ids := ids + [i];
        }
        todo := todo - {i};
      }
    }

    /** The session tasks of these agents see the end of their PTYs; they need no lock. */
    method MarkAll(late: set<nat>)
      requires Indexed()
      modifies byId.Values`dead
      ensures forall i | i in byId :: byId[i].dead == (old(byId[i].dead) || (byId[i].info.spawned && i in late))
    {
      var todo := byId.Keys;
      while todo != {}
        invariant todo <= byId.Keys
        invariant forall i | i in byId ::
                    byId[i].dead == (old(byId[i].dead) || (i !in todo && byId[i].info.spawned && i in late))
      {
        var i :| i in todo;
        EntryFacts();
        if byId[i].info.spawned && i in late {
          byId[i].MarkDead();
        }
        todo := todo - {i};
      }
    }

    /** Remove the entries that are dead after a refresh, and only those. The agents in `late`
        are marked dead by their session tasks between the two sweeps. */
    method PruneDead(late: set<nat>, stuck: set<InboxFile>) returns (removed: seq<string>)
      requires Valid()
      modifies this, byId.Values`dead, inboxes
      ensures Valid()
      ensures forall i | i in old(byId) ::
                var e := old(byId)[i];
                e.dead == (old(byId[i].dead) || (e.info.spawned && (old(byId[i].exited) || i in late)))
      ensures Contents() == RemoveIds(old(Contents()), DeadSet(old(byId)))
      ensures byId == old(byId) - DeadSet(old(byId))
      ensures NoDup(removed) && |removed| == |DeadSet(old(byId))|
      ensures forall i | i in DeadSet(old(byId)) :: old(byId)[i].info.name in removed
      ensures forall f :: f in inboxes.files <==> f in old(inboxes.files) && (f.name !in removed || f in stuck)
    {
      RefreshAll();
      MarkAll(late);
      ghost var all := byId;
      var deadIds := DeadIds();
      removed := RemoveAll(deadIds, stuck);
      assert DeadSet(all) == IdSet(deadIds);
      DistinctCount(deadIds);
      forall f: InboxFile ensures f in FilesOfAll(removed) <==> f.name in removed {
        FilesOfEach(removed, f);
      }
    }

    /** The first `k` of the collected ids are gone from both indexes. */
    ghost predicate SweptTo(ix: Index, all: map<nat, AgentEntry>, ids: seq<nat>, k: nat)
      requires k <= |ids|
      reads this
    {
      byId == all - IdSet(ids[..k]) && Contents() == RemoveIds(ix, IdSet(ids[..k]))
    }

    /** The loop over the collected ids. */
    method RemoveAll(ids: seq<nat>, stuck: set<InboxFile>) returns (removed: seq<string>)
      requires Indexed() && NoDup(ids) && forall i | i in ids :: i in byId
      modifies this, inboxes
      ensures Indexed()
      ensures Contents() == RemoveIds(old(Contents()), IdSet(ids))
      ensures byId == old(byId) - IdSet(ids)
      ensures NoDup(removed)
      ensures |removed| == |ids| && forall k | 0 <= k < |ids| :: removed[k] == old(byId)[ids[k]].info.name
      ensures inboxes.files == old(inboxes.files) - (FilesOfAll(removed) - stuck)
    {
      ghost var before, all, files := Contents(), byId, inboxes.files;
      removed := [];
      var k := 0;
      assert IdSet(ids[..0]) == {};
      assert forall a | 0 <= a < |ids| :: ids[a] in before.byId && before.byId[ids[a]] == all[ids[a]].info;
      while k < |ids|
        invariant k <= |ids| && |removed| == k
        invariant SweptTo(before, all, ids, k)
        invariant forall a | 0 <= a < k :: removed[a] == all[ids[a]].info.name
        invariant inboxes.files == files - (FilesOfAll(removed) - stuck)
      {
        var name := RemoveOne(ids, k, stuck, before, all);
        NextFiles(removed, name);
        removed := removed + [name];
        k := k + 1;
      }
      assert ids[..k] == ids;
      PruneRefines(before, IdSet(ids));
      assert forall a | 0 <= a < |ids| :: removed[a] == before.byId[ids[a]].name;
      NamesAreDistinct(before, ids, removed);
    }

    lemma NextFiles(names: seq<string>, name: string)
      ensures FilesOfAll(names + [name]) == FilesOfAll(names) + FilesOf(name)
    {
      assert (names + [name])[..|names|] == names;
    }

    /** Drop one entry from both indexes, and its inbox. */
    method RemoveOne(
        ids: seq<nat>, k: nat, stuck: set<InboxFile>, ghost before: Index, ghost all: map<nat, AgentEntry>)
      returns (name: string)
      requires NoDup(ids) && k < |ids| && SweptTo(before, all, ids, k)
      requires Consistent(before) && ids[k] in all && ids[k] in before.byId && before.byId[ids[k]] == all[ids[k]].info
      modifies this, inboxes
      ensures name == all[ids[k]].info.name && SweptTo(before, all, ids, k + 1)
      ensures inboxes.files == Cleaned(old(inboxes.files), name, stuck)
    {
      NextId(ids, k);
      RemoveOneMore(before, IdSet(ids[..k]), ids[k]);
      ghost var was := Contents();
      var entry := byId[ids[k]];
      name := entry.info.name;
      byId := byId - {ids[k]};
      byName := byName - {name};
      inboxes.Cleanup(name, stuck);
      assert Contents().byId == was.byId - {ids[k]};
    }

    /** `summaries` describes exactly the entries that are not in `todo`. */
    ghost predicate Listed(todo: set<nat>, summaries: seq<Summary>)
      reads this, byId.Values
    {
      forall s: Summary :: s in summaries <==> s.id in byId && s.id !in todo && s == byId[s.id].SummaryOf()
    }

    /** Refresh one entry and describe it. */
    method Describe(i: nat, e: AgentEntry, ghost todo: set<nat>, ghost sofar: seq<Summary>) returns (s: Summary)
      requires Indexed() && i in byId && byId[i] == e && i in todo && Listed(todo, sofar)
      modifies e`dead
      ensures e.dead == (old(e.dead) || (e.info.spawned && e.exited))
      ensures forall k | k in byId && k != i :: byId[k].dead == old(byId[k].dead)
      ensures Listed(todo - {i}, sofar + [s])
    {
      EntryFacts();
      e.Refresh();
      s := e.SummaryOf();
    }

    /** One summary per entry, with a fresh dead flag. */
    method List() returns (summaries: seq<Summary>)
      requires Valid()
      modifies byId.Values`dead
      ensures forall i | i in byId ::
                byId[i].dead == (old(byId[i].dead) || (byId[i].info.spawned && byId[i].exited))
      ensures Valid()
      ensures |summaries| == |byId|
      ensures Listed({}, summaries)
      ensures forall s: Summary | s in summaries ::
                && s.id in byId
                && (s.status == Registered <==> !byId[s.id].info.spawned)
                && (s.status == Dead <==> byId[s.id].info.spawned && (old(byId[s.id].dead) || byId[s.id].exited))
      ensures forall s: Summary | s in summaries ::
                && s.id in byId && s.id == byId[s.id].info.id && s.name == byId[s.id].info.name
                && s.createdAt == byId[s.id].info.createdAt && s.lastEvent == byId[s.id].lastEvent
                && s.cwd == if byId[s.id].info.spawned then byId[s.id].info.cwd else None
    {
      summaries := [];
      var todo := byId.Keys;
      while todo != {}
        invariant todo <= byId.Keys && |summaries| + |todo| == |byId|
        invariant forall i | i in byId ::
                    byId[i].dead == (old(byId[i].dead) || (i !in todo && byId[i].info.spawned && byId[i].exited))
        invariant Listed(todo, summaries)
      {
        var i :| i in todo;
        var s := Describe(i, byId[i], todo, summaries);
        summaries := summaries + [s];
        todo := todo - {i};
      }
    }

    /** The names of the entries that a client is attached to. */
    method AttachedNames() returns (names: seq<string>)
      requires Indexed()
      ensures forall n :: n in names <==> n in byName && byId[byName[n]].attached
      ensures NoDup(names)
    {
      EntryFacts();
      names := [];
      var todo := byId.Keys;
      while todo != {}
        invariant todo <= byId.Keys
        invariant forall n :: n in names <==> n in byName && byName[n] !in todo && byId[byName[n]].attached
        invariant NoDup(names)
      {
        var i :| i in todo;
        if byId[i].attached {
          names := names + [byId[i].info.name];
        }
        todo := todo - {i};
      }
    }

    /** Kill every child and forget every entry, all under one lock. */
    method ShutdownAll()
      requires Valid()
      modifies this, byId.Values`killed
      ensures Valid() && Contents() == EMPTY_INDEX
      ensures forall i | i in old(byId) ::
                old(byId)[i].killed == old(byId[i].killed || byId[i].info.spawned)
    {
      KillAll();
      byId, byName := map[], map[];
      assert Contents().byId == map[];
    }

    method KillAll()
      requires Indexed()
      modifies byId.Values`killed
      ensures forall i | i in byId :: byId[i].killed == (old(byId[i].killed) || byId[i].info.spawned)
    {
      EntryFacts();
      var todo := byId.Keys;
      while todo != {}
        invariant todo <= byId.Keys
        invariant forall i | i in byId ::
                    byId[i].killed == (old(byId[i].killed) || (i !in todo && byId[i].info.spawned))
      {
        var i :| i in todo;
        var entry := byId[i];
        if entry.info.spawned {
          entry.killed := true;
        }
        todo := todo - {i};
      }
    }
  }
}
