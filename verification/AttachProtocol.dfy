/** Attach and output streaming of one agent, as a concurrent protocol.

    The parties are the PTY reader thread, the session task, any number of attach and view
    handlers, and the registry entry. Every step below is one that the real parties take
    without giving another party a chance to run; all interleavings of steps are runs. */
module AttachProtocol {
  import opened Bytes
  import opened Session

  // ----- state -----

  datatype Task =
    | Idle
    | Sending(chunk: seq<byte>, todo: seq<nat>)
    | Ending(code: Option<int>, todo: seq<nat>)
    | Draining
    | Finished

  datatype Request = Subscribe(h: nat) | Snapshot(v: nat)

  datatype Frame = FOk | FError | FStdout(bytes: seq<byte>) | FEnded(code: Option<int>)

  /** Where an attach handler is. From `Unwinding` on it only drops its locals, in reverse
      order of declaration: event receiver, attach guard, inbox handles. */
  datatype Stage =
    | Found
    | Refused
    | Guarded
    | Acked
    | Waiting
    | Replaying
    | Streaming
    | Unwinding
    | Deaf
    | Unguarded
    | Gone

  datatype Reply = Unasked | Pending | Ready | Taken | Abandoned

  /** `at` and `got` are history: how many bytes the task had taken when it served the
      subscription, and the events received so far. `out` is what was written to the client. */
  datatype Handler = Handler(
    stage: Stage, reply: Reply, backlog: seq<byte>, at: nat, got: seq<SessionEvent>, out: seq<Frame>)

  datatype Viewer = Viewer(busy: bool, answer: Option<seq<byte>>, at: nat)

  datatype EntryState = Listed | Removed | Dropped

  /** What the facts about a single handler depend on. `taken` is everything the task has
      taken while serving, `produced` everything the reader thread has handed over. */
  datatype Core = Core(task: Task, subs: seq<nat>, dead: bool, taken: seq<byte>, produced: seq<byte>)

  /** `exit` is history: what the end of the PTY reported as exit code, once it did. */
  datatype World = World(
    entry: EntryState,
    attached: bool,
    readerOpen: bool,
    chunks: seq<seq<byte>>,
    core: Core,
    ring: seq<byte>,
    boxes: map<nat, Mailbox>,
    requests: seq<Request>,
    handlers: map<nat, Handler>,
    viewers: map<nat, Viewer>,
    exit: Option<Option<int>>)

  const INIT := World(Listed, false, true, [], Core(Idle, [], false, [], []), [], map[], [], map[], map[], None)

  /** What an attach handler does once it has looked its entry up. */
  datatype AttachStep =
    | CompareExchange
    | WriteOk
    | AskSubscribe
    | AwaitReply
    | WriteBacklog
    | RecvEvent
    | RecvNone
    | Detach
    | Fail
    | DropEvents
    | DropGuard
    | DropHandles

  datatype Action =
    | ReadChunk(bytes: seq<byte>)
    | CloseReader
    | MarkDead
    | Unlist
    | DropEntry
    | TakeChunk
    | SendOne
    | SendDone
    | ServeRequest
    | TakeEof(status: Option<int>)
    | EndOne
    | EndDone
    | NoInboxes
    | Discard
    | DrainDone
    | NewAttach(h: nat)
    | Attach(h: nat, step: AttachStep)
    | NewView(v: nat)
    | EndView(v: nat)

  // ----- steps of the reader thread and the registry -----

  /** The size of the reader thread's buffer. */
  const READ_BYTES: nat := 8192

  /** A successful read. The send fails once the session task is gone, and then the thread ends. */
  function DoReadChunk(w: World, bytes: seq<byte>): Option<World> {
    if !w.readerOpen || bytes == [] || |bytes| > READ_BYTES then None
    else if w.core.task.Finished? then Some(w.(readerOpen := false))
    else Some(w.(chunks := w.chunks + [bytes], core := w.core.(produced := w.core.produced + bytes)))
  }

  function DoUnlist(w: World): Option<World> {
    if w.entry.Listed? then Some(w.(entry := Removed)) else None
  }

  function DoDropEntry(w: World): Option<World> {
    if w.entry.Removed? then Some(w.(entry := Dropped)) else None
  }

  // ----- steps of the session task -----

  function DoTakeChunk(w: World): Option<World> {
    if !w.core.task.Idle? || w.chunks == [] then None
    else
      var c := w.chunks[0];
      Some(w.(chunks := w.chunks[1..],
              ring := LastN(w.ring + c, RING_BUFFER_BYTES),
              core := w.core.(task := Sending(c, w.core.subs), subs := [], taken := w.core.taken + c)))
  }

  function DoSendOne(w: World): Option<World> {
    if !w.core.task.Sending? || w.core.task.todo == [] then None
    else
      var c, id := w.core.task.chunk, w.core.task.todo[0];
      Some(w.(boxes := SendTo(w.boxes, id, Output(c)),
              core := w.core.(task := Sending(c, w.core.task.todo[1..]),
                              subs := w.core.subs + if CanSend(w.boxes, id) then [id] else [])))
  }

  function DoSendDone(w: World): Option<World> {
    if w.core.task.Sending? && w.core.task.todo == [] then Some(w.(core := w.core.(task := Idle))) else None
  }

  /** Serve the oldest request. A requester that is gone gets no answer and is not recorded. */
  function DoServeRequest(w: World): Option<World> {
    if !w.core.task.Idle? || w.requests == [] then None
    else
      var rest := w.(requests := w.requests[1..]);
      match w.requests[0]
      case Subscribe(h) =>
        if h in w.handlers && w.handlers[h].reply.Pending? then
          Some(rest.(
               handlers := w.handlers[h := w.handlers[h].(reply := Ready, backlog := w.ring, at := |w.core.taken|)],
               boxes := w.boxes[h := Mailbox(true, [])],
               core := w.core.(subs := w.core.subs + [h])))
        else Some(rest)
      case Snapshot(v) =>
        if v in w.viewers && w.viewers[v].busy then
          Some(rest.(viewers := w.viewers[v := w.viewers[v].(answer := Some(w.ring), at := |w.core.taken|)]))
        else Some(rest)
  }

  /** The chunk channel is empty and closed: poll the child and record the death, then tell
      the subscribers. */
  function DoTakeEof(w: World, status: Option<int>): Option<World> {
    if !w.core.task.Idle? || w.chunks != [] || w.readerOpen then None
    else
      var code := ExitCode(status);
      Some(w.(core := w.core.(task := Ending(code, w.core.subs), dead := true), exit := Some(code)))
  }

  function DoEndOne(w: World): Option<World> {
    if !w.core.task.Ending? || w.core.task.todo == [] then None
    else
      var code, id := w.core.task.code, w.core.task.todo[0];
      Some(w.(boxes := SendTo(w.boxes, id, Ended(code)),
              core := w.core.(task := Ending(code, w.core.task.todo[1..]))))
  }

  /** The session task returns: its senders and its request queue are dropped. */
  function DoEndDone(w: World): Option<World> {
    if w.core.task.Ending? && w.core.task.todo == []
    then Some(w.(requests := [], core := w.core.(task := Finished, subs := [])))
    else None
  }

  predicate HoldsInbox(h: Handler) {
    !h.stage.Gone?
  }

  /** No inbox handle is left anywhere, so the request channel is closed. */
  predicate Orphaned(w: World) {
    && w.entry.Dropped?
    && (forall h | h in w.handlers :: !HoldsInbox(w.handlers[h]))
    && (forall v | v in w.viewers :: !w.viewers[v].busy)
  }

  function DoNoInboxes(w: World): Option<World> {
    if w.core.task.Idle? && w.requests == [] && Orphaned(w)
    then Some(w.(core := w.core.(task := Draining)))
    else None
  }

  function DoDiscard(w: World): Option<World> {
    if w.core.task.Draining? && w.chunks != [] then Some(w.(chunks := w.chunks[1..])) else None
  }

  function DoDrainDone(w: World): Option<World> {
    if w.core.task.Draining? && w.chunks == [] && !w.readerOpen
    then Some(w.(core := w.core.(task := Finished, subs := [])))
    else None
  }

  // ----- steps of an attach handler -----

  predicate At(w: World, h: nat, stage: Stage) {
    h in w.handlers && w.handlers[h].stage == stage
  }

  function Box(w: World, id: nat): Option<Mailbox> {
    if id in w.boxes then Some(w.boxes[id]) else None
  }

  function DoNewAttach(w: World, h: nat): Option<World> {
    if w.entry.Listed? && h !in w.handlers
    then Some(w.(handlers := w.handlers[h := Handler(Found, Unasked, [], 0, [], [])]))
    else None
  }

  /** All that a step of an attach handler can change: the handler itself, its event channel,
      the flag, and whether it sends a subscribe request. */
  datatype Local = Local(x: Handler, box: Option<Mailbox>, attached: bool, asks: bool)

  function StepAttach(l: Local, step: AttachStep, finished: bool, senderGone: bool): Option<Local> {
    var x := l.x;
    match step
    case CompareExchange =>
      if !x.stage.Found? then None
      else if l.attached then Some(l.(x := x.(stage := Refused, out := [FError])))
      else Some(l.(x := x.(stage := Guarded), attached := true))
    case WriteOk =>
      if x.stage.Guarded? then Some(l.(x := x.(stage := Acked, out := [FOk]))) else None
    case AskSubscribe =>
      if !x.stage.Acked? then None
      else if finished then Some(l.(x := x.(stage := Unwinding, out := [FOk, FError])))
      else Some(l.(x := x.(stage := Waiting, reply := Pending), asks := true))
    case AwaitReply =>
      if !x.stage.Waiting? then None
      else if x.reply.Ready? then Some(l.(x := x.(stage := Replaying, reply := Taken)))
      else if finished then Some(l.(x := x.(stage := Unwinding, out := [FOk, FError])))
      else None
    case WriteBacklog =>
      if !x.stage.Replaying? then None
      else Some(l.(x := x.(stage := Streaming, out := x.out + if x.backlog == [] then [] else [FStdout(x.backlog)])))
    case RecvEvent => StepRecv(l)
    case RecvNone =>
      if SilentlyClosed(x, l.box, senderGone) then Some(l.(x := x.(stage := Unwinding))) else None
    case Detach =>
      if x.stage.Streaming? then Some(l.(x := x.(stage := Unwinding, out := x.out + [FOk]))) else None
    case Fail => StepFail(l)
    case DropEvents =>
      if !x.stage.Unwinding? then None
      else
        var reply := if x.reply.Pending? then Abandoned else x.reply;
        var box := if l.box.Some? then Some(l.box.value.(open := false)) else None;
        Some(l.(x := x.(stage := Deaf, reply := reply), box := box))
    case DropGuard =>
      if x.stage.Deaf? then Some(l.(x := x.(stage := Unguarded), attached := false)) else None
    case DropHandles =>
      if x.stage.Unguarded? then Some(l.(x := x.(stage := Gone))) else None
  }

  function StepRecv(l: Local): Option<Local> {
    var x := l.x;
    if !x.stage.Streaming? || l.box.None? || l.box.value.queue == [] then None
    else
      var e, rest := l.box.value.queue[0], l.box.value.(queue := l.box.value.queue[1..]);
      match e
      case Output(bytes) => Some(l.(x := x.(got := x.got + [e], out := x.out + [FStdout(bytes)]), box := Some(rest)))
      case Ended(code) =>
        Some(l.(x := x.(stage := Unwinding, got := x.got + [e], out := x.out + [FEnded(code)]), box := Some(rest)))
  }

  /** The event channel is empty and its sender is gone. */
  predicate SilentlyClosed(x: Handler, box: Option<Mailbox>, senderGone: bool) {
    x.stage.Streaming? && (box.Some? ==> box.value.queue == []) && senderGone
  }

  /** A failed read or write, or cancellation of the handler, at any await point; for a
      refused handler, its normal return. */
  function StepFail(l: Local): Option<Local> {
    match l.x.stage
    case Found | Refused => Some(l.(x := l.x.(stage := Unguarded)))
    case Guarded | Acked | Waiting | Replaying | Streaming => Some(l.(x := l.x.(stage := Unwinding)))
    case _ => None
  }

  /** One step of handler `h`. */
  function DoAttach(w: World, h: nat, step: AttachStep): Option<World> {
    if h !in w.handlers then None
    else
      match StepAttach(Local(w.handlers[h], Box(w, h), w.attached, false), step,
                       w.core.task.Finished?, h !in Roster(w.core))
      case None => None
      case Some(l) => Some(Stepped(w, h, l))
  }

  function Stepped(w: World, h: nat, l: Local): World {
    w.(handlers := w.handlers[h := l.x],
       boxes := if l.box.Some? then w.boxes[h := l.box.value] else w.boxes,
       attached := l.attached,
       requests := if l.asks then w.requests + [Subscribe(h)] else w.requests)
  }

  // ----- steps of a view handler -----

  function DoNewView(w: World, v: nat): Option<World> {
    if !w.entry.Listed? || v in w.viewers then None
    else
      var n := w.(viewers := w.viewers[v := Viewer(true, None, 0)]);
      Some(if w.core.task.Finished? then n else n.(requests := w.requests + [Snapshot(v)]))
  }

  function DoEndView(w: World, v: nat): Option<World> {
    if v in w.viewers && w.viewers[v].busy
    then Some(w.(viewers := w.viewers[v := w.viewers[v].(busy := false)]))
    else None
  }

  // ----- runs -----

  /** One step, if it is possible in this state. */
  function Do(w: World, a: Action): Option<World> {
    match a
    case ReadChunk(bytes) => DoReadChunk(w, bytes)
    case CloseReader => Some(w.(readerOpen := false))
    case MarkDead => Some(w.(core := w.core.(dead := true)))
    case Unlist => DoUnlist(w)
    case DropEntry => DoDropEntry(w)
    case TakeChunk => DoTakeChunk(w)
    case SendOne => DoSendOne(w)
    case SendDone => DoSendDone(w)
    case ServeRequest => DoServeRequest(w)
    case TakeEof(status) => DoTakeEof(w, status)
    case EndOne => DoEndOne(w)
    case EndDone => DoEndDone(w)
    case NoInboxes => DoNoInboxes(w)
    case Discard => DoDiscard(w)
    case DrainDone => DoDrainDone(w)
    case NewAttach(h) => DoNewAttach(w, h)
    case Attach(h, step) => DoAttach(w, h, step)
    case NewView(v) => DoNewView(w, v)
    case EndView(v) => DoEndView(w, v)
  }

  /** The state after a run, if every step of it was possible. */
  function Run(w: World, run: seq<Action>): Option<World>
    decreases |run|
  {
    if run == [] then Some(w)
    else match Do(w, run[0])
      case Some(v) => Run(v, run[1..])
      case None => None
  }

  ghost predicate ReachableWorld(w: World) {
    exists run: seq<Action> :: Run(INIT, run) == Some(w)
  }

  // ----- what a client must see -----

  function Outs(events: seq<SessionEvent>): seq<byte> {
    if events == [] then []
    else (if events[0].Output? then events[0].bytes else []) + Outs(events[1..])
  }

  function StdoutBytes(frames: seq<Frame>): seq<byte> {
    if frames == [] then []
    else (if frames[0].FStdout? then frames[0].bytes else []) + StdoutBytes(frames[1..])
  }

  /** The bytes owed to a subscriber that joined after `at` bytes: the last ring-full of
      what came before, and everything since. */
  function Stream(taken: seq<byte>, at: nat): seq<byte>
    requires at <= |taken|
  {
    LastN(taken[..at], RING_BUFFER_BYTES) + taken[at..]
  }

  /** The frames of one attach: refused, failed, or an acknowledgement followed by output
      and at most one final frame. */
  predicate Transcript(out: seq<Frame>) {
    out == [] || out == [FError] || out == [FOk, FError] ||
    (out[0] == FOk
     && (forall i | 1 <= i < |out| - 1 :: out[i].FStdout?)
     && (|out| > 1 ==> !out[|out| - 1].FError?))
  }

  predicate EndsSession(out: seq<Frame>) {
    out != [] && out[|out| - 1].FEnded?
  }

  // ----- invariant -----

  /** Everyone who still gets the current and all later broadcasts. */
  function Roster(c: Core): seq<nat> {
    if c.task.Sending? then c.subs + c.task.todo else c.subs
  }

  function Todo(t: Task): seq<nat> {
    if t.Sending? || t.Ending? then t.todo else []
  }

  /** The part of the current broadcast that `id` has not been sent yet. */
  function Pend(t: Task, id: nat): seq<byte> {
    if t.Sending? && id in t.todo then t.chunk else []
  }

  /** `id` has been sent its final event. */
  predicate Told(t: Task, id: nat) {
    t.Finished? || (t.Ending? && id !in t.todo)
  }

  predicate Ends(events: seq<SessionEvent>) {
    events != [] && events[|events| - 1].Ended?
  }

  /** Output only, then possibly one final event; that event is there exactly once it was
      sent, and then the agent is marked dead and nothing it produced is missing. */
  predicate EventsOk(c: Core, id: nat, events: seq<SessionEvent>) {
    && (forall i | 0 <= i < |events| - 1 :: events[i].Output?)
    && (Ends(events) <==> Told(c.task, id))
    && (Told(c.task, id) ==> c.dead && c.taken == c.produced)
  }

  predicate MayReceive(s: Stage) {
    s.Waiting? || s.Replaying? || s.Streaming? || s.Unwinding?
  }

  predicate ReplyOk(h: Handler, box: Option<Mailbox>) {
    && (h.reply.Unasked? || h.reply.Pending? ==> box.None?)
    && (box.None? ==> h.got == [] && h.backlog == [])
    && (h.stage.Found? || h.stage.Refused? || h.stage.Guarded? || h.stage.Acked? ==> h.reply.Unasked?)
    && (h.stage.Waiting? ==> h.reply.Pending? || (h.reply.Ready? && box.Some? && box.value.open))
    && (h.stage.Replaying? || h.stage.Streaming? ==> h.reply.Taken? && box.Some? && box.value.open)
    && (box.Some? && box.value.open ==> MayReceive(h.stage))
    && (h.reply.Pending? ==> MayReceive(h.stage))
  }

  predicate LiveOk(c: Core, id: nat, h: Handler, queue: seq<SessionEvent>)
    requires h.at <= |c.taken|
  {
    && !c.task.Draining?
    && (!c.task.Finished? ==> id in Roster(c))
    && h.backlog + Outs(h.got + queue) + Pend(c.task, id) == Stream(c.taken, h.at)
    && EventsOk(c, id, h.got + queue)
  }

  /** Received events are output, then possibly the end, which comes after the death mark and
      after everything produced. */
  predicate GotOk(c: Core, events: seq<SessionEvent>) {
    && (forall i | 0 <= i < |events| - 1 :: events[i].Output?)
    && (Ends(events) ==> c.dead && c.taken == c.produced && (c.task.Ending? || c.task.Finished?))
  }

  predicate BoxOk(c: Core, id: nat, h: Handler, b: Mailbox) {
    && h.at <= |c.taken|
    && h.backlog == LastN(c.taken[..h.at], RING_BUFFER_BYTES)
    && GotOk(c, h.got)
    && h.backlog + Outs(h.got) <= Stream(c.taken, h.at)
    && (h.stage.Waiting? || h.stage.Replaying? ==> h.got == [])
    && (h.stage.Streaming? ==> !Ends(h.got))
    && (b.open ==> LiveOk(c, id, h, b.queue))
  }

  /** The frames written so far fit the stage and are the start of the owed stream. */
  predicate OutOk(c: Core, h: Handler, subscribed: bool) {
    && Transcript(h.out)
    && (h.stage.Found? || h.stage.Guarded? ==> h.out == [])
    && (h.stage.Acked? || h.stage.Waiting? || h.stage.Replaying? ==> h.out == [FOk])
    && (h.stage.Streaming? ==>
          && h.out != [] && h.out[0] == FOk
          && (forall i | 1 <= i < |h.out| :: h.out[i].FStdout?)
          && StdoutBytes(h.out) == h.backlog + Outs(h.got))
    && (h.out == [FOk, FError] ==> c.task.Finished? && !subscribed)
    && (h.reply.Pending? ==> h.out == [FOk] || h.out == [FOk, FError])
    && (h.stage.Streaming? && h.backlog != [] ==> |h.out| > 1)
    && (subscribed && h.backlog != [] && |h.out| > 1 ==> h.out[1] == FStdout(h.backlog))
    && (!subscribed ==> StdoutBytes(h.out) == [] && !EndsSession(h.out))
    && (subscribed ==>
          && h.at <= |c.taken|
          && StdoutBytes(h.out) <= Stream(c.taken, h.at)
          && (EndsSession(h.out) ==>
                && StdoutBytes(h.out) == Stream(c.taken, h.at)
                && c.dead && c.taken == c.produced
                && (c.task.Ending? || c.task.Finished?)))
  }

  predicate HandlerOk(c: Core, id: nat, h: Handler, box: Option<Mailbox>) {
    && ReplyOk(h, box)
    && (box.Some? ==> BoxOk(c, id, h, box.value))
    && OutOk(c, h, box.Some?)
  }

  predicate HandlersOk(w: World) {
    && w.boxes.Keys <= w.handlers.Keys
    && forall id {:trigger HandlerOk(w.core, id, w.handlers[id], Box(w, id))} | id in w.handlers ::
         HandlerOk(w.core, id, w.handlers[id], Box(w, id))
  }

  predicate HoldsGuard(s: Stage) {
    s.Guarded? || s.Acked? || s.Waiting? || s.Replaying? || s.Streaming? || s.Unwinding? || s.Deaf?
  }

  /** `h` is between its successful compare-exchange and the drop of its guard. */
  predicate InGuard(w: World, h: nat) {
    h in w.handlers && HoldsGuard(w.handlers[h].stage)
  }

  ghost predicate Exclusive(w: World) {
    && (w.attached <==> exists h :: InGuard(w, h))
    && (forall h, k | InGuard(w, h) && InGuard(w, k) :: h == k)
  }

  /** Subscriber ids are distinct and have a channel. */
  ghost predicate RosterOk(w: World) {
    && NoDup(Roster(w.core))
    && NoDup(Todo(w.core.task))
    && (forall id | id in Roster(w.core) || id in Todo(w.core.task) :: id in w.boxes)
  }

  /** The ring, the history, and the chunk channel agree. */
  predicate FlowOk(w: World) {
    var c := w.core;
    && (c.task.Idle? || c.task.Sending? ==>
          w.ring == LastN(c.taken, RING_BUFFER_BYTES) && c.produced == c.taken + Concat(w.chunks))
    && (c.task.Ending? ==> c.produced == c.taken && c.dead && !w.readerOpen)
    && (c.task.Finished? ==> !w.readerOpen)
  }

  predicate DrainOk(w: World) {
    w.core.task.Draining? ==> w.requests == [] && Orphaned(w)
  }

  predicate ViewersOk(w: World) {
    forall v | v in w.viewers && w.viewers[v].answer.Some? ::
      && w.viewers[v].at <= |w.core.taken|
      && w.viewers[v].answer.value == LastN(w.core.taken[..w.viewers[v].at], RING_BUFFER_BYTES)
  }

  ghost predicate Inv(w: World) {
    Exclusive(w) && HandlersOk(w) && RosterOk(w) && FlowOk(w) && DrainOk(w) && ViewersOk(w)
  }
}
