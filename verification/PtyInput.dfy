/** Writers to the PTY of one agent: the attach handler and any number of send requests,
    serialised by the write lock. A write is many partial writes and can fail half-way. */
module PtyInput {
  import opened Bytes

  /** A payload that some writer has finished with, and how much of it was written. */
  datatype Record = Record(writer: nat, payload: seq<byte>, written: seq<byte>)

  datatype Lock = Free | Held(writer: nat, payload: seq<byte>, count: nat)

  /** `submitted` is, for each writer, every payload it was ever given; `waiting` the ones it
      has not started. `log` lists the finished ones in the order of their writes. */
  datatype Pty = Pty(
    bytes: seq<byte>,
    lock: Lock,
    waiting: map<nat, seq<seq<byte>>>,
    submitted: map<nat, seq<seq<byte>>>,
    log: seq<Record>)

  const FRESH := Pty([], Free, map[], map[], [])

  datatype Action =
    | Submit(writer: nat, payload: seq<byte>)
    | Acquire(writer: nat)
    | WriteSome(n: nat)
    | Release
    | WriteFails

  function Of(m: map<nat, seq<seq<byte>>>, writer: nat): seq<seq<byte>> {
    if writer in m then m[writer] else []
  }

  /** A writer starts its oldest payload once the lock is free. The lock is kept until the
      whole payload is written or a write fails. */
  function Do(p: Pty, a: Action): Option<Pty> {
    match a
    case Submit(w, payload) =>
      Some(p.(waiting := p.waiting[w := Of(p.waiting, w) + [payload]],
              submitted := p.submitted[w := Of(p.submitted, w) + [payload]]))
    case Acquire(w) =>
      if p.lock.Held? || Of(p.waiting, w) == [] then None
      else
        var queue := Of(p.waiting, w);
        Some(p.(lock := Held(w, queue[0], 0), waiting := p.waiting[w := queue[1..]]))
    case WriteSome(n) =>
      if p.lock.Free? || p.lock.count > |p.lock.payload| || n == 0 || p.lock.count + n > |p.lock.payload| then None
      else
        var from := p.lock.count;
        Some(p.(bytes := p.bytes + p.lock.payload[from..from + n], lock := p.lock.(count := from + n)))
    case Release =>
      if p.lock.Free? || p.lock.count != |p.lock.payload| then None
      else Some(p.(lock := Free, log := p.log + [Record(p.lock.writer, p.lock.payload, p.lock.payload)]))
    case WriteFails =>
      if p.lock.Free? || p.lock.count >= |p.lock.payload| then None
      else Some(p.(lock := Free,
                   log := p.log + [Record(p.lock.writer, p.lock.payload, p.lock.payload[..p.lock.count])]))
  }

  function Run(p: Pty, run: seq<Action>): Option<Pty>
    decreases |run|
  {
    if run == [] then Some(p)
    else match Do(p, run[0])
      case Some(q) => Run(q, run[1..])
      case None => None
  }

  ghost predicate ReachablePty(p: Pty) {
    exists run: seq<Action> :: Run(FRESH, run) == Some(p)
  }

  // ----- what the PTY has received -----

  function Written(log: seq<Record>): seq<seq<byte>> {
    seq(|log|, i requires 0 <= i < |log| => log[i].written)
  }

  /** The records of one writer, in order. */
  function By(log: seq<Record>, writer: nat): seq<Record> {
    if log == [] then []
    else
      var last := log[|log| - 1];
      By(log[..|log| - 1], writer) + if last.writer == writer then [last] else []
  }

  function Payloads(log: seq<Record>): seq<seq<byte>> {
    seq(|log|, i requires 0 <= i < |log| => log[i].payload)
  }

  function Partial(lock: Lock): seq<byte> {
    if lock.Held? && lock.count <= |lock.payload| then lock.payload[..lock.count] else []
  }

  function Current(lock: Lock, writer: nat): seq<seq<byte>> {
    if lock.Held? && lock.writer == writer then [lock.payload] else []
  }

  predicate Prefixes(log: seq<Record>) {
    forall i | 0 <= i < |log| :: log[i].written <= log[i].payload
  }

  /** Finished, current and waiting payloads of a writer are the submitted ones, in order. */
  predicate OrderOf(p: Pty, w: nat) {
    Payloads(By(p.log, w)) + Current(p.lock, w) + Of(p.waiting, w) == Of(p.submitted, w)
  }

  ghost predicate InOrder(p: Pty) {
    forall w: nat :: OrderOf(p, w)
  }

  ghost predicate Inv(p: Pty) {
    && (p.lock.Held? ==> p.lock.count <= |p.lock.payload|)
    && p.bytes == Concat(Written(p.log)) + Partial(p.lock)
    && Prefixes(p.log)
    && InOrder(p)
  }

  lemma LogGrows(log: seq<Record>, r: Record, w: nat)
    ensures Written(log + [r]) == Written(log) + [r.written]
    ensures Concat(Written(log + [r])) == Concat(Written(log)) + r.written
    ensures By(log + [r], w) == By(log, w) + if r.writer == w then [r] else []
    ensures Payloads(By(log + [r], w)) == Payloads(By(log, w)) + if r.writer == w then [r.payload] else []
  {
    assert Written(log + [r]) == Written(log) + [r.written];
    ConcatOne(Written(log), r.written);
    assert (log + [r])[..|log|] == log;
  }

  lemma FinishOrder(p: Pty, q: Pty, r: Record, w: nat)
    requires OrderOf(p, w) && p.lock.Held? && r.writer == p.lock.writer && r.payload == p.lock.payload
    requires q.lock.Free? && q.log == p.log + [r] && q.waiting == p.waiting && q.submitted == p.submitted
    ensures OrderOf(q, w)
  {
    LogGrows(p.log, r, w);
    assert Payloads(By(q.log, w)) == Payloads(By(p.log, w)) + Current(p.lock, w);
    assert Payloads(By(q.log, w)) + [] == Payloads(By(q.log, w));
  }

  /** The lock is given up with a record of what was written. */
  lemma Finish(p: Pty, q: Pty)
    requires Inv(p) && p.lock.Held? && p.lock.count <= |p.lock.payload|
    requires q == p.(lock := Free,
                     log := p.log + [Record(p.lock.writer, p.lock.payload, p.lock.payload[..p.lock.count])])
    ensures Inv(q)
  {
    var r := Record(p.lock.writer, p.lock.payload, p.lock.payload[..p.lock.count]);
    forall w: nat ensures OrderOf(q, w) {
      FinishOrder(p, q, r, w);
    }
    FinishBytes(p, q, r);
  }

  lemma FinishBytes(p: Pty, q: Pty, r: Record)
    requires p.bytes == Concat(Written(p.log)) + r.written && q.bytes == p.bytes
    requires q.lock.Free? && q.log == p.log + [r]
    ensures q.bytes == Concat(Written(q.log)) + Partial(q.lock)
  {
    LogGrows(p.log, r, 0);
    assert Concat(Written(q.log)) + [] == Concat(Written(q.log));
  }

  lemma StartOrder(p: Pty, q: Pty, writer: nat, w: nat)
    requires OrderOf(p, w) && Do(p, Acquire(writer)) == Some(q)
    ensures OrderOf(q, w)
  {
    var done := Payloads(By(p.log, w));
    assert done + [] == done;
    if w == writer {
      assert done + [q.lock.payload] + Of(q.waiting, w) == done + Of(p.waiting, w);
    }
  }

  lemma Start(p: Pty, writer: nat)
    requires Inv(p) && Do(p, Acquire(writer)).Some?
    ensures Inv(Do(p, Acquire(writer)).value)
  {
    var q := Do(p, Acquire(writer)).value;
    forall w: nat ensures OrderOf(q, w) {
      StartOrder(p, q, writer, w);
    }
  }

  lemma SubmitOrder(p: Pty, q: Pty, writer: nat, payload: seq<byte>, w: nat)
    requires OrderOf(p, w) && Do(p, Submit(writer, payload)) == Some(q)
    ensures OrderOf(q, w)
  {
    var front := Payloads(By(p.log, w)) + Current(p.lock, w);
    assert front + (Of(p.waiting, w) + [payload]) == front + Of(p.waiting, w) + [payload];
  }

  lemma Enqueue(p: Pty, writer: nat, payload: seq<byte>)
    requires Inv(p)
    ensures Inv(Do(p, Submit(writer, payload)).value)
  {
    var q := Do(p, Submit(writer, payload)).value;
    forall w: nat ensures OrderOf(q, w) {
      SubmitOrder(p, q, writer, payload, w);
    }
  }

  lemma Progress(p: Pty, n: nat)
    requires Inv(p) && Do(p, WriteSome(n)).Some?
    ensures Inv(Do(p, WriteSome(n)).value)
  {
    var q := Do(p, WriteSome(n)).value;
    ProgressBytes(p, n);
    forall w: nat ensures OrderOf(q, w) {
      ProgressOrder(p, q, n, w);
    }
  }

  lemma ProgressOrder(p: Pty, q: Pty, n: nat, w: nat)
    requires OrderOf(p, w) && Do(p, WriteSome(n)) == Some(q)
    ensures OrderOf(q, w)
  {
  }

  lemma ProgressBytes(p: Pty, n: nat)
    requires Do(p, WriteSome(n)).Some? && p.bytes == Concat(Written(p.log)) + Partial(p.lock)
    ensures var q := Do(p, WriteSome(n)).value;
            q.bytes == Concat(Written(q.log)) + Partial(q.lock)
  {
    var from := p.lock.count;
    assert p.lock.payload[..from] + p.lock.payload[from..from + n] == p.lock.payload[..from + n];
    var done := Concat(Written(p.log));
    assert done + p.lock.payload[..from] + p.lock.payload[from..from + n] == done + p.lock.payload[..from + n];
  }

  lemma StepKeepsInv(p: Pty, a: Action)
    requires Inv(p) && Do(p, a).Some?
    ensures Inv(Do(p, a).value)
  {
    match a {
      case Submit(w, payload) => Enqueue(p, w, payload);
      case Acquire(w) => Start(p, w);
      case WriteSome(n) => Progress(p, n);
      case Release =>
        assert p.lock.payload[..p.lock.count] == p.lock.payload;
        Finish(p, Do(p, a).value);
      case WriteFails => Finish(p, Do(p, a).value);
    }
  }

  lemma {:induction false} RunKeepsInv(p: Pty, run: seq<Action>)
    requires Inv(p) && Run(p, run).Some?
    ensures Inv(Run(p, run).value)
    decreases |run|
  {
    if run == [] {
    } else {
      StepKeepsInv(p, run[0]);
      RunKeepsInv(Do(p, run[0]).value, run[1..]);
    }
  }

  /** In every run the PTY input is a concatenation of contiguous payload prefixes, one per
      finished write and one for the write in progress, and every writer's payloads appear
      in the order it submitted them. */
  lemma PtyInputIsSerial(p: Pty, w: nat)
    requires ReachablePty(p)
    ensures p.bytes == Concat(Written(p.log)) + Partial(p.lock)
    ensures Prefixes(p.log)
    ensures Payloads(By(p.log, w)) + Current(p.lock, w) + Of(p.waiting, w) == Of(p.submitted, w)
  {
    var run: seq<Action> :| Run(FRESH, run) == Some(p);
    assert forall v: nat :: OrderOf(FRESH, v);
    RunKeepsInv(FRESH, run);
    assert OrderOf(p, w);
  }

  /** The payloads that `w` submitted in a run, in order. */
  function SubmittedIn(run: seq<Action>, w: nat): seq<seq<byte>> {
    if run == [] then []
    else (if run[0].Submit? && run[0].writer == w then [run[0].payload] else []) + SubmittedIn(run[1..], w)
  }

  /** No payload is lost on the way: the history has every one. */
  lemma {:induction false} SubmittedIsAll(p: Pty, run: seq<Action>, w: nat)
    requires Run(p, run).Some?
    ensures Of(Run(p, run).value.submitted, w) == Of(p.submitted, w) + SubmittedIn(run, w)
    decreases |run|
  {
    if run == [] {
      assert Of(p.submitted, w) + [] == Of(p.submitted, w);
    } else {
      var q := Do(p, run[0]).value;
      var first := if run[0].Submit? && run[0].writer == w then [run[0].payload] else [];
      assert Of(p.submitted, w) + [] == Of(p.submitted, w);
      assert Of(q.submitted, w) == Of(p.submitted, w) + first;
      SubmittedIsAll(q, run[1..], w);
      Associates(Of(p.submitted, w), first, SubmittedIn(run[1..], w));
    }
  }

  /** Without failed writes and with the lock free, the input is whole payloads. */
  lemma WholePayloads(p: Pty)
    requires ReachablePty(p) && p.lock.Free?
    requires forall i | 0 <= i < |p.log| :: p.log[i].written == p.log[i].payload
    ensures p.bytes == Concat(Payloads(p.log))
  {
    PtyInputIsSerial(p, 0);
    assert Written(p.log) == Payloads(p.log);
    assert p.bytes == Concat(Written(p.log)) + [];
  }

  // ----- what one writer contributes -----

  /** After a short write nothing more of this writer reaches the PTY. */
  predicate NothingAfterShort(parts: seq<Record>) {
    forall i, j | 0 <= i < j < |parts| && parts[i].written != parts[i].payload :: parts[j].written == []
  }

  /** Then its contribution is the start of what it meant to write. */
  lemma {:induction false} ContributionIsPrefix(parts: seq<Record>)
    requires Prefixes(parts) && NothingAfterShort(parts)
    ensures Concat(Written(parts)) <= Concat(Payloads(parts))
  {
    if parts == [] {
      assert Written(parts) == [];
    } else {
      var rest := parts[1..];
      assert Written(parts)[1..] == Written(rest) && Payloads(parts)[1..] == Payloads(rest);
      assert Prefixes(rest);
      if parts[0].written == parts[0].payload {
        assert NothingAfterShort(rest);
        ContributionIsPrefix(rest);
      } else {
        forall j | 0 <= j < |rest| ensures rest[j].written == [] {
          assert parts[j + 1].written == [];
        }
        ConcatOfEmpty(Written(rest));
        assert Concat(Written(parts)) == parts[0].written + [];
      }
    }
  }

  lemma {:induction false} ConcatOfEmpty(parts: seq<seq<byte>>)
    requires forall i | 0 <= i < |parts| :: parts[i] == []
    ensures Concat(parts) == []
  {
    if parts == [] {
    } else {
      ConcatOfEmpty(parts[1..]);
    }
  }

  /** The same payload sizes and write counts, with other bytes. */
  predicate SameShape(a: seq<Record>, b: seq<Record>) {
    |a| == |b| && forall i | 0 <= i < |a| :: |a[i].payload| == |b[i].payload| && |a[i].written| == |b[i].written|
  }

  /** Every choice of bytes gives a prefix. */
  ghost predicate AlwaysPrefix(parts: seq<Record>) {
    forall other | SameShape(parts, other) && Prefixes(other) :: Concat(Written(other)) <= Concat(Payloads(other))
  }

  /** A record of the same shape whose payload is `x` throughout. */
  function Painted(r: Record, x: byte): (q: Record)
    requires |r.written| <= |r.payload|
    ensures |q.payload| == |r.payload| && |q.written| == |r.written| && q.written <= q.payload
  {
    var payload := seq(|r.payload|, i => x);
    Record(r.writer, payload, payload[..|r.written|])
  }

  /** The records with record `j` made of ones and all others of zeros. */
  function Highlight(parts: seq<Record>, j: nat): seq<Record>
    requires Prefixes(parts)
  {
    seq(|parts|, i requires 0 <= i < |parts| => Painted(parts[i], if i == j then 1 else 0))
  }

  lemma {:induction false} AllZero(parts: seq<seq<byte>>)
    requires forall i | 0 <= i < |parts| :: forall k | 0 <= k < |parts[i]| :: parts[i][k] == 0
    ensures forall k | 0 <= k < |Concat(parts)| :: Concat(parts)[k] == 0
  {
    if parts == [] {
    } else {
      AllZero(parts[1..]);
    }
  }

  lemma {:induction false} ConcatLonger(a: seq<seq<byte>>, b: seq<seq<byte>>, s: nat)
    requires |a| == |b| && s < |a| && |a[s]| < |b[s]| && forall i | 0 <= i < |a| :: |a[i]| <= |b[i]|
    ensures |Concat(a)| < |Concat(b)|
    decreases |a|
  {
    if s == 0 {
      ConcatNotShorter(a[1..], b[1..]);
    } else {
      ConcatLonger(a[1..], b[1..], s - 1);
    }
  }

  lemma {:induction false} ConcatNotShorter(a: seq<seq<byte>>, b: seq<seq<byte>>)
    requires |a| == |b| && forall i | 0 <= i < |a| :: |a[i]| <= |b[i]|
    ensures |Concat(a)| <= |Concat(b)|
    decreases |a|
  {
    if a == [] {
    } else {
      ConcatNotShorter(a[1..], b[1..]);
    }
  }

  /** A later contribution after a short write: for some bytes it is not a prefix. */
  lemma LateContributionShows(parts: seq<Record>, s: nat, j: nat)
    requires Prefixes(parts) && s < j < |parts|
    requires parts[s].written != parts[s].payload && parts[j].written != []
    ensures var other := Highlight(parts, j);
            && SameShape(parts, other) && Prefixes(other)
            && !(Concat(Written(other)) <= Concat(Payloads(other)))
  {
    var other := Highlight(parts, j);
    var w, p := Written(other), Payloads(other);
    var w0, p0 := w[..j], p[..j];
    var at := |Concat(w0)|;
    assert w == w0 + w[j..] && p == p0 + p[j..];
    ConcatAppend(w0, w[j..]);
    ConcatAppend(p0, p[j..]);
    assert w[j..][0] == other[j].written;
    assert Concat(w)[at] == 1;
    ConcatLonger(w0, p0, s);
    AllZero(p0);
    assert Concat(p)[at] == Concat(p0)[at] == 0;
  }

  /** A writer is sure to contribute a prefix of what it meant to write exactly when nothing
      of it reaches the PTY after a short write. */
  lemma PrefixIffNothingAfterShort(parts: seq<Record>)
    requires Prefixes(parts)
    ensures AlwaysPrefix(parts) <==> NothingAfterShort(parts)
  {
    if NothingAfterShort(parts) {
      forall other | SameShape(parts, other) && Prefixes(other)
        ensures Concat(Written(other)) <= Concat(Payloads(other))
      {
        ShapeKeepsNothingAfterShort(parts, other);
        ContributionIsPrefix(other);
      }
    } else {
      var s, j :| 0 <= s < j < |parts| && parts[s].written != parts[s].payload && parts[j].written != [];
      LateContributionShows(parts, s, j);
    }
  }

  lemma ShapeKeepsNothingAfterShort(a: seq<Record>, b: seq<Record>)
    requires SameShape(a, b) && Prefixes(a) && Prefixes(b) && NothingAfterShort(a)
    ensures NothingAfterShort(b)
  {
    forall i, j | 0 <= i < j < |b| && b[i].written != b[i].payload ensures b[j].written == [] {
      assert a[i].written != a[i].payload;
    }
  }

  lemma {:induction false} RunAppend(p: Pty, a: seq<Action>, b: seq<Action>)
    requires Run(p, a).Some?
    ensures Run(p, a + b) == Run(Run(p, a).value, b)
    decreases |a|
  {
    if a == [] {
      assert a + b == b;
    } else {
      assert (a + b)[1..] == a[1..] + b;
      RunAppend(Do(p, a[0]).value, a[1..], b);
    }
  }

  lemma Reaches(p: Pty, a: Action)
    requires ReachablePty(p) && Do(p, a).Some?
    ensures ReachablePty(Do(p, a).value)
  {
    var run: seq<Action> :| Run(FRESH, run) == Some(p);
    RunAppend(FRESH, run, [a]);
    assert [a][0] == a && [a][1..] == [];
    assert Run(p, [a]) == Run(Do(p, a).value, []);
  }

  /** It does happen: one write fails half-way, the next one succeeds, and the bytes in
      between are missing. */
  lemma ShortWriteExample() returns (p: Pty)
    ensures ReachablePty(p) && p.lock.Free? && p.waiting == map[0 := []]
    ensures p.submitted == map[0 := [[1, 2], [3]]] && p.bytes == [1, 3]
  {
    p := HalfWritten();
    Reaches(p, WriteFails);
    p := Do(p, WriteFails).value;
    Reaches(p, Acquire(0));
    p := Do(p, Acquire(0)).value;
    assert [3 as byte][0..1] == [3 as byte];
    Reaches(p, WriteSome(1));
    p := Do(p, WriteSome(1)).value;
    Reaches(p, Release);
    p := Do(p, Release).value;
  }

  lemma HalfWritten() returns (p: Pty)
    ensures ReachablePty(p) && p.lock == Held(0, [1, 2], 1) && p.waiting == map[0 := [[3]]]
    ensures p.submitted == map[0 := [[1, 2], [3]]] && p.bytes == [1] && p.log == []
  {
    p := FRESH;
    assert Run(FRESH, []) == Some(FRESH);
    Reaches(p, Submit(0, [1, 2]));
    p := Do(p, Submit(0, [1, 2])).value;
    Reaches(p, Submit(0, [3]));
    assert [] + [[1, 2]] + [[3]] == [[1, 2], [3 as byte]];
    p := Do(p, Submit(0, [3])).value;
    assert p.submitted == map[0 := [[1, 2], [3]]];
    Reaches(p, Acquire(0));
    p := Do(p, Acquire(0)).value;
    Reaches(p, WriteSome(1));
    p := Do(p, WriteSome(1)).value;
  }
}
