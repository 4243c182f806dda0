/** The streaming detach matcher of the attach client: an online search for the
    detach trigger in terminal input that arrives in reads of arbitrary sizes. */
module DetachMatcher {
  import opened Bytes

  datatype DetachTrigger = DetachTrigger(raw: Option<byte>, csi: seq<byte>)

  datatype ClientMsg = Stdin(bytes: seq<byte>) | Resize(rows: nat, cols: nat) | Detach

  // ----- one buffer -----

  /** A trigger, in either encoding, starts at `i`. */
  predicate HitAt(s: seq<byte>, t: DetachTrigger, i: nat)
    requires i < |s|
  {
    t.raw == Some(s[i]) || t.csi <= s[i..]
  }

  predicate NoHit(s: seq<byte>, t: DetachTrigger) {
    forall i | 0 <= i < |s| :: !HitAt(s, t, i)
  }

  predicate IsFirstHit(s: seq<byte>, t: DetachTrigger, i: nat) {
    i < |s| && HitAt(s, t, i) && forall j | 0 <= j < i :: !HitAt(s, t, j)
  }

  /** The least index at which a trigger starts. */
  ghost function FirstHit(s: seq<byte>, t: DetachTrigger): (r: Option<nat>)
    ensures r.Some? ==> r.value < |s|
  {
    if i: nat :| IsFirstHit(s, t, i) then Some(i) else None
  }

  lemma {:induction false} SomeFirstHit(s: seq<byte>, t: DetachTrigger, i: nat)
    requires i < |s| && HitAt(s, t, i)
    ensures exists j: nat :: IsFirstHit(s, t, j)
    decreases i
  {
    if j: nat :| j < i && HitAt(s, t, j) {
      SomeFirstHit(s, t, j);
    } else {
      assert IsFirstHit(s, t, i);
    }
  }

  lemma FirstHitCorrect(s: seq<byte>, t: DetachTrigger)
    ensures var r := FirstHit(s, t);
            if r.Some? then IsFirstHit(s, t, r.value) else NoHit(s, t)
  {
    if i: nat :| i < |s| && HitAt(s, t, i) {
      SomeFirstHit(s, t, i);
    }
  }

  lemma FirstHitIs(s: seq<byte>, t: DetachTrigger, i: nat)
    requires IsFirstHit(s, t, i)
    ensures FirstHit(s, t) == Some(i)
  {
  }

  /** `k` splits off the longest tail of `s` that could be the start of `csi`. */
  predicate IsHold(s: seq<byte>, csi: seq<byte>, k: nat) {
    k <= |s| && s[k..] <= csi && forall j | 0 <= j < k :: !(s[j..] <= csi)
  }

  ghost function Hold(s: seq<byte>, csi: seq<byte>): (k: nat)
    ensures k <= |s|
  {
    SomeHold(s, csi, 0);
    var k: nat :| IsHold(s, csi, k);
    k
  }

  lemma {:induction false} SomeHold(s: seq<byte>, csi: seq<byte>, from: nat)
    requires from <= |s| && forall j | 0 <= j < from :: !(s[j..] <= csi)
    ensures exists k: nat :: IsHold(s, csi, k)
    decreases |s| - from
  {
    if s[from..] <= csi {
      assert IsHold(s, csi, from);
    } else {
      SomeHold(s, csi, from + 1);
    }
  }

  lemma HoldCorrect(s: seq<byte>, csi: seq<byte>)
    ensures IsHold(s, csi, Hold(s, csi))
  {
    SomeHold(s, csi, 0);
  }

  lemma HoldIs(s: seq<byte>, csi: seq<byte>, k: nat)
    requires IsHold(s, csi, k)
    ensures Hold(s, csi) == k
  {
    HoldCorrect(s, csi);
  }

  method FindDetachTrigger(bytes: seq<byte>, t: DetachTrigger) returns (r: Option<(nat, nat)>)
    ensures FirstHit(bytes, t) == if r.Some? then Some(r.value.0) else None
    ensures r.Some? ==> r.value.1 == if t.raw == Some(bytes[r.value.0]) then 1 else |t.csi|
  {
    var i := 0;
    while i < |bytes|
      invariant i <= |bytes|
      invariant forall j | 0 <= j < i :: !HitAt(bytes, t, j)
    {
      if t.raw == Some(bytes[i]) {
        FirstHitIs(bytes, t, i);
        return Some((i, 1));
      }
      if t.csi <= bytes[i..] {
        FirstHitIs(bytes, t, i);
        return Some((i, |t.csi|));
      }
      i := i + 1;
    }
    FirstHitCorrect(bytes, t);
    return None;
  }

  method PartialPrefixAtEnd(bytes: seq<byte>, t: DetachTrigger) returns (split: nat)
    ensures split == Hold(bytes, t.csi)
  {
    if bytes == [] {
      return 0;
    }
    var max := if |t.csi| < |bytes| then |t.csi| else |bytes|;
    var k := max;
    while k >= 1
      invariant 0 <= k <= max
      invariant forall j | 0 <= j < |bytes| - k :: !(bytes[j..] <= t.csi)
    {
      if bytes[|bytes| - k..] == t.csi[..k] {
        HoldIs(bytes, t.csi, |bytes| - k);
        return |bytes| - k;
      }
      k := k - 1;
    }
    HoldIs(bytes, t.csi, |bytes|);
    return |bytes|;
  }

  // ----- the loop over reads -----

  function Payload(b: seq<byte>): seq<ClientMsg> {
    if b == [] then [] else [Stdin(b)]
  }

  /** What the loop sends from here on when it holds `held` and the terminal delivers
      `chunks`. An empty read is end of input or a read error. */
  ghost function StdinRun(t: DetachTrigger, held: seq<byte>, chunks: seq<seq<byte>>): seq<ClientMsg>
    decreases |chunks|
  {
    if chunks == [] || chunks[0] == [] then []
    else
      var buf := held + chunks[0];
      match FirstHit(buf, t)
      case Some(i) => Payload(buf[..i]) + [Detach]
      case None =>
        var k := Hold(buf, t.csi);
        Payload(buf[..k]) + StdinRun(t, buf[k..], chunks[1..])
  }

  /** The stdin thread. `room` sends succeed before the receiving side goes away. */
  method StdinLoop(t: DetachTrigger, chunks: seq<seq<byte>>, room: nat) returns (sent: seq<ClientMsg>)
    ensures sent == Take(StdinRun(t, [], chunks), room)
  {
    sent := [];
    var leftover: seq<byte> := [];
    ghost var all := StdinRun(t, [], chunks);
    ghost var rest := all;
    var n := 0;
    while n < |chunks|
      invariant n <= |chunks|
      invariant |sent| <= room
      invariant all == sent + rest
      invariant rest == StdinRun(t, leftover, chunks[n..])
    {
      if chunks[n] == [] {
        return;
      }
      var combined := leftover + chunks[n];
      StdinStep(t, leftover, chunks[n..]);
      var hit := FindDetachTrigger(combined, t);
      if hit.Some? {
        var start := hit.value.0;
        if start > 0 {
          Room(sent, Payload(combined[..start]), [Detach], room);
          if |sent| == room {
            return;
          }
          sent := sent + [Stdin(combined[..start])];
        }
        Room(sent, [Detach], [], room);
        if |sent| < room {
          sent := sent + [Detach];
        }
        return;
      }
      var split := PartialPrefixAtEnd(combined, t);
      assert chunks[n..][1..] == chunks[n + 1..];
      ghost var was := sent;
      rest := StdinRun(t, combined[split..], chunks[n + 1..]);
      Room(was, Payload(combined[..split]), rest, room);
      if split > 0 {
        if |sent| == room {
          return;
        }
        sent := sent + [Stdin(combined[..split])];
      }
      assert sent == was + Payload(combined[..split]);
      leftover := if split < |combined| then combined[split..] else [];
      assert leftover == combined[split..];
      n := n + 1;
    }
  }

  /** Appending one more message, when there is room for it. */
  lemma Room(sent: seq<ClientMsg>, next: seq<ClientMsg>, rest: seq<ClientMsg>, room: nat)
    requires |sent| <= room
    ensures sent + (next + rest) == (sent + next) + rest
    ensures |sent| == room ==> Take(sent + (next + rest), room) == sent
    ensures |sent| + |next| <= room && rest == [] ==> Take(sent + (next + rest), room) == sent + next
  {
  }

  lemma StdinStep(t: DetachTrigger, held: seq<byte>, chunks: seq<seq<byte>>)
    requires chunks != [] && chunks[0] != []
    ensures var buf := held + chunks[0];
            var i := FirstHit(buf, t);
            var k := Hold(buf, t.csi);
            && (i.Some? ==> StdinRun(t, held, chunks) == Payload(buf[..i.value]) + [Detach])
            && (i.None? ==> StdinRun(t, held, chunks) == Payload(buf[..k]) + StdinRun(t, buf[k..], chunks[1..]))
  {
  }

  // ----- what the loop means -----

  function Forwarded(msgs: seq<ClientMsg>): seq<byte> {
    if msgs == [] then []
    else (if msgs[0].Stdin? then msgs[0].bytes else []) + Forwarded(msgs[1..])
  }

  /** What must be sent for `input`, however it was cut into reads: everything before the
      first trigger and then a detach, or everything but a possible trigger start. */
  ghost function Answer(input: seq<byte>, t: DetachTrigger): (seq<byte>, bool) {
    match FirstHit(input, t)
    case Some(i) => (input[..i], true)
    case None => (input[..Hold(input, t.csi)], false)
  }

  function Outcome(msgs: seq<ClientMsg>): (seq<byte>, bool) {
    (Forwarded(msgs), Detach in msgs)
  }

  predicate AllNonempty(chunks: seq<seq<byte>>) {
    forall i | 0 <= i < |chunks| :: chunks[i] != []
  }

  /** The input up to and including the read that first completes a match. */
  ghost function Seen(t: DetachTrigger, before: seq<byte>, chunks: seq<seq<byte>>): seq<byte>
    decreases |chunks|
  {
    if chunks == [] || FirstHit(before, t).Some? then before
    else Seen(t, before + chunks[0], chunks[1..])
  }

  lemma {:induction false} ForwardedAppend(a: seq<ClientMsg>, b: seq<ClientMsg>)
    ensures Forwarded(a + b) == Forwarded(a) + Forwarded(b)
  {
    if a == [] {
      assert a + b == b;
    } else {
      assert (a + b)[1..] == a[1..] + b;
      ForwardedAppend(a[1..], b);
    }
  }

  lemma ForwardedPayload(b: seq<byte>)
    ensures Forwarded(Payload(b)) == b && Detach !in Payload(b)
  {
    if b != [] {
      assert Payload(b)[1..] == [];
    }
  }

  /** Nothing that starts before the held tail can still become a trigger. */
  lemma SentIsSettled(t: DetachTrigger, before: seq<byte>, read: seq<byte>, j: nat)
    requires FirstHit(before, t).None? && j < Hold(before, t.csi)
    ensures !HitAt(before + read, t, j) && !((before + read)[j..] <= t.csi)
  {
    FirstHitCorrect(before, t);
    HoldCorrect(before, t.csi);
    assert !HitAt(before, t, j) && !(before[j..] <= t.csi);
    assert (before + read)[j..] == before[j..] + read;
  }

  lemma HitShift(t: DetachTrigger, a: seq<byte>, b: seq<byte>, j: nat)
    requires j < |b|
    ensures HitAt(a + b, t, |a| + j) == HitAt(b, t, j)
  {
    assert (a + b)[|a| + j..] == b[j..];
  }

  /** A hit-free start can be dropped from the search. */
  lemma FirstHitAfter(t: DetachTrigger, a: seq<byte>, b: seq<byte>)
    requires forall j | 0 <= j < |a| :: !HitAt(a + b, t, j)
    ensures var r := FirstHit(b, t);
            FirstHit(a + b, t) == if r.Some? then Some(|a| + r.value) else None
  {
    var p, r := FirstHit(a + b, t), FirstHit(b, t);
    if r.Some? {
      ShiftFirstHit(t, a, b, r.value);
    } else if p.Some? {
      assert HitAt(a + b, t, p.value) by { FirstHitCorrect(a + b, t); }
      HitShift(t, a, b, p.value - |a|);
      assert NoHit(b, t) by { FirstHitCorrect(b, t); }
      assert false;
    }
  }

  lemma ShiftFirstHit(t: DetachTrigger, a: seq<byte>, b: seq<byte>, i: nat)
    requires forall j | 0 <= j < |a| :: !HitAt(a + b, t, j)
    requires FirstHit(b, t) == Some(i)
    ensures FirstHit(a + b, t) == Some(|a| + i)
  {
    FirstHitCorrect(b, t);
    HitShift(t, a, b, i);
    forall j | |a| <= j < |a| + i ensures !HitAt(a + b, t, j) {
      HitShift(t, a, b, j - |a|);
    }
    FirstHitIs(a + b, t, |a| + i);
  }

  /** The window the loop looks at finds the first hit of the whole input, and the tail it
      holds is the longest one of the whole input. */
  lemma WindowIsEnough(t: DetachTrigger, before: seq<byte>, read: seq<byte>)
    requires FirstHit(before, t).None?
    ensures var sent := Hold(before, t.csi);
            var buf := before[sent..] + read;
            var r := FirstHit(buf, t);
            && before + read == before[..sent] + buf
            && FirstHit(before + read, t) == (if r.Some? then Some(sent + r.value) else None)
            && Hold(before + read, t.csi) == sent + Hold(buf, t.csi)
  {
    var sent := Hold(before, t.csi);
    var buf := before[sent..] + read;
    assert before + read == before[..sent] + buf;
    forall j | 0 <= j < sent
      ensures !HitAt(before[..sent] + buf, t, j) && !((before[..sent] + buf)[j..] <= t.csi)
    {
      SentIsSettled(t, before, read, j);
    }
    FirstHitAfter(t, before[..sent], buf);
    HoldAfter(t.csi, before[..sent], buf);
  }

  lemma HoldAfter(csi: seq<byte>, a: seq<byte>, b: seq<byte>)
    requires forall j | 0 <= j < |a| :: !((a + b)[j..] <= csi)
    ensures Hold(a + b, csi) == |a| + Hold(b, csi)
  {
    var h := Hold(b, csi);
    HoldCorrect(b, csi);
    assert (a + b)[|a| + h..] == b[h..];
    forall j | 0 <= j < |a| + h ensures !((a + b)[j..] <= csi) {
      if |a| <= j { assert (a + b)[j..] == b[j - |a|..]; }
    }
    HoldIs(a + b, csi, |a| + h);
  }

  /** Everything sent once `chunks` have arrived after `before`, and whether a detach was. */
  ghost function Total(t: DetachTrigger, before: seq<byte>, chunks: seq<seq<byte>>): (seq<byte>, bool) {
    var sent := Hold(before, t.csi);
    var msgs := StdinRun(t, before[sent..], chunks);
    (before[..sent] + Forwarded(msgs), Detach in msgs)
  }

  lemma TotalHit(t: DetachTrigger, before: seq<byte>, chunks: seq<seq<byte>>)
    requires FirstHit(before, t).None? && chunks != [] && chunks[0] != []
    requires FirstHit(before + chunks[0], t).Some?
    ensures Total(t, before, chunks) == Answer(before + chunks[0], t)
  {
    var sent, all := Hold(before, t.csi), before + chunks[0];
    var buf := before[sent..] + chunks[0];
    WindowIsEnough(t, before, chunks[0]);
    StdinStep(t, before[sent..], chunks);
    var hit := FirstHit(buf, t);
    MeaningOfHit(buf[..hit.value]);
    assert before[..sent] + buf[..hit.value] == all[..sent + hit.value];
  }

  lemma TotalMiss(t: DetachTrigger, before: seq<byte>, chunks: seq<seq<byte>>)
    requires FirstHit(before, t).None? && chunks != [] && chunks[0] != []
    requires FirstHit(before + chunks[0], t).None?
    ensures Total(t, before, chunks) == Total(t, before + chunks[0], chunks[1..])
  {
    var sent, all := Hold(before, t.csi), before + chunks[0];
    var buf := before[sent..] + chunks[0];
    WindowIsEnough(t, before, chunks[0]);
    RunMiss(t, before[sent..], chunks);
    Regroup(before, sent, buf, Hold(buf, t.csi), all, Forwarded(StdinRun(t, buf[Hold(buf, t.csi)..], chunks[1..])));
  }

  lemma RunMiss(t: DetachTrigger, held: seq<byte>, chunks: seq<seq<byte>>)
    requires chunks != [] && chunks[0] != [] && FirstHit(held + chunks[0], t).None?
    ensures var buf := held + chunks[0];
            var k := Hold(buf, t.csi);
            var rest := StdinRun(t, buf[k..], chunks[1..]);
            && Forwarded(StdinRun(t, held, chunks)) == buf[..k] + Forwarded(rest)
            && (Detach in StdinRun(t, held, chunks) <==> Detach in rest)
  {
    var buf := held + chunks[0];
    StdinStep(t, held, chunks);
    MeaningOfMiss(buf[..Hold(buf, t.csi)], StdinRun(t, buf[Hold(buf, t.csi)..], chunks[1..]));
  }

  lemma Regroup(before: seq<byte>, sent: nat, buf: seq<byte>, k: nat, all: seq<byte>, tail: seq<byte>)
    requires sent <= |before| && k <= |buf| && all == before[..sent] + buf
    ensures before[..sent] + (buf[..k] + tail) == all[..sent + k] + tail
    ensures all[sent + k..] == buf[k..]
  {
    assert all[..sent + k] == before[..sent] + buf[..k];
  }

  /** Any run, any trigger: what has been sent in all is the answer for the input seen. */
  lemma {:induction false} RunAnswersSeen(t: DetachTrigger, before: seq<byte>, chunks: seq<seq<byte>>)
    requires FirstHit(before, t).None? && AllNonempty(chunks)
    ensures Total(t, before, chunks) == Answer(Seen(t, before, chunks), t)
    decreases |chunks|
  {
    if chunks == [] {
      var sent := Hold(before, t.csi);
      assert StdinRun(t, before[sent..], chunks) == [];
      assert before[..sent] + [] == before[..sent];
    } else {
      var all := before + chunks[0];
      assert Seen(t, before, chunks) == Seen(t, all, chunks[1..]);
      if FirstHit(all, t).Some? {
        TotalHit(t, before, chunks);
      } else {
        TotalMiss(t, before, chunks);
        RunAnswersSeen(t, all, chunks[1..]);
      }
    }
  }

  lemma MeaningOfHit(b: seq<byte>)
    ensures Forwarded(Payload(b) + [Detach]) == b
    ensures Detach in Payload(b) + [Detach]
  {
    ForwardedPayload(b);
    ForwardedAppend(Payload(b), [Detach]);
    assert (Payload(b) + [Detach])[|Payload(b)|] == Detach;
  }

  lemma MeaningOfMiss(b: seq<byte>, rest: seq<ClientMsg>)
    ensures Forwarded(Payload(b) + rest) == b + Forwarded(rest)
    ensures Detach in Payload(b) + rest <==> Detach in rest
  {
    ForwardedPayload(b);
    ForwardedAppend(Payload(b), rest);
  }

  // ----- independence of the read boundaries -----

  /** The loop gives the answer for the whole input, however it was cut into reads. */
  ghost predicate ChunkInvariant(t: DetachTrigger) {
    forall chunks: seq<seq<byte>> | AllNonempty(chunks) ::
      Outcome(StdinRun(t, [], chunks)) == Answer(Concat(chunks), t)
  }

  /** The raw byte is not strictly inside the escape sequence, unless it also starts it. */
  predicate ChunkSafe(t: DetachTrigger) {
    t.csi == [] || t.raw.None? || t.raw.value == t.csi[0] ||
    forall k | 1 <= k < |t.csi| - 1 :: t.csi[k] != t.raw.value
  }

  /** With a safe trigger, input that arrives later cannot move the first hit. */
  lemma FirstHitIsStable(t: DetachTrigger, s: seq<byte>, more: seq<byte>)
    requires ChunkSafe(t) && FirstHit(s, t).Some?
    ensures FirstHit(s + more, t) == FirstHit(s, t)
  {
    var i := FirstHit(s, t).value;
    FirstHitCorrect(s, t);
    forall j | 0 <= j < i ensures !HitAt(s + more, t, j) {
      NoEarlierHit(t, s, more, i, j);
    }
    assert (s + more)[i..] == s[i..] + more;
    FirstHitIs(s + more, t, i);
  }

  lemma NoEarlierHit(t: DetachTrigger, s: seq<byte>, more: seq<byte>, i: nat, j: nat)
    requires ChunkSafe(t) && IsFirstHit(s, t, i) && j < i
    ensures !HitAt(s + more, t, j)
  {
    assert !HitAt(s, t, j);
    var late := (s + more)[j..];
    assert late == s[j..] + more;
    assert late[0] == s[j] && late[i - j] == s[i];
    Inside(t.csi, late, i - j);
  }

  lemma Inside(csi: seq<byte>, s: seq<byte>, x: nat)
    ensures csi <= s && x < |csi| ==> csi[x] == s[x]
  {
  }

  /** Up to the read that completes a match, and from there on without it. */
  lemma {:induction false} SeenIsPrefix(t: DetachTrigger, before: seq<byte>, chunks: seq<seq<byte>>)
    ensures Seen(t, before, chunks) <= before + Concat(chunks)
    ensures FirstHit(Seen(t, before, chunks), t).None? ==> Seen(t, before, chunks) == before + Concat(chunks)
    decreases |chunks|
  {
    if chunks == [] || FirstHit(before, t).Some? {
      assert before + Concat<byte>([]) == before;
    } else {
      SeenIsPrefix(t, before + chunks[0], chunks[1..]);
      assert before + chunks[0] + Concat(chunks[1..]) == before + Concat(chunks);
    }
  }

  lemma SeenFromStart(t: DetachTrigger, chunks: seq<seq<byte>>)
    ensures Seen(t, [], chunks) <= Concat(chunks)
    ensures FirstHit(Seen(t, [], chunks), t).None? ==> Seen(t, [], chunks) == Concat(chunks)
  {
    SeenIsPrefix(t, [], chunks);
    assert [] + Concat(chunks) == Concat(chunks);
  }

  lemma OutcomeIsTotal(t: DetachTrigger, chunks: seq<seq<byte>>)
    requires AllNonempty(chunks)
    ensures Outcome(StdinRun(t, [], chunks)) == Answer(Seen(t, [], chunks), t)
  {
    RunAnswersSeen(t, [], chunks);
    var none: seq<byte> := [];
    assert none[Hold(none, t.csi)..] == none == none[..Hold(none, t.csi)];
    assert none + Forwarded(StdinRun(t, [], chunks)) == Forwarded(StdinRun(t, [], chunks));
  }

  lemma SafeAnswerIsStable(t: DetachTrigger, s: seq<byte>, more: seq<byte>)
    requires ChunkSafe(t) && FirstHit(s, t).Some?
    ensures Answer(s + more, t) == Answer(s, t)
  {
    FirstHitIsStable(t, s, more);
    var i := FirstHit(s, t).value;
    assert (s + more)[..i] == s[..i];
  }

  lemma SafeRunAnswersInput(t: DetachTrigger, chunks: seq<seq<byte>>)
    requires ChunkSafe(t) && AllNonempty(chunks)
    ensures Outcome(StdinRun(t, [], chunks)) == Answer(Concat(chunks), t)
  {
    var seen, input := Seen(t, [], chunks), Concat(chunks);
    OutcomeIsTotal(t, chunks);
    SeenFromStart(t, chunks);
    if FirstHit(seen, t).Some? {
      assert seen + input[|seen|..] == input;
      SafeAnswerIsStable(t, seen, input[|seen|..]);
    }
  }

  /** A raw byte inside the sequence fires too early when a read ends there. */
  lemma UnsafeRunDiffers(t: DetachTrigger, k: nat)
    requires t.csi != [] && t.raw.Some? && t.raw.value != t.csi[0]
    requires 1 <= k < |t.csi| - 1 && t.csi[k] == t.raw.value
    ensures var chunks := [t.csi[..k + 1], t.csi[k + 1..]];
            && AllNonempty(chunks)
            && Outcome(StdinRun(t, [], chunks)) != Answer(Concat(chunks), t)
  {
    var a, b := t.csi[..k + 1], t.csi[k + 1..];
    var chunks := [a, b];
    assert Concat(chunks) == t.csi by {
      assert chunks[1..] == [b];
      assert Concat([b]) == b + Concat<byte>([]);
      assert a + b == t.csi;
    }
    FirstHitCorrect(a, t);
    assert HitAt(a, t, k);
    assert !HitAt(a, t, 0);
    assert [] + a == a;
    assert Seen(t, [], chunks) == Seen(t, a, [b]) == a;
    OutcomeIsTotal(t, chunks);
    assert t.csi[0..] == t.csi;
    FirstHitIs(t.csi, t, 0);
  }

  /** The matcher ignores read boundaries exactly for the safe triggers. */
  lemma ChunkInvariantIffSafe(t: DetachTrigger)
    ensures ChunkInvariant(t) <==> ChunkSafe(t)
  {
    if ChunkSafe(t) {
      forall chunks: seq<seq<byte>> | AllNonempty(chunks)
        ensures Outcome(StdinRun(t, [], chunks)) == Answer(Concat(chunks), t)
      {
        SafeRunAnswersInput(t, chunks);
      }
    } else {
      var k :| 1 <= k < |t.csi| - 1 && t.csi[k] == t.raw.value;
      UnsafeRunDiffers(t, k);
      NotInvariant(t, [t.csi[..k + 1], t.csi[k + 1..]]);
    }
  }

  lemma NotInvariant(t: DetachTrigger, chunks: seq<seq<byte>>)
    requires AllNonempty(chunks) && Outcome(StdinRun(t, [], chunks)) != Answer(Concat(chunks), t)
    ensures !ChunkInvariant(t)
  {
  }

  /** An unsafe trigger, and one input on which two ways of reading it disagree. */
  lemma UnsafeExample()
    ensures var t := DetachTrigger(Some(66), [65, 66, 67]);
            && Outcome(StdinRun(t, [], [[65, 66, 67]])) == ([], true)
            && Outcome(StdinRun(t, [], [[65, 66], [67]])) == ([65], true)
  {
    var t := DetachTrigger(Some(66), [65, 66, 67]);
    var whole: seq<byte> := [65, 66, 67];
    assert whole[0..] == t.csi;
    FirstHitIs(whole, t, 0);
    assert [] + whole == whole;
    assert StdinRun(t, [], [whole]) == Payload([]) + [Detach];
    FirstHitIs([65, 66], t, 1);
    var part: seq<byte> := [65, 66];
    assert [] + part == part && part[..1] == [65];
    assert StdinRun(t, [], [part, [67]]) == Payload([65]) + [Detach];
    MeaningOfHit([]);
    MeaningOfHit([65]);
  }

  // ----- promptness and the held tail -----

  /** Messages never depend on reads that have not happened yet, and after the read that
      completes a match nothing more is sent. */
  lemma {:induction false} RunIsOnline(t: DetachTrigger, held: seq<byte>, a: seq<seq<byte>>, b: seq<seq<byte>>)
    ensures StdinRun(t, held, a) <= StdinRun(t, held, a + b)
    ensures Detach in StdinRun(t, held, a) ==> StdinRun(t, held, a + b) == StdinRun(t, held, a)
    decreases |a|
  {
    if a == [] {
    } else if a[0] == [] {
      assert (a + b)[0] == [];
    } else {
      var buf := held + a[0];
      assert (a + b)[1..] == a[1..] + b;
      StdinStep(t, held, a);
      StdinStep(t, held, a + b);
      if FirstHit(buf, t).None? {
        var k := Hold(buf, t.csi);
        RunIsOnline(t, buf[k..], a[1..], b);
        MeaningOfMiss(buf[..k], StdinRun(t, buf[k..], a[1..]));
      }
    }
  }

  lemma HitsStay(t: DetachTrigger, s: seq<byte>, input: seq<byte>)
    requires s <= input && FirstHit(s, t).Some?
    ensures FirstHit(input, t).Some?
  {
    FirstHitCorrect(s, t);
    var i := FirstHit(s, t).value;
    assert s[i..] <= input[i..];
    assert HitAt(input, t, i);
    FirstHitCorrect(input, t);
  }

  /** For any trigger: the detach is sent at the read that first completes a match, neither
      earlier nor later, and nothing is sent after it. */
  lemma DetachIsPrompt(t: DetachTrigger, chunks: seq<seq<byte>>, more: seq<seq<byte>>)
    requires AllNonempty(chunks)
    ensures Detach in StdinRun(t, [], chunks) <==> FirstHit(Concat(chunks), t).Some?
    ensures FirstHit(Concat(chunks), t).Some? ==> StdinRun(t, [], chunks + more) == StdinRun(t, [], chunks)
  {
    OutcomeIsTotal(t, chunks);
    SeenFromStart(t, chunks);
    var seen := Seen(t, [], chunks);
    if FirstHit(seen, t).Some? {
      HitsStay(t, seen, Concat(chunks));
    }
    RunIsOnline(t, [], chunks, more);
  }

  /** From the end of the input on nothing is sent, whatever was held and whatever came after. */
  lemma {:induction false} NothingAfterEnd(t: DetachTrigger, held: seq<byte>, a: seq<seq<byte>>, b: seq<seq<byte>>)
    ensures StdinRun(t, held, a + [[]] + b) == StdinRun(t, held, a)
    decreases |a|
  {
    var all := a + [[]] + b;
    if a == [] {
      assert all[0] == [];
    } else if a[0] == [] {
      assert all[0] == [];
    } else {
      assert all[0] == a[0] && all[1..] == a[1..] + [[]] + b;
      StdinStep(t, held, a);
      StdinStep(t, held, all);
      var buf := held + a[0];
      NothingAfterEnd(t, buf[Hold(buf, t.csi)..], a[1..], b);
    }
  }

  predicate WellFormedRun(msgs: seq<ClientMsg>) {
    forall i | 0 <= i < |msgs| ::
      (msgs[i].Detach? && i == |msgs| - 1) || (msgs[i].Stdin? && msgs[i].bytes != [])
  }

  /** Non-empty stdin messages, and at most one detach, which is last. */
  lemma {:induction false} RunIsWellFormed(t: DetachTrigger, held: seq<byte>, chunks: seq<seq<byte>>)
    ensures WellFormedRun(StdinRun(t, held, chunks))
    decreases |chunks|
  {
    if chunks == [] || chunks[0] == [] {
    } else {
      StdinStep(t, held, chunks);
      var buf := held + chunks[0];
      if FirstHit(buf, t).None? {
        RunIsWellFormed(t, buf[Hold(buf, t.csi)..], chunks[1..]);
      }
    }
  }

  /** Without a trigger in the input: what is withheld is the longest tail of all the input
      that can still become one, and it is shorter than the sequence. */
  lemma HeldTailIsExact(t: DetachTrigger, chunks: seq<seq<byte>>)
    requires AllNonempty(chunks) && NoHit(Concat(chunks), t)
    ensures var input := Concat(chunks);
            var sent := Forwarded(StdinRun(t, [], chunks));
            && sent <= input
            && IsHold(input, t.csi, |sent|)
            && (input != [] ==> |input| - |sent| < |t.csi|)
  {
    var seen, input := Seen(t, [], chunks), Concat(chunks);
    OutcomeIsTotal(t, chunks);
    SeenFromStart(t, chunks);
    NoHitInPrefix(t, seen, input);
    FirstHitCorrect(seen, t);
    var k := Hold(input, t.csi);
    HoldCorrect(input, t.csi);
    if input != [] {
      HeldIsShort(t, input, k);
    }
  }

  lemma NoHitInPrefix(t: DetachTrigger, s: seq<byte>, input: seq<byte>)
    requires s <= input && NoHit(input, t)
    ensures NoHit(s, t)
  {
    forall i | 0 <= i < |s| ensures HitAt(s, t, i) ==> HitAt(input, t, i) {
      assert s[i..] <= input[i..];
    }
  }

  lemma HeldIsShort(t: DetachTrigger, s: seq<byte>, k: nat)
    requires NoHit(s, t) && s != [] && IsHold(s, t.csi, k)
    ensures |s| - k < |t.csi|
  {
    assert !HitAt(s, t, if k < |s| then k else 0);
  }

  /** No stdin message is longer than one read plus an incomplete sequence. */
  lemma {:induction false} PayloadBound(t: DetachTrigger, held: seq<byte>, chunks: seq<seq<byte>>, limit: nat)
    requires forall i | 0 <= i < |chunks| :: |chunks[i]| <= limit
    requires t.csi != [] && |held| < |t.csi|
    ensures forall m | m in StdinRun(t, held, chunks) && m.Stdin? :: |m.bytes| < limit + |t.csi|
    decreases |chunks|
  {
    if chunks == [] || chunks[0] == [] {
    } else {
      StdinStep(t, held, chunks);
      var buf := held + chunks[0];
      if FirstHit(buf, t).None? {
        var k := Hold(buf, t.csi);
        FirstHitCorrect(buf, t);
        HoldCorrect(buf, t.csi);
        HeldIsShort(t, buf, k);
        PayloadBound(t, buf[k..], chunks[1..], limit);
      }
    }
  }
}
