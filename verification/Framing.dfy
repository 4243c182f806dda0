/** Length-prefixed frames on a byte stream. The payload codec is a parameter. */
module Framing {
  import opened Bytes

  const MAX_FRAME_LEN: nat := 16777216

  const U32_LIMIT: nat := 0x1_0000_0000

  /** Four bytes, least significant first. */
  function Le32(n: nat): (b: seq<byte>)
    requires n < U32_LIMIT
    ensures |b| == 4
  {
    [(n % 256) as byte, (n / 256 % 256) as byte, (n / 65536 % 256) as byte, (n / 16777216) as byte]
  }

  function FromLe32(b: seq<byte>): nat
    requires |b| == 4
  {
    b[0] as nat + 256 * b[1] as nat + 65536 * b[2] as nat + 16777216 * b[3] as nat
  }

  lemma Le32RoundTrip(n: nat)
    requires n < U32_LIMIT
    ensures FromLe32(Le32(n)) == n
  {
    var a, b := n / 256, n / 65536;
    assert n == 256 * a + n % 256;
    assert a == 256 * (a / 256) + a % 256 && a / 256 == b;
    assert b == 256 * (b / 256) + b % 256 && b / 256 == n / 16777216;
  }

  lemma Quotients(n: nat)
    requires n < U32_LIMIT
    ensures n / 256 / 256 == n / 65536 && n / 256 / 65536 == n / 16777216 && n / 256 / 16777216 == 0
    ensures n / 16777216 < 256
  {
  }

  /** Least significant byte first: the first byte is the remainder, the others are the start of
      the quotient's bytes. */
  lemma Le32IsLittleEndian(n: nat)
    requires n < U32_LIMIT
    ensures Le32(n)[0] as int == n % 256 && Le32(n)[1..] == Le32(n / 256)[..3] && Le32(n / 256)[3] == 0
  {
    Quotients(n);
    var a, b := Le32(n), Le32(n / 256);
    assert a[1] == b[0] && a[2] == b[1] && a[3] == b[2];
  }

  // ----- one frame -----

  datatype Result<+M> = Msg(value: M) | BadPayload | TooLong(len: nat) | Eof

  /** The first frame of a byte stream, and what follows it. */
  function Parse<M>(bytes: seq<byte>, decode: seq<byte> -> Option<M>): (Result<M>, seq<byte>) {
    if |bytes| < 4 then (Eof, [])
    else
      var len, rest := FromLe32(bytes[..4]), bytes[4..];
      if len > MAX_FRAME_LEN then (TooLong(len), rest)
      else if |rest| < len then (Eof, [])
      else (match decode(rest[..len]) case Some(m) => Msg(m) case None => BadPayload, rest[len..])
  }

  /** What one message looks like on the stream. */
  function Frame<M>(m: M, encode: M -> seq<byte>): seq<byte>
    requires |encode(m)| < U32_LIMIT
  {
    Le32(|encode(m)|) + encode(m)
  }

  function Frames<M>(msgs: seq<M>, encode: M -> seq<byte>): seq<byte>
    requires forall i | 0 <= i < |msgs| :: |encode(msgs[i])| < U32_LIMIT
  {
    if msgs == [] then [] else Frame(msgs[0], encode) + Frames(msgs[1..], encode)
  }

  /** A stream that takes `room` more bytes before writing fails. */
  class Sink {
    var sent: seq<byte>
    var room: nat

    method WriteAll(bytes: seq<byte>) returns (ok: bool)
      modifies this
      ensures ok <==> |bytes| <= old(room)
      ensures sent == old(sent) + Take(bytes, old(room)) && room == old(room) - |Take(bytes, old(room))|
    {
      var part := Take(bytes, room);
      sent := sent + part;
      ok := |bytes| <= room;
      room := room - |part|;
    }

    /** The length, then the payload. Only the width of the length field is checked. When the
        stream fails in the middle the start of the frame has been sent. */
    method WriteMsg<M>(m: M, encode: M -> seq<byte>) returns (ok: bool)
      modifies this
      ensures ok <==> |encode(m)| < U32_LIMIT && |Frame(m, encode)| <= old(room)
      ensures |encode(m)| >= U32_LIMIT ==> sent == old(sent) && room == old(room)
      ensures |encode(m)| < U32_LIMIT ==>
                var part := Take(Frame(m, encode), old(room));
                sent == old(sent) + part && room == old(room) - |part|
    {
      var bytes := encode(m);
      if |bytes| >= U32_LIMIT {
        return false;
      }
      ghost var before, space := sent, room;
      ok := WriteAll(Le32(|bytes|));
      if ok {
        ok := WriteAll(bytes);
      }
      TakeBoth(before, Le32(|bytes|), bytes, space);
    }

    /** Messages one after the other, until one fails. */
    method WriteMsgs<M>(msgs: seq<M>, encode: M -> seq<byte>) returns (count: nat)
      modifies this
      ensures count <= |msgs| && forall i | 0 <= i < count :: |encode(msgs[i])| < U32_LIMIT
      ensures count == |msgs| ==> sent == old(sent) + Frames(msgs, encode)
      ensures count < |msgs| ==>
                var whole := old(sent) + Frames(msgs[..count], encode);
                || (|encode(msgs[count])| >= U32_LIMIT && sent == whole)
                || (|encode(msgs[count])| < U32_LIMIT && room == 0
                    && whole <= sent < whole + Frame(msgs[count], encode))
    {
      count := 0;
      assert msgs[..0] == [] && sent + [] == sent;
      while count < |msgs|
        invariant count <= |msgs| && forall i | 0 <= i < count :: |encode(msgs[i])| < U32_LIMIT
        invariant sent == old(sent) + Frames(msgs[..count], encode)
      {
        ghost var whole := sent;
        var ok := WriteMsg(msgs[count], encode);
        if !ok {
          return;
        }
        OneMoreFrame(old(sent), msgs, count, encode);
        count := count + 1;
      }
      assert msgs[..count] == msgs;
    }
  }

  lemma OneMoreFrame<M>(before: seq<byte>, msgs: seq<M>, k: nat, encode: M -> seq<byte>)
    requires k < |msgs| && forall i | 0 <= i <= k :: |encode(msgs[i])| < U32_LIMIT
    ensures before + Frames(msgs[..k], encode) + Frame(msgs[k], encode) == before + Frames(msgs[..k + 1], encode)
  {
    assert msgs[..k + 1] == msgs[..k] + [msgs[k]];
    FramesAppend(msgs[..k], msgs[k], encode);
    Associates(before, Frames(msgs[..k], encode), Frame(msgs[k], encode));
  }

  lemma TakeBoth(before: seq<byte>, a: seq<byte>, b: seq<byte>, n: nat)
    ensures |a| <= n ==> before + a + Take(b, n - |a|) == before + Take(a + b, n)
    ensures n < |a| ==> before + Take(a, n) == before + Take(a + b, n)
  {
    if |a| <= n {
      assert a + Take(b, n - |a|) == Take(a + b, n);
    }
  }

  lemma {:induction false} FramesAppend<M>(msgs: seq<M>, m: M, encode: M -> seq<byte>)
    requires |encode(m)| < U32_LIMIT && forall i | 0 <= i < |msgs| :: |encode(msgs[i])| < U32_LIMIT
    ensures Frames(msgs + [m], encode) == Frames(msgs, encode) + Frame(m, encode)
    decreases |msgs|
  {
    if msgs == [] {
      assert Frames([m], encode) == Frame(m, encode) + Frames([], encode);
      assert [] + [m] == [m];
    } else {
      assert (msgs + [m])[1..] == msgs[1..] + [m];
      FramesAppend(msgs[1..], m, encode);
      Associates(Frame(msgs[0], encode), Frames(msgs[1..], encode), Frame(m, encode));
    }
  }

  /** A stream that delivers its bytes in pieces of any size. */
  class Source {
    var pending: seq<seq<byte>>

    /** Read until `n` bytes are there, however they arrive, or the stream ends. */
    method ReadExact(n: nat) returns (r: Option<seq<byte>>)
      modifies this
      ensures var all := Concat(old(pending));
              if n <= |all| then r == Some(all[..n]) && Concat(pending) == all[n..]
              else r == None && Concat(pending) == []
    {
      var buf: seq<byte> := [];
      ghost var all := Concat(pending);
      while |buf| < n
        invariant |buf| <= n && all == buf + Concat(pending)
        decreases n - |buf|, |pending|
      {
        if pending == [] {
          return None;
        }
        var piece := pending[0];
        var take := if |piece| <= n - |buf| then |piece| else n - |buf|;
        TakePiece(buf, pending, take);
        buf := buf + piece[..take];
        pending := if take == |piece| then pending[1..] else [piece[take..]] + pending[1..];
      }
      return Some(buf);
    }

    method ReadMsg<M>(decode: seq<byte> -> Option<M>) returns (r: Result<M>)
      modifies this
      ensures (r, Concat(pending)) == Parse(Concat(old(pending)), decode)
    {
      ghost var all := Concat(pending);
      var prefix := ReadExact(4);
      if prefix.None? {
        return Eof;
      }
      var len := FromLe32(prefix.value);
      if len > MAX_FRAME_LEN {
        return TooLong(len);
      }
      var payload := ReadExact(len);
      if payload.None? {
        return Eof;
      }
      match decode(payload.value) {
        case Some(m) => return Msg(m);
        case None => return BadPayload;
      }
    }

    /** Up to `count` messages one after the other, until one cannot be read. */
    method ReadMsgs<M>(decode: seq<byte> -> Option<M>, count: nat) returns (msgs: seq<M>)
      modifies this
      ensures (msgs, Concat(pending)) == ReadAll(Concat(old(pending)), decode, count)
    {
      msgs := [];
      var n: nat := count;
      ghost var all := ReadAll(Concat(pending), decode, count);
      assert [] + all.0 == all.0;
      while n > 0
        invariant n <= count
        invariant all == (msgs + ReadAll(Concat(pending), decode, n).0, ReadAll(Concat(pending), decode, n).1)
      {
        ReadStep(msgs, Concat(pending), decode, n);
        var r := ReadMsg(decode);
        if !r.Msg? {
          return;
        }
        msgs := msgs + [r.value];
        n := n - 1;
      }
      assert msgs + [] == msgs;
    }
  }

  lemma ReadStep<M>(before: seq<M>, bytes: seq<byte>, decode: seq<byte> -> Option<M>, n: nat)
    requires n > 0
    ensures var (r, rest) := Parse(bytes, decode);
            var all := ReadAll(bytes, decode, n);
            if r.Msg? then
              before + all.0 == before + [r.value] + ReadAll(rest, decode, n - 1).0
              && all.1 == ReadAll(rest, decode, n - 1).1
            else before + all.0 == before && all.1 == rest
  {
    var (r, rest) := Parse(bytes, decode);
    if r.Msg? {
      var more := ReadAll(rest, decode, n - 1).0;
      assert before + ([r.value] + more) == before + [r.value] + more;
    }
  }

  lemma TakePiece(buf: seq<byte>, pending: seq<seq<byte>>, take: nat)
    requires pending != [] && take <= |pending[0]|
    ensures var piece := pending[0];
            var rest := if take == |piece| then pending[1..] else [piece[take..]] + pending[1..];
            buf + Concat(pending) == buf + piece[..take] + Concat(rest)
  {
    var piece := pending[0];
    assert piece == piece[..take] + piece[take..];
    if take < |piece| {
      assert ([piece[take..]] + pending[1..])[1..] == pending[1..];
    }
  }

  // ----- what comes back -----

  /** A written frame reads back exactly when its payload is within the reader's limit. */
  lemma FrameComesBack<M>(m: M, encode: M -> seq<byte>, decode: seq<byte> -> Option<M>, rest: seq<byte>)
    requires |encode(m)| < U32_LIMIT && decode(encode(m)) == Some(m)
    ensures var p := encode(m);
            Parse(Frame(m, encode) + rest, decode) ==
            if |p| <= MAX_FRAME_LEN then (Msg(m), rest) else (TooLong(|p|), p + rest)
  {
    var p := encode(m);
    var bytes := Frame(m, encode) + rest;
    Le32RoundTrip(|p|);
    assert bytes[..4] == Le32(|p|);
    assert bytes[4..] == p + rest;
    assert (p + rest)[..|p|] == p && (p + rest)[|p|..] == rest;
  }

  /** A frame that is cut short anywhere is the end of the stream. */
  lemma CutFrameIsEof<M>(m: M, encode: M -> seq<byte>, decode: seq<byte> -> Option<M>, k: nat)
    requires |encode(m)| <= MAX_FRAME_LEN && k < |Frame(m, encode)|
    ensures Parse(Frame(m, encode)[..k], decode) == (Eof, [])
  {
    var p, part := encode(m), Frame(m, encode)[..k];
    Le32RoundTrip(|p|);
    if k >= 4 {
      assert part[..4] == Le32(|p|);
    }
  }

  /** A payload that does not decode is refused, and the stream goes on after it. */
  lemma BadPayloadIsSkipped<M>(payload: seq<byte>, decode: seq<byte> -> Option<M>, rest: seq<byte>)
    requires |payload| <= MAX_FRAME_LEN && decode(payload) == None
    ensures Parse(Le32(|payload|) + payload + rest, decode) == (BadPayload, rest)
  {
    var bytes := Le32(|payload|) + payload + rest;
    Le32RoundTrip(|payload|);
    assert bytes[..4] == Le32(|payload|);
    assert bytes[4..] == payload + rest;
    assert (payload + rest)[..|payload|] == payload && (payload + rest)[|payload|..] == rest;
  }

  /** The messages of a stream, up to the first that cannot be read, and what follows. */
  function ReadAll<M>(bytes: seq<byte>, decode: seq<byte> -> Option<M>, count: nat): (seq<M>, seq<byte>)
    decreases count
  {
    if count == 0 then ([], bytes)
    else
      var (r, rest) := Parse(bytes, decode);
      if !r.Msg? then ([], rest)
      else var (more, left) := ReadAll(rest, decode, count - 1); ([r.value] + more, left)
  }

  /** The frames of any message sequence within the limit, cut into any pieces and followed by
      anything, decode back to that sequence. */
  lemma FramesComeBack<M>(
      msgs: seq<M>, encode: M -> seq<byte>, decode: seq<byte> -> Option<M>, pieces: seq<seq<byte>>, rest: seq<byte>)
    requires Codable(msgs, encode, decode) && Concat(pieces) == Frames(msgs, encode) + rest
    ensures ReadAll(Concat(pieces), decode, |msgs|) == (msgs, rest)
  {
    ReadFrames(msgs, encode, decode, rest);
  }

  /** Payloads are within the limit and decode back. */
  predicate Codable<M(==)>(msgs: seq<M>, encode: M -> seq<byte>, decode: seq<byte> -> Option<M>) {
    forall i | 0 <= i < |msgs| :: |encode(msgs[i])| <= MAX_FRAME_LEN && decode(encode(msgs[i])) == Some(msgs[i])
  }

  lemma {:induction false} ReadFrames<M>(
      msgs: seq<M>, encode: M -> seq<byte>, decode: seq<byte> -> Option<M>, rest: seq<byte>)
    requires Codable(msgs, encode, decode)
    ensures ReadAll(Frames(msgs, encode) + rest, decode, |msgs|) == (msgs, rest)
    decreases |msgs|
  {
    if msgs == [] {
      assert Frames(msgs, encode) + rest == rest;
    } else {
      var tail := Frames(msgs[1..], encode) + rest;
      ReadFrames(msgs[1..], encode, decode, rest);
      FirstComesBack(msgs, encode, decode, rest);
      ReadOneMore(Frames(msgs, encode) + rest, decode, msgs[0], tail, msgs[1..], rest);
      assert [msgs[0]] + msgs[1..] == msgs;
    }
  }

  lemma FirstComesBack<M>(
      msgs: seq<M>, encode: M -> seq<byte>, decode: seq<byte> -> Option<M>, rest: seq<byte>)
    requires Codable(msgs, encode, decode) && msgs != []
    ensures Parse(Frames(msgs, encode) + rest, decode) == (Msg(msgs[0]), Frames(msgs[1..], encode) + rest)
  {
    FrameComesBack(msgs[0], encode, decode, Frames(msgs[1..], encode) + rest);
    Associates(Frame(msgs[0], encode), Frames(msgs[1..], encode), rest);
  }

  lemma ReadOneMore<M>(
      bytes: seq<byte>, decode: seq<byte> -> Option<M>, m: M, rest: seq<byte>, more: seq<M>, left: seq<byte>)
    requires Parse(bytes, decode) == (Msg(m), rest) && ReadAll(rest, decode, |more|) == (more, left)
    ensures ReadAll(bytes, decode, |more| + 1) == ([m] + more, left)
  {
  }
}
