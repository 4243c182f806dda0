/** The rolling backlog of an agent: a ring that keeps the last bytes pushed into it. */
module Ring {
  import opened Bytes

  /** The cell that holds the `i`-th oldest element. */
  function Slot(size: nat, start: nat, i: nat): (k: nat)
    requires start < size && i < size
    ensures k < size
  {
    if start + i < size then start + i else start + i - size
  }

  /** The `len` elements from `start` on, wrapping around. */
  function Window<T>(cells: seq<T>, start: nat, len: nat): (s: seq<T>)
    requires start < |cells| && len <= |cells|
    ensures |s| == len
  {
    seq(len, i requires 0 <= i < len => cells[Slot(|cells|, start, i)])
  }

  lemma WindowPop<T>(cells: seq<T>, start: nat, len: nat)
    requires start < |cells| && 0 < len <= |cells|
    ensures var next := Slot(|cells|, start, if |cells| == 1 then 0 else 1);
            Window(cells, next, len - 1) == Window(cells, start, len)[1..]
  {
  }

  lemma WindowPush<T>(cells: seq<T>, start: nat, len: nat, x: T)
    requires start < |cells| && len < |cells|
    ensures Window(cells[Slot(|cells|, start, len) := x], start, len + 1) == Window(cells, start, len) + [x]
  {
    var end := Slot(|cells|, start, len);
    forall i | 0 <= i < len ensures Slot(|cells|, start, i) != end {
    }
  }

  class RingBuffer {
    const cells: array<byte>
    var start: nat
    var len: nat

    ghost predicate Valid()
      reads this
    {
      0 < cells.Length && start < cells.Length && len <= cells.Length
    }

    /** The bytes held, oldest first. */
    ghost function Contents(): (s: seq<byte>)
      requires Valid()
      reads this, cells
      ensures |s| == len
    {
      Window(cells[..], start, len)
    }

    constructor (capacity: nat)
      requires 0 < capacity
      ensures Valid() && fresh(cells) && cells.Length == capacity
      ensures Contents() == []
    {
      cells := new byte[capacity];
      start, len := 0, 0;
    }

    method PushByte(b: byte)
      requires Valid()
      modifies this, cells
      ensures Valid()
      ensures Contents() == LastN(old(Contents()) + [b], cells.Length)
    {
      ghost var was := Contents();
      ghost var kept := was;
      if len == cells.Length {
        WindowPop(cells[..], start, len);
        start := if start + 1 == cells.Length then 0 else start + 1;
        len := len - 1;
        kept := was[1..];
      }
      assert Contents() == kept;
      WindowPush(cells[..], start, len, b);
      var end := Slot(cells.Length, start, len);
      ghost var before := cells[..];
      cells[end] := b;
      assert cells[..] == before[end := b];
      len := len + 1;
      assert Contents() == kept + [b];
    }

    /** Bytes go in one at a time; the oldest make room once the ring is full. */
    method Push(bytes: seq<byte>)
      requires Valid()
      modifies this, cells
      ensures Valid()
      ensures Contents() == LastN(old(Contents()) + bytes, cells.Length)
    {
      ghost var was := Contents();
      var i := 0;
      PushedNothing(was, bytes, cells.Length);
      while i < |bytes|
        invariant i <= |bytes|
        invariant Valid()
        invariant Contents() == LastN(was + bytes[..i], cells.Length)
      {
        PushedSoFar(was, bytes, i, cells.Length);
        PushByte(bytes[i]);
        i := i + 1;
      }
      assert bytes[..i] == bytes;
    }

    /** A copy of the contents, as sent to a new subscriber. */
    method Copy() returns (s: seq<byte>)
      requires Valid()
      ensures s == Contents()
    {
      s := [];
      var i := 0;
      while i < len
        invariant i <= len
        invariant s == Contents()[..i]
      {
        s := s + [cells[Slot(cells.Length, start, i)]];
        i := i + 1;
      }
    }
  }

  lemma PushedNothing(was: seq<byte>, bytes: seq<byte>, n: nat)
    requires |was| <= n
    ensures LastN(was + bytes[..0], n) == was
  {
    assert was + bytes[..0] == was;
  }

  lemma PushedSoFar(was: seq<byte>, bytes: seq<byte>, i: nat, n: nat)
    requires i < |bytes|
    ensures LastN(LastN(was + bytes[..i], n) + [bytes[i]], n) == LastN(was + bytes[..i + 1], n)
  {
    LastNAppend(was + bytes[..i], [bytes[i]], n);
    assert was + bytes[..i] + [bytes[i]] == was + bytes[..i + 1];
  }

  /** What is left in a ring of capacity `n` that held `s` after pushing `chunks` in turn. */
  function AfterPushes(s: seq<byte>, chunks: seq<seq<byte>>, n: nat): seq<byte>
    decreases |chunks|
  {
    if chunks == [] then s else AfterPushes(LastN(s + chunks[0], n), chunks[1..], n)
  }

  /** Any sequence of pushes leaves the last `n` bytes of everything ever pushed. */
  lemma {:induction false} RingHoldsSuffix(s: seq<byte>, chunks: seq<seq<byte>>, n: nat)
    requires |s| <= n
    ensures AfterPushes(s, chunks, n) == LastN(s + Concat(chunks), n)
    decreases |chunks|
  {
    if chunks == [] {
      assert s + Concat(chunks) == s;
    } else {
      var rest := Concat(chunks[1..]);
      RingHoldsSuffix(LastN(s + chunks[0], n), chunks[1..], n);
      LastNAppend(s + chunks[0], rest, n);
      Associates(s, chunks[0], rest);
    }
  }
}
