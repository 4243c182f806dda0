/** Trimming, as the standard library of the original does it. */
module Strings {

  /** The code points with the Unicode White_Space property. */
  predicate IsWhitespace(c: char) {
    var p := c as int;
    9 <= p <= 13 || p == 32 || p == 0x85 || p == 0xA0 || p == 0x1680 || 0x2000 <= p <= 0x200A ||
    p == 0x2028 || p == 0x2029 || p == 0x202F || p == 0x205F || p == 0x3000
  }

  /** In ASCII: the space, and tab to carriage return. */
  lemma AsciiWhitespace(c: char)
    requires c as int < 128
    ensures IsWhitespace(c) <==> c == ' ' || '\t' <= c <= '\r'
  {
  }

  function TrimStart(s: string): string {
    if s != [] && IsWhitespace(s[0]) then TrimStart(s[1..]) else s
  }

  function TrimEnd(s: string): string {
    if s != [] && IsWhitespace(s[|s| - 1]) then TrimEnd(s[..|s| - 1]) else s
  }

  function Trim(s: string): string {
    TrimEnd(TrimStart(s))
  }

  predicate AllWhitespace(s: string) {
    forall i | 0 <= i < |s| :: IsWhitespace(s[i])
  }

  lemma {:induction false} TrimStartExact(s: string) returns (front: string)
    ensures s == front + TrimStart(s) && AllWhitespace(front)
    ensures TrimStart(s) != [] ==> !IsWhitespace(TrimStart(s)[0])
  {
    if s == [] || !IsWhitespace(s[0]) {
      front := [];
    } else {
      var rest := TrimStartExact(s[1..]);
      front := [s[0]] + rest;
    }
  }

  lemma {:induction false} TrimEndExact(s: string) returns (back: string)
    ensures s == TrimEnd(s) + back && AllWhitespace(back)
    ensures TrimEnd(s) != [] ==> !IsWhitespace(TrimEnd(s)[|TrimEnd(s)| - 1])
    ensures TrimEnd(s) <= s
  {
    if s == [] || !IsWhitespace(s[|s| - 1]) {
      back := [];
    } else {
      var last := s[|s| - 1];
      var rest := TrimEndExact(s[..|s| - 1]);
      back := rest + [last];
      assert s == s[..|s| - 1] + [last];
    }
  }

  /** Trimming takes whitespace off both ends, all of it, and nothing else. */
  lemma TrimExact(s: string) returns (front: string, back: string)
    ensures s == front + Trim(s) + back && AllWhitespace(front) && AllWhitespace(back)
    ensures Trim(s) != [] ==> !IsWhitespace(Trim(s)[0]) && !IsWhitespace(Trim(s)[|Trim(s)| - 1])
  {
    front := TrimStartExact(s);
    back := TrimEndExact(TrimStart(s));
    assert front + (Trim(s) + back) == front + Trim(s) + back;
  }

  /** Whatever has no whitespace at its ends comes out of any padding. */
  lemma TrimPadded(front: string, s: string, back: string)
    requires AllWhitespace(front) && AllWhitespace(back)
    requires s != [] && !IsWhitespace(s[0]) && !IsWhitespace(s[|s| - 1])
    ensures Trim(front + s + back) == s
  {
    TrimStartPadded(front, s + back);
    assert front + (s + back) == front + s + back;
    TrimEndPadded(s, back);
  }

  lemma {:induction false} TrimStartPadded(front: string, s: string)
    requires AllWhitespace(front) && s != [] && !IsWhitespace(s[0])
    ensures TrimStart(front + s) == s
  {
    if front == [] {
      assert front + s == s;
    } else {
      assert (front + s)[1..] == front[1..] + s;
      TrimStartPadded(front[1..], s);
    }
  }

  lemma {:induction false} TrimEndPadded(s: string, back: string)
    requires AllWhitespace(back) && s != [] && !IsWhitespace(s[|s| - 1])
    ensures TrimEnd(s + back) == s
    decreases |back|
  {
    if back == [] {
      assert s + back == s;
    } else {
      var n := |back| - 1;
      assert (s + back)[..|s| + n] == s + back[..n];
      TrimEndPadded(s, back[..n]);
    }
  }
}
