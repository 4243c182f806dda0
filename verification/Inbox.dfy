/** The file inbox: an append-only log of lines, and a reader that remembers its position in
    a cursor file. */
module Inbox {
  import opened Bytes
  import opened Decimal
  import opened Strings

  const NEWLINE: byte := 10
  const CARRIAGE_RETURN: byte := 13

  /** Hard cap on an encoded line with its newline. */
  const MAX_LINE_BYTES: nat := 4000

  const USIZE_LIMIT: nat := 0x1_0000_0000_0000_0000

  // ----- the log -----

  /** An encoded message: no raw newline, and no carriage return at the end. */
  predicate IsLine(line: seq<byte>) {
    NEWLINE !in line && line != [] && line[|line| - 1] != CARRIAGE_RETURN
  }

  /** The file contents after `lines` were posted. */
  function LogText(lines: seq<seq<byte>>): seq<byte> {
    if lines == [] then [] else lines[0] + [NEWLINE] + LogText(lines[1..])
  }

  function StripCr(line: seq<byte>): seq<byte> {
    if line != [] && line[|line| - 1] == CARRIAGE_RETURN then line[..|line| - 1] else line
  }

  /** The position of the first newline, or the length. */
  function LineEnd(text: seq<byte>): (k: nat)
    ensures k <= |text|
  {
    if text == [] || text[0] == NEWLINE then 0 else 1 + LineEnd(text[1..])
  }

  lemma {:induction false} LineEndOf(line: seq<byte>, rest: seq<byte>)
    requires NEWLINE !in line
    ensures LineEnd(line + [NEWLINE] + rest) == |line|
  {
    if line == [] {
      assert (line + [NEWLINE] + rest)[0] == NEWLINE;
    } else {
      assert (line + [NEWLINE] + rest)[1..] == line[1..] + [NEWLINE] + rest;
      LineEndOf(line[1..], rest);
    }
  }

  /** The lines a reader finds in a file. A last line without a newline counts too. */
  function Lines(text: seq<byte>): seq<seq<byte>> {
    if text == [] then []
    else
      var k := LineEnd(text);
      if k == |text| then [text] else [StripCr(text[..k])] + Lines(text[k + 1..])
  }

  /** One post is one line. */
  lemma {:induction false} LinesOfLog(lines: seq<seq<byte>>)
    requires forall i | 0 <= i < |lines| :: IsLine(lines[i])
    ensures Lines(LogText(lines)) == lines
  {
    if lines == [] {
    } else {
      LineEndOf(lines[0], LogText(lines[1..]));
      LinesOfLog(lines[1..]);
      FirstLine(lines[0], LogText(lines[1..]));
    }
  }

  lemma FirstLine(line: seq<byte>, rest: seq<byte>)
    requires IsLine(line) && LineEnd(line + [NEWLINE] + rest) == |line|
    ensures Lines(line + [NEWLINE] + rest) == [line] + Lines(rest)
  {
    var text := line + [NEWLINE] + rest;
    assert text[..|line|] == line && text[|line| + 1..] == rest;
  }

  lemma {:induction false} LogTextAppend(lines: seq<seq<byte>>, line: seq<byte>)
    ensures LogText(lines + [line]) == LogText(lines) + line + [NEWLINE]
  {
    if lines == [] {
      assert [line][1..] == [];
    } else {
      assert (lines + [line])[1..] == lines[1..] + [line];
      LogTextAppend(lines[1..], line);
    }
  }

  function Newlines(text: seq<byte>): nat {
    if text == [] then 0 else (if text[0] == NEWLINE then 1 else 0) + Newlines(text[1..])
  }

  lemma {:induction false} NewlinesFrom(text: seq<byte>)
    ensures var k := LineEnd(text);
            Newlines(text) == if k == |text| then 0 else 1 + Newlines(text[k + 1..])
    ensures LineEnd(text) < |text| ==> text[LineEnd(text)] == NEWLINE
    ensures LineEnd(text) == |text| && text != [] ==> text[|text| - 1] != NEWLINE
  {
    if text == [] || text[0] == NEWLINE {
    } else {
      NewlinesFrom(text[1..]);
      var k := LineEnd(text);
      assert k < |text| ==> text[1..][k..] == text[k + 1..];
    }
  }

  /** A reader counts newline-terminated lines only, exactly when the file is empty or ends with
      a newline; otherwise it counts one more. */
  lemma {:induction false} UnterminatedLineCounts(text: seq<byte>)
    ensures |Lines(text)| == Newlines(text) <==> text == [] || text[|text| - 1] == NEWLINE
    ensures |Lines(text)| <= Newlines(text) + 1
    decreases |text|
  {
    if text == [] {
    } else {
      NewlinesFrom(text);
      var k := LineEnd(text);
      if k < |text| {
        var rest := text[k + 1..];
        UnterminatedLineCounts(rest);
        assert rest != [] ==> rest[|rest| - 1] == text[|text| - 1];
        assert |Lines(text)| == 1 + |Lines(rest)|;
      }
    }
  }

  /** A carriage return before the newline does not belong to the line. */
  lemma CarriageReturnIsDropped(line: seq<byte>, rest: seq<byte>)
    requires NEWLINE !in line
    ensures Lines(line + [CARRIAGE_RETURN, NEWLINE] + rest) == [line] + Lines(rest)
  {
    var full := line + [CARRIAGE_RETURN];
    var text := full + [NEWLINE] + rest;
    assert text == line + [CARRIAGE_RETURN, NEWLINE] + rest;
    LineEndOf(full, rest);
    assert text[..|full|] == full && text[|full| + 1..] == rest;
    assert full[..|full| - 1] == line;
  }

  /** An unterminated last line is read as it stands. */
  lemma {:induction false} UnterminatedLine(lines: seq<seq<byte>>, last: seq<byte>)
    requires (forall i | 0 <= i < |lines| :: IsLine(lines[i])) && last != [] && NEWLINE !in last
    ensures Lines(LogText(lines) + last) == lines + [last]
    decreases |lines|
  {
    if lines == [] {
      NoNewline(last);
      assert LogText(lines) + last == last;
    } else {
      var rest := LogText(lines[1..]) + last;
      UnterminatedLine(lines[1..], last);
      LineEndOf(lines[0], rest);
      FirstLine(lines[0], rest);
      assert LogText(lines) + last == lines[0] + [NEWLINE] + rest;
      assert [lines[0]] + (lines[1..] + [last]) == lines + [last];
    }
  }

  lemma {:induction false} NoNewline(text: seq<byte>)
    requires NEWLINE !in text
    ensures LineEnd(text) == |text|
  {
    if text == [] {
    } else {
      NoNewline(text[1..]);
    }
  }

  datatype PostResult = Posted | TooLong | OpenFailed | AppendFailed

  /** Append one line to the log, which is created if it is missing. `log` names the lines that
      are already there; `opens` and `appends` say whether the file operations succeed. */
  method Post(text: seq<byte>, encoded: seq<byte>, opens: bool, appends: bool, ghost log: seq<seq<byte>>)
    returns (r: PostResult, after: seq<byte>)
    requires IsLine(encoded)
    requires text == LogText(log) && forall i | 0 <= i < |log| :: IsLine(log[i])
    ensures r.TooLong? <==> |encoded| + 1 >= MAX_LINE_BYTES
    ensures r.Posted? <==> |encoded| + 1 < MAX_LINE_BYTES && opens && appends
    ensures r.OpenFailed? ==> !opens
    ensures r.Posted? ==> after == LogText(log + [encoded]) && Lines(after) == Lines(text) + [encoded]
    ensures !r.Posted? ==> after == text
  {
    after := text;
    var line := encoded + [NEWLINE];
    if |line| >= MAX_LINE_BYTES {
      return TooLong, after;
    }
    if !opens {
      return OpenFailed, after;
    }
    if !appends {
      return AppendFailed, after;
    }
    after := text + line;
    LogTextAppend(log, encoded);
    assert after == LogText(log + [encoded]);
    LinesOfLog(log);
    LinesOfLog(log + [encoded]);
    return Posted, after;
  }

  // ----- the cursor file -----

  /** An optional plus sign, at least one digit, and a value that fits. */
  function ParseUsize(s: string): Option<nat> {
    var digits := if s != [] && s[0] == '+' then s[1..] else s;
    if digits == [] || !AllDigits(digits) || Value(digits) >= USIZE_LIMIT then None else Some(Value(digits))
  }

  /** A missing or unreadable cursor is zero. */
  function ReadCursor(file: Option<string>): nat {
    if file.None? then 0
    else match ParseUsize(Trim(file.value))
      case Some(n) => n
      case None => 0
  }

  lemma DigitsNeedNoTrim(s: string)
    requires AllDigits(s)
    ensures Trim(s) == s
  {
  }

  /** The cursor text of `n`, cut short anywhere, reads as `n` without the missing digits:
      never as more than `n`. In full it reads as `n`. */
  lemma TornCursor(n: nat, k: nat)
    requires n < USIZE_LIMIT && k <= |Text(n)|
    ensures ReadCursor(Some(Text(n)[..k])) == if k == 0 then 0 else DropDigits(n, |Text(n)| - k)
    ensures ReadCursor(Some(Text(n)[..k])) <= n
    ensures k == |Text(n)| ==> ReadCursor(Some(Text(n)[..k])) == n
  {
    TextRoundTrip(n);
    PrefixDropsDigits(Text(n), k);
    DigitsReadBack(Text(n)[..k]);
    assert k == |Text(n)| ==> Text(n)[..k] == Text(n);
  }

  lemma DigitsReadBack(s: string)
    requires AllDigits(s) && Value(s) < USIZE_LIMIT
    ensures ReadCursor(Some(s)) == Value(s)
  {
    DigitsNeedNoTrim(s);
    assert s != [] ==> IsDigit(s[0]);
  }

  lemma WrittenCursor(n: nat)
    requires n < USIZE_LIMIT
    ensures ReadCursor(Some(Text(n))) == n
  {
    TornCursor(n, |Text(n)|);
    assert Text(n)[..|Text(n)|] == Text(n);
  }

  /** What a text without padding reads as is what it reads as in any padding. */
  lemma PaddedCursor(front: string, s: string, back: string)
    requires AllWhitespace(front) && AllWhitespace(back)
    requires s != [] && !IsWhitespace(s[0]) && !IsWhitespace(s[|s| - 1])
    ensures ReadCursor(Some(front + s + back)) == (match ParseUsize(s) case Some(n) => n case None => 0)
  {
    TrimPadded(front, s, back);
  }

  lemma PlainNumber(digits: string)
    requires digits != [] && AllDigits(digits)
    ensures ParseUsize(digits) == ParseUsize("+" + digits)
    ensures ParseUsize(digits) == if Value(digits) < USIZE_LIMIT then Some(Value(digits)) else None
  {
    assert IsDigit(digits[0]);
    assert ("+" + digits)[1..] == digits;
  }

  /** Digits are read as their value in any padding and with an optional plus sign; a number that
      does not fit reads as zero. */
  lemma CursorForms(front: string, digits: string, back: string)
    requires AllWhitespace(front) && AllWhitespace(back) && digits != [] && AllDigits(digits)
    ensures var n := if Value(digits) < USIZE_LIMIT then Value(digits) else 0;
            && ReadCursor(Some(front + digits + back)) == n
            && ReadCursor(Some(front + ("+" + digits) + back)) == n
  {
    assert IsDigit(digits[0]) && IsDigit(digits[|digits| - 1]);
    PlainNumber(digits);
    PaddedCursor(front, digits, back);
    PaddedCursor(front, "+" + digits, back);
  }

  /** Any other text, and a missing file, reads as zero. */
  lemma OtherCursors(text: string)
    requires forall digits | AllDigits(digits) :: Trim(text) != digits && Trim(text) != "+" + digits
    ensures ReadCursor(Some(text)) == 0 && ReadCursor(None) == 0
  {
    var s := Trim(text);
    if s != [] && s[0] == '+' {
      assert s == "+" + s[1..];
    }
  }

  // ----- one drain, without interruption -----

  datatype DrainResult = Done | Corrupt(line: nat) | WriteFailed

  /** The position a drain starts from: a file shorter than the cursor starts over. */
  function StartOf(cursor: nat, lines: seq<seq<byte>>): nat {
    if |lines| < cursor then 0 else cursor
  }

  /** `now` is `was` followed by the lines at positions `from` to `to`, all of them valid. */
  ghost predicate Emitted(
      lines: seq<seq<byte>>, isJson: seq<byte> -> bool, from: nat, to: nat, was: seq<seq<byte>>, now: seq<seq<byte>>)
  {
    from <= to <= |lines| && now == was + lines[from..to] && forall i | from <= i < to :: isJson(lines[i])
  }

  lemma EmitOne(
      lines: seq<seq<byte>>, isJson: seq<byte> -> bool, from: nat, to: nat, was: seq<seq<byte>>, now: seq<seq<byte>>)
    requires Emitted(lines, isJson, from, to, was, now) && to < |lines| && isJson(lines[to])
    ensures Emitted(lines, isJson, from, to + 1, was, now + [lines[to]])
  {
    assert lines[from..to + 1] == lines[from..to] + [lines[to]];
  }

  /** Why a drain stopped where it did, and what the cursor file then holds. */
  ghost predicate StoppedWell(
      r: DrainResult, lines: seq<seq<byte>>, isJson: seq<byte> -> bool, from: nat, to: nat, room: nat,
      fileBefore: Option<string>, file: Option<string>)
  {
    match r
    case Done => to == |lines| && Remembered(from, to, fileBefore, file)
    case Corrupt(n) => to < |lines| && n == to + 1 && !isJson(lines[to]) && Remembered(from, to, fileBefore, file)
    case WriteFailed =>
      && to == from + room + 1
      && (Remembered(from, to - 1, fileBefore, file) || Torn(to, file))
  }

  /** The cursor file holds the text of `n`, cut short anywhere. */
  predicate Torn(n: nat, file: Option<string>) {
    file.Some? && file.value <= Text(n)
  }

  /** The cursor file holds the position, unless there was nothing to record. */
  predicate Remembered(from: nat, to: nat, fileBefore: Option<string>, file: Option<string>) {
    if from < to then file == Some(Text(to)) else file == fileBefore
  }

  /** A drain does nothing without an inbox file. Otherwise it emits from the start position on
      and stops for a reason. */
  ghost predicate Drained(
      inbox: Option<seq<seq<byte>>>, isJson: seq<byte> -> bool, room: nat, r: DrainResult,
      at: nat, before: Option<string>, was: seq<seq<byte>>, to: nat, file: Option<string>, now: seq<seq<byte>>)
  {
    match inbox
    case None => r.Done? && to == at && now == was && file == before
    case Some(lines) =>
      && Emitted(lines, isJson, StartOf(at, lines), to, was, now)
      && StoppedWell(r, lines, isJson, StartOf(at, lines), to, room, before, file)
  }

  /** What a drain prints, line by line: a file shorter than the cursor is printed from its first
      line on, any other from the cursor on; to the end when the drain is done, up to a corrupt
      line, or up to the line whose position could not be stored. */
  lemma DrainPrints(
      lines: seq<seq<byte>>, isJson: seq<byte> -> bool, room: nat, r: DrainResult,
      at: nat, before: Option<string>, was: seq<seq<byte>>, to: nat, file: Option<string>, now: seq<seq<byte>>)
    requires Drained(Some(lines), isJson, room, r, at, before, was, to, file, now)
    ensures |lines| < at ==> to <= |lines| && now == was + lines[..to]
    ensures at <= |lines| ==> at <= to <= |lines| && now == was + lines[at..to]
    ensures r.Done? ==> to == |lines|
    ensures r.Done? && |lines| < at ==> now == was + lines
    ensures r.Done? && at <= |lines| ==> now == was + lines[at..]
    ensures r.Corrupt? ==> to < |lines| && r.line == to + 1 && !isJson(lines[to])
    ensures r.WriteFailed? ==> to == (if |lines| < at then 0 else at) + room + 1
  {
    assert to <= |lines| ==> lines[0..to] == lines[..to];
    assert lines[..|lines|] == lines;
  }

  class Reader {
    var cursor: nat
    var cursorFile: Option<string>
    var output: seq<seq<byte>>

    constructor (file: Option<string>)
      ensures cursor == ReadCursor(file) && cursorFile == file && output == []
    {
      cursor := ReadCursor(file);
      cursorFile := file;
      output := [];
    }

    /** Print every unread line and remember each one. The inbox file may be missing; `room`
        cursor writes succeed; a failing one leaves the file as it was or the first `torn`
        characters of the new text. */
    method Drain(inbox: Option<seq<seq<byte>>>, isJson: seq<byte> -> bool, room: nat, torn: Option<nat>)
      returns (r: DrainResult)
      requires inbox.Some? ==> |inbox.value| < USIZE_LIMIT
      modifies this
      ensures Drained(inbox, isJson, room, r, old(cursor), old(cursorFile), old(output), cursor, cursorFile, output)
    {
      if inbox.None? {
        return Done;
      }
      var lines := inbox.value;
      ghost var was, before := output, cursorFile;
      if |lines| < cursor {
        cursor := 0;
      }
      ghost var from := cursor;
      var budget := room;
      var idx := 0;
      assert lines[from..from] == [];
      while idx < |lines|
        invariant idx <= |lines| && (idx <= from ==> cursor == from) && (from <= idx ==> cursor == idx)
        invariant Emitted(lines, isJson, from, cursor, was, output)
        invariant Remembered(from, cursor, before, cursorFile)
        invariant cursor - from + budget == room
      {
        var lineNo := idx + 1;
        if lineNo <= cursor {
          idx := idx + 1;
          continue;
        }
        var line := lines[idx];
        if !isJson(line) {
          return Corrupt(lineNo);
        }
        EmitOne(lines, isJson, from, cursor, was, output);
        output := output + [line];
        cursor := lineNo;
        if budget == 0 {
          if torn.Some? {
            cursorFile := Some(Take(Text(cursor), torn.value));
          }
          return WriteFailed;
        }
        budget := budget - 1;
        cursorFile := Some(Text(cursor));
        idx := idx + 1;
      }
      return Done;
    }
  }

  /** The start of a reader process: outside an agent it does nothing, else it drains the inbox
      from the stored cursor on. Following is the same drain again and again. */
  method ReadInbox(
      name: Option<string>, file: Option<string>, inbox: Option<seq<seq<byte>>>, isJson: seq<byte> -> bool,
      room: nat, torn: Option<nat>)
    returns (r: DrainResult, printed: seq<seq<byte>>, cursor: nat, after: Option<string>)
    requires inbox.Some? ==> |inbox.value| < USIZE_LIMIT
    ensures if name.None? || name == Some("") then r.Done? && printed == [] && after == file
            else Drained(inbox, isJson, room, r, ReadCursor(file), file, [], cursor, after, printed)
  {
    if name.None? || name.value == "" {
      return Done, [], 0, file;
    }
    var reader := new Reader(file);
    r := reader.Drain(inbox, isJson, room, torn);
    return r, reader.output, reader.cursor, reader.cursorFile;
  }

  // ----- the reader process, interrupted anywhere -----

  /** Where a reader process is. `seen` is how many lines the file had when it was opened. */
  datatype Process =
    | Down
    | Polling(cursor: nat)
    | Draining(cursor: nat, seen: nat)
    | Printed(cursor: nat, seen: nat)
    | Writing(cursor: nat, seen: nat, rest: string)

  /** `printed` is the history of printed line numbers, `base` the cursor the current reader
      started from, and `mark` how much had been printed then. */
  datatype State = State(
    log: seq<seq<byte>>, file: Option<string>, reader: Process, printed: seq<nat>, base: nat, mark: nat)

  datatype Action =
    | PostLine(line: seq<byte>)
    | Start
    | Open
    | Print
    | Truncate
    | WriteChar
    | CloseFile
    | EndDrain
    | Crash

  function Do(s: State, a: Action): Option<State> {
    match a
    case PostLine(line) =>
      if |s.log| + 1 < USIZE_LIMIT then Some(s.(log := s.log + [line])) else None
    case Start =>
      if !s.reader.Down? then None
      else Some(s.(reader := Polling(ReadCursor(s.file)), base := ReadCursor(s.file), mark := |s.printed|))
    case Open =>
      if !s.reader.Polling? then None
      else Some(s.(reader := Draining(StartOf(s.reader.cursor, s.log), |s.log|)))
    case Print =>
      if !s.reader.Draining? || s.reader.cursor >= s.reader.seen then None
      else
        var n := s.reader.cursor + 1;
        Some(s.(printed := s.printed + [n], reader := Printed(n, s.reader.seen)))
    case Truncate =>
      if !s.reader.Printed? then None
      else Some(s.(file := Some(""), reader := Writing(s.reader.cursor, s.reader.seen, Text(s.reader.cursor))))
    case WriteChar =>
      if !s.reader.Writing? || s.reader.rest == [] || s.file.None? then None
      else Some(s.(file := Some(s.file.value + [s.reader.rest[0]]), reader := s.reader.(rest := s.reader.rest[1..])))
    case CloseFile =>
      if !s.reader.Writing? || s.reader.rest != [] then None
      else Some(s.(reader := Draining(s.reader.cursor, s.reader.seen)))
    case EndDrain =>
      if !s.reader.Draining? || s.reader.cursor < s.reader.seen then None
      else Some(s.(reader := Polling(s.reader.cursor)))
    case Crash =>
      if s.reader.Down? then None else Some(s.(reader := Down))
  }

  function Run(s: State, run: seq<Action>): Option<State>
    decreases |run|
  {
    if run == [] then Some(s)
    else match Do(s, run[0])
      case Some(t) => Run(t, run[1..])
      case None => None
  }

  /** Any log, no cursor file, no reader. */
  predicate IsInitial(s: State) {
    |s.log| < USIZE_LIMIT && s.file.None? && s.reader.Down? && s.printed == [] && s.base == 0 && s.mark == 0
  }

  ghost predicate ReachableState(s: State) {
    exists s0: State, run: seq<Action> | IsInitial(s0) :: Run(s0, run) == Some(s)
  }

  /** Every line up to `n` was printed at least once. */
  predicate Covered(printed: seq<nat>, n: nat) {
    forall l | 1 <= l <= n :: l in printed
  }

  function Count(from: nat, to: nat): seq<nat>
    requires from <= to
  {
    seq(to - from, i => from + 1 + i)
  }

  /** The cursor file reads as the in-memory cursor, one step behind after a print, and is a
      prefix of the cursor text while it is rewritten. */
  predicate FileMatches(file: Option<string>, r: Process) {
    match r
    case Down => true
    case Polling(c) => ReadCursor(file) == c
    case Draining(c, _) => ReadCursor(file) == c
    case Printed(c, _) => ReadCursor(file) + 1 == c
    case Writing(c, _, rest) => file.Some? && file.value + rest == Text(c)
  }

  predicate Inv(s: State) {
    && |s.log| < USIZE_LIMIT
    && Covered(s.printed, ReadCursor(s.file)) && ReadCursor(s.file) <= |s.log|
    && FileMatches(s.file, s.reader)
    && (!s.reader.Down? ==>
          && s.base <= s.reader.cursor <= |s.log| && s.mark <= |s.printed|
          && Covered(s.printed, s.reader.cursor)
          && s.printed[s.mark..] == Count(s.base, s.reader.cursor))
    && (s.reader.Draining? || s.reader.Printed? || s.reader.Writing? ==> s.reader.cursor <= s.reader.seen <= |s.log|)
  }

  lemma KeepPrint(s: State)
    requires Inv(s) && Do(s, Print).Some?
    ensures Inv(Do(s, Print).value)
  {
    OneMore(s.printed, s.mark, s.base, s.reader.cursor);
    StillCovered(s.printed, s.reader.cursor + 1, ReadCursor(s.file));
  }

  lemma OneMore(printed: seq<nat>, mark: nat, base: nat, c: nat)
    requires mark <= |printed| && base <= c && printed[mark..] == Count(base, c) && Covered(printed, c)
    ensures (printed + [c + 1])[mark..] == Count(base, c + 1)
    ensures Covered(printed + [c + 1], c + 1)
  {
    assert (printed + [c + 1])[mark..] == printed[mark..] + [c + 1];
    assert Count(base, c + 1) == Count(base, c) + [c + 1];
  }

  lemma StillCovered(printed: seq<nat>, next: nat, n: nat)
    requires Covered(printed, n)
    ensures Covered(printed + [next], n)
  {
  }

  lemma KeepTruncate(s: State)
    requires Inv(s) && Do(s, Truncate).Some?
    ensures Inv(Do(s, Truncate).value)
  {
    TornCursor(s.reader.cursor, 0);
    assert Text(s.reader.cursor)[..0] == "";
    assert "" + Text(s.reader.cursor) == Text(s.reader.cursor);
  }

  lemma KeepWriteChar(s: State)
    requires Inv(s) && Do(s, WriteChar).Some?
    ensures Inv(Do(s, WriteChar).value)
  {
    var t := Do(s, WriteChar).value;
    var text, c := Text(s.reader.cursor), s.reader.cursor;
    assert t.file.value + t.reader.rest == text;
    assert text[..|t.file.value|] == t.file.value;
    TornCursor(c, |t.file.value|);
  }

  lemma KeepCloseFile(s: State)
    requires Inv(s) && Do(s, CloseFile).Some?
    ensures Inv(Do(s, CloseFile).value)
  {
    assert s.file.value + [] == s.file.value;
    WrittenCursor(s.reader.cursor);
  }

  lemma StepKeepsInv(s: State, a: Action)
    requires Inv(s) && Do(s, a).Some?
    ensures Inv(Do(s, a).value)
  {
    match a {
      case Print => KeepPrint(s);
      case Truncate => KeepTruncate(s);
      case WriteChar => KeepWriteChar(s);
      case CloseFile => KeepCloseFile(s);
      case _ =>
    }
  }

  lemma {:induction false} RunKeepsInv(s: State, run: seq<Action>)
    requires Inv(s) && Run(s, run).Some?
    ensures Inv(Run(s, run).value)
    decreases |run|
  {
    if run == [] {
    } else {
      StepKeepsInv(s, run[0]);
      RunKeepsInv(Do(s, run[0]).value, run[1..]);
    }
  }

  lemma ReachableInv(s: State)
    requires ReachableState(s)
    ensures Inv(s)
  {
    var s0: State, run: seq<Action> :| IsInitial(s0) && Run(s0, run) == Some(s);
    RunKeepsInv(s0, run);
  }

  // ----- an undisturbed drain as a run -----

  lemma {:induction false} RunAppend(s: State, a: seq<Action>, b: seq<Action>)
    requires Run(s, a).Some?
    ensures Run(s, a + b) == Run(Run(s, a).value, b)
    decreases |a|
  {
    if a == [] {
      assert a + b == b;
    } else {
      assert (a + b)[1..] == a[1..] + b;
      RunAppend(Do(s, a[0]).value, a[1..], b);
    }
  }

  lemma RunFirst(s: State, a: Action, rest: seq<Action>)
    requires Do(s, a).Some?
    ensures Run(s, [a] + rest) == Run(Do(s, a).value, rest)
  {
    assert ([a] + rest)[0] == a && ([a] + rest)[1..] == rest;
  }

  /** Write the rest of the cursor text and close the file. */
  function FinishWrite(rest: nat): seq<Action> {
    if rest == 0 then [CloseFile] else [WriteChar] + FinishWrite(rest - 1)
  }

  lemma {:induction false} FinishWriteRuns(s: State)
    requires s.reader.Writing? && s.file.Some?
    ensures Run(s, FinishWrite(|s.reader.rest|)) ==
            Some(s.(file := Some(s.file.value + s.reader.rest), reader := Draining(s.reader.cursor, s.reader.seen)))
    decreases |s.reader.rest|
  {
    var rest := s.reader.rest;
    if rest == [] {
      RunFirst(s, CloseFile, []);
      assert [CloseFile] + [] == [CloseFile] && s.file.value + rest == s.file.value;
    } else {
      var t := Do(s, WriteChar).value;
      RunFirst(s, WriteChar, FinishWrite(|rest| - 1));
      FinishWriteRuns(t);
      assert s.file.value + [rest[0]] + rest[1..] == s.file.value + rest;
    }
  }

  /** Print one line and remember it. */
  function OneLine(n: nat): seq<Action> {
    [Print] + ([Truncate] + FinishWrite(|Text(n)|))
  }

  lemma OneLineRuns(s: State)
    requires s.reader.Draining? && s.reader.cursor < s.reader.seen
    ensures var n := s.reader.cursor + 1;
            Run(s, OneLine(n)) ==
            Some(s.(printed := s.printed + [n], file := Some(Text(n)), reader := Draining(n, s.reader.seen)))
  {
    var n := s.reader.cursor + 1;
    var t := Do(s, Print).value;
    var u := Do(t, Truncate).value;
    RunFirst(s, Print, [Truncate] + FinishWrite(|Text(n)|));
    RunFirst(t, Truncate, FinishWrite(|Text(n)|));
    FinishWriteRuns(u);
    assert "" + Text(n) == Text(n);
  }

  /** The same for `count` lines after position `from`. */
  function AllLines(from: nat, count: nat): seq<Action>
    decreases count
  {
    if count == 0 then [] else OneLine(from + 1) + AllLines(from + 1, count - 1)
  }

  lemma {:induction false} AllLinesRun(s: State)
    requires s.reader.Draining? && s.reader.cursor <= s.reader.seen
    ensures var from, to := s.reader.cursor, s.reader.seen;
            Run(s, AllLines(from, to - from)) ==
            Some(s.(printed := s.printed + Count(from, to),
                    file := if from == to then s.file else Some(Text(to)),
                    reader := Draining(to, to)))
    decreases s.reader.seen - s.reader.cursor
  {
    var from, to := s.reader.cursor, s.reader.seen;
    if from == to {
      assert s.printed + Count(from, to) == s.printed;
    } else {
      OneLineRuns(s);
      var t := Run(s, OneLine(from + 1)).value;
      AllLinesRun(t);
      RunAppend(s, OneLine(from + 1), AllLines(from + 1, to - from - 1));
      assert s.printed + [from + 1] + Count(from + 1, to) == s.printed + Count(from, to);
    }
  }

  /** The lines with these numbers. */
  function Numbered(log: seq<seq<byte>>, numbers: seq<nat>): seq<seq<byte>>
    requires forall i | 0 <= i < |numbers| :: 1 <= numbers[i] <= |log|
  {
    seq(|numbers|, i requires 0 <= i < |numbers| => log[numbers[i] - 1])
  }

  /** What `Reader.Drain` does when nothing fails is the run that opens the file, prints and
      remembers each unread line, and goes back to polling. */
  lemma DrainIsRun(
      s: State, isJson: seq<byte> -> bool, to: nat, was: seq<seq<byte>>, now: seq<seq<byte>>, room: nat,
      file: Option<string>)
    requires s.reader.Polling?
    requires Drained(Some(s.log), isJson, room, Done, s.reader.cursor, s.file, was, to, file, now)
    ensures var from := StartOf(s.reader.cursor, s.log);
            && Run(s, [Open] + (AllLines(from, to - from) + [EndDrain])) ==
               Some(s.(printed := s.printed + Count(from, to), file := file, reader := Polling(to)))
            && now == was + Numbered(s.log, Count(from, to))
  {
    var from := StartOf(s.reader.cursor, s.log);
    var t := Do(s, Open).value;
    AllLinesRun(t);
    var u := Run(t, AllLines(from, to - from)).value;
    RunFirst(u, EndDrain, []);
    assert [EndDrain] + [] == [EndDrain];
    RunAppend(t, AllLines(from, to - from), [EndDrain]);
    RunFirst(s, Open, AllLines(from, to - from) + [EndDrain]);
    NumberedIsSlice(s.log, from, to);
  }

  lemma NumberedIsSlice(log: seq<seq<byte>>, from: nat, to: nat)
    requires from <= to <= |log|
    ensures Numbered(log, Count(from, to)) == log[from..to]
  {
  }

  // ----- delivery -----

  /** The lines posted in a run, in order. */
  function PostedIn(run: seq<Action>): seq<seq<byte>> {
    if run == [] then [] else (if run[0].PostLine? then [run[0].line] else []) + PostedIn(run[1..])
  }

  /** The log is what was there and every line posted since, in order. */
  lemma {:induction false} LogIsPosted(s: State, run: seq<Action>)
    requires Run(s, run).Some?
    ensures Run(s, run).value.log == s.log + PostedIn(run)
    decreases |run|
  {
    if run == [] {
      assert s.log + [] == s.log;
    } else {
      var t := Do(s, run[0]).value;
      assert s.log + [] == s.log;
      assert t.log == s.log + if run[0].PostLine? then [run[0].line] else [];
      LogIsPosted(t, run[1..]);
      Associates(s.log, if run[0].PostLine? then [run[0].line] else [], PostedIn(run[1..]));
    }
  }

  /** At least once: whenever a reader could start, also after a crash in the middle of a
      cursor write, every line it would skip has been printed. */
  lemma NothingIsSkipped(s: State, line: nat)
    requires ReachableState(s) && 1 <= line <= ReadCursor(s.file)
    ensures line <= |s.log| && line in s.printed
  {
    ReachableInv(s);
  }

  /** Exactly once without a crash: a reader has printed the lines from its start to its
      cursor, each once and in order, and never finds the file shorter than its cursor. */
  lemma EachLineOnce(s: State)
    requires ReachableState(s) && !s.reader.Down?
    ensures s.mark <= |s.printed| && s.base <= s.reader.cursor <= |s.log|
    ensures s.printed[s.mark..] == Count(s.base, s.reader.cursor)
    ensures StartOf(s.reader.cursor, s.log) == s.reader.cursor
  {
    ReachableInv(s);
  }

  /** A crash outside a cursor write makes the next reader repeat at most one line. */
  lemma CrashRepeatsAtMostOneLine(s: State)
    requires ReachableState(s) && !s.reader.Down? && !s.reader.Writing?
    ensures var t := Do(s, Crash).value;
            var u := Do(t, Start).value;
            s.reader.cursor - 1 <= u.reader.cursor <= s.reader.cursor
  {
    ReachableInv(s);
  }

  /** A crash inside a cursor write sends the next reader back to the cursor without the
      digits that were not written yet. */
  lemma CrashInWriteDropsDigits(s: State)
    requires ReachableState(s) && s.reader.Writing?
    ensures var u := Do(Do(s, Crash).value, Start).value;
            u.reader.cursor == if s.file == Some("") then 0 else DropDigits(s.reader.cursor, |s.reader.rest|)
  {
    ReachableInv(s);
    var text := Text(s.reader.cursor);
    assert text[..|s.file.value|] == s.file.value;
    TornCursor(s.reader.cursor, |s.file.value|);
  }
}
