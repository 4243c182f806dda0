/** The detach key of the user configuration: from text such as `ctrl+\` to a trigger. */
module DetachKey {
  import opened Bytes
  import opened Decimal
  import opened Strings
  import opened DetachMatcher

  datatype KeyError =
    | EmptyKey
    | NoModifier
    | UnknownModifier(m: string)
    | Unsupported
    | NotOneChar
    | NotAscii

  datatype Result<+T> = Ok(value: T) | Err(error: KeyError)

  // ----- text -----

  /** The position of the first plus sign, or the length. */
  function PlusAt(s: string): (k: nat)
    ensures k <= |s| && '+' !in s[..k] && (k < |s| ==> s[k] == '+')
  {
    if s == "" || s[0] == '+' then 0 else 1 + PlusAt(s[1..])
  }

  /** The pieces of `s` between plus signs, each trimmed. There is always at least one. */
  function Parts(s: string): (r: seq<string>)
    ensures 0 < |r|
  {
    var k := PlusAt(s);
    if k == |s| then [Trim(s)] else [Trim(s[..k])] + Parts(s[k + 1..])
  }

  function Lower(s: string): string {
    seq(|s|, i requires 0 <= i < |s| => if 'A' <= s[i] <= 'Z' then (s[i] as int + 32) as char else s[i])
  }

  function AsciiBytes(s: string): (r: seq<byte>)
    requires forall i | 0 <= i < |s| :: s[i] as int < 128
    ensures |r| == |s| && forall i | 0 <= i < |s| :: r[i] as int == s[i] as int
  {
    seq(|s|, i requires 0 <= i < |s| => (s[i] as int) as byte)
  }

  // ----- one key -----

  predicate IsAscii(c: char) {
    c as int < 128
  }

  /** The control byte a terminal sends for ctrl and this key, if there is one. */
  function CtrlRawByte(key: char): Option<byte>
    requires IsAscii(key)
  {
    if 'a' <= key <= 'z' then Some((key as int - 'a' as int + 1) as byte)
    else if 'A' <= key <= 'Z' then Some((key as int - 'A' as int + 1) as byte)
    else match key
      case '@' => Some(0x00)
      case '[' => Some(0x1b)
      case '\\' => Some(0x1c)
      case ']' => Some(0x1d)
      case '^' => Some(0x1e)
      case '_' => Some(0x1f)
      case '?' => Some(0x7f)
      case _ => None
  }

  lemma DigitsAreAscii(n: nat)
    ensures AllDigits(Text(n)) && forall i | 0 <= i < |Text(n)| :: Text(n)[i] as int < 128
  {
    TextRoundTrip(n);
  }

  /** ESC, an opening bracket, the code point in decimal, and the ctrl suffix. */
  function CsiU(key: char): seq<byte> {
    DigitsAreAscii(key as int);
    [0x1b, 0x5b] + AsciiBytes(Text(key as int)) + [0x3b, 0x35, 0x75]
  }

  function TriggerFor(key: char): DetachTrigger
    requires IsAscii(key)
  {
    DetachTrigger(CtrlRawByte(key), CsiU(key))
  }

  /** No raw control byte occurs after the start of any escape sequence of any key. */
  lemma RawByteOutsideSequences(key: char, other: char, k: nat)
    requires IsAscii(key) && 1 <= k < |CsiU(other)|
    ensures CtrlRawByte(key) != Some(CsiU(other)[k])
  {
    DigitsAreAscii(other as int);
    var digits := Text(other as int);
    assert CsiU(other)[k] >= 0x30 && CsiU(other)[k] <= 0x75 by {
      if 2 <= k < 2 + |digits| {
        assert IsDigit(digits[k - 2]);
        assert CsiU(other)[k] == AsciiBytes(digits)[k - 2];
      }
    }
  }

  /** The ASCII control mapping: the low five bits of the key, delete for the question mark, and
      nothing for any other key. */
  lemma RawByteLaw(key: char)
    requires IsAscii(key)
    ensures CtrlRawByte(key) ==
            if '@' <= key <= '_' || 'a' <= key <= 'z' then Some((key as int % 32) as byte)
            else if key == '?' then Some(127)
            else None
  {
  }

  function CharsOf(b: seq<byte>): (s: string)
    ensures |s| == |b|
  {
    seq(|b|, i requires 0 <= i < |b| => (b[i] as int) as char)
  }

  /** The bytes are ESC, an opening bracket, the decimal code of the key without leading zeros,
      a semicolon, a five, and a `u`. */
  predicate Encodes(csi: seq<byte>, key: char) {
    && |csi| >= 6 && csi[..2] == [27, 91] && csi[|csi| - 3..] == [59, 53, 117]
    && var digits := CharsOf(csi[2..|csi| - 3]);
       AllDigits(digits) && Value(digits) == key as int && (|digits| > 1 ==> digits[0] != '0')
  }

  lemma CsiULaw(key: char)
    ensures Encodes(CsiU(key), key)
  {
    DigitsAreAscii(key as int);
    TextRoundTrip(key as int);
    TextIsCanonical(key as int);
    var csi, digits := CsiU(key), Text(key as int);
    var middle := csi[2..|csi| - 3];
    assert middle == AsciiBytes(digits);
    assert CharsOf(middle) == digits;
  }

  lemma TriggersAreSafe(key: char)
    requires IsAscii(key)
    ensures ChunkSafe(TriggerFor(key))
    ensures 6 <= |TriggerFor(key).csi| <= 8
  {
    forall k | 1 <= k < |CsiU(key)| ensures CtrlRawByte(key) != Some(CsiU(key)[k]) {
      RawByteOutsideSequences(key, key, k);
    }
    DigitsAreAscii(key as int);
    TextLength(key as int);
  }

  /** Different keys never share an escape sequence. */
  lemma SequencesAreDistinct(a: char, b: char)
    requires CsiU(a) == CsiU(b)
    ensures a == b
  {
    DigitsAreAscii(a as int);
    DigitsAreAscii(b as int);
    var s, t := Text(a as int), Text(b as int);
    assert |s| == |t|;
    forall i | 0 <= i < |s| ensures s[i] == t[i] {
      assert CsiU(a)[2 + i] == AsciiBytes(s)[i] && CsiU(b)[2 + i] == AsciiBytes(t)[i];
    }
    assert s == t;
    TextRoundTrip(a as int);
    TextRoundTrip(b as int);
  }

  // ----- the whole specification text -----

  datatype Modifier = Ctrl | Shift | Alt | Super

  function ModifierOf(m: string): Option<Modifier> {
    var l := Lower(m);
    if l == "ctrl" || l == "control" then Some(Ctrl)
    else if l == "shift" then Some(Shift)
    else if l == "alt" || l == "meta" || l == "option" then Some(Alt)
    else if l == "super" || l == "cmd" || l == "win" then Some(Super)
    else None
  }

  /** Equal but for the case of ASCII letters. */
  predicate SameIgnoringCase(a: string, b: string) {
    |a| == |b| && forall i | 0 <= i < |a| ::
      a[i] == b[i]
      || ('A' <= a[i] <= 'Z' && b[i] as int == a[i] as int + 32)
      || ('A' <= b[i] <= 'Z' && a[i] as int == b[i] as int + 32)
  }

  function NamesOf(m: Modifier): set<string> {
    match m
    case Ctrl => {"ctrl", "control"}
    case Shift => {"shift"}
    case Alt => {"alt", "meta", "option"}
    case Super => {"super", "cmd", "win"}
  }

  predicate IsLower(s: string) {
    forall i | 0 <= i < |s| :: !('A' <= s[i] <= 'Z')
  }

  lemma LowerIgnoresCase(a: string, b: string)
    requires IsLower(b)
    ensures Lower(a) == b <==> SameIgnoringCase(a, b)
  {
    if SameIgnoringCase(a, b) {
      assert Lower(a) == b;
    }
    if Lower(a) == b {
      forall i | 0 <= i < |a| ensures b[i] == Lower(a)[i] {
      }
    }
  }

  lemma LowerNames(text: string, m: Modifier)
    ensures ModifierOf(text) == Some(m) <==> Lower(text) in NamesOf(m)
  {
    assert "ctrl"[0] == 'c' && "meta"[0] == 'm' && "shift"[1] == 'h' && "super"[1] == 'u';
    assert "alt"[0] == 'a' && "cmd"[0] == 'c' && "win"[0] == 'w';
    assert |"control"| == 7 && |"option"| == 6;
  }

  lemma NamesAreLower(m: Modifier)
    ensures forall n | n in NamesOf(m) :: IsLower(n)
  {
  }

  /** A text names a modifier exactly when it is one of its names, in any case. */
  lemma ModifierNames(text: string, m: Modifier)
    ensures ModifierOf(text) == Some(m) <==> exists n | n in NamesOf(m) :: SameIgnoringCase(text, n)
  {
    LowerNames(text, m);
    NamesAreLower(m);
    forall n | n in NamesOf(m) ensures Lower(text) == n <==> SameIgnoringCase(text, n) {
      LowerIgnoresCase(text, n);
    }
  }

  predicate IsFirstUnknown(mods: seq<string>, i: nat) {
    i < |mods| && ModifierOf(mods[i]).None? && forall j | 0 <= j < i :: ModifierOf(mods[j]).Some?
  }

  predicate AllKnown(mods: seq<string>) {
    forall i | 0 <= i < |mods| :: ModifierOf(mods[i]).Some?
  }

  predicate AllCtrl(mods: seq<string>) {
    forall i | 0 <= i < |mods| :: ModifierOf(mods[i]) == Some(Ctrl)
  }

  /** At least one modifier, every modifier is ctrl, and the key is one ASCII character. */
  predicate Accepts(parts: seq<string>) {
    && 2 <= |parts|
    && AllCtrl(parts[..|parts| - 1])
    && |parts[|parts| - 1]| == 1
    && IsAscii(parts[|parts| - 1][0])
  }

  /** Cutting at the first plus sign. */
  lemma CutAt(s: string, i: nat)
    requires i < |s| && s[i] == '+' && '+' !in s[..i]
    ensures Parts(s) == [Trim(s[..i])] + Parts(s[i + 1..])
  {
    FirstPlusIsUnique(s, i, PlusAt(s));
  }

  lemma FirstPlusIsUnique(s: string, i: nat, k: nat)
    requires i < |s| && s[i] == '+' && '+' !in s[..i]
    requires k <= |s| && '+' !in s[..k] && (k < |s| ==> s[k] == '+')
    ensures i == k
  {
    var a, b := s[..i], s[..k];
    assert forall x | 0 <= x < |a| :: a[x] == s[x];
    assert forall x | 0 <= x < |b| :: b[x] == s[x];
  }

  lemma NoCut(s: string)
    requires '+' !in s
    ensures Parts(s) == [Trim(s)]
  {
  }

  /** A text has two parts, and so names exactly one modifier, exactly when there is no plus sign
      after its first one. */
  lemma TwoPartsIff(s: string)
    ensures |Parts(s)| == 2 <==> PlusAt(s) < |s| && '+' !in s[PlusAt(s) + 1..]
  {
    var k := PlusAt(s);
    if k < |s| {
      OnePartIff(s[k + 1..]);
    }
  }

  lemma OnePartIff(s: string)
    ensures |Parts(s)| == 1 <==> '+' !in s
  {
    var k := PlusAt(s);
    assert k == |s| ==> s[..k] == s;
  }

  lemma NothingToTrim(s: string)
    requires s != [] && !IsWhitespace(s[0]) && !IsWhitespace(s[|s| - 1])
    ensures Trim(s) == s
  {
  }

  /** Text that is one part: no plus sign, and nothing to trim. */
  predicate Plain(s: string) {
    s != [] && '+' !in s && !IsWhitespace(s[0]) && !IsWhitespace(s[|s| - 1])
  }

  lemma PlainIsOnePart(s: string)
    requires Plain(s)
    ensures Trim(s) == s && Parts(s) == [s]
  {
    NothingToTrim(s);
    NoCut(s);
  }

  /** Plain text, a plus sign, and more text. */
  lemma PlainFirst(a: string, rest: string)
    requires Plain(a)
    ensures Parts(a + "+" + rest) == [a] + Parts(rest)
    ensures rest != [] && !IsWhitespace(rest[|rest| - 1]) ==> Trim(a + "+" + rest) == a + "+" + rest
  {
    var s := a + "+" + rest;
    assert s[..|a|] == a && s[|a| + 1..] == rest;
    CutAt(s, |a|);
    NothingToTrim(a);
    if rest != [] && !IsWhitespace(rest[|rest| - 1]) {
      NothingToTrim(s);
    }
  }

  /** Any key after modifiers that are all ctrl. */
  lemma AcceptsCtrl(mods: seq<string>, key: string)
    requires mods != [] && AllCtrl(mods) && |key| == 1 && IsAscii(key[0])
    ensures Accepts(mods + [key])
  {
    assert (mods + [key])[..|mods|] == mods;
  }

  lemma ThreeParts(a: string, b: string, key: string)
    requires Plain(a) && Plain(b) && Plain(key)
    ensures var spec := a + "+" + (b + "+" + key);
            Trim(spec) == spec && Parts(spec) == [a, b] + [key]
  {
    PlainIsOnePart(key);
    PlainFirst(b, key);
    PlainFirst(a, b + "+" + key);
    assert [a] + ([b] + [key]) == [a, b] + [key];
  }

  /** A text with two modifiers is accepted when both are names of ctrl, with any one plain
      ASCII character as key, printable or not. */
  lemma RepeatedCtrlIsAccepted(a: string, b: string, key: string)
    requires Plain(a) && Plain(b) && Plain(key) && |key| == 1 && IsAscii(key[0])
    requires ModifierOf(a) == Some(Ctrl) && ModifierOf(b) == Some(Ctrl)
    ensures var spec := a + "+" + (b + "+" + key);
            Trim(spec) == spec && Parts(spec) == [a, b] + [key] && Accepts(Parts(Trim(spec)))
  {
    ThreeParts(a, b, key);
    AcceptsCtrl([a, b], key);
  }

  lemma TwoCtrlText(a: string, b: string, key: string) returns (spec: string)
    requires Plain(a) && Plain(b) && Plain(key) && |key| == 1 && IsAscii(key[0])
    requires ModifierOf(a) == Some(Ctrl) && ModifierOf(b) == Some(Ctrl)
    ensures spec == a + "+" + (b + "+" + key) && Trim(spec) != [] && Accepts(Parts(Trim(spec)))
  {
    RepeatedCtrlIsAccepted(a, b, key);
    spec := a + "+" + (b + "+" + key);
  }

  /** Two modifiers. */
  lemma RepeatedCtrlExample() returns (spec: string)
    ensures spec == "ctrl+Control+a" && Trim(spec) != [] && Accepts(Parts(Trim(spec)))
  {
    CtrlNames();
    spec := TwoCtrlText("ctrl", "Control", "a");
  }

  /** One modifier, and a key that cannot be printed. */
  lemma UnprintableKeyExample() returns (spec: string)
    ensures spec == "ctrl+" + [127 as char] && Trim(spec) != [] && Accepts(Parts(Trim(spec)))
  {
    CtrlNames();
    var a, key: string := "ctrl", [127 as char];
    PlainIsOnePart(key);
    PlainFirst(a, key);
    AcceptsCtrl([a], key);
    spec := a + "+" + key;
  }

  lemma CtrlNames()
    ensures ModifierOf("ctrl") == Some(Ctrl) && ModifierOf("Control") == Some(Ctrl)
  {
    assert Lower("ctrl") == "ctrl" && Lower("Control") == "control";
  }

  datatype Flags = Flags(ctrl: bool, shift: bool, alt: bool, sup: bool)

  /** Which modifiers occur; the first unknown one is an error. */
  method ScanModifiers(modifiers: seq<string>) returns (r: Result<Flags>)
    ensures r.Err? ==> exists i: nat :: IsFirstUnknown(modifiers, i) && r == Err(UnknownModifier(Lower(modifiers[i])))
    ensures AllCtrl(modifiers) ==> r == Ok(Flags(modifiers != [], false, false, false))
    ensures r.Ok? ==> AllKnown(modifiers)
    ensures r.Ok? && !r.value.shift && !r.value.alt && !r.value.sup ==> AllCtrl(modifiers)
  {
    var ctrl, shift, alt, sup := false, false, false, false;
    var i := 0;
    while i < |modifiers|
      invariant i <= |modifiers|
      invariant forall j | 0 <= j < i :: ModifierOf(modifiers[j]).Some?
      invariant AllCtrl(modifiers[..i]) ==> ctrl == (i != 0) && !shift && !alt && !sup
      invariant !shift && !alt && !sup ==> AllCtrl(modifiers[..i])
    {
      var m := ModifierOf(modifiers[i]);
      if m.None? {
        assert IsFirstUnknown(modifiers, i);
        return Err(UnknownModifier(Lower(modifiers[i])));
      }
      match m.value {
        case Ctrl => ctrl := true;
        case Shift => shift := true;
        case Alt => alt := true;
        case Super => sup := true;
      }
      AllCtrlAppend(modifiers, i);
      i := i + 1;
    }
    assert modifiers[..i] == modifiers;
    return Ok(Flags(ctrl, shift, alt, sup));
  }

  lemma AllCtrlAppend(mods: seq<string>, i: nat)
    requires i < |mods|
    ensures AllCtrl(mods[..i + 1]) <==> AllCtrl(mods[..i]) && ModifierOf(mods[i]) == Some(Ctrl)
  {
    assert mods[..i + 1] == mods[..i] + [mods[i]];
    if AllCtrl(mods[..i + 1]) {
      forall j | 0 <= j < i ensures ModifierOf(mods[j]) == Some(Ctrl) {
        assert mods[..i + 1][j] == mods[j];
      }
      assert mods[..i + 1][i] == mods[i];
    }
  }

  /** The trigger is accepted exactly for ctrl and one ASCII key, and whatever is accepted
      can be matched without regard to how the terminal cuts its input into reads. */
  method ParseDetachKey(spec: string) returns (r: Result<DetachTrigger>)
    ensures r.Ok? <==> Trim(spec) != [] && Accepts(Parts(Trim(spec)))
    ensures r.Ok? ==> var p := Parts(Trim(spec)); r.value == TriggerFor(p[|p| - 1][0])
    ensures r.Ok? ==>
              var p := Parts(Trim(spec));
              var key := p[|p| - 1][0];
              && Encodes(r.value.csi, key)
              && r.value.raw == if '@' <= key <= '_' || 'a' <= key <= 'z' then Some((key as int % 32) as byte)
                                else if key == '?' then Some(127) else None
    ensures r.Ok? ==> ChunkInvariant(r.value)
    ensures r == Err(EmptyKey) <==> Trim(spec) == []
    ensures r == Err(NoModifier) <==> Trim(spec) != [] && |Parts(Trim(spec))| == 1
    ensures r.Err? && r.error.UnknownModifier? ==>
              var p := Parts(Trim(spec));
              exists i: nat :: IsFirstUnknown(p[..|p| - 1], i) && r.error.m == Lower(p[i])
    ensures r == Err(Unsupported) ==>
              var p := Parts(Trim(spec)); AllKnown(p[..|p| - 1]) && !AllCtrl(p[..|p| - 1])
    ensures r == Err(NotOneChar) ==>
              var p := Parts(Trim(spec)); AllCtrl(p[..|p| - 1]) && |p[|p| - 1]| != 1
    ensures r == Err(NotAscii) ==>
              var p := Parts(Trim(spec)); AllCtrl(p[..|p| - 1]) && |p[|p| - 1]| == 1 && !IsAscii(p[|p| - 1][0])
  {
    var trimmed := Trim(spec);
    if trimmed == [] {
      return Err(EmptyKey);
    }
    var parts := Parts(trimmed);
    if |parts| < 2 {
      return Err(NoModifier);
    }
    var key, modifiers := parts[|parts| - 1], parts[..|parts| - 1];
    var flags := ScanModifiers(modifiers);
    if flags.Err? {
      return Err(flags.error);
    }
    var Flags(ctrl, shift, alt, sup) := flags.value;
    if !ctrl || shift || alt || sup {
      return Err(Unsupported);
    }
    if |key| != 1 {
      return Err(NotOneChar);
    }
    if !IsAscii(key[0]) {
      return Err(NotAscii);
    }
    TriggersAreSafe(key[0]);
    RawByteLaw(key[0]);
    CsiULaw(key[0]);
    ChunkInvariantIffSafe(TriggerFor(key[0]));
    return Ok(TriggerFor(key[0]));
  }
}
