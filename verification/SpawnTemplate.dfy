/** The spawn template: argv elements in which `{name}` stands for the agent name. */
module SpawnTemplate {

  datatype TemplateError =
    | Unclosed
    | UnknownPlaceholder(p: string)
    | BadName
    | EmptyTemplate
    | EmptyProgram

  datatype Result<+T> = Ok(value: T) | Err(error: TemplateError)

  // ----- what an element means -----

  /** A literal character, or the placeholder. */
  datatype Token = Lit(c: char) | NameToken

  predicate WellFormed(ts: seq<Token>) {
    forall i | 0 <= i < |ts| :: ts[i].Lit? ==> ts[i].c != '{'
  }

  function Piece(t: Token, name: string): string {
    if t.NameToken? then name else [t.c]
  }

  function Expand(ts: seq<Token>, name: string): string {
    if ts == [] then "" else Piece(ts[0], name) + Expand(ts[1..], name)
  }

  /** The template text of the tokens. */
  function Source(ts: seq<Token>): string {
    Expand(ts, "{name}")
  }

  // ----- substitution -----

  /** The position of the first closing brace, or the length. */
  function Closing(s: string): (k: nat)
    ensures k <= |s| && '}' !in s[..k] && (k < |s| ==> s[k] == '}')
  {
    if s == "" || s[0] == '}' then 0 else 1 + Closing(s[1..])
  }

  /** The rest of an element from some character on. */
  function Substitute(s: string, name: string): Result<string> {
    if s == "" then Ok("")
    else if s[0] != '{' then
      match Substitute(s[1..], name)
      case Ok(out) => Ok([s[0]] + out)
      case Err(e) => Err(e)
    else
      var body := s[1..];
      var k := Closing(body);
      if k == |body| then Err(Unclosed)
      else if body[..k] != "name" then Err(UnknownPlaceholder(body[..k]))
      else
        match Substitute(body[k + 1..], name)
        case Ok(out) => Ok(name + out)
        case Err(e) => Err(e)
  }

  /** What remains to be done after `out` has been produced. */
  function Continue(out: string, r: Result<string>): Result<string> {
    if r.Ok? then Ok(out + r.value) else r
  }

  method SubstituteElement(element: string, name: string) returns (r: Result<string>)
    ensures r == Substitute(element, name)
  {
    var out := "";
    var i := 0;
    assert element[0..] == element;
    assert Substitute(element, name).Ok? ==> "" + Substitute(element, name).value == Substitute(element, name).value;
    while i < |element|
      invariant i <= |element|
      invariant Substitute(element, name) == Continue(out, Substitute(element[i..], name))
    {
      var c := element[i];
      ghost var here := element[i..];
      assert here[0] == c && here[1..] == element[i + 1..];
      if c != '{' {
        AddLiteral(out, here, name);
        out := out + [c];
        i := i + 1;
        continue;
      }
      var j := PlaceholderEnd(element, i + 1);
      assert here[1..][..j - i - 1] == element[i + 1..j];
      if j == |element| {
        return Err(Unclosed);
      }
      var placeholder := element[i + 1..j];
      if placeholder != "name" {
        return Err(UnknownPlaceholder(placeholder));
      }
      assert here[1..][j - i..] == element[j + 1..];
      AddName(out, here, name);
      out := out + name;
      i := j + 1;
    }
    assert element[i..] == "";
    assert out + "" == out;
    return Ok(out);
  }

  /** The inner loop: up to the closing brace, or to the end. */
  method PlaceholderEnd(element: string, from: nat) returns (j: nat)
    requires from <= |element|
    ensures from <= j <= |element| && j - from == Closing(element[from..])
  {
    j := from;
    while j < |element| && element[j] != '}'
      invariant from <= j <= |element|
      invariant '}' !in element[from..j]
    {
      assert element[from..j + 1] == element[from..j] + [element[j]];
      j := j + 1;
    }
    FindsClosing(element, from, j);
  }

  lemma AddLiteral(out: string, s: string, name: string)
    requires s != "" && s[0] != '{'
    ensures Continue(out, Substitute(s, name)) == Continue(out + [s[0]], Substitute(s[1..], name))
  {
    var r := Substitute(s[1..], name);
    if r.Ok? {
      assert out + ([s[0]] + r.value) == out + [s[0]] + r.value;
    }
  }

  lemma AddName(out: string, s: string, name: string)
    requires s != "" && s[0] == '{'
    requires var k := Closing(s[1..]); k < |s[1..]| && s[1..][..k] == "name"
    ensures Continue(out, Substitute(s, name)) ==
            Continue(out + name, Substitute(s[1..][Closing(s[1..]) + 1..], name))
  {
    var r := Substitute(s[1..][Closing(s[1..]) + 1..], name);
    if r.Ok? {
      assert out + (name + r.value) == out + name + r.value;
    }
  }

  lemma FindsClosing(element: string, from: nat, j: nat)
    requires from <= j <= |element| && '}' !in element[from..j] && (j < |element| ==> element[j] == '}')
    ensures Closing(element[from..]) == j - from
    ensures element[from..][..j - from] == element[from..j]
  {
    var s, k := element[from..], Closing(element[from..]);
    assert forall x | from <= x < j :: element[x] == element[from..j][x - from];
    assert forall x | 0 <= x < k :: s[x] == s[..k][x];
  }

  // ----- substitution and tokens -----

  lemma NamePlaceholder(rest: string)
    ensures Closing("name}" + rest) == 4
    ensures ("name}" + rest)[..4] == "name" && ("name}" + rest)[5..] == rest
  {
    var s := "name}" + rest;
    FindsClosing(s, 0, 4);
    assert s[0..] == s;
  }

  /** An element that is made of literals and placeholders is expanded token by token; what
      the name contains is never looked at again. */
  lemma {:induction false} TokensExpand(ts: seq<Token>, name: string)
    requires WellFormed(ts)
    ensures Substitute(Source(ts), name) == Ok(Expand(ts, name))
  {
    if ts == [] {
    } else {
      TokensExpand(ts[1..], name);
      var rest := Source(ts[1..]);
      if ts[0].NameToken? {
        NamePlaceholder(rest);
        assert Source(ts) == "{name}" + rest && Source(ts)[1..] == "name}" + rest;
      } else {
        assert Source(ts)[1..] == rest;
      }
    }
  }

  lemma PlaceholderText(s: string, k: nat)
    requires s != "" && s[0] == '{' && k < |s| - 1 && s[1..][..k] == "name" && s[1..][k] == '}'
    ensures s == "{name}" + s[1..][k + 1..]
  {
    var body := s[1..];
    assert s == ['{'] + body && body == body[..k] + [body[k]] + body[k + 1..];
  }

  /** The tokens of an element that is accepted. */
  lemma {:induction false} AcceptedIsTokens(s: string, name: string) returns (ts: seq<Token>)
    requires Substitute(s, name).Ok?
    ensures WellFormed(ts) && Source(ts) == s
    decreases |s|
  {
    if s == "" {
      ts := [];
    } else if s[0] != '{' {
      var rest := AcceptedIsTokens(s[1..], name);
      ts := [Lit(s[0])] + rest;
      assert ts[1..] == rest;
    } else {
      var body := s[1..];
      var k := Closing(body);
      var rest := AcceptedIsTokens(body[k + 1..], name);
      ts := [NameToken] + rest;
      assert ts[1..] == rest;
      PlaceholderText(s, k);
    }
  }

  /** An element has at most one reading. */
  lemma {:induction false} OneReading(a: seq<Token>, b: seq<Token>)
    requires WellFormed(a) && WellFormed(b) && Source(a) == Source(b)
    ensures a == b
    decreases |a|
  {
    if a == [] || b == [] {
      assert a != [] ==> |Source(a)| > 0;
      assert b != [] ==> |Source(b)| > 0;
    } else {
      var s := Source(a);
      assert s[0] == if a[0].NameToken? then '{' else a[0].c;
      assert s[0] == if b[0].NameToken? then '{' else b[0].c;
      var n := if a[0].NameToken? then 6 else 1;
      assert s[n..] == Source(a[1..]) && s[n..] == Source(b[1..]);
      OneReading(a[1..], b[1..]);
      assert a == [a[0]] + a[1..] && b == [b[0]] + b[1..];
    }
  }

  /** An element is accepted exactly when it can be read as literals and placeholders, and
      then the result is its reading, expanded. */
  lemma AcceptsExactlyTokens(s: string, name: string)
    ensures Substitute(s, name).Ok? <==> exists ts :: WellFormed(ts) && Source(ts) == s
    ensures forall ts | WellFormed(ts) && Source(ts) == s :: Substitute(s, name) == Ok(Expand(ts, name))
  {
    if Substitute(s, name).Ok? {
      var ts := AcceptedIsTokens(s, name);
    }
    forall ts | WellFormed(ts) && Source(ts) == s ensures Substitute(s, name) == Ok(Expand(ts, name)) {
      TokensExpand(ts, name);
    }
  }

  /** Substitution distributes over the concatenation of two accepted elements. */
  lemma {:induction false} Distributes(a: string, b: string, name: string)
    requires Substitute(a, name).Ok? && Substitute(b, name).Ok?
    ensures Substitute(a + b, name) == Ok(Substitute(a, name).value + Substitute(b, name).value)
  {
    var ta := AcceptedIsTokens(a, name);
    var tb := AcceptedIsTokens(b, name);
    ExpandAppend(ta, tb, name);
    ExpandAppend(ta, tb, "{name}");
    TokensExpand(ta, name);
    TokensExpand(tb, name);
    TokensExpand(ta + tb, name);
  }

  lemma {:induction false} ExpandAppend(a: seq<Token>, b: seq<Token>, name: string)
    ensures Expand(a + b, name) == Expand(a, name) + Expand(b, name)
  {
    if a == [] {
      assert a + b == b;
    } else {
      assert (a + b)[1..] == a[1..] + b;
      ExpandAppend(a[1..], b, name);
      assert Piece(a[0], name) + (Expand(a[1..], name) + Expand(b, name)) == Expand(a, name) + Expand(b, name);
    }
  }

  // ----- the whole argv -----

  /** One element in, one element out. */
  method ResolveSpawnArgv(template: seq<string>, name: string) returns (r: Result<seq<string>>)
    ensures r == Err(BadName) <==> '\0' in name || '\n' in name
    ensures r.Ok? <==> && '\0' !in name && '\n' !in name
                       && template != []
                       && (forall i | 0 <= i < |template| :: Substitute(template[i], name).Ok?)
                       && Substitute(template[0], name) != Ok("")
    ensures r.Ok? ==> |r.value| == |template|
    ensures r == Err(EmptyTemplate) <==> '\0' !in name && '\n' !in name && template == []
    ensures r.Err? && (r.error.Unclosed? || r.error.UnknownPlaceholder?) ==>
              exists i | 0 <= i < |template| ::
                && Substitute(template[i], name) == Err(r.error)
                && forall k | 0 <= k < i :: Substitute(template[k], name).Ok?
    ensures r.Ok? ==> forall i | 0 <= i < |template| :: Substitute(template[i], name) == Ok(r.value[i])
  {
    if '\0' in name || '\n' in name {
      return Err(BadName);
    }
    var argv: seq<string> := [];
    var i := 0;
    while i < |template|
      invariant i <= |template| && |argv| == i
      invariant forall k | 0 <= k < i :: Substitute(template[k], name) == Ok(argv[k])
    {
      var e := SubstituteElement(template[i], name);
      if e.Err? {
        ElementErrors(template[i], name);
        return Err(e.error);
      }
      argv := argv + [e.value];
      i := i + 1;
    }
    if argv == [] {
      return Err(EmptyTemplate);
    }
    if argv[0] == "" {
      return Err(EmptyProgram);
    }
    return Ok(argv);
  }

  lemma {:induction false} ElementErrors(s: string, name: string)
    ensures var r := Substitute(s, name); r.Ok? || r.error.Unclosed? || r.error.UnknownPlaceholder?
    decreases |s|
  {
    if s == "" {
    } else if s[0] != '{' {
      ElementErrors(s[1..], name);
    } else if Closing(s[1..]) < |s[1..]| {
      ElementErrors(s[1..][Closing(s[1..]) + 1..], name);
    }
  }

  // ----- errors -----

  /** After a readable start, an opening brace that is never closed. */
  lemma {:induction false} FailsUnclosed(ts: seq<Token>, body: string, name: string)
    requires WellFormed(ts) && '}' !in body
    ensures Substitute(Source(ts) + "{" + body, name) == Err(Unclosed)
    decreases |ts|
  {
    var s := Source(ts) + "{" + body;
    if ts == [] {
      assert s == "{" + body && s[1..] == body;
      ClosingIs(body, |body|);
    } else {
      FailsUnclosed(ts[1..], body, name);
      TokenFirst(ts, "{" + body, name);
      assert s == Source(ts) + ("{" + body);
      assert Source(ts[1..]) + ("{" + body) == Source(ts[1..]) + "{" + body;
    }
  }

  /** After a readable start, a placeholder with another name. */
  lemma {:induction false} FailsUnknown(ts: seq<Token>, p: string, rest: string, name: string)
    requires WellFormed(ts) && '}' !in p && p != "name"
    ensures Substitute(Source(ts) + "{" + (p + "}" + rest), name) == Err(UnknownPlaceholder(p))
    decreases |ts|
  {
    var body := p + "}" + rest;
    var s := Source(ts) + "{" + body;
    if ts == [] {
      assert s == "{" + body && s[1..] == body;
      assert body[..|p|] == p;
      ClosingIs(body, |p|);
    } else {
      FailsUnknown(ts[1..], p, rest, name);
      TokenFirst(ts, "{" + body, name);
      assert s == Source(ts) + ("{" + body);
      assert Source(ts[1..]) + ("{" + body) == Source(ts[1..]) + "{" + body;
    }
  }

  lemma ClosingIs(s: string, k: nat)
    requires k <= |s| && '}' !in s[..k] && (k < |s| ==> s[k] == '}')
    ensures Closing(s) == k
  {
    FindsClosing(s, 0, k);
    assert s[0..] == s && s[0..k] == s[..k];
  }

  /** A readable token in front does not change the error of what follows. */
  lemma TokenFirst(ts: seq<Token>, tail: string, name: string)
    requires WellFormed(ts) && ts != []
    ensures Substitute(Source(ts[1..]) + tail, name).Err? ==>
              Substitute(Source(ts) + tail, name) == Substitute(Source(ts[1..]) + tail, name)
  {
    var rest := Source(ts[1..]) + tail;
    var s := Source(ts) + tail;
    if ts[0].NameToken? {
      NamePlaceholder(rest);
      assert s == "{name}" + rest && s[1..] == "name}" + rest;
    } else {
      assert s == [ts[0].c] + rest && s[1..] == rest;
    }
  }

  lemma PrependToken(t: Token, ts: seq<Token>, tail: string)
    ensures Source([t] + ts) + tail == Piece(t, "{name}") + (Source(ts) + tail)
    ensures WellFormed(ts) && (t.Lit? ==> t.c != '{') ==> WellFormed([t] + ts)
  {
    assert ([t] + ts)[1..] == ts;
  }

  /** The two ways to fail. */
  predicate Faulty(e: TemplateError, body: string) {
    (e.Unclosed? && '}' !in body) || (e.UnknownPlaceholder? && e.p + "}" <= body && '}' !in e.p && e.p != "name")
  }

  lemma FaultHere(body: string, name: string)
    requires Closing(body) == |body| || body[..Closing(body)] != "name"
    ensures Substitute("{" + body, name).Err? && Faulty(Substitute("{" + body, name).error, body)
  {
    var s := "{" + body;
    assert s[0] == '{' && s[1..] == body;
    var k := Closing(body);
    if k < |body| {
      assert body[..k + 1] == body[..k] + "}";
    } else {
      assert body[..k] == body;
    }
  }

  /** Every element that is refused is of one of these two kinds, and the error says which. */
  lemma {:induction false} ErrorIsFirstFault(s: string, name: string) returns (ts: seq<Token>, body: string)
    requires Substitute(s, name).Err?
    ensures WellFormed(ts) && s == Source(ts) + ("{" + body) && Faulty(Substitute(s, name).error, body)
    decreases |s|
  {
    if s[0] != '{' {
      var rest, b := ErrorIsFirstFault(s[1..], name);
      ts, body := [Lit(s[0])] + rest, b;
      PrependToken(Lit(s[0]), rest, "{" + body);
    } else {
      var inner := s[1..];
      var k := Closing(inner);
      if k == |inner| || inner[..k] != "name" {
        ts, body := [], inner;
        FaultHere(inner, name);
        assert s == "{" + inner == "" + ("{" + inner);
      } else {
        var rest, b := ErrorIsFirstFault(inner[k + 1..], name);
        ts, body := [NameToken] + rest, b;
        PrependToken(NameToken, rest, "{" + body);
        PlaceholderText(s, k);
      }
    }
  }
}
