/** Exactly which texts the two parsers accept, and what they make of them: splitting and parsing
    against the shape of the text. */
module ParsedFrames {
  import opened NulFraming
  import opened Text
  import opened Frames
  import opened FrameRelation

  /* ---- Fields ---- */

  function Join(fs: seq<string>, d: char): string
    requires fs != []
  {
    if |fs| == 1 then fs[0] else fs[0] + [d] + Join(fs[1..], d)
  }

  lemma FieldsOfFirst(first: string, rest: string, d: char)
    requires d !in first
    ensures Fields(first + [d] + rest, d) == [first] + Fields(rest, d)
  {
    var s := first + [d] + rest;
    assert s[..|first|] == first;
    IndexOfIs(s, d, |first|);
    assert s[|first| + 1..] == rest;
  }

  /** The fields of s are the only strings free of d that, joined by d, give s. */
  lemma {:induction false} FieldsExactly(s: string, d: char, fs: seq<string>)
    ensures Fields(s, d) == fs <==> fs != [] && Join(fs, d) == s && forall f :: f in fs ==> d !in f
    decreases |s| + |fs|
  {
    JoinFields(s, d);
    if fs != [] && Join(fs, d) == s && forall f :: f in fs ==> d !in f { FieldsOfJoin(fs, d); }
  }

  lemma JoinFirst(first: string, rest: seq<string>, d: char)
    requires rest != []
    ensures Join([first] + rest, d) == first + [d] + Join(rest, d)
  {
    assert ([first] + rest)[1..] == rest;
  }

  lemma CutAround(s: string, i: nat)
    requires i < |s|
    ensures s == s[..i] + [s[i]] + s[i + 1..]
  {
  }

  lemma {:induction false} JoinFields(s: string, d: char)
    ensures Join(Fields(s, d), d) == s
    decreases |s|
  {
    var i := IndexOf(s, d);
    if i < |s| {
      var rest := Fields(s[i + 1..], d);
      JoinFields(s[i + 1..], d);
      JoinFirst(s[..i], rest, d);
      CutAround(s, i);
    }
  }

  lemma {:induction false} FieldsOfJoin(fs: seq<string>, d: char)
    requires fs != [] && forall f :: f in fs ==> d !in f
    ensures Fields(Join(fs, d), d) == fs
    decreases |fs|
  {
    if |fs| == 1 {
      assert fs[0][..|fs[0]|] == fs[0];
      assert fs == [fs[0]];
    } else {
      FieldsOfJoin(fs[1..], d);
      FieldsOfFirst(fs[0], Join(fs[1..], d), d);
      assert fs == [fs[0]] + fs[1..];
    }
  }

  /** StripEmpty drops exactly the empty fields at the end. */
  lemma {:induction false} StripExactly(fs: seq<string>)
    ensures var r := StripEmpty(fs);
            && r <= fs && (forall i :: |r| <= i < |fs| ==> fs[i] == "")
            && (r != [] ==> r[|r| - 1] != "")
    decreases |fs|
  {
    if fs != [] && fs[|fs| - 1] == "" { StripExactly(fs[..|fs| - 1]); }
  }

  /** A header line on the server: its first two fields, provided some field after the first is not
      empty; more colons do not matter. Otherwise it throws. */
  lemma JavaHeaderFields(line: string)
    ensures var fs := Fields(line, ':');
            if exists i :: 0 < i < |fs| && fs[i] != "" then JavaHeader(line) == Parsed((fs[0], fs[1]))
            else JavaHeader(line) == Threw
  {
    StripExactly(Fields(line, ':'));
  }

  /** On the client: its first two fields, unless there is one only or the line is key and colon. */
  lemma CppHeaderFields(line: string)
    ensures var fs := Fields(line, ':');
            if |fs| >= 3 || (|fs| == 2 && fs[1] != "") then CppHeader(line) == Built((fs[0], fs[1]))
            else CppHeader(line) == Failed(Undefined)
  {
  }

  /* ---- The server's parser ---- */

  function Lines(ls: seq<string>): string {
    if ls == [] then "" else ls[0] + ['\n'] + Lines(ls[1..])
  }

  predicate IsLines(ls: seq<string>) {
    forall i :: 0 <= i < |ls| ==> ls[i] != "" && '\n' !in ls[i]
  }

  predicate JavaGood(ls: seq<string>) {
    forall i :: 0 <= i < |ls| ==> JavaHeader(ls[i]).Parsed?
  }

  /** The headers of good lines. */
  function JavaPairs(ls: seq<string>): seq<Header>
    requires JavaGood(ls)
  {
    seq(|ls|, i requires 0 <= i < |ls| => JavaHeader(ls[i]).value)
  }

  lemma PairsOfFirst(ls: seq<string>)
    requires JavaGood(ls) && ls != []
    ensures JavaGood(ls[1..]) && JavaPairs(ls) == [JavaHeader(ls[0]).value] + JavaPairs(ls[1..])
  {
  }

  /** One line in front. */
  lemma ConsLines(line: string, more: seq<string>, tail: string)
    ensures Lines([line] + more) + tail == line + ['\n'] + (Lines(more) + tail)
    ensures IsLines(more) && line != "" && '\n' !in line ==> IsLines([line] + more)
  {
    assert ([line] + more)[1..] == more;
  }

  lemma HeadLines(ls: seq<string>, tail: string)
    requires ls != []
    ensures Lines(ls) + tail == ls[0] + ['\n'] + (Lines(ls[1..]) + tail)
  {
    assert ls == [ls[0]] + ls[1..];
    ConsLines(ls[0], ls[1..], tail);
  }

  lemma {:induction false} JavaReadsLines(ls: seq<string>, body: string, m: Headers)
    requires IsLines(ls) && JavaGood(ls)
    ensures JavaHeaders(Lines(ls) + (['\n'] + body), m) == Parsed((PutAll(m, JavaPairs(ls)), body))
    decreases |ls|
  {
    if ls == [] {
      assert Lines(ls) + (['\n'] + body) == "" + ['\n'] + body;
      CutRendered("", body);
    } else {
      var rest := Lines(ls[1..]) + (['\n'] + body);
      HeadLines(ls, ['\n'] + body);
      CutRendered(ls[0], rest);
      PairsOfFirst(ls);
      var h := JavaHeader(ls[0]).value;
      JavaReadsLines(ls[1..], body, m[h.0 := h.1]);
      assert JavaPairs(ls)[1..] == JavaPairs(ls[1..]);
    }
  }

  lemma CutJoins(s: string)
    requires '\n' in s
    ensures var l := CutLine(s).value; s == l.line + ['\n'] + l.rest && '\n' !in l.line
  {
    var i := IndexOf(s, '\n');
    assert s == s[..i] + ['\n'] + s[i + 1..];
  }

  lemma GoodFirst(line: string, more: seq<string>)
    ensures JavaHeader(line).Parsed? && JavaGood(more) ==> JavaGood([line] + more)
    ensures CppHeader(line).Built? && CppGood(more) ==> CppGood([line] + more)
  {
  }

  /** A text split into header lines, blank line and body. */
  ghost predicate JavaShape(s: string, ls: seq<string>, body: string) {
    IsLines(ls) && JavaGood(ls) && s == Lines(ls) + (['\n'] + body)
  }

  lemma {:induction false} JavaHeadersShape(s: string, m: Headers) returns (ls: seq<string>, body: string)
    requires JavaHeaders(s, m).Parsed?
    ensures JavaShape(s, ls, body)
    decreases |s|
  {
    var l := CutLine(s).value;
    CutJoins(s);
    if l.line == "" {
      ls, body := [], l.rest;
    } else {
      var h := JavaHeader(l.line).value;
      var more;
      more, body := JavaHeadersShape(l.rest, m[h.0 := h.1]);
      ls := [l.line] + more;
      ConsLines(l.line, more, ['\n'] + body);
      GoodFirst(l.line, more);
    }
  }

  /** The text is a command line, good header lines, a blank line and a body. */
  ghost predicate IsFrameOf(text: string, command: string, ls: seq<string>, body: string) {
    && '\n' !in command && IsLines(ls) && JavaGood(ls)
    && text == command + ['\n'] + (Lines(ls) + (['\n'] + body))
  }

  lemma JavaParsesFrame(text: string, command: string, ls: seq<string>, body: string)
    requires IsFrameOf(text, command, ls, body)
    ensures JavaParse(text) == Parsed(PutAll(map[COMMAND := command], JavaPairs(ls))[BODY := body])
  {
    CutRendered(command, Lines(ls) + (['\n'] + body));
    JavaReadsLines(ls, body, map[COMMAND := command]);
  }

  /** The server accepts exactly the texts of that shape, and reads the command, the headers, later
      over earlier, and the body; every other text throws. */
  lemma JavaParsesExactly(text: string, f: Headers)
    ensures JavaParse(text) == Parsed(f) <==>
              exists command, ls, body ::
                IsFrameOf(text, command, ls, body) && f == PutAll(map[COMMAND := command], JavaPairs(ls))[BODY := body]
  {
    if JavaParse(text) == Parsed(f) {
      CutJoins(text);
      var l := CutLine(text).value;
      var ls, body := JavaHeadersShape(l.rest, map[COMMAND := l.line]);
      assert IsFrameOf(text, l.line, ls, body);
      JavaParsesFrame(text, l.line, ls, body);
    }
    if command, ls, body :|
      IsFrameOf(text, command, ls, body) && f == PutAll(map[COMMAND := command], JavaPairs(ls))[BODY := body]
    {
      JavaParsesFrame(text, command, ls, body);
    }
  }

  /* ---- The client's parser ---- */

  predicate CppGood(ls: seq<string>) {
    forall i :: 0 <= i < |ls| ==> CppHeader(ls[i]).Built?
  }

  function CppPairs(ls: seq<string>): seq<Header>
    requires CppGood(ls)
  {
    seq(|ls|, i requires 0 <= i < |ls| => CppHeader(ls[i]).value)
  }

  /** What follows the header lines: nothing, or a blank line and the body. */
  function Tail(body: Option<string>): string {
    match body
    case None => ""
    case Some(b) => ['\n'] + b
  }

  function BodyText(body: Option<string>): string {
    match body
    case None => ""
    case Some(b) => b
  }

  lemma CppReadsTail(body: Option<string>, m: Headers)
    ensures CppHeaders(Tail(body), m) == Built((m, BodyText(body)))
  {
    if body.Some? {
      assert Tail(body) == "" + ['\n'] + body.value;
      CutRendered("", body.value);
    }
  }

  lemma CppReadsLine(line: string, rest: string, m: Headers)
    requires line != "" && '\n' !in line && CppHeader(line).Built?
    ensures var h := CppHeader(line).value;
            CppHeaders(line + ['\n'] + rest, m) == CppHeaders(rest, Insert(m, h.0, h.1))
  {
    CutRendered(line, rest);
  }

  lemma CppPairsFirst(ls: seq<string>)
    requires CppGood(ls) && ls != []
    ensures CppGood(ls[1..]) && CppPairs(ls)[0] == CppHeader(ls[0]).value && CppPairs(ls)[1..] == CppPairs(ls[1..])
  {
  }

  lemma {:induction false} CppReadsLines(ls: seq<string>, body: Option<string>, m: Headers)
    requires IsLines(ls) && CppGood(ls)
    ensures CppHeaders(Lines(ls) + Tail(body), m) == Built((InsertAll(m, CppPairs(ls)), BodyText(body)))
    decreases |ls|
  {
    if ls == [] {
      CppReadsTail(body, m);
      assert Lines(ls) + Tail(body) == Tail(body);
    } else {
      var h := CppHeader(ls[0]).value;
      HeadLines(ls, Tail(body));
      CppReadsLine(ls[0], Lines(ls[1..]) + Tail(body), m);
      CppReadsLines(ls[1..], body, Insert(m, h.0, h.1));
      CppPairsFirst(ls);
    }
  }

  ghost predicate CppShape(s: string, ls: seq<string>, body: Option<string>) {
    IsLines(ls) && CppGood(ls) && s == Lines(ls) + Tail(body)
  }

  lemma {:induction false} CppHeadersShape(s: string, m: Headers) returns (ls: seq<string>, body: Option<string>)
    requires CppHeaders(s, m).Built?
    ensures CppShape(s, ls, body)
    decreases |s|
  {
    if s == "" {
      ls, body := [], None;
    } else {
      var l := CutLine(s).value;
      CutJoins(s);
      if l.line == "" {
        ls, body := [], Some(l.rest);
        assert s == Lines(ls) + Tail(body);
      } else {
        var h := CppHeader(l.line).value;
        var more;
        more, body := CppHeadersShape(l.rest, Insert(m, h.0, h.1));
        ls := [l.line] + more;
        ConsLines(l.line, more, Tail(body));
        GoodFirst(l.line, more);
      }
    }
  }

  /** The text is a command line and good header lines, with or without a blank line and a body. */
  ghost predicate IsClientText(text: string, command: string, ls: seq<string>, body: Option<string>) {
    '\n' !in command && IsLines(ls) && CppGood(ls) && text == command + ['\n'] + (Lines(ls) + Tail(body))
  }

  /** What the client holds: the first of equal headers, and no entry for an empty body. */
  function ClientFields(command: string, ls: seq<string>, body: Option<string>): Headers
    requires CppGood(ls)
  {
    ClientFrame(command, CppPairs(ls), BodyText(body))
  }

  lemma CppParsesText(text: string, command: string, ls: seq<string>, body: Option<string>)
    requires IsClientText(text, command, ls, body)
    ensures CppParse(text) == Built(ClientFields(command, ls, body))
  {
    CutRendered(command, Lines(ls) + Tail(body));
    CppReadsLines(ls, body, map[COMMAND := command]);
    if Lines(ls) + Tail(body) == "" { assert ls == [] && body == None; }
  }

  lemma CppTextShape(text: string) returns (command: string, ls: seq<string>, body: Option<string>)
    requires CppParse(text).Built? && text != ""
    ensures IsClientText(text, command, ls, body)
  {
    CutJoins(text);
    var l := CutLine(text).value;
    command, ls, body := l.line, [], None;
    if l.rest != "" { ls, body := CppHeadersShape(l.rest, map[COMMAND := l.line]); }
  }

  /** The client accepts exactly the empty text and the texts of that shape, and reads the command, the
      headers, earlier over later, and the body; every other text fails. */
  lemma CppParsesExactly(text: string, f: Headers)
    ensures CppParse(text) == Built(f) <==>
              (text == "" && f == map[COMMAND := ""])
              || exists command, ls, body ::
                   IsClientText(text, command, ls, body) && f == ClientFields(command, ls, body)
  {
    if CppParse(text) == Built(f) && text != "" {
      var command, ls, body := CppTextShape(text);
      CppParsesText(text, command, ls, body);
    }
    if command, ls, body :| IsClientText(text, command, ls, body) && f == ClientFields(command, ls, body) {
      CppParsesText(text, command, ls, body);
    }
  }

  /* ---- The values of a parsed frame ---- */

  /** A character that is not in the line is in neither part of its header, and no part has a colon. */
  lemma HeaderWithin(line: string, x: char)
    requires JavaHeader(line).Parsed?
    ensures var h := JavaHeader(line).value; ':' !in h.0 && ':' !in h.1 && (x !in line ==> x !in h.0 && x !in h.1)
  {
    JavaHeaderFields(line);
    if x !in line { FieldsWithin(line, ':', x); }
  }

  lemma {:induction false} FieldsWithin(s: string, d: char, x: char)
    requires x !in s
    ensures forall f :: f in Fields(s, d) ==> x !in f
    decreases |s|
  {
    var i := IndexOf(s, d);
    if i < |s| { FieldsWithin(s[i + 1..], d, x); }
  }

  lemma {:induction false} HeadersWithin(s: string, m: Headers, k: string, x: char)
    requires JavaHeaders(s, m).Parsed? && x !in s
    requires k in m ==> x !in m[k]
    ensures var r := JavaHeaders(s, m).value; x !in r.1 && (k in r.0 ==> x !in r.0[k])
    decreases |s|
  {
    var l := CutLine(s).value;
    CutJoins(s);
    if l.line != "" {
      HeaderWithin(l.line, x);
      var h := JavaHeader(l.line).value;
      HeadersWithin(l.rest, m[h.0 := h.1], k, x);
    }
  }

  /** Every character of a parsed value comes from the text. */
  lemma ParsedWithin(text: string, f: Headers, k: string, x: char)
    requires JavaParse(text) == Parsed(f) && k in f && x !in text
    ensures x !in f[k]
  {
    CutJoins(text);
    var l := CutLine(text).value;
    HeadersWithin(l.rest, map[COMMAND := l.line], k, x);
  }

  lemma {:induction false} HeadersPlain(s: string, m: Headers, k: string)
    requires JavaHeaders(s, m).Parsed?
    requires k in m ==> ':' !in m[k] && '\n' !in m[k]
    ensures var r := JavaHeaders(s, m).value.0; k in r ==> ':' !in r[k] && '\n' !in r[k]
    decreases |s|
  {
    var l := CutLine(s).value;
    CutJoins(s);
    if l.line != "" {
      HeaderWithin(l.line, '\n');
      var h := JavaHeader(l.line).value;
      HeadersPlain(l.rest, m[h.0 := h.1], k);
    }
  }

  /** A parsed header value has neither a colon nor a newline. */
  lemma ParsedPlain(text: string, f: Headers, k: string)
    requires JavaParse(text) == Parsed(f) && k in f && k != BODY && k != COMMAND
    ensures ':' !in f[k] && '\n' !in f[k]
  {
    var l := CutLine(text).value;
    HeadersPlain(l.rest, map[COMMAND := l.line], k);
  }
}
