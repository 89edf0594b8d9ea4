/** Frame texts and what the two parsers make of them: Frame.java on the server and Frame.cpp on
    the client. Headers are a map from key to value, with the command under StompCommand and the
    body under FrameBody. */
module Frames {
  import opened NulFraming
  import opened Text

  type Headers = map<string, string>
  type Header = (string, string)

  const COMMAND := "StompCommand"
  const BODY := "FrameBody"

  function Get(m: Headers, k: string): Option<string> {
    if k in m then Some(m[k]) else None
  }

  /** A line and the text after its newline. */
  datatype Line = Line(line: string, rest: string)

  function CutLine(s: string): (r: Option<Line>)
    ensures r.Some? <==> '\n' in s
    ensures r.Some? ==> |r.value.rest| + |r.value.line| + 1 == |s|
  {
    var i := IndexOf(s, '\n');
    if i == |s| then None else Some(Line(s[..i], s[i + 1..]))
  }

  /* ---- Frame.java ---- */

  /** An exception leaves no frame. */
  datatype Parse<+T> = Parsed(value: T) | Threw {
    predicate IsFailure() { Threw? }
    function PropagateFailure<U>(): Parse<U> requires Threw? { Threw }
    function Extract(): T requires Parsed? { value }
  }

  /** The key and value mapHeaders takes from a line: splitted[0] and splitted[1]. */
  function JavaHeader(line: string): Parse<Header> {
    var splitted := JavaSplit(line, ':');
    if |splitted| < 2 then Threw else Parsed((splitted[0], splitted[1]))
  }

  /** mapHeaders: later headers overwrite earlier ones, up to the blank line. */
  function JavaHeaders(s: string, m: Headers): Parse<(Headers, string)>
    decreases |s|
  {
    match CutLine(s)
    case None => Threw
    case Some(l) =>
      if l.line == "" then Parsed((m, l.rest))
      else
        var h :- JavaHeader(l.line);
        JavaHeaders(l.rest, m[h.0 := h.1])
  }

  /** new Frame(text) for a decoded, or otherwise not interned, text. */
  function JavaParse(text: string): Parse<Headers> {
    match CutLine(text)
    case None => Threw
    case Some(l) =>
      var r :- JavaHeaders(l.rest, map[COMMAND := l.line]);
      Parsed(r.0[BODY := r.1])
  }

  /** Frame.java: an object that consumes currString and fills map. A true result of a method
      stands for an exception out of it. */
  class JavaFrame {
    var originalStrg: string
    var currString: string
    var headers: Headers

    constructor (result: string)
      ensures originalStrg == result && currString == result && headers == map[]
    {
      originalStrg, currString, headers := result, result, map[];
    }

    /** The counterpart of the constructor's call; it is reached for every text that is not the
        empty literal. */
    method MapMsgToFrame() returns (threw: bool)
      requires headers == map[]
      modifies this
      ensures threw <==> JavaParse(old(currString)) == Threw
      ensures !threw ==> JavaParse(old(currString)) == Parsed(headers)
    {
      threw := MapCommand();
      if threw { return; }
      threw := MapHeaders();
      if threw { return; }
      MapBody();
    }

    method GetNextLine() returns (line: string, threw: bool)
      modifies this`currString
      ensures threw <==> CutLine(old(currString)) == None
      ensures !threw ==> CutLine(old(currString)) == Some(Line(line, currString))
      ensures threw ==> currString == old(currString)
    {
      var i := 0;
      line := "";
      while i < |currString| && currString[i] != '\n'
        invariant 0 <= i <= |currString| && line == currString[..i] && '\n' !in line
      {
        line := line + [currString[i]];
        i := i + 1;
      }
      if i == |currString| {
        assert currString[..i] == currString;
        return line, true;
      }
      IndexOfIs(currString, '\n', i);
      currString := currString[i + 1..];
      threw := false;
    }

    method MapCommand() returns (threw: bool)
      modifies this`currString, this`headers
      ensures threw <==> CutLine(old(currString)) == None
      ensures !threw ==> CutLine(old(currString)).Some? && currString == CutLine(old(currString)).value.rest
                         && headers == old(headers)[COMMAND := CutLine(old(currString)).value.line]
    {
      var line;
      line, threw := GetNextLine();
      if !threw { headers := headers[COMMAND := line]; }
    }

    method MapHeaders() returns (threw: bool)
      modifies this`currString, this`headers
      ensures threw <==> JavaHeaders(old(currString), old(headers)) == Threw
      ensures !threw ==> JavaHeaders(old(currString), old(headers)) == Parsed((headers, currString))
    {
      var currentLine;
      currentLine, threw := GetNextLine();
      if threw { return; }
      while currentLine != ""
        invariant '\n' !in currentLine
        invariant JavaHeaders(old(currString), old(headers))
                    == if currentLine == "" then Parsed((headers, currString))
                       else match JavaHeader(currentLine)
                            case Threw => Threw
                            case Parsed(h) => JavaHeaders(currString, headers[h.0 := h.1])
        decreases |currString|, |currentLine|
      {
        var splitted := JavaSplit(currentLine, ':');
        if |splitted| < 2 { return true; }
        headers := headers[splitted[0] := splitted[1]];
        currentLine, threw := GetNextLine();
        if threw { return; }
      }
    }

    method MapBody()
      modifies this`headers
      ensures headers == old(headers)[BODY := currString]
    {
      headers := headers[BODY := currString];
    }
  }

  /* ---- Frame.cpp ---- */

  /** at throws OutOfRange; reading splitted[1] of a shorter vector is Undefined behaviour. */
  datatype Fault = OutOfRange | Undefined

  datatype Cpp<+T> = Built(value: T) | Failed(fault: Fault) {
    predicate IsFailure() { Failed? }
    function PropagateFailure<U>(): Cpp<U> requires Failed? { Failed(fault) }
    function Extract(): T requires Built? { value }
  }

  function CppLine(s: string): Cpp<Line> {
    if s == "" then Built(Line("", ""))
    else match CutLine(s)
         case None => Failed(OutOfRange)
         case Some(l) => Built(l)
  }

  function CppHeader(line: string): Cpp<Header> {
    var splitted := CppSplit(line, ':');
    if |splitted| < 2 then Failed(Undefined) else Built((splitted[0], splitted[1]))
  }

  /** std::map::insert keeps an existing value. */
  function Insert(m: Headers, k: string, v: string): Headers {
    if k in m then m else m[k := v]
  }

  /** mapHeaders: the first of equal headers stays, up to the blank line or the end. */
  function CppHeaders(s: string, m: Headers): Cpp<(Headers, string)>
    decreases |s|
  {
    var l :- CppLine(s);
    if l.line == "" then Built((m, l.rest))
    else
      var h :- CppHeader(l.line);
      CppHeaders(l.rest, Insert(m, h.0, h.1))
  }

  function CppParse(text: string): Cpp<Headers> {
    var l :- CppLine(text);
    var m := map[COMMAND := l.line];
    if l.rest == "" then Built(m)
    else
      var r :- CppHeaders(l.rest, m);
      Built(if r.1 == "" then r.0 else Insert(r.0, BODY, r.1))
  }

  /** Frame.cpp: the same job on the client, with insert instead of put. A method's result is what
      went wrong in it, if anything did. */
  class CppFrame {
    var currString: string
    var headers: Headers

    constructor (message: string)
      ensures currString == message && headers == map[]
    {
      currString, headers := message, map[];
    }

    /** The body of the constructor. */
    method Build() returns (fault: Option<Fault>)
      requires headers == map[]
      modifies this
      ensures CppParse(old(currString)) == if fault.None? then Built(headers) else Failed(fault.value)
    {
      fault := MapStompCommand();
      if fault.Some? { return; }
      if |currString| != 0 {
        fault := MapHeaders();
        if fault.Some? { return; }
      }
      if |currString| != 0 {
        MapBody();
      }
    }

    method GetNextLine() returns (line: string, fault: Option<Fault>)
      modifies this`currString
      ensures CppLine(old(currString)) == if fault.None? then Built(Line(line, currString)) else Failed(fault.value)
    {
      var i := 0;
      line := "";
      if currString == "" { return "", None; }
      while i < |currString| && currString[i] != '\n'
        invariant 0 <= i <= |currString| && line == currString[..i] && '\n' !in line
      {
        line := line + [currString[i]];
        i := i + 1;
      }
      if i == |currString| {
        assert currString[..i] == currString;
        return line, Some(OutOfRange);
      }
      IndexOfIs(currString, '\n', i);
      currString := currString[i + 1..];
      fault := None;
    }

    method MapStompCommand() returns (fault: Option<Fault>)
      requires headers == map[]
      modifies this`currString, this`headers
      ensures fault.Some? ==> CppLine(old(currString)) == Failed(fault.value)
      ensures fault.None? ==> CppLine(old(currString)).Built?
                              && currString == CppLine(old(currString)).value.rest
                              && headers == map[COMMAND := CppLine(old(currString)).value.line]
    {
      var line;
      line, fault := GetNextLine();
      if fault.None? { headers := Insert(headers, COMMAND, line); }
    }

    method MapHeaders() returns (fault: Option<Fault>)
      modifies this`currString, this`headers
      ensures CppHeaders(old(currString), old(headers))
                == if fault.None? then Built((headers, currString)) else Failed(fault.value)
    {
      var currentLine;
      currentLine, fault := GetNextLine();
      if fault.Some? { return; }
      while currentLine != ""
        invariant fault == None
        invariant CppHeaders(old(currString), old(headers))
                    == if currentLine == "" then Built((headers, currString))
                       else match CppHeader(currentLine)
                            case Failed(f) => Failed(f)
                            case Built(h) => CppHeaders(currString, Insert(headers, h.0, h.1))
        decreases |currString|, |currentLine|
      {
        var splitted := SplitLoop(currentLine, ':');
        if |splitted| < 2 { return Some(Undefined); }
        headers := Insert(headers, splitted[0], splitted[1]);
        currentLine, fault := GetNextLine();
        if fault.Some? { return; }
      }
    }

    method MapBody()
      modifies this`headers
      ensures headers == Insert(old(headers), BODY, currString)
    {
      headers := Insert(headers, BODY, currString);
    }
  }
}
