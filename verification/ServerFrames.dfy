/** The way of a server frame to the client: toString and encode on the server, getFrameAscii,
    dropping the last character and the C++ parse on the client. */
module ServerFrames {
  import opened NulFraming
  import opened Frames
  import opened FrameRelation

  /** Java's string conversion of an entry: a missing one prints as null. */
  function Shown(m: Headers, k: string): string {
    if k in m then m[k] else "null"
  }

  /** "key:" + value + '\n'. */
  function Entry(k: string, v: string): string {
    k + [':'] + v + ['\n']
  }

  function AddReceipt(m: Headers): string {
    if "receipt-id" in m then Entry("receipt-id", m["receipt-id"]) else ""
  }

  /** Frame.toString. It throws without a command, and for a MESSAGE without message-id, which the
      debug output dereferences. */
  function ToString(m: Headers): Parse<string> {
    if COMMAND !in m then Threw
    else if m[COMMAND] == "CONNECTED" then
      Parsed(m[COMMAND] + ['\n'] + Entry("version", Shown(m, "version")) + ['\n'])
    else if m[COMMAND] == "MESSAGE" then
      if "message-id" !in m then Threw
      else
        Parsed(m[COMMAND] + ['\n'] + AddReceipt(m)
               + Entry("subscription", Shown(m, "subscription"))
               + Entry("message-id", Shown(m, "message-id"))
               + Entry("destination", Shown(m, "destination"))
               + ['\n'] + Shown(m, BODY) + ['\n'])
    else if m[COMMAND] == "RECEIPT" then
      Parsed(m[COMMAND] + ['\n'] + AddReceipt(m) + ['\n'])
    else if m[COMMAND] == "ERROR" then
      Parsed(m[COMMAND] + ['\n'] + AddReceipt(m) + Shown(m, "message") + ['\n'] + "The Message:" + ['\n']
             + "-----" + ['\n'] + Shown(m, "clientError") + ['\n'] + "-----" + ['\n'] + Shown(m, "reason") + ['\n'])
    else Parsed("")
  }

  function Receipt(m: Headers): seq<Header> {
    if "receipt-id" in m then [("receipt-id", m["receipt-id"])] else []
  }

  function MessageHeaders(m: Headers): seq<Header> {
    [("subscription", if "subscription" in m then m["subscription"] else "null"),
     ("message-id", if "message-id" in m then m["message-id"] else "null"),
     ("destination", if "destination" in m then m["destination"] else "null")]
  }

  /** The headers toString prints for a command, in its order. */
  function Printed(m: Headers): seq<Header> {
    if COMMAND !in m then []
    else if m[COMMAND] == "CONNECTED" then [("version", if "version" in m then m["version"] else "null")]
    else if m[COMMAND] == "RECEIPT" then Receipt(m)
    else Receipt(m) + MessageHeaders(m)
  }

  /** A frame the server sends: CONNECTED, RECEIPT, or MESSAGE with a message-id, with header values
      the splits leave whole and no NUL in what is printed. */
  predicate Sendable(m: Headers) {
    && COMMAND in m
    && (m[COMMAND] == "CONNECTED" || m[COMMAND] == "RECEIPT" || (m[COMMAND] == "MESSAGE" && "message-id" in m))
    && (forall i :: 0 <= i < |Printed(m)| ==> WellFormed(Printed(m)[i]) && NUL !in Printed(m)[i].1)
    && NUL !in PrintedBody(m)
  }

  function PrintedBody(m: Headers): string {
    if COMMAND !in m || m[COMMAND] != "MESSAGE" then "" else if BODY in m then m[BODY] else "null"
  }

  /** What the client keeps of a frame text: resize(len - 1). */
  function DropLast(text: string): string
    requires text != ""
  {
    text[..|text| - 1]
  }

  lemma LinesOfOne(k: string, v: string)
    ensures HeaderLines([(k, v)]) == Entry(k, v)
  {
    assert HeaderLines([(k, v)][1..]) == "";
  }

  lemma {:induction false} LinesAppend(hs: seq<Header>, more: seq<Header>)
    ensures HeaderLines(hs + more) == HeaderLines(hs) + HeaderLines(more)
    decreases |hs|
  {
    if hs == [] {
      assert hs + more == more;
    } else {
      assert (hs + more)[1..] == hs[1..] + more;
      LinesAppend(hs[1..], more);
    }
  }

  lemma LinesOfThree(a: Header, b: Header, c: Header)
    ensures HeaderLines([a, b, c]) == Entry(a.0, a.1) + Entry(b.0, b.1) + Entry(c.0, c.1)
  {
    assert [a, b, c] == [a] + ([b] + [c]);
    LinesAppend([b], [c]);
    LinesAppend([a], [b] + [c]);
    LinesOfOne(a.0, a.1);
    LinesOfOne(b.0, b.1);
    LinesOfOne(c.0, c.1);
  }

  lemma ReceiptLines(m: Headers)
    ensures AddReceipt(m) == HeaderLines(Receipt(m))
  {
    if "receipt-id" in m { LinesOfOne("receipt-id", m["receipt-id"]); }
  }

  lemma MessageLayout(m: Headers)
    requires Sendable(m) && m[COMMAND] == "MESSAGE"
    ensures ToString(m).Parsed? && ToString(m).value == Render(m[COMMAND], Printed(m), PrintedBody(m)) + ['\n']
  {
    ReceiptLines(m);
    LinesAppend(Receipt(m), MessageHeaders(m));
    LinesOfThree(MessageHeaders(m)[0], MessageHeaders(m)[1], MessageHeaders(m)[2]);
    assert Printed(m) == Receipt(m) + MessageHeaders(m);
    JoinMessage(m[COMMAND], AddReceipt(m), Entry("subscription", Shown(m, "subscription")),
                Entry("message-id", Shown(m, "message-id")), Entry("destination", Shown(m, "destination")),
                Shown(m, BODY));
  }

  lemma JoinMessage(command: string, r: string, a: string, b: string, c: string, body: string)
    ensures command + ['\n'] + r + a + b + c + ['\n'] + body + ['\n']
            == command + ['\n'] + (r + (a + b + c)) + ['\n'] + body + ['\n']
  {
    assert r + a + b + c == r + (a + b + c);
    assert command + ['\n'] + r + a + b + c == command + ['\n'] + (r + (a + b + c));
  }

  /** toString prints the STOMP layout; a MESSAGE gets one newline after its body. */
  lemma ToStringLayout(m: Headers)
    requires Sendable(m)
    ensures ToString(m).Parsed?
    ensures m[COMMAND] == "MESSAGE" ==>
              ToString(m).value == Render(m[COMMAND], Printed(m), PrintedBody(m)) + ['\n']
    ensures m[COMMAND] != "MESSAGE" ==> ToString(m).value == m[COMMAND] + ['\n'] + HeaderLines(Printed(m)) + ['\n']
  {
    if m[COMMAND] == "MESSAGE" {
      MessageLayout(m);
    } else if m[COMMAND] == "CONNECTED" {
      LinesOfOne("version", Printed(m)[0].1);
    } else {
      ReceiptLines(m);
    }
  }

  /** One frame: the client recovers the command, every printed header and the exact body, an absent
      body entry standing for the empty body. */
  lemma FrameReachesClient(m: Headers)
    requires Sendable(m)
    ensures ToString(m).Parsed? && ToString(m).value != ""
    ensures CppParse(DropLast(ToString(m).value)) == Built(ClientFrame(m[COMMAND], Printed(m), PrintedBody(m)))
  {
    ToStringLayout(m);
    var text := ToString(m).value;
    CppReadsFrame(m[COMMAND], Printed(m), PrintedBody(m));
    if m[COMMAND] == "MESSAGE" {
      assert DropLast(text) == Render(m[COMMAND], Printed(m), PrintedBody(m));
    } else {
      assert DropLast(text) == m[COMMAND] + ['\n'] + HeaderLines(Printed(m));
    }
  }

  lemma {:induction false} LinesNulFree(hs: seq<Header>)
    requires forall i :: 0 <= i < |hs| ==> NUL !in hs[i].0 && NUL !in hs[i].1
    ensures NUL !in HeaderLines(hs)
    decreases |hs|
  {
    if hs != [] { LinesNulFree(hs[1..]); }
  }

  lemma JoinNulFree(a: string, b: string, c: string)
    requires NUL !in a && NUL !in b && NUL !in c
    ensures NUL !in a + ['\n'] + b + ['\n'] + c && NUL !in a + ['\n'] + b + ['\n'] + c + ['\n']
    ensures NUL !in a + ['\n'] + b + ['\n']
  {
  }

  lemma PrintedNulFree(m: Headers, i: nat)
    requires Sendable(m) && i < |Printed(m)|
    ensures NUL !in Printed(m)[i].0
  {
    assert NUL !in "receipt-id" && NUL !in "subscription" && NUL !in "message-id";
    assert NUL !in "destination" && NUL !in "version";
  }

  lemma CommandNulFree(m: Headers)
    requires Sendable(m)
    ensures NUL !in m[COMMAND]
  {
    assert NUL !in "CONNECTED" && NUL !in "RECEIPT" && NUL !in "MESSAGE";
  }

  lemma TextNulFree(m: Headers)
    requires Sendable(m)
    ensures ToString(m).Parsed? && NUL !in ToString(m).value
  {
    ToStringLayout(m);
    CommandNulFree(m);
    forall i | 0 <= i < |Printed(m)| ensures NUL !in Printed(m)[i].0 { PrintedNulFree(m, i); }
    LinesNulFree(Printed(m));
    JoinNulFree(m[COMMAND], HeaderLines(Printed(m)), PrintedBody(m));
  }

  /** The texts of the frames, as toString prints them. */
  function Texts(ms: seq<Headers>): seq<string>
    requires forall i :: 0 <= i < |ms| ==> Sendable(ms[i])
  {
    seq(|ms|, i requires 0 <= i < |ms| => FrameReachesClient(ms[i]); ToString(ms[i]).value)
  }

  /** A stream: from any prefix of the wire the client parses, one by one and in order, exactly the
      frames the server printed, and from the whole wire all of them. */
  lemma StreamReachesClient(ms: seq<Headers>, received: string)
    requires forall i :: 0 <= i < |ms| ==> Sendable(ms[i])
    requires received <= Wire(Texts(ms))
    ensures var frames := Segments(received).frames;
            && |frames| <= |ms|
            && (received == Wire(Texts(ms)) ==> |frames| == |ms|)
            && forall i :: 0 <= i < |frames| ==>
                 frames[i] != "" && CppParse(DropLast(frames[i])) ==
                   Built(ClientFrame(ms[i][COMMAND], Printed(ms[i]), PrintedBody(ms[i])))
  {
    var texts := Texts(ms);
    forall t | t in texts ensures NUL !in t {
      var i :| 0 <= i < |texts| && texts[i] == t;
      TextNulFree(ms[i]);
    }
    PrefixOfWire(received, texts);
    forall i | 0 <= i < |Segments(received).frames|
      ensures Segments(received).frames[i] != ""
              && CppParse(DropLast(Segments(received).frames[i])) ==
                   Built(ClientFrame(ms[i][COMMAND], Printed(ms[i]), PrintedBody(ms[i])))
    {
      FrameReachesClient(ms[i]);
    }
  }

  /** What the client looks up in a parsed RECEIPT, MESSAGE or CONNECTED frame: the command, and
      under each printed key its value. */
  lemma ClientSees(m: Headers, i: nat)
    requires Sendable(m) && i < |Printed(m)|
    ensures var c := ClientFrame(m[COMMAND], Printed(m), PrintedBody(m));
            && Get(c, COMMAND) == Some(m[COMMAND])
            && Get(c, Printed(m)[i].0) == Some(Printed(m)[i].1)
            && Get(c, BODY) == if PrintedBody(m) == "" then None else Some(PrintedBody(m))
  {
    var hs, start := Printed(m), map[COMMAND := m[COMMAND]];
    PrintedDistinct(m);
    ReversedPut(start, hs);
    PutDistinct(start, hs, hs[i].0);
    PutDistinct(start, hs, COMMAND);
    PutDistinct(start, hs, BODY);
  }

  lemma PrintedDistinct(m: Headers)
    ensures DistinctKeys(Printed(m)) && NoReserved(Printed(m))
  {
  }

  /* ---- From the map to the client ---- */

  /** A header value that is printed whole and read whole. */
  predicate Clean(v: string) {
    v != "" && ':' !in v && '\n' !in v && NUL !in v
  }

  predicate CleanEntry(m: Headers, k: string) {
    k in m ==> Clean(m[k])
  }

  lemma CleanFits(m: Headers, k: string)
    requires CleanEntry(m, k) && ':' !in k && '\n' !in k
    ensures var v := if k in m then m[k] else "null"; WellFormed((k, v)) && NUL !in v
  {
    assert ':' !in "null" && '\n' !in "null" && NUL !in "null";
  }

  lemma KeysFit()
    ensures ':' !in "receipt-id" && '\n' !in "receipt-id" && ':' !in "version" && '\n' !in "version"
    ensures ':' !in "subscription" && '\n' !in "subscription" && ':' !in "message-id" && '\n' !in "message-id"
    ensures ':' !in "destination" && '\n' !in "destination"
  {
  }

  /** What the client holds after a frame arrived: what it parses from all but the last character of
      the printed text. */
  function ClientMap(m: Headers): Cpp<Headers> {
    match ToString(m)
    case Threw => Failed(OutOfRange)
    case Parsed(text) => if text == "" then Failed(OutOfRange) else CppParse(DropLast(text))
  }

  /** A MESSAGE on the client is the server's: each header has the value of the server's map, a missing
      one the word null, and the body is the server's body; an empty body leaves no entry. */
  lemma ClientReadsMessage(m: Headers)
    requires Get(m, COMMAND) == Some("MESSAGE") && "message-id" in m && NUL !in PrintedBody(m)
    requires CleanEntry(m, "receipt-id") && CleanEntry(m, "subscription")
    requires CleanEntry(m, "message-id") && CleanEntry(m, "destination")
    ensures ClientMap(m).Built?
    ensures var c := ClientMap(m).value;
            && Get(c, COMMAND) == Some("MESSAGE")
            && Get(c, "message-id") == Some(m["message-id"])
            && Get(c, "subscription") == Some(if "subscription" in m then m["subscription"] else "null")
            && Get(c, "destination") == Some(if "destination" in m then m["destination"] else "null")
            && ("receipt-id" in m ==> Get(c, "receipt-id") == Some(m["receipt-id"]))
            && Get(c, BODY) == if BODY !in m then Some("null") else if m[BODY] == "" then None else Some(m[BODY])
  {
    KeysFit();
    CleanFits(m, "receipt-id");
    CleanFits(m, "subscription");
    CleanFits(m, "message-id");
    CleanFits(m, "destination");
    FrameReachesClient(m);
    var n := |Receipt(m)|;
    ClientSees(m, n);
    ClientSees(m, n + 1);
    ClientSees(m, n + 2);
    ClientSees(m, 0);
  }

  /** A CONNECTED frame on the client. */
  lemma ClientReadsConnected(m: Headers)
    requires Get(m, COMMAND) == Some("CONNECTED") && CleanEntry(m, "version")
    ensures ClientMap(m).Built?
    ensures var c := ClientMap(m).value;
            && Get(c, COMMAND) == Some("CONNECTED") && Get(c, BODY) == None
            && Get(c, "version") == Some(if "version" in m then m["version"] else "null")
  {
    KeysFit();
    CleanFits(m, "version");
    FrameReachesClient(m);
    ClientSees(m, 0);
  }

  /** A RECEIPT on the client. */
  lemma ClientReadsReceipt(m: Headers)
    requires Get(m, COMMAND) == Some("RECEIPT") && "receipt-id" in m && CleanEntry(m, "receipt-id")
    ensures ClientMap(m).Built?
    ensures var c := ClientMap(m).value;
            Get(c, COMMAND) == Some("RECEIPT") && Get(c, BODY) == None && Get(c, "receipt-id") == Some(m["receipt-id"])
  {
    KeysFit();
    CleanFits(m, "receipt-id");
    FrameReachesClient(m);
    ClientSees(m, 0);
  }
}
