/** The STOMP broker: the shared tables of connectionsImpl.java and what one call of process
    (StompMessagingProtocolimpl.java) does to them. A call of process is one atomic step: the code
    takes no lock here. Exceptions are outcomes, and the tables are then as they were at the throw. */
module Broker {
  import opened NulFraming
  import opened Text
  import opened Frames
  import opened ServerFrames

  type Conn = nat

  /** A MESSAGE given to the handler of a connection, with the number in its message-id. */
  datatype Delivery = Delivery(to: Conn, number: nat, frame: Headers)

  /** The fields of connectionsImpl in their order; a null key or value is None. handlers are the
      keys of connectionIdToHandler, and delivered is the history of handler.send. */
  datatype Tables = Tables(
    handlers: set<Conn>,
    subscribers: map<string, seq<Conn>>,
    channelsOf: map<Conn, seq<string>>,
    passcodes: map<Option<string>, Option<string>>,
    loginConn: map<Option<string>, Conn>,
    loginOf: map<Conn, Option<string>>,
    topicById: map<Conn, map<int, string>>,
    idByTopic: map<Conn, map<string, int>>,
    nextConn: nat,
    messageId: nat,
    delivered: seq<Delivery>)

  const EMPTY := Tables({}, map[], map[], map[], map[], map[], map[], map[], 0, 0, [])

  datatype Cause = NullPointer | NumberFormat | FrameText | FailFast

  /** terminate says that the call has set the protocol's terminate flag. */
  datatype Outcome = Reply(frame: Headers, terminate: bool) | NoReply | Exception(cause: Cause)

  /* ---- Deleting by index under a live iterator ---- */

  function FirstIndex(list: seq<Conn>, c: Conn): (i: nat)
    ensures i <= |list| && c !in list[..i]
    ensures i < |list| <==> c in list
    ensures i < |list| ==> list[i] == c
  {
    if list == [] || list[0] == c then 0
    else
      var i := 1 + FirstIndex(list[1..], c);
      assert list[..i] == [list[0]] + list[1..][..i - 1];
      i
  }

  function RemoveFirst(list: seq<Conn>, c: Conn): seq<Conn> {
    var i := FirstIndex(list, c);
    if i == |list| then list else list[..i] + list[i + 1..]
  }

  /** c is absent, or its first occurrence is in the last two positions. */
  predicate Completes(list: seq<Conn>, c: Conn) {
    c !in list || FirstIndex(list, c) + 2 >= |list|
  }

  /** Integer.valueOf caches -128..127: two boxed ids are the same object exactly when they are
      equal and that small (section 5.1.7 of the Java Language Specification). */
  predicate SmallId(c: Conn) {
    c <= 127
  }

  /* ---- connectionsImpl ---- */

  /** send(int, T) for a MESSAGE. The recipient's own id goes under the misspelt key. */
  function SendOne(t: Tables, to: Conn, frame: Headers): (Tables, Headers, bool) {
    if to !in t.idByTopic || "destination" !in frame || frame["destination"] !in t.idByTopic[to] then (t, frame, false)
    else
      var f := frame["subscribtion" := SignedDecimal(t.idByTopic[to][frame["destination"]])]
                    ["message-id" := Decimal(t.messageId)];
      var t' := t.(messageId := t.messageId + 1);
      if to !in t.handlers then (t', f, false)
      else (t'.(delivered := t.delivered + [Delivery(to, t.messageId, f)]), f, true)
  }

  /** send(String, T): one send per subscriber in list order, up to the first exception. */
  function FanOut(t: Tables, list: seq<Conn>, frame: Headers): (Tables, bool)
    decreases |list|
  {
    if list == [] then (t, true)
    else
      var (t', f, ok) := SendOne(t, list[0], frame);
      if !ok then (t', false) else FanOut(t', list[1..], f)
  }

  /** The passes of removeFromMaps over the channels of c: each deletes c from one list. */
  function RemovePasses(subs: map<string, seq<Conn>>, chs: seq<string>, c: Conn)
    : (map<string, seq<Conn>>, Option<Cause>)
    decreases |chs|
  {
    if chs == [] then (subs, None)
    else if chs[0] !in subs then (subs, Some(NullPointer))
    else
      var list := subs[chs[0]];
      if !SmallId(c) then RemovePasses(subs, chs[1..], c)
      else
        var subs' := subs[chs[0] := RemoveFirst(list, c)];
        if Completes(list, c) then RemovePasses(subs', chs[1..], c) else (subs', Some(FailFast))
  }

  function RemoveFromMaps(t: Tables, c: Conn): (Tables, Option<Cause>) {
    var user := if c in t.loginOf then t.loginOf[c] else None;
    var t' := t.(handlers := t.handlers - {c}, topicById := t.topicById - {c},
                 loginOf := t.loginOf - {c}, loginConn := t.loginConn - {user});
    if c !in t.channelsOf then (t', Some(NullPointer))
    else
      var (subs, cause) := RemovePasses(t.subscribers, t.channelsOf[c], c);
      (t'.(subscribers := subs, channelsOf := if cause == None then t.channelsOf - {c} else t.channelsOf), cause)
  }

  function Disconnect(t: Tables, c: Conn): (Tables, Option<Cause>) {
    if c !in t.handlers then (t, Some(NullPointer)) else RemoveFromMaps(t, c)
  }

  function AddSubscriber(t: Tables, channel: string, c: Conn): Tables {
    var list := if channel in t.subscribers then t.subscribers[channel] else [];
    t.(subscribers := t.subscribers[channel := list + [c]])
  }

  /** addToMapconnectionIdToHandler. */
  function Accept(t: Tables): Tables {
    t.(handlers := t.handlers + {t.nextConn}, nextConn := t.nextConn + 1)
  }

  /* ---- checkValid ---- */

  /** 0 is valid; the other codes are those of checkValid. */
  datatype Check = Code(code: nat) | CheckThrew(cause: Cause)

  /** samePasscode is the result of comparing the two passcode references. */
  function CheckValid(t: Tables, c: Conn, f: Headers, samePasscode: bool): Check
    requires COMMAND in f
  {
    if f[COMMAND] == "CONNECT" then
      var login := Get(f, "login");
      if login in t.passcodes && t.passcodes[login].Some? then
        if login in t.loginConn && t.loginConn[login] in t.handlers then Code(1)
        else if !samePasscode then Code(2) else Code(0)
      else Code(0)
    else if f[COMMAND] == "SEND" then
      if "destination" !in f then Code(3)
      else if f["destination"] in t.subscribers && c !in t.subscribers[f["destination"]] then Code(4)
      else Code(0)
    else if f[COMMAND] == "SUBSCRIBE" then
      if "destination" !in f then Code(5) else if "id" !in f then Code(7) else Code(0)
    else if f[COMMAND] == "UNSUBSCRIBE" then
      if "id" !in f then Code(8)
      else match ParseInt(f["id"])
           case None => CheckThrew(NumberFormat)
           case Some(id) =>
             if c !in t.topicById then CheckThrew(NullPointer)
             else if id !in t.topicById[c] then Code(9) else Code(0)
    else if f[COMMAND] == "DISCONNECT" then
      if "receipt" !in f then Code(10) else Code(0)
    else Code(0)
  }

  /* ---- process ---- */

  function ErrorMessage(code: nat): string {
    match code
    case 1 => "Client is already logged in"
    case 2 => "Wrong Password"
    case 3 => "No destination header"
    case 4 => "The client is not subscribed to the channel"
    case 5 => "No destination header"
    case 7 => "The client did not send id header"
    case 8 => "No id header"
    case 9 => "The client is not subscribed to the channel"
    case _ => "The client is not send a receipt id " + "when asked to disconnect"
  }

  function ErrorReason(code: nat): string {
    match code
    case 1 => "Cant connect already connected user"
    case 2 => "The login did not matched the passcode"
    case 3 => "the client did not add a destination header to the frame"
    case 4 => "The client is not subscribed to the channel"
    case 5 => "the client did not add a destination header to the frame"
    case 7 => "The client did not send id header"
    case 8 => "the client did not add a id header to the frame"
    case 9 => "The client is not subscribed to the channel"
    case _ => "message:The client is not send a receipt id when asked to disconnect"
  }

  /** The text process builds for a refused frame: a header line, and then a line without a colon. */
  function ErrorText(code: nat, f: Headers): string {
    var receipt := if code != 10 && "receipt" in f then Entry("receipt-id", f["receipt"]) else "";
    "ERROR" + ['\n'] + (receipt + (Entry("message", ErrorMessage(code)) + ("The Massge" + ['\n'] + ErrorTail(code, f))))
  }

  function ErrorTail(code: nat, f: Headers): string {
    var shown := match ToString(f) case Parsed(s) => s case Threw => "";
    "-----" + shown + ['\n'] + "-----" + ['\n'] + ErrorReason(code)
  }

  /** new Frame(text), returned as the response, after terminate was set if terminate says so. */
  function Respond(text: string, terminate: bool): Outcome {
    match JavaParse(text)
    case Parsed(m) => Reply(m, terminate)
    case Threw => Exception(FrameText)
  }

  function Refuse(code: nat, f: Headers): Outcome {
    Respond(ErrorText(code, f), true)
  }

  /** The receipt of SUBSCRIBE and UNSUBSCRIBE. */
  function Receipted(f: Headers): Outcome {
    if "receipt" in f then Respond("RECEIPT" + ['\n'] + Entry("receipt-id", f["receipt"]) + ['\n'], false) else NoReply
  }

  /** A known login is taken over; a new one is recorded with its passcode. */
  function LoggedIn(t: Tables, c: Conn, f: Headers): Tables {
    var login := Get(f, "login");
    var t' := t.(handlers := t.handlers + {c}, loginConn := t.loginConn[login := c]);
    var known := login in t.passcodes && t.passcodes[login].Some?;
    if known then t'
    else t'.(loginOf := t.loginOf[c := login], passcodes := t.passcodes[login := Get(f, "passcode")])
  }

  function ProcessConnect(t: Tables, c: Conn, f: Headers): (Tables, Outcome) {
    (LoggedIn(t, c, f), Respond("CONNECTED" + ['\n'] + Entry("version", "1.2") + ['\n'], false))
  }

  /** The MESSAGE a SEND turns into, before send renumbers it for each subscriber. */
  function MessageFrame(t: Tables, c: Conn, f: Headers): Headers
    requires "destination" in f && BODY in f && c in t.idByTopic && f["destination"] in t.idByTopic[c]
  {
    map[COMMAND := "MESSAGE", "subscription" := SignedDecimal(t.idByTopic[c][f["destination"]]),
        "message-id" := Decimal(t.messageId), "destination" := f["destination"], BODY := f[BODY]]
  }

  function ProcessSend(t: Tables, c: Conn, f: Headers): (Tables, Outcome)
    requires "destination" in f && BODY in f
  {
    var channel := f["destination"];
    if c !in t.idByTopic || channel !in t.idByTopic[c] then (t, Exception(NullPointer))
    else
      var t' := t.(messageId := t.messageId + 1);
      if channel !in t.subscribers then (t', Exception(NullPointer))
      else
        var (t'', ok) := FanOut(t', t.subscribers[channel], MessageFrame(t, c, f));
        if !ok then (t'', Exception(NullPointer))
        else if "receipt" in f then (t'', Respond("RECEIPT" + ['\n'] + Entry("receipt-id", f["receipt"]), false))
        else (t'', NoReply)
  }

  function Subscribed(t: Tables, c: Conn, id: int, channel: string): Tables {
    var channels := if c in t.channelsOf then t.channelsOf[c] else [];
    AddSubscriber(t, channel, c).(
      channelsOf := t.channelsOf[c := channels + [channel]],
      topicById := t.topicById[c := if c in t.topicById then t.topicById[c][id := channel] else map[id := channel]],
      idByTopic := if c in t.topicById then t.idByTopic else t.idByTopic[c := map[channel := id]])
  }

  function ProcessSubscribe(t: Tables, c: Conn, f: Headers): (Tables, Outcome)
    requires "destination" in f && "id" in f
  {
    match ParseInt(f["id"])
    case None => (t, Exception(NumberFormat))
    case Some(id) => (Subscribed(t, c, id, f["destination"]), Receipted(f))
  }

  /** id is the subscription checkValid has found. */
  function ProcessUnsubscribe(t: Tables, c: Conn, id: int, f: Headers): (Tables, Outcome)
    requires c in t.topicById && id in t.topicById[c]
  {
    var channel := t.topicById[c][id];
    if channel !in t.subscribers then (t, Exception(NullPointer))
    else
      var list := t.subscribers[channel];
      (t.(subscribers := t.subscribers[channel := RemoveFirst(list, c)]),
       if Completes(list, c) then Receipted(f) else Exception(FailFast))
  }

  function ProcessDisconnect(t: Tables, c: Conn): (Tables, Outcome) {
    var (t', cause) := Disconnect(t, c);
    (t', if cause.Some? then Exception(cause.value) else NoReply)
  }

  /** process, for a frame the parser built: it has a command and a body. */
  function Process(t: Tables, c: Conn, f: Headers, samePasscode: bool): (Tables, Outcome)
    requires COMMAND in f && BODY in f
  {
    match CheckValid(t, c, f, samePasscode)
    case CheckThrew(cause) => (t, Exception(cause))
    case Code(code) =>
      if code != 0 then (t, Refuse(code, f))
      else if f[COMMAND] == "CONNECT" then ProcessConnect(t, c, f)
      else if f[COMMAND] == "SEND" then ProcessSend(t, c, f)
      else if f[COMMAND] == "SUBSCRIBE" then ProcessSubscribe(t, c, f)
      else if f[COMMAND] == "UNSUBSCRIBE" then ProcessUnsubscribe(t, c, ParseInt(f["id"]).value, f)
      else if f[COMMAND] == "DISCONNECT" then ProcessDisconnect(t, c)
      else (t, NoReply)
  }

  /* ---- Frame texts ---- */

  predicate IsFrame(text: string, command: string) {
    JavaParse(text).Parsed? && Get(JavaParse(text).value, COMMAND) == Some(command)
  }

  /** The value of a header of a frame text. */
  function HeaderOf(text: string, k: string): Option<string> {
    match JavaParse(text)
    case Threw => None
    case Parsed(f) => Get(f, k)
  }

  /** The id a SUBSCRIBE text gives its channel, if process accepts it. */
  function SubscriptionOf(text: string): Option<(string, int)> {
    if IsFrame(text, "SUBSCRIBE") && HeaderOf(text, "destination").Some? && HeaderOf(text, "id").Some?
       && ParseInt(HeaderOf(text, "id").value).Some?
    then Some((HeaderOf(text, "destination").value, ParseInt(HeaderOf(text, "id").value).value))
    else None
  }

  /** A DISCONNECT that process accepts. */
  predicate IsDisconnect(text: string) {
    IsFrame(text, "DISCONNECT") && HeaderOf(text, "receipt").Some?
  }

  lemma RefusedKeeps(t: Tables, c: Conn, f: Headers, same: bool)
    requires COMMAND in f && BODY in f && CheckValid(t, c, f, same) != Code(0)
    ensures Process(t, c, f, same).0 == t
  {
  }

  lemma BadIdKeeps(t: Tables, c: Conn, f: Headers, same: bool)
    requires COMMAND in f && BODY in f && f[COMMAND] == "SUBSCRIBE" && CheckValid(t, c, f, same) == Code(0)
    requires ParseInt(f["id"]).None?
    ensures Process(t, c, f, same).0 == t
  {
  }

  /** A text that is neither an accepted SUBSCRIBE nor an accepted DISCONNECT changes nothing, or is
      another command that the checks let pass. */
  lemma OtherHandled(t: Tables, c: Conn, text: string, same: bool)
    requires SubscriptionOf(text).None? && !IsDisconnect(text)
    ensures Handle(t, c, text, same).0 == t || (
              && JavaParse(text).Parsed?
              && var f := JavaParse(text).value;
                 && COMMAND in f && BODY in f && f[COMMAND] != "SUBSCRIBE" && f[COMMAND] != "DISCONNECT"
                 && CheckValid(t, c, f, same) == Code(0)
                 && Handle(t, c, text, same) == Process(t, c, f, same))
  {
    if JavaParse(text).Parsed? {
      var f := JavaParse(text).value;
      ParsedHasBoth(text, f);
      if CheckValid(t, c, f, same) != Code(0) { RefusedKeeps(t, c, f, same); }
      else if f[COMMAND] == "SUBSCRIBE" { BadIdKeeps(t, c, f, same); }
    }
  }

  /** Process for such texts. */
  lemma SubscribeHandled(t: Tables, c: Conn, text: string, same: bool)
    requires SubscriptionOf(text).Some?
    ensures var (channel, id) := SubscriptionOf(text).value;
            Handle(t, c, text, same).0 == Subscribed(t, c, id, channel)
  {
    ParsedHasBoth(text, JavaParse(text).value);
  }

  lemma DisconnectHandled(t: Tables, c: Conn, text: string, same: bool)
    requires IsDisconnect(text)
    ensures Handle(t, c, text, same) == ProcessDisconnect(t, c)
  {
    ParsedHasBoth(text, JavaParse(text).value);
  }

  /* ---- Runs ---- */

  /** A new connection, or the text of a frame of connection conn arriving. */
  datatype Event = Accepted | Received(conn: Conn, text: string, samePasscode: bool)

  predicate Enabled(t: Tables, e: Event) {
    e.Received? ==> e.conn < t.nextConn
  }

  /** Decoding builds a Frame and, unless that throws, process runs. */
  function Handle(t: Tables, c: Conn, text: string, samePasscode: bool): (Tables, Outcome) {
    match JavaParse(text)
    case Threw => (t, Exception(FrameText))
    case Parsed(f) => ParsedHasBoth(text, f); Process(t, c, f, samePasscode)
  }

  lemma ParsedHasBoth(text: string, f: Headers)
    requires JavaParse(text) == Parsed(f)
    ensures COMMAND in f && BODY in f
  {
    var l := CutLine(text).value;
    HeadersKeep(l.rest, map[COMMAND := l.line], COMMAND);
  }

  lemma {:induction false} HeadersKeep(s: string, m: Headers, k: string)
    requires k in m && JavaHeaders(s, m).Parsed?
    ensures k in JavaHeaders(s, m).value.0
    decreases |s|
  {
    var l := CutLine(s).value;
    if l.line != "" {
      var h := JavaHeader(l.line).value;
      HeadersKeep(l.rest, m[h.0 := h.1], k);
    }
  }

  function Next(t: Tables, e: Event): Tables
    requires Enabled(t, e)
  {
    match e
    case Accepted => Accept(t)
    case Received(c, text, same) => Handle(t, c, text, same).0
  }

  ghost predicate IsRun(b: seq<Tables>, events: seq<Event>) {
    && |b| == |events| + 1
    && b[0] == EMPTY
    && forall i :: 0 <= i < |events| ==> Enabled(b[i], events[i]) && b[i + 1] == Next(b[i], events[i])
  }
}
