/** One client and the broker, joined by two FIFO channels of frame texts, while every other
    connection does what it likes. */
module Session {
  import opened NulFraming
  import opened Text
  import opened Frames
  import opened FrameRelation
  import opened ServerFrames
  import B = Broker
  import R = BrokerRuns
  import A = BrokerAnswers
  import C = Client

  /** What the user asked for; request number i is the one that got receipt number i. */
  datatype Request = JoinOf(channel: string) | ExitOf(channel: string)

  function Kind(r: Request): string {
    if r.JoinOf? then "SUBSCRIBE" else "UNSUBSCRIBE"
  }

  /** A frame text sent to the client. request is history: the request it answers, if any. */
  datatype Item = Item(text: string, request: Option<nat>)

  /** What the client made of a RECEIPT, with the request the text answered. */
  datatype Report = Report(request: Option<nat>, meaning: Option<(string, string)>)

  /** up and down are all texts sent so far in either direction: the server has processed the first
      |outcomes| of up, the client has read the first received of down. */
  datatype State = State(
    client: C.State,
    up: seq<string>,
    tables: B.Tables,
    outcomes: seq<B.Outcome>,
    down: seq<Item>,
    received: nat,
    crashed: bool,
    reports: seq<Report>,
    conn: B.Conn,
    requests: seq<Request>)

  /** Push is a MESSAGE that some SEND delivers to this client; Others an event of another connection. */
  datatype Step =
    | UserJoin(name: string)
    | UserExit(name: string)
    | Serve
    | Push(frame: Headers)
    | Others(event: B.Event)
    | Receive

  /** The int counters of the client must not overflow. */
  predicate Enabled(s: State, st: Step) {
    match st
    case UserJoin(name) => C.Token(name) && s.client.id < INT_MAX && s.client.recipt < INT_MAX
    case UserExit(name) => name in s.client.channelToUniqueId && s.client.recipt < INT_MAX
    case Serve => |s.outcomes| < |s.up|
    case Push(m) => COMMAND in m && m[COMMAND] == "MESSAGE" && "message-id" in m
    case Others(e) => B.Enabled(s.tables, e) && (e.Received? ==> e.conn != s.conn)
    case Receive => s.received < |s.down| && !s.crashed
  }

  function Next(s: State, st: Step): State
    requires Enabled(s, st)
  {
    match st
    case UserJoin(name) =>
      var (client, text) := C.Join(s.client, name);
      s.(client := client, up := s.up + [text], requests := s.requests + [JoinOf(name)])
    case UserExit(name) =>
      var (client, text) := C.Exit(s.client, name);
      s.(client := client, up := s.up + [text], requests := s.requests + [ExitOf(name)])
    case Serve =>
      var (tables, out) := B.Handle(s.tables, s.conn, s.up[|s.outcomes|], false);
      s.(tables := tables, outcomes := s.outcomes + [out], down := s.down + Answer(out, |s.outcomes|))
    case Push(m) => s.(down := s.down + [Item(ToString(m).value, None)])
    case Others(e) => s.(tables := B.Next(s.tables, e))
    case Receive => Read(s.(received := s.received + 1), s.down[s.received])
  }

  /** A response is printed with toString and sent. */
  function Answer(out: B.Outcome, n: nat): seq<Item> {
    if out.Reply? then
      match ToString(out.frame)
      case Parsed(text) => [Item(text, Some(n))]
      case Threw => []
    else []
  }

  /** processServerMessage after resize(len - 1), which throws for an empty text. */
  function Read(s: State, item: Item): State {
    if item.text == "" then s.(crashed := true)
    else
      match CppParse(DropLast(item.text))
      case Failed(_) => s.(crashed := true)
      case Built(m) =>
        if Get(m, COMMAND) == Some("RECEIPT") then
          s.(reports := s.reports + [Report(item.request, C.Resolve(s.client, m))])
        else s
  }

  ghost predicate Init(s: State) {
    && s.client == C.INITIAL_STATE && s.up == [] && s.down == [] && s.received == 0 && !s.crashed
    && s.requests == [] && s.outcomes == [] && s.reports == []
    && R.Inv(s.tables) && s.conn < s.tables.nextConn
  }

  ghost predicate IsRun(b: seq<State>, steps: seq<Step>) {
    && |b| == |steps| + 1
    && Init(b[0])
    && forall i :: 0 <= i < |steps| ==> Enabled(b[i], steps[i]) && b[i + 1] == Next(b[i], steps[i])
  }

  /* ---- The texts ---- */

  function RequestText(c: C.State, i: nat, r: Request): string
    requires r.channel in c.channelToUniqueId
  {
    var id := c.channelToUniqueId[r.channel];
    if r.JoinOf? then C.SubscribeText(r.channel, id, i) else C.UnsubscribeText(id, i)
  }

  /** The RECEIPT for request i, as the server's response frame and as text. */
  function ReceiptFrame(i: nat): Headers {
    map[COMMAND := "RECEIPT", "receipt-id" := Decimal(i), BODY := ""]
  }

  function ReceiptText(i: nat): string {
    "RECEIPT" + ['\n'] + Entry("receipt-id", Decimal(i)) + ['\n']
  }

  function ReceiptReply(i: nat): B.Outcome {
    B.Reply(ReceiptFrame(i), false)
  }

  predicate IsMessageText(text: string) {
    |text| > 8 && text[..8] == "MESSAGE" + ['\n']
  }

  lemma ReceiptResponse(i: nat)
    ensures B.Respond(ReceiptText(i), false) == ReceiptReply(i)
  {
    var h := ("receipt-id", Decimal(i));
    assert ':' !in "receipt-id" && '\n' !in "receipt-id" && '\n' !in "RECEIPT";
    C.NumberWellFormed("receipt-id", i);
    JavaReadsFrame("RECEIPT", [h], "");
    LinesOfOne(h.0, h.1);
    assert Render("RECEIPT", [h], "") == ReceiptText(i);
    assert [h] == [] + [h];
    PutLast(map[COMMAND := "RECEIPT"], [], h);
  }

  lemma ReceiptPrinted(i: nat)
    ensures ToString(ReceiptFrame(i)) == Parsed(ReceiptText(i))
  {
  }

  lemma ReceiptTextRead(i: nat)
    ensures ReceiptText(i) != "" && CppParse(DropLast(ReceiptText(i))).Built?
    ensures var m := CppParse(DropLast(ReceiptText(i))).value;
            Get(m, COMMAND) == Some("RECEIPT") && Get(m, "receipt-id") == Some(Decimal(i))
  {
    ReceiptPrinted(i);
    assert Clean(Decimal(i));
    ClientReadsReceipt(ReceiptFrame(i));
  }

  lemma StartsWith(start: string, r: string, a: string, b: string, c: string, body: string)
    ensures var text := start + r + a + b + c + ['\n'] + body + ['\n'];
            |text| > |start| && text[..|start|] == start
  {
  }

  lemma MessagePrinted(m: Headers)
    requires COMMAND in m && m[COMMAND] == "MESSAGE" && "message-id" in m
    ensures ToString(m).Parsed? && IsMessageText(ToString(m).value)
  {
    StartsWith("MESSAGE" + ['\n'], AddReceipt(m), Entry("subscription", Shown(m, "subscription")),
               Entry("message-id", Shown(m, "message-id")), Entry("destination", Shown(m, "destination")),
               Shown(m, BODY));
  }

  lemma {:induction false} InsertedKeep(s: string, m: Headers, k: string)
    requires k in m && CppHeaders(s, m).Built?
    ensures Get(CppHeaders(s, m).value.0, k) == Some(m[k])
    decreases |s|
  {
    var l := CppLine(s).value;
    if l.line != "" {
      var h := CppHeader(l.line).value;
      InsertedKeep(l.rest, Insert(m, h.0, h.1), k);
    }
  }

  /** A text that begins like a MESSAGE is never taken for a RECEIPT. */
  lemma MessageTextRead(text: string)
    requires IsMessageText(text)
    ensures CppParse(DropLast(text)).Built? ==> Get(CppParse(DropLast(text)).value, COMMAND) == Some("MESSAGE")
  {
    var t := DropLast(text);
    assert t == "MESSAGE" + ['\n'] + t[8..];
    assert '\n' !in "MESSAGE";
    CutRendered("MESSAGE", t[8..]);
    var m := map[COMMAND := "MESSAGE"];
    if t[8..] != "" && CppHeaders(t[8..], m).Built? { InsertedKeep(t[8..], m, COMMAND); }
  }

  /* ---- What the server does with a request ---- */

  /** The server maps the client's id for the channel to that channel. */
  predicate Bound(s: State, channel: string) {
    channel in s.client.channelToUniqueId && s.conn in s.tables.topicById
    && var id: int := s.client.channelToUniqueId[channel];
       id in s.tables.topicById[s.conn] && s.tables.topicById[s.conn][id] == "/" + channel
  }

  lemma ReceiptedNumber(f: Headers, i: nat)
    requires "receipt" in f && f["receipt"] == Decimal(i)
    ensures B.Receipted(f) == ReceiptReply(i)
  {
    ReceiptResponse(i);
  }

  lemma SubscribeProcessed(t: B.Tables, c: B.Conn, f: Headers)
    requires COMMAND in f && BODY in f && f[COMMAND] == "SUBSCRIBE"
    requires "destination" in f && "id" in f && ParseInt(f["id"]).Some?
    ensures B.Process(t, c, f, false) == (B.Subscribed(t, c, ParseInt(f["id"]).value, f["destination"]), B.Receipted(f))
  {
  }

  lemma UnsubscribeProcessed(t: B.Tables, c: B.Conn, f: Headers)
    requires COMMAND in f && BODY in f && f[COMMAND] == "UNSUBSCRIBE" && "id" in f && ParseInt(f["id"]).Some?
    requires c in t.topicById && ParseInt(f["id"]).value in t.topicById[c]
    requires t.topicById[c][ParseInt(f["id"]).value] in t.subscribers
    ensures var channel := t.topicById[c][ParseInt(f["id"]).value];
            var list := t.subscribers[channel];
            B.Process(t, c, f, false)
              == (t.(subscribers := t.subscribers[channel := B.RemoveFirst(list, c)]),
                  if B.Completes(list, c) then B.Receipted(f) else B.Exception(B.FailFast))
  {
  }

  lemma JoinRead(name: string, id: nat, i: nat)
    requires C.Token(name) && id <= INT_MAX
    ensures var p := JavaParse(C.SubscribeText(name, id, i));
            && p.Parsed? && COMMAND in p.value && BODY in p.value && p.value[COMMAND] == "SUBSCRIBE"
            && Get(p.value, "destination") == Some("/" + name) && Get(p.value, "receipt") == Some(Decimal(i))
            && "id" in p.value && ParseInt(p.value["id"]) == Some(id)
  {
    C.ServerReadsSubscribe(name, id, i);
    JoinHeaders("/" + name, Decimal(id), Decimal(i));
    ParseIntInvertsDecimal(id);
  }

  lemma ExitHeaders(id: string, receipt: string)
    ensures var f := map[COMMAND := "UNSUBSCRIBE", "id" := id, "receipt" := receipt, BODY := C.CARET_AT];
            f[COMMAND] == "UNSUBSCRIBE" && Get(f, "id") == Some(id) && Get(f, "receipt") == Some(receipt)
  {
  }

  lemma JoinHeaders(destination: string, id: string, receipt: string)
    ensures var f := map[COMMAND := "SUBSCRIBE", "destination" := destination, "id" := id, "receipt" := receipt,
                         BODY := C.CARET_AT];
            && f[COMMAND] == "SUBSCRIBE" && Get(f, "destination") == Some(destination)
            && Get(f, "id") == Some(id) && Get(f, "receipt") == Some(receipt)
  {
  }

  lemma ExitRead(id: nat, i: nat)
    requires id <= INT_MAX
    ensures var p := JavaParse(C.UnsubscribeText(id, i));
            && p.Parsed? && COMMAND in p.value && BODY in p.value && p.value[COMMAND] == "UNSUBSCRIBE"
            && Get(p.value, "receipt") == Some(Decimal(i))
            && "id" in p.value && ParseInt(p.value["id"]) == Some(id)
  {
    C.ServerReadsUnsubscribe(id, i);
    ExitHeaders(Decimal(id), Decimal(i));
    ParseIntInvertsDecimal(id);
  }

  lemma JoinHandled(t: B.Tables, c: B.Conn, name: string, id: nat, i: nat)
    requires C.Token(name) && id <= INT_MAX
    ensures B.Handle(t, c, C.SubscribeText(name, id, i), false) == (B.Subscribed(t, c, id, "/" + name), ReceiptReply(i))
  {
    JoinRead(name, id, i);
    var f := JavaParse(C.SubscribeText(name, id, i)).value;
    SubscribeProcessed(t, c, f);
    ReceiptedNumber(f, i);
  }

  lemma ExitHandled(t: B.Tables, c: B.Conn, id: nat, i: nat)
    requires id <= INT_MAX && c in t.topicById && (id as int) in t.topicById[c] && t.topicById[c][id] in t.subscribers
    ensures var channel := t.topicById[c][id];
            var list := t.subscribers[channel];
            B.Handle(t, c, C.UnsubscribeText(id, i), false)
              == (t.(subscribers := t.subscribers[channel := B.RemoveFirst(list, c)]),
                  if B.Completes(list, c) then ReceiptReply(i) else B.Exception(B.FailFast))
  {
    ExitRead(id, i);
    var f := JavaParse(C.UnsubscribeText(id, i)).value;
    UnsubscribeProcessed(t, c, f);
    ReceiptedNumber(f, i);
  }

  lemma BoundIsListed(s: State, channel: string)
    requires R.Inv(s.tables) && Bound(s, channel)
    ensures "/" + channel in s.tables.subscribers
  {
    var id: int := s.client.channelToUniqueId[channel];
    assert R.TopicInv(s.tables, s.conn, id);
    assert R.RecordInv(s.tables, s.conn, "/" + channel);
  }

  /** What others do leaves the subscriptions of this connection alone. */
  lemma OthersKeepTopics(t: B.Tables, e: B.Event, c: B.Conn)
    requires B.Enabled(t, e) && (e.Received? ==> e.conn != c)
    ensures c in B.Next(t, e).topicById <==> c in t.topicById
    ensures c in t.topicById ==> B.Next(t, e).topicById[c] == t.topicById[c]
    ensures B.Next(t, e).nextConn >= t.nextConn
  {
    if e.Received? && JavaParse(e.text).Parsed? {
      var f := JavaParse(e.text).value;
      B.ParsedHasBoth(e.text, f);
      ProcessKeepsTopics(t, e.conn, f, e.samePasscode, c);
    }
  }

  lemma {:induction false} FanOutKeepsTopics(t: B.Tables, list: seq<B.Conn>, frame: Headers)
    ensures B.FanOut(t, list, frame).0.topicById == t.topicById && B.FanOut(t, list, frame).0.nextConn == t.nextConn
    decreases |list|
  {
    if list != [] {
      var (t', f, ok) := B.SendOne(t, list[0], frame);
      if ok { FanOutKeepsTopics(t', list[1..], f); }
    }
  }

  lemma SendKeepsTopics(t: B.Tables, x: B.Conn, f: Headers)
    requires "destination" in f && BODY in f
    ensures B.ProcessSend(t, x, f).0.topicById == t.topicById && B.ProcessSend(t, x, f).0.nextConn == t.nextConn
  {
    var channel := f["destination"];
    if x in t.idByTopic && channel in t.idByTopic[x] && channel in t.subscribers {
      FanOutKeepsTopics(t.(messageId := t.messageId + 1), t.subscribers[channel], B.MessageFrame(t, x, f));
    }
  }

  /** A call for another connection may change all tables but c's subscriptions. */
  ghost predicate SameTopics(t: B.Tables, t': B.Tables, c: B.Conn) {
    && (c in t'.topicById <==> c in t.topicById)
    && (c in t.topicById ==> t'.topicById[c] == t.topicById[c])
    && t'.nextConn == t.nextConn
  }

  lemma DisconnectKeepsTopics(t: B.Tables, x: B.Conn, c: B.Conn)
    requires x != c
    ensures SameTopics(t, B.ProcessDisconnect(t, x).0, c)
  {
  }

  lemma SubscribeKeepsTopics(t: B.Tables, x: B.Conn, f: Headers, c: B.Conn)
    requires x != c && "destination" in f && "id" in f
    ensures SameTopics(t, B.ProcessSubscribe(t, x, f).0, c)
  {
  }

  lemma UnsubscribeKeepsTopics(t: B.Tables, x: B.Conn, id: int, f: Headers, c: B.Conn)
    requires x in t.topicById && id in t.topicById[x]
    ensures SameTopics(t, B.ProcessUnsubscribe(t, x, id, f).0, c)
  {
  }

  lemma ConnectKeepsTopics(t: B.Tables, x: B.Conn, f: Headers, c: B.Conn)
    ensures SameTopics(t, B.ProcessConnect(t, x, f).0, c)
  {
    R.ConnectTouches(t, x, f);
  }

  lemma ProcessKeepsTopics(t: B.Tables, x: B.Conn, f: Headers, same: bool, c: B.Conn)
    requires COMMAND in f && BODY in f && x != c
    ensures SameTopics(t, B.Process(t, x, f, same).0, c)
  {
    if B.CheckValid(t, x, f, same) == B.Code(0) {
      if f[COMMAND] == "CONNECT" { ConnectKeepsTopics(t, x, f, c); }
      else if f[COMMAND] == "SEND" { SendKeepsTopics(t, x, f); }
      else if f[COMMAND] == "SUBSCRIBE" { SubscribeKeepsTopics(t, x, f, c); }
      else if f[COMMAND] == "UNSUBSCRIBE" { UnsubscribeKeepsTopics(t, x, ParseInt(f["id"]).value, f, c); }
      else if f[COMMAND] == "DISCONNECT" { DisconnectKeepsTopics(t, x, c); }
    }
  }

  /* ---- The invariant ---- */

  ghost predicate RequestInv(s: State, i: nat) {
    i < |s.requests| && i < |s.up| ==>
      var r := s.requests[i];
      && C.Token(r.channel) && r.channel in s.client.channelToUniqueId
      && i in s.client.receiptToOriginalMsg
      && s.client.receiptToOriginalMsg[i] == Kind(r) + [':'] + r.channel
      && s.up[i] == RequestText(s.client, i, r)
      && (r.ExitOf? ==> JoinedBefore(s, r.channel, i))
      && (i < |s.outcomes| && r.JoinOf? ==> Bound(s, r.channel))
  }

  /** One of the first n requests joined the channel. */
  ghost predicate JoinedBefore(s: State, channel: string, n: nat) {
    exists j :: 0 <= j < n && j < |s.requests| && s.requests[j] == JoinOf(channel)
  }

  ghost predicate NameInv(s: State, n: string) {
    n in s.client.channelToUniqueId ==>
      s.client.channelToUniqueId[n] < s.client.id && C.Token(n) && JoinedBefore(s, n, |s.requests|)
  }

  ghost predicate Apart(s: State, n: string, m: string) {
    (n in s.client.channelToUniqueId && m in s.client.channelToUniqueId
     && s.client.channelToUniqueId[n] == s.client.channelToUniqueId[m]) ==> n == m
  }

  ghost predicate OutcomeInv(s: State, i: nat) {
    i < |s.outcomes| && i < |s.requests| ==>
      s.outcomes[i] == ReceiptReply(i) || (s.requests[i].ExitOf? && s.outcomes[i] == B.Exception(B.FailFast))
  }

  ghost predicate ItemInv(s: State, k: nat) {
    k < |s.down| ==>
      match s.down[k].request
      case Some(r) => r < |s.requests| && s.down[k].text == ReceiptText(r)
      case None => IsMessageText(s.down[k].text)
  }

  /** The numbers of the requests the server has answered with a frame, in processing order. */
  function Replied(outs: seq<B.Outcome>): seq<nat> {
    if outs == [] then []
    else
      var last := |outs| - 1;
      if outs[last].Reply? then Replied(outs[..last]) + [last] else Replied(outs[..last])
  }

  /** The requests that a sequence of texts answers. */
  function Answered(items: seq<Item>): seq<nat> {
    if items == [] then []
    else
      var last := |items| - 1;
      if items[last].request.None? then Answered(items[..last])
      else Answered(items[..last]) + [items[last].request.value]
  }

  /** Report k is about the k-th answer read, and names the kind and channel of that request. */
  ghost predicate ReportInv(s: State, k: nat) {
    s.received <= |s.down| && k < |s.reports| ==>
      var ns := Answered(s.down[..s.received]);
      && k < |ns| && ns[k] < |s.requests|
      && s.reports[k] == Report(Some(ns[k]), Some((Kind(s.requests[ns[k]]), s.requests[ns[k]].channel)))
  }

  ghost predicate CountInv(s: State) {
    && s.client.recipt == |s.requests| == |s.up| && |s.outcomes| <= |s.up| && s.received <= |s.down|
    && s.client.id <= INT_MAX && s.client.recipt <= INT_MAX
    && (forall n :: n in s.client.receiptToOriginalMsg ==> n < s.client.recipt)
    && |s.reports| == |Answered(s.down[..s.received])|
    && Answered(s.down) == Replied(s.outcomes)
  }

  ghost predicate Inv(s: State) {
    && R.Inv(s.tables) && s.conn < s.tables.nextConn
    && CountInv(s)
    && (forall i :: RequestInv(s, i)) && (forall n :: NameInv(s, n)) && (forall n, m :: Apart(s, n, m))
    && (forall i :: OutcomeInv(s, i)) && (forall k :: ItemInv(s, k)) && (forall k :: ReportInv(s, k))
  }

  lemma InitInv(s: State)
    requires Init(s)
    ensures Inv(s)
  {
  }

  /* ---- Asking ---- */

  /** What a join or exit command does to the state, seen from the requests. */
  ghost predicate Asks(s: State, s': State, r: Request) {
    && |s'.up| == |s.up| + 1
    && s' == s.(client := s'.client, up := s.up + [s'.up[|s.up|]], requests := s.requests + [r])
    && s'.client.recipt == s.client.recipt + 1 && s.client.id <= s'.client.id <= INT_MAX && s'.client.recipt <= INT_MAX
    && s'.client.receiptToOriginalMsg == s.client.receiptToOriginalMsg[s.client.recipt := Kind(r) + [':'] + r.channel]
    && r.channel in s'.client.channelToUniqueId && C.Token(r.channel)
    && s'.client.channelToUniqueId == s.client.channelToUniqueId[r.channel := s'.client.channelToUniqueId[r.channel]]
    && (r.channel in s.client.channelToUniqueId ==>
          s'.client.channelToUniqueId == s.client.channelToUniqueId && s'.client.id == s.client.id)
    && (r.channel !in s.client.channelToUniqueId ==>
          r.JoinOf? && s'.client.channelToUniqueId[r.channel] == s.client.id && s'.client.id == s.client.id + 1)
    && s'.up[|s.up|] == RequestText(s'.client, |s.requests|, r)
  }

  lemma JoinAsks(s: State, name: string)
    requires Inv(s) && Enabled(s, UserJoin(name))
    ensures Asks(s, Next(s, UserJoin(name)), JoinOf(name))
  {
    var s' := Next(s, UserJoin(name));
    assert s.client.recipt !in s.client.receiptToOriginalMsg;
    if name in s.client.channelToUniqueId {
      assert s.client.channelToUniqueId[name := s.client.channelToUniqueId[name]] == s.client.channelToUniqueId;
    }
  }

  lemma ExitAsks(s: State, name: string)
    requires Inv(s) && Enabled(s, UserExit(name))
    ensures Asks(s, Next(s, UserExit(name)), ExitOf(name))
  {
    assert s.client.recipt !in s.client.receiptToOriginalMsg;
    assert NameInv(s, name);
    assert s.client.channelToUniqueId[name := s.client.channelToUniqueId[name]] == s.client.channelToUniqueId;
  }

  lemma AskKeepsRequest(s: State, s': State, r: Request, i: nat)
    requires CountInv(s) && Asks(s, s', r) && RequestInv(s, i) && NameInv(s, r.channel)
    ensures RequestInv(s', i)
  {
    if i < |s.requests| {
      assert s'.requests[i] == s.requests[i] && s'.up[i] == s.up[i];
      if s.requests[i].ExitOf? { JoinedLater(s, s', s.requests[i].channel, i); }
    } else if i == |s.requests| && r.ExitOf? {
      JoinedLater(s, s', r.channel, i);
    }
  }

  lemma JoinedLater(s: State, s': State, channel: string, n: nat)
    requires JoinedBefore(s, channel, n) && s.requests <= s'.requests
    ensures JoinedBefore(s', channel, n) && (forall m :: m >= n ==> JoinedBefore(s', channel, m))
  {
    var j :| 0 <= j < n && j < |s.requests| && s.requests[j] == JoinOf(channel);
    assert s'.requests[j] == JoinOf(channel);
  }

  lemma AskKeepsName(s: State, s': State, r: Request, n: string)
    requires CountInv(s) && Asks(s, s', r) && NameInv(s, n)
    ensures NameInv(s', n)
  {
    if n in s.client.channelToUniqueId {
      JoinedLater(s, s', n, |s.requests|);
    } else if n == r.channel {
      assert s'.requests[|s.requests|] == JoinOf(n);
    }
  }

  lemma KeepAsk(s: State, s': State, r: Request)
    requires Inv(s) && Asks(s, s', r)
    ensures Inv(s')
  {
    forall i: nat ensures RequestInv(s', i) {
      assert RequestInv(s, i) && NameInv(s, r.channel);
      AskKeepsRequest(s, s', r, i);
    }
    forall n ensures NameInv(s', n) { assert NameInv(s, n); AskKeepsName(s, s', r, n); }
    forall n, m ensures Apart(s', n, m) { assert Apart(s, n, m) && NameInv(s, n) && NameInv(s, m); }
    forall i: nat ensures OutcomeInv(s', i) { assert OutcomeInv(s, i); }
    forall k: nat ensures ItemInv(s', k) { assert ItemInv(s, k); }
    forall k: nat ensures ReportInv(s', k) { assert ReportInv(s, k); }
  }

  /* ---- Serving ---- */

  /** The effect of serving request |s.outcomes|: a join binds its id, an exit removes the connection
      from the list of its channel. */
  ghost predicate Serves(s: State, s': State)
    requires |s.outcomes| < |s.requests|
  {
    var i := |s.outcomes|;
    var r := s.requests[i];
    var channel := "/" + r.channel;
    && r.channel in s.client.channelToUniqueId
    && |s'.outcomes| == i + 1
    && s' == s.(tables := s'.tables, outcomes := s.outcomes + [s'.outcomes[i]], down := s'.down)
    && (s'.outcomes[i] == ReceiptReply(i) || (r.ExitOf? && s'.outcomes[i] == B.Exception(B.FailFast)))
    && s'.down == (if s'.outcomes[i].Reply? then s.down + [Item(ReceiptText(i), Some(i))] else s.down)
    && (r.JoinOf? ==> s'.tables == B.Subscribed(s.tables, s.conn, s.client.channelToUniqueId[r.channel], channel))
    && (r.ExitOf? ==>
          && channel in s.tables.subscribers
          && s'.tables == s.tables.(subscribers :=
               s.tables.subscribers[channel := B.RemoveFirst(s.tables.subscribers[channel], s.conn)])
          && (s'.outcomes[i].Reply? <==> B.Completes(s.tables.subscribers[channel], s.conn)))
  }

  /** Every request is served as the user meant it. */
  lemma ServeStep(s: State)
    requires Inv(s) && Enabled(s, Serve)
    ensures Serves(s, Next(s, Serve))
  {
    var i := |s.outcomes|;
    var r := s.requests[i];
    assert RequestInv(s, i) && NameInv(s, r.channel);
    var id := s.client.channelToUniqueId[r.channel];
    ReceiptPrinted(i);
    if r.JoinOf? {
      JoinHandled(s.tables, s.conn, r.channel, id, i);
    } else {
      ServedJoinBinds(s, r.channel, i);
      BoundIsListed(s, r.channel);
      ExitHandled(s.tables, s.conn, id, i);
    }
  }

  lemma ServedJoinBinds(s: State, channel: string, n: nat)
    requires Inv(s) && JoinedBefore(s, channel, n) && n <= |s.outcomes|
    ensures Bound(s, channel)
  {
    var j :| 0 <= j < n && j < |s.requests| && s.requests[j] == JoinOf(channel);
    assert RequestInv(s, j);
  }

  lemma ServeKeepsBound(s: State, s': State, channel: string)
    requires |s.outcomes| < |s.requests| && Serves(s, s') && Bound(s, channel)
    requires Apart(s, channel, s.requests[|s.outcomes|].channel)
    ensures Bound(s', channel)
  {
  }

  lemma ServeBinds(s: State, s': State)
    requires |s.outcomes| < |s.requests| && Serves(s, s') && s.requests[|s.outcomes|].JoinOf?
    ensures Bound(s', s.requests[|s.outcomes|].channel)
  {
  }

  lemma ServeKeepsRequest(s: State, s': State, i: nat)
    requires CountInv(s) && |s.outcomes| < |s.requests| && Serves(s, s') && RequestInv(s, i)
    requires i < |s.requests| ==> Apart(s, s.requests[i].channel, s.requests[|s.outcomes|].channel)
    ensures RequestInv(s', i)
  {
    if i < |s.requests| && s.requests[i].ExitOf? { JoinedLater(s, s', s.requests[i].channel, i); }
    if i < |s.outcomes| && s.requests[i].JoinOf? {
      ServeKeepsBound(s, s', s.requests[i].channel);
    } else if i == |s.outcomes| && s.requests[i].JoinOf? {
      ServeBinds(s, s');
    }
  }

  lemma ServeKeepsName(s: State, s': State, n: string)
    requires |s.outcomes| < |s.requests| && Serves(s, s') && NameInv(s, n)
    ensures NameInv(s', n)
  {
    if n in s.client.channelToUniqueId { JoinedLater(s, s', n, |s.requests|); }
  }

  lemma AnsweredAppend(items: seq<Item>, item: Item)
    ensures Answered(items + [item])
            == if item.request.Some? then Answered(items) + [item.request.value] else Answered(items)
  {
    assert (items + [item])[..|items|] == items;
  }

  lemma RepliedAppend(outs: seq<B.Outcome>, out: B.Outcome)
    ensures Replied(outs + [out]) == if out.Reply? then Replied(outs) + [|outs|] else Replied(outs)
  {
    assert (outs + [out])[..|outs|] == outs;
  }

  lemma ServeKeepsCount(s: State, s': State)
    requires CountInv(s) && |s.outcomes| < |s.requests| && Serves(s, s')
    ensures CountInv(s')
  {
    var i := |s.outcomes|;
    RepliedAppend(s.outcomes, s'.outcomes[i]);
    AnsweredAppend(s.down, Item(ReceiptText(i), Some(i)));
    assert s'.down[..s.received] == s.down[..s.received];
  }

  lemma KeepServe(s: State)
    requires Inv(s) && Enabled(s, Serve)
    ensures Inv(Next(s, Serve))
  {
    ServeStep(s);
    R.KeepHandle(s.tables, s.conn, s.up[|s.outcomes|], false);
    KeepServed(s, Next(s, Serve));
  }

  lemma KeepServed(s: State, s': State)
    requires Inv(s) && |s.outcomes| < |s.requests| && Serves(s, s')
    requires R.Inv(s'.tables) && s'.conn < s'.tables.nextConn
    ensures Inv(s')
  {
    ServeKeepsCount(s, s');
    forall i: nat ensures RequestInv(s', i) {
      assert RequestInv(s, i);
      if i < |s.requests| { assert Apart(s, s.requests[i].channel, s.requests[|s.outcomes|].channel); }
      ServeKeepsRequest(s, s', i);
    }
    forall n ensures NameInv(s', n) { assert NameInv(s, n); ServeKeepsName(s, s', n); }
    forall n, m ensures Apart(s', n, m) { assert Apart(s, n, m); }
    forall i: nat ensures OutcomeInv(s', i) { assert OutcomeInv(s, i); }
    forall k: nat ensures ItemInv(s', k) { assert ItemInv(s, k); }
    assert s'.down[..s.received] == s.down[..s.received];
    forall k: nat ensures ReportInv(s', k) { assert ReportInv(s, k); }
  }

  /* ---- Deliveries and other connections ---- */

  lemma KeepPush(s: State, m: Headers)
    requires Inv(s) && Enabled(s, Push(m))
    ensures Inv(Next(s, Push(m)))
  {
    var s' := Next(s, Push(m));
    MessagePrinted(m);
    AnsweredAppend(s.down, Item(ToString(m).value, None));
    assert s'.down[..s.received] == s.down[..s.received];
    forall i: nat ensures RequestInv(s', i) { assert RequestInv(s, i); SameRequest(s, s', i); }
    forall n ensures NameInv(s', n) { assert NameInv(s, n); SameName(s, s', n); }
    forall n, m ensures Apart(s', n, m) { assert Apart(s, n, m); }
    forall i: nat ensures OutcomeInv(s', i) { assert OutcomeInv(s, i); }
    forall k: nat ensures ItemInv(s', k) { assert ItemInv(s, k); }
    forall k: nat ensures ReportInv(s', k) { assert ReportInv(s, k); }
  }

  /** Nothing has changed that the requests are about. */
  ghost predicate SameRequests(s: State, s': State) {
    && s'.client == s.client && s'.requests == s.requests && s'.up == s.up
    && s'.outcomes == s.outcomes && s'.conn == s.conn
    && (s.conn in s'.tables.topicById <==> s.conn in s.tables.topicById)
    && (s.conn in s.tables.topicById ==> s'.tables.topicById[s.conn] == s.tables.topicById[s.conn])
  }

  lemma SameRequest(s: State, s': State, i: nat)
    requires SameRequests(s, s') && RequestInv(s, i)
    ensures RequestInv(s', i)
  {
    if i < |s.requests| && i < |s.up| && s.requests[i].ExitOf? { JoinedLater(s, s', s.requests[i].channel, i); }
  }

  lemma SameName(s: State, s': State, n: string)
    requires SameRequests(s, s') && NameInv(s, n)
    ensures NameInv(s', n)
  {
    if n in s.client.channelToUniqueId { JoinedLater(s, s', n, |s.requests|); }
  }

  lemma KeepOthers(s: State, e: B.Event)
    requires Inv(s) && Enabled(s, Others(e))
    ensures Inv(Next(s, Others(e)))
  {
    var s' := Next(s, Others(e));
    OthersKeepTopics(s.tables, e, s.conn);
    if e.Received? { R.KeepHandle(s.tables, e.conn, e.text, e.samePasscode); } else { R.KeepAccept(s.tables); }
    forall i: nat ensures RequestInv(s', i) { assert RequestInv(s, i); SameRequest(s, s', i); }
    forall n ensures NameInv(s', n) { assert NameInv(s, n); SameName(s, s', n); }
    forall n, m ensures Apart(s', n, m) { assert Apart(s, n, m); }
    forall i: nat ensures OutcomeInv(s', i) { assert OutcomeInv(s, i); }
    forall k: nat ensures ItemInv(s', k) { assert ItemInv(s, k); }
    forall k: nat ensures ReportInv(s', k) { assert ReportInv(s, k); }
  }

  /* ---- Reading ---- */

  lemma ReceiptResolves(s: State, i: nat)
    requires CountInv(s) && i < |s.requests| && RequestInv(s, i)
    ensures ReceiptText(i) != "" && CppParse(DropLast(ReceiptText(i))).Built?
    ensures var m := CppParse(DropLast(ReceiptText(i))).value;
            && Get(m, COMMAND) == Some("RECEIPT")
            && C.Resolve(s.client, m) == Some((Kind(s.requests[i]), s.requests[i].channel))
  {
    ReceiptTextRead(i);
    ParseIntInvertsDecimal(i);
    assert ':' !in "SUBSCRIBE" && ':' !in "UNSUBSCRIBE";
    C.TagSplits(Kind(s.requests[i]), s.requests[i].channel);
  }

  /** The client takes a RECEIPT for the request it answers, and nothing else for a RECEIPT. */
  lemma ReceiveStep(s: State)
    requires Inv(s) && Enabled(s, Receive)
    ensures var s', item := Next(s, Receive), s.down[s.received];
            && s' == s.(received := s.received + 1, crashed := s'.crashed, reports := s'.reports)
            && (item.request.None? ==> s'.reports == s.reports)
            && (item.request.Some? ==>
                  && !s'.crashed && item.request.value < |s.requests|
                  && var r := s.requests[item.request.value];
                     s'.reports == s.reports + [Report(item.request, Some((Kind(r), r.channel)))])
  {
    var item := s.down[s.received];
    assert ItemInv(s, s.received);
    match item.request
    case None => MessageTextRead(item.text);
    case Some(i) =>
      assert RequestInv(s, i);
      ReceiptResolves(s, i);
  }

  lemma KeepReceive(s: State)
    requires Inv(s) && Enabled(s, Receive)
    ensures Inv(Next(s, Receive))
  {
    var s', item := Next(s, Receive), s.down[s.received];
    ReceiveStep(s);
    ReceiveKeepsReports(s, s', item);
    forall i: nat ensures RequestInv(s', i) { assert RequestInv(s, i); SameRequest(s, s', i); }
    forall n ensures NameInv(s', n) { assert NameInv(s, n); SameName(s, s', n); }
    forall n, m ensures Apart(s', n, m) { assert Apart(s, n, m); }
    forall i: nat ensures OutcomeInv(s', i) { assert OutcomeInv(s, i); }
    forall k: nat ensures ItemInv(s', k) { assert ItemInv(s, k); }
  }

  /** The client has read item and reported what ReceiveStep says. */
  lemma ReceiveKeepsReports(s: State, s': State, item: Item)
    requires CountInv(s) && (forall k :: ReportInv(s, k)) && s.received < |s.down| && item == s.down[s.received]
    requires s' == s.(received := s.received + 1, crashed := s'.crashed, reports := s'.reports)
    requires item.request.None? ==> s'.reports == s.reports
    requires item.request.Some? ==>
               item.request.value < |s.requests|
               && var r := s.requests[item.request.value];
                  s'.reports == s.reports + [Report(item.request, Some((Kind(r), r.channel)))]
    ensures CountInv(s') && forall k :: ReportInv(s', k)
  {
    assert s'.down[..s'.received] == s.down[..s.received] + [item];
    AnsweredAppend(s.down[..s.received], item);
    forall k: nat ensures ReportInv(s', k) { assert ReportInv(s, k); }
  }

  /* ---- Over whole runs ---- */

  lemma KeepStep(s: State, st: Step)
    requires Inv(s) && Enabled(s, st)
    ensures Inv(Next(s, st))
  {
    match st
    case UserJoin(name) => JoinAsks(s, name); KeepAsk(s, Next(s, st), JoinOf(name));
    case UserExit(name) => ExitAsks(s, name); KeepAsk(s, Next(s, st), ExitOf(name));
    case Serve => KeepServe(s);
    case Push(m) => KeepPush(s, m);
    case Others(e) => KeepOthers(s, e);
    case Receive => KeepReceive(s);
  }

  lemma {:induction false} RunsKeepInv(b: seq<State>, steps: seq<Step>, i: nat)
    requires IsRun(b, steps) && i < |b|
    ensures Inv(b[i])
  {
    if i == 0 {
      InitInv(b[0]);
    } else {
      RunsKeepInv(b, steps, i - 1);
      KeepStep(b[i - 1], steps[i - 1]);
    }
  }

  /** The client never gives two channels the same id. */
  lemma IdsInjective(b: seq<State>, steps: seq<Step>, i: nat, n: string, m: string)
    requires IsRun(b, steps) && i < |b|
    requires n in b[i].client.channelToUniqueId && m in b[i].client.channelToUniqueId && n != m
    ensures b[i].client.channelToUniqueId[n] != b[i].client.channelToUniqueId[m]
  {
    RunsKeepInv(b, steps, i);
    assert Apart(b[i], n, m);
  }

  /* ---- The histories against the steps ---- */

  /** The user's commands, in order. */
  function Asked(steps: seq<Step>): seq<Request> {
    if steps == [] then []
    else
      var front := Asked(steps[..|steps| - 1]);
      match steps[|steps| - 1]
      case UserJoin(name) => front + [JoinOf(name)]
      case UserExit(name) => front + [ExitOf(name)]
      case _ => front
  }

  /** How many frames the server has processed, and how many the client has read. */
  function Served(steps: seq<Step>): nat {
    if steps == [] then 0 else Served(steps[..|steps| - 1]) + (if steps[|steps| - 1].Serve? then 1 else 0)
  }

  function Reads(steps: seq<Step>): nat {
    if steps == [] then 0 else Reads(steps[..|steps| - 1]) + (if steps[|steps| - 1].Receive? then 1 else 0)
  }

  ghost predicate Explained(s: State, steps: seq<Step>) {
    s.requests == Asked(steps) && |s.outcomes| == Served(steps) && s.received == Reads(steps)
  }

  lemma StepExplained(s: State, steps: seq<Step>, st: Step)
    requires Enabled(s, st) && Explained(s, steps)
    ensures Explained(Next(s, st), steps + [st])
  {
    assert (steps + [st])[..|steps|] == steps;
  }

  /** In every run the requests are the user's commands, and what server and client have processed is
      counted by their steps. */
  lemma {:induction false} HistoriesAreTheSteps(b: seq<State>, steps: seq<Step>, i: nat)
    requires IsRun(b, steps) && i < |b|
    ensures Explained(b[i], steps[..i])
  {
    if i == 0 {
      assert steps[..0] == [];
    } else {
      HistoriesAreTheSteps(b, steps, i - 1);
      assert steps[..i] == steps[..i - 1] + [steps[i - 1]];
      StepExplained(b[i - 1], steps[..i - 1], steps[i - 1]);
    }
  }

  /** Step i is the server processing the user's command r: the frames are served in the order of the
      commands. */
  ghost predicate ServesCommand(steps: seq<Step>, i: nat, r: Request)
    requires i < |steps|
  {
    steps[i] == Serve && Served(steps[..i]) < |Asked(steps[..i])| && Asked(steps[..i])[Served(steps[..i])] == r
  }

  /** What an exit does to the list of the channel, and what it answers. */
  ghost predicate Left(list: seq<B.Conn>, list': seq<B.Conn>, c: B.Conn, out: B.Outcome, n: nat) {
    if c in list then
      exists before, after :: A.FirstTaken(list, list', c, before, after)
                              && out == if |after| <= 1 then ReceiptReply(n) else B.Exception(B.FailFast)
    else list' == list && out == ReceiptReply(n)
  }

  lemma RemovedIsLeft(list: seq<B.Conn>, c: B.Conn, n: nat)
    ensures Left(list, B.RemoveFirst(list, c), c,
                 if B.Completes(list, c) then ReceiptReply(n) else B.Exception(B.FailFast), n)
  {
    A.RemoveFirstExactly(list, c);
  }

  /** Client and broker mirror each other: whenever the server processes an exit command's
      UNSUBSCRIBE, whatever is in flight, it takes the connection's first entry out of the list of
      exactly the channel the user named, and answers unless the removal fails fast. */
  lemma ExitLeavesNamedChannel(b: seq<State>, steps: seq<Step>, i: nat, name: string)
    requires IsRun(b, steps) && i < |steps| && ServesCommand(steps, i, ExitOf(name))
    ensures var s, s', channel, n := b[i], b[i + 1], "/" + name, Served(steps[..i]);
            && channel in s.tables.subscribers && channel in s'.tables.subscribers && |s'.outcomes| == n + 1
            && s'.tables == s.tables.(subscribers := s.tables.subscribers[channel := s'.tables.subscribers[channel]])
            && Left(s.tables.subscribers[channel], s'.tables.subscribers[channel], s.conn, s'.outcomes[n], n)
  {
    var s, n := b[i], Served(steps[..i]);
    HistoriesAreTheSteps(b, steps, i);
    RunsKeepInv(b, steps, i);
    assert Enabled(s, steps[i]);
    ServeStep(s);
    RemovedIsLeft(s.tables.subscribers["/" + name], s.conn, n);
  }

  /** A join command's SUBSCRIBE puts the connection at the end of the list of the named channel, and
      from then on the server knows the channel by the client's id. */
  lemma JoinEntersNamedChannel(b: seq<State>, steps: seq<Step>, i: nat, name: string)
    requires IsRun(b, steps) && i < |steps| && ServesCommand(steps, i, JoinOf(name))
    ensures var s, s', channel, n := b[i], b[i + 1], "/" + name, Served(steps[..i]);
            var list := if channel in s.tables.subscribers then s.tables.subscribers[channel] else [];
            && s'.tables.subscribers == s.tables.subscribers[channel := list + [s.conn]]
            && |s'.outcomes| == n + 1 && s'.outcomes[n] == ReceiptReply(n)
    ensures forall j :: i < j < |b| ==> Bound(b[j], name)
  {
    HistoriesAreTheSteps(b, steps, i);
    RunsKeepInv(b, steps, i);
    assert Enabled(b[i], steps[i]);
    ServeStep(b[i]);
    R.SubscribedList(b[i].tables, b[i].conn, b[i].client.channelToUniqueId[name], "/" + name);
    forall j | i < j < |b| ensures Bound(b[j], name) { StaysBound(b, steps, i, j, name); }
  }

  lemma StaysBound(b: seq<State>, steps: seq<Step>, i: nat, j: nat, name: string)
    requires IsRun(b, steps) && i < j < |b|
    requires |b[i].outcomes| < |b[i].requests| && |b[i + 1].outcomes| > |b[i].outcomes|
    requires b[i + 1].requests == b[i].requests && b[i].requests[|b[i].outcomes|] == JoinOf(name)
    ensures Bound(b[j], name)
  {
    RunsKeepInv(b, steps, j);
    HistoryGrows(b, steps, i + 1, j);
    assert RequestInv(b[j], |b[i].outcomes|);
  }

  /** What has happened stays on record. */
  ghost predicate Grown(s: State, s': State) {
    s.requests <= s'.requests && s.outcomes <= s'.outcomes && s.down <= s'.down
  }

  lemma StepGrows(s: State, st: Step)
    requires Enabled(s, st)
    ensures Grown(s, Next(s, st))
  {
  }

  lemma RunGrows(b: seq<State>, steps: seq<Step>, i: nat)
    requires IsRun(b, steps) && i < |steps|
    ensures Grown(b[i], b[i + 1])
  {
    StepGrows(b[i], steps[i]);
  }

  lemma GrownTransitive(s: State, t: State, u: State)
    requires Grown(s, t) && Grown(t, u)
    ensures Grown(s, u)
  {
  }

  lemma {:induction false} GrownChain(b: seq<State>, i: nat, j: nat)
    requires i <= j < |b| && forall k :: 0 <= k < |b| - 1 ==> Grown(b[k], b[k + 1])
    ensures Grown(b[i], b[j])
    decreases j
  {
    if i < j {
      GrownChain(b, i, j - 1);
      assert Grown(b[j - 1], b[j - 1 + 1]);
      GrownTransitive(b[i], b[j - 1], b[j]);
    }
  }

  lemma HistoryGrows(b: seq<State>, steps: seq<Step>, i: nat, j: nat)
    requires IsRun(b, steps) && i <= j < |b|
    ensures Grown(b[i], b[j])
  {
    forall k | 0 <= k < |b| - 1 ensures Grown(b[k], b[k + 1]) { RunGrows(b, steps, k); }
    GrownChain(b, i, j);
  }

  lemma {:induction false} AnsweredPrefix(items: seq<Item>, n: nat)
    requires n <= |items|
    ensures Answered(items[..n]) <= Answered(items)
    decreases |items|
  {
    if n == |items| {
      assert items[..n] == items;
    } else {
      assert items[..|items| - 1][..n] == items[..n];
      AnsweredPrefix(items[..|items| - 1], n);
    }
  }

  /** Replied lists the answered requests, each once and in order. */
  lemma {:induction false} RepliedIncreases(outs: seq<B.Outcome>, n: nat)
    ensures n in Replied(outs) <==> n < |outs| && outs[n].Reply?
    ensures forall i, j :: 0 <= i < j < |Replied(outs)| ==> Replied(outs)[i] < Replied(outs)[j]
    ensures forall i :: 0 <= i < |Replied(outs)| ==> Replied(outs)[i] < |outs|
    decreases |outs|
  {
    if outs != [] { RepliedIncreases(outs[..|outs| - 1], n); }
  }

  /** What the client says about the user's command r. */
  predicate Names(meaning: Option<(string, string)>, r: Request) {
    match r
    case JoinOf(channel) => meaning == Some(("SUBSCRIBE", channel))
    case ExitOf(channel) => meaning == Some(("UNSUBSCRIBE", channel))
  }

  /** Report k is about the k-th answered command, and names it. */
  ghost predicate Resolves(s: State, asked: seq<Request>, k: nat) {
    k < |s.reports| && k < |Replied(s.outcomes)| ==>
      var n := Replied(s.outcomes)[k];
      n < |asked| && s.reports[k].request == Some(n) && Names(s.reports[k].meaning, asked[n])
  }

  lemma ReportsResolve(s: State, k: nat)
    requires Inv(s) && Answered(s.down[..s.received]) <= Replied(s.outcomes)
    ensures Resolves(s, s.requests, k)
  {
    assert ReportInv(s, k);
  }

  /** Receipts: the server answers each command it accepts with one RECEIPT carrying that command's
      number, in the order of the commands; what the client has resolved is an initial part of these
      answers, and it resolves each to the kind and channel of the very command that allocated the
      number; all of them, once it has read all that was sent. */
  lemma ReceiptsCorrelate(b: seq<State>, steps: seq<Step>, i: nat)
    requires IsRun(b, steps) && i < |b|
    ensures var s := b[i];
            && |s.outcomes| == Served(steps[..i]) && Answered(s.down) == Replied(s.outcomes)
            && (forall n: nat :: n in Replied(s.outcomes) <==> n < |s.outcomes| && s.outcomes[n] == ReceiptReply(n))
            && (forall j, k :: 0 <= j < k < |Replied(s.outcomes)| ==> Replied(s.outcomes)[j] < Replied(s.outcomes)[k])
            && (forall k :: 0 <= k < |s.down| && s.down[k].request.Some? ==>
                  s.down[k].text == ReceiptText(s.down[k].request.value))
    ensures |b[i].reports| <= |Replied(b[i].outcomes)|
    ensures Reads(steps[..i]) == |b[i].down| ==> |b[i].reports| == |Replied(b[i].outcomes)|
    ensures forall k: nat :: Resolves(b[i], Asked(steps[..i]), k)
  {
    var s := b[i];
    RunsKeepInv(b, steps, i);
    HistoriesAreTheSteps(b, steps, i);
    AnsweredPrefix(s.down, s.received);
    if s.received == |s.down| { assert s.down[..s.received] == s.down; }
    forall n: nat ensures n in Replied(s.outcomes) <==> n < |s.outcomes| && s.outcomes[n] == ReceiptReply(n) {
      RepliedIncreases(s.outcomes, n);
      assert OutcomeInv(s, n);
    }
    RepliedIncreases(s.outcomes, 0);
    forall k | 0 <= k < |s.down| && s.down[k].request.Some?
      ensures s.down[k].text == ReceiptText(s.down[k].request.value)
    {
      assert ItemInv(s, k);
    }
    forall k: nat ensures Resolves(s, Asked(steps[..i]), k) { ReportsResolve(s, k); }
  }
}
