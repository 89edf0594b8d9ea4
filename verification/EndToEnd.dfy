/** From one client's frame to another client: what the client of a recipient reads of a SEND, and a
    client of the answer to its CONNECT. */
module EndToEnd {
  import opened NulFraming
  import opened Text
  import opened Frames
  import opened FrameRelation
  import opened ParsedFrames
  import opened ServerFrames
  import opened Broker
  import T = BrokerTheorems
  import S = BrokerSends
  import L = BrokerLogins

  lemma SignedClean(n: int)
    ensures Clean(SignedDecimal(n))
  {
    var s := SignedDecimal(n);
    if n < 0 { assert s[1..] == Decimal(-n) && s[0] == '-'; }
    assert forall i :: 0 <= i < |s| ==> s[i] == '-' || '0' <= s[i] <= '9';
  }

  lemma NumberClean(n: nat)
    ensures Clean(Decimal(n))
  {
  }

  /** m is the MESSAGE of a SEND with this destination and body, under these numbers. */
  predicate Carries(m: Headers, destination: string, body: string, subscription: int, number: nat) {
    && Get(m, COMMAND) == Some("MESSAGE") && Get(m, "message-id") == Some(Decimal(number))
    && Get(m, "destination") == Some(destination) && Get(m, BODY) == Some(body)
    && Get(m, "subscription") == Some(SignedDecimal(subscription)) && "receipt-id" !in m
  }

  /** What the client holds of it: all of it, an empty body having no entry. */
  predicate Holds(c: Headers, destination: string, body: string, subscription: int, number: nat) {
    && Get(c, COMMAND) == Some("MESSAGE") && Get(c, "message-id") == Some(Decimal(number))
    && Get(c, "destination") == Some(destination) && Get(c, "subscription") == Some(SignedDecimal(subscription))
    && Get(c, BODY) == if body == "" then None else Some(body)
  }

  lemma FullMessage(m: Headers, destination: string, body: string, subscription: int, number: nat)
    requires Carries(m, destination, body, subscription, number)
    requires Clean(destination) && NUL !in body
    ensures ClientMap(m).Built? && Holds(ClientMap(m).value, destination, body, subscription, number)
  {
    SignedClean(subscription);
    NumberClean(number);
    ClientReadsMessage(m);
  }

  /** A header line that ends at its colon stops the client. */
  lemma BareKeyFails(k: string, rest: string, m: Headers)
    requires k != "" && ':' !in k && '\n' !in k
    ensures CppHeaders(Entry(k, "") + rest, m) == Failed(Undefined)
  {
    var line := k + [':'] + "";
    FieldsOfPair(k, "");
    CppHeaderFields(line);
    assert Entry(k, "") + rest == line + ['\n'] + rest;
    CutRendered(line, rest);
  }

  lemma EntryRead(k: string, v: string, rest: string, m: Headers)
    requires WellFormed((k, v))
    ensures CppHeaders(Entry(k, v) + rest, m) == CppHeaders(rest, Insert(m, k, v))
  {
    SplitsOfPair((k, v));
    assert Entry(k, v) + rest == HeaderLine((k, v)) + ['\n'] + rest;
    CppReadsLine(HeaderLine((k, v)), rest, m);
  }

  lemma TextOfMessage(m: Headers, body: string, subscription: int, number: nat)
    requires Carries(m, "", body, subscription, number)
    ensures ToString(m).Parsed? && ToString(m).value != ""
    ensures DropLast(ToString(m).value)
            == "MESSAGE" + ['\n'] + (Entry("subscription", SignedDecimal(subscription))
                 + (Entry("message-id", Decimal(number)) + (Entry("destination", "") + (['\n'] + body))))
  {
    RegroupMessage("MESSAGE", Entry("subscription", SignedDecimal(subscription)), Entry("message-id", Decimal(number)),
                   Entry("destination", ""), body);
  }

  lemma RegroupMessage(command: string, a: string, b: string, c: string, body: string)
    ensures var text := command + ['\n'] + "" + a + b + c + ['\n'] + body + ['\n'];
            text != "" && DropLast(text) == command + ['\n'] + (a + (b + (c + (['\n'] + body))))
  {
  }

  lemma EmptyDestination(m: Headers, body: string, subscription: int, number: nat)
    requires Carries(m, "", body, subscription, number)
    ensures ClientMap(m).Failed?
  {
    TextOfMessage(m, body, subscription, number);
    KeysFit();
    SignedClean(subscription);
    NumberClean(number);
    assert '\n' !in "MESSAGE";
    var c := Entry("destination", "") + (['\n'] + body);
    var b := Entry("message-id", Decimal(number)) + c;
    var a := Entry("subscription", SignedDecimal(subscription)) + b;
    CutRendered("MESSAGE", a);
    EntryRead("subscription", SignedDecimal(subscription), b, map[COMMAND := "MESSAGE"]);
    var m1 := Insert(map[COMMAND := "MESSAGE"], "subscription", SignedDecimal(subscription));
    EntryRead("message-id", Decimal(number), c, m1);
    BareKeyFails("destination", ['\n'] + body, Insert(m1, "message-id", Decimal(number)));
  }

  /** MESSAGE number k of a SEND text, and where it goes. */
  predicate Delivered(t: Tables, t': Tables, c: Conn, text: string, k: nat)
    requires IsFrame(text, "SEND") && S.MaySend(t, c, text)
  {
    var ch := HeaderOf(text, "destination").value;
    && HeaderOf(text, BODY).Some? && k < |t.subscribers[ch]| && |t.delivered| + k < |t'.delivered|
    && var d := t'.delivered[|t.delivered| + k];
       && d.to == t.subscribers[ch][k] && d.number == t.messageId + 1 + k
       && Carries(d.frame, ch, HeaderOf(text, BODY).value, t.idByTopic[c][ch], d.number)
  }

  lemma AllDelivered(b: seq<Tables>, events: seq<Event>, i: nat, c: Conn, text: string, same: bool, k: nat)
    requires IsRun(b, events) && i < |b| && IsFrame(text, "SEND") && S.MaySend(b[i], c, text)
    requires T.AllReachable(b[i], c, HeaderOf(text, "destination").value)
    requires k < |b[i].subscribers[HeaderOf(text, "destination").value]|
    ensures Delivered(b[i], Handle(b[i], c, text, same).0, c, text, k)
  {
    S.SendReachesAllExactly(b, events, i, c, text, same);
  }

  lemma TextPlain(text: string)
    requires JavaParse(text).Parsed? && NUL !in text
    ensures var destination := HeaderOf(text, "destination");
            destination.Some? && destination.value != "" ==> Clean(destination.value)
    ensures HeaderOf(text, BODY).Some? ==> NUL !in HeaderOf(text, BODY).value
  {
    var f := JavaParse(text).value;
    assert "destination" != BODY && "destination" != COMMAND;
    if "destination" in f {
      ParsedPlain(text, f, "destination");
      ParsedWithin(text, f, "destination", NUL);
    }
    if BODY in f { ParsedWithin(text, f, BODY, NUL); }
  }

  /** In every run: when a SEND text reaches its subscribers, the client of each of them, in list order,
      reads a MESSAGE with the destination and the body of that text, the sender's id and consecutive
      numbers; exactly when the destination is not empty, for otherwise its parser fails. */
  lemma SendReachesClients(b: seq<Tables>, events: seq<Event>, i: nat, c: Conn, text: string, same: bool, k: nat)
    requires IsRun(b, events) && i < |b| && IsFrame(text, "SEND") && NUL !in text && S.MaySend(b[i], c, text)
    requires T.AllReachable(b[i], c, HeaderOf(text, "destination").value)
    requires k < |b[i].subscribers[HeaderOf(text, "destination").value]|
    ensures var t, t', ch := b[i], Handle(b[i], c, text, same).0, HeaderOf(text, "destination").value;
            && HeaderOf(text, BODY).Some? && |t.delivered| + k < |t'.delivered|
            && var d := t'.delivered[|t.delivered| + k];
               && d.to == t.subscribers[ch][k]
               && (ClientMap(d.frame).Built? <==> ch != "")
               && (ch != "" ==> Holds(ClientMap(d.frame).value, ch, HeaderOf(text, BODY).value, t.idByTopic[c][ch],
                                      t.messageId + 1 + k))
  {
    var t, t', ch := b[i], Handle(b[i], c, text, same).0, HeaderOf(text, "destination").value;
    AllDelivered(b, events, i, c, text, same, k);
    TextPlain(text);
    var d := t'.delivered[|t.delivered| + k];
    var body := HeaderOf(text, BODY).value;
    if ch == "" {
      EmptyDestination(d.frame, body, t.idByTopic[c][ch], d.number);
    } else {
      FullMessage(d.frame, ch, body, t.idByTopic[c][ch], d.number);
    }
  }

  /** The subscription its client shows is the recipient's own id, as the documentation requires,
      exactly when sender and recipient chose the same number for the channel. */
  lemma SubscriptionIsOwnExactly(b: seq<Tables>, events: seq<Event>, i: nat, c: Conn, text: string, same: bool, k: nat)
    requires IsRun(b, events) && i < |b| && IsFrame(text, "SEND") && NUL !in text && S.MaySend(b[i], c, text)
    requires T.AllReachable(b[i], c, HeaderOf(text, "destination").value) && HeaderOf(text, "destination") != Some("")
    requires k < |b[i].subscribers[HeaderOf(text, "destination").value]|
    ensures var t, t', ch := b[i], Handle(b[i], c, text, same).0, HeaderOf(text, "destination").value;
            var to := t.subscribers[ch][k];
            && |t.delivered| + k < |t'.delivered| && ClientMap(t'.delivered[|t.delivered| + k].frame).Built?
            && to in t.idByTopic && ch in t.idByTopic[to]
            && (Get(ClientMap(t'.delivered[|t.delivered| + k].frame).value, "subscription")
                  == Some(SignedDecimal(t.idByTopic[to][ch]))
                <==> t.idByTopic[to][ch] == t.idByTopic[c][ch])
  {
    var t, ch := b[i], HeaderOf(text, "destination").value;
    SendReachesClients(b, events, i, c, text, same, k);
    assert T.Reachable(t, ch, t.subscribers[ch][k]);
    SignedInjective(t.idByTopic[t.subscribers[ch][k]][ch], t.idByTopic[c][ch]);
  }

  /** The client of an answered CONNECT reads CONNECTED with version 1.2. */
  lemma ConnectReachesClient(t: Tables, d: Conn, text: string, same: bool)
    requires IsFrame(text, "CONNECT") && Handle(t, d, text, same).1.Reply?
    ensures var c := ClientMap(Handle(t, d, text, same).1.frame);
            && c.Built? && Get(c.value, COMMAND) == Some("CONNECTED") && Get(c.value, "version") == Some("1.2")
            && Get(c.value, BODY) == None
  {
    L.ConnectAnsweredExactly(t, d, text, same);
    ConnectedRead(Handle(t, d, text, same).1.frame, "1.2");
  }

  lemma ConnectedRead(m: Headers, version: string)
    requires m == map[COMMAND := "CONNECTED", "version" := version, BODY := ""] && version == "1.2"
    ensures ClientMap(m).Built?
    ensures var c := ClientMap(m).value;
            Get(c, COMMAND) == Some("CONNECTED") && Get(c, "version") == Some(version) && Get(c, BODY) == None
  {
    assert ':' !in "1.2" && '\n' !in "1.2" && NUL !in "1.2";
    ClientReadsConnected(m);
  }
}
