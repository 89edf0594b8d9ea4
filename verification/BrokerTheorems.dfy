/** The broker's promises, for every run: its tables never disagree, what a disconnect leaves
    behind, who receives a SEND, and why no ERROR frame is ever built. */
module BrokerTheorems {
  import opened NulFraming
  import opened Text
  import opened Frames
  import opened FrameRelation
  import opened ParsedFrames
  import opened ServerFrames
  import opened Broker
  import opened BrokerRuns

  /* ---- Subscriptions ---- */

  /** In every run, a connection with an id up to 127 is listed under a channel at most as often as
      that channel is recorded for it. */
  lemma ListedAtMostRecorded(b: seq<Tables>, events: seq<Event>, i: nat, ch: string, c: Conn)
    requires IsRun(b, events) && i < |b| && SmallId(c)
    ensures Listed(b[i], ch, c) <= Recorded(b[i], ch, c)
  {
    RunsKeepInv(b, events, i);
    assert RecordInv(b[i], c, ch);
  }

  /** SEND touches only messageId and delivered. */
  lemma {:induction false} FanOutTouches(t: Tables, list: seq<Conn>, frame: Headers)
    ensures var t' := FanOut(t, list, frame).0;
            t' == t.(messageId := t'.messageId, delivered := t'.delivered)
    decreases |list|
  {
    if list != [] {
      var (t', f, ok) := SendOne(t, list[0], frame);
      if ok { FanOutTouches(t', list[1..], f); }
    }
  }

  lemma SendTouches(t: Tables, c: Conn, f: Headers)
    requires "destination" in f && BODY in f
    ensures var t' := ProcessSend(t, c, f).0;
            t' == t.(messageId := t'.messageId, delivered := t'.delivered)
  {
    var channel := f["destination"];
    if c in t.idByTopic && channel in t.idByTopic[c] && channel in t.subscribers {
      FanOutTouches(t.(messageId := t.messageId + 1), t.subscribers[channel], MessageFrame(t, c, f));
    }
  }

  /* ---- SEND ---- */

  /** A subscriber that a MESSAGE for ch can be sent to. */
  predicate Reachable(t: Tables, ch: string, c: Conn) {
    c in t.idByTopic && ch in t.idByTopic[c] && c in t.handlers
  }

  /** What subscriber number k of a list receives. */
  function Copy(t: Tables, frame: Headers, ch: string, list: seq<Conn>, k: nat): Delivery
    requires k < |list| && Reachable(t, ch, list[k])
  {
    Delivery(list[k], t.messageId + k,
             frame["subscribtion" := SignedDecimal(t.idByTopic[list[k]][ch])]["message-id" := Decimal(t.messageId + k)])
  }

  lemma OverwriteTwice(frame: Headers, a: string, a': string, n: string, n': string)
    ensures frame["subscribtion" := a]["message-id" := n]["subscribtion" := a']["message-id" := n']
            == frame["subscribtion" := a']["message-id" := n']
  {
  }

  /** The loop over the subscribers, from any point, gets through exactly when all are reachable. */
  lemma {:induction false} FanOutSucceeds(t: Tables, list: seq<Conn>, frame: Headers, ch: string)
    requires "destination" in frame && frame["destination"] == ch
    ensures FanOut(t, list, frame).1 <==> forall k :: 0 <= k < |list| ==> Reachable(t, ch, list[k])
    decreases |list|
  {
    if list != [] {
      var (t', f, ok) := SendOne(t, list[0], frame);
      if ok {
        assert f["destination"] == ch;
        FanOutSucceeds(t', list[1..], f, ch);
        assert forall k :: 0 <= k < |list| - 1 ==> list[1..][k] == list[k + 1];
        assert forall k :: 0 <= k < |list| - 1 ==> (Reachable(t', ch, list[1..][k]) <==> Reachable(t, ch, list[k + 1]));
        assert Reachable(t, ch, list[0]);
        if FanOut(t, list, frame).1 {
          forall k | 0 <= k < |list| ensures Reachable(t, ch, list[k]) {
            if k > 0 { assert Reachable(t', ch, list[1..][k - 1]); }
          }
        }
      } else {
        assert !Reachable(t, ch, list[0]);
      }
    }
  }

  /** Then every list entry has received its copy, in order, with consecutive numbers. */
  lemma {:induction false} FanOutDelivers(t: Tables, list: seq<Conn>, frame: Headers, ch: string)
    requires "destination" in frame && frame["destination"] == ch
    requires forall k :: 0 <= k < |list| ==> Reachable(t, ch, list[k])
    ensures var t' := FanOut(t, list, frame).0;
            && t'.messageId == t.messageId + |list|
            && |t'.delivered| == |t.delivered| + |list| && t.delivered <= t'.delivered
            && forall k :: 0 <= k < |list| ==> t'.delivered[|t.delivered| + k] == Copy(t, frame, ch, list, k)
    decreases |list|
  {
    if list != [] {
      assert Reachable(t, ch, list[0]);
      var (t', f, ok) := SendOne(t, list[0], frame);
      assert f["destination"] == ch;
      forall k | 0 <= k < |list[1..]| ensures Reachable(t', ch, list[1..][k]) { assert Reachable(t, ch, list[k + 1]); }
      FanOutDelivers(t', list[1..], f, ch);
      var last := FanOut(t, list, frame).0;
      forall k | 0 <= k < |list|
        ensures last.delivered[|t.delivered| + k] == Copy(t, frame, ch, list, k)
      {
        if k > 0 {
          assert last.delivered[|t'.delivered| + (k - 1)] == Copy(t', f, ch, list[1..], k - 1);
          OverwriteTwice(frame, SignedDecimal(t.idByTopic[list[0]][ch]), SignedDecimal(t.idByTopic[list[k]][ch]),
                         Decimal(t.messageId), Decimal(t.messageId + k));
        } else {
          assert t'.delivered[|t.delivered|] == Copy(t, frame, ch, list, 0);
        }
      }
    }
  }

  /** A copy of the sender's MESSAGE carries its destination, body and subscription. */
  lemma CopyKeeps(t: Tables, started: Tables, c: Conn, f: Headers, list: seq<Conn>, k: nat)
    requires BODY in f && "destination" in f && c in t.idByTopic && f["destination"] in t.idByTopic[c]
    requires k < |list| && Reachable(started, f["destination"], list[k])
    ensures var d := Copy(started, MessageFrame(t, c, f), f["destination"], list, k);
            && d.to == list[k] && d.number == started.messageId + k
            && IsMessage(d.frame, f, SignedDecimal(t.idByTopic[c][f["destination"]]), d.number)
  {
  }

  /** A MESSAGE for the SEND f: its destination and body, a subscription and a number. */
  predicate IsMessage(m: Headers, f: Headers, subscription: string, number: nat)
    requires BODY in f && "destination" in f
  {
    && Get(m, COMMAND) == Some("MESSAGE")
    && Get(m, "message-id") == Some(Decimal(number))
    && Get(m, "destination") == Some(f["destination"]) && Get(m, BODY) == Some(f[BODY])
    && Get(m, "subscription") == Some(subscription) && "receipt-id" !in m
  }

  /** The sender has an id for the channel, and every subscriber has one and a handler. */
  predicate AllReachable(t: Tables, c: Conn, ch: string) {
    && c in t.idByTopic && ch in t.idByTopic[c] && ch in t.subscribers
    && forall k :: 0 <= k < |t.subscribers[ch]| ==> Reachable(t, ch, t.subscribers[ch][k])
  }

  /** A SEND that passes the checks gets through without a null pointer exception exactly when the
      sender has an id recorded for the channel, and each subscriber has one and a handler. */
  lemma SendSucceedsExactly(b: seq<Tables>, events: seq<Event>, i: nat, c: Conn, f: Headers)
    requires IsRun(b, events) && i < |b| && BODY in f && "destination" in f
    ensures ProcessSend(b[i], c, f).1 != Exception(NullPointer) <==> AllReachable(b[i], c, f["destination"])
  {
    var t, ch := b[i], f["destination"];
    RunsKeepInv(b, events, i);
    assert RecordInv(t, c, ch);
    if c in t.idByTopic && ch in t.idByTopic[c] {
      var started := t.(messageId := t.messageId + 1);
      var list := t.subscribers[ch];
      SendIsFanOut(t, c, f);
      FanOutSucceeds(started, list, MessageFrame(t, c, f), ch);
      assert forall k :: 0 <= k < |list| ==> (Reachable(started, ch, list[k]) <==> Reachable(t, ch, list[k]));
    }
  }

  lemma SendIsFanOut(t: Tables, c: Conn, f: Headers)
    requires BODY in f && "destination" in f && c in t.idByTopic && f["destination"] in t.idByTopic[c]
    requires f["destination"] in t.subscribers
    ensures var list := t.subscribers[f["destination"]];
            var (t', ok) := FanOut(t.(messageId := t.messageId + 1), list, MessageFrame(t, c, f));
            ProcessSend(t, c, f).0 == t' && (ok <==> ProcessSend(t, c, f).1 != Exception(NullPointer))
  {
  }

  lemma FanOutCopies(t: Tables, c: Conn, f: Headers, list: seq<Conn>, k: nat)
    requires BODY in f && "destination" in f && c in t.idByTopic && f["destination"] in t.idByTopic[c]
    requires FanOut(t.(messageId := t.messageId + 1), list, MessageFrame(t, c, f)).1
    ensures Delivers(t, FanOut(t.(messageId := t.messageId + 1), list, MessageFrame(t, c, f)).0, c, f, list, k)
  {
    var started := t.(messageId := t.messageId + 1);
    FanOutSucceeds(started, list, MessageFrame(t, c, f), f["destination"]);
    FanOutDelivers(started, list, MessageFrame(t, c, f), f["destination"]);
    if k < |list| {
      assert Reachable(started, f["destination"], list[k]);
      CopyKeeps(t, started, c, f, list, k);
    }
  }

  /** From t to t' one MESSAGE per list entry was delivered; what number k of them is. */
  predicate Delivers(t: Tables, t': Tables, c: Conn, f: Headers, list: seq<Conn>, k: nat)
    requires BODY in f && "destination" in f && c in t.idByTopic && f["destination"] in t.idByTopic[c]
  {
    && t'.messageId == t.messageId + 1 + |list|
    && |t'.delivered| == |t.delivered| + |list| && t.delivered <= t'.delivered
    && (k < |list| ==>
         var d := t'.delivered[|t.delivered| + k];
         && d.to == list[k] && d.number == t.messageId + 1 + k
         && IsMessage(d.frame, f, SignedDecimal(t.idByTopic[c][f["destination"]]), d.number))
  }

  /** Then there is one MESSAGE per list entry, in list order, with the sender's destination, body
      and subscription, numbered from messageId + 1; messageId advances by one plus the list length. */
  lemma SendReachesSubscribers(t: Tables, c: Conn, f: Headers, k: nat)
    requires BODY in f && "destination" in f && c in t.idByTopic && f["destination"] in t.idByTopic[c]
    requires f["destination"] in t.subscribers && ProcessSend(t, c, f).1 != Exception(NullPointer)
    ensures Delivers(t, ProcessSend(t, c, f).0, c, f, t.subscribers[f["destination"]], k)
  {
    SendIsFanOut(t, c, f);
    FanOutCopies(t, c, f, t.subscribers[f["destination"]], k);
  }

  /** In every run: the subscription header that recipient number k of a SEND sees is the sender's
      id. It is the recipient's own, as the documentation requires, exactly when the two chose the
      same number. */
  lemma SubscriptionHeaderIsSenders(b: seq<Tables>, events: seq<Event>, i: nat, c: Conn, f: Headers, k: nat)
    requires IsRun(b, events) && i < |b| && BODY in f && "destination" in f
    requires AllReachable(b[i], c, f["destination"]) && k < |b[i].subscribers[f["destination"]]|
    ensures SubscriptionIsSenders(b[i], ProcessSend(b[i], c, f).0, c, f["destination"], k)
  {
    var t := b[i];
    SendSucceedsExactly(b, events, i, c, f);
    SendReachesSubscribers(t, c, f, k);
    HeaderOfMessage(t, ProcessSend(t, c, f).0, c, f, k);
  }

  lemma HeaderOfMessage(t: Tables, t': Tables, c: Conn, f: Headers, k: nat)
    requires BODY in f && "destination" in f && AllReachable(t, c, f["destination"])
    requires k < |t.subscribers[f["destination"]]| && Delivers(t, t', c, f, t.subscribers[f["destination"]], k)
    ensures SubscriptionIsSenders(t, t', c, f["destination"], k)
  {
    var ch := f["destination"];
    SignedInjective(t.idByTopic[t.subscribers[ch][k]][ch], t.idByTopic[c][ch]);
  }

  /** Delivery k of a SEND from t to t' shows the sender's id, which is the recipient's only if equal. */
  predicate SubscriptionIsSenders(t: Tables, t': Tables, c: Conn, ch: string, k: nat)
    requires AllReachable(t, c, ch) && k < |t.subscribers[ch]|
  {
    && |t.delivered| + k < |t'.delivered|
    && var d, to := t'.delivered[|t.delivered| + k], t.subscribers[ch][k];
       && d.to == to && Get(d.frame, "subscription") == Some(SignedDecimal(t.idByTopic[c][ch]))
       && (Get(d.frame, "subscription") == Some(SignedDecimal(t.idByTopic[to][ch])) <==>
             t.idByTopic[to][ch] == t.idByTopic[c][ch])
  }

  /** Delivered message numbers strictly increase over the whole run, also across SENDs that an
      exception cut short. */
  lemma MessageNumbersIncrease(b: seq<Tables>, events: seq<Event>, i: nat, j: nat, k: nat)
    requires IsRun(b, events) && i < |b| && j < k < |b[i].delivered|
    ensures b[i].delivered[j].number < b[i].delivered[k].number < b[i].messageId
  {
    RunsKeepInv(b, events, i);
    assert NumberInv(b[i], j, k);
  }

  /* ---- ERROR frames ---- */

  lemma SkipLine(line: string, rest: string, m: Headers)
    requires line != "" && '\n' !in line
    ensures JavaHeaders(line + ['\n'] + rest, m)
            == match JavaHeader(line) case Threw => Threw case Parsed(h) => JavaHeaders(rest, m[h.0 := h.1])
  {
    CutRendered(line, rest);
  }

  lemma ColonlessLineThrows(rest: string, m: Headers)
    ensures JavaHeaders("The Massge" + ['\n'] + rest, m) == Threw
  {
    var line := "The Massge";
    assert ':' !in line && '\n' !in line;
    assert IndexOf(line, ':') == |line|;
    assert Fields(line, ':') == [line];
    SkipLine(line, rest, m);
  }

  lemma ShortMessagesOneLine()
    ensures '\n' !in "Client is already logged in" && '\n' !in "Wrong Password"
    ensures '\n' !in "No destination header" && '\n' !in "No id header"
  {
  }

  lemma LongMessagesOneLine()
    ensures '\n' !in "The client is not subscribed to the channel"
    ensures '\n' !in "The client did not send id header"
  {
  }

  lemma LastMessageOneLine()
    ensures '\n' !in "The client is not send a receipt id " + "when asked to disconnect"
  {
    assert '\n' !in "The client is not send a receipt id ";
    assert '\n' !in "when asked to disconnect";
  }

  lemma MessagesOneLine(code: nat)
    ensures '\n' !in ErrorMessage(code)
  {
    ShortMessagesOneLine();
    LongMessagesOneLine();
    LastMessageOneLine();
  }

  /** A message line and the colon-less line after it. */
  lemma MessageThenMassge(message: string, tail: string, m: Headers)
    requires '\n' !in message
    ensures JavaHeaders(Entry("message", message) + ("The Massge" + ['\n'] + tail), m) == Threw
  {
    var line, massge := "message" + [':'] + message, "The Massge" + ['\n'] + tail;
    assert '\n' !in "message";
    assert Entry("message", message) + massge == line + ['\n'] + massge;
    SkipLine(line, massge, m);
    match JavaHeader(line)
    case Threw =>
    case Parsed(h) => ColonlessLineThrows(tail, m[h.0 := h.1]);
  }

  /** A receipt line in front of header lines that throw. */
  lemma ReceiptThenThrows(r: string, rest: string, m: Headers)
    requires '\n' !in r && forall m' :: JavaHeaders(rest, m') == Threw
    ensures JavaHeaders(Entry("receipt-id", r) + rest, m) == Threw
  {
    var line := "receipt-id" + [':'] + r;
    assert '\n' !in "receipt-id";
    assert Entry("receipt-id", r) + rest == line + ['\n'] + rest;
    SkipLine(line, rest, m);
  }

  lemma CommandThenThrows(command: string, rest: string)
    requires '\n' !in command && forall m' :: JavaHeaders(rest, m') == Threw
    ensures JavaParse(command + ['\n'] + rest) == Threw
  {
    CutRendered(command, rest);
  }

  /** Every text process builds for a refused frame has a header line without a colon, so the Frame
      constructor throws before terminate is set. */
  lemma RefusalThrows(code: nat, text: string, f: Headers)
    requires JavaParse(text) == Parsed(f)
    ensures Refuse(code, f) == Exception(FrameText)
  {
    var tail := ErrorTail(code, f);
    var body := Entry("message", ErrorMessage(code)) + ("The Massge" + ['\n'] + tail);
    MessagesOneLine(code);
    forall m ensures JavaHeaders(body, m) == Threw { MessageThenMassge(ErrorMessage(code), tail, m); }
    var receipt := if code != 10 && "receipt" in f then Entry("receipt-id", f["receipt"]) else "";
    if code != 10 && "receipt" in f {
      ParsedPlain(text, f, "receipt");
      forall m ensures JavaHeaders(receipt + body, m) == Threw { ReceiptThenThrows(f["receipt"], body, m); }
    } else {
      assert receipt + body == body;
    }
    assert '\n' !in "ERROR";
    CommandThenThrows("ERROR", receipt + body);
  }

  /** SEND's receipt text has no blank line, so it never parses either. */
  lemma SendReceiptThrows(text: string, f: Headers)
    requires JavaParse(text) == Parsed(f) && "receipt" in f
    ensures Respond("RECEIPT" + ['\n'] + Entry("receipt-id", f["receipt"]), false) == Exception(FrameText)
  {
    ParsedPlain(text, f, "receipt");
    var entry := Entry("receipt-id", f["receipt"]);
    assert forall m: Headers :: JavaHeaders("", m) == Threw;
    assert entry + "" == entry;
    forall m ensures JavaHeaders(entry, m) == Threw { ReceiptThenThrows(f["receipt"], "", m); }
    assert '\n' !in "RECEIPT";
    CommandThenThrows("RECEIPT", entry);
  }

  lemma AcceptedNeverTerminates(t: Tables, c: Conn, f: Headers, same: bool)
    requires COMMAND in f && BODY in f && CheckValid(t, c, f, same) == Code(0)
    ensures var out := Process(t, c, f, same).1; out.Reply? ==> !out.terminate
  {
  }

  /** No event of any run ever sets a protocol's terminate flag. */
  lemma TerminateNeverSet(t: Tables, c: Conn, text: string, same: bool)
    ensures var out := Handle(t, c, text, same).1; out.Reply? ==> !out.terminate
  {
    match JavaParse(text)
    case Threw =>
    case Parsed(f) =>
      ParsedHasBoth(text, f);
      match CheckValid(t, c, f, same)
      case CheckThrew(_) =>
      case Code(code) =>
        if code == 0 { AcceptedNeverTerminates(t, c, f, same); } else { RefusalThrows(code, text, f); }
  }
}
