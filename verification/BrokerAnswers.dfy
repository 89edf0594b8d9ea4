/** What the server does with a frame text, command by command and exactly: what it answers, and what
    becomes of the tables. */
module BrokerAnswers {
  import opened NulFraming
  import opened Text
  import opened Frames
  import opened FrameRelation
  import opened ParsedFrames
  import opened ServerFrames
  import opened Broker
  import opened BrokerRuns
  import T = BrokerTheorems

  /* ---- Receipts ---- */

  /** The answer to an accepted frame, by its receipt header: a header with an empty value, as
      "receipt::x" gives it, makes a receipt line that does not parse. */
  function ReceiptFor(text: string): Outcome {
    match HeaderOf(text, "receipt")
    case None => NoReply
    case Some(v) =>
      if v == "" then Exception(FrameText)
      else Reply(map[COMMAND := "RECEIPT", "receipt-id" := v, BODY := ""], false)
  }

  /** A header line that ends at its colon throws. */
  lemma BareKeyThrows(k: string, rest: string, m: Headers)
    requires k != "" && ':' !in k && '\n' !in k
    ensures JavaHeaders(Entry(k, "") + rest, m) == Threw
  {
    var line := k + [':'] + "";
    FieldsOfPair(k, "");
    JavaHeaderFields(line);
    assert Entry(k, "") + rest == line + ['\n'] + rest;
    CutRendered(line, rest);
  }

  lemma EmptyReceipt()
    ensures Respond("RECEIPT" + ['\n'] + Entry("receipt-id", "") + ['\n'], false) == Exception(FrameText)
  {
    PlainNames();
    BareKeyThrows("receipt-id", ['\n'], map[COMMAND := "RECEIPT"]);
    CommandFirst("RECEIPT", Entry("receipt-id", ""), ['\n']);
  }

  lemma CommandFirst(command: string, entry: string, rest: string)
    requires '\n' !in command && JavaHeaders(entry + rest, map[COMMAND := command]) == Threw
    ensures JavaParse(command + ['\n'] + entry + rest) == Threw
  {
    Regroup(command + ['\n'], entry, rest);
    CutRendered(command, entry + rest);
  }

  lemma PlainNames()
    ensures ':' !in "receipt-id" && '\n' !in "receipt-id" && '\n' !in "RECEIPT"
  {
  }

  lemma FullReceipt(v: string)
    requires v != "" && ':' !in v && '\n' !in v
    ensures Respond("RECEIPT" + ['\n'] + Entry("receipt-id", v) + ['\n'], false)
            == Reply(map[COMMAND := "RECEIPT", "receipt-id" := v, BODY := ""], false)
  {
    var h := ("receipt-id", v);
    PlainNames();
    JavaReadsFrame("RECEIPT", [h], "");
    LinesOfOne(h.0, h.1);
    assert Render("RECEIPT", [h], "") == "RECEIPT" + ['\n'] + Entry("receipt-id", v) + ['\n'];
    assert [h] == [] + [h];
    PutLast(map[COMMAND := "RECEIPT"], [], h);
  }

  lemma ReceiptedExactly(text: string)
    requires JavaParse(text).Parsed?
    ensures Receipted(JavaParse(text).value) == ReceiptFor(text)
  {
    var f := JavaParse(text).value;
    if "receipt" in f {
      ParsedPlain(text, f, "receipt");
      if f["receipt"] == "" { EmptyReceipt(); } else { FullReceipt(f["receipt"]); }
    }
  }

  /* ---- Refused and unknown texts ---- */

  lemma RefusedThrows(t: Tables, c: Conn, text: string, same: bool)
    requires JavaParse(text).Parsed?
    requires COMMAND in JavaParse(text).value && BODY in JavaParse(text).value
    requires CheckValid(t, c, JavaParse(text).value, same) != Code(0)
    ensures Handle(t, c, text, same).0 == t && Handle(t, c, text, same).1.Exception?
  {
    var f := JavaParse(text).value;
    var check := CheckValid(t, c, f, same);
    if check.Code? { T.RefusalThrows(check.code, text, f); }
  }

  predicate IsKnown(text: string) {
    || IsFrame(text, "CONNECT") || IsFrame(text, "SEND") || IsFrame(text, "SUBSCRIBE")
    || IsFrame(text, "UNSUBSCRIBE") || IsFrame(text, "DISCONNECT")
  }

  /** A text that is no frame throws; a frame with another command is ignored. */
  lemma OtherTextsExactly(t: Tables, c: Conn, text: string, same: bool)
    requires !IsKnown(text)
    ensures Handle(t, c, text, same) == (t, if JavaParse(text) == Threw then Exception(FrameText) else NoReply)
  {
    if JavaParse(text).Parsed? { ParsedHasBoth(text, JavaParse(text).value); }
  }

  /* ---- SUBSCRIBE ---- */

  /** The tables after c has subscribed to a channel under an id: at the end of the channel's list and
      of c's record; the id names the channel; and the first subscription fixes the id to send under. */
  predicate HasSubscribed(t: Tables, t': Tables, c: Conn, id: int, channel: string) {
    && t'.subscribers
       == t.subscribers[channel := (if channel in t.subscribers then t.subscribers[channel] else []) + [c]]
    && t'.channelsOf == t.channelsOf[c := (if c in t.channelsOf then t.channelsOf[c] else []) + [channel]]
    && t'.topicById == t.topicById[c := (if c in t.topicById then t.topicById[c] else map[])[id := channel]]
    && t'.idByTopic == (if c in t.topicById then t.idByTopic else t.idByTopic[c := map[channel := id]])
    && t' == t.(subscribers := t'.subscribers, channelsOf := t'.channelsOf, topicById := t'.topicById,
                idByTopic := t'.idByTopic)
  }

  lemma SubscribedTables(t: Tables, c: Conn, id: int, channel: string)
    ensures HasSubscribed(t, Subscribed(t, c, id, channel), c, id, channel)
  {
    assert map[][id := channel] == map[id := channel];
  }

  lemma SubscribeOutcome(t: Tables, c: Conn, text: string, same: bool)
    requires SubscriptionOf(text).Some?
    ensures Handle(t, c, text, same).1 == Receipted(JavaParse(text).value)
  {
    ParsedHasBoth(text, JavaParse(text).value);
  }

  /** A SUBSCRIBE with a destination and an int for an id is entered and answered by its receipt
      header; any other throws and changes nothing. */
  lemma SubscribeExactly(t: Tables, c: Conn, text: string, same: bool)
    requires IsFrame(text, "SUBSCRIBE")
    ensures var (t', out) := Handle(t, c, text, same);
            if SubscriptionOf(text).Some? then
              var (channel, id) := SubscriptionOf(text).value;
              HasSubscribed(t, t', c, id, channel) && out == ReceiptFor(text)
            else t' == t && out.Exception?
  {
    if SubscriptionOf(text).Some? {
      SubscribeHandled(t, c, text, same);
      SubscribedTables(t, c, SubscriptionOf(text).value.1, SubscriptionOf(text).value.0);
      SubscribeOutcome(t, c, text, same);
      ReceiptedExactly(text);
    } else {
      BadSubscribe(t, c, text, same);
    }
  }

  lemma BadSubscribe(t: Tables, c: Conn, text: string, same: bool)
    requires IsFrame(text, "SUBSCRIBE") && SubscriptionOf(text).None?
    ensures Handle(t, c, text, same).0 == t && Handle(t, c, text, same).1.Exception?
  {
    ParsedHasBoth(text, JavaParse(text).value);
    if CheckValid(t, c, JavaParse(text).value, same) != Code(0) { RefusedThrows(t, c, text, same); }
  }

  /* ---- UNSUBSCRIBE ---- */

  /** list is before, then the first c, then after; list' is what is left. */
  predicate FirstTaken(list: seq<Conn>, list': seq<Conn>, c: Conn, before: seq<Conn>, after: seq<Conn>) {
    list == before + [c] + after && c !in before && list' == before + after
  }

  /** RemoveFirst takes out the first entry and leaves the others in their order; it completes exactly
      when at most one entry follows. */
  lemma RemoveFirstExactly(list: seq<Conn>, c: Conn)
    ensures c !in list ==> RemoveFirst(list, c) == list && Completes(list, c)
    ensures c in list ==>
              exists before, after :: FirstTaken(list, RemoveFirst(list, c), c, before, after)
                                      && (Completes(list, c) <==> |after| <= 1)
  {
    if c in list {
      var i := FirstIndex(list, c);
      assert FirstTaken(list, RemoveFirst(list, c), c, list[..i], list[i + 1..]);
    }
  }

  /** The subscription an UNSUBSCRIBE of c names: the channel the server knows under its id. */
  function NamedChannel(t: Tables, c: Conn, text: string): Option<string> {
    if HeaderOf(text, "id").None? || ParseInt(HeaderOf(text, "id").value).None? || c !in t.topicById then None
    else
      var id := ParseInt(HeaderOf(text, "id").value).value;
      if id in t.topicById[c] then Some(t.topicById[c][id]) else None
  }

  /** What an accepted UNSUBSCRIBE does: the channel's list loses c's first entry, if there is one, and
      nothing else changes; the answer is by the receipt header, unless two entries or more follow. */
  ghost predicate HasUnsubscribed(t: Tables, t': Tables, out: Outcome, c: Conn, channel: string, text: string) {
    && channel in t.subscribers && channel in t'.subscribers
    && t' == t.(subscribers := t.subscribers[channel := t'.subscribers[channel]])
    && var list, list' := t.subscribers[channel], t'.subscribers[channel];
       if c in list then
         exists before, after :: FirstTaken(list, list', c, before, after)
                                 && out == if |after| <= 1 then ReceiptFor(text) else Exception(FailFast)
       else list' == list && out == ReceiptFor(text)
  }

  lemma UnsubscribeHandled(t: Tables, c: Conn, text: string, same: bool)
    requires IsFrame(text, "UNSUBSCRIBE") && NamedChannel(t, c, text).Some?
    ensures ParsedId(text).Some? && c in t.topicById && ParsedId(text).value in t.topicById[c]
    ensures Handle(t, c, text, same) == ProcessUnsubscribe(t, c, ParsedId(text).value, JavaParse(text).value)
  {
    ParsedHasBoth(text, JavaParse(text).value);
  }

  function ParsedId(text: string): Option<int> {
    match HeaderOf(text, "id")
    case None => None
    case Some(s) => ParseInt(s)
  }

  lemma BadUnsubscribe(t: Tables, c: Conn, text: string, same: bool)
    requires IsFrame(text, "UNSUBSCRIBE") && NamedChannel(t, c, text).None?
    ensures Handle(t, c, text, same).0 == t && Handle(t, c, text, same).1.Exception?
  {
    ParsedHasBoth(text, JavaParse(text).value);
    RefusedThrows(t, c, text, same);
  }

  lemma UnsubscribeEffect(t: Tables, c: Conn, id: int, text: string)
    requires JavaParse(text).Parsed? && c in t.topicById && id in t.topicById[c]
    requires t.topicById[c][id] in t.subscribers
    ensures var (t', out) := ProcessUnsubscribe(t, c, id, JavaParse(text).value);
            HasUnsubscribed(t, t', out, c, t.topicById[c][id], text)
  {
    ReceiptedExactly(text);
    RemoveFirstExactly(t.subscribers[t.topicById[c][id]], c);
  }

  /** In every run: an UNSUBSCRIBE whose id the server knows for the connection takes out its first
      entry under that channel; any other throws and changes nothing. */
  lemma UnsubscribeExactly(b: seq<Tables>, events: seq<Event>, i: nat, c: Conn, text: string, same: bool)
    requires IsRun(b, events) && i < |b| && IsFrame(text, "UNSUBSCRIBE")
    ensures var (t', out) := Handle(b[i], c, text, same);
            match NamedChannel(b[i], c, text)
            case Some(channel) => HasUnsubscribed(b[i], t', out, c, channel, text)
            case None => t' == b[i] && out.Exception?
  {
    var t := b[i];
    RunsKeepInv(b, events, i);
    if NamedChannel(t, c, text).Some? {
      UnsubscribeHandled(t, c, text, same);
      var id := ParsedId(text).value;
      assert TopicInv(t, c, id) && RecordInv(t, c, t.topicById[c][id]);
      UnsubscribeEffect(t, c, id, text);
    } else {
      BadUnsubscribe(t, c, text, same);
    }
  }

  /* ---- DISCONNECT ---- */

  /** At most one entry follows the first c in the list. */
  ghost predicate FewFollow(list: seq<Conn>, c: Conn) {
    forall before, after :: list == before + [c] + after && c !in before ==> |after| <= 1
  }

  /** No removal for c fails fast. Ids above 127 are never found. */
  ghost predicate NothingFailsFast(t: Tables, c: Conn) {
    c <= 127 && c in t.channelsOf ==>
      forall ch :: ch in t.channelsOf[c] && ch in t.subscribers ==> FewFollow(t.subscribers[ch], c)
  }

  lemma FirstAt(list: seq<Conn>, c: Conn, before: seq<Conn>, after: seq<Conn>)
    requires list == before + [c] + after && c !in before
    ensures FirstIndex(list, c) == |before| && |list| == |before| + 1 + |after|
  {
    var i := FirstIndex(list, c);
    assert list[|before|] == c;
    assert forall j :: 0 <= j < |before| ==> list[j] == before[j];
    assert forall j :: 0 <= j < i ==> list[j] == list[..i][j];
  }

  lemma CompletesExactly(list: seq<Conn>, c: Conn)
    ensures Completes(list, c) <==> FewFollow(list, c)
  {
    if c in list {
      var i := FirstIndex(list, c);
      Around(list, i);
      assert FewFollow(list, c) ==> |list[i + 1..]| <= 1;
      forall before, after | list == before + [c] + after && c !in before ensures |after| == |list| - i - 1 {
        FirstAt(list, c, before, after);
      }
    } else {
      forall before, after ensures list != before + [c] + after { InMiddle(before, c, after); }
    }
  }

  lemma InMiddle(before: seq<Conn>, c: Conn, after: seq<Conn>)
    ensures c in before + [c] + after
  {
    assert (before + [c] + after)[|before|] == c;
  }

  lemma Around(list: seq<Conn>, i: nat)
    requires i < |list|
    ensures list == list[..i] + [list[i]] + list[i + 1..]
  {
  }

  lemma FailsFastExactly(t: Tables, c: Conn)
    requires Inv(t) && c in t.channelsOf
    ensures RemovePasses(t.subscribers, t.channelsOf[c], c).1 == None <==> NothingFailsFast(t, c)
    ensures RemovePasses(t.subscribers, t.channelsOf[c], c).1 in {None, Some(FailFast)}
  {
    var chs := t.channelsOf[c];
    forall k | 0 <= k < |chs| ensures chs[k] in t.subscribers { assert RecordInv(t, c, chs[k]); }
    PassesCause(t.subscribers, chs, c);
    if SmallId(c) {
      PassesCompleteExactly(t.subscribers, chs, c);
      forall ch | ch in chs
        ensures ch in t.subscribers
        ensures Completes(t.subscribers[ch], c) <==> FewFollow(t.subscribers[ch], c)
      {
        CompletesExactly(t.subscribers[ch], c);
      }
      assert forall k :: 0 <= k < |chs| ==> chs[k] in chs;
    }
  }

  lemma DisconnectOutcome(t: Tables, c: Conn)
    requires Inv(t)
    ensures ProcessDisconnect(t, c).1
            == if c !in t.handlers || c !in t.channelsOf then Exception(NullPointer)
               else if NothingFailsFast(t, c) then NoReply else Exception(FailFast)
    ensures c !in t.handlers ==> ProcessDisconnect(t, c).0 == t
  {
    if c in t.handlers && c in t.channelsOf { FailsFastExactly(t, c); }
  }

  /** In every run: a DISCONNECT with a receipt header, from a connection that has a handler and has
      subscribed, answers nothing when no removal fails fast; every other throws, and without a
      receipt header or a handler changes nothing. */
  lemma DisconnectExactly(b: seq<Tables>, events: seq<Event>, i: nat, c: Conn, text: string, same: bool)
    requires IsRun(b, events) && i < |b| && IsFrame(text, "DISCONNECT")
    ensures var (t', out) := Handle(b[i], c, text, same);
            if HeaderOf(text, "receipt").None? then t' == b[i] && out.Exception?
            else
              && (c !in b[i].handlers ==> t' == b[i])
              && out == if c !in b[i].handlers || c !in b[i].channelsOf then Exception(NullPointer)
                        else if NothingFailsFast(b[i], c) then NoReply else Exception(FailFast)
  {
    RunsKeepInv(b, events, i);
    if IsDisconnect(text) {
      DisconnectHandled(b[i], c, text, same);
      DisconnectOutcome(b[i], c);
    } else {
      ParsedHasBoth(text, JavaParse(text).value);
      RefusedThrows(b[i], c, text, same);
    }
  }

  /* ---- New connections ---- */

  function Acceptances(events: seq<Event>): nat {
    if events == [] then 0
    else Acceptances(events[..|events| - 1]) + (if events[|events| - 1].Accepted? then 1 else 0)
  }

  lemma StepNumbers(t: Tables, e: Event)
    requires Enabled(t, e)
    ensures Next(t, e).nextConn == t.nextConn + (if e.Accepted? then 1 else 0)
  {
    if e.Received? && JavaParse(e.text).Parsed? {
      ParsedHasBoth(e.text, JavaParse(e.text).value);
      ProcessNumbers(t, e.conn, JavaParse(e.text).value, e.samePasscode);
    }
  }

  lemma ProcessNumbers(t: Tables, c: Conn, f: Headers, same: bool)
    requires COMMAND in f && BODY in f
    ensures Process(t, c, f, same).0.nextConn == t.nextConn
  {
    if CheckValid(t, c, f, same) != Code(0) { RefusedKeeps(t, c, f, same); }
    else { AcceptedNumbers(t, c, f, same); }
  }

  lemma AcceptedNumbers(t: Tables, c: Conn, f: Headers, same: bool)
    requires COMMAND in f && BODY in f && CheckValid(t, c, f, same) == Code(0)
    ensures Process(t, c, f, same).0.nextConn == t.nextConn
  {
    if f[COMMAND] == "CONNECT" { ConnectTouches(t, c, f); }
    else if f[COMMAND] == "SEND" { T.SendTouches(t, c, f); }
    else if f[COMMAND] == "SUBSCRIBE" { SubscribeNumbers(t, c, f); }
  }

  lemma SubscribeNumbers(t: Tables, c: Conn, f: Headers)
    requires "destination" in f && "id" in f
    ensures ProcessSubscribe(t, c, f).0.nextConn == t.nextConn
  {
  }

  lemma {:induction false} NumbersSoFar(b: seq<Tables>, events: seq<Event>, i: nat)
    requires IsRun(b, events) && i < |b|
    ensures b[i].nextConn == Acceptances(events[..i])
  {
    if i > 0 {
      NumbersSoFar(b, events, i - 1);
      NumberOfStep(b, events, i - 1);
      assert events[..i][..i - 1] == events[..i - 1];
    }
  }

  lemma NumberOfStep(b: seq<Tables>, events: seq<Event>, k: nat)
    requires IsRun(b, events) && k < |events|
    ensures b[k + 1].nextConn == b[k].nextConn + (if events[k].Accepted? then 1 else 0)
  {
    StepNumbers(b[k], events[k]);
  }

  /** In every run the n-th connection accepted gets the number n, counted from 0, and a handler; until
      then nobody has had a handler or been listed under that number. */
  lemma NewConnectionIsNew(b: seq<Tables>, events: seq<Event>, i: nat)
    requires IsRun(b, events) && i < |events| && events[i].Accepted?
    ensures var c := Acceptances(events[..i]);
            && c !in b[i].handlers && (forall ch :: Listed(b[i], ch, c) == 0)
            && b[i + 1] == b[i].(handlers := b[i].handlers + {c}, nextConn := c + 1)
  {
    RunsKeepInv(b, events, i);
    NumbersSoFar(b, events, i);
    var c := b[i].nextConn;
    assert ConnInv(b[i], c);
    forall ch ensures Listed(b[i], ch, c) == 0 { assert RecordInv(b[i], c, ch); }
  }
}
