/** What a SEND text does: who passes the checks, which subscribers get a MESSAGE, and what their
    clients see. */
module BrokerSends {
  import opened NulFraming
  import opened Text
  import opened Frames
  import opened ParsedFrames
  import opened ServerFrames
  import opened Broker
  import opened BrokerRuns
  import opened BrokerTheorems
  import A = BrokerAnswers

  /* ---- A SEND that stops ---- */

  /** The first n subscribers are reachable. */
  predicate ReachableUpTo(t: Tables, ch: string, list: seq<Conn>, n: nat)
    requires n <= |list|
  {
    forall k :: 0 <= k < n ==> Reachable(t, ch, list[k])
  }

  /** One more number is used up if the unreachable subscriber has an id for the channel. */
  function Lost(t: Tables, ch: string, c: Conn): nat {
    if c in t.idByTopic && ch in t.idByTopic[c] then 1 else 0
  }

  lemma {:induction false} FanOutStops(t: Tables, list: seq<Conn>, frame: Headers, ch: string, n: nat)
    requires "destination" in frame && frame["destination"] == ch
    requires n < |list| && ReachableUpTo(t, ch, list, n) && !Reachable(t, ch, list[n])
    ensures var (t', ok) := FanOut(t, list, frame);
            var sent := FanOut(t, list[..n], frame).0;
            !ok && t' == sent.(messageId := sent.messageId + Lost(t, ch, list[n]))
    decreases |list|
  {
    var (t', f, ok) := SendOne(t, list[0], frame);
    if n == 0 {
      assert list[..0] == [];
    } else {
      assert Reachable(t, ch, list[0]) && ok && f["destination"] == ch;
      assert list[..n][0] == list[0] && list[..n][1..] == list[1..][..n - 1];
      forall k | 0 <= k < n - 1 ensures Reachable(t', ch, list[1..][k]) { assert Reachable(t, ch, list[k + 1]); }
      FanOutStops(t', list[1..], f, ch, n - 1);
    }
  }

  /** The number of subscribers in front of the first that cannot be reached. */
  function Reached(t: Tables, ch: string, list: seq<Conn>): (n: nat)
    ensures n <= |list| && ReachableUpTo(t, ch, list, n)
    ensures n < |list| ==> !Reachable(t, ch, list[n])
  {
    if list == [] || !Reachable(t, ch, list[0]) then 0 else 1 + Reached(t, ch, list[1..])
  }

  /* ---- SEND texts ---- */

  /** From t to t' the first n subscribers of the list were each sent one MESSAGE, in order, and nothing
      else changed but the number counter, which advanced by one, n and lost. */
  ghost predicate Sent(t: Tables, t': Tables, c: Conn, f: Headers, list: seq<Conn>, n: nat, lost: nat)
    requires BODY in f && "destination" in f && c in t.idByTopic && f["destination"] in t.idByTopic[c] && n <= |list|
  {
    && t' == t.(messageId := t.messageId + 1 + n + lost, delivered := t'.delivered)
    && |t'.delivered| == |t.delivered| + n && t.delivered <= t'.delivered
    && forall k :: 0 <= k < n ==>
         var d := t'.delivered[|t.delivered| + k];
         && d.to == list[k] && d.number == t.messageId + 1 + k
         && IsMessage(d.frame, f, SignedDecimal(t.idByTopic[c][f["destination"]]), d.number)
  }

  lemma CopiesAreSent(t: Tables, t': Tables, c: Conn, f: Headers, list: seq<Conn>)
    requires BODY in f && "destination" in f && c in t.idByTopic && f["destination"] in t.idByTopic[c]
    requires t' == t.(messageId := t'.messageId, delivered := t'.delivered)
    requires forall k: nat :: Delivers(t, t', c, f, list, k)
    ensures Sent(t, t', c, f, list, |list|, 0)
  {
    assert Delivers(t, t', c, f, list, |list|);
    forall k | 0 <= k < |list|
      ensures var d := t'.delivered[|t.delivered| + k];
              && d.to == list[k] && d.number == t.messageId + 1 + k
              && IsMessage(d.frame, f, SignedDecimal(t.idByTopic[c][f["destination"]]), d.number)
    {
      assert Delivers(t, t', c, f, list, k);
    }
  }

  lemma SendCopies(t: Tables, c: Conn, f: Headers, list: seq<Conn>)
    requires BODY in f && "destination" in f && c in t.idByTopic && f["destination"] in t.idByTopic[c]
    requires ReachableUpTo(t, f["destination"], list, |list|)
    ensures var started := t.(messageId := t.messageId + 1);
            Sent(t, FanOut(started, list, MessageFrame(t, c, f)).0, c, f, list, |list|, 0)
  {
    var started, ch := t.(messageId := t.messageId + 1), f["destination"];
    forall k | 0 <= k < |list| ensures Reachable(started, ch, list[k]) { assert Reachable(t, ch, list[k]); }
    FanOutSucceeds(started, list, MessageFrame(t, c, f), ch);
    FanOutTouches(started, list, MessageFrame(t, c, f));
    var t' := FanOut(started, list, MessageFrame(t, c, f)).0;
    forall k: nat ensures Delivers(t, t', c, f, list, k) { FanOutCopies(t, c, f, list, k); }
    CopiesAreSent(t, t', c, f, list);
  }

  lemma CutIsSent(t: Tables, sent: Tables, c: Conn, f: Headers, list: seq<Conn>, n: nat, lost: nat)
    requires BODY in f && "destination" in f && c in t.idByTopic && f["destination"] in t.idByTopic[c]
    requires n <= |list| && Sent(t, sent, c, f, list[..n], n, 0)
    ensures Sent(t, sent.(messageId := sent.messageId + lost), c, f, list, n, lost)
  {
  }

  lemma SameReach(t: Tables, started: Tables, ch: string, list: seq<Conn>, n: nat)
    requires started.idByTopic == t.idByTopic && started.handlers == t.handlers
    requires n < |list| && ReachableUpTo(t, ch, list, n) && !Reachable(t, ch, list[n])
    ensures ReachableUpTo(started, ch, list, n) && !Reachable(started, ch, list[n])
    ensures Lost(started, ch, list[n]) == Lost(t, ch, list[n]) && ReachableUpTo(t, ch, list[..n], n)
  {
    forall k | 0 <= k < n ensures Reachable(started, ch, list[k]) && Reachable(t, ch, list[..n][k]) {
      assert Reachable(t, ch, list[k]);
    }
  }

  lemma SendStops(t: Tables, c: Conn, f: Headers, list: seq<Conn>, n: nat)
    requires BODY in f && "destination" in f && c in t.idByTopic && f["destination"] in t.idByTopic[c]
    requires var ch := f["destination"]; n < |list| && ReachableUpTo(t, ch, list, n) && !Reachable(t, ch, list[n])
    ensures !FanOut(t.(messageId := t.messageId + 1), list, MessageFrame(t, c, f)).1
    ensures Sent(t, FanOut(t.(messageId := t.messageId + 1), list, MessageFrame(t, c, f)).0, c, f, list, n,
                 Lost(t, f["destination"], list[n]))
  {
    var started, ch, frame := t.(messageId := t.messageId + 1), f["destination"], MessageFrame(t, c, f);
    SameReach(t, started, ch, list, n);
    FrameGoesTo(t, c, f);
    FanOutStops(started, list, frame, ch, n);
    SendCopies(t, c, f, list[..n]);
    CutIsSent(t, FanOut(started, list[..n], frame).0, c, f, list, n, Lost(t, ch, list[n]));
  }

  lemma FrameGoesTo(t: Tables, c: Conn, f: Headers)
    requires BODY in f && "destination" in f && c in t.idByTopic && f["destination"] in t.idByTopic[c]
    ensures Get(MessageFrame(t, c, f), "destination") == Some(f["destination"])
  {
  }

  /** The sender of the text is listed under its destination and has an id for it. */
  predicate MaySend(t: Tables, c: Conn, text: string) {
    match HeaderOf(text, "destination")
    case None => false
    case Some(ch) => ch in t.subscribers && c in t.subscribers[ch] && c in t.idByTopic && ch in t.idByTopic[c]
  }

  lemma SendHandled(t: Tables, c: Conn, text: string, same: bool)
    requires IsFrame(text, "SEND") && MaySend(t, c, text)
    ensures var f := JavaParse(text).value;
            && BODY in f && "destination" in f && c in t.idByTopic && f["destination"] in t.idByTopic[c]
            && f["destination"] in t.subscribers && Handle(t, c, text, same) == ProcessSend(t, c, f)
  {
    ParsedHasBoth(text, JavaParse(text).value);
  }

  lemma OthersMayNotSend(t: Tables, c: Conn, text: string, same: bool)
    requires IsFrame(text, "SEND") && !MaySend(t, c, text)
    requires forall ch :: RecordInv(t, c, ch)
    ensures Handle(t, c, text, same).0 == t && Handle(t, c, text, same).1.Exception?
  {
    ParsedHasBoth(text, JavaParse(text).value);
    if CheckValid(t, c, JavaParse(text).value, same) != Code(0) {
      A.RefusedThrows(t, c, text, same);
    } else {
      assert RecordInv(t, c, JavaParse(text).value["destination"]);
    }
  }

  /** The answer of a SEND whose MESSAGEs all went out: its receipt, if it wants one, does not parse. */
  function SendReply(f: Headers, ok: bool): Outcome {
    if !ok then Exception(NullPointer) else if "receipt" in f then Exception(FrameText) else NoReply
  }

  lemma SendAnswer(t: Tables, c: Conn, text: string)
    requires JavaParse(text).Parsed?
    requires var f := JavaParse(text).value;
             && BODY in f && "destination" in f && c in t.idByTopic && f["destination"] in t.idByTopic[c]
             && f["destination"] in t.subscribers
    ensures var f := JavaParse(text).value;
            var started, list := t.(messageId := t.messageId + 1), t.subscribers[f["destination"]];
            var (t', ok) := FanOut(started, list, MessageFrame(t, c, f));
            ProcessSend(t, c, f) == (t', SendReply(f, ok))
  {
    var f := JavaParse(text).value;
    SendOutcome(t, c, f);
    if "receipt" in f { SendReceiptThrows(text, f); }
  }

  lemma SendOutcome(t: Tables, c: Conn, f: Headers)
    requires BODY in f && "destination" in f && c in t.idByTopic && f["destination"] in t.idByTopic[c]
    requires f["destination"] in t.subscribers
    ensures var started, list := t.(messageId := t.messageId + 1), t.subscribers[f["destination"]];
            var (t', ok) := FanOut(started, list, MessageFrame(t, c, f));
            ProcessSend(t, c, f)
            == (t', if !ok then Exception(NullPointer)
                    else if "receipt" in f then Respond("RECEIPT" + ['\n'] + Entry("receipt-id", f["receipt"]), false)
                    else NoReply)
  {
  }

  /** What the server did with a SEND text of c that may be sent: the subscribers in front of the first
      that cannot be reached got their MESSAGE; if that is all of them there is no null pointer
      exception. */
  ghost predicate HasSent(t: Tables, t': Tables, out: Outcome, c: Conn, text: string)
    requires IsFrame(text, "SEND") && MaySend(t, c, text)
  {
    var f, ch := JavaParse(text).value, HeaderOf(text, "destination").value;
    var list := t.subscribers[ch];
    exists n :: 0 <= n <= |list| && BODY in f && ReachableUpTo(t, ch, list, n)
      && (n < |list| ==> !Reachable(t, ch, list[n]))
      && Sent(t, t', c, f, list, n, if n < |list| then Lost(t, ch, list[n]) else 0)
      && out == SendReply(f, n == |list|)
  }

  lemma SendEffect(t: Tables, c: Conn, text: string, same: bool)
    requires IsFrame(text, "SEND") && MaySend(t, c, text)
    ensures HasSent(t, Handle(t, c, text, same).0, Handle(t, c, text, same).1, c, text)
  {
    var f, ch := JavaParse(text).value, HeaderOf(text, "destination").value;
    var list := t.subscribers[ch];
    SendHandled(t, c, text, same);
    SendAnswer(t, c, text);
    var n := Reached(t, ch, list);
    if n < |list| {
      SendStops(t, c, f, list, n);
    } else {
      SendCopies(t, c, f, list);
      FanOutSucceeds(t.(messageId := t.messageId + 1), list, MessageFrame(t, c, f), ch);
      forall k | 0 <= k < |list| ensures Reachable(t.(messageId := t.messageId + 1), ch, list[k]) {
        assert Reachable(t, ch, list[k]);
      }
    }
  }

  /** In every run: a SEND text of a connection listed under its destination with an id for it is sent
      to the subscribers; any other throws and changes nothing. */
  lemma SendExactly(b: seq<Tables>, events: seq<Event>, i: nat, c: Conn, text: string, same: bool)
    requires IsRun(b, events) && i < |b| && IsFrame(text, "SEND")
    ensures var (t', out) := Handle(b[i], c, text, same);
            if MaySend(b[i], c, text) then HasSent(b[i], t', out, c, text) else t' == b[i] && out.Exception?
  {
    RunsKeepInv(b, events, i);
    if MaySend(b[i], c, text) {
      SendEffect(b[i], c, text, same);
    } else {
      forall ch ensures RecordInv(b[i], c, ch) { assert RecordInv(b[i], c, ch); }
      OthersMayNotSend(b[i], c, text, same);
    }
  }

  /** Every entry of the destination's list was sent its MESSAGE, in list order. */
  ghost predicate ReachedAll(t: Tables, t': Tables, c: Conn, text: string)
    requires IsFrame(text, "SEND")
  {
    var f := JavaParse(text).value;
    && BODY in f && "destination" in f && c in t.idByTopic && f["destination"] in t.idByTopic[c]
    && f["destination"] in t.subscribers
    && Sent(t, t', c, f, t.subscribers[f["destination"]], |t.subscribers[f["destination"]]|, 0)
  }

  /** In every run a SEND text reaches every subscriber if and only if its sender is listed under the
      destination, has an id for it, and every subscriber has an id for it and a handler. */
  lemma SendReachesAllExactly(b: seq<Tables>, events: seq<Event>, i: nat, c: Conn, text: string, same: bool)
    requires IsRun(b, events) && i < |b| && IsFrame(text, "SEND")
    ensures ReachedAll(b[i], Handle(b[i], c, text, same).0, c, text)
            <==> MaySend(b[i], c, text) && AllReachable(b[i], c, HeaderOf(text, "destination").value)
  {
    var t := b[i];
    var (t', out) := Handle(t, c, text, same);
    SendExactly(b, events, i, c, text, same);
    if MaySend(t, c, text) {
      var f, ch := JavaParse(text).value, HeaderOf(text, "destination").value;
      var list := t.subscribers[ch];
      var n :| 0 <= n <= |list| && BODY in f && ReachableUpTo(t, ch, list, n)
               && (n < |list| ==> !Reachable(t, ch, list[n]))
               && Sent(t, t', c, f, list, n, if n < |list| then Lost(t, ch, list[n]) else 0);
      if n == |list| {
        forall k | 0 <= k < |list| ensures Reachable(t, ch, list[k]) { }
      }
    }
  }
}
