/** What a disconnect leaves behind, and exactly which runs keep a handler for every subscriber. */
module BrokerDisconnect {
  import opened NulFraming
  import opened Text
  import opened Frames
  import opened Broker
  import opened BrokerRuns
  import T = BrokerTheorems

  /* ---- One disconnect ---- */

  /** The entries under ch that a disconnect of c deletes, if there are as many. Ids above 127 are
      never found, and a connection that never subscribed throws before any pass. */
  function Removals(t: Tables, c: Conn, ch: string): nat {
    if !SmallId(c) || c !in t.channelsOf then 0
    else multiset(t.channelsOf[c][..PassesRun(t.subscribers, t.channelsOf[c], c)])[ch]
  }

  /** The state before the call in which a disconnect of c takes it out of every list. */
  ghost predicate LeavesLists(t: Tables, c: Conn) {
    forall ch :: Listed(t, ch, c) <= Removals(t, c, ch)
  }

  /** In every list of a channel recorded for c, c is absent or first in the last two positions. */
  ghost predicate EveryListCompletes(t: Tables, c: Conn) {
    forall ch :: c in t.channelsOf && ch in t.channelsOf[c] && ch in t.subscribers ==> Completes(t.subscribers[ch], c)
  }

  lemma DisconnectLeaves(t: Tables, c: Conn, x: Conn, ch: string)
    requires BrokerRuns.Inv(t) && c in t.handlers
    ensures Listed(Disconnect(t, c).0, ch, x)
            == if x == c then Monus(Listed(t, ch, c), Removals(t, c, ch)) else Listed(t, ch, x)
  {
    assert RecordInv(t, c, ch);
    if c in t.channelsOf {
      var chs := t.channelsOf[c];
      forall k | 0 <= k < |chs| ensures chs[k] in t.subscribers { assert RecordInv(t, c, chs[k]); }
      PassesKeys(t.subscribers, chs, c);
      if ch in t.subscribers {
        PassesCount(t.subscribers, chs, c, ch, x);
        if SmallId(c) { PassesLeave(t.subscribers, chs, c, ch); }
      }
    }
  }

  /** Exactly when a disconnect cleans up: it takes c out of every list if and only if, before the
      call, no list names c more often than the channel is recorded up to the first pass that fails
      fast. The record of its channels goes exactly when no pass fails fast, its handler always, and
      nobody else is ever taken out of a list. */
  lemma CleanDisconnectExactly(b: seq<Tables>, events: seq<Event>, i: nat, c: Conn)
    requires IsRun(b, events) && i < |b| && c in b[i].handlers
    ensures (forall ch :: Listed(Disconnect(b[i], c).0, ch, c) == 0) <==> LeavesLists(b[i], c)
    ensures c in b[i].channelsOf ==>
              (c !in Disconnect(b[i], c).0.channelsOf <==> !SmallId(c) || EveryListCompletes(b[i], c))
    ensures c !in Disconnect(b[i], c).0.handlers
    ensures forall x, ch :: x != c ==> Listed(Disconnect(b[i], c).0, ch, x) == Listed(b[i], ch, x)
  {
    var t := b[i];
    var t' := Disconnect(t, c).0;
    BrokerRuns.RunsKeepInv(b, events, i);
    forall x, ch
      ensures x != c ==> Listed(t', ch, x) == Listed(t, ch, x)
      ensures x == c ==> (Listed(t', ch, x) == 0 <==> Listed(t, ch, c) <= Removals(t, c, ch))
    {
      DisconnectLeaves(t, c, x, ch);
    }
    if c in t.channelsOf {
      var chs := t.channelsOf[c];
      forall k | 0 <= k < |chs| ensures chs[k] in t.subscribers { assert RecordInv(t, c, chs[k]); }
      PassesCause(t.subscribers, chs, c);
      if SmallId(c) {
        PassesCompleteExactly(t.subscribers, chs, c);
        assert forall k :: 0 <= k < |chs| ==> chs[k] in chs;
      }
    }
  }

  /* ---- Whole runs ---- */

  ghost predicate AllConnected(t: Tables) {
    forall c, ch :: Listed(t, ch, c) > 0 ==> c in t.handlers
  }

  /** Nobody subscribes without a handler, as after its disconnect, and no disconnect leaves its
      connection in a list. */
  ghost predicate Orderly(t: Tables, e: Event) {
    e.Received? ==>
      && (SubscriptionOf(e.text).Some? ==> e.conn in t.handlers)
      && (IsDisconnect(e.text) && e.conn in t.handlers ==> LeavesLists(t, e.conn))
  }

  lemma AfterDisconnect(t: Tables, c: Conn)
    requires BrokerRuns.Inv(t) && AllConnected(t) && c in t.handlers
    ensures AllConnected(ProcessDisconnect(t, c).0) <==> LeavesLists(t, c)
  {
    var t' := ProcessDisconnect(t, c).0;
    assert t'.handlers == t.handlers - {c};
    forall x, ch
      ensures x != c ==> Listed(t', ch, x) == Listed(t, ch, x)
      ensures Listed(t', ch, c) == 0 <==> Listed(t, ch, c) <= Removals(t, c, ch)
    {
      DisconnectLeaves(t, c, x, ch);
      DisconnectLeaves(t, c, c, ch);
    }
    if AllConnected(t') {
      forall ch ensures Listed(t, ch, c) <= Removals(t, c, ch) { assert Listed(t', ch, c) == 0; }
    }
  }

  lemma AfterSubscribe(t: Tables, c: Conn, id: int, channel: string)
    requires AllConnected(t)
    ensures AllConnected(Subscribed(t, c, id, channel)) <==> c in t.handlers
  {
    var t' := Subscribed(t, c, id, channel);
    SubscribeListed(t, c, id, channel, c, channel);
    assert Listed(t', channel, c) > 0;
    if c in t.handlers {
      forall x, ch | Listed(t', ch, x) > 0 ensures x in t'.handlers { SubscribeListed(t, c, id, channel, x, ch); }
    }
  }

  lemma AfterUnsubscribe(t: Tables, c: Conn, id: int, f: Headers)
    requires AllConnected(t) && c in t.topicById && id in t.topicById[c]
    ensures AllConnected(ProcessUnsubscribe(t, c, id, f).0)
  {
    var t' := ProcessUnsubscribe(t, c, id, f).0;
    var channel := t.topicById[c][id];
    if channel in t.subscribers {
      forall x, ch | Listed(t', ch, x) > 0 ensures x in t'.handlers {
        PassCount(t.subscribers[channel], c, x);
        assert Listed(t, ch, x) > 0;
      }
    }
  }

  /** Tables with the same lists and no fewer handlers. */
  lemma ConnectedStill(t: Tables, t': Tables)
    requires AllConnected(t) && t'.subscribers == t.subscribers && t.handlers <= t'.handlers
    ensures AllConnected(t')
  {
    assert forall x, ch :: Listed(t', ch, x) == Listed(t, ch, x);
  }

  lemma AfterOther(t: Tables, c: Conn, f: Headers, same: bool)
    requires AllConnected(t) && COMMAND in f && BODY in f && CheckValid(t, c, f, same) == Code(0)
    requires f[COMMAND] != "SUBSCRIBE" && f[COMMAND] != "DISCONNECT"
    ensures AllConnected(Process(t, c, f, same).0)
  {
    if f[COMMAND] == "UNSUBSCRIBE" {
      AfterUnsubscribe(t, c, ParseInt(f["id"]).value, f);
    } else if f[COMMAND] == "SEND" {
      T.SendTouches(t, c, f);
      ConnectedStill(t, ProcessSend(t, c, f).0);
    } else if f[COMMAND] == "CONNECT" {
      ConnectTouches(t, c, f);
      ConnectedStill(t, ProcessConnect(t, c, f).0);
    }
  }

  lemma AfterText(t: Tables, c: Conn, text: string, same: bool)
    requires AllConnected(t) && SubscriptionOf(text).None? && !IsDisconnect(text)
    ensures AllConnected(Handle(t, c, text, same).0)
  {
    OtherHandled(t, c, text, same);
    if Handle(t, c, text, same).0 != t { AfterOther(t, c, JavaParse(text).value, same); }
  }

  /** One event keeps a handler for every subscriber exactly when it is orderly. */
  lemma StepStaysConnected(t: Tables, e: Event)
    requires BrokerRuns.Inv(t) && AllConnected(t) && Enabled(t, e)
    ensures AllConnected(Next(t, e)) <==> Orderly(t, e)
  {
    if e.Accepted? {
      ConnectedStill(t, Accept(t));
    } else if SubscriptionOf(e.text).Some? {
      SubscribeHandled(t, e.conn, e.text, e.samePasscode);
      AfterSubscribe(t, e.conn, SubscriptionOf(e.text).value.1, SubscriptionOf(e.text).value.0);
    } else if IsDisconnect(e.text) {
      DisconnectHandled(t, e.conn, e.text, e.samePasscode);
      if e.conn in t.handlers { AfterDisconnect(t, e.conn); }
    } else {
      AfterText(t, e.conn, e.text, e.samePasscode);
    }
  }

  lemma RunStaysConnected(b: seq<Tables>, events: seq<Event>, k: nat)
    requires IsRun(b, events) && k < |events| && AllConnected(b[k])
    ensures AllConnected(b[k + 1]) <==> Orderly(b[k], events[k])
  {
    BrokerRuns.RunsKeepInv(b, events, k);
    StepStaysConnected(b[k], events[k]);
  }

  ghost predicate ConnectedUpTo(b: seq<Tables>, i: nat)
    requires i < |b|
  {
    forall k :: 0 <= k <= i ==> AllConnected(b[k])
  }

  ghost predicate OrderlyUpTo(b: seq<Tables>, events: seq<Event>, i: nat)
    requires i <= |events| <= |b|
  {
    forall k :: 0 <= k < i ==> Orderly(b[k], events[k])
  }

  lemma NobodyListedYet()
    ensures AllConnected(EMPTY)
  {
  }

  /** No dangling subscriber, exactly: everyone listed under a channel has a handler in every state of
      a run up to i if and only if every event before i is orderly. */
  lemma EverySubscriberHasHandler(b: seq<Tables>, events: seq<Event>, i: nat)
    requires IsRun(b, events) && i < |b|
    ensures ConnectedUpTo(b, i) <==> OrderlyUpTo(b, events, i)
  {
    var holds := seq(|b|, k requires 0 <= k < |b| => AllConnected(b[k]));
    var kept := seq(|events|, k requires 0 <= k < |events| => Orderly(b[k], events[k]));
    NobodyListedYet();
    forall k | 0 <= k < i ensures KeptAt(holds, kept, k) {
      if AllConnected(b[k]) { RunStaysConnected(b, events, k); }
    }
    HoldsExactly(holds, kept, 0, i);
    Pointwise(b, events, i, holds, kept);
  }

  lemma Pointwise(b: seq<Tables>, events: seq<Event>, i: nat, holds: seq<bool>, kept: seq<bool>)
    requires |holds| == |b| && |kept| == |events| && i <= |events| < |b|
    requires forall k :: 0 <= k < |b| ==> holds[k] == AllConnected(b[k])
    requires forall k :: 0 <= k < |events| ==> kept[k] == Orderly(b[k], events[k])
    ensures ConnectedUpTo(b, i) <==> (forall k :: 0 <= k <= i ==> holds[k])
    ensures OrderlyUpTo(b, events, i) <==> (forall k :: 0 <= k < i ==> kept[k])
  {
  }
}
