/** The id a connection sends under: which SUBSCRIBE decides it, and for how long. */
module BrokerTopics {
  import opened NulFraming
  import opened Text
  import opened Frames
  import opened Broker
  import R = BrokerRuns
  import T = BrokerTheorems

  /** The channels c can send to, with its ids, if any are recorded. */
  function SendingIds(t: Tables, c: Conn): Option<map<string, int>> {
    if c in t.idByTopic then Some(t.idByTopic[c]) else None
  }

  /** The channel and the id that a SUBSCRIBE text names. */
  function IdsOf(text: string): map<string, int>
    requires SubscriptionOf(text).Some?
  {
    map[SubscriptionOf(text).value.0 := SubscriptionOf(text).value.1]
  }

  /** Event e is an accepted SUBSCRIBE of c. */
  predicate SubscribesAs(e: Event, c: Conn) {
    e.Received? && e.conn == c && SubscriptionOf(e.text).Some?
  }

  /** Event e disconnects c. */
  predicate DisconnectsAs(t: Tables, e: Event, c: Conn) {
    e.Received? && e.conn == c && IsDisconnect(e.text) && c in t.handlers
  }

  predicate SameTopics(t: Tables, t': Tables) {
    t'.topicById == t.topicById && t'.idByTopic == t.idByTopic
  }

  lemma SendKeeps(t: Tables, d: Conn, f: Headers)
    requires "destination" in f && BODY in f
    ensures SameTopics(t, ProcessSend(t, d, f).0)
  {
    T.SendTouches(t, d, f);
  }

  lemma ConnectKeeps(t: Tables, d: Conn, f: Headers)
    ensures SameTopics(t, ProcessConnect(t, d, f).0)
  {
    R.ConnectTouches(t, d, f);
  }

  lemma OtherCommandsKeep(t: Tables, d: Conn, f: Headers, same: bool)
    requires COMMAND in f && BODY in f && CheckValid(t, d, f, same) == Code(0)
    requires f[COMMAND] != "SUBSCRIBE" && f[COMMAND] != "DISCONNECT"
    ensures SameTopics(t, Process(t, d, f, same).0)
  {
    if f[COMMAND] == "CONNECT" { ConnectKeeps(t, d, f); }
    else if f[COMMAND] == "SEND" { SendKeeps(t, d, f); }
    else if f[COMMAND] == "UNSUBSCRIBE" { UnsubscribeKeeps(t, d, ParseInt(f["id"]).value, f); }
  }

  lemma UnsubscribeKeeps(t: Tables, d: Conn, id: int, f: Headers)
    requires d in t.topicById && id in t.topicById[d]
    ensures SameTopics(t, ProcessUnsubscribe(t, d, id, f).0)
  {
  }

  lemma OtherTextsKeep(t: Tables, d: Conn, text: string, same: bool)
    requires SubscriptionOf(text).None? && !IsDisconnect(text)
    ensures SameTopics(t, Handle(t, d, text, same).0)
  {
    OtherHandled(t, d, text, same);
    if Handle(t, d, text, same).0 != t { OtherCommandsKeep(t, d, JavaParse(text).value, same); }
  }

  lemma DisconnectTopics(t: Tables, d: Conn)
    ensures var t' := ProcessDisconnect(t, d).0;
            t'.idByTopic == t.idByTopic && t'.topicById == if d in t.handlers then t.topicById - {d} else t.topicById
  {
  }

  /** What one event may do to c's ids: only a SUBSCRIBE of c while it has no subscription sets the
      sending ids, and only a disconnect of c forgets its subscriptions. */
  ghost predicate TopicsMove(t: Tables, e: Event, t': Tables, c: Conn) {
    && SendingIds(t', c) == (if SubscribesAs(e, c) && c !in t.topicById
                             then Some(IdsOf(e.text))
                             else SendingIds(t, c))
    && (c in t'.topicById <==> SubscribesAs(e, c) || (c in t.topicById && !DisconnectsAs(t, e, c)))
  }

  lemma StepTopics(t: Tables, e: Event, c: Conn)
    requires Enabled(t, e)
    ensures TopicsMove(t, e, Next(t, e), c)
  {
    if e.Received? {
      if SubscriptionOf(e.text).Some? { SubscribeMoves(t, e, c); }
      else if IsDisconnect(e.text) { DisconnectMoves(t, e, c); }
      else { OtherTextsKeep(t, e.conn, e.text, e.samePasscode); }
    }
  }

  lemma SubscribeMoves(t: Tables, e: Event, c: Conn)
    requires Enabled(t, e) && e.Received? && SubscriptionOf(e.text).Some?
    ensures TopicsMove(t, e, Next(t, e), c)
  {
    var (channel, id) := SubscriptionOf(e.text).value;
    SubscribeHandled(t, e.conn, e.text, e.samePasscode);
    SubscribedTopics(t, e.conn, id, channel, c);
  }

  lemma SubscribedTopics(t: Tables, d: Conn, id: int, channel: string, c: Conn)
    ensures var t' := Subscribed(t, d, id, channel);
            && (c in t'.topicById <==> c == d || c in t.topicById)
            && SendingIds(t', c) == if c == d && c !in t.topicById then Some(map[channel := id]) else SendingIds(t, c)
  {
  }

  lemma DisconnectMoves(t: Tables, e: Event, c: Conn)
    requires Enabled(t, e) && e.Received? && IsDisconnect(e.text)
    ensures TopicsMove(t, e, Next(t, e), c)
  {
    DisconnectHandled(t, e.conn, e.text, e.samePasscode);
    DisconnectTopics(t, e.conn);
  }

  /** A run as c's ids see it. */
  ghost predicate TopicsRun(b: seq<Tables>, events: seq<Event>, c: Conn) {
    && |b| == |events| + 1 && c !in b[0].topicById
    && forall k :: 0 <= k < |events| ==> TopicsMove(b[k], events[k], b[k + 1], c)
  }

  lemma RunTopics(b: seq<Tables>, events: seq<Event>, c: Conn)
    requires IsRun(b, events)
    ensures TopicsRun(b, events, c)
  {
    forall k | 0 <= k < |events| ensures TopicsMove(b[k], events[k], b[k + 1], c) { RunStep(b, events, k, c); }
  }

  lemma RunStep(b: seq<Tables>, events: seq<Event>, k: nat, c: Conn)
    requires IsRun(b, events) && k < |events|
    ensures TopicsMove(b[k], events[k], b[k + 1], c)
  {
    StepTopics(b[k], events[k], c);
  }

  /** Event k is a SUBSCRIBE of c, and c does not disconnect between it and state i. */
  predicate SubscribedSince(b: seq<Tables>, events: seq<Event>, k: nat, i: nat, c: Conn)
    requires k < i <= |events| <= |b|
  {
    SubscribesAs(events[k], c) && forall m :: k < m < i ==> !DisconnectsAs(b[m], events[m], c)
  }

  /** A flag that some steps set and others clear is set exactly when it was set and not cleared
      since. */
  lemma {:induction false} SetAndNotCleared(known: seq<bool>, sets: seq<bool>, clears: seq<bool>, i: nat)
    requires |sets| == |clears| && |known| == |sets| + 1 && i < |known| && !known[0]
    requires forall k :: 0 <= k < |sets| ==> (known[k + 1] <==> sets[k] || (known[k] && !clears[k]))
    ensures known[i] <==> exists k :: 0 <= k < i && SetSince(sets, clears, k, i)
  {
    if i > 0 {
      SetAndNotCleared(known, sets, clears, i - 1);
      assert known[i - 1 + 1] <==> sets[i - 1] || (known[i - 1] && !clears[i - 1]);
      if sets[i - 1] {
        assert SetSince(sets, clears, i - 1, i);
      } else if known[i] {
        var k :| 0 <= k < i - 1 && SetSince(sets, clears, k, i - 1);
        assert SetSince(sets, clears, k, i);
      } else {
        forall k | 0 <= k < i ensures !SetSince(sets, clears, k, i) {
          if k < i - 1 { SetBefore(sets, clears, k, i); }
        }
      }
    }
  }

  lemma SetBefore(sets: seq<bool>, clears: seq<bool>, k: nat, i: nat)
    requires k + 1 < i <= |sets| == |clears|
    ensures SetSince(sets, clears, k, i) <==> SetSince(sets, clears, k, i - 1) && !clears[i - 1]
  {
  }

  predicate SetSince(sets: seq<bool>, clears: seq<bool>, k: nat, i: nat)
    requires k < i <= |sets| == |clears|
  {
    sets[k] && forall m :: k < m < i ==> !clears[m]
  }

  /** In every run the server knows ids of c exactly when c has subscribed and not disconnected since. */
  lemma KnownSinceSubscribe(b: seq<Tables>, events: seq<Event>, i: nat, c: Conn)
    requires IsRun(b, events) && i < |b|
    ensures c in b[i].topicById <==> exists k :: 0 <= k < i && SubscribedSince(b, events, k, i, c)
  {
    RunTopics(b, events, c);
    KnownFromMoves(b, events, i, c);
  }

  lemma KnownFromMoves(b: seq<Tables>, events: seq<Event>, i: nat, c: Conn)
    requires TopicsRun(b, events, c) && i < |b|
    ensures c in b[i].topicById <==> exists k :: 0 <= k < i && SubscribedSince(b, events, k, i, c)
  {
    var known := seq(|b|, k requires 0 <= k < |b| => c in b[k].topicById);
    var sets := seq(|events|, k requires 0 <= k < |events| => SubscribesAs(events[k], c));
    var clears := seq(|events|, k requires 0 <= k < |events| => DisconnectsAs(b[k], events[k], c));
    forall k | 0 <= k < |events| ensures known[k + 1] <==> sets[k] || (known[k] && !clears[k]) {
      assert TopicsMove(b[k], events[k], b[k + 1], c);
    }
    SetAndNotCleared(known, sets, clears, i);
    forall k | 0 <= k < i ensures SetSince(sets, clears, k, i) <==> SubscribedSince(b, events, k, i, c) {
      assert forall m :: k < m < i ==> (clears[m] <==> DisconnectsAs(b[m], events[m], c));
    }
  }

  /** Event i is the first SUBSCRIBE of c since it was accepted or last disconnected. */
  ghost predicate IsFirstSubscribe(b: seq<Tables>, events: seq<Event>, i: nat, c: Conn)
    requires i < |events| <= |b|
  {
    SubscribesAs(events[i], c) && !exists k :: 0 <= k < i && SubscribedSince(b, events, k, i, c)
  }

  lemma {:induction false} FirstDecides(b: seq<Tables>, events: seq<Event>, i: nat, j: nat, c: Conn)
    requires TopicsRun(b, events, c) && i < j < |b| && SubscribesAs(events[i], c) && c !in b[i].topicById
    requires forall k :: i < k < j ==> !DisconnectsAs(b[k], events[k], c)
    ensures c in b[j].topicById
    ensures SendingIds(b[j], c) == Some(IdsOf(events[i].text))
    decreases j
  {
    if i + 1 < j { FirstDecides(b, events, i, j - 1, c); }
    assert TopicsMove(b[j - 1], events[j - 1], b[j - 1 + 1], c);
  }

  /** The first SUBSCRIBE decides: until c disconnects, the pair it named is the only one c can send
      under, however often c subscribes after it. */
  lemma FirstSubscribeDecides(b: seq<Tables>, events: seq<Event>, i: nat, j: nat, c: Conn)
    requires IsRun(b, events) && i < j < |b| && IsFirstSubscribe(b, events, i, c)
    requires forall k :: i < k < j ==> !DisconnectsAs(b[k], events[k], c)
    ensures c in b[j].topicById
    ensures SendingIds(b[j], c) == Some(IdsOf(events[i].text))
  {
    RunTopics(b, events, c);
    KnownFromMoves(b, events, i, c);
    FirstDecides(b, events, i, j, c);
  }

  lemma RefusedSend(t: Tables, c: Conn, text: string, same: bool)
    requires IsFrame(text, "SEND")
    requires CheckValid(t, c, JavaParse(text).value, same) != Code(0)
    ensures Handle(t, c, text, same) == (t, Exception(FrameText))
  {
    var f := JavaParse(text).value;
    ParsedHasBoth(text, f);
    T.RefusalThrows(CheckValid(t, c, f, same).code, text, f);
  }

  /** A SEND to a channel c has no sending id for throws, and changes and delivers nothing. */
  lemma SendWithoutId(t: Tables, c: Conn, text: string, same: bool)
    requires IsFrame(text, "SEND")
    requires SendingIds(t, c).None? || HeaderOf(text, "destination").None?
             || HeaderOf(text, "destination").value !in SendingIds(t, c).value
    ensures Handle(t, c, text, same).0 == t && Handle(t, c, text, same).1.Exception?
  {
    ParsedHasBoth(text, JavaParse(text).value);
    if CheckValid(t, c, JavaParse(text).value, same) != Code(0) { RefusedSend(t, c, text, same); }
  }

  /** So from its first SUBSCRIBE until its disconnect a connection can SEND to one channel only: to
      any other, subscribed or not, the SEND throws, and changes and delivers nothing. */
  lemma OnlyFirstChannelCanSend(b: seq<Tables>, events: seq<Event>, i: nat, j: nat, c: Conn, text: string, same: bool)
    requires IsRun(b, events) && i < j < |b| && IsFirstSubscribe(b, events, i, c)
    requires forall k :: i < k < j ==> !DisconnectsAs(b[k], events[k], c)
    requires IsFrame(text, "SEND") && HeaderOf(text, "destination") != HeaderOf(events[i].text, "destination")
    ensures Handle(b[j], c, text, same).0 == b[j] && Handle(b[j], c, text, same).1.Exception?
  {
    FirstSubscribeDecides(b, events, i, j, c);
    SendWithoutId(b[j], c, text, same);
  }
}
