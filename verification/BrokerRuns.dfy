/** What the broker's redundant tables keep over every run. */
module BrokerRuns {
  import opened NulFraming
  import opened Text
  import opened Frames
  import opened Broker

  /* ---- Counting subscriptions ---- */

  /** How often connection c is listed under channel ch. */
  function Listed(t: Tables, ch: string, c: Conn): nat {
    if ch in t.subscribers then multiset(t.subscribers[ch])[c] else 0
  }

  /** How often channel ch is recorded for connection c. */
  function Recorded(t: Tables, ch: string, c: Conn): nat {
    if c in t.channelsOf then multiset(t.channelsOf[c])[ch] else 0
  }

  lemma RemoveFirstCounts(list: seq<Conn>, c: Conn)
    ensures multiset(RemoveFirst(list, c)) == multiset(list) - multiset{c}
  {
    var i := FirstIndex(list, c);
    if i < |list| {
      assert list == list[..i] + [c] + list[i + 1..];
    } else {
      assert c !in multiset(list);
    }
  }

  lemma CountAppend<T>(s: seq<T>, a: T, x: T)
    ensures multiset(s + [a])[x] == multiset(s)[x] + (if a == x then 1 else 0)
    ensures x in s + [a] <==> x == a || x in s
  {
  }

  lemma CountFirst<T>(s: seq<T>, x: T)
    requires s != []
    ensures multiset(s)[x] == multiset(s[1..])[x] + (if s[0] == x then 1 else 0)
  {
    assert s == [s[0]] + s[1..];
  }

  function Monus(a: nat, b: nat): nat {
    if a <= b then 0 else a - b
  }

  lemma PassCount(list: seq<Conn>, c: Conn, x: Conn)
    ensures multiset(RemoveFirst(list, c))[x] == if x == c then Monus(multiset(list)[x], 1) else multiset(list)[x]
  {
    RemoveFirstCounts(list, c);
  }

  /** What the passes leave of a connection's entries in one list: nothing is added, other
      connections lose nothing, and when they complete c has lost one entry per recorded channel. */
  lemma {:induction false} PassesCount(subs: map<string, seq<Conn>>, chs: seq<string>, c: Conn, ch: string, x: Conn)
    requires ch in subs
    ensures ch in RemovePasses(subs, chs, c).0
    ensures var (subs', cause) := RemovePasses(subs, chs, c);
            && multiset(subs'[ch])[x] <= multiset(subs[ch])[x]
            && (x != c || !SmallId(c) ==> multiset(subs'[ch])[x] == multiset(subs[ch])[x])
            && (x == c && SmallId(c) && cause == None ==>
                 multiset(subs'[ch])[x] == Monus(multiset(subs[ch])[x], multiset(chs)[ch]))
    decreases |chs|
  {
    if chs != [] && chs[0] in subs {
      CountFirst(chs, ch);
      if !SmallId(c) {
        PassesCount(subs, chs[1..], c, ch, x);
      } else {
        PassCount(subs[chs[0]], c, x);
        if Completes(subs[chs[0]], c) {
          PassesCount(subs[chs[0] := RemoveFirst(subs[chs[0]], c)], chs[1..], c, ch, x);
        }
      }
    }
  }

  /** The passes only throw the fail-fast exception, when every channel has a list. */
  lemma {:induction false} PassesCause(subs: map<string, seq<Conn>>, chs: seq<string>, c: Conn)
    requires forall i :: 0 <= i < |chs| ==> chs[i] in subs
    ensures RemovePasses(subs, chs, c).1 in {None, Some(FailFast)}
    ensures !SmallId(c) ==> RemovePasses(subs, chs, c) == (subs, None)
    decreases |chs|
  {
    if chs != [] {
      if !SmallId(c) {
        PassesCause(subs, chs[1..], c);
      } else if Completes(subs[chs[0]], c) {
        PassesCause(subs[chs[0] := RemoveFirst(subs[chs[0]], c)], chs[1..], c);
      }
    }
  }

  /** One pass more never makes a list that completes fail. */
  lemma StillCompletes(list: seq<Conn>, c: Conn)
    requires Completes(list, c)
    ensures Completes(RemoveFirst(list, c), c)
  {
    var i, after := FirstIndex(list, c), RemoveFirst(list, c);
    if i < |list| && c in after {
      var k := FirstIndex(after, c);
      assert after[..i] == list[..i];
      assert forall j :: 0 <= j < i ==> list[..i][j] != c;
    }
  }

  /** The passes complete exactly when in every list, as it was before the call, the connection is
      absent or its first entry is in the last two positions; a channel may be recorded twice. */
  lemma {:induction false} PassesCompleteExactly(subs: map<string, seq<Conn>>, chs: seq<string>, c: Conn)
    requires SmallId(c) && forall i :: 0 <= i < |chs| ==> chs[i] in subs
    ensures RemovePasses(subs, chs, c).1 == None <==> forall i :: 0 <= i < |chs| ==> Completes(subs[chs[i]], c)
    decreases |chs|
  {
    if chs != [] && Completes(subs[chs[0]], c) {
      var subs' := subs[chs[0] := RemoveFirst(subs[chs[0]], c)];
      StillCompletes(subs[chs[0]], c);
      PassesCompleteExactly(subs', chs[1..], c);
      assert forall i :: 0 <= i < |chs| - 1 ==> chs[1..][i] == chs[i + 1];
      forall i | 0 <= i < |chs| ensures Completes(subs'[chs[i]], c) <==> Completes(subs[chs[i]], c) {
        if chs[i] != chs[0] { assert subs'[chs[i]] == subs[chs[i]]; }
      }
      if forall i :: 0 <= i < |chs| - 1 ==> Completes(subs'[chs[1..][i]], c) {
        forall i | 0 <= i < |chs| ensures Completes(subs[chs[i]], c) {
          if i > 0 { assert Completes(subs'[chs[1..][i - 1]], c); }
        }
      }
    }
  }

  /** How many passes delete something: those up to and including the first over a list that, before
      the call, does not complete. */
  function PassesRun(subs: map<string, seq<Conn>>, chs: seq<string>, c: Conn): (n: nat)
    ensures n <= |chs|
    decreases |chs|
  {
    if chs == [] then 0
    else if chs[0] !in subs || !Completes(subs[chs[0]], c) then 1
    else 1 + PassesRun(subs, chs[1..], c)
  }

  lemma {:induction false} PassesRunSame(subs: map<string, seq<Conn>>, chs: seq<string>, c: Conn, ch: string)
    requires ch in subs && Completes(subs[ch], c)
    ensures PassesRun(subs[ch := RemoveFirst(subs[ch], c)], chs, c) == PassesRun(subs, chs, c)
    decreases |chs|
  {
    StillCompletes(subs[ch], c);
    if chs != [] { PassesRunSame(subs, chs[1..], c, ch); }
  }

  /** What the passes leave of c's own entries in a list, whether they complete or fail fast. */
  lemma {:induction false} PassesLeave(subs: map<string, seq<Conn>>, chs: seq<string>, c: Conn, ch: string)
    requires SmallId(c) && ch in subs && forall i :: 0 <= i < |chs| ==> chs[i] in subs
    ensures ch in RemovePasses(subs, chs, c).0
    ensures multiset(RemovePasses(subs, chs, c).0[ch])[c]
            == Monus(multiset(subs[ch])[c], multiset(chs[..PassesRun(subs, chs, c)])[ch])
    decreases |chs|
  {
    if chs != [] {
      var run := chs[..PassesRun(subs, chs, c)];
      var subs' := subs[chs[0] := RemoveFirst(subs[chs[0]], c)];
      CountFirst(run, ch);
      PassCount(subs[chs[0]], c, c);
      if Completes(subs[chs[0]], c) {
        PassesRunSame(subs, chs[1..], c, chs[0]);
        assert run[1..] == chs[1..][..PassesRun(subs', chs[1..], c)];
        PassesLeave(subs', chs[1..], c, ch);
      } else {
        assert run[1..] == [];
      }
    }
  }

  /* ---- The invariant ---- */

  ghost predicate ConnInv(t: Tables, c: Conn) {
    && (c in t.topicById ==> c in t.channelsOf && c in t.idByTopic)
    && (c in t.idByTopic ==> |t.idByTopic[c]| == 1)
    && (c in t.handlers ==> c < t.nextConn)
  }

  ghost predicate RecordInv(t: Tables, c: Conn, ch: string) {
    && (c in t.channelsOf && ch in t.channelsOf[c] ==> ch in t.subscribers)
    && (c in t.idByTopic && ch in t.idByTopic[c] ==> ch in t.subscribers)
    && (Listed(t, ch, c) > 0 ==> c < t.nextConn)
    && (SmallId(c) ==> Listed(t, ch, c) <= Recorded(t, ch, c))
  }

  ghost predicate TopicInv(t: Tables, c: Conn, id: int) {
    c in t.topicById && id in t.topicById[c] ==> c in t.channelsOf && t.topicById[c][id] in t.channelsOf[c]
  }

  ghost predicate NumberInv(t: Tables, i: nat, j: nat) {
    (i < j < |t.delivered| ==> t.delivered[i].number < t.delivered[j].number)
    && (j < |t.delivered| ==> t.delivered[j].number < t.messageId)
  }

  ghost predicate Inv(t: Tables) {
    && (forall c :: ConnInv(t, c))
    && (forall c, ch :: RecordInv(t, c, ch))
    && (forall c, id :: TopicInv(t, c, id))
    && (forall i, j :: NumberInv(t, i, j))
  }

  lemma InitInv()
    ensures Inv(EMPTY)
  {
  }

  lemma SendOneKeeps(t: Tables, to: Conn, frame: Headers)
    requires forall i: nat, j: nat :: NumberInv(t, i, j)
    ensures var t' := SendOne(t, to, frame).0;
            && t' == t.(messageId := t'.messageId, delivered := t'.delivered)
            && t.messageId <= t'.messageId && t.delivered <= t'.delivered
            && forall i: nat, j: nat :: NumberInv(t', i, j)
  {
    var t' := SendOne(t, to, frame).0;
    forall i: nat, j: nat ensures NumberInv(t', i, j) { assert NumberInv(t, i, j) && NumberInv(t, i, i); }
  }

  /** SendOne and FanOut change only messageId and delivered. */
  lemma {:induction false} FanOutKeeps(t: Tables, list: seq<Conn>, frame: Headers)
    requires forall i: nat, j: nat :: NumberInv(t, i, j)
    ensures var t' := FanOut(t, list, frame).0;
            && t' == t.(messageId := t'.messageId, delivered := t'.delivered)
            && t.messageId <= t'.messageId && t.delivered <= t'.delivered
            && forall i: nat, j: nat :: NumberInv(t', i, j)
    decreases |list|
  {
    if list != [] {
      var (t', f, ok) := SendOne(t, list[0], frame);
      SendOneKeeps(t, list[0], frame);
      if ok { FanOutKeeps(t', list[1..], f); }
    }
  }

  lemma SameButNumbers(t: Tables, t': Tables)
    requires Inv(t) && t' == t.(messageId := t'.messageId, delivered := t'.delivered)
    requires forall i: nat, j: nat :: NumberInv(t', i, j)
    ensures Inv(t')
  {
    forall c ensures ConnInv(t', c) { assert ConnInv(t, c); }
    forall c, ch ensures RecordInv(t', c, ch) { assert RecordInv(t, c, ch); }
    forall c, id ensures TopicInv(t', c, id) { assert TopicInv(t, c, id); }
  }

  lemma KeepSend(t: Tables, c: Conn, f: Headers)
    requires Inv(t) && "destination" in f && BODY in f
    ensures Inv(ProcessSend(t, c, f).0)
  {
    var channel := f["destination"];
    if c in t.idByTopic && channel in t.idByTopic[c] {
      var t' := t.(messageId := t.messageId + 1);
      forall i: nat, j: nat ensures NumberInv(t', i, j) { assert NumberInv(t, i, j); }
      SameButNumbers(t, t');
      if channel in t.subscribers {
        FanOutKeeps(t', t.subscribers[channel], MessageFrame(t, c, f));
        SameButNumbers(t', FanOut(t', t.subscribers[channel], MessageFrame(t, c, f)).0);
      }
    }
  }

  /** CONNECT touches only the handlers and the login tables. */
  lemma ConnectTouches(t: Tables, c: Conn, f: Headers)
    ensures var t' := ProcessConnect(t, c, f).0;
            t' == t.(handlers := t.handlers + {c}, loginConn := t'.loginConn, loginOf := t'.loginOf,
                     passcodes := t'.passcodes)
  {
  }

  lemma KeepConnect(t: Tables, c: Conn, f: Headers)
    requires Inv(t) && c < t.nextConn
    ensures Inv(ProcessConnect(t, c, f).0)
  {
    var t' := ProcessConnect(t, c, f).0;
    ConnectTouches(t, c, f);
    forall x ensures ConnInv(t', x) { assert ConnInv(t, x); }
    forall x, ch ensures RecordInv(t', x, ch) { assert RecordInv(t, x, ch); }
    forall x, id ensures TopicInv(t', x, id) { assert TopicInv(t, x, id); }
    forall i: nat, j: nat ensures NumberInv(t', i, j) { assert NumberInv(t, i, j); }
  }

  lemma SubscribedList(t: Tables, c: Conn, id: int, channel: string)
    ensures var list := if channel in t.subscribers then t.subscribers[channel] else [];
            Subscribed(t, c, id, channel).subscribers == t.subscribers[channel := list + [c]]
  {
  }

  lemma SubscribeListed(t: Tables, c: Conn, id: int, channel: string, x: Conn, ch: string)
    ensures var t' := Subscribed(t, c, id, channel);
            && (ch in t'.subscribers <==> ch in t.subscribers || ch == channel)
            && Listed(t', ch, x) == Listed(t, ch, x) + (if x == c && ch == channel then 1 else 0)
  {
    var list := if channel in t.subscribers then t.subscribers[channel] else [];
    SubscribedList(t, c, id, channel);
    CountAppend(list, c, x);
  }

  lemma SubscribeRecorded(t: Tables, c: Conn, id: int, channel: string, x: Conn, ch: string)
    ensures var t' := Subscribed(t, c, id, channel);
            && Recorded(t', ch, x) == Recorded(t, ch, x) + (if x == c && ch == channel then 1 else 0)
            && (x in t'.channelsOf && ch in t'.channelsOf[x] ==>
                 (x in t.channelsOf && ch in t.channelsOf[x]) || (x == c && ch == channel))
  {
    var channels := if c in t.channelsOf then t.channelsOf[c] else [];
    CountAppend(channels, channel, ch);
  }

  lemma SubscribeRecord(t: Tables, c: Conn, id: int, channel: string, x: Conn, ch: string)
    requires RecordInv(t, x, ch) && c < t.nextConn && (c in t.topicById ==> c in t.idByTopic)
    ensures RecordInv(Subscribed(t, c, id, channel), x, ch)
  {
    SubscribeListed(t, c, id, channel, x, ch);
    SubscribeRecorded(t, c, id, channel, x, ch);
  }

  lemma SubscribeTopic(t: Tables, c: Conn, id: int, channel: string, x: Conn, i: int)
    requires TopicInv(t, x, i)
    ensures TopicInv(Subscribed(t, c, id, channel), x, i)
  {
  }

  lemma KeepSubscribe(t: Tables, c: Conn, id: int, channel: string)
    requires Inv(t) && c < t.nextConn
    ensures Inv(Subscribed(t, c, id, channel))
  {
    var t' := Subscribed(t, c, id, channel);
    assert ConnInv(t, c);
    forall x ensures ConnInv(t', x) { assert ConnInv(t, x); }
    forall x, ch ensures RecordInv(t', x, ch) { assert RecordInv(t, x, ch); SubscribeRecord(t, c, id, channel, x, ch); }
    forall x, i ensures TopicInv(t', x, i) { assert TopicInv(t, x, i); SubscribeTopic(t, c, id, channel, x, i); }
    forall i: nat, j: nat ensures NumberInv(t', i, j) { assert NumberInv(t, i, j); }
  }

  lemma KeepUnsubscribe(t: Tables, c: Conn, id: int, f: Headers)
    requires Inv(t) && c in t.topicById && id in t.topicById[c]
    ensures Inv(ProcessUnsubscribe(t, c, id, f).0)
  {
    var t' := ProcessUnsubscribe(t, c, id, f).0;
    var channel := t.topicById[c][id];
    if channel in t.subscribers { RemoveFirstCounts(t.subscribers[channel], c); }
    forall x ensures ConnInv(t', x) { assert ConnInv(t, x); }
    forall x, ch ensures RecordInv(t', x, ch) { assert RecordInv(t, x, ch); }
    forall x, i ensures TopicInv(t', x, i) { assert TopicInv(t, x, i); }
    forall i: nat, j: nat ensures NumberInv(t', i, j) { assert NumberInv(t, i, j); }
  }

  lemma RemoveRecord(t: Tables, c: Conn, x: Conn, ch: string)
    requires RecordInv(t, x, ch)
    ensures RecordInv(RemoveFromMaps(t, c).0, x, ch)
  {
    if c in t.channelsOf {
      if ch in t.subscribers {
        PassesCount(t.subscribers, t.channelsOf[c], c, ch, x);
      } else {
        PassesKeys(t.subscribers, t.channelsOf[c], c);
      }
    }
  }

  lemma {:induction false} PassesKeys(subs: map<string, seq<Conn>>, chs: seq<string>, c: Conn)
    ensures RemovePasses(subs, chs, c).0.Keys == subs.Keys
    decreases |chs|
  {
    if chs != [] && chs[0] in subs {
      if !SmallId(c) {
        PassesKeys(subs, chs[1..], c);
      } else if Completes(subs[chs[0]], c) {
        PassesKeys(subs[chs[0] := RemoveFirst(subs[chs[0]], c)], chs[1..], c);
      }
    }
  }

  lemma KeepDisconnect(t: Tables, c: Conn)
    requires Inv(t)
    ensures Inv(ProcessDisconnect(t, c).0)
  {
    var t' := ProcessDisconnect(t, c).0;
    if c in t.handlers {
      forall x ensures ConnInv(t', x) { assert ConnInv(t, x); }
      forall x, ch ensures RecordInv(t', x, ch) { assert RecordInv(t, x, ch); RemoveRecord(t, c, x, ch); }
      forall x, i ensures TopicInv(t', x, i) { assert TopicInv(t, x, i); }
      forall i: nat, j: nat ensures NumberInv(t', i, j) { assert NumberInv(t, i, j); }
    }
  }

  lemma KeepProcess(t: Tables, c: Conn, f: Headers, same: bool)
    requires Inv(t) && c < t.nextConn && COMMAND in f && BODY in f
    ensures Inv(Process(t, c, f, same).0)
  {
    if CheckValid(t, c, f, same) == Code(0) {
      if f[COMMAND] == "CONNECT" { KeepConnect(t, c, f); }
      else if f[COMMAND] == "SEND" { KeepSend(t, c, f); }
      else if f[COMMAND] == "SUBSCRIBE" {
        if ParseInt(f["id"]).Some? { KeepSubscribe(t, c, ParseInt(f["id"]).value, f["destination"]); }
      }
      else if f[COMMAND] == "UNSUBSCRIBE" { KeepUnsubscribe(t, c, ParseInt(f["id"]).value, f); }
      else if f[COMMAND] == "DISCONNECT" { KeepDisconnect(t, c); }
    }
  }

  lemma KeepAccept(t: Tables)
    requires Inv(t)
    ensures Inv(Accept(t))
  {
    var t' := Accept(t);
    forall x ensures ConnInv(t', x) { assert ConnInv(t, x); }
    forall x, ch ensures RecordInv(t', x, ch) { assert RecordInv(t, x, ch); }
    forall x, i ensures TopicInv(t', x, i) { assert TopicInv(t, x, i); }
    forall i: nat, j: nat ensures NumberInv(t', i, j) { assert NumberInv(t, i, j); }
  }

  lemma KeepHandle(t: Tables, c: Conn, text: string, same: bool)
    requires Inv(t) && c < t.nextConn
    ensures Inv(Handle(t, c, text, same).0)
  {
    match JavaParse(text)
    case Threw =>
    case Parsed(f) => ParsedHasBoth(text, f); KeepProcess(t, c, f, same);
  }

  lemma {:induction false} RunsKeepInv(b: seq<Tables>, events: seq<Event>, i: nat)
    requires IsRun(b, events) && i < |b|
    ensures Inv(b[i])
  {
    if i == 0 {
      InitInv();
    } else {
      RunsKeepInv(b, events, i - 1);
      var e := events[i - 1];
      assert Enabled(b[i - 1], e);
      if e.Received? { KeepHandle(b[i - 1], e.conn, e.text, e.samePasscode); } else { KeepAccept(b[i - 1]); }
    }
  }

  /* ---- What holds through a run ---- */

  /** While something holds, it goes on holding after step k exactly when step k keeps it. */
  predicate KeptAt(holds: seq<bool>, kept: seq<bool>, k: nat)
    requires k < |kept| < |holds|
  {
    holds[k] ==> (holds[k + 1] <==> kept[k])
  }

  /** Then it holds from i through j exactly when every step between keeps it. */
  lemma {:induction false} HoldsExactly(holds: seq<bool>, kept: seq<bool>, i: nat, j: nat)
    requires i <= j <= |kept| < |holds| && holds[i] && forall k :: i <= k < j ==> KeptAt(holds, kept, k)
    ensures (forall k :: i <= k <= j ==> holds[k]) <==> (forall k :: i <= k < j ==> kept[k])
    decreases j
  {
    if i < j {
      HoldsExactly(holds, kept, i, j - 1);
      assert KeptAt(holds, kept, j - 1);
    }
  }
}
