/** Runs of frame texts, from the empty tables, that show what the broker does not promise. */
module BrokerWitnesses {
  import opened NulFraming
  import opened Text
  import opened Frames
  import opened FrameRelation
  import opened Broker
  import opened BrokerRuns
  import opened BrokerDisconnect
  import L = BrokerLogins
  import C = Client
  import S = Session

  lemma StartRun()
    ensures IsRun([EMPTY], [])
  {
  }

  lemma ExtendRun(b: seq<Tables>, events: seq<Event>, e: Event)
    requires IsRun(b, events) && Enabled(b[|events|], e)
    ensures IsRun(b + [Next(b[|events|], e)], events + [e])
  {
    var more, all := b + [Next(b[|events|], e)], events + [e];
    forall k | 0 <= k < |all| ensures Enabled(more[k], all[k]) && more[k + 1] == Next(more[k], all[k]) {
      if k < |events| { StepOfRun(b, events, k); }
    }
  }

  lemma StepOfRun(b: seq<Tables>, events: seq<Event>, k: nat)
    requires IsRun(b, events) && k < |events|
    ensures Enabled(b[k], events[k]) && b[k + 1] == Next(b[k], events[k])
  {
  }

  /** A run of these events, ending in t. */
  ghost predicate Reaches(events: seq<Event>, t: Tables) {
    exists b :: IsRun(b, events) && b[|events|] == t
  }

  lemma ReachesMore(events: seq<Event>, t: Tables, e: Event)
    requires Reaches(events, t) && Enabled(t, e)
    ensures Reaches(events + [e], Next(t, e))
  {
    var b :| IsRun(b, events) && b[|events|] == t;
    ExtendRun(b, events, e);
    assert (b + [Next(t, e)])[|events + [e]|] == Next(t, e);
  }

  function Accepts(n: nat): seq<Event> {
    seq(n, _ => Accepted)
  }

  function Open(n: nat): (t: Tables)
    ensures t == EMPTY.(handlers := t.handlers, nextConn := n) && forall c: Conn :: c in t.handlers <==> c < n
  {
    if n == 0 then EMPTY else Accept(Open(n - 1))
  }

  lemma {:induction false} OpenReached(n: nat)
    ensures Reaches(Accepts(n), Open(n))
  {
    if n == 0 {
      StartRun();
      assert Accepts(0) == [];
      assert IsRun([EMPTY], Accepts(0)) && [EMPTY][|Accepts(0)|] == Open(0);
    } else {
      OpenReached(n - 1);
      ReachesMore(Accepts(n - 1), Open(n - 1), Accepted);
      assert Accepts(n) == Accepts(n - 1) + [Accepted];
    }
  }

  /* ---- A subscriber without a handler ---- */

  function Join(c: Conn, name: string, id: nat): Event {
    Received(c, C.SubscribeText(name, id, id), false)
  }

  function Leave(c: Conn, receipt: string): Event {
    Received(c, Render("DISCONNECT", [("receipt", receipt)], C.CARET_AT), false)
  }

  lemma Joins(events: seq<Event>, t: Tables, c: Conn, name: string, id: nat)
    requires Reaches(events, t) && C.Token(name) && id <= INT_MAX && c < t.nextConn
    ensures Reaches(events + [Join(c, name, id)], Subscribed(t, c, id, "/" + name))
    ensures Subscribed(t, c, id, "/" + name).nextConn == t.nextConn
  {
    S.JoinHandled(t, c, name, id, id);
    ReachesMore(events, t, Join(c, name, id));
  }

  lemma LeaveText(receipt: string)
    requires C.Token(receipt)
    ensures IsDisconnect(Render("DISCONNECT", [("receipt", receipt)], C.CARET_AT))
  {
    var h := ("receipt", receipt);
    KeysPlain();
    JavaReadsFrame("DISCONNECT", [h], C.CARET_AT);
    assert [h] == [] + [h];
    PutLast(map[COMMAND := "DISCONNECT"], [], h);
    LeaveHeaders(receipt);
  }

  lemma LeaveHeaders(receipt: string)
    ensures var f := map[COMMAND := "DISCONNECT", "receipt" := receipt, BODY := C.CARET_AT];
            Get(f, COMMAND) == Some("DISCONNECT") && Get(f, "receipt") == Some(receipt)
  {
  }

  /** No key or command used here has a colon or a newline. */
  lemma KeysPlain()
    ensures ':' !in "receipt" && '\n' !in "receipt" && ':' !in "login" && '\n' !in "login"
    ensures ':' !in "passcode" && '\n' !in "passcode" && '\n' !in "CONNECT" && '\n' !in "DISCONNECT"
  {
  }

  lemma Leaves(events: seq<Event>, t: Tables, c: Conn, receipt: string)
    requires Reaches(events, t) && c < t.nextConn && C.Token(receipt)
    ensures Reaches(events + [Leave(c, receipt)], Disconnect(t, c).0)
  {
    LeaveText(receipt);
    DisconnectHandled(t, c, Leave(c, receipt).text, false);
    ReachesMore(events, t, Leave(c, receipt));
  }

  /** Connections 0, 1 and 2 join a channel. */
  function ThreeJoin(name: string): seq<Event> {
    Accepts(3) + [Join(0, name, 0)] + [Join(1, name, 0)] + [Join(2, name, 0)]
  }

  function ThreeJoined(ch: string): Tables {
    Subscribed(Subscribed(Subscribed(Open(3), 0, 0, ch), 1, 0, ch), 2, 0, ch)
  }

  lemma ThreeJoinReached(name: string)
    requires C.Token(name)
    ensures Reaches(ThreeJoin(name), ThreeJoined("/" + name)) && ThreeJoined("/" + name).nextConn == 3
  {
    var t1 := Subscribed(Open(3), 0, 0, "/" + name);
    var t2 := Subscribed(t1, 1, 0, "/" + name);
    OpenReached(3);
    Joins(Accepts(3), Open(3), 0, name, 0);
    Joins(Accepts(3) + [Join(0, name, 0)], t1, 1, name, 0);
    Joins(Accepts(3) + [Join(0, name, 0)] + [Join(1, name, 0)], t2, 2, name, 0);
  }

  lemma ThreeJoinedLists(ch: string)
    ensures ThreeJoined(ch).subscribers == map[ch := [0, 1, 2]] && ThreeJoined(ch).handlers == {0, 1, 2}
  {
    var t1 := Subscribed(Open(3), 0, 0, ch);
    SubscribedList(Open(3), 0, 0, ch);
    SubscribedList(t1, 1, 0, ch);
    SubscribedList(Subscribed(t1, 1, 0, ch), 2, 0, ch);
    assert [] + [0] == [0] && [0] + [1] == [0, 1] && [0, 1] + [2] == [0, 1, 2];
    assert Open(3).handlers == {0, 1, 2};
  }

  lemma ThreeJoinedRecord(ch: string)
    ensures var t := ThreeJoined(ch); 0 in t.channelsOf && t.channelsOf[0] == [ch]
  {
    assert [] + [ch] == [ch];
  }

  /** Then 0 joins another channel, and disconnects. */
  function Dangling(name: string, other: string, receipt: string): seq<Event> {
    ThreeJoin(name) + [Join(0, other, 1)] + [Leave(0, receipt)]
  }

  /** The tables before the last event. */
  function Joined(name: string, other: string): Tables {
    Subscribed(ThreeJoined("/" + name), 0, 1, "/" + other)
  }

  lemma JoinedTables(name: string, other: string)
    requires name != other
    ensures var t := Joined(name, other);
            && t.subscribers == map["/" + name := [0, 1, 2], "/" + other := [0]]
            && 0 in t.channelsOf && t.channelsOf[0] == ["/" + name, "/" + other] && 0 in t.handlers
  {
    var a, b := "/" + name, "/" + other;
    assert a[1..] == name && b[1..] == other;
    ThreeJoinedLists(a);
    ThreeJoinedRecord(a);
    SubscribedList(ThreeJoined(a), 0, 1, b);
    assert [] + [0] == [0] && [a] + [b] == [a, b];
  }

  lemma LeftTables(name: string, other: string)
    requires name != other
    ensures var t := Disconnect(Joined(name, other), 0).0; Listed(t, "/" + other, 0) > 0 && 0 !in t.handlers
  {
    var t, a, b := Joined(name, other), "/" + name, "/" + other;
    JoinedTables(name, other);
    assert a[1..] == name && b[1..] == other;
    assert FirstIndex([0, 1, 2], 0) == 0 && !Completes([0, 1, 2], 0);
    assert RemovePasses(t.subscribers, [a, b], 0) == (t.subscribers[a := RemoveFirst([0, 1, 2], 0)], Some(FailFast));
  }

  /** Whatever the two channels are called, the first of three subscribers stays listed under its
      second channel, without a handler. */
  lemma FailFastLeavesDangling(name: string, other: string, receipt: string)
    requires C.Token(name) && C.Token(other) && C.Token(receipt) && name != other
    ensures Reaches(Dangling(name, other, receipt), Disconnect(Joined(name, other), 0).0)
    ensures !AllConnected(Disconnect(Joined(name, other), 0).0)
  {
    ThreeJoinReached(name);
    Joins(ThreeJoin(name), ThreeJoined("/" + name), 0, other, 1);
    Leaves(ThreeJoin(name) + [Join(0, other, 1)], Joined(name, other), 0, receipt);
    LeftDangling(name, other);
  }

  lemma LeftDangling(name: string, other: string)
    requires name != other
    ensures !AllConnected(Disconnect(Joined(name, other), 0).0)
  {
    LeftTables(name, other);
    assert Listed(Disconnect(Joined(name, other), 0).0, "/" + other, 0) > 0;
  }

  /* ---- Two connections with one login ---- */

  function LoginWithout(c: Conn, user: string): Event {
    Received(c, Render("CONNECT", [("login", user)], C.CARET_AT), false)
  }

  function LoginWith(c: Conn, user: string, passcode: string): Event {
    Received(c, Render("CONNECT", [("login", user), ("passcode", passcode)], C.CARET_AT), false)
  }

  lemma TextWithout(user: string)
    requires C.Token(user)
    ensures var text := Render("CONNECT", [("login", user)], C.CARET_AT);
            IsFrame(text, "CONNECT") && HeaderOf(text, "login") == Some(user) && HeaderOf(text, "passcode") == None
  {
    var l := ("login", user);
    KeysPlain();
    JavaReadsFrame("CONNECT", [l], C.CARET_AT);
    assert [l] == [] + [l];
    PutLast(map[COMMAND := "CONNECT"], [], l);
    LoginHeaders(user);
  }

  lemma LoginHeaders(user: string)
    ensures var f := map[COMMAND := "CONNECT", "login" := user, BODY := C.CARET_AT];
            Get(f, COMMAND) == Some("CONNECT") && Get(f, "login") == Some(user) && Get(f, "passcode") == None
  {
  }

  lemma TextWith(user: string, passcode: string)
    requires C.Token(user) && C.Token(passcode)
    ensures var text := Render("CONNECT", [("login", user), ("passcode", passcode)], C.CARET_AT);
            && IsFrame(text, "CONNECT") && HeaderOf(text, "login") == Some(user)
            && HeaderOf(text, "passcode") == Some(passcode)
  {
    var l, p := ("login", user), ("passcode", passcode);
    KeysPlain();
    JavaReadsFrame("CONNECT", [l, p], C.CARET_AT);
    C.PutTwo(map[COMMAND := "CONNECT"], l, p);
    BothHeaders(user, passcode);
  }

  lemma BothHeaders(user: string, passcode: string)
    ensures var f := map[COMMAND := "CONNECT", "login" := user, "passcode" := passcode, BODY := C.CARET_AT];
            && Get(f, COMMAND) == Some("CONNECT") && Get(f, "login") == Some(user)
            && Get(f, "passcode") == Some(passcode)
  {
  }

  /** A first CONNECT without a passcode is answered and leaves the login without one. */
  lemma AnsweredUnguarded(t: Tables, c: Conn, text: string)
    requires IsFrame(text, "CONNECT") && HeaderOf(text, "passcode") == None
    requires var login := HeaderOf(text, "login"); !L.Known(t, login)
    ensures Handle(t, c, text, false).1.Reply? && !L.Known(Handle(t, c, text, false).0, HeaderOf(text, "login"))
    ensures Handle(t, c, text, false).0.handlers == t.handlers + {c}
  {
    L.ConnectAnsweredExactly(t, c, text, false);
  }

  lemma NextAnswered(t: Tables, c: Conn, text: string)
    requires IsFrame(text, "CONNECT") && !L.Known(t, HeaderOf(text, "login"))
    ensures Handle(t, c, text, false).1.Reply? && Handle(t, c, text, false).0.handlers == t.handlers + {c}
  {
    L.ConnectAnsweredExactly(t, c, text, false);
  }

  /** Connections 0 and 1 log in as the same user, the first without a passcode. */
  function Shared(user: string, passcode: string): seq<Event> {
    Accepts(2) + [LoginWithout(0, user)] + [LoginWith(1, user, passcode)]
  }

  /** Whatever the user, both are answered CONNECTED and have a handler, and nobody disconnects:
      without a passcode nothing guards the login. */
  lemma LoginSharedWithoutPasscode(user: string, passcode: string)
    requires C.Token(user) && C.Token(passcode)
    ensures L.IsConnectAs(LoginWithout(0, user), Some(user)) && L.IsConnectAs(LoginWith(1, user, passcode), Some(user))
    ensures Handle(Open(2), 0, LoginWithout(0, user).text, false).1.Reply?
    ensures var t := Handle(Open(2), 0, LoginWithout(0, user).text, false).0;
            && Handle(t, 1, LoginWith(1, user, passcode).text, false).1.Reply?
            && var t' := Handle(t, 1, LoginWith(1, user, passcode).text, false).0;
               Reaches(Shared(user, passcode), t') && 0 in t'.handlers && 1 in t'.handlers
  {
    var t := Handle(Open(2), 0, LoginWithout(0, user).text, false).0;
    TextWithout(user);
    TextWith(user, passcode);
    AnsweredUnguarded(Open(2), 0, LoginWithout(0, user).text);
    NextAnswered(t, 1, LoginWith(1, user, passcode).text);
    OpenReached(2);
    ReachesMore(Accepts(2), Open(2), LoginWithout(0, user));
    assert t.nextConn == 2 by { L.ConnectAnsweredExactly(Open(2), 0, LoginWithout(0, user).text, false); }
    ReachesMore(Accepts(2) + [LoginWithout(0, user)], t, LoginWith(1, user, passcode));
  }
}
