/** Who holds a login: CONNECT, DISCONNECT and the three login tables over whole runs. */
module BrokerLogins {
  import opened NulFraming
  import opened Text
  import opened Frames
  import opened FrameRelation
  import opened ServerFrames
  import opened Broker
  import R = BrokerRuns
  import T = BrokerTheorems

  type Login = Option<string>

  /** Connection c is the one logged in as login: a second CONNECT with it is refused as long as
      this stands. */
  predicate Holds(t: Tables, login: Login, c: Conn) {
    login in t.loginConn && t.loginConn[login] == c && c in t.handlers && Known(t, login)
  }

  /** The login has a passcode on record. */
  predicate Known(t: Tables, login: Login) {
    login in t.passcodes && t.passcodes[login].Some?
  }

  /** The login that a disconnect of c deletes: the last one c was the first ever to use. */
  function OnRecord(t: Tables, c: Conn): Login {
    if c in t.loginOf then t.loginOf[c] else None
  }

  /* ---- The answer to a CONNECT ---- */

  /** The answer of the protocol to an accepted CONNECT. */
  const CONNECTED: Headers := map[COMMAND := "CONNECTED", "version" := "1.2", BODY := ""]

  lemma ConnectedParses()
    ensures Respond("CONNECTED" + ['\n'] + Entry("version", "1.2") + ['\n'], false) == Reply(CONNECTED, false)
  {
    assert ':' !in "version" && '\n' !in "version" && ':' !in "1.2" && '\n' !in "1.2" && '\n' !in "CONNECTED";
    var h := ("version", "1.2");
    LinesOfOne(h.0, h.1);
    JavaReadsFrame("CONNECTED", [h], "");
    assert Render("CONNECTED", [h], "") == "CONNECTED" + ['\n'] + Entry("version", "1.2") + ['\n'];
    assert [h] == [] + [h];
    PutLast(map[COMMAND := "CONNECTED"], [], h);
  }

  /** A CONNECT is answered exactly when nobody holds its login and the passcode, if one is on
      record, is the same object. The answer is CONNECTED with version 1.2; otherwise the call throws
      and changes nothing. */
  lemma ConnectAnsweredExactly(t: Tables, d: Conn, text: string, same: bool)
    requires IsFrame(text, "CONNECT")
    ensures var login := HeaderOf(text, "login");
            var (t', out) := Handle(t, d, text, same);
            && (out.Reply? <==> !(exists c :: Holds(t, login, c)) && (Known(t, login) ==> same))
            && (out.Reply? ==> out == Reply(CONNECTED, false))
            && (!out.Reply? ==> t' == t && out == Exception(FrameText))
            && (out.Reply? ==> t' == LoggedIn(t, d, JavaParse(text).value))
  {
    var f := JavaParse(text).value;
    var login := Get(f, "login");
    ParsedHasBoth(text, f);
    if Known(t, login) && login in t.loginConn && t.loginConn[login] in t.handlers {
      assert Holds(t, login, t.loginConn[login]);
    }
    var check := CheckValid(t, d, f, same);
    if check == Code(0) { ConnectedParses(); } else { T.RefusalThrows(check.code, text, f); }
  }

  /** The answered caller holds its login exactly when there is a passcode for it. */
  lemma CallerHoldsExactly(t: Tables, d: Conn, f: Headers)
    ensures Holds(LoggedIn(t, d, f), Get(f, "login"), d) <==> Known(t, Get(f, "login")) || "passcode" in f
  {
  }

  /* ---- How a held login is freed ---- */

  /** The events that free a login held by c: the disconnect of c itself, or of a connection that has
      the login on record. */
  predicate Frees(t: Tables, e: Event, login: Login, c: Conn) {
    && e.Received? && IsDisconnect(e.text)
    && e.conn in t.handlers && (e.conn == c || OnRecord(t, e.conn) == login)
  }

  lemma RemoveTouches(t: Tables, d: Conn)
    ensures var t' := RemoveFromMaps(t, d).0;
            && t'.handlers == t.handlers - {d} && t'.loginOf == t.loginOf - {d} && t'.passcodes == t.passcodes
            && t'.loginConn == t.loginConn - {OnRecord(t, d)}
  {
  }

  lemma DisconnectFrees(t: Tables, d: Conn, login: Login, c: Conn)
    requires Holds(t, login, c)
    ensures Holds(ProcessDisconnect(t, d).0, login, c) <==> !(d in t.handlers && (d == c || OnRecord(t, d) == login))
  {
    if d in t.handlers { RemoveTouches(t, d); }
  }

  lemma OthersStillHold(t: Tables, d: Conn, f: Headers, login: Login, c: Conn)
    requires Holds(t, login, c) && login != Get(f, "login")
    ensures Holds(LoggedIn(t, d, f), login, c)
  {
  }

  /** The events that leave the login tables alone and take no handler away. */
  predicate SameLogins(t: Tables, t': Tables) {
    t'.loginConn == t.loginConn && t'.loginOf == t.loginOf && t'.passcodes == t.passcodes && t.handlers <= t'.handlers
  }

  lemma SubscribeKeeps(t: Tables, d: Conn, id: int, channel: string)
    ensures SameLogins(t, Subscribed(t, d, id, channel))
  {
  }

  lemma UnsubscribeKeeps(t: Tables, d: Conn, id: int, f: Headers)
    requires d in t.topicById && id in t.topicById[d]
    ensures SameLogins(t, ProcessUnsubscribe(t, d, id, f).0)
  {
  }

  lemma SendKeeps(t: Tables, d: Conn, f: Headers)
    requires "destination" in f && BODY in f
    ensures SameLogins(t, ProcessSend(t, d, f).0)
  {
    T.SendTouches(t, d, f);
  }

  lemma OtherCommandsKeep(t: Tables, d: Conn, f: Headers, same: bool)
    requires COMMAND in f && BODY in f && CheckValid(t, d, f, same) == Code(0)
    requires f[COMMAND] != "CONNECT" && f[COMMAND] != "SUBSCRIBE" && f[COMMAND] != "DISCONNECT"
    ensures SameLogins(t, Process(t, d, f, same).0)
  {
    if f[COMMAND] == "SEND" { SendKeeps(t, d, f); }
    else if f[COMMAND] == "UNSUBSCRIBE" { UnsubscribeKeeps(t, d, ParseInt(f["id"]).value, f); }
  }

  lemma OtherTextsKeep(t: Tables, d: Conn, text: string, same: bool)
    requires !IsFrame(text, "CONNECT") && !IsDisconnect(text)
    ensures SameLogins(t, Handle(t, d, text, same).0)
  {
    if SubscriptionOf(text).Some? {
      SubscribeHandled(t, d, text, same);
      SubscribeKeeps(t, d, SubscriptionOf(text).value.1, SubscriptionOf(text).value.0);
    } else {
      OtherHandled(t, d, text, same);
      if Handle(t, d, text, same).0 != t { OtherCommandsKeep(t, d, JavaParse(text).value, same); }
    }
  }

  /** What any event does to the login tables: three cases, of which only one can free a login. */
  lemma EventCases(t: Tables, e: Event)
    requires Enabled(t, e)
    ensures var t' := Next(t, e);
            || SameLogins(t, t')
            || (&& e.Received? && IsFrame(e.text, "CONNECT") && t' == LoggedIn(t, e.conn, JavaParse(e.text).value)
                && Handle(t, e.conn, e.text, e.samePasscode).1.Reply?)
            || (&& e.Received? && IsDisconnect(e.text)
                && t' == ProcessDisconnect(t, e.conn).0)
    ensures e.Received? && IsDisconnect(e.text) ==> Next(t, e) == ProcessDisconnect(t, e.conn).0
  {
    if e.Received? {
      if IsFrame(e.text, "CONNECT") { ConnectAnsweredExactly(t, e.conn, e.text, e.samePasscode); }
      else if IsDisconnect(e.text) { DisconnectHandled(t, e.conn, e.text, e.samePasscode); }
      else { OtherTextsKeep(t, e.conn, e.text, e.samePasscode); }
    }
  }

  /** Exactly one kind of event ends the holding of a login; no CONNECT ever does. */
  lemma FreedExactly(t: Tables, e: Event, login: Login, c: Conn)
    requires Enabled(t, e) && Holds(t, login, c)
    ensures Holds(Next(t, e), login, c) <==> !Frees(t, e, login, c)
  {
    EventCases(t, e);
    if e.Received? && IsFrame(e.text, "DISCONNECT") {
      DisconnectFrees(t, e.conn, login, c);
    } else if e.Received? && IsFrame(e.text, "CONNECT") {
      ConnectAnsweredExactly(t, e.conn, e.text, e.samePasscode);
      if Handle(t, e.conn, e.text, e.samePasscode).1.Reply? {
        OthersStillHold(t, e.conn, JavaParse(e.text).value, login, c);
      }
    }
  }

  lemma RunFreedExactly(b: seq<Tables>, events: seq<Event>, k: nat, login: Login, c: Conn)
    requires IsRun(b, events) && k < |events| && Holds(b[k], login, c)
    ensures Holds(b[k + 1], login, c) <==> !Frees(b[k], events[k], login, c)
  {
    FreedExactly(b[k], events[k], login, c);
  }

  ghost predicate HeldThrough(b: seq<Tables>, i: nat, j: nat, login: Login, c: Conn)
    requires j < |b|
  {
    forall k :: i <= k <= j ==> Holds(b[k], login, c)
  }

  ghost predicate NotFreed(b: seq<Tables>, events: seq<Event>, i: nat, j: nat, login: Login, c: Conn)
    requires j <= |events| <= |b|
  {
    forall k :: i <= k < j ==> !Frees(b[k], events[k], login, c)
  }

  /** Over every run: c holds its login from i through j exactly when nothing in between frees it. */
  lemma HeldExactly(b: seq<Tables>, events: seq<Event>, i: nat, j: nat, login: Login, c: Conn)
    requires IsRun(b, events) && i <= j < |b| && Holds(b[i], login, c)
    ensures HeldThrough(b, i, j, login, c) <==> NotFreed(b, events, i, j, login, c)
  {
    var holds := seq(|b|, k requires 0 <= k < |b| => Holds(b[k], login, c));
    var kept := seq(|events|, k requires 0 <= k < |events| => !Frees(b[k], events[k], login, c));
    forall k | i <= k < j ensures R.KeptAt(holds, kept, k) {
      if Holds(b[k], login, c) { RunFreedExactly(b, events, k, login, c); }
    }
    R.HoldsExactly(holds, kept, i, j);
    Pointwise(b, events, i, j, login, c, holds, kept);
  }

  lemma Pointwise(b: seq<Tables>, events: seq<Event>, i: nat, j: nat, login: Login, c: Conn,
                  holds: seq<bool>, kept: seq<bool>)
    requires |holds| == |b| && |kept| == |events| && i <= j <= |events| < |b|
    requires forall k :: 0 <= k < |b| ==> holds[k] == Holds(b[k], login, c)
    requires forall k :: 0 <= k < |events| ==> kept[k] == !Frees(b[k], events[k], login, c)
    ensures HeldThrough(b, i, j, login, c) <==> (forall k :: i <= k <= j ==> holds[k])
    ensures NotFreed(b, events, i, j, login, c) <==> (forall k :: i <= k < j ==> kept[k])
  {
  }

  /* ---- One login, one connection ---- */

  /** The event is a CONNECT of the login. */
  predicate IsConnectAs(e: Event, login: Login) {
    e.Received? && IsFrame(e.text, "CONNECT") && HeaderOf(e.text, "login") == login
  }

  /** Event i is an answered CONNECT with a passcode, now or on record. */
  ghost predicate LogsIn(b: seq<Tables>, events: seq<Event>, i: nat, login: Login)
    requires i < |events| <= |b|
  {
    var e := events[i];
    && IsConnectAs(e, login) && Handle(b[i], e.conn, e.text, e.samePasscode).1.Reply?
    && (Known(b[i], login) || HeaderOf(e.text, "passcode").Some?)
  }

  lemma HeldAfterLogin(b: seq<Tables>, events: seq<Event>, i: nat, login: Login)
    requires IsRun(b, events) && i < |events| && LogsIn(b, events, i, login)
    ensures Holds(b[i + 1], login, events[i].conn)
  {
    var e := events[i];
    ConnectAnsweredExactly(b[i], e.conn, e.text, e.samePasscode);
    CallerHoldsExactly(b[i], e.conn, JavaParse(e.text).value);
    assert b[i + 1] == Next(b[i], e);
  }

  /** In every run: from an answered CONNECT with a passcode on, until something frees the login,
      every CONNECT with the same login, from anyone and with any passcode, is refused and changes
      nothing. */
  lemma RefusedUntilFreed(b: seq<Tables>, events: seq<Event>, i: nat, j: nat, login: Login,
                          d: Conn, text: string, same: bool)
    requires IsRun(b, events) && i < j < |b| && LogsIn(b, events, i, login)
    requires NotFreed(b, events, i + 1, j, login, events[i].conn)
    requires IsFrame(text, "CONNECT") && HeaderOf(text, "login") == login
    ensures Handle(b[j], d, text, same) == (b[j], Exception(FrameText))
  {
    HeldAfterLogin(b, events, i, login);
    HeldExactly(b, events, i + 1, j, login, events[i].conn);
    ConnectAnsweredExactly(b[j], d, text, same);
    assert Holds(b[j], login, events[i].conn);
  }

  /* ---- A login that is always used with a passcode ---- */

  /** Whoever has the login on record holds it, and it has been used only with a passcode. */
  ghost predicate Guarded(t: Tables, login: Login) {
    (login in t.loginConn ==> Known(t, login))
    && forall c :: c in t.loginOf && t.loginOf[c] == login ==> Holds(t, login, c)
  }

  /** A CONNECT of this login has a passcode. Those of other logins may have none. */
  predicate WithPasscode(e: Event, login: Login) {
    IsConnectAs(e, login) ==> HeaderOf(e.text, "passcode").Some?
  }

  lemma LoggedInGuarded(t: Tables, d: Conn, f: Headers, login: Login)
    requires login.Some? && Guarded(t, login) && (Get(f, "login") == login ==> "passcode" in f)
    requires !(exists c :: Holds(t, Get(f, "login"), c))
    ensures Guarded(LoggedIn(t, d, f), login)
  {
    var t' := LoggedIn(t, d, f);
    forall c | c in t'.loginOf && t'.loginOf[c] == login ensures Holds(t', login, c) {
      RecordedHolds(t, d, f, login, c);
    }
    if Get(f, "login") == login { CallerHoldsExactly(t, d, f); }
  }

  lemma RecordedHolds(t: Tables, d: Conn, f: Headers, login: Login, c: Conn)
    requires Guarded(t, login) && (Get(f, "login") == login ==> "passcode" in f)
    requires !(exists x :: Holds(t, Get(f, "login"), x))
    requires c in LoggedIn(t, d, f).loginOf && LoggedIn(t, d, f).loginOf[c] == login
    ensures Holds(LoggedIn(t, d, f), login, c)
  {
    if c in t.loginOf && t.loginOf[c] == login {
      assert Holds(t, login, c);
      OthersStillHold(t, d, f, login, c);
    } else {
      CallerHoldsExactly(t, d, f);
    }
  }

  lemma DisconnectGuarded(t: Tables, d: Conn, login: Login)
    requires login.Some? && Guarded(t, login)
    ensures Guarded(ProcessDisconnect(t, d).0, login)
  {
    if d in t.handlers { RemoveTouches(t, d); }
  }

  lemma SameGuarded(t: Tables, t': Tables, login: Login)
    requires Guarded(t, login) && SameLogins(t, t')
    ensures Guarded(t', login)
  {
  }

  lemma StepGuarded(t: Tables, e: Event, login: Login)
    requires login.Some? && Enabled(t, e) && Guarded(t, login) && WithPasscode(e, login)
    ensures Guarded(Next(t, e), login)
  {
    EventCases(t, e);
    if SameLogins(t, Next(t, e)) {
      SameGuarded(t, Next(t, e), login);
    } else if IsFrame(e.text, "CONNECT") {
      ConnectAnsweredExactly(t, e.conn, e.text, e.samePasscode);
      LoggedInGuarded(t, e.conn, JavaParse(e.text).value, login);
    } else {
      DisconnectGuarded(t, e.conn, login);
    }
  }

  lemma {:induction false} RunGuarded(b: seq<Tables>, events: seq<Event>, i: nat, login: Login)
    requires IsRun(b, events) && i < |b| && login.Some?
    requires forall k :: 0 <= k < i ==> WithPasscode(events[k], login)
    ensures Guarded(b[i], login)
  {
    if i > 0 {
      RunGuarded(b, events, i - 1, login);
      assert Enabled(b[i - 1], events[i - 1]) && WithPasscode(events[i - 1], login);
      StepGuarded(b[i - 1], events[i - 1], login);
    }
  }

  predicate IsDisconnectOf(e: Event, c: Conn) {
    e.Received? && e.conn == c && IsFrame(e.text, "DISCONNECT")
  }

  /** One login, one connection: when every CONNECT of a login carries a passcode, as the client's do,
      from an answered one until that connection's own DISCONNECT every further CONNECT of the login
      is refused and changes nothing. */
  lemma LoginHeldByOne(b: seq<Tables>, events: seq<Event>, i: nat, j: nat, name: string,
                       d: Conn, text: string, same: bool)
    requires IsRun(b, events) && i < j < |b| && LogsIn(b, events, i, Some(name))
    requires forall k :: 0 <= k < j ==> WithPasscode(events[k], Some(name))
    requires forall k :: i < k < j ==> !IsDisconnectOf(events[k], events[i].conn)
    requires IsFrame(text, "CONNECT") && HeaderOf(text, "login") == Some(name)
    ensures Handle(b[j], d, text, same) == (b[j], Exception(FrameText))
  {
    OwnDisconnectOnly(b, events, i, j, name);
    RefusedUntilFreed(b, events, i, j, Some(name), d, text, same);
  }

  /** A guarded login is freed by its holder only. */
  lemma GuardedFreed(t: Tables, e: Event, login: Login, c: Conn)
    requires Guarded(t, login) && Holds(t, login, c) && Frees(t, e, login, c) && login.Some?
    ensures IsDisconnectOf(e, c)
  {
  }

  lemma OwnDisconnectOnly(b: seq<Tables>, events: seq<Event>, i: nat, j: nat, name: string)
    requires IsRun(b, events) && i < j < |b| && LogsIn(b, events, i, Some(name))
    requires forall k :: 0 <= k < j ==> WithPasscode(events[k], Some(name))
    requires forall k :: i < k < j ==> !IsDisconnectOf(events[k], events[i].conn)
    ensures NotFreed(b, events, i + 1, j, Some(name), events[i].conn)
  {
    var login, c := Some(name), events[i].conn;
    HeldAfterLogin(b, events, i, login);
    forall k | i < k < j ensures StaysHeld(b, events, k, login, c) {
      if Holds(b[k], login, c) { NotFreedAt(b, events, k, login, c); }
    }
    var held := seq(|b|, k requires 0 <= k < |b| => Holds(b[k], login, c));
    var freed := seq(|events|, k requires 0 <= k < |events| => Frees(b[k], events[k], login, c));
    forall k | i < k < j ensures Stays(held, freed, k) { assert StaysHeld(b, events, k, login, c); }
    HeldOn(held, freed, i + 1, j);
    forall k | i < k < j ensures !Frees(b[k], events[k], login, c) { assert !freed[k]; }
  }

  lemma NotFreedAt(b: seq<Tables>, events: seq<Event>, k: nat, login: Login, c: Conn)
    requires IsRun(b, events) && k < |events| && login.Some? && Holds(b[k], login, c)
    requires forall m :: 0 <= m < k ==> WithPasscode(events[m], login)
    requires !IsDisconnectOf(events[k], c)
    ensures StaysHeld(b, events, k, login, c)
  {
    RunGuarded(b, events, k, login);
    if Frees(b[k], events[k], login, c) { GuardedFreed(b[k], events[k], login, c); }
    RunFreedExactly(b, events, k, login, c);
  }

  ghost predicate StaysHeld(b: seq<Tables>, events: seq<Event>, k: nat, login: Login, c: Conn)
    requires k < |events| < |b|
  {
    Holds(b[k], login, c) ==> !Frees(b[k], events[k], login, c) && Holds(b[k + 1], login, c)
  }

  lemma {:induction false} HeldOn(held: seq<bool>, freed: seq<bool>, i: nat, j: nat)
    requires i <= j <= |freed| < |held| && held[i]
    requires forall k :: i <= k < j ==> Stays(held, freed, k)
    ensures held[j] && forall k :: i <= k < j ==> !freed[k]
    decreases j
  {
    if i < j {
      HeldOn(held, freed, i, j - 1);
      assert Stays(held, freed, j - 1);
    }
  }

  predicate Stays(held: seq<bool>, freed: seq<bool>, k: nat)
    requires k < |freed| < |held|
  {
    held[k] ==> !freed[k] && held[k + 1]
  }

  /* ---- The passcode on record ---- */

  function Record(t: Tables, login: Login): Option<string> {
    if login in t.passcodes then t.passcodes[login] else None
  }

  /** The passcode that event e gives for the login: that of an answered CONNECT. */
  function Given(t: Tables, e: Event, login: Login): Option<string> {
    if IsConnectAs(e, login) && Handle(t, e.conn, e.text, e.samePasscode).1.Reply? then HeaderOf(e.text, "passcode")
    else None
  }

  lemma LoggedInRecord(t: Tables, d: Conn, f: Headers, login: Login)
    ensures Record(LoggedIn(t, d, f), login)
            == if Record(t, login).Some? || login != Get(f, "login") then Record(t, login) else Get(f, "passcode")
  {
  }

  lemma ConnectRecord(t: Tables, e: Event, login: Login)
    requires Enabled(t, e) && e.Received? && IsFrame(e.text, "CONNECT")
    ensures Record(Next(t, e), login) == if Record(t, login).Some? then Record(t, login) else Given(t, e, login)
  {
    ConnectAnsweredExactly(t, e.conn, e.text, e.samePasscode);
    LoggedInRecord(t, e.conn, JavaParse(e.text).value, login);
  }

  lemma DisconnectRecord(t: Tables, d: Conn, login: Login)
    ensures Record(ProcessDisconnect(t, d).0, login) == Record(t, login)
  {
    if d in t.handlers { RemoveTouches(t, d); }
  }

  /** A passcode on record never changes, and only an answered CONNECT that gives one puts it there. */
  lemma StepRecord(t: Tables, e: Event, login: Login)
    requires Enabled(t, e)
    ensures Record(Next(t, e), login) == if Record(t, login).Some? then Record(t, login) else Given(t, e, login)
  {
    if e.Received? && IsFrame(e.text, "CONNECT") {
      ConnectRecord(t, e, login);
    } else if e.Received? && IsDisconnect(e.text) {
      DisconnectHandled(t, e.conn, e.text, e.samePasscode);
      DisconnectRecord(t, e.conn, login);
    } else if e.Received? {
      OtherTextsKeep(t, e.conn, e.text, e.samePasscode);
    }
  }

  lemma RunRecord(b: seq<Tables>, events: seq<Event>, k: nat, login: Login)
    requires IsRun(b, events) && k < |events|
    ensures Record(b[k + 1], login)
            == if Record(b[k], login).Some? then Record(b[k], login) else Given(b[k], events[k], login)
  {
    StepRecord(b[k], events[k], login);
  }

  /** Element k is the first that gives p. */
  predicate GivesFirst(gives: seq<Option<string>>, k: nat, p: string)
    requires k < |gives|
  {
    gives[k] == Some(p) && forall m :: 0 <= m < k ==> gives[m] == None
  }

  predicate Records(record: seq<Option<string>>, gives: seq<Option<string>>, k: nat)
    requires k < |gives| < |record|
  {
    record[k + 1] == if record[k].Some? then record[k] else gives[k]
  }

  lemma {:induction false} FirstIsKept(record: seq<Option<string>>, gives: seq<Option<string>>, i: nat, p: string)
    requires |record| == |gives| + 1 && record[0] == None && i < |record|
    requires forall k :: 0 <= k < |gives| ==> Records(record, gives, k)
    ensures record[i] == Some(p) <==> exists k :: 0 <= k < i && GivesFirst(gives, k, p)
    ensures record[i] == None <==> forall k :: 0 <= k < i ==> gives[k] == None
  {
    if i > 0 {
      FirstIsKept(record, gives, i - 1, p);
      assert Records(record, gives, i - 1);
      if record[i - 1] == None && gives[i - 1] == Some(p) { assert GivesFirst(gives, i - 1, p); }
      if record[i - 1].Some? {
        FirstIsKept(record, gives, i - 1, record[i - 1].value);
        var k :| 0 <= k < i - 1 && GivesFirst(gives, k, record[i - 1].value);
        assert gives[k].Some?;
      }
    }
  }

  /** What the events of a run give for the login, in order. */
  function Gives(b: seq<Tables>, events: seq<Event>, login: Login): (gives: seq<Option<string>>)
    requires |events| <= |b|
    ensures |gives| == |events|
  {
    seq(|events|, k requires 0 <= k < |events| => Given(b[k], events[k], login))
  }

  /** In every run the passcode on record is that of the first answered CONNECT that gave one. */
  lemma PasscodeIsFirst(b: seq<Tables>, events: seq<Event>, i: nat, login: Login, p: string)
    requires IsRun(b, events) && i < |b|
    ensures Record(b[i], login) == Some(p) <==>
              exists k :: 0 <= k < i && GivesFirst(Gives(b, events, login), k, p)
  {
    var record := seq(|b|, k requires 0 <= k < |b| => Record(b[k], login));
    var gives := Gives(b, events, login);
    forall k | 0 <= k < |gives| ensures Records(record, gives, k) { RunRecord(b, events, k, login); }
    FirstIsKept(record, gives, i, p);
  }
}
