/** connectionsImpl.java and StompMessagingProtocolimpl.java as objects: the shared tables are
    fields that the methods update in place, with the source's loops. Every method is proved against
    the function of module Broker that says what it does to the tables. */
module BrokerObjects {
  import opened NulFraming
  import opened Text
  import opened Frames
  import opened ServerFrames
  import opened Broker

  /** Walks a LinkedList with a live iterator and deletes by index what equals c, as UNSUBSCRIBE and
      removeFromMaps do: hasNext compares the cursor with the current size, and next throws when the
      list was modified behind the iterator. comparable says whether equal ids compare equal. */
  method RemoveWhileIterating(list: seq<Conn>, c: Conn, comparable: bool) returns (after: seq<Conn>, failFast: bool)
    ensures after == if comparable then RemoveFirst(list, c) else list
    ensures failFast <==> comparable && !Completes(list, c)
  {
    after := list;
    var modCount, expectedModCount := 0, 0;
    var cursor, index := 0, 0;
    while cursor < |after|
      invariant 0 <= index == cursor <= |list|
      invariant modCount == 0 ==> after == list && (comparable ==> c !in list[..index])
      invariant modCount != 0 ==> comparable && c in list && after == RemoveFirst(list, c)
                                  && index == FirstIndex(list, c) + 1
      invariant |after| == |list| - (if modCount == 0 then 0 else 1)
      decreases |list| - cursor
    {
      if modCount != expectedModCount { return after, true; }
      var current := after[cursor];
      cursor := cursor + 1;
      if comparable && current == c {
        FirstIndexIs(list, c, index);
        after := after[..index] + after[index + 1..];
        modCount := modCount + 1;
      }
      index := index + 1;
    }
    if modCount == 0 && comparable {
      assert list[..index] == list;
    }
    failFast := false;
  }

  lemma FirstIndexIs(list: seq<Conn>, c: Conn, i: nat)
    requires i < |list| && list[i] == c && c !in list[..i]
    ensures FirstIndex(list, c) == i
  {
    var k := FirstIndex(list, c);
    assert forall j :: 0 <= j < i ==> list[..i][j] != c;
    assert forall j :: 0 <= j < k ==> list[..k][j] != c;
  }

  class Connections {
    var connectionIdToHandler: set<Conn>
    var channelToConnectionId: map<string, seq<Conn>>
    var connectionIdToChannel: map<Conn, seq<string>>
    var loginPasscode: map<Option<string>, Option<string>>
    var loginConnectionId: map<Option<string>, Conn>
    var connectionIdToLogin: map<Conn, Option<string>>
    var clientIdToIdTopicMap: map<Conn, map<int, string>>
    var topicToChannelId: map<Conn, map<string, int>>
    var connectionId: nat
    var messageId: nat
    ghost var delivered: seq<Delivery>

    ghost function View(): Tables
      reads this
    {
      Tables(connectionIdToHandler, channelToConnectionId, connectionIdToChannel, loginPasscode, loginConnectionId,
             connectionIdToLogin, clientIdToIdTopicMap, topicToChannelId, connectionId, messageId, delivered)
    }

    constructor ()
      ensures View() == EMPTY
    {
      connectionIdToHandler, channelToConnectionId, connectionIdToChannel := {}, map[], map[];
      loginPasscode, loginConnectionId, connectionIdToLogin := map[], map[], map[];
      clientIdToIdTopicMap, topicToChannelId, connectionId, messageId := map[], map[], 0, 0;
      delivered := [];
    }

    method AddToMapConnectionIdToHandler() returns (id: Conn)
      modifies this
      ensures View() == Accept(old(View())) && id == old(View()).nextConn
    {
      connectionIdToHandler := connectionIdToHandler + {connectionId};
      connectionId := connectionId + 1;
      return connectionId - 1;
    }

    method AddToMapChannelToConnectionId(channel: string, c: Conn)
      modifies this`channelToConnectionId
      ensures View() == AddSubscriber(old(View()), channel, c)
    {
      if channel !in channelToConnectionId {
        channelToConnectionId := channelToConnectionId[channel := []];
      }
      var subscribers := channelToConnectionId[channel];
      channelToConnectionId := channelToConnectionId[channel := subscribers + [c]];
    }

    /** send(int, T) for a MESSAGE: ok is false when it throws. The frame is the caller's object. */
    method SendTo(c: Conn, msg: Headers) returns (frame: Headers, ok: bool)
      modifies this`messageId, this`delivered
      ensures (View(), frame, ok) == SendOne(old(View()), c, msg)
    {
      frame := msg;
      if c !in topicToChannelId || "destination" !in frame || frame["destination"] !in topicToChannelId[c] {
        return frame, false;
      }
      frame := frame["subscribtion" := SignedDecimal(topicToChannelId[c][frame["destination"]])];
      frame := frame["message-id" := Decimal(messageId)];
      messageId := messageId + 1;
      if c !in connectionIdToHandler { return frame, false; }
      delivered := delivered + [Delivery(c, messageId - 1, frame)];
      ok := true;
    }

    /** send(String, T): the loop over the subscribers of a channel. */
    method SendToChannel(channel: string, msg: Headers) returns (ok: bool)
      modifies this`messageId, this`delivered
      ensures channel !in old(channelToConnectionId) ==> !ok && View() == old(View())
      ensures channel in old(channelToConnectionId) ==>
                (View(), ok) == FanOut(old(View()), old(channelToConnectionId)[channel], msg)
    {
      if channel !in channelToConnectionId { return false; }
      var subscribers := channelToConnectionId[channel];
      var frame := msg;
      ok := true;
      var i := 0;
      while i < |subscribers|
        invariant 0 <= i <= |subscribers| && ok
        invariant View() == old(View()).(messageId := messageId, delivered := delivered)
        invariant FanOut(old(View()), subscribers, msg) == FanOut(View(), subscribers[i..], frame)
      {
        assert subscribers[i..][1..] == subscribers[i + 1..];
        frame, ok := SendTo(subscribers[i], frame);
        if !ok { return false; }
        i := i + 1;
      }
    }

    method RemoveFromMaps(c: Conn) returns (cause: Option<Cause>)
      modifies this
      ensures (View(), cause) == Broker.RemoveFromMaps(old(View()), c)
    {
      connectionIdToHandler := connectionIdToHandler - {c};
      clientIdToIdTopicMap := clientIdToIdTopicMap - {c};
      var username := if c in connectionIdToLogin then connectionIdToLogin[c] else None;
      connectionIdToLogin := connectionIdToLogin - {c};
      loginConnectionId := loginConnectionId - {username};
      if c !in connectionIdToChannel { return Some(NullPointer); }
      cause := RemoveFromLists(connectionIdToChannel[c], c);
      if cause.None? { connectionIdToChannel := connectionIdToChannel - {c}; }
    }

    /** The loops of removeFromMaps over the recorded channels and each channel's list. */
    method RemoveFromLists(channels: seq<string>, c: Conn) returns (cause: Option<Cause>)
      modifies this`channelToConnectionId
      ensures (channelToConnectionId, cause) == RemovePasses(old(channelToConnectionId), channels, c)
    {
      var i := 0;
      while i < |channels|
        invariant 0 <= i <= |channels|
        invariant RemovePasses(old(channelToConnectionId), channels, c)
                    == RemovePasses(channelToConnectionId, channels[i..], c)
      {
        var channel := channels[i];
        assert channels[i..][0] == channel && channels[i..][1..] == channels[i + 1..];
        if channel !in channelToConnectionId { return Some(NullPointer); }
        ghost var before := channelToConnectionId;
        var after, failFast := RemoveWhileIterating(channelToConnectionId[channel], c, SmallId(c));
        channelToConnectionId := channelToConnectionId[channel := after];
        assert !SmallId(c) ==> channelToConnectionId == before;
        if failFast { return Some(FailFast); }
        i := i + 1;
      }
      return None;
    }

    method Disconnect(c: Conn) returns (cause: Option<Cause>)
      modifies this
      ensures (View(), cause) == Broker.Disconnect(old(View()), c)
    {
      if c !in connectionIdToHandler { return Some(NullPointer); }
      cause := RemoveFromMaps(c);
    }
  }

  class StompProtocol {
    const con: Connections
    const connectionId: Conn
    var terminate: bool

    constructor (con: Connections, connectionId: Conn)
      ensures this.con == con && this.connectionId == connectionId && !terminate
    {
      this.con, this.connectionId, terminate := con, connectionId, false;
    }

    /** checkValid, with its scan of the subscriber list. */
    method CheckValid(message: Headers, samePasscode: bool) returns (check: Check)
      requires COMMAND in message
      ensures check == Broker.CheckValid(con.View(), connectionId, message, samePasscode)
    {
      var command := message[COMMAND];
      if command == "CONNECT" {
        var login := Get(message, "login");
        if login in con.loginPasscode && con.loginPasscode[login].Some? {
          if login in con.loginConnectionId && con.loginConnectionId[login] in con.connectionIdToHandler {
            return Code(1);
          }
          if !samePasscode { return Code(2); }
        }
      }
      if command == "SEND" {
        if "destination" !in message { return Code(3); }
        if message["destination"] in con.channelToConnectionId {
          var subscribers := con.channelToConnectionId[message["destination"]];
          var exist, i := false, 0;
          while i < |subscribers| && !exist
            invariant 0 <= i <= |subscribers|
            invariant exist <==> connectionId in subscribers[..i]
          {
            if subscribers[i] == connectionId { exist := true; }
            i := i + 1;
          }
          assert !exist ==> subscribers[..i] == subscribers;
          if !exist { return Code(4); }
        }
      }
      if command == "SUBSCRIBE" {
        if "destination" !in message { return Code(5); }
        if "id" !in message { return Code(7); }
      }
      if command == "UNSUBSCRIBE" {
        if "id" !in message { return Code(8); }
        var id := ParseInt(message["id"]);
        if id.None? { return CheckThrew(NumberFormat); }
        if connectionId !in con.clientIdToIdTopicMap { return CheckThrew(NullPointer); }
        if id.value !in con.clientIdToIdTopicMap[connectionId] { return Code(9); }
      }
      if command == "DISCONNECT" {
        if "receipt" !in message { return Code(10); }
      }
      return Code(0);
    }

    /** The response new Frame(text), or the exception out of it; terminate is set in between. */
    method Answer(text: string, terminates: bool) returns (out: Outcome)
      modifies this`terminate
      ensures out == Respond(text, terminates)
      ensures terminate == (old(terminate) || (out.Reply? && out.terminate))
    {
      var frame := new JavaFrame(text);
      var threw := frame.MapMsgToFrame();
      if threw { return Exception(FrameText); }
      if terminates { terminate := true; }
      return Reply(frame.headers, terminates);
    }

    method AnswerReceipt(f: Headers) returns (out: Outcome)
      modifies this`terminate
      ensures out == Receipted(f)
      ensures terminate == (old(terminate) || (out.Reply? && out.terminate))
    {
      if "receipt" !in f { return NoReply; }
      out := Answer("RECEIPT" + ['\n'] + Entry("receipt-id", f["receipt"]) + ['\n'], false);
    }

    method Process(f: Headers, samePasscode: bool) returns (out: Outcome)
      requires COMMAND in f && BODY in f
      modifies this`terminate, con
      ensures (con.View(), out) == Broker.Process(old(con.View()), connectionId, f, samePasscode)
      ensures terminate == (old(terminate) || (out.Reply? && out.terminate))
    {
      var check := CheckValid(f, samePasscode);
      match check
      case CheckThrew(cause) => return Exception(cause);
      case Code(code) =>
        if code != 0 {
          out := Answer(ErrorText(code, f), true);
        } else if f[COMMAND] == "CONNECT" {
          out := Connect(f);
        } else if f[COMMAND] == "SEND" {
          out := Send(f);
        } else if f[COMMAND] == "SUBSCRIBE" {
          out := Subscribe(f);
        } else if f[COMMAND] == "UNSUBSCRIBE" {
          out := Unsubscribe(f);
        } else if f[COMMAND] == "DISCONNECT" {
          var cause := con.Disconnect(connectionId);
          out := if cause.Some? then Exception(cause.value) else NoReply;
        } else {
          out := NoReply;
        }
    }

    method Connect(f: Headers) returns (out: Outcome)
      modifies this`terminate, con
      ensures (con.View(), out) == ProcessConnect(old(con.View()), connectionId, f)
      ensures terminate == (old(terminate) || (out.Reply? && out.terminate))
    {
      var login := Get(f, "login");
      con.connectionIdToHandler := con.connectionIdToHandler + {connectionId};
      var known := login in con.loginPasscode && con.loginPasscode[login].Some?;
      con.loginConnectionId := con.loginConnectionId[login := connectionId];
      if !known {
        con.connectionIdToLogin := con.connectionIdToLogin[connectionId := login];
        con.loginPasscode := con.loginPasscode[login := Get(f, "passcode")];
      }
      out := Answer("CONNECTED" + ['\n'] + Entry("version", "1.2") + ['\n'], false);
    }

    method Send(f: Headers) returns (out: Outcome)
      requires "destination" in f && BODY in f
      modifies this`terminate, con
      ensures (con.View(), out) == ProcessSend(old(con.View()), connectionId, f)
      ensures terminate == (old(terminate) || (out.Reply? && out.terminate))
    {
      var channel := f["destination"];
      if connectionId !in con.topicToChannelId || channel !in con.topicToChannelId[connectionId] {
        return Exception(NullPointer);
      }
      var toReturn: Headers := map[COMMAND := "MESSAGE"];
      toReturn := toReturn["subscription" := SignedDecimal(con.topicToChannelId[connectionId][channel])];
      toReturn := toReturn["message-id" := Decimal(con.messageId)];
      con.messageId := con.messageId + 1;
      toReturn := toReturn["destination" := channel][BODY := f[BODY]];
      assert toReturn == MessageFrame(old(con.View()), connectionId, f);
      var ok := con.SendToChannel(channel, toReturn);
      if !ok { return Exception(NullPointer); }
      if "receipt" !in f { return NoReply; }
      out := Answer("RECEIPT" + ['\n'] + Entry("receipt-id", f["receipt"]), false);
    }

    method Subscribe(f: Headers) returns (out: Outcome)
      requires "destination" in f && "id" in f
      modifies this`terminate, con
      ensures (con.View(), out) == ProcessSubscribe(old(con.View()), connectionId, f)
      ensures terminate == (old(terminate) || (out.Reply? && out.terminate))
    {
      var id := ParseInt(f["id"]);
      if id.None? { return Exception(NumberFormat); }
      var channel := f["destination"];
      con.AddToMapChannelToConnectionId(channel, connectionId);
      if connectionId !in con.connectionIdToChannel {
        assert [] + [channel] == [channel];
        con.connectionIdToChannel := con.connectionIdToChannel[connectionId := [channel]];
      } else {
        con.connectionIdToChannel :=
          con.connectionIdToChannel[connectionId := con.connectionIdToChannel[connectionId] + [channel]];
      }
      if connectionId !in con.clientIdToIdTopicMap {
        con.clientIdToIdTopicMap := con.clientIdToIdTopicMap[connectionId := map[id.value := channel]];
        con.topicToChannelId := con.topicToChannelId[connectionId := map[channel := id.value]];
      } else {
        con.clientIdToIdTopicMap :=
          con.clientIdToIdTopicMap[connectionId := con.clientIdToIdTopicMap[connectionId][id.value := channel]];
      }
      assert con.View() == Subscribed(old(con.View()), connectionId, id.value, channel);
      out := AnswerReceipt(f);
    }

    method Unsubscribe(f: Headers) returns (out: Outcome)
      requires "id" in f && ParseInt(f["id"]).Some?
      requires connectionId in con.clientIdToIdTopicMap
      requires ParseInt(f["id"]).value in con.clientIdToIdTopicMap[connectionId]
      modifies this`terminate, con
      ensures (con.View(), out) == ProcessUnsubscribe(old(con.View()), connectionId, ParseInt(f["id"]).value, f)
      ensures terminate == (old(terminate) || (out.Reply? && out.terminate))
    {
      var id := ParseInt(f["id"]).value;
      var channel := con.clientIdToIdTopicMap[connectionId][id];
      if channel !in con.channelToConnectionId { return Exception(NullPointer); }
      var after, failFast := RemoveWhileIterating(con.channelToConnectionId[channel], connectionId, true);
      con.channelToConnectionId := con.channelToConnectionId[channel := after];
      if failFast { return Exception(FailFast); }
      out := AnswerReceipt(f);
    }
  }
}
