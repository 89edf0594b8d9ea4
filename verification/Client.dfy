/** The client's side of subscriptions (StompProtocol.cpp): ids and receipts are allocated for join
    and exit commands, and RECEIPT frames are resolved back to the command they answer. */
module Client {
  import opened NulFraming
  import opened Text
  import opened Frames
  import opened FrameRelation
  import opened ServerFrames

  /** A game name as the console yields it. */
  predicate Token(name: string) {
    name != "" && ':' !in name && '\n' !in name && NUL !in name
  }

  /** id, recipt, channeltoUniqueID and receiptToOriginalMsg. */
  datatype State =
    State(id: nat, recipt: nat, channelToUniqueId: map<string, nat>, receiptToOriginalMsg: map<nat, string>)

  const INITIAL_STATE := State(0, 0, map[], map[])

  /** The frame texts end in the two characters ^ and @; the NUL comes from sendFrameAscii. */
  const CARET_AT := "^@"

  function SubscribeText(name: string, id: nat, recipt: nat): string {
    Render("SUBSCRIBE", [("destination", "/" + name), ("id", Decimal(id)), ("receipt", Decimal(recipt))], CARET_AT)
  }

  function UnsubscribeText(id: nat, recipt: nat): string {
    Render("UNSUBSCRIBE", [("id", Decimal(id)), ("receipt", Decimal(recipt))], CARET_AT)
  }

  /** join: a known name keeps its id, a new one gets the next. */
  function Join(s: State, name: string): (State, string) {
    var known := name in s.channelToUniqueId;
    var id := if known then s.channelToUniqueId[name] else s.id;
    (State(if known then s.id else s.id + 1, s.recipt + 1, s.channelToUniqueId[name := id],
           if s.recipt in s.receiptToOriginalMsg then s.receiptToOriginalMsg
           else s.receiptToOriginalMsg[s.recipt := "SUBSCRIBE" + [':'] + name]),
     SubscribeText(name, id, s.recipt))
  }

  /** exit of a joined name. */
  function Exit(s: State, name: string): (State, string)
    requires name in s.channelToUniqueId
  {
    (s.(recipt := s.recipt + 1,
        receiptToOriginalMsg := if s.recipt in s.receiptToOriginalMsg then s.receiptToOriginalMsg
                                else s.receiptToOriginalMsg[s.recipt := "UNSUBSCRIBE" + [':'] + name]),
     UnsubscribeText(s.channelToUniqueId[name], s.recipt))
  }

  /** What the client reports for a RECEIPT: the kind of the request and its channel. None stands for
      an exception or undefined behaviour. On the printed numbers that occur, stoi is ParseInt. */
  function Resolve(s: State, frame: Headers): Option<(string, string)> {
    if "receipt-id" !in frame then None
    else
      match ParseInt(frame["receipt-id"])
      case None => None
      case Some(n) =>
        if n < 0 || n !in s.receiptToOriginalMsg then None
        else
          var seglist := CppSplit(s.receiptToOriginalMsg[n], ':');
          if |seglist| < 2 then None else Some((seglist[0], seglist[1]))
  }

  lemma PartsOfThree(head: string, a: string, b: string, c: string, body: string)
    ensures head + a + b + c + ['\n'] + body == head + (a + b + c) + ['\n'] + body
  {
    assert head + a + b + c == head + (a + b + c);
  }

  lemma PartsOfTwo(head: string, a: string, b: string, body: string)
    ensures head + a + b + ['\n'] + body == head + (a + b) + ['\n'] + body
  {
    assert head + a + b == head + (a + b);
  }

  /** StompProtocol, as far as join, exit and RECEIPT are concerned. */
  class StompClient {
    var id: nat
    var recipt: nat
    var channelToUniqueId: map<string, nat>
    var receiptToOriginalMsg: map<nat, string>

    function View(): State
      reads this
    {
      State(id, recipt, channelToUniqueId, receiptToOriginalMsg)
    }

    constructor ()
      ensures View() == INITIAL_STATE
    {
      id, recipt, channelToUniqueId, receiptToOriginalMsg := 0, 0, map[], map[];
    }

    /** std::map::insert. */
    method RememberRequest(msg: string)
      modifies this`receiptToOriginalMsg
      ensures receiptToOriginalMsg == if recipt in old(receiptToOriginalMsg) then old(receiptToOriginalMsg)
                                      else old(receiptToOriginalMsg)[recipt := msg]
    {
      if recipt !in receiptToOriginalMsg {
        receiptToOriginalMsg := receiptToOriginalMsg[recipt := msg];
      }
    }

    method HandleSubscribe(name: string) returns (message: string)
      modifies this
      ensures (View(), message) == Join(old(View()), name)
    {
      message := "SUBSCRIBE" + ['\n'];
      message := message + Entry("destination", "/" + name);
      if name in channelToUniqueId {
        message := message + Entry("id", Decimal(channelToUniqueId[name]));
        assert channelToUniqueId[name := channelToUniqueId[name]] == channelToUniqueId;
      } else {
        message := message + Entry("id", Decimal(id));
        channelToUniqueId := channelToUniqueId[name := id];
        id := id + 1;
      }
      message := message + Entry("receipt", Decimal(recipt));
      RememberRequest("SUBSCRIBE" + [':'] + name);
      recipt := recipt + 1;
      message := message + ['\n'];
      message := message + CARET_AT;
      ghost var a, b, c := Entry("destination", "/" + name), Entry("id", Decimal(channelToUniqueId[name])),
                           Entry("receipt", Decimal(recipt - 1));
      LinesOfThree(("destination", "/" + name), ("id", Decimal(channelToUniqueId[name])),
                   ("receipt", Decimal(recipt - 1)));
      PartsOfThree("SUBSCRIBE" + ['\n'], a, b, c, CARET_AT);
    }

    method HandleUnSubscribe(name: string) returns (message: string)
      requires name in channelToUniqueId
      modifies this
      ensures (View(), message) == Exit(old(View()), name)
    {
      message := "UNSUBSCRIBE" + ['\n'];
      message := message + Entry("id", Decimal(channelToUniqueId[name]));
      message := message + Entry("receipt", Decimal(recipt));
      RememberRequest("UNSUBSCRIBE" + [':'] + name);
      recipt := recipt + 1;
      message := message + ['\n'];
      message := message + CARET_AT;
      ghost var a, b := Entry("id", Decimal(channelToUniqueId[name])), Entry("receipt", Decimal(recipt - 1));
      LinesOfTwo(("id", Decimal(channelToUniqueId[name])), ("receipt", Decimal(recipt - 1)));
      PartsOfTwo("UNSUBSCRIBE" + ['\n'], a, b, CARET_AT);
    }
  }

  lemma LinesOfTwo(a: Header, b: Header)
    ensures HeaderLines([a, b]) == Entry(a.0, a.1) + Entry(b.0, b.1)
  {
    assert [a, b] == [a] + [b];
    LinesAppend([a], [b]);
    LinesOfOne(a.0, a.1);
    LinesOfOne(b.0, b.1);
  }

  /* ---- What the server's parser makes of the client's texts ---- */

  lemma NumberWellFormed(k: string, n: nat)
    requires ':' !in k && '\n' !in k
    ensures WellFormed((k, Decimal(n)))
  {
  }

  lemma NameWellFormed(name: string)
    requires Token(name)
    ensures WellFormed(("destination", "/" + name))
  {
    assert ':' !in "destination" && '\n' !in "destination";
  }

  lemma PutThree(m: Headers, a: Header, b: Header, c: Header)
    ensures PutAll(m, [a, b, c]) == m[a.0 := a.1][b.0 := b.1][c.0 := c.1]
  {
    assert [a, b, c] == [a, b] + [c];
    PutLast(m, [a, b], c);
    PutTwo(m, a, b);
  }

  lemma PutTwo(m: Headers, a: Header, b: Header)
    ensures PutAll(m, [a, b]) == m[a.0 := a.1][b.0 := b.1]
  {
    assert [a, b] == [a] + [b] && [a] == [] + [a];
    PutLast(m, [a], b);
    PutLast(m, [], a);
  }

  lemma ServerReadsSubscribe(name: string, id: nat, recipt: nat)
    requires Token(name)
    ensures JavaParse(SubscribeText(name, id, recipt))
            == Parsed(map[COMMAND := "SUBSCRIBE", "destination" := "/" + name, "id" := Decimal(id),
                          "receipt" := Decimal(recipt), BODY := CARET_AT])
  {
    var hs := [("destination", "/" + name), ("id", Decimal(id)), ("receipt", Decimal(recipt))];
    assert ':' !in "id" && '\n' !in "id" && ':' !in "receipt" && '\n' !in "receipt" && '\n' !in "SUBSCRIBE";
    NameWellFormed(name);
    NumberWellFormed("id", id);
    NumberWellFormed("receipt", recipt);
    JavaReadsFrame("SUBSCRIBE", hs, CARET_AT);
    PutThree(map[COMMAND := "SUBSCRIBE"], hs[0], hs[1], hs[2]);
  }

  lemma ServerReadsUnsubscribe(id: nat, recipt: nat)
    ensures JavaParse(UnsubscribeText(id, recipt))
            == Parsed(map[COMMAND := "UNSUBSCRIBE", "id" := Decimal(id), "receipt" := Decimal(recipt),
                          BODY := CARET_AT])
  {
    var hs := [("id", Decimal(id)), ("receipt", Decimal(recipt))];
    assert ':' !in "id" && '\n' !in "id" && ':' !in "receipt" && '\n' !in "receipt" && '\n' !in "UNSUBSCRIBE";
    NumberWellFormed("id", id);
    NumberWellFormed("receipt", recipt);
    JavaReadsFrame("UNSUBSCRIBE", hs, CARET_AT);
    PutTwo(map[COMMAND := "UNSUBSCRIBE"], hs[0], hs[1]);
  }

  /** The tag of a remembered request splits back into its kind and channel. */
  lemma TagSplits(kind: string, name: string)
    requires ':' !in kind && Token(name)
    ensures CppSplit(kind + [':'] + name, ':') == [kind, name]
  {
    FieldsOfPair(kind, name);
  }
}
