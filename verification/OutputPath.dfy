/** The writing half of the reactor (NonBlockingConnectionHandler.send and continueWrite,
    Reactor.serve and updateInterestedOps) as a state machine.

    Any number of producers append encoded messages to the write queues of any number of open
    channels; one selector thread drains them under partial writes. A producer's call of
    updateInterestedOps is two steps, the selectorTasks.add and the wakeup; continueWrite has a
    program counter for each of its accesses, so a producer can act between its second isEmpty
    and its switch back to OP_READ. */
module OutputPath {
  import opened NulFraming

  type ChanId = nat
  type Tid = nat

  /** A ByteBuffer wrapping an encoded message. */
  datatype OutBuf = OutBuf(bytes: string, pos: nat)

  /** An open channel: its write queue, whether its key's interest ops contain OP_WRITE, and as
      history the bytes written to it and the messages appended to its queue. */
  datatype Channel = Channel(queue: seq<OutBuf>, writeInterest: bool, written: string, sent: seq<string>)

  datatype Producer = Idle | Added(chan: ChanId) | TaskQueued

  /** A selected key, with the readiness select reported. */
  datatype Key = Key(chan: ChanId, writable: bool)

  datatype Selector =
    | Selecting
    | Draining(keys: seq<Key>)
    | Handling(keys: seq<Key>)
    | TestQueue(chan: ChanId, keys: seq<Key>)
    | WriteTop(chan: ChanId, keys: seq<Key>)
    | TestTop(chan: ChanId, keys: seq<Key>)
    | RemoveTop(chan: ChanId, keys: seq<Key>)
    | Retest(chan: ChanId, keys: seq<Key>)
    | SwitchToRead(chan: ChanId, keys: seq<Key>)

  /** selectorTasks holds the channels whose interest ops a queued task will set to
      OP_READ | OP_WRITE; wakeup is the selector's wakeup token. */
  datatype State = State(
    chans: map<ChanId, Channel>,
    selectorTasks: seq<ChanId>,
    wakeup: bool,
    selector: Selector,
    producers: map<Tid, Producer>)

  /** Append and its two successors are a producer's steps, the others the selector's. Select
      returns with some ready keys; Advance is the selector's next access; written is how many
      bytes the channel accepts. */
  datatype Step =
    | Append(tid: Tid, chan: ChanId, bytes: string)
    | AddTask(tid: Tid)
    | Wakeup(tid: Tid)
    | Select(keys: seq<Key>)
    | Advance(accepted: nat)

  predicate LegalKeys(s: State, keys: seq<Key>) {
    && (forall i :: 0 <= i < |keys| ==> keys[i].chan in s.chans)
    && (forall i :: 0 <= i < |keys| && keys[i].writable ==> s.chans[keys[i].chan].writeInterest)
  }

  function Remaining(b: OutBuf): int {
    |b.bytes| - b.pos
  }

  predicate Enabled(s: State, st: Step) {
    match st
    case Append(t, c, _) => t in s.producers && s.producers[t].Idle? && c in s.chans
    case AddTask(t) => t in s.producers && s.producers[t].Added?
    case Wakeup(t) => t in s.producers && s.producers[t].TaskQueued?
    case Select(keys) => s.selector.Selecting? && (s.wakeup || keys != []) && LegalKeys(s, keys)
    case Advance(n) =>
      && !s.selector.Selecting?
      && (s.selector.Draining? && s.selectorTasks != [] ==> s.selectorTasks[0] in s.chans)
      && (s.selector.Handling? && s.selector.keys != [] ==> s.selector.keys[0].chan in s.chans)
      && (!s.selector.Draining? && !s.selector.Handling? ==> s.selector.chan in s.chans)
      && (s.selector.WriteTop? || s.selector.TestTop? || s.selector.RemoveTop? ==>
           s.chans[s.selector.chan].queue != [])
      && (s.selector.WriteTop? ==>
           var top := s.chans[s.selector.chan].queue[0]; top.pos + n <= |top.bytes|)
  }

  function Next(s: State, st: Step): State
    requires Enabled(s, st)
  {
    match st
    case Append(t, c, bytes) =>
      var ch := s.chans[c];
      s.(chans := s.chans[c := ch.(queue := ch.queue + [OutBuf(bytes, 0)], sent := ch.sent + [bytes])],
         producers := s.producers[t := Added(c)])
    case AddTask(t) =>
      s.(selectorTasks := s.selectorTasks + [s.producers[t].chan], producers := s.producers[t := TaskQueued])
    case Wakeup(t) =>
      s.(wakeup := true, producers := s.producers[t := Idle])
    case Select(keys) =>
      s.(wakeup := false, selector := Draining(keys))
    case Advance(n) => Advanced(s, n)
  }

  function Advanced(s: State, n: nat): State
    requires Enabled(s, Advance(n))
  {
    match s.selector
    case Draining(keys) =>
      if s.selectorTasks == [] then s.(selector := Handling(keys))
      else
        var c := s.selectorTasks[0];
        s.(selectorTasks := s.selectorTasks[1..], chans := s.chans[c := s.chans[c].(writeInterest := true)])
    case Handling(keys) =>
      s.(selector := if keys == [] then Selecting
                     else if keys[0].writable then TestQueue(keys[0].chan, keys[1..])
                     else Handling(keys[1..]))
    case TestQueue(c, keys) =>
      s.(selector := if s.chans[c].queue == [] then Retest(c, keys) else WriteTop(c, keys))
    case WriteTop(c, keys) =>
      var ch := s.chans[c];
      var top := ch.queue[0];
      s.(chans := s.chans[c := ch.(queue := ch.queue[0 := OutBuf(top.bytes, top.pos + n)],
                                   written := ch.written + top.bytes[top.pos..top.pos + n])],
         selector := TestTop(c, keys))
    case TestTop(c, keys) =>
      s.(selector := if Remaining(s.chans[c].queue[0]) > 0 then Handling(keys) else RemoveTop(c, keys))
    case RemoveTop(c, keys) =>
      s.(chans := s.chans[c := s.chans[c].(queue := s.chans[c].queue[1..])], selector := TestQueue(c, keys))
    case Retest(c, keys) =>
      s.(selector := if s.chans[c].queue == [] then SwitchToRead(c, keys) else Handling(keys))
    case SwitchToRead(c, keys) =>
      s.(chans := s.chans[c := s.chans[c].(writeInterest := false)], selector := Handling(keys))
  }

  predicate Init(s: State) {
    && (forall c :: c in s.chans ==> s.chans[c] == Channel([], false, "", []))
    && s.selectorTasks == [] && !s.wakeup && s.selector.Selecting?
    && (forall t :: t in s.producers ==> s.producers[t].Idle?)
  }

  ghost predicate IsRun(b: seq<State>, steps: seq<Step>) {
    && |b| == |steps| + 1
    && Init(b[0])
    && forall i :: 0 <= i < |steps| ==> Enabled(b[i], steps[i]) && b[i + 1] == Next(b[i], steps[i])
  }

  /* ---- The invariant ---- */

  /** The queue holds the messages not yet completely written, the first one partly. */
  ghost predicate QueueInv(ch: Channel) {
    && |ch.queue| <= |ch.sent|
    && (forall i :: 0 <= i < |ch.queue| ==> ch.queue[i].bytes == ch.sent[|ch.sent| - |ch.queue| + i])
    && (forall i :: 0 < i < |ch.queue| ==> ch.queue[i].pos == 0)
    && (ch.queue != [] ==> ch.queue[0].pos <= |ch.queue[0].bytes|)
    && ch.written == Joined(ch.sent[..|ch.sent| - |ch.queue|])
                     + (if ch.queue == [] then "" else ch.queue[0].bytes[..ch.queue[0].pos])
  }

  /** Someone will still set the write interest of c: a queued task, or a producer about to queue one. */
  ghost predicate Owed(s: State, c: ChanId) {
    c in s.selectorTasks || exists t :: t in s.producers && s.producers[t] == Added(c)
  }

  ghost predicate ChanInv(s: State, c: ChanId) {
    c in s.chans ==>
      && QueueInv(s.chans[c])
      && (s.chans[c].queue != [] ==> s.chans[c].writeInterest || Owed(s, c))
      && (s.selector.SwitchToRead? && s.selector.chan == c && s.chans[c].queue != [] ==> Owed(s, c))
  }

  ghost predicate TokenInv(s: State) {
    s.selectorTasks != [] ==>
      s.wakeup || s.selector.Draining? || exists t :: t in s.producers && s.producers[t].TaskQueued?
  }

  ghost predicate SelectorInv(s: State) {
    && (forall i :: 0 <= i < |s.selectorTasks| ==> s.selectorTasks[i] in s.chans)
    && (forall t :: t in s.producers && s.producers[t].Added? ==> s.producers[t].chan in s.chans)
    && (!s.selector.Selecting? ==> forall i :: 0 <= i < |s.selector.keys| ==> s.selector.keys[i].chan in s.chans)
    && (!s.selector.Selecting? && !s.selector.Draining? && !s.selector.Handling? ==> s.selector.chan in s.chans)
    && (s.selector.WriteTop? || s.selector.TestTop? || s.selector.RemoveTop? ==>
         s.chans[s.selector.chan].queue != [])
    && (s.selector.RemoveTop? ==> Remaining(s.chans[s.selector.chan].queue[0]) <= 0)
  }

  ghost predicate Inv(s: State) {
    TokenInv(s) && SelectorInv(s) && forall c :: ChanInv(s, c)
  }

  lemma AppendKeepsQueue(ch: Channel, bytes: string)
    requires QueueInv(ch)
    ensures QueueInv(ch.(queue := ch.queue + [OutBuf(bytes, 0)], sent := ch.sent + [bytes]))
  {
    var k := |ch.sent| - |ch.queue|;
    assert (ch.sent + [bytes])[..k] == ch.sent[..k];
  }

  lemma WriteKeepsQueue(ch: Channel, n: nat)
    requires QueueInv(ch) && ch.queue != [] && ch.queue[0].pos + n <= |ch.queue[0].bytes|
    ensures var top := ch.queue[0];
            QueueInv(ch.(queue := ch.queue[0 := OutBuf(top.bytes, top.pos + n)],
                         written := ch.written + top.bytes[top.pos..top.pos + n]))
  {
    var top := ch.queue[0];
    assert top.bytes[..top.pos + n] == top.bytes[..top.pos] + top.bytes[top.pos..top.pos + n];
  }

  lemma RemoveKeepsQueue(ch: Channel)
    requires QueueInv(ch) && ch.queue != [] && Remaining(ch.queue[0]) <= 0
    ensures QueueInv(ch.(queue := ch.queue[1..]))
  {
    var k := |ch.sent| - |ch.queue|;
    assert ch.sent[..k + 1] == ch.sent[..k] + [ch.sent[k]];
    JoinedAppend(ch.sent[..k], ch.sent[k]);
    assert ch.queue[0].bytes[..ch.queue[0].pos] == ch.sent[k];
  }

  lemma ProducerStep(s: State, st: Step)
    requires Inv(s) && Enabled(s, st) && (st.Append? || st.AddTask? || st.Wakeup?)
    ensures Inv(Next(s, st))
  {
    var s' := Next(s, st);
    if st.Append? {
      assert ChanInv(s, st.chan);
      AppendKeepsQueue(s.chans[st.chan], st.bytes);
      assert s'.producers[st.tid] == Added(st.chan);
    } else if st.AddTask? {
      assert s'.producers[st.tid].TaskQueued?;
    }
    if s.selectorTasks != [] && !s.wakeup && !s.selector.Draining? && !st.Wakeup? {
      var t :| t in s.producers && s.producers[t].TaskQueued?;
      assert s'.producers[t].TaskQueued?;
    }
    forall c ensures ChanInv(s', c) {
      assert ChanInv(s, c);
      if Owed(s, c) { OwedKept(s, st, c); }
    }
  }

  lemma OwedKept(s: State, st: Step, c: ChanId)
    requires Inv(s) && Enabled(s, st) && (st.Append? || st.AddTask? || st.Wakeup?) && Owed(s, c)
    ensures Owed(Next(s, st), c)
  {
    var s' := Next(s, st);
    if c in s.selectorTasks {
    } else {
      var t :| t in s.producers && s.producers[t] == Added(c);
      if t == st.tid {
        assert s'.selectorTasks[|s.selectorTasks|] == c;
      } else {
        assert s'.producers[t] == Added(c);
      }
    }
  }

  /** Running the task at the head of selectorTasks. */
  lemma DrainStep(s: State, n: nat)
    requires Inv(s) && Enabled(s, Advance(n)) && s.selector.Draining? && s.selectorTasks != []
    ensures Inv(Next(s, Advance(n)))
  {
    var s' := Next(s, Advance(n));
    forall c ensures ChanInv(s', c) {
      assert ChanInv(s, c);
      if Owed(s, c) && c != s.selectorTasks[0] {
        if c in s.selectorTasks {
          var i :| 0 <= i < |s.selectorTasks| && s.selectorTasks[i] == c;
          assert s'.selectorTasks[i - 1] == c;
        } else {
          var t :| t in s.producers && s.producers[t] == Added(c);
          assert s'.producers[t] == Added(c);
        }
      }
    }
  }

  /** Any other step of the selector leaves selectorTasks and the producers alone. */
  lemma SelectorStep(s: State, st: Step)
    requires Inv(s) && Enabled(s, st) && (st.Select? || st.Advance?)
    requires !(s.selector.Draining? && s.selectorTasks != [])
    ensures Inv(Next(s, st))
  {
    var s' := Next(s, st);
    assert s'.selectorTasks == s.selectorTasks && s'.producers == s.producers;
    forall c ensures ChanInv(s', c) {
      assert ChanInv(s, c);
      SelectorChannel(s, st, c);
    }
    if s.selectorTasks != [] && !s.wakeup && !s.selector.Draining? && st.Advance? {
      var t :| t in s.producers && s.producers[t].TaskQueued?;
      assert s'.producers[t].TaskQueued?;
    }
    SelectorAdvance(s, st);
  }

  lemma SelectorAdvance(s: State, st: Step)
    requires SelectorInv(s) && Enabled(s, st) && (st.Select? || st.Advance?)
    requires !(s.selector.Draining? && s.selectorTasks != [])
    ensures SelectorInv(Next(s, st))
  {
  }

  lemma WriteChannel(s: State, n: nat, c: ChanId)
    requires SelectorInv(s) && ChanInv(s, c) && Enabled(s, Advance(n)) && s.selector.WriteTop?
    ensures ChanInv(Next(s, Advance(n)), c)
  {
    if c in s.chans {
      if Owed(s, c) { SameOwed(s, Next(s, Advance(n)), c); }
      if s.selector.chan == c { WriteKeepsQueue(s.chans[c], n); }
    }
  }

  lemma RemoveChannel(s: State, n: nat, c: ChanId)
    requires SelectorInv(s) && ChanInv(s, c) && Enabled(s, Advance(n)) && s.selector.RemoveTop?
    ensures ChanInv(Next(s, Advance(n)), c)
  {
    if c in s.chans {
      if Owed(s, c) { SameOwed(s, Next(s, Advance(n)), c); }
      if s.selector.chan == c { RemoveKeepsQueue(s.chans[c]); }
    }
  }

  lemma SwitchChannel(s: State, n: nat, c: ChanId)
    requires SelectorInv(s) && ChanInv(s, c) && Enabled(s, Advance(n)) && s.selector.SwitchToRead?
    ensures ChanInv(Next(s, Advance(n)), c)
  {
    if c in s.chans && Owed(s, c) { SameOwed(s, Next(s, Advance(n)), c); }
  }

  lemma SelectorChannel(s: State, st: Step, c: ChanId)
    requires SelectorInv(s) && ChanInv(s, c) && Enabled(s, st) && (st.Select? || st.Advance?)
    requires !(s.selector.Draining? && s.selectorTasks != [])
    ensures ChanInv(Next(s, st), c)
  {
    if st.Advance? && s.selector.WriteTop? {
      WriteChannel(s, st.accepted, c);
    } else if st.Advance? && s.selector.RemoveTop? {
      RemoveChannel(s, st.accepted, c);
    } else if st.Advance? && s.selector.SwitchToRead? {
      SwitchChannel(s, st.accepted, c);
    } else {
      SameChannels(s, st);
      if c in s.chans { LooksOnly(s, Next(s, st), c); }
    }
  }

  lemma SameChannels(s: State, st: Step)
    requires Enabled(s, st) && (st.Select? || st.Advance?) && !(s.selector.Draining? && s.selectorTasks != [])
    requires st.Advance? ==> !s.selector.WriteTop? && !s.selector.RemoveTop? && !s.selector.SwitchToRead?
    ensures Next(s, st).chans == s.chans
    ensures Next(s, st).selectorTasks == s.selectorTasks && Next(s, st).producers == s.producers
    ensures var u := Next(s, st).selector; u.SwitchToRead? ==> u.chan in s.chans && s.chans[u.chan].queue == []
  {
  }

  lemma LooksOnly(s: State, s': State, c: ChanId)
    requires ChanInv(s, c) && c in s.chans && s'.chans == s.chans
    requires s'.selectorTasks == s.selectorTasks && s'.producers == s.producers
    requires s'.selector.SwitchToRead? ==> s'.selector.chan in s.chans && s.chans[s'.selector.chan].queue == []
    ensures ChanInv(s', c)
  {
    if Owed(s, c) { SameOwed(s, s', c); }
  }

  lemma SameOwed(s: State, s': State, c: ChanId)
    requires s'.selectorTasks == s.selectorTasks && s'.producers == s.producers && Owed(s, c)
    ensures Owed(s', c)
  {
    if c !in s.selectorTasks {
      var t :| t in s.producers && s.producers[t] == Added(c);
      assert s'.producers[t] == Added(c);
    }
  }

  lemma InvStep(s: State, st: Step)
    requires Inv(s) && Enabled(s, st)
    ensures Inv(Next(s, st))
  {
    if st.Append? || st.AddTask? || st.Wakeup? {
      ProducerStep(s, st);
    } else if s.selector.Draining? && s.selectorTasks != [] {
      DrainStep(s, st.accepted);
    } else {
      SelectorStep(s, st);
    }
  }

  lemma {:induction false} RunsKeepInv(b: seq<State>, steps: seq<Step>, i: nat)
    requires IsRun(b, steps) && i < |b|
    ensures Inv(b[i])
  {
    if i > 0 {
      RunsKeepInv(b, steps, i - 1);
      InvStep(b[i - 1], steps[i - 1]);
    }
  }

  /* ---- What the writing half promises ---- */

  /** The encodings still queued, in queue order, without the bytes already written. */
  function Queued(queue: seq<OutBuf>): string
    requires forall i :: 0 <= i < |queue| ==> queue[i].pos <= |queue[i].bytes|
  {
    if queue == [] then "" else Queued(queue[..|queue| - 1]) + queue[|queue| - 1].bytes[queue[|queue| - 1].pos..]
  }

  lemma QueuedAppend(q: seq<OutBuf>, last: OutBuf)
    requires last.pos <= |last.bytes| && forall i :: 0 <= i < |q| ==> q[i].pos <= |q[i].bytes|
    ensures Queued(q + [last]) == Queued(q) + last.bytes[last.pos..]
  {
    assert (q + [last])[..|q|] == q;
  }

  lemma CutOnce(before: string, bytes: string, pos: nat)
    requires pos <= |bytes|
    ensures (before + bytes[..pos]) + bytes[pos..] == before + bytes
  {
    assert bytes == bytes[..pos] + bytes[pos..];
  }

  /** The first message queued is the written part of it and the rest. */
  lemma FirstQueued(ch: Channel)
    requires QueueInv(ch) && ch.queue != []
    ensures var r := |ch.sent| - |ch.queue|;
            ch.written + Queued([ch.queue[0]]) == Joined(ch.sent[..r]) + ch.queue[0].bytes
  {
    var first := ch.queue[0];
    assert [] + [first] == [first];
    QueuedAppend([], first);
    CutOnce(Joined(ch.sent[..|ch.sent| - |ch.queue|]), first.bytes, first.pos);
  }

  lemma OneMoreQueued(written: string, q: seq<OutBuf>, last: OutBuf, texts: seq<string>)
    requires last.pos == 0 && forall i :: 0 <= i < |q| ==> q[i].pos <= |q[i].bytes|
    requires written + Queued(q) == Joined(texts)
    ensures written + Queued(q + [last]) == Joined(texts + [last.bytes])
  {
    QueuedAppend(q, last);
    JoinedAppend(texts, last.bytes);
    assert last.bytes[0..] == last.bytes;
    assert written + (Queued(q) + last.bytes) == (written + Queued(q)) + last.bytes;
  }

  lemma {:induction false} WrittenAndQueued(ch: Channel, k: nat)
    requires QueueInv(ch) && |ch.sent| - |ch.queue| <= k <= |ch.sent|
    requires ch.queue != [] ==> |ch.sent| - |ch.queue| < k
    ensures var q := ch.queue[..k - (|ch.sent| - |ch.queue|)];
            ch.written + Queued(q) == Joined(ch.sent[..k])
    decreases k
  {
    var r := |ch.sent| - |ch.queue|;
    if ch.queue != [] {
      var last := ch.queue[k - 1 - r];
      assert ch.sent[..k] == ch.sent[..k - 1] + [last.bytes];
      if k == r + 1 {
        FirstQueued(ch);
        assert ch.queue[..1] == [last];
        JoinedAppend(ch.sent[..r], last.bytes);
      } else {
        WrittenAndQueued(ch, k - 1);
        assert ch.queue[..k - r] == ch.queue[..k - 1 - r] + [last];
        OneMoreQueued(ch.written, ch.queue[..k - 1 - r], last, ch.sent[..k - 1]);
      }
    }
  }

  /* ---- The histories against the steps ---- */

  /** The messages given to send for channel c, in the order of the calls. */
  function Given(steps: seq<Step>, c: ChanId): seq<string> {
    if steps == [] then []
    else
      var st := steps[|steps| - 1];
      Given(steps[..|steps| - 1], c) + (if st.Append? && st.chan == c then [st.bytes] else [])
  }

  /** How many bytes channel c accepted in the step. */
  function AcceptedBy(s: State, st: Step, c: ChanId): nat {
    if st.Advance? && s.selector.WriteTop? && s.selector.chan == c then st.accepted else 0
  }

  /** How many bytes channel c accepted in the first i steps. */
  function Accepted(b: seq<State>, steps: seq<Step>, i: nat, c: ChanId): nat
    requires i <= |steps| <= |b|
  {
    if i == 0 then 0 else Accepted(b, steps, i - 1, c) + AcceptedBy(b[i - 1], steps[i - 1], c)
  }

  /** A step adds to the histories what it was given, and closes no channel. */
  ghost predicate Recorded(s: State, st: Step, s': State, c: ChanId) {
    && (c in s'.chans <==> c in s.chans)
    && (c in s.chans ==>
         && s'.chans[c].sent == s.chans[c].sent + (if st.Append? && st.chan == c then [st.bytes] else [])
         && |s'.chans[c].written| == |s.chans[c].written| + AcceptedBy(s, st, c))
  }

  lemma AdvanceRecorded(s: State, n: nat, c: ChanId)
    requires Enabled(s, Advance(n))
    ensures Recorded(s, Advance(n), Advanced(s, n), c)
  {
  }

  lemma StepRecorded(s: State, st: Step, c: ChanId)
    requires Enabled(s, st)
    ensures Recorded(s, st, Next(s, st), c)
  {
    if st.Advance? { AdvanceRecorded(s, st.accepted, c); }
  }

  lemma RunRecorded(b: seq<State>, steps: seq<Step>, k: nat, c: ChanId)
    requires IsRun(b, steps) && k < |steps|
    ensures Recorded(b[k], steps[k], b[k + 1], c)
  {
    StepRecorded(b[k], steps[k], c);
  }

  lemma StartsEmpty(s: State, c: ChanId)
    requires Init(s)
    ensures c in s.chans ==> s.chans[c].sent == [] && s.chans[c].written == ""
  {
  }

  lemma {:induction false} HistoriesFromSteps(b: seq<State>, steps: seq<Step>, i: nat, c: ChanId)
    requires i <= |steps| < |b| && forall k :: 0 <= k < |steps| ==> Recorded(b[k], steps[k], b[k + 1], c)
    requires c in b[0].chans ==> b[0].chans[c].sent == [] && b[0].chans[c].written == ""
    ensures c in b[i].chans ==>
              b[i].chans[c].sent == Given(steps[..i], c) && |b[i].chans[c].written| == Accepted(b, steps, i, c)
  {
    if i > 0 {
      HistoriesFromSteps(b, steps, i - 1, c);
      assert Recorded(b[i - 1], steps[i - 1], b[i - 1 + 1], c);
      assert steps[..i][..i - 1] == steps[..i - 1];
    }
  }

  /** In every run the queue's history is the messages given to send, in the order of the calls, and the
      wire has as many bytes as the channel accepted. */
  lemma HistoriesAreTheSteps(b: seq<State>, steps: seq<Step>, i: nat, c: ChanId)
    requires IsRun(b, steps) && i < |b| && c in b[i].chans
    ensures b[i].chans[c].sent == Given(steps[..i], c) && |b[i].chans[c].written| == Accepted(b, steps, i, c)
  {
    StartsEmpty(b[0], c);
    forall k | 0 <= k < |steps| ensures Recorded(b[k], steps[k], b[k + 1], c) { RunRecorded(b, steps, k, c); }
    HistoriesFromSteps(b, steps, i, c);
  }

  /** The bytes written and the bytes still queued are together these messages, and the wire stands
      inside at most one of them. */
  ghost predicate Conserves(ch: Channel, given: seq<string>) {
    && |ch.queue| <= |given|
    && (forall k :: 0 <= k < |ch.queue| ==> ch.queue[k].pos <= |ch.queue[k].bytes|)
    && ch.written + Queued(ch.queue) == Joined(given)
    && (if ch.queue == [] then ch.written == Joined(given)
        else
          && ch.queue[0].pos <= |given[|given| - |ch.queue|]|
          && ch.written == Joined(given[..|given| - |ch.queue|]) + given[|given| - |ch.queue|][..ch.queue[0].pos])
  }

  lemma QueueConserves(ch: Channel)
    requires QueueInv(ch)
    ensures Conserves(ch, ch.sent)
  {
    WrittenAndQueued(ch, |ch.sent|);
    assert ch.sent[..|ch.sent|] == ch.sent && ch.queue[..|ch.queue|] == ch.queue;
  }

  /** Conservation: the bytes written and the bytes still queued are together exactly the encoded
      messages given to send, in the order of the calls, and the wire stands inside at most one. */
  lemma NothingLostOrTorn(b: seq<State>, steps: seq<Step>, i: nat, c: ChanId)
    requires IsRun(b, steps) && i < |b| && c in b[i].chans
    ensures Conserves(b[i].chans[c], Given(steps[..i], c))
    ensures |b[i].chans[c].written| == Accepted(b, steps, i, c)
  {
    RunsKeepInv(b, steps, i);
    HistoriesAreTheSteps(b, steps, i, c);
    assert ChanInv(b[i], c);
    QueueConserves(b[i].chans[c]);
  }

  lemma {:induction false} JoinedEncodings(texts: seq<string>, encoded: seq<string>)
    requires |encoded| == |texts| && forall k :: 0 <= k < |texts| ==> encoded[k] == Encode(texts[k])
    ensures Joined(encoded) == Wire(texts)
    decreases |texts|
  {
    if texts != [] { JoinedEncodings(texts[..|texts| - 1], encoded[..|texts| - 1]); }
  }

  /** When the calls of send so far gave the encodings of NUL-free texts, what the peer decodes from the
      wire is a prefix of those texts, in the order of the calls, and all of them once the queue is
      empty. */
  lemma PeerSeesPrefix(b: seq<State>, steps: seq<Step>, i: nat, c: ChanId, texts: seq<string>)
    requires IsRun(b, steps) && i < |b| && c in b[i].chans && |texts| == |Given(steps[..i], c)|
    requires forall k :: 0 <= k < |texts| ==> NUL !in texts[k] && Given(steps[..i], c)[k] == Encode(texts[k])
    ensures Segments(b[i].chans[c].written).frames <= texts
    ensures b[i].chans[c].queue == [] ==> Segments(b[i].chans[c].written).frames == texts
  {
    NothingLostOrTorn(b, steps, i, c);
    var ch := b[i].chans[c];
    JoinedEncodings(texts, Given(steps[..i], c));
    assert ch.written <= ch.written + Queued(ch.queue);
    PrefixOfWire(ch.written, texts);
  }

  /** The selector thread can only be waiting in select, and no producer is inside send. */
  predicate AtRest(s: State) {
    s.selector.Selecting? && !s.wakeup && forall t :: t in s.producers ==> s.producers[t].Idle?
  }

  /** No lost wakeup: when the selector waits in select without a wakeup token and no producer is
      active, every channel with unwritten output has its write interest set, so select returns as
      soon as that channel can take a byte; and a channel without it has everything written. */
  lemma NoLostWakeup(b: seq<State>, steps: seq<Step>, i: nat, c: ChanId)
    requires IsRun(b, steps) && i < |b| && c in b[i].chans && AtRest(b[i])
    ensures b[i].chans[c].queue != [] ==>
              b[i].chans[c].writeInterest && Enabled(b[i], Select([Key(c, true)]))
    ensures !b[i].chans[c].writeInterest ==> b[i].chans[c].written == Joined(Given(steps[..i], c))
  {
    RunsKeepInv(b, steps, i);
    assert ChanInv(b[i], c);
    NothingLostOrTorn(b, steps, i, c);
  }

  /** continueWrite on a drained queue, undisturbed: three accesses later the write interest is off, and
      the selector goes on with the next key. */
  lemma DrainedGoesQuiet(s: State)
    requires s.selector.TestQueue? && s.selector.chan in s.chans && s.chans[s.selector.chan].queue == []
    ensures var s1 := Next(s, Advance(0));
            Enabled(s1, Advance(0)) && Enabled(Next(s1, Advance(0)), Advance(0))
    ensures var s3 := Next(Next(Next(s, Advance(0)), Advance(0)), Advance(0));
            var ch := s.chans[s.selector.chan];
            && s3.chans == s.chans[s.selector.chan := ch.(writeInterest := false)]
            && s3.selector == Handling(s.selector.keys)
            && s3 == s.(chans := s3.chans, selector := s3.selector)
  {
  }

  /** A partial write ends continueWrite with the rest still queued and the write interest as it was. */
  lemma PartialWriteWaits(s: State, n: nat)
    requires s.selector.WriteTop? && Enabled(s, Advance(n))
    requires n < Remaining(s.chans[s.selector.chan].queue[0])
    ensures Enabled(Next(s, Advance(n)), Advance(0))
    ensures var c, top := s.selector.chan, s.chans[s.selector.chan].queue[0];
            var s2 := Next(Next(s, Advance(n)), Advance(0));
            && s2.selector == Handling(s.selector.keys) && s2.chans[c].writeInterest == s.chans[c].writeInterest
            && s2.chans[c].written == s.chans[c].written + top.bytes[top.pos..top.pos + n]
            && |s2.chans[c].queue| == |s.chans[c].queue|
            && s2.chans[c].queue[0].bytes[s2.chans[c].queue[0].pos..] == top.bytes[top.pos + n..]
  {
  }

  /** No wakeup is dropped on the way: a task waiting in selectorTasks always has a token, a selector
      that is draining, or a producer about to call wakeup. */
  lemma QueuedTaskHasWakeup(b: seq<State>, steps: seq<Step>, i: nat)
    requires IsRun(b, steps) && i < |b| && b[i].selectorTasks != []
    ensures b[i].wakeup || b[i].selector.Draining? || exists t :: t in b[i].producers && b[i].producers[t].TaskQueued?
  {
    RunsKeepInv(b, steps, i);
  }

  /** The selector is never stuck inside its loop, in particular peek and remove find the queue
      non-empty. */
  lemma SelectorNeverStuck(b: seq<State>, steps: seq<Step>, i: nat)
    requires IsRun(b, steps) && i < |b| && !b[i].selector.Selecting?
    ensures Enabled(b[i], Advance(0))
  {
    RunsKeepInv(b, steps, i);
    if b[i].selector.WriteTop? { assert ChanInv(b[i], b[i].selector.chan); }
  }
}
