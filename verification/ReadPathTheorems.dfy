/** What the reading half of the reactor promises, for every interleaving of the selector thread,
    submit, complete and the workers. */
module ReadPathTheorems {
  import P = ActorPool
  import T = ActorPoolTheorems
  import F = Frames
  import opened NulFraming
  import opened ReadPath
  import opened ReadPathInvariant
  import opened ReadPathHistory

  /** Everything read for a has been decoded: nothing is with the selector or unfinished. */
  predicate Quiescent(s: State, a: Act) {
    s.sel.Idle? && s.selector in s.pool.pcs && s.pool.pcs[s.selector].Outside? && Fin(s, a) == Sub(s, a)
  }

  lemma {:induction false} ChunksPrefix(ts: seq<ReadTask>, us: seq<ReadTask>)
    requires ts <= us
    ensures Chunks(ts) <= Chunks(us)
    decreases |us|
  {
    if ts == us {
    } else {
      ChunksPrefix(ts, us[..|us| - 1]);
    }
  }

  lemma {:induction false} UsedInFull(ts: seq<ReadTask>, cuts: seq<Cut>)
    requires |ts| == |cuts| && forall k :: 0 <= k < |ts| ==> cuts[k].used == |ts[k].chunk|
    ensures Used(ts, cuts) == Chunks(ts)
    decreases |ts|
  {
    if ts != [] {
      var last := |ts| - 1;
      UsedInFull(ts[..last], cuts[..last]);
      assert ts[last].chunk[..|ts[last].chunk|] == ts[last].chunk;
    }
  }

  /** As long as no task has thrown, all have used their chunks in full. */
  lemma NothingDropped(s: State, a: Act, ts: seq<ReadTask>)
    requires Inv(s) && a in s.conns && !s.conns[a].threw && ts <= Sub(s, a) && |ts| == |s.conns[a].cuts|
    ensures Used(ts, s.conns[a].cuts) == Chunks(ts)
  {
    forall k | 0 <= k < |ts| ensures s.conns[a].cuts[k].used == |ts[k].chunk| { assert CutInv(s, a, k); }
    UsedInFull(ts, s.conns[a].cuts);
  }

  /** The tasks that have released their buffers, and the part of the next one's chunk that the
      decoder has taken. */
  ghost predicate Parts(s: State, a: Act) {
    a in s.conns ==>
      var c := s.conns[a];
      && |c.cuts| <= |Sub(s, a)|
      && c.consumed == Used(Sub(s, a)[..|c.cuts|], c.cuts) + NextPart(s, a)
      && (NextPart(s, a) == "" || (|c.cuts| < |Sub(s, a)| && NextPart(s, a) <= Sub(s, a)[|c.cuts|].chunk))
      && (Fin(s, a) == Sub(s, a) ==> |c.cuts| == |Sub(s, a)| && NextPart(s, a) == "")
  }

  lemma IdleParts(s: State, a: Act)
    requires Inv(s) && P.Current(s.pool, a) == []
    ensures Parts(s, a)
  {
    assert ConnInv(s, a);
    T.TakenBetween(s.pool, a);
    assert Sub(s, a)[..|Fin(s, a)|] == Fin(s, a);
  }

  lemma BodyParts(s: State, a: Act, t: Tid)
    requires a in s.conns && t in s.pool.pcs && s.pool.pcs[t].Running? && s.pool.pcs[t].act == a
    requires RunningInv(s, t) && a in s.pool.turn && s.pool.turn[a] == P.AtThread(t)
    requires |Fin(s, a)| < |Sub(s, a)| && Sub(s, a)[|Fin(s, a)|] == s.pool.pcs[t].run
    requires Sub(s, a)[..|Fin(s, a)|] == Fin(s, a)
    requires Sub(s, a)[..|Fin(s, a)| + 1] == Fin(s, a) + [s.pool.pcs[t].run]
    ensures Parts(s, a)
  {
  }

  lemma ConsumedParts(s: State, a: Act)
    requires Inv(s) && a in s.conns
    ensures Parts(s, a)
  {
    if P.Current(s.pool, a) == [] {
      IdleParts(s, a);
    } else {
      var t := s.pool.turn[a].tid;
      assert P.ActInv(s.pool, a) && RunningInv(s, t);
      RunnerFacts(s, t);
      T.TakenBetween(s.pool, a);
      PrefixOfSub(s, a);
      BodyParts(s, a, t);
    }
  }

  lemma PrefixOfSub(s: State, a: Act)
    requires Fin(s, a) <= Taken(s, a) <= Sub(s, a) && |Fin(s, a)| < |Sub(s, a)|
    ensures Sub(s, a)[..|Fin(s, a)|] == Fin(s, a)
    ensures Sub(s, a)[..|Fin(s, a)| + 1] == Fin(s, a) + [Sub(s, a)[|Fin(s, a)|]]
  {
  }

  /** What the decoder has taken of the chunk that is being decoded. */
  function NextPart(s: State, a: Act): string {
    if a in s.pool.turn && s.pool.turn[a].AtThread? && s.pool.turn[a].tid in s.pool.pcs
       && s.pool.pcs[s.pool.turn[a].tid].Running? && s.pool.turn[a].tid in s.bodies
    then
      var pc := s.pool.pcs[s.pool.turn[a].tid];
      match s.bodies[s.pool.turn[a].tid]
      case Looping => if pc.run.buf < |s.bufs| then Take(s.bufs[pc.run.buf].content, s.bufs[pc.run.buf].pos) else ""
      case Failed(used) => Take(pc.run.chunk, used)
      case Released(_) => ""
    else ""
  }

  lemma ChunksStep(ts: seq<ReadTask>, n: nat)
    requires n < |ts|
    ensures Chunks(ts[..n + 1]) == Chunks(ts[..n]) + ts[n].chunk
  {
    assert ts[..n + 1] == ts[..n] + [ts[n]];
    ChunksAppend(ts[..n], ts[n]);
  }

  /** What has been decoded is a prefix of what has been read. */
  lemma ConsumedIsPrefix(s: State, a: Act)
    requires Inv(s) && a in s.conns && !s.conns[a].threw
    ensures s.conns[a].consumed <= s.conns[a].read
    ensures Quiescent(s, a) ==> s.conns[a].consumed == s.conns[a].read
  {
    var n := |s.conns[a].cuts|;
    assert ConnInv(s, a);
    ConsumedParts(s, a);
    NothingDropped(s, a, Sub(s, a)[..n]);
    ChunksPrefix(Sub(s, a)[..n], Sub(s, a));
    if n < |Sub(s, a)| {
      ChunksStep(Sub(s, a), n);
      ChunksPrefix(Sub(s, a)[..n + 1], Sub(s, a));
    } else {
      assert Sub(s, a)[..n] == Sub(s, a);
    }
  }

  /** The reactor refines thread-per-client: as long as no step of a task of the connection has thrown,
      the frames handed to process are a prefix of the byte-by-byte decoding of the chunks its channel
      delivered, and at quiescence they, and the decoder's partial segment, are exactly that decoding. */
  lemma ReactorRefinesThreadPerClient(b: seq<State>, steps: seq<Step>, i: nat, a: Act)
    requires IsRun(b, steps) && i < |b| && a in b[i].conns
    requires forall k :: 0 <= k < i ==> !Fails(b[k], steps[k], a)
    ensures var c, decoded := b[i].conns[a], Segments(Joined(Arrived(steps[..i], a)));
            && c.handed <= decoded.frames
            && (Quiescent(b[i], a) ==> Split(c.handed, c.partial) == decoded)
  {
    ThrewExactly(b, steps, i, a);
    ReadIsWhatArrived(b, steps, i, a);
    RunsKeepInv(b, steps, i);
    assert ConnInv(b[i], a);
    ConsumedIsPrefix(b[i], a);
    HandedSoFar(b[i].conns[a]);
  }

  lemma HandedSoFar(c: ReadPath.Conn)
    requires Decodes(c) && !c.threw && c.consumed <= c.read
    ensures c.handed <= Segments(c.read).frames
    ensures c.consumed == c.read ==> Split(c.handed, c.partial) == Segments(c.read)
  {
    SegmentsGrow(c.consumed, c.read[|c.consumed|..]);
    assert c.read == c.consumed + c.read[|c.consumed|..];
  }

  /** When tasks throw: whatever has happened, process has been handed the decoding of what the
      decoder took, less the texts that built no frame. That is, for each chunk that arrived, in order,
      all of it, or the part up to where its task threw, and of the chunk now decoded the part so far. */
  lemma FailedTasksDropTheirRest(b: seq<State>, steps: seq<Step>, i: nat, a: Act)
    requires IsRun(b, steps) && i < |b| && a in b[i].conns
    ensures var c, n, chunks := b[i].conns[a], |b[i].conns[a].cuts|, Arrived(steps[..i], a);
            && n <= |Sub(b[i], a)| && ChunksOf(Sub(b[i], a)) <= chunks
            && c.handed == Built(Segments(c.consumed).frames) && c.partial == Segments(c.consumed).rest
            && c.consumed == Used(Sub(b[i], a)[..n], c.cuts) + NextPart(b[i], a)
            && (NextPart(b[i], a) == "" || (n < |Sub(b[i], a)| && NextPart(b[i], a) <= chunks[n]))
            && (forall k :: 0 <= k < n ==> CutOf(c.cuts[k], chunks[k]))
            && (Quiescent(b[i], a) ==> n == |chunks| && NextPart(b[i], a) == "")
  {
    RunsKeepInv(b, steps, i);
    ReadIsWhatArrived(b, steps, i, a);
    ConsumedParts(b[i], a);
    assert ConnInv(b[i], a);
    var chunks := Arrived(steps[..i], a);
    assert forall k :: 0 <= k < |Sub(b[i], a)| ==> chunks[k] == Sub(b[i], a)[k].chunk;
    forall k | 0 <= k < |b[i].conns[a].cuts| ensures CutOf(b[i].conns[a].cuts[k], chunks[k]) {
      assert CutInv(b[i], a, k);
    }
  }

  /* ---- From the client's texts to process ---- */

  /** The byte a task is about to decode, after those decoded, is part of what has been read. */
  lemma NextByteWasRead(s: State, t: Tid)
    requires Inv(s) && Enabled(s, GetByte(t, false)) && !s.conns[s.pool.pcs[t].act].threw
    ensures var c, b := s.conns[s.pool.pcs[t].act], s.bufs[s.pool.pcs[t].run.buf];
            c.consumed + [b.content[b.pos]] <= c.read
  {
    var a, b := s.pool.pcs[t].act, s.bufs[s.pool.pcs[t].run.buf];
    assert RunningInv(s, t) && ConnInv(s, a);
    RunnerFacts(s, t);
    T.TakenBetween(s.pool, a);
    PrefixOfSub(s, a);
    NothingDropped(s, a, Fin(s, a));
    ChunksStep(Sub(s, a), |Fin(s, a)|);
    ChunksPrefix(Sub(s, a)[..|Fin(s, a)| + 1], Sub(s, a));
    OneMore(Chunks(Fin(s, a)), b.content, b.pos);
    PrefixOfPart(Chunks(Fin(s, a)), b.content, b.pos + 1);
  }

  lemma PrefixOfPart(before: string, content: string, n: nat)
    requires n <= |content|
    ensures before + content[..n] <= before + content
  {
  }

  /** A complete text is one of those sent. */
  lemma TextWasSent(c: ReadPath.Conn, sent: seq<string>)
    requires Decodes(c) && c.consumed + [NUL] <= c.read && c.read <= Wire(sent)
    requires forall t :: t in sent ==> NUL !in t
    ensures c.partial in sent
  {
    PrefixOfWire(c.consumed + [NUL], sent);
    SegmentsAppend(c.consumed, NUL);
    var frames := Segments(c.consumed).frames;
    assert (frames + [c.partial])[|frames|] == c.partial;
    assert sent[|frames|] == c.partial;
  }

  /** The client of a has sent these texts, all of which build frames, and process has thrown on none. */
  ghost predicate CleanUpTo(b: seq<State>, steps: seq<Step>, i: nat, a: Act, sent: seq<string>)
    requires i <= |steps| < |b|
  {
    && (forall t :: t in sent ==> NUL !in t && F.JavaParse(t).Parsed?)
    && Joined(Arrived(steps[..i], a)) <= Wire(sent)
    && forall k :: 0 <= k < i ==> !Throwing(b[k], steps[k], a)
  }

  /** In an iteration of a task of a, process throws, or the decoder's array does. */
  predicate Throwing(s: State, st: Step, a: Act) {
    st.GetByte? && st.throws && st.tid in s.pool.pcs && s.pool.pcs[st.tid].Running? && s.pool.pcs[st.tid].act == a
  }

  lemma ArrivedGrows(steps: seq<Step>, k: nat, a: Act)
    requires k < |steps|
    ensures Joined(Arrived(steps[..k], a)) <= Joined(Arrived(steps[..k + 1], a))
  {
    var more := steps[..k + 1];
    assert more[..k] == steps[..k];
    if more[k].ReadChunk? && Serving(steps[..k]) == Some(a) { JoinedAppend(Arrived(steps[..k], a), more[k].chunk); }
  }

  lemma {:induction false} ArrivedStays(steps: seq<Step>, k: nat, i: nat, a: Act)
    requires k <= i <= |steps|
    ensures Joined(Arrived(steps[..k], a)) <= Joined(Arrived(steps[..i], a))
    decreases i
  {
    if k < i {
      ArrivedStays(steps, k, i - 1, a);
      ArrivedGrows(steps, i - 1, a);
    }
  }

  lemma CleanStep(s: State, st: Step, a: Act, sent: seq<string>)
    requires Inv(s) && Enabled(s, st) && a in s.conns && !s.conns[a].threw && s.conns[a].read <= Wire(sent)
    requires forall t :: t in sent ==> NUL !in t && F.JavaParse(t).Parsed?
    requires !Throwing(s, st, a)
    ensures !Fails(s, st, a)
  {
    if st.GetByte? && s.pool.pcs[st.tid].act == a {
      assert ConnInv(s, a);
      NextByteWasRead(s, st.tid);
      var b := s.bufs[s.pool.pcs[st.tid].run.buf];
      if b.content[b.pos] == NUL { TextWasSent(s.conns[a], sent); }
    }
  }

  /** The first step to fail is not step k. */
  ghost predicate NotFirst(b: seq<State>, steps: seq<Step>, k: nat, a: Act)
    requires k < |steps| <= |b|
  {
    (forall m :: 0 <= m < k ==> !Fails(b[m], steps[m], a)) ==> !Fails(b[k], steps[k], a)
  }

  lemma {:induction false} NoFirstNone(b: seq<State>, steps: seq<Step>, i: nat, a: Act)
    requires i <= |steps| <= |b| && forall k :: 0 <= k < i ==> NotFirst(b, steps, k, a)
    ensures forall k :: 0 <= k < i ==> !Fails(b[k], steps[k], a)
  {
    if i > 0 {
      NoFirstNone(b, steps, i - 1, a);
      assert NotFirst(b, steps, i - 1, a);
    }
  }

  lemma NothingFails(b: seq<State>, steps: seq<Step>, i: nat, a: Act, sent: seq<string>)
    requires IsRun(b, steps) && i < |b| && a in b[0].conns && CleanUpTo(b, steps, i, a, sent)
    ensures forall k :: 0 <= k < i ==> !Fails(b[k], steps[k], a)
  {
    forall k | 0 <= k < i ensures NotFirst(b, steps, k, a) {
      ArrivedStays(steps, k, i, a);
      ArrivedStays(steps, k + 1, i, a);
      if forall m :: 0 <= m < k ==> !Fails(b[m], steps[m], a) { LastIsClean(b, steps, k, a, sent); }
    }
    NoFirstNone(b, steps, i, a);
  }

  lemma LastIsClean(b: seq<State>, steps: seq<Step>, k: nat, a: Act, sent: seq<string>)
    requires IsRun(b, steps) && k < |steps| && a in b[0].conns && CleanUpTo(b, steps, k + 1, a, sent)
    requires Joined(Arrived(steps[..k], a)) <= Wire(sent) && forall m :: 0 <= m < k ==> !Fails(b[m], steps[m], a)
    ensures !Fails(b[k], steps[k], a)
  {
    ConnsStay(b, steps, k, a);
    ThrewExactly(b, steps, k, a);
    ReadIsWhatArrived(b, steps, k, a);
    RunsKeepInv(b, steps, k);
    CleanStep(b[k], steps[k], a, sent);
  }

  /** From client to process: whatever the chunking and the interleaving, when the channel has delivered
      a prefix of the encodings of NUL-free texts that build frames, and process has thrown on none,
      process has been handed a prefix of exactly those texts; all of them, once all have arrived and
      the connection is quiescent. */
  lemma HandedAreTheSentFrames(b: seq<State>, steps: seq<Step>, i: nat, a: Act, sent: seq<string>)
    requires IsRun(b, steps) && i < |b| && a in b[0].conns && CleanUpTo(b, steps, i, a, sent)
    ensures a in b[i].conns && b[i].conns[a].handed <= sent
    ensures Joined(Arrived(steps[..i], a)) == Wire(sent) && Quiescent(b[i], a) ==> b[i].conns[a].handed == sent
  {
    ConnsStay(b, steps, i, a);
    NothingFails(b, steps, i, a, sent);
    ReactorRefinesThreadPerClient(b, steps, i, a);
    PrefixOfWire(Joined(Arrived(steps[..i], a)), sent);
  }

  /** Nothing gets stuck: a running task, the selector inside continueRead, and every thread inside
      submit or complete always has its next step. The selector can start on any connection, and a
      thread can do in the pool whatever the pool allows. */
  lemma NobodyIsStuck(b: seq<State>, steps: seq<Step>, i: nat, t: Tid, a: Act)
    requires IsRun(b, steps) && i < |b|
    ensures Unstuck(b[i], t, a)
  {
    RunsKeepInv(b, steps, i);
    InvUnstuck(b[i], t, a);
  }

  predicate Unstuck(s: State, t: Tid, a: Act) {
    && (t in s.pool.pcs && s.pool.pcs[t].Running? ==>
          Enabled(s, GetByte(t, false)) || Enabled(s, Release(t)) || Enabled(s, PoolFinish(t)))
    && (t in s.pool.pcs && P.InMonitor(s.pool.pcs[t]) ==> Enabled(s, PoolMove(t)))
    && (!s.sel.Idle? ==> Enabled(s, Allocate) || Enabled(s, ReadChunk("")) || Enabled(s, Submit))
    && (s.sel.Idle? && s.selector in s.pool.pcs && s.pool.pcs[s.selector].Outside? && a in s.conns ==>
          Enabled(s, PollBuffer(a)))
    && (P.Enabled(s.pool, P.Move(t)) ==> Enabled(s, PoolMove(t)))
  }

  lemma InvUnstuck(s: State, t: Tid, a: Act)
    requires Inv(s)
    ensures Unstuck(s, t, a)
  {
    assert RunningInv(s, t) && SelectorInv(s) && OtherInv(s, t) && FreeInv(s, 0);
    if t in s.pool.pcs && P.InMonitor(s.pool.pcs[t]) { T.InsideCanMove(s.pool, t); }
  }

  /** Somebody can go on with work that has begun. */
  ghost predicate CanGoOn(s: State) {
    || Enabled(s, Allocate) || Enabled(s, ReadChunk("")) || Enabled(s, Submit)
    || exists t :: ThreadCanGoOn(s, t)
  }

  predicate ThreadCanGoOn(s: State, t: Tid) {
    || Enabled(s, PoolMove(t)) || Enabled(s, PoolTake(t)) || Enabled(s, GetByte(t, false))
    || Enabled(s, Release(t)) || Enabled(s, PoolFinish(t))
  }

  lemma PoolCanGoOn(s: State, t: Tid)
    requires Inv(s) && T.CanStep(s.pool, t)
    ensures ThreadCanGoOn(s, t)
  {
    InvUnstuck(s, t, 0);
  }

  /** A step of the reading half takes at most one step of the pool. */
  lemma WorkerStep(s: State, st: Step, w: Tid)
    requires Enabled(s, st) && w in s.pool.pcs && T.IsWorker(s.pool.pcs[w])
    ensures w in Next(s, st).pool.pcs && T.IsWorker(Next(s, st).pool.pcs[w])
  {
    match st
    case Submit => T.KindStep(s.pool, P.Call(s.selector, s.sel.act, s.sel.task), w);
    case PoolMove(t) => T.KindStep(s.pool, P.Move(t), w);
    case PoolTake(t) => T.KindStep(s.pool, P.Take(t), w);
    case PoolFinish(t) => T.KindStep(s.pool, P.Finish(t, s.bodies[t].threw), w);
    case _ =>
  }

  lemma {:induction false} WorkersStay(b: seq<State>, steps: seq<Step>, i: nat, w: Tid)
    requires IsRun(b, steps) && i < |b| && w in b[0].pool.pcs && b[0].pool.pcs[w].Parked?
    ensures w in b[i].pool.pcs && T.IsWorker(b[i].pool.pcs[w])
  {
    if i > 0 {
      WorkersStay(b, steps, i - 1, w);
      WorkerStep(b[i - 1], steps[i - 1], w);
    }
  }

  /** Where a run has come to a standstill, with at least one worker, everything that arrived for every
      connection has been decoded: one whose tasks did not throw has been handed exactly the frames of
      what its channel delivered. */
  lemma StandStillIsQuiescent(b: seq<State>, steps: seq<Step>, i: nat, w: Tid, a: Act)
    requires IsRun(b, steps) && i < |b| && w in b[0].pool.pcs && b[0].pool.pcs[w].Parked?
    requires a in b[i].conns && !CanGoOn(b[i])
    ensures Quiescent(b[i], a)
    ensures (forall k :: 0 <= k < i ==> !Fails(b[k], steps[k], a)) ==>
              Split(b[i].conns[a].handed, b[i].conns[a].partial) == Segments(Joined(Arrived(steps[..i], a)))
  {
    RunsKeepInv(b, steps, i);
    WorkersStay(b, steps, i, w);
    StoppedIsQuiescent(b[i], w, a);
    if forall k :: 0 <= k < i ==> !Fails(b[k], steps[k], a) { ReactorRefinesThreadPerClient(b, steps, i, a); }
  }

  lemma StoppedIsQuiescent(s: State, w: Tid, a: Act)
    requires Inv(s) && !CanGoOn(s) && w in s.pool.pcs && T.IsWorker(s.pool.pcs[w])
    ensures Quiescent(s, a)
  {
    InvUnstuck(s, s.selector, a);
    T.StandStill(s.pool, w, a);
    if t :| T.CanStep(s.pool, t) { PoolCanGoOn(s, t); }
    assert SelectorInv(s);
  }

  /* ---- Buffers ---- */

  /** Task k of handler a has been accepted by submit and has not released its buffer n. */
  ghost predicate TaskHas(s: State, a: Act, k: nat, n: nat) {
    && |Fin(s, a)| <= k < |Sub(s, a)| && Sub(s, a)[k].buf == n
    && (k < |Taken(s, a)| ==> exists t :: Using(s, a, t))
  }

  lemma TaskOwns(s: State, a: Act, k: nat, n: nat)
    requires Inv(s) && TaskHas(s, a, k, n)
    ensures n < |s.bufs| && s.bufs[n].owner == Task(a, k)
  {
    if k < |Taken(s, a)| {
      var t :| Using(s, a, t);
      assert RunningInv(s, t);
      RunnerFacts(s, t);
    } else {
      assert WaitingInv(s, a, k);
    }
  }

  /** Every buffer ever allocated is in exactly one place: once in the pool, with the selector's
      continueRead, or with one unfinished task. */
  lemma BufferInOnePlace(b: seq<State>, steps: seq<Step>, i: nat, n: nat)
    requires IsRun(b, steps) && i < |b| && n < |b[i].bufs|
    ensures var s := b[i];
            && (n in s.free || SelectorHas(s, n) || exists a, k :: TaskHas(s, a, k, n))
            && !(n in s.free && SelectorHas(s, n))
            && (forall a, k :: TaskHas(s, a, k, n) ==> n !in s.free && !SelectorHas(s, n))
            && (forall p: nat, q: nat :: p < |s.free| && q < |s.free| && s.free[p] == n == s.free[q] ==> p == q)
  {
    var s := b[i];
    RunsKeepInv(b, steps, i);
    assert BufferInv(s, n) && SelectorInv(s);
    if s.bufs[n].owner.Task? {
      assert TaskHas(s, s.bufs[n].owner.act, s.bufs[n].owner.index, n);
    }
    if n in s.free {
      var p :| 0 <= p < |s.free| && s.free[p] == n;
      assert FreeInv(s, p);
    }
    forall a, k | TaskHas(s, a, k, n) ensures n !in s.free && !SelectorHas(s, n) { TaskOwns(s, a, k, n); }
    forall p: nat, q: nat | p < |s.free| && q < |s.free| && s.free[p] == n == s.free[q] ensures p == q {
      assert FreeDistinct(s, p, q) && FreeDistinct(s, q, p);
    }
  }

  /** No two unfinished tasks share a buffer. */
  lemma TasksDoNotShare(b: seq<State>, steps: seq<Step>, i: nat, n: nat, a: Act, k: nat, a': Act, k': nat)
    requires IsRun(b, steps) && i < |b| && TaskHas(b[i], a, k, n) && TaskHas(b[i], a', k', n)
    ensures a == a' && k == k'
  {
    RunsKeepInv(b, steps, i);
    TaskOwns(b[i], a, k, n);
    TaskOwns(b[i], a', k', n);
  }

  /** A task reads from its buffer exactly the chunk that was read for it: nobody overwrites the
      buffer, or moves its position, while the task uses it. */
  lemma TaskReadsItsChunk(b: seq<State>, steps: seq<Step>, i: nat, t: Tid)
    requires IsRun(b, steps) && i < |b| && t in b[i].pool.pcs && b[i].pool.pcs[t].Running?
    requires t in b[i].bodies && b[i].bodies[t].Looping?
    ensures var task := b[i].pool.pcs[t].run;
            task.buf < |b[i].bufs| && b[i].bufs[task.buf].content == task.chunk
            && b[i].bufs[task.buf].pos <= |task.chunk|
  {
    RunsKeepInv(b, steps, i);
    assert RunningInv(b[i], t);
  }

  /** The calls of leaseBuffer whose buffer has not come back, counting one whose poll has found the
      pool empty. */
  function Leased(s: State): int {
    |s.bufs| - |s.free| + Gap(s)
  }

  function Gap(s: State): nat {
    if s.sel.Allocating? then 1 else 0
  }

  /** The number of buffers allocated, with one about to be. */
  function Allocated(s: State): nat {
    |s.bufs| + Gap(s)
  }

  /** Allocated is the greatest number leased at once in the first i + 1 states. */
  ghost predicate IsPeak(b: seq<State>, i: nat, n: nat)
    requires i < |b|
  {
    (forall k :: 0 <= k <= i ==> Leased(b[k]) <= n) && exists k :: 0 <= k <= i && Leased(b[k]) == n
  }

  /** A lease takes a free buffer if there is one, and otherwise allocates one more. */
  predicate LeaseMoves(s: State, s': State) {
    && Leased(s') <= Allocated(s')
    && (Allocated(s') == Allocated(s) || (Allocated(s') == Allocated(s) + 1 && Leased(s') == Allocated(s')))
  }

  lemma NothingLeasedYet(s: State)
    requires Init(s)
    ensures Leased(s) == 0 == Allocated(s)
  {
  }

  lemma LeaseStep(s: State, st: Step)
    requires Enabled(s, st)
    ensures LeaseMoves(s, Next(s, st))
  {
  }

  lemma {:induction false} PeakGrows(b: seq<State>, i: nat)
    requires i < |b| && Leased(b[0]) == 0 == Allocated(b[0])
    requires forall k :: 0 <= k < i ==> LeaseMoves(b[k], b[k + 1])
    ensures IsPeak(b, i, Allocated(b[i]))
  {
    if i > 0 {
      PeakGrows(b, i - 1);
      assert LeaseMoves(b[i - 1], b[i - 1 + 1]);
      if Allocated(b[i]) == Allocated(b[i - 1]) {
        var k :| 0 <= k <= i - 1 && Leased(b[k]) == Allocated(b[i - 1]);
        assert 0 <= k <= i && Leased(b[k]) == Allocated(b[i]);
      }
    }
  }

  /** The buffers allocated, with the one about to be, are exactly as many as the peak of leases. */
  lemma AllocatedIsThePeak(b: seq<State>, steps: seq<Step>, i: nat)
    requires IsRun(b, steps) && i < |b|
    ensures IsPeak(b, i, Allocated(b[i]))
  {
    NothingLeasedYet(b[0]);
    forall k | 0 <= k < i ensures LeaseMoves(b[k], b[k + 1]) { LeaseOfRun(b, steps, k); }
    PeakGrows(b, i);
  }

  lemma LeaseOfRun(b: seq<State>, steps: seq<Step>, k: nat)
    requires IsRun(b, steps) && k < |steps|
    ensures LeaseMoves(b[k], b[k + 1])
  {
    LeaseStep(b[k], steps[k]);
  }
}
