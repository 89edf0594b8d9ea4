/** The histories of the reading half against the steps of the run: what a connection has read and what
    its tasks hold is what the channel delivered, and a connection has thrown when a step of it threw. */
module ReadPathHistory {
  import P = ActorPool
  import T = ActorPoolTheorems
  import F = Frames
  import opened NulFraming
  import opened ReadPath
  import opened ReadPathInvariant

  /* ---- The chunks of the steps ---- */

  /** The handler whose continueRead is the last to have begun. */
  function Serving(steps: seq<Step>): Option<Act> {
    if steps == [] then None
    else
      match steps[|steps| - 1]
      case PollBuffer(a) => Some(a)
      case _ => Serving(steps[..|steps| - 1])
  }

  /** The chunks that the channel of a delivered, in the order of the reads. */
  function Arrived(steps: seq<Step>, a: Act): seq<string> {
    if steps == [] then []
    else
      var front := steps[..|steps| - 1];
      match steps[|steps| - 1]
      case ReadChunk(chunk) => if Serving(front) == Some(a) then Arrived(front, a) + [chunk] else Arrived(front, a)
      case _ => Arrived(front, a)
  }

  /** The chunk of a that the selector has read and submit has not yet accepted. */
  function Bringing(s: State, a: Act): seq<string> {
    if s.sel.Submitting? then (if s.sel.act == a then [s.sel.task.chunk] else [])
    else if s.selector in s.pool.pcs && s.pool.pcs[s.selector].WantSubmit? && s.pool.pcs[s.selector].act == a
      then [s.pool.pcs[s.selector].run.chunk]
    else []
  }

  function ChunksOf(ts: seq<ReadTask>): seq<string> {
    seq(|ts|, i requires 0 <= i < |ts| => ts[i].chunk)
  }

  /** The chunks of a's tasks in submission order, and the one being brought. */
  function TaskChunks(s: State, a: Act): seq<string> {
    ChunksOf(Sub(s, a)) + Bringing(s, a)
  }

  /** What a step adds to a's chunks. */
  function Added(s: State, st: Step, a: Act): seq<string> {
    if st.ReadChunk? && s.sel.Reading? && s.sel.act == a then [st.chunk] else []
  }

  ghost predicate Arrives(s: State, st: Step, s': State, a: Act) {
    && TaskChunks(s', a) == TaskChunks(s, a) + Added(s, st, a)
    && (a in s'.conns <==> a in s.conns)
    && (a in s.conns ==> s'.conns[a].read == s.conns[a].read + Joined(Added(s, st, a)))
    && (!s'.sel.Idle? ==> if st.PollBuffer? then s'.sel.act == st.act else !s.sel.Idle? && s'.sel.act == s.sel.act)
    && (st.ReadChunk? ==> s.sel.Reading?)
  }

  lemma ReadBrings(s: State, st: Step, a: Act)
    requires SelectorInv(s) && Enabled(s, st) && st.ReadChunk?
    ensures Bringing(s, a) == [] && Bringing(Next(s, st), a) == Added(s, st, a)
    ensures Sub(Next(s, st), a) == Sub(s, a)
  {
  }

  lemma ReadExtends(s: State, st: Step, a: Act)
    requires Enabled(s, st) && st.ReadChunk?
    ensures a in Next(s, st).conns <==> a in s.conns
    ensures a in s.conns ==> Next(s, st).conns[a].read == s.conns[a].read + Joined(Added(s, st, a))
    ensures Next(s, st).sel.Submitting? && Next(s, st).sel.act == s.sel.act
  {
    JoinedOne(st.chunk);
  }

  lemma JoinedOne(chunk: string)
    ensures Joined([chunk]) == chunk && Joined([]) == ""
  {
    JoinedAppend([], chunk);
    assert [] + [chunk] == [chunk];
  }

  lemma ReadArrives(s: State, st: Step, a: Act)
    requires Inv(s) && Enabled(s, st) && st.ReadChunk?
    ensures Arrives(s, st, Next(s, st), a)
  {
    ReadBrings(s, st, a);
    ReadExtends(s, st, a);
  }

  lemma SelectorArrives(s: State, st: Step, a: Act)
    requires Inv(s) && Enabled(s, st) && (st.PollBuffer? || st.Allocate? || st.ReadFails?)
    ensures Arrives(s, st, Next(s, st), a)
  {
    assert Joined([]) == "";
    assert Sub(Next(s, st), a) == Sub(s, a);
  }

  lemma SubmitArrives(s: State, st: Step, a: Act)
    requires Inv(s) && Enabled(s, st) && st.Submit?
    ensures Arrives(s, st, Next(s, st), a)
  {
    T.EffectCall(s.pool, s.selector, s.sel.act, s.sel.task, a);
  }

  lemma ChunksOfAppend(ts: seq<ReadTask>, t: ReadTask)
    ensures ChunksOf(ts + [t]) == ChunksOf(ts) + [t.chunk]
  {
  }

  /** A step that reads nothing, and leaves a's tasks, the one on its way to submit included. */
  lemma QuietArrives(s: State, st: Step, s': State, a: Act)
    requires !st.ReadChunk? && !st.PollBuffer? && s'.sel == s.sel
    requires (a in s'.conns <==> a in s.conns) && (a in s.conns ==> s'.conns[a].read == s.conns[a].read)
    requires Sub(s', a) == Sub(s, a) && Bringing(s', a) == Bringing(s, a)
    ensures Arrives(s, st, s', a)
  {
    assert Joined([]) == "";
  }

  lemma AcceptBrings(s: State, s': State, pc: P.Pc<ReadTask>, a: Act)
    requires SelectorInv(s) && s.selector in s.pool.pcs && s.pool.pcs[s.selector] == pc && pc.WantSubmit?
    requires s'.sel == s.sel && s'.selector == s.selector
    requires s.selector in s'.pool.pcs && !s'.pool.pcs[s.selector].WantSubmit?
    ensures Bringing(s, a) == (if pc.act == a then [pc.run.chunk] else []) && Bringing(s', a) == []
  {
  }

  lemma AcceptMoves(s: State, st: Step, a: Act)
    requires Inv(s) && Enabled(s, st) && st.PoolMove? && s.pool.pcs[st.tid].WantSubmit?
    ensures TaskChunks(Next(s, st), a) == TaskChunks(s, a)
  {
    var pc := s.pool.pcs[st.tid];
    assert OtherInv(s, st.tid);
    T.EffectMove(s.pool, st.tid, a);
    MoveShape(s, st);
    AcceptBrings(s, Next(s, st), pc, a);
    if pc.act == a { ChunksOfAppend(Sub(s, a), pc.run); }
  }

  lemma MoveShape(s: State, st: Step)
    requires Enabled(s, st) && st.PoolMove?
    ensures var s' := Next(s, st); s'.sel == s.sel && s'.selector == s.selector && s'.conns == s.conns
  {
  }

  lemma AcceptArrives(s: State, st: Step, a: Act)
    requires Inv(s) && Enabled(s, st) && st.PoolMove? && s.pool.pcs[st.tid].WantSubmit?
    ensures Arrives(s, st, Next(s, st), a)
  {
    MoveShape(s, st);
    AcceptMoves(s, st, a);
    assert Joined([]) == "";
  }

  lemma MoveArrives(s: State, st: Step, a: Act)
    requires Inv(s) && Enabled(s, st) && st.PoolMove? && !s.pool.pcs[st.tid].WantSubmit?
    ensures Arrives(s, st, Next(s, st), a)
  {
    MoveShape(s, st);
    T.EffectMove(s.pool, st.tid, a);
    SameBringing(s, Next(s, st), st.tid, a);
    QuietArrives(s, st, Next(s, st), a);
  }

  lemma SameBringing(s: State, s': State, u: Tid, a: Act)
    requires s'.sel == s.sel && s'.selector == s.selector && u in s.pool.pcs && u in s'.pool.pcs
    requires s'.pool.pcs == s.pool.pcs[u := s'.pool.pcs[u]]
    requires !s.pool.pcs[u].WantSubmit? && !s'.pool.pcs[u].WantSubmit?
    ensures Bringing(s', a) == Bringing(s, a)
  {
  }

  lemma TakeArrives(s: State, st: Step, a: Act)
    requires Inv(s) && Enabled(s, st) && st.PoolTake?
    ensures Arrives(s, st, Next(s, st), a)
  {
    T.EffectTake(s.pool, st.tid, a);
  }

  lemma FinishArrives(s: State, st: Step, a: Act)
    requires Inv(s) && Enabled(s, st) && st.PoolFinish?
    ensures Arrives(s, st, Next(s, st), a)
  {
    T.EffectFinish(s.pool, st.tid, s.bodies[st.tid].threw, a);
  }

  lemma TaskArrives(s: State, st: Step, a: Act)
    requires Inv(s) && Enabled(s, st) && (st.GetByte? || st.Release?)
    ensures Arrives(s, st, Next(s, st), a)
  {
  }

  lemma StepArrives(s: State, st: Step, a: Act)
    requires Inv(s) && Enabled(s, st)
    ensures Arrives(s, st, Next(s, st), a)
  {
    match st
    case Submit => SubmitArrives(s, st, a);
    case ReadChunk(_) => ReadArrives(s, st, a);
    case PoolMove(t) => if s.pool.pcs[t].WantSubmit? { AcceptArrives(s, st, a); } else { MoveArrives(s, st, a); }
    case PoolTake(_) => TakeArrives(s, st, a);
    case PoolFinish(_) => FinishArrives(s, st, a);
    case GetByte(_, _) => TaskArrives(s, st, a);
    case Release(_) => TaskArrives(s, st, a);
    case _ => SelectorArrives(s, st, a);
  }

  lemma RunArrives(b: seq<State>, steps: seq<Step>, k: nat, a: Act)
    requires IsRun(b, steps) && k < |steps|
    ensures Arrives(b[k], steps[k], b[k + 1], a)
  {
    RunsKeepInv(b, steps, k);
    StepArrives(b[k], steps[k], a);
  }

  lemma NothingYet(s: State, a: Act)
    requires Init(s)
    ensures TaskChunks(s, a) == [] && s.sel.Idle? && (a in s.conns ==> s.conns[a].read == "" && !s.conns[a].threw)
  {
  }

  lemma {:induction false} JoinedConcat(xs: seq<string>, ys: seq<string>)
    ensures Joined(xs + ys) == Joined(xs) + Joined(ys)
    decreases |ys|
  {
    if ys == [] {
      assert xs + ys == xs;
    } else {
      var front := ys[..|ys| - 1];
      JoinedConcat(xs, front);
      assert xs + ys == (xs + front) + [ys[|ys| - 1]];
      JoinedAppend(xs + front, ys[|ys| - 1]);
      Regroup(Joined(xs), Joined(front), ys[|ys| - 1]);
    }
  }

  /** The state is what the steps say, for a's chunks and for who is being served. */
  ghost predicate Explained(s: State, steps: seq<Step>, a: Act) {
    && TaskChunks(s, a) == Arrived(steps, a)
    && (a in s.conns ==> s.conns[a].read == Joined(Arrived(steps, a)))
    && (!s.sel.Idle? ==> Serving(steps) == Some(s.sel.act))
  }

  lemma OneStepMore(s: State, steps: seq<Step>, st: Step, a: Act)
    requires !s.sel.Idle? ==> Serving(steps) == Some(s.sel.act)
    requires st.ReadChunk? ==> s.sel.Reading?
    ensures Arrived(steps + [st], a) == Arrived(steps, a) + Added(s, st, a)
    ensures Serving(steps + [st]) == if st.PollBuffer? then Some(st.act) else Serving(steps)
  {
    assert (steps + [st])[..|steps|] == steps;
  }

  lemma StepExplained(s: State, steps: seq<Step>, st: Step, s': State, a: Act)
    requires Explained(s, steps, a) && Arrives(s, st, s', a)
    ensures Explained(s', steps + [st], a)
  {
    OneStepMore(s, steps, st, a);
    JoinedConcat(Arrived(steps, a), Added(s, st, a));
  }

  lemma {:induction false} TrueFromStart(flags: seq<bool>, i: nat)
    requires i < |flags| && flags[0] && forall k :: 0 <= k < |flags| - 1 ==> (flags[k] ==> flags[k + 1])
    ensures flags[i]
  {
    if i > 0 {
      TrueFromStart(flags, i - 1);
      assert flags[i - 1] ==> flags[i - 1 + 1];
    }
  }

  lemma RunExplained(b: seq<State>, steps: seq<Step>, k: nat, a: Act)
    requires IsRun(b, steps) && k < |steps| && Explained(b[k], steps[..k], a)
    ensures Explained(b[k + 1], steps[..k + 1], a)
  {
    RunArrives(b, steps, k, a);
    StepExplained(b[k], steps[..k], steps[k], b[k + 1], a);
    assert steps[..k + 1] == steps[..k] + [steps[k]];
  }

  lemma StartExplained(s: State, a: Act)
    requires Init(s)
    ensures Explained(s, [], a)
  {
    NothingYet(s, a);
    assert Joined([]) == "";
  }

  /** In every run what a connection has read is what its channel delivered, chunk after chunk; and its
      tasks, in the order of submission, with the chunk on its way to submit, hold these very chunks. */
  lemma ReadIsWhatArrived(b: seq<State>, steps: seq<Step>, i: nat, a: Act)
    requires IsRun(b, steps) && i < |b|
    ensures TaskChunks(b[i], a) == Arrived(steps[..i], a)
    ensures a in b[i].conns ==> b[i].conns[a].read == Joined(Arrived(steps[..i], a))
  {
    var explained := seq(|b|, k requires 0 <= k < |b| => Explained(b[k], steps[..k], a));
    assert steps[..0] == [];
    StartExplained(b[0], a);
    forall k | 0 <= k < |b| - 1 ensures explained[k] ==> explained[k + 1] {
      if explained[k] { RunExplained(b, steps, k, a); }
    }
    TrueFromStart(explained, i);
    assert Explained(b[i], steps[..i], a);
  }

  /* ---- Exceptions ---- */

  /** The step is an iteration of a task of a that throws: as the step says, or because the byte
      completes a text that builds no frame. */
  predicate Fails(s: State, st: Step, a: Act) {
    && st.GetByte? && Enabled(s, st) && s.pool.pcs[st.tid].act == a
    && var b := s.bufs[s.pool.pcs[st.tid].run.buf];
       st.throws || (b.content[b.pos] == NUL && F.JavaParse(s.conns[a].partial) == F.Threw)
  }

  lemma StepFails(s: State, st: Step, a: Act)
    requires Enabled(s, st)
    ensures a in Next(s, st).conns <==> a in s.conns
    ensures a in s.conns ==> (Next(s, st).conns[a].threw <==> s.conns[a].threw || Fails(s, st, a))
  {
  }

  lemma RunFails(b: seq<State>, steps: seq<Step>, k: nat, a: Act)
    requires IsRun(b, steps) && k < |steps|
    ensures a in b[k + 1].conns <==> a in b[k].conns
    ensures a in b[k].conns ==> (b[k + 1].conns[a].threw <==> b[k].conns[a].threw || Fails(b[k], steps[k], a))
  {
    StepFails(b[k], steps[k], a);
  }

  predicate FlagStep(threw: seq<bool>, fails: seq<bool>, k: nat)
    requires k < |fails| < |threw|
  {
    threw[k + 1] <==> threw[k] || fails[k]
  }

  lemma {:induction false} FlagIsAny(threw: seq<bool>, fails: seq<bool>, i: nat)
    requires |threw| == |fails| + 1 && !threw[0] && i < |threw|
    requires forall k :: 0 <= k < |fails| ==> FlagStep(threw, fails, k)
    ensures threw[i] <==> exists k :: 0 <= k < i && fails[k]
  {
    if i > 0 {
      FlagIsAny(threw, fails, i - 1);
      assert FlagStep(threw, fails, i - 1);
    }
  }

  lemma {:induction false} ConnsChain(b: seq<State>, k: nat, a: Act)
    requires k < |b| && forall m :: 0 <= m < |b| - 1 ==> SameConn(b[m], b[m + 1], a)
    ensures SameConn(b[0], b[k], a)
  {
    if k > 0 {
      ConnsChain(b, k - 1, a);
      assert SameConn(b[k - 1], b[k - 1 + 1], a);
    }
  }

  predicate SameConn(s: State, s': State, a: Act) {
    a in s'.conns <==> a in s.conns
  }

  lemma ConnsStay(b: seq<State>, steps: seq<Step>, k: nat, a: Act)
    requires IsRun(b, steps) && k < |b|
    ensures a in b[k].conns <==> a in b[0].conns
  {
    forall m | 0 <= m < |b| - 1 ensures SameConn(b[m], b[m + 1], a) { RunFails(b, steps, m, a); }
    ConnsChain(b, k, a);
  }

  /** In every run a connection has thrown exactly when some step of a task of it has. */
  lemma ThrewExactly(b: seq<State>, steps: seq<Step>, i: nat, a: Act)
    requires IsRun(b, steps) && i < |b| && a in b[i].conns
    ensures b[i].conns[a].threw <==> exists k :: 0 <= k < i && Fails(b[k], steps[k], a)
  {
    forall k | 0 <= k < |b| ensures a in b[k].conns { ConnsStay(b, steps, k, a); ConnsStay(b, steps, i, a); }
    var threw := seq(|b|, k requires 0 <= k < |b| => b[k].conns[a].threw);
    var fails := seq(|steps|, k requires 0 <= k < |steps| => Fails(b[k], steps[k], a));
    NothingYet(b[0], a);
    forall k | 0 <= k < |fails| ensures FlagStep(threw, fails, k) { RunFails(b, steps, k, a); }
    FlagIsAny(threw, fails, i);
    forall k | 0 <= k < i ensures fails[k] <==> Fails(b[k], steps[k], a) { }
    assert threw[i] == b[i].conns[a].threw;
    if k :| 0 <= k < i && Fails(b[k], steps[k], a) { assert fails[k]; }
  }
}
