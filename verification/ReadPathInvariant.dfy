/** The invariant of the reading half of the reactor, kept by every step. */
module ReadPathInvariant {
  import P = ActorPool
  import T = ActorPoolTheorems
  import opened NulFraming
  import opened ReadPath

  /** The submitted, taken and finished tasks of a handler. */
  function Sub(s: State, a: Act): seq<ReadTask> { P.Runs(s.pool.submitted, a) }
  function Taken(s: State, a: Act): seq<ReadTask> { T.TakenRuns(s.pool, a) }
  function Fin(s: State, a: Act): seq<ReadTask> { P.Runs(s.pool.finished, a) }

  /** The chunks of tasks, joined. */
  function Chunks(ts: seq<ReadTask>): string {
    if ts == [] then "" else Chunks(ts[..|ts| - 1]) + ts[|ts| - 1].chunk
  }

  lemma ChunksAppend(ts: seq<ReadTask>, t: ReadTask)
    ensures Chunks(ts + [t]) == Chunks(ts) + t.chunk
  {
    assert (ts + [t])[..|ts|] == ts;
  }

  function Take(s: string, n: nat): string {
    if n <= |s| then s[..n] else s
  }

  /** What the decoder took of the chunks of tasks that ended as cuts say, joined. */
  function Used(ts: seq<ReadTask>, cuts: seq<Cut>): string
    requires |ts| == |cuts|
  {
    if ts == [] then ""
    else
      var last := |ts| - 1;
      Used(ts[..last], cuts[..last]) + Take(ts[last].chunk, cuts[last].used)
  }

  lemma UsedAppend(ts: seq<ReadTask>, cuts: seq<Cut>, t: ReadTask, cut: Cut)
    requires |ts| == |cuts|
    ensures Used(ts + [t], cuts + [cut]) == Used(ts, cuts) + Take(t.chunk, cut.used)
  {
    assert (ts + [t])[..|ts|] == ts && (cuts + [cut])[..|cuts|] == cuts;
  }

  /** A task that did not throw used its whole chunk; one that threw stopped right after the NUL of a
      frame, or at a byte the decoder's array had no room for. */
  predicate CutOf(cut: Cut, chunk: string) {
    && cut.used <= |chunk|
    && (!cut.threw ==> cut.used == |chunk|)
    && (cut.threw ==> (0 < cut.used && chunk[cut.used - 1] == NUL) || cut.used < |chunk|)
  }

  /** The texts among these that build a frame. */
  function Built(texts: seq<string>): seq<string> {
    if texts == [] then []
    else
      var last := texts[|texts| - 1];
      Built(texts[..|texts| - 1]) + (if Builds(last) then [last] else [])
  }

  lemma BuiltAppend(texts: seq<string>, text: string)
    ensures Built(texts + [text]) == Built(texts) + (if Builds(text) then [text] else [])
  {
    assert (texts + [text])[..|texts|] == texts;
  }

  /** The chunk of a that the selector has read and submit has not yet accepted. */
  function Brought(s: State, a: Act): string {
    if s.sel.Submitting? then (if s.sel.act == a then s.sel.task.chunk else "")
    else if s.selector in s.pool.pcs && s.pool.pcs[s.selector].WantSubmit? && s.pool.pcs[s.selector].act == a
      then s.pool.pcs[s.selector].run.chunk
    else ""
  }

  predicate SelectorHas(s: State, n: nat) {
    || (s.sel.Reading? && s.sel.buf == n)
    || (s.sel.Submitting? && s.sel.task.buf == n)
    || (s.selector in s.pool.pcs && s.pool.pcs[s.selector].WantSubmit? && s.pool.pcs[s.selector].run.buf == n)
  }

  /** Worker t is executing a task of a and has not released its buffer. */
  predicate Using(s: State, a: Act, t: Tid) {
    t in s.pool.pcs && s.pool.pcs[t].Running? && s.pool.pcs[t].act == a && t in s.bodies && !s.bodies[t].Released?
  }

  ghost predicate SelectorInv(s: State) {
    && s.selector in s.pool.pcs && !T.IsWorker(s.pool.pcs[s.selector])
    && (!s.sel.Idle? ==> s.pool.pcs[s.selector].Outside?)
    && (s.sel.Allocating? ==> s.sel.act in s.conns)
    && (s.sel.Reading? ==> s.sel.act in s.conns && s.sel.buf < |s.bufs| && s.bufs[s.sel.buf].owner == Selector)
    && (s.sel.Submitting? ==> s.sel.act in s.conns && Ready(s, s.sel.task))
    && (s.pool.pcs[s.selector].WantSubmit? ==>
         s.pool.pcs[s.selector].act in s.conns && Ready(s, s.pool.pcs[s.selector].run))
  }

  /** The task's buffer is the selector's and holds the task's chunk, unread. */
  predicate Ready(s: State, task: ReadTask) {
    task.buf < |s.bufs| && s.bufs[task.buf] == Buffer(task.chunk, 0, Selector)
  }

  ghost predicate OtherInv(s: State, t: Tid) {
    t in s.pool.pcs && t != s.selector ==> T.IsWorker(s.pool.pcs[t]) || s.pool.pcs[t].Outside?
  }

  ghost predicate WaitingInv(s: State, a: Act, k: nat) {
    |Taken(s, a)| <= k < |Sub(s, a)| ==>
      var task := Sub(s, a)[k];
      task.buf < |s.bufs| && s.bufs[task.buf] == Buffer(task.chunk, 0, Task(a, k))
  }

  ghost predicate RunningInv(s: State, t: Tid) {
    t in s.pool.pcs && s.pool.pcs[t].Running? ==>
      var a, task := s.pool.pcs[t].act, s.pool.pcs[t].run;
      && t in s.bodies && a in s.conns && task.buf < |s.bufs|
      && BodyInv(s.bodies[t], Fin(s, a), task, a, s.bufs[task.buf], s.conns[a])
  }

  /** A task of a, after the tasks in fin have finished, with its buffer and its connection. */
  ghost predicate BodyInv(body: Body, fin: seq<ReadTask>, task: ReadTask, a: Act, b: Buffer, c: ReadPath.Conn) {
    match body
    case Looping =>
      && b.owner == Task(a, |fin|) && b.content == task.chunk && b.pos <= |b.content|
      && |c.cuts| == |fin| && c.consumed == Used(fin, c.cuts) + b.content[..b.pos]
    case Failed(used) =>
      && b.owner == Task(a, |fin|) && c.threw && CutOf(Cut(used, true), task.chunk)
      && |c.cuts| == |fin| && c.consumed == Used(fin, c.cuts) + task.chunk[..used]
    case Released(_) =>
      |c.cuts| == |fin| + 1 && c.consumed == Used(fin + [task], c.cuts)
  }

  /** How a connection's history fits together, whether or not a task has thrown. */
  ghost predicate Decodes(c: ReadPath.Conn) {
    && c.partial == Segments(c.consumed).rest && c.handed == Built(Segments(c.consumed).frames)
    && (!c.threw ==> c.handed == Segments(c.consumed).frames)
  }

  ghost predicate CutInv(s: State, a: Act, k: nat) {
    a in s.conns && k < |s.conns[a].cuts| ==>
      && k < |Sub(s, a)| && CutOf(s.conns[a].cuts[k], Sub(s, a)[k].chunk)
      && (s.conns[a].cuts[k].threw ==> s.conns[a].threw)
  }

  ghost predicate ConnInv(s: State, a: Act) {
    && (a !in s.conns ==> Sub(s, a) == [])
    && (a in s.conns ==>
         var c := s.conns[a];
         && c.read == Chunks(Sub(s, a)) + Brought(s, a) && Decodes(c)
         && (P.Current(s.pool, a) == [] ==> |c.cuts| == |Fin(s, a)| && c.consumed == Used(Fin(s, a), c.cuts)))
  }

  ghost predicate BufferInv(s: State, n: nat) {
    n < |s.bufs| ==>
      match s.bufs[n].owner
      case Free => n in s.free
      case Selector => SelectorHas(s, n)
      case Task(a, k) =>
        |Fin(s, a)| <= k < |Sub(s, a)| && Sub(s, a)[k].buf == n
        && (k < |Taken(s, a)| ==> exists t :: Using(s, a, t))
  }

  ghost predicate FreeInv(s: State, i: nat) {
    i < |s.free| ==> s.free[i] < |s.bufs| && s.bufs[s.free[i]].owner == Free
  }

  ghost predicate FreeDistinct(s: State, i: nat, j: nat) {
    i < j < |s.free| ==> s.free[i] != s.free[j]
  }

  ghost predicate Inv(s: State) {
    && P.Inv(s.pool)
    && SelectorInv(s)
    && (forall t :: OtherInv(s, t))
    && (forall a, k :: WaitingInv(s, a, k))
    && (forall t :: RunningInv(s, t))
    && (forall a :: ConnInv(s, a))
    && (forall a, k :: CutInv(s, a, k))
    && (forall n :: BufferInv(s, n))
    && (forall i :: FreeInv(s, i))
    && (forall i, j :: FreeDistinct(s, i, j))
  }

  /** The histories of a handler do not change. */
  predicate SamePool(s: State, s': State, a: Act) {
    Sub(s', a) == Sub(s, a) && Taken(s', a) == Taken(s, a) && Fin(s', a) == Fin(s, a)
    && P.Current(s'.pool, a) == P.Current(s.pool, a)
  }

  /** What a running worker's task is among its handler's tasks. */
  lemma RunnerFacts(s: State, t: Tid)
    requires P.Inv(s.pool) && t in s.pool.pcs && s.pool.pcs[t].Running?
    ensures var a, task := s.pool.pcs[t].act, s.pool.pcs[t].run;
            && P.Current(s.pool, a) == [task]
            && |Taken(s, a)| == |Fin(s, a)| + 1 && |Fin(s, a)| < |Sub(s, a)| && Sub(s, a)[|Fin(s, a)|] == task
  {
    var a := s.pool.pcs[t].act;
    assert P.ThreadInv(s.pool, t);
    T.TakenBetween(s.pool, a);
    assert Taken(s, a)[|Fin(s, a)|] == s.pool.pcs[t].run;
  }

  lemma SameRunner(s: State, t: Tid, t': Tid)
    requires P.Inv(s.pool) && t in s.pool.pcs && s.pool.pcs[t].Running? && t' in s.pool.pcs && s.pool.pcs[t'].Running?
    requires s.pool.pcs[t].act == s.pool.pcs[t'].act
    ensures t == t'
  {
    assert P.ThreadInv(s.pool, t) && P.ThreadInv(s.pool, t');
  }

  lemma InitInv(s: State)
    requires Init(s)
    ensures Inv(s)
  {
    P.InvInit(s.pool);
  }

  /** While the pool and the bodies of the tasks that still use a buffer stay, so does BufferInv's
      claim that somebody uses it. */
  lemma StillUsed(s: State, s': State, n: nat)
    requires BufferInv(s, n) && n < |s.bufs| && s.bufs[n].owner.Task?
    requires var a := s.bufs[n].owner.act;
             SamePool(s, s', a) && forall t :: Using(s, a, t) ==> Using(s', a, t)
    ensures n < |s'.bufs| && s'.bufs[n].owner == s.bufs[n].owner ==> BufferInv(s', n)
  {
    var a := s.bufs[n].owner.act;
    if s.bufs[n].owner.index < |Taken(s, a)| {
      var t :| Using(s, a, t);
      assert Using(s', a, t);
    }
  }

  /* ---- Steps of the selector outside the pool ---- */

  /** Nothing but sel changed, and neither before nor after does it name a buffer. */
  lemma KeepPollNothing(s: State, st: Step)
    requires Inv(s) && Enabled(s, st) && st.PollBuffer? && s.free == []
    ensures Inv(Next(s, st))
  {
    var s' := Next(s, st);
    forall a, k: nat ensures WaitingInv(s', a, k) { assert WaitingInv(s, a, k); }
    forall t ensures RunningInv(s', t) { assert RunningInv(s, t); }
    forall a ensures ConnInv(s', a) { assert ConnInv(s, a); }
    forall a, k: nat ensures CutInv(s', a, k) { assert CutInv(s, a, k); }
    forall m: nat ensures BufferInv(s', m) {
      assert BufferInv(s, m);
      if m < |s.bufs| && s.bufs[m].owner.Task? { StillUsed(s, s', m); }
    }
    forall t ensures OtherInv(s', t) { assert OtherInv(s, t); }
  }

  lemma KeepPollBuffer(s: State, st: Step)
    requires Inv(s) && Enabled(s, st) && st.PollBuffer? && s.free != []
    ensures Inv(Next(s, st))
  {
    var s' := Next(s, st);
    var n := s.free[0];
    assert FreeInv(s, 0);
    forall a, k: nat ensures WaitingInv(s', a, k) { assert WaitingInv(s, a, k); }
    forall t ensures RunningInv(s', t) { assert RunningInv(s, t); }
    forall a ensures ConnInv(s', a) { assert ConnInv(s, a); }
    forall a, k: nat ensures CutInv(s', a, k) { assert CutInv(s, a, k); }
    forall m: nat ensures BufferInv(s', m) {
      assert BufferInv(s, m);
      if m < |s.bufs| && s.bufs[m].owner.Task? { StillUsed(s, s', m); }
      if m < |s.bufs| && m != n && m in s.free {
        var i :| 0 <= i < |s.free| && s.free[i] == m;
        assert s'.free[i - 1] == m;
      }
    }
    forall i: nat ensures FreeInv(s', i) { assert FreeInv(s, i + 1) && FreeDistinct(s, 0, i + 1); }
    forall i: nat, j: nat ensures FreeDistinct(s', i, j) { assert FreeDistinct(s, i + 1, j + 1); }
    forall t ensures OtherInv(s', t) { assert OtherInv(s, t); }
  }

  lemma KeepAllocate(s: State, st: Step)
    requires Inv(s) && Enabled(s, st) && st.Allocate?
    ensures Inv(Next(s, st))
  {
    var s' := Next(s, st);
    forall a, k: nat ensures WaitingInv(s', a, k) { assert WaitingInv(s, a, k); }
    forall t ensures RunningInv(s', t) { assert RunningInv(s, t); }
    forall a ensures ConnInv(s', a) { assert ConnInv(s, a); }
    forall a, k: nat ensures CutInv(s', a, k) { assert CutInv(s, a, k); }
    forall m: nat ensures BufferInv(s', m) {
      assert BufferInv(s, m);
      if m < |s.bufs| && s.bufs[m].owner.Task? { StillUsed(s, s', m); }
    }
    forall i: nat ensures FreeInv(s', i) { assert FreeInv(s, i); }
    forall i: nat, j: nat ensures FreeDistinct(s', i, j) { assert FreeDistinct(s, i, j); }
    forall t ensures OtherInv(s', t) { assert OtherInv(s, t); }
  }

  lemma KeepReadChunk(s: State, st: Step)
    requires Inv(s) && Enabled(s, st) && st.ReadChunk?
    ensures Inv(Next(s, st))
  {
    var s' := Next(s, st);
    forall a, k: nat ensures WaitingInv(s', a, k) { assert WaitingInv(s, a, k); }
    forall t ensures RunningInv(s', t) { assert RunningInv(s, t); }
    forall a ensures ConnInv(s', a) { assert ConnInv(s, a); }
    forall a, k: nat ensures CutInv(s', a, k) { assert CutInv(s, a, k); }
    forall m: nat ensures BufferInv(s', m) {
      assert BufferInv(s, m);
      if m < |s.bufs| && s.bufs[m].owner.Task? { StillUsed(s, s', m); }
    }
    forall i: nat ensures FreeInv(s', i) { assert FreeInv(s, i); }
    forall i: nat, j: nat ensures FreeDistinct(s', i, j) { assert FreeDistinct(s, i, j); }
    forall t ensures OtherInv(s', t) { assert OtherInv(s, t); }
  }

  lemma KeepReadFails(s: State, st: Step)
    requires Inv(s) && Enabled(s, st) && st.ReadFails?
    ensures Inv(Next(s, st))
  {
    var s' := Next(s, st);
    forall a, k: nat ensures WaitingInv(s', a, k) { assert WaitingInv(s, a, k); }
    forall t ensures RunningInv(s', t) { assert RunningInv(s, t); }
    forall a ensures ConnInv(s', a) { assert ConnInv(s, a); }
    forall a, k: nat ensures CutInv(s', a, k) { assert CutInv(s, a, k); }
    forall m: nat ensures BufferInv(s', m) {
      assert BufferInv(s, m);
      if m < |s.bufs| && s.bufs[m].owner.Task? { StillUsed(s, s', m); }
    }
    forall i: nat ensures FreeInv(s', i) { assert FreeInv(s, i); }
    forall i: nat, j: nat ensures FreeDistinct(s', i, j) { assert FreeDistinct(s, i, j) && FreeInv(s, i); }
    forall t ensures OtherInv(s', t) { assert OtherInv(s, t); }
  }

  lemma KeepSubmit(s: State, st: Step)
    requires Inv(s) && Enabled(s, st) && st.Submit?
    ensures Inv(Next(s, st))
  {
    var s' := Next(s, st);
    P.InvStep(s.pool, P.Call(s.selector, s.sel.act, s.sel.task));
    forall a ensures SamePool(s, s', a) { T.EffectCall(s.pool, s.selector, s.sel.act, s.sel.task, a); }
    forall a, k: nat ensures WaitingInv(s', a, k) { assert WaitingInv(s, a, k) && SamePool(s, s', a); }
    forall t ensures RunningInv(s', t) {
      assert RunningInv(s, t);
      if t in s.pool.pcs && s.pool.pcs[t].Running? { assert SamePool(s, s', s.pool.pcs[t].act); }
    }
    forall a ensures ConnInv(s', a) { assert ConnInv(s, a) && SamePool(s, s', a); }
    forall a, k: nat ensures CutInv(s', a, k) { assert CutInv(s, a, k) && SamePool(s, s', a); }
    forall m: nat ensures BufferInv(s', m) {
      assert BufferInv(s, m);
      if m < |s.bufs| && s.bufs[m].owner.Task? {
        assert SamePool(s, s', s.bufs[m].owner.act);
        StillUsed(s, s', m);
      }
    }
    forall i: nat ensures FreeInv(s', i) { assert FreeInv(s, i); }
    forall i: nat, j: nat ensures FreeDistinct(s', i, j) { assert FreeDistinct(s, i, j); }
    forall t ensures OtherInv(s', t) { assert OtherInv(s, t); }
  }

  /* ---- Steps inside the pool ---- */

  /** The pool took a step of thread u that started, finished and submitted nothing. */
  ghost predicate PoolIdled(s: State, s': State, u: Tid) {
    && s' == s.(pool := s'.pool) && P.Inv(s'.pool)
    && u in s.pool.pcs && u in s'.pool.pcs && s'.pool.pcs == s.pool.pcs[u := s'.pool.pcs[u]]
    && !s.pool.pcs[u].Running? && !s'.pool.pcs[u].Running?
    && !s.pool.pcs[u].WantSubmit? && !s'.pool.pcs[u].WantSubmit?
    && !s.pool.pcs[u].Outside?
    && (T.IsWorker(s.pool.pcs[u]) <==> T.IsWorker(s'.pool.pcs[u]))
    && (forall a :: SamePool(s, s', a))
  }

  lemma KeepPoolIdled(s: State, s': State, u: Tid)
    requires Inv(s) && PoolIdled(s, s', u)
    ensures Inv(s')
  {
    forall a, k: nat ensures WaitingInv(s', a, k) { assert WaitingInv(s, a, k) && SamePool(s, s', a); }
    forall t ensures RunningInv(s', t) {
      assert RunningInv(s, t);
      if t in s.pool.pcs && s.pool.pcs[t].Running? { assert SamePool(s, s', s.pool.pcs[t].act); }
    }
    forall a ensures ConnInv(s', a) { assert ConnInv(s, a) && SamePool(s, s', a); }
    forall a, k: nat ensures CutInv(s', a, k) { assert CutInv(s, a, k) && SamePool(s, s', a); }
    forall m: nat ensures BufferInv(s', m) {
      assert BufferInv(s, m);
      if m < |s.bufs| && s.bufs[m].owner.Task? {
        assert SamePool(s, s', s.bufs[m].owner.act);
        StillUsed(s, s', m);
      }
    }
    forall i: nat ensures FreeInv(s', i) { assert FreeInv(s, i); }
    forall i: nat, j: nat ensures FreeDistinct(s', i, j) { assert FreeDistinct(s, i, j); }
    forall t ensures OtherInv(s', t) { assert OtherInv(s, t) && OtherInv(s, u); }
  }

  lemma KeepPoolMoveInside(s: State, st: Step)
    requires Inv(s) && Enabled(s, st) && st.PoolMove? && !s.pool.pcs[st.tid].WantSubmit?
    ensures Inv(Next(s, st))
  {
    var s', u := Next(s, st), st.tid;
    P.InvStep(s.pool, P.Move(u));
    forall a ensures SamePool(s, s', a) { T.EffectMove(s.pool, u, a); }
    T.EffectMove(s.pool, u, s.pool.pcs[u].act);
    KeepPoolIdled(s, s', u);
  }

  /** submit accepted the selector's task: it is now the last of its handler's. */
  ghost predicate PoolAccepted(s: State, s': State) {
    var u := s.selector;
    && u in s.pool.pcs && s.pool.pcs[u].WantSubmit?
    && var b, task := s.pool.pcs[u].act, s.pool.pcs[u].run;
    && task.buf < |s.bufs|
    && s' == s.(pool := s'.pool, bufs := s.bufs[task.buf := s.bufs[task.buf].(owner := Task(b, |Sub(s, b)|))])
    && P.Inv(s'.pool)
    && u in s'.pool.pcs && s'.pool.pcs == s.pool.pcs[u := s'.pool.pcs[u]]
    && !T.IsWorker(s'.pool.pcs[u]) && !s'.pool.pcs[u].WantSubmit?
    && (forall a :: Accepted(s, s', a, b, task))
  }

  predicate Accepted(s: State, s': State, a: Act, b: Act, task: ReadTask) {
    && Fin(s', a) == Fin(s, a) && Taken(s', a) == Taken(s, a)
    && P.Current(s'.pool, a) == P.Current(s.pool, a)
    && Sub(s', a) == (if a == b then Sub(s, a) + [task] else Sub(s, a))
  }

  lemma AcceptConn(s: State, s': State, a: Act)
    requires SelectorInv(s) && ConnInv(s, a) && PoolAccepted(s, s')
    ensures ConnInv(s', a)
  {
    var u := s.selector;
    var b, task := s.pool.pcs[u].act, s.pool.pcs[u].run;
    assert Accepted(s, s', a, b, task);
    if a == b { ChunksAppend(Sub(s, a), task); }
    assert Brought(s', a) == "";
    assert Brought(s, a) == if a == b then task.chunk else "";
  }

  lemma AcceptOld(s: State, s': State, a: Act, k: nat)
    requires SelectorInv(s) && WaitingInv(s, a, k) && PoolAccepted(s, s') && k < |Sub(s, a)|
    ensures WaitingInv(s', a, k)
  {
    assert Accepted(s, s', a, s.pool.pcs[s.selector].act, s.pool.pcs[s.selector].run);
    assert Sub(s', a)[k] == Sub(s, a)[k];
  }

  lemma AcceptNew(s: State, s': State)
    requires SelectorInv(s) && PoolAccepted(s, s')
    ensures var b := s.pool.pcs[s.selector].act; WaitingInv(s', b, |Sub(s, b)|)
  {
    var b, task := s.pool.pcs[s.selector].act, s.pool.pcs[s.selector].run;
    assert Accepted(s, s', b, b, task);
    assert Sub(s', b)[|Sub(s, b)|] == task;
  }

  lemma AcceptWaiting(s: State, s': State, a: Act, k: nat)
    requires SelectorInv(s) && WaitingInv(s, a, k) && PoolAccepted(s, s')
    ensures WaitingInv(s', a, k)
  {
    var b, task := s.pool.pcs[s.selector].act, s.pool.pcs[s.selector].run;
    assert Accepted(s, s', a, b, task);
    if k < |Sub(s, a)| { AcceptOld(s, s', a, k); } else if a == b && k == |Sub(s, a)| { AcceptNew(s, s'); }
  }

  lemma AcceptBuffer(s: State, s': State, m: nat)
    requires SelectorInv(s) && BufferInv(s, m) && PoolAccepted(s, s')
    requires var b := s.pool.pcs[s.selector].act; |Fin(s, b)| <= |Taken(s, b)| <= |Sub(s, b)|
    ensures BufferInv(s', m)
  {
    var b, task := s.pool.pcs[s.selector].act, s.pool.pcs[s.selector].run;
    assert Accepted(s, s', b, b, task);
    if m < |s.bufs| && m != task.buf && s.bufs[m].owner.Task? {
      var a := s.bufs[m].owner.act;
      assert Accepted(s, s', a, b, task);
      if s.bufs[m].owner.index < |Taken(s, a)| {
        var t :| Using(s, a, t);
        assert Using(s', a, t);
      }
    }
  }

  lemma KeepPoolAccepted(s: State, s': State)
    requires Inv(s) && PoolAccepted(s, s')
    ensures Inv(s')
  {
    var u := s.selector;
    var b, task := s.pool.pcs[u].act, s.pool.pcs[u].run;
    T.TakenBetween(s.pool, b);
    forall a, k: nat ensures WaitingInv(s', a, k) { assert WaitingInv(s, a, k); AcceptWaiting(s, s', a, k); }
    forall t ensures RunningInv(s', t) {
      assert RunningInv(s, t);
      if t in s.pool.pcs && s.pool.pcs[t].Running? { assert Accepted(s, s', s.pool.pcs[t].act, b, task); }
    }
    forall a ensures ConnInv(s', a) { assert ConnInv(s, a); AcceptConn(s, s', a); }
    forall a, k: nat ensures CutInv(s', a, k) { assert CutInv(s, a, k) && Accepted(s, s', a, b, task); }
    forall m: nat ensures BufferInv(s', m) { assert BufferInv(s, m); AcceptBuffer(s, s', m); }
    forall i: nat ensures FreeInv(s', i) { assert FreeInv(s, i); }
    forall i: nat, j: nat ensures FreeDistinct(s', i, j) { assert FreeDistinct(s, i, j); }
    forall t ensures OtherInv(s', t) { assert OtherInv(s, t); }
  }

  lemma KeepPoolMoveAccept(s: State, st: Step)
    requires Inv(s) && Enabled(s, st) && st.PoolMove? && s.pool.pcs[st.tid].WantSubmit?
    ensures Inv(Next(s, st))
  {
    var s', u := Next(s, st), st.tid;
    var b, task := s.pool.pcs[u].act, s.pool.pcs[u].run;
    assert OtherInv(s, u);
    P.InvStep(s.pool, P.Move(u));
    forall a ensures Accepted(s, s', a, b, task) { T.EffectMove(s.pool, u, a); }
    T.EffectMove(s.pool, u, b);
    KeepPoolAccepted(s, s');
  }

  lemma TakeRunning(s: State, st: Step)
    requires Inv(s) && Enabled(s, st) && st.PoolTake?
    ensures RunningInv(Next(s, st), st.tid)
  {
    var w := s.pool.enqueued[s.pool.taken];
    TakesFirstWaiting(s, st);
    T.EffectTake(s.pool, st.tid, w.act);
    assert WaitingInv(s, w.act, |Fin(s, w.act)|) && ConnInv(s, w.act);
  }

  /** The task taken is the first of its handler's that has not been taken, and all before it have
      finished. */
  lemma TakesFirstWaiting(s: State, st: Step)
    requires Inv(s) && Enabled(s, st) && st.PoolTake?
    ensures var a := ActTaken(s);
            && |Taken(s, a)| == |Fin(s, a)| < |Sub(s, a)| && P.Current(s.pool, a) == []
            && Sub(s, a)[|Fin(s, a)|] == s.pool.enqueued[s.pool.taken].run
  {
    var s', w := Next(s, st), s.pool.enqueued[s.pool.taken];
    P.InvStep(s.pool, P.Take(st.tid));
    T.EffectTake(s.pool, st.tid, w.act);
    T.TakenBetween(s'.pool, w.act);
    T.TakenBetween(s.pool, w.act);
    assert Taken(s', w.act)[|Fin(s, w.act)|] == w.run;
  }

  function ActTaken(s: State): Act
    requires s.pool.taken < |s.pool.enqueued|
  {
    s.pool.enqueued[s.pool.taken].act
  }

  /** Worker u took a task of b out of the executor's queue. */
  ghost predicate PoolTook(s: State, s': State, u: Tid, b: Act) {
    && s' == s.(pool := s'.pool, bodies := s.bodies[u := Looping]) && P.Inv(s'.pool)
    && u in s.pool.pcs && s.pool.pcs[u].Parked? && u in s'.pool.pcs
    && s'.pool.pcs == s.pool.pcs[u := s'.pool.pcs[u]] && s'.pool.pcs[u].Running? && s'.pool.pcs[u].act == b
    && (forall a :: Took(s, s', a, b))
  }

  predicate Took(s: State, s': State, a: Act, b: Act) {
    && Fin(s', a) == Fin(s, a) && Sub(s', a) == Sub(s, a)
    && (a != b ==> Taken(s', a) == Taken(s, a) && P.Current(s'.pool, a) == P.Current(s.pool, a))
    && (a == b ==> |Taken(s', a)| == |Taken(s, a)| + 1 && P.Current(s'.pool, a) != [])
  }

  lemma KeepPoolTake(s: State, st: Step)
    requires Inv(s) && Enabled(s, st) && st.PoolTake?
    ensures Inv(Next(s, st))
  {
    var s', u, b := Next(s, st), st.tid, ActTaken(s);
    P.InvStep(s.pool, P.Take(u));
    TakeRunning(s, st);
    forall a ensures Took(s, s', a, b) { T.EffectTake(s.pool, u, a); }
    T.EffectTake(s.pool, u, b);
    KeepPoolTook(s, s', u, b);
  }

  lemma TookBuffer(s: State, s': State, u: Tid, b: Act, m: nat)
    requires PoolTook(s, s', u, b) && BufferInv(s, m)
    ensures BufferInv(s', m)
  {
    assert Using(s', b, u);
    if m < |s.bufs| && s.bufs[m].owner.Task? {
      var a := s.bufs[m].owner.act;
      assert Took(s, s', a, b);
      if s.bufs[m].owner.index < |Taken(s, a)| {
        var t :| Using(s, a, t);
        assert Using(s', a, t);
      }
    }
  }

  lemma TookRunning(s: State, s': State, u: Tid, b: Act, t: Tid)
    requires PoolTook(s, s', u, b) && RunningInv(s, t) && t != u
    ensures RunningInv(s', t)
  {
    if t in s.pool.pcs && s.pool.pcs[t].Running? { assert Took(s, s', s.pool.pcs[t].act, b); }
  }

  lemma TookConn(s: State, s': State, u: Tid, b: Act, a: Act)
    requires PoolTook(s, s', u, b) && ConnInv(s, a) && SelectorInv(s)
    ensures ConnInv(s', a)
  {
    assert Took(s, s', a, b);
    assert Brought(s', a) == Brought(s, a);
  }

  lemma KeepPoolTook(s: State, s': State, u: Tid, b: Act)
    requires Inv(s) && PoolTook(s, s', u, b) && RunningInv(s', u)
    ensures Inv(s')
  {
    forall a, k: nat ensures WaitingInv(s', a, k) { assert WaitingInv(s, a, k) && Took(s, s', a, b); }
    forall t ensures RunningInv(s', t) { if t != u { assert RunningInv(s, t); TookRunning(s, s', u, b, t); } }
    forall a ensures ConnInv(s', a) { assert ConnInv(s, a); TookConn(s, s', u, b, a); }
    forall a, k: nat ensures CutInv(s', a, k) { assert CutInv(s, a, k) && Took(s, s', a, b); }
    forall m: nat ensures BufferInv(s', m) { assert BufferInv(s, m); TookBuffer(s, s', u, b, m); }
    forall i: nat ensures FreeInv(s', i) { assert FreeInv(s, i); }
    forall i: nat, j: nat ensures FreeDistinct(s', i, j) { assert FreeDistinct(s, i, j); }
    forall t ensures OtherInv(s', t) { assert OtherInv(s, t); }
  }

  /** Worker u finished its task. */
  ghost predicate PoolFinished(s: State, s': State, u: Tid) {
    && AtBody(s, u) && s.bodies[u].Released?
    && s' == s.(pool := s'.pool) && P.Inv(s'.pool)
    && s'.pool.pcs == s.pool.pcs[u := P.WantComplete(s.pool.pcs[u].act)]
    && (forall a :: Finished(s, s', a, s.pool.pcs[u].act, s.pool.pcs[u].run))
  }

  predicate Finished(s: State, s': State, a: Act, b: Act, task: ReadTask) {
    && Taken(s', a) == Taken(s, a) && Sub(s', a) == Sub(s, a)
    && Fin(s', a) == (if a == b then Fin(s, a) + [task] else Fin(s, a))
    && (a != b ==> P.Current(s'.pool, a) == P.Current(s.pool, a))
  }

  lemma FinishConn(s: State, s': State, u: Tid, a: Act)
    requires PoolFinished(s, s', u) && RunningInv(s, u) && ConnInv(s, a) && SelectorInv(s)
    ensures ConnInv(s', a)
  {
    assert Finished(s, s', a, s.pool.pcs[u].act, s.pool.pcs[u].run);
    assert Brought(s', a) == Brought(s, a);
    if a == s.pool.pcs[u].act { ChunksAppend(Fin(s, a), s.pool.pcs[u].run); }
  }

  lemma KeepPoolFinished(s: State, s': State, u: Tid)
    requires Inv(s) && PoolFinished(s, s', u)
    ensures Inv(s')
  {
    var b, task := s.pool.pcs[u].act, s.pool.pcs[u].run;
    RunnerFacts(s, u);
    assert RunningInv(s, u);
    forall a, k: nat ensures WaitingInv(s', a, k) { assert WaitingInv(s, a, k) && Finished(s, s', a, b, task); }
    forall t ensures RunningInv(s', t) {
      assert RunningInv(s, t);
      if t != u && t in s.pool.pcs && s.pool.pcs[t].Running? {
        assert Finished(s, s', s.pool.pcs[t].act, b, task);
        if s.pool.pcs[t].act == b { SameRunner(s, t, u); }
      }
    }
    forall a ensures ConnInv(s', a) { assert ConnInv(s, a); FinishConn(s, s', u, a); }
    forall a, k: nat ensures CutInv(s', a, k) { assert CutInv(s, a, k) && Finished(s, s', a, b, task); }
    forall m: nat ensures BufferInv(s', m) {
      assert BufferInv(s, m);
      if m < |s.bufs| && s.bufs[m].owner.Task? {
        var a := s.bufs[m].owner.act;
        assert Finished(s, s', a, b, task);
        if s.bufs[m].owner.index < |Taken(s, a)| {
          var t :| Using(s, a, t);
          if a == b { SameRunner(s, t, u); }
          assert Using(s', a, t);
        }
      }
    }
    forall i: nat ensures FreeInv(s', i) { assert FreeInv(s, i); }
    forall i: nat, j: nat ensures FreeDistinct(s', i, j) { assert FreeDistinct(s, i, j); }
    forall t ensures OtherInv(s', t) { assert OtherInv(s, t); }
  }

  lemma KeepPoolFinish(s: State, st: Step)
    requires Inv(s) && Enabled(s, st) && st.PoolFinish?
    ensures Inv(Next(s, st))
  {
    var s', u := Next(s, st), st.tid;
    var b, task := s.pool.pcs[u].act, s.pool.pcs[u].run;
    P.InvStep(s.pool, P.Finish(u, s.bodies[u].threw));
    forall a ensures Finished(s, s', a, b, task) { T.EffectFinish(s.pool, u, s.bodies[u].threw, a); }
    T.EffectFinish(s.pool, u, s.bodies[u].threw, b);
    KeepPoolFinished(s, s', u);
  }

  /* ---- Steps of a task ---- */

  /** A byte keeps what a connection's history says, also when the iteration throws. */
  lemma DecodedKeeps(c: ReadPath.Conn, b: char, throws: bool)
    requires Decodes(c)
    ensures var c' := Decoded(c, b, throws);
            && Decodes(c') && c'.read == c.read && c'.cuts == c.cuts && (c'.threw <==> c.threw || Throws(c, b, throws))
            && c'.consumed == if b == NUL || !throws then c.consumed + [b] else c.consumed
  {
    SegmentsAppend(c.consumed, b);
    BuiltAppend(Segments(c.consumed).frames, c.partial);
  }

  /** Worker u took a step of its task: only its buffer, its body and its connection can change. */
  ghost predicate TaskStepped(s: State, s': State, u: Tid) {
    && u in s.pool.pcs && s.pool.pcs[u].Running? && u in s.bodies && !s.bodies[u].Released? && u in s'.bodies
    && s'.pool == s.pool && s'.sel == s.sel && s'.selector == s.selector
    && s'.bodies == s.bodies[u := s'.bodies[u]]
    && var a, n := s.pool.pcs[u].act, s.pool.pcs[u].run.buf;
       && a in s.conns && a in s'.conns && s'.conns == s.conns[a := s'.conns[a]]
       && n < |s.bufs| == |s'.bufs| && s'.bufs == s.bufs[n := s'.bufs[n]] && s.bufs[n].owner == Task(a, |Fin(s, a)|)
       && |Fin(s, a)| < |Taken(s, a)|
  }

  lemma SteppedWaiting(s: State, s': State, u: Tid, a: Act, k: nat)
    requires TaskStepped(s, s', u) && WaitingInv(s, a, k)
    ensures WaitingInv(s', a, k)
  {
  }

  lemma SteppedRunning(s: State, s': State, u: Tid, t: Tid)
    requires P.Inv(s.pool) && TaskStepped(s, s', u) && RunningInv(s, t) && t != u
    ensures RunningInv(s', t)
  {
    if t in s.pool.pcs && s.pool.pcs[t].Running? {
      if s.pool.pcs[t].act == s.pool.pcs[u].act { SameRunner(s, t, u); }
    }
  }

  lemma SteppedConn(s: State, s': State, u: Tid, a: Act)
    requires TaskStepped(s, s', u) && ConnInv(s, a) && a != s.pool.pcs[u].act
    ensures ConnInv(s', a)
  {
    assert Brought(s', a) == Brought(s, a);
  }

  lemma SteppedOwnConn(s: State, s': State, u: Tid)
    requires TaskStepped(s, s', u) && ConnInv(s, s.pool.pcs[u].act) && P.Current(s.pool, s.pool.pcs[u].act) != []
    requires var a := s.pool.pcs[u].act; Decodes(s'.conns[a]) && s'.conns[a].read == s.conns[a].read
    ensures ConnInv(s', s.pool.pcs[u].act)
  {
    var a := s.pool.pcs[u].act;
    assert Brought(s', a) == Brought(s, a);
    assert P.Current(s'.pool, a) == P.Current(s.pool, a);
  }

  lemma StepsTask(s: State, st: Step)
    requires Inv(s) && Enabled(s, st) && (st.GetByte? || st.Release?)
    ensures TaskStepped(s, Next(s, st), st.tid)
  {
    assert RunningInv(s, st.tid);
    RunnerFacts(s, st.tid);
  }

  /** One more byte of a chunk. */
  lemma OneMore(used: string, content: string, pos: nat)
    requires pos < |content|
    ensures used + content[..pos + 1] == (used + content[..pos]) + [content[pos]]
  {
    assert content[..pos + 1] == content[..pos] + [content[pos]];
  }

  lemma ByteTaken(fin: seq<ReadTask>, task: ReadTask, a: Act, b: Buffer, c: ReadPath.Conn, throws: bool)
    requires BodyInv(Looping, fin, task, a, b, c) && HasRemaining(b) && Decodes(c)
    requires b.content[b.pos] == NUL || !throws
    ensures var c' := Decoded(c, b.content[b.pos], throws);
            && |c'.cuts| == |fin| && c'.consumed == Used(fin, c'.cuts) + b.content[..b.pos + 1]
            && (c'.threw <==> c.threw || Throws(c, b.content[b.pos], throws))
  {
    DecodedKeeps(c, b.content[b.pos], throws);
    OneMore(Used(fin, c.cuts), b.content, b.pos);
  }

  lemma ByteBody(fin: seq<ReadTask>, task: ReadTask, a: Act, b: Buffer, c: ReadPath.Conn, throws: bool)
    requires BodyInv(Looping, fin, task, a, b, c) && HasRemaining(b) && Decodes(c)
    ensures var byte := b.content[b.pos];
            var body := if !Throws(c, byte, throws) then Looping
                        else Failed(if byte == NUL then b.pos + 1 else b.pos);
            BodyInv(body, fin, task, a, b.(pos := b.pos + 1), Decoded(c, byte, throws))
  {
    if b.content[b.pos] == NUL || !throws { ByteTaken(fin, task, a, b, c, throws); }
  }

  lemma ByteRunning(s: State, st: Step)
    requires Inv(s) && Enabled(s, st) && st.GetByte?
    ensures RunningInv(Next(s, st), st.tid)
  {
    var u := st.tid;
    var a, task := s.pool.pcs[u].act, s.pool.pcs[u].run;
    assert RunningInv(s, u) && ConnInv(s, a);
    ByteBody(Fin(s, a), task, a, s.bufs[task.buf], s.conns[a], st.throws);
  }

  lemma ByteConn(s: State, st: Step)
    requires Inv(s) && Enabled(s, st) && st.GetByte?
    ensures ConnInv(Next(s, st), s.pool.pcs[st.tid].act)
  {
    var u := st.tid;
    var a, b := s.pool.pcs[u].act, s.bufs[s.pool.pcs[u].run.buf];
    assert ConnInv(s, a);
    RunnerFacts(s, u);
    StepsTask(s, st);
    DecodedKeeps(s.conns[a], b.content[b.pos], st.throws);
    SteppedOwnConn(s, Next(s, st), u);
  }

  lemma ByteCut(s: State, st: Step, a: Act, k: nat)
    requires Inv(s) && Enabled(s, st) && st.GetByte?
    ensures CutInv(Next(s, st), a, k)
  {
    var u := st.tid;
    var b := s.bufs[s.pool.pcs[u].run.buf];
    assert CutInv(s, a, k) && ConnInv(s, s.pool.pcs[u].act);
    DecodedKeeps(s.conns[s.pool.pcs[u].act], b.content[b.pos], st.throws);
  }

  lemma ByteBuffer(s: State, st: Step, m: nat)
    requires Inv(s) && Enabled(s, st) && st.GetByte?
    ensures BufferInv(Next(s, st), m)
  {
    assert BufferInv(s, m) && RunningInv(s, st.tid);
    if m < |s.bufs| && s.bufs[m].owner.Task? { StillUsed(s, Next(s, st), m); }
  }

  lemma KeepGetByte(s: State, st: Step)
    requires Inv(s) && Enabled(s, st) && st.GetByte?
    ensures Inv(Next(s, st))
  {
    var s', u := Next(s, st), st.tid;
    StepsTask(s, st);
    forall a, k: nat ensures WaitingInv(s', a, k) { assert WaitingInv(s, a, k); SteppedWaiting(s, s', u, a, k); }
    forall t ensures RunningInv(s', t) {
      if t == u { ByteRunning(s, st); } else { assert RunningInv(s, t); SteppedRunning(s, s', u, t); }
    }
    forall a ensures ConnInv(s', a) {
      if a == s.pool.pcs[u].act { ByteConn(s, st); } else { assert ConnInv(s, a); SteppedConn(s, s', u, a); }
    }
    forall a, k: nat ensures CutInv(s', a, k) { ByteCut(s, st, a, k); }
    forall m: nat ensures BufferInv(s', m) { ByteBuffer(s, st, m); }
    forall i: nat ensures FreeInv(s', i) { assert FreeInv(s, i); }
    forall i: nat, j: nat ensures FreeDistinct(s', i, j) { assert FreeDistinct(s, i, j); }
    forall t ensures OtherInv(s', t) { assert OtherInv(s, t); }
  }

  lemma ReleaseBody(body: Body, fin: seq<ReadTask>, task: ReadTask, a: Act, b: Buffer, c: ReadPath.Conn)
    requires BodyInv(body, fin, task, a, b, c) && !body.Released? && (body.Looping? ==> !HasRemaining(b))
    ensures var c' := c.(cuts := c.cuts + [Ended(body, b)]);
            && BodyInv(Released(body.Failed?), fin, task, a, b.(owner := Free), c')
            && CutOf(Ended(body, b), task.chunk) && (Ended(body, b).threw ==> c.threw)
  {
    UsedAppend(fin, c.cuts, task, Ended(body, b));
    assert body.Looping? ==> b.content[..b.pos] == task.chunk;
    assert task.chunk[..|task.chunk|] == task.chunk;
  }

  lemma ReleaseRunning(s: State, st: Step)
    requires Inv(s) && Enabled(s, st) && st.Release?
    ensures RunningInv(Next(s, st), st.tid)
  {
    var u := st.tid;
    var a, task := s.pool.pcs[u].act, s.pool.pcs[u].run;
    assert RunningInv(s, u);
    ReleaseBody(s.bodies[u], Fin(s, a), task, a, s.bufs[task.buf], s.conns[a]);
  }

  lemma ReleaseConn(s: State, st: Step)
    requires Inv(s) && Enabled(s, st) && st.Release?
    ensures ConnInv(Next(s, st), s.pool.pcs[st.tid].act)
  {
    assert ConnInv(s, s.pool.pcs[st.tid].act);
    RunnerFacts(s, st.tid);
    StepsTask(s, st);
    SteppedOwnConn(s, Next(s, st), st.tid);
  }

  lemma ReleaseCut(s: State, st: Step, a: Act, k: nat)
    requires Inv(s) && Enabled(s, st) && st.Release?
    ensures CutInv(Next(s, st), a, k)
  {
    var u := st.tid;
    var b, task := s.pool.pcs[u].act, s.pool.pcs[u].run;
    assert CutInv(s, a, k) && RunningInv(s, u);
    RunnerFacts(s, u);
    ReleaseBody(s.bodies[u], Fin(s, b), task, b, s.bufs[task.buf], s.conns[b]);
  }

  lemma ReleaseBuffer(s: State, st: Step, m: nat)
    requires Inv(s) && Enabled(s, st) && st.Release?
    ensures BufferInv(Next(s, st), m)
  {
    var s', u := Next(s, st), st.tid;
    var b, n := s.pool.pcs[u].act, s.pool.pcs[u].run.buf;
    assert BufferInv(s, m) && RunningInv(s, u);
    RunnerFacts(s, u);
    if m < |s.bufs| && m != n && s.bufs[m].owner.Task? {
      if s.bufs[m].owner.act == b {
        ReleaseOwn(s, st, m);
      } else {
        StillUsed(s, s', m);
      }
    }
  }

  /** Another buffer of the same handler belongs to a task that waits. */
  lemma ReleaseOwn(s: State, st: Step, m: nat)
    requires Inv(s) && Enabled(s, st) && st.Release? && m < |s.bufs| && m != s.pool.pcs[st.tid].run.buf
    requires s.bufs[m].owner.Task? && s.bufs[m].owner.act == s.pool.pcs[st.tid].act
    ensures BufferInv(Next(s, st), m)
  {
    assert BufferInv(s, m) && RunningInv(s, st.tid);
    RunnerFacts(s, st.tid);
  }

  lemma KeepRelease(s: State, st: Step)
    requires Inv(s) && Enabled(s, st) && st.Release?
    ensures Inv(Next(s, st))
  {
    var s', u := Next(s, st), st.tid;
    StepsTask(s, st);
    forall a, k: nat ensures WaitingInv(s', a, k) { assert WaitingInv(s, a, k); SteppedWaiting(s, s', u, a, k); }
    forall t ensures RunningInv(s', t) {
      if t == u { ReleaseRunning(s, st); } else { assert RunningInv(s, t); SteppedRunning(s, s', u, t); }
    }
    forall a ensures ConnInv(s', a) {
      if a == s.pool.pcs[u].act { ReleaseConn(s, st); } else { assert ConnInv(s, a); SteppedConn(s, s', u, a); }
    }
    forall a, k: nat ensures CutInv(s', a, k) { ReleaseCut(s, st, a, k); }
    forall m: nat ensures BufferInv(s', m) { ReleaseBuffer(s, st, m); }
    forall i: nat ensures FreeInv(s', i) { assert FreeInv(s, i); }
    forall i: nat, j: nat ensures FreeDistinct(s', i, j) { assert FreeDistinct(s, i, j) && FreeInv(s, i); }
    forall t ensures OtherInv(s', t) { assert OtherInv(s, t); }
  }

  lemma InvStep(s: State, st: Step)
    requires Inv(s) && Enabled(s, st)
    ensures Inv(Next(s, st))
  {
    match st
    case PollBuffer(_) => if s.free == [] { KeepPollNothing(s, st); } else { KeepPollBuffer(s, st); }
    case Allocate => KeepAllocate(s, st);
    case ReadChunk(_) => KeepReadChunk(s, st);
    case ReadFails => KeepReadFails(s, st);
    case Submit => KeepSubmit(s, st);
    case PoolMove(t) => if s.pool.pcs[t].WantSubmit? { KeepPoolMoveAccept(s, st); } else { KeepPoolMoveInside(s, st); }
    case PoolTake(_) => KeepPoolTake(s, st);
    case GetByte(_, _) => KeepGetByte(s, st);
    case Release(_) => KeepRelease(s, st);
    case PoolFinish(_) => KeepPoolFinish(s, st);
  }

  lemma {:induction false} RunsKeepInv(b: seq<State>, steps: seq<Step>, i: nat)
    requires IsRun(b, steps) && i < |b|
    ensures Inv(b[i])
  {
    if i == 0 {
      InitInv(b[0]);
    } else {
      RunsKeepInv(b, steps, i - 1);
      InvStep(b[i - 1], steps[i - 1]);
    }
  }
}
