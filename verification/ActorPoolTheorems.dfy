/** What the actor scheduler promises, for every run of the machine in ActorPool. */
module ActorPoolTheorems {
  import opened ActorPool
  import opened NulFraming

  /** Runnables of a that are in the executor's queue. */
  function Scheduled<R>(s: State<R>, a: Act): seq<R> {
    if s.taken <= |s.enqueued| then Runs(s.enqueued[s.taken..], a) else []
  }

  lemma {:induction false} RunsConcat<R>(ws: seq<Wrapper<R>>, ws': seq<Wrapper<R>>, a: Act)
    ensures Runs(ws + ws', a) == Runs(ws, a) + Runs(ws', a)
    decreases |ws'|
  {
    if ws' == [] {
      assert ws + ws' == ws;
    } else {
      var front := ws'[..|ws'| - 1];
      assert (ws + ws')[..|ws + ws'| - 1] == ws + front;
      RunsConcat(ws, front, a);
    }
  }

  /** If a occurs at no position but p, there is at most one runnable, and none without p. */
  lemma {:induction false} RunsAtMostOne<R>(ws: seq<Wrapper<R>>, a: Act, p: int)
    requires forall i :: 0 <= i < |ws| && ws[i].act == a ==> i == p
    ensures |Runs(ws, a)| <= 1
    ensures p < 0 || p >= |ws| || ws[p].act != a ==> Runs(ws, a) == []
  {
    if ws != [] {
      var front := ws[..|ws| - 1];
      RunsAtMostOne(front, a, if p == |ws| - 1 then -1 else p);
    }
  }

  lemma ScheduledAtMostOne<R>(s: State<R>, a: Act)
    requires Inv(s)
    ensures |Scheduled(s, a)| <= 1
    ensures !(a in s.turn && s.turn[a].InQueue?) ==> Scheduled(s, a) == []
  {
    var p := if a in s.turn && s.turn[a].InQueue? then s.turn[a].pos - s.taken else -1;
    forall i | 0 <= i < |s.enqueued[s.taken..]| && s.enqueued[s.taken..][i].act == a
      ensures i == p
    {
      assert PositionInv(s, s.taken + i);
    }
    RunsAtMostOne(s.enqueued[s.taken..], a, p);
  }

  /* ---- What was submitted, by the steps alone ---- */

  /** The last step of a thread. */
  function LastOf<R>(steps: seq<Step<R>>, t: Tid): Option<Step<R>> {
    if steps == [] then None
    else
      var last := |steps| - 1;
      if steps[last].tid == t then Some(steps[last]) else LastOf(steps[..last], t)
  }

  /** The calls of submit in the order in which they entered the monitor of their act: a thread enters
      with its first step after the call. */
  function Entered<R>(steps: seq<Step<R>>): seq<Wrapper<R>> {
    if steps == [] then []
    else
      var front, st := steps[..|steps| - 1], steps[|steps| - 1];
      if !st.Move? then Entered(front)
      else
        match LastOf(front, st.tid)
        case None => Entered(front)
        case Some(call) => if call.Call? then Entered(front) + [Wrapper(call.act, call.run)] else Entered(front)
  }

  /** The steps so far explain what the machine has recorded as submitted. */
  ghost predicate Explained<R>(s: State<R>, steps: seq<Step<R>>) {
    && s.submitted == Entered(steps)
    && forall t :: ThreadExplained(s, steps, t)
  }

  ghost predicate ThreadExplained<R>(s: State<R>, steps: seq<Step<R>>, t: Tid) {
    && (t in s.pcs && s.pcs[t].WantSubmit? ==> LastOf(steps, t) == Some(Call(t, s.pcs[t].act, s.pcs[t].run)))
    && (t in s.pcs && !s.pcs[t].WantSubmit? ==> LastOf(steps, t).None? || !LastOf(steps, t).value.Call?)
  }

  lemma LastOfAppend<R>(steps: seq<Step<R>>, st: Step<R>, t: Tid)
    ensures LastOf(steps + [st], t) == if st.tid == t then Some(st) else LastOf(steps, t)
  {
    assert (steps + [st])[..|steps|] == steps;
  }

  /** A step changes its thread's program counter only, and ends waiting for the monitor in no way but
      by entering it. */
  lemma OwnStep<R>(s: State<R>, st: Step<R>)
    requires Enabled(s, st)
    ensures ByThread(s, Next(s, st), st.tid)
    ensures Next(s, st).pcs[st.tid].WantSubmit? <==> st.Call?
    ensures st.Call? ==> Next(s, st).pcs[st.tid] == WantSubmit(st.act, st.run)
    ensures Next(s, st).submitted
            == if st.Move? && s.pcs[st.tid].WantSubmit?
               then s.submitted + [Wrapper(s.pcs[st.tid].act, s.pcs[st.tid].run)] else s.submitted
  {
    StepByThread(s, st);
    if st.Move? {
      KindMove(s, st.tid);
      HistoryMove(s, st.tid);
    }
  }

  lemma StepExplained<R>(s: State<R>, steps: seq<Step<R>>, st: Step<R>)
    requires Enabled(s, st) && Explained(s, steps)
    ensures Explained(Next(s, st), steps + [st])
  {
    OwnStep(s, st);
    assert ThreadExplained(s, steps, st.tid);
    assert (steps + [st])[..|steps|] == steps;
    forall t ensures ThreadExplained(Next(s, st), steps + [st], t) {
      assert ThreadExplained(s, steps, t);
      LastOfAppend(steps, st, t);
    }
  }

  lemma {:induction false} SubmittedIsEntered<R>(b: seq<State<R>>, steps: seq<Step<R>>, i: nat)
    requires IsRun(b, steps) && i < |b|
    ensures Explained(b[i], steps[..i])
  {
    if i == 0 {
      assert steps[..0] == [];
    } else {
      SubmittedIsEntered(b, steps, i - 1);
      assert steps[..i] == steps[..i - 1] + [steps[i - 1]];
      StepExplained(b[i - 1], steps[..i - 1], steps[i - 1]);
    }
  }

  /** FIFO, exactly once, mutual exclusion: in every reachable state the runnables whose calls of
      submit have entered the act's monitor are, in that order and each exactly once, the finished
      ones, then at most one that is running, scheduled or being handed on, then the pending ones, then
      the one still inside submit. */
  lemma SubmittedExactlyOnceInOrder<R>(b: seq<State<R>>, steps: seq<Step<R>>, i: nat, a: Act)
    requires IsRun(b, steps) && i < |b|
    ensures var s := b[i];
            && Runs(Entered(steps[..i]), a) == Runs(s.finished, a)
                 + (Current(s, a) + Scheduled(s, a) + InHand(s, a, true))
                 + Pending(s, a) + InHand(s, a, false)
            && |Current(s, a)| + |Scheduled(s, a)| + |InHand(s, a, true)| <= 1
  {
    RunsKeepInv(b, steps, i);
    SubmittedIsEntered(b, steps, i);
    InOrder(b[i], a);
    OneTurn(b[i], a);
  }

  lemma InOrder<R>(s: State<R>, a: Act)
    requires s.taken <= |s.enqueued| && OrderAt(s, a) && RunAt(s, a)
    ensures Runs(s.submitted, a) == Runs(s.finished, a)
              + (Current(s, a) + Scheduled(s, a) + InHand(s, a, true))
              + Pending(s, a) + InHand(s, a, false)
  {
    assert s.enqueued == s.enqueued[..s.taken] + s.enqueued[s.taken..];
    RunsConcat(s.enqueued[..s.taken], s.enqueued[s.taken..], a);
    RegroupOrder(Runs(s.finished, a), Current(s, a), Scheduled(s, a), InHand(s, a, true),
                 Pending(s, a), InHand(s, a, false));
  }

  lemma RegroupOrder<R>(done: seq<R>, current: seq<R>, scheduled: seq<R>, polled: seq<R>, pending: seq<R>,
                        brought: seq<R>)
    ensures (done + current) + scheduled + polled + pending + brought
            == done + (current + scheduled + polled) + pending + brought
  {
  }

  /** Of running, scheduled and being handed on, an act has one at most. */
  lemma OneTurn<R>(s: State<R>, a: Act)
    requires Inv(s)
    ensures |Current(s, a)| + |Scheduled(s, a)| + |InHand(s, a, true)| <= 1
  {
    ScheduledAtMostOne(s, a);
    assert ActInv(s, a);
    if a in s.monitor {
      assert ThreadInv(s, s.monitor[a]);
    }
  }

  /** At most one thread runs a runnable of an act, and it is the one Current names. */
  lemma MutualExclusion<R>(b: seq<State<R>>, steps: seq<Step<R>>, i: nat, t: Tid, t': Tid)
    requires IsRun(b, steps) && i < |b|
    requires t in b[i].pcs && t' in b[i].pcs && b[i].pcs[t].Running? && b[i].pcs[t'].Running?
    requires b[i].pcs[t].act == b[i].pcs[t'].act
    ensures t == t' && Current(b[i], b[i].pcs[t].act) == [b[i].pcs[t].run]
  {
    RunsKeepInv(b, steps, i);
    assert ThreadInv(b[i], t) && ThreadInv(b[i], t');
  }

  /** Mutual exclusion of the monitors themselves. */
  lemma MonitorExclusion<R>(b: seq<State<R>>, steps: seq<Step<R>>, i: nat, t: Tid, t': Tid)
    requires IsRun(b, steps) && i < |b|
    requires t in b[i].pcs && t' in b[i].pcs && InMonitor(b[i].pcs[t]) && InMonitor(b[i].pcs[t'])
    requires b[i].pcs[t].act == b[i].pcs[t'].act
    ensures t == t'
  {
    RunsKeepInv(b, steps, i);
    assert ThreadInv(b[i], t) && ThreadInv(b[i], t');
  }

  /** The put in the lock gap never replaces a queue: an act keeps its queue object for ever,
      and no two acts share one. */
  lemma {:induction false} QueueNeverOverwritten<R>(b: seq<State<R>>, steps: seq<Step<R>>, i: nat, j: nat, a: Act)
    requires IsRun(b, steps) && i <= j < |b| && a in b[i].acts
    ensures a in b[j].acts && b[j].acts[a] == b[i].acts[a]
    ensures forall a' :: a' in b[j].acts && b[j].acts[a'] == b[j].acts[a] ==> a' == a
    decreases j
  {
    if i < j {
      QueueNeverOverwritten(b, steps, i, j - 1, a);
      RunsKeepInv(b, steps, j - 1);
      KeepsQueue(b[j - 1], steps[j - 1], a);
    }
    RunsKeepInv(b, steps, j);
    forall a' | a' in b[j].acts && b[j].acts[a'] == b[j].acts[a] ensures a' == a {
      assert OwnQueues(b[j], a, a');
    }
  }

  lemma KeepsQueue<R>(s: State<R>, st: Step<R>, a: Act)
    requires Inv(s) && Enabled(s, st) && a in s.acts
    ensures a in Next(s, st).acts && Next(s, st).acts[a] == s.acts[a]
  {
    assert ThreadInv(s, st.tid);
    if st.Move? {
      if InComplete(s.pcs[st.tid]) { KeepsQueueComplete(s, st.tid, a); } else { KeepsQueueSubmit(s, st.tid, a); }
    }
  }

  lemma KeepsQueueSubmit<R>(s: State<R>, t: Tid, a: Act)
    requires Enabled(s, Move(t)) && !InComplete(s.pcs[t]) && ThreadInv(s, t) && a in s.acts
    ensures a in SubmitMoved(s, t).acts && SubmitMoved(s, t).acts[a] == s.acts[a]
  {
  }

  lemma KeepsQueueComplete<R>(s: State<R>, t: Tid, a: Act)
    requires Enabled(s, Move(t)) && InComplete(s.pcs[t]) && ThreadInv(s, t) && a in s.acts
    ensures a in CompleteMoved(s, t).acts && CompleteMoved(s, t).acts[a] == s.acts[a]
  {
  }

  /** No act outside playingNow has pending or scheduled work. */
  lemma IdleActsAreEmpty<R>(b: seq<State<R>>, steps: seq<Step<R>>, i: nat, a: Act)
    requires IsRun(b, steps) && i < |b| && a !in b[i].playingNow
    ensures Pending(b[i], a) == [] && Scheduled(b[i], a) == [] && Current(b[i], a) == []
    ensures Runs(b[i].submitted, a) == Runs(b[i].finished, a) + InHand(b[i], a, false)
  {
    RunsKeepInv(b, steps, i);
    IdleIsEmpty(b[i], a);
  }

  lemma IdleIsEmpty<R>(s: State<R>, a: Act)
    requires Inv(s) && a !in s.playingNow
    ensures Pending(s, a) == [] && Scheduled(s, a) == [] && Current(s, a) == []
    ensures Runs(s.submitted, a) == Runs(s.finished, a) + InHand(s, a, false)
  {
    assert OrderAt(s, a) && RunAt(s, a) && ActInv(s, a);
    InOrder(s, a);
    ScheduledAtMostOne(s, a);
    if a in s.monitor { assert ThreadInv(s, s.monitor[a]); }
  }

  /* ---- Progress ---- */

  predicate IsWorker<R>(pc: Pc<R>) {
    pc.Parked? || pc.Running? || InComplete(pc)
  }

  lemma KindStep<R>(s: State<R>, st: Step<R>, t: Tid)
    requires Enabled(s, st) && t in s.pcs && IsWorker(s.pcs[t])
    ensures t in Next(s, st).pcs && IsWorker(Next(s, st).pcs[t])
  {
    StepByThread(s, st);
    if t == st.tid && st.Move? { KindComplete(s, t); }
  }

  lemma {:induction false} WorkersStay<R>(b: seq<State<R>>, steps: seq<Step<R>>, i: nat, w: Tid)
    requires IsRun(b, steps) && i < |b| && w in b[0].pcs && b[0].pcs[w].Parked?
    ensures w in b[i].pcs && IsWorker(b[i].pcs[w])
  {
    if i > 0 {
      WorkersStay(b, steps, i - 1, w);
      KindStep(b[i - 1], steps[i - 1], w);
    }
  }

  lemma InsideCanMove<R>(s: State<R>, t: Tid)
    requires Inv(s) && t in s.pcs && InMonitor(s.pcs[t])
    ensures Enabled(s, Move(t))
  {
    assert ThreadInv(s, t) && ActInv(s, s.pcs[t].act);
  }

  /** Thread t can take a step that is not a new call of submit. */
  predicate CanStep<R>(s: State<R>, t: Tid) {
    Enabled(s, Move(t)) || Enabled(s, Take(t)) || Enabled(s, Finish(t, false))
  }

  /** No deadlock and no lost runnable: with at least one worker, as long as something submitted
      has not finished some thread can take a step. */
  lemma NoDeadlock<R>(b: seq<State<R>>, steps: seq<Step<R>>, i: nat, w: Tid, a: Act)
    requires IsRun(b, steps) && i < |b| && w in b[0].pcs && b[0].pcs[w].Parked?
    ensures (exists t :: CanStep(b[i], t)) || Runs(b[i].finished, a) == Runs(b[i].submitted, a)
  {
    RunsKeepInv(b, steps, i);
    WorkersStay(b, steps, i, w);
    StandStill(b[i], w, a);
  }

  /** Where no thread can step, all are outside and everything submitted has finished. */
  lemma StandStill<R>(s: State<R>, w: Tid, a: Act)
    requires Inv(s) && w in s.pcs && IsWorker(s.pcs[w])
    ensures (exists t :: CanStep(s, t)) || (
              && Runs(s.finished, a) == Runs(s.submitted, a)
              && forall t :: t in s.pcs ==> s.pcs[t].Outside? || s.pcs[t].Parked?)
  {
    if t :| t in s.pcs && InMonitor(s.pcs[t]) {
      InsideCanMove(s, t);
      assert CanStep(s, t);
    } else {
      forall c ensures c !in s.monitor { assert ActInv(s, c); }
      if t :| t in s.pcs && (Waiting(s.pcs[t]) || s.pcs[t].Running?) {
        assert CanStep(s, t);
      } else if s.taken < |s.enqueued| {
        assert CanStep(s, w);
      } else {
        assert ActInv(s, a);
        IdleIsEmpty(s, a);
      }
    }
  }

  /* ---- Overtaking ---- */

  /** The executor's queue only grows at its end and is taken from at its front. */
  ghost predicate QueueGrown<R>(s: State<R>, s': State<R>) {
    s.enqueued <= s'.enqueued && s.taken <= s'.taken
  }

  lemma RunGrows<R>(b: seq<State<R>>, steps: seq<Step<R>>, k: nat)
    requires IsRun(b, steps) && k < |steps|
    ensures QueueGrown(b[k], b[k + 1])
  {
    StepByThread(b[k], steps[k]);
  }

  lemma {:induction false} GrownChain<R>(b: seq<State<R>>, i: nat, j: nat)
    requires i <= j < |b| && forall k :: 0 <= k < |b| - 1 ==> QueueGrown(b[k], b[k + 1])
    ensures QueueGrown(b[i], b[j])
    decreases j
  {
    if i < j {
      GrownChain(b, i, j - 1);
      assert QueueGrown(b[j - 1], b[j - 1 + 1]);
    }
  }

  lemma HistoryGrows<R>(b: seq<State<R>>, steps: seq<Step<R>>, i: nat, j: nat)
    requires IsRun(b, steps) && i <= j < |b|
    ensures b[i].enqueued <= b[j].enqueued && b[i].taken <= b[j].taken <= |b[j].enqueued|
  {
    RunsKeepInv(b, steps, j);
    forall k | 0 <= k < |b| - 1 ensures QueueGrown(b[k], b[k + 1]) { RunGrows(b, steps, k); }
    GrownChain(b, i, j);
  }

  /** Bounded overtaking: while the wrapper at position p waits, every act starts at most one
      runnable, and the waiting act starts none. */
  lemma BoundedOvertaking<R>(b: seq<State<R>>, steps: seq<Step<R>>, i: nat, j: nat, p: nat, a: Act)
    requires IsRun(b, steps) && i <= j < |b|
    requires b[i].taken <= p < |b[i].enqueued| && b[j].taken <= p
    ensures b[i].taken <= b[j].taken <= |b[j].enqueued|
    ensures var started := Runs(b[j].enqueued[b[i].taken..b[j].taken], a);
            |started| <= 1 && (a == b[i].enqueued[p].act ==> started == [])
  {
    HistoryGrows(b, steps, i, j);
    RunsKeepInv(b, steps, i);
    var s := b[i];
    var started := b[j].enqueued[s.taken..b[j].taken];
    var q := if a in s.turn && s.turn[a].InQueue? then s.turn[a].pos - s.taken else -1;
    forall k | 0 <= k < |started| && started[k].act == a ensures k == q {
      assert started[k] == s.enqueued[s.taken + k];
      assert PositionInv(s, s.taken + k);
    }
    RunsAtMostOne(started, a, q);
    assert PositionInv(s, p);
  }

  /* ---- Counting turns ---- */

  lemma {:induction false} SameSize<A, B>(f: map<A, B>, ys: set<B>)
    requires forall x, x' :: x in f && x' in f && f[x] == f[x'] ==> x == x'
    requires forall x :: x in f ==> f[x] in ys
    requires forall y :: y in ys ==> exists x :: x in f && f[x] == y
    ensures |f.Keys| == |ys|
    decreases |ys|
  {
    if y :| y in ys {
      var x :| x in f && f[x] == y;
      var g := f - {x};
      forall z | z in ys - {y} ensures exists x' :: x' in g && g[x'] == z {
        var x' :| x' in f && f[x'] == z;
        assert x' in g && g[x'] == z;
      }
      SameSize(g, ys - {y});
      assert f.Keys == g.Keys + {x};
    } else {
      assert f.Keys == {};
    }
  }

  /** The workers between taking a wrapper and entering complete. */
  function Busy<R>(s: State<R>): set<Tid> {
    set t | t in s.pcs && (s.pcs[t].Running? || s.pcs[t].WantComplete?)
  }

  /** The positions lo up to, and not including, hi. */
  function Range(lo: nat, hi: nat): (ps: set<nat>)
    requires lo <= hi
    ensures forall p :: p in ps <==> lo <= p < hi
    ensures |ps| == hi - lo
    decreases hi
  {
    if lo == hi then {} else Range(lo, hi - 1) + {hi - 1}
  }

  lemma QueuedActs<R>(s: State<R>)
    requires Inv(s)
    ensures |set a | a in s.turn && s.turn[a].InQueue?| == |s.enqueued| - s.taken
  {
    var f := map a | a in s.turn && s.turn[a].InQueue? :: s.turn[a].pos;
    var ys := Range(s.taken, |s.enqueued|);
    forall a | a in f ensures f[a] in ys && s.enqueued[f[a]].act == a { assert ActInv(s, a); }
    forall p | p in ys ensures exists a :: a in f && f[a] == p {
      assert PositionInv(s, p);
      assert f[s.enqueued[p].act] == p;
    }
    SameSize(f, ys);
    assert f.Keys == set a | a in s.turn && s.turn[a].InQueue?;
  }

  lemma ServedActs<R>(s: State<R>)
    requires Inv(s) && s.monitor == map[]
    ensures |set a | a in s.turn && s.turn[a].AtThread?| == |Busy(s)|
  {
    var f := map a | a in s.turn && s.turn[a].AtThread? :: s.turn[a].tid;
    forall a | a in f ensures f[a] in Busy(s) && s.pcs[f[a]].act == a {
      assert ActInv(s, a) && ThreadInv(s, f[a]);
    }
    forall t | t in Busy(s) ensures exists a :: a in f && f[a] == t {
      assert ThreadInv(s, t);
      assert f[s.pcs[t].act] == t;
    }
    SameSize(f, Busy(s));
    assert f.Keys == set a | a in s.turn && s.turn[a].AtThread?;
  }

  /** Between critical sections the scheduled wrappers and the busy workers are as many as the
      members of playingNow: every act in playingNow has exactly one wrapper. */
  lemma OneWrapperPerPlayingAct<R>(b: seq<State<R>>, steps: seq<Step<R>>, i: nat)
    requires IsRun(b, steps) && i < |b| && b[i].monitor == map[]
    ensures b[i].taken <= |b[i].enqueued|
    ensures |b[i].enqueued| - b[i].taken + |Busy(b[i])| == |b[i].playingNow|
  {
    var s := b[i];
    RunsKeepInv(b, steps, i);
    QueuedActs(s);
    ServedActs(s);
    var queued := set a | a in s.turn && s.turn[a].InQueue?;
    var served := set a | a in s.turn && s.turn[a].AtThread?;
    forall a ensures a in s.turn <==> a in s.playingNow { assert ActInv(s, a); }
    assert s.playingNow == queued + served && queued !! served;
  }

  /* ---- What one step does to the histories ---- */

  /** The runnables of a that a worker has taken. */
  function TakenRuns<R>(s: State<R>, a: Act): seq<R> {
    if s.taken <= |s.enqueued| then Runs(s.enqueued[..s.taken], a) else []
  }

  lemma TakenBetween<R>(s: State<R>, a: Act)
    requires Inv(s)
    ensures TakenRuns(s, a) == Runs(s.finished, a) + Current(s, a)
    ensures TakenRuns(s, a) <= Runs(s.submitted, a)
  {
    assert OrderAt(s, a) && RunAt(s, a);
    assert s.enqueued == s.enqueued[..s.taken] + s.enqueued[s.taken..];
    RunsConcat(s.enqueued[..s.taken], s.enqueued[s.taken..], a);
  }

  lemma CurrentMove<R>(s: State<R>, t: Tid, a: Act)
    requires Inv(s) && Enabled(s, Move(t))
    ensures Current(Next(s, Move(t)), a) == Current(s, a)
  {
    assert Local(s, Move(t)) && ActInv(s, a) && OwnQueues(s, s.pcs[t].act, a);
    if a != s.pcs[t].act {
      StepOther(s, Move(t), a);
    } else if InComplete(s.pcs[t]) {
      CurrentComplete(s, t);
    } else {
      CurrentSubmit(s, t);
    }
  }

  /** A move inside submit or complete starts and ends no runnable, and submits one exactly when
      it enters submit. */
  lemma EffectMove<R>(s: State<R>, t: Tid, a: Act)
    requires Inv(s) && Enabled(s, Move(t))
    ensures var s', pc := Next(s, Move(t)), s.pcs[t];
            && s'.finished == s.finished && TakenRuns(s', a) == TakenRuns(s, a) && Current(s', a) == Current(s, a)
            && Runs(s'.submitted, a) ==
                 Runs(s.submitted, a) + (if pc.WantSubmit? && pc.act == a then [pc.run] else [])
            && t in s'.pcs && s'.pcs == s.pcs[t := s'.pcs[t]] && !s'.pcs[t].Running?
            && !s'.pcs[t].WantSubmit?
            && (s.pcs[t].LeaveSubmit? <==> s'.pcs[t].Outside?)
            && (IsWorker(s.pcs[t]) <==> IsWorker(s'.pcs[t]))
  {
    var s', pc := Next(s, Move(t)), s.pcs[t];
    StepByThread(s, Move(t));
    CurrentMove(s, t, a);
    assert s'.enqueued[..s.taken] == s.enqueued[..s.taken];
    if pc.WantSubmit? { RunsAppend(s.submitted, Wrapper(pc.act, pc.run), a); }
    KindMove(s, t);
    HistoryMove(s, t);
  }

  lemma KindMove<R>(s: State<R>, t: Tid)
    requires Enabled(s, Move(t))
    ensures t in Next(s, Move(t)).pcs
    ensures var pc := Next(s, Move(t)).pcs[t];
            && !pc.Running? && !pc.WantSubmit? && (s.pcs[t].LeaveSubmit? <==> pc.Outside?)
            && (IsWorker(s.pcs[t]) <==> IsWorker(pc))
  {
    if InComplete(s.pcs[t]) { KindComplete(s, t); } else { KindSubmit(s, t); }
  }

  lemma HistoryMove<R>(s: State<R>, t: Tid)
    requires Enabled(s, Move(t))
    ensures Next(s, Move(t)).finished == s.finished
    ensures !s.pcs[t].WantSubmit? ==> Next(s, Move(t)).submitted == s.submitted
  {
    if InComplete(s.pcs[t]) { HistoryComplete(s, t); } else { HistorySubmit(s, t); }
  }

  /** The program counters in the second half of submit. */
  predicate LateInSubmit<R>(pc: Pc<R>) {
    pc.LookupForSubmit? || pc.CreateForSubmit? || pc.Offer? || pc.LeaveSubmit?
  }

  lemma KindSubmit<R>(s: State<R>, t: Tid)
    requires Enabled(s, Move(t)) && !InComplete(s.pcs[t])
    ensures t in SubmitMoved(s, t).pcs
    ensures var pc := SubmitMoved(s, t).pcs[t];
            !IsWorker(pc) && !pc.WantSubmit? && (s.pcs[t].LeaveSubmit? <==> pc.Outside?)
  {
    if LateInSubmit(s.pcs[t]) { KindLate(s, t); } else { KindEarly(s, t); }
  }

  lemma KindEarly<R>(s: State<R>, t: Tid)
    requires Enabled(s, Move(t)) && !InComplete(s.pcs[t]) && !LateInSubmit(s.pcs[t])
    ensures t in SubmitMoved(s, t).pcs
    ensures var pc := SubmitMoved(s, t).pcs[t]; !IsWorker(pc) && !pc.WantSubmit? && !pc.Outside?
  {
  }

  lemma KindLate<R>(s: State<R>, t: Tid)
    requires Enabled(s, Move(t)) && LateInSubmit(s.pcs[t])
    ensures t in SubmitMoved(s, t).pcs
    ensures var pc := SubmitMoved(s, t).pcs[t];
            !IsWorker(pc) && !pc.WantSubmit? && (s.pcs[t].LeaveSubmit? <==> pc.Outside?)
  {
  }

  lemma HistorySubmit<R>(s: State<R>, t: Tid)
    requires Enabled(s, Move(t)) && !InComplete(s.pcs[t])
    ensures SubmitMoved(s, t).finished == s.finished
    ensures !s.pcs[t].WantSubmit? ==> SubmitMoved(s, t).submitted == s.submitted
  {
  }

  lemma KindComplete<R>(s: State<R>, t: Tid)
    requires Enabled(s, Move(t)) && InComplete(s.pcs[t])
    ensures t in CompleteMoved(s, t).pcs
    ensures var pc := CompleteMoved(s, t).pcs[t]; IsWorker(pc) && !pc.Running?
  {
  }

  lemma HistoryComplete<R>(s: State<R>, t: Tid)
    requires Enabled(s, Move(t)) && InComplete(s.pcs[t])
    ensures CompleteMoved(s, t).finished == s.finished && CompleteMoved(s, t).submitted == s.submitted
  {
  }

  lemma EffectTake<R>(s: State<R>, t: Tid, a: Act)
    requires Inv(s) && Enabled(s, Take(t))
    ensures var s', w := Next(s, Take(t)), s.enqueued[s.taken];
            && s'.finished == s.finished && s'.submitted == s.submitted
            && s'.pcs == s.pcs[t := Running(w.act, w.run)]
            && TakenRuns(s', a) == TakenRuns(s, a) + (if w.act == a then [w.run] else [])
            && (a != w.act ==> Current(s', a) == Current(s, a) && (a in s.turn <==> a in s'.turn)
                               && (a in s.turn ==> s'.turn[a] == s.turn[a]))
            && (a == w.act ==> Current(s, a) == [] && Current(s', a) == [w.run] && s'.turn[a] == AtThread(t))
  {
    var s', w := Next(s, Take(t)), s.enqueued[s.taken];
    assert s'.enqueued[..s'.taken] == s.enqueued[..s.taken] + [w];
    RunsAppend(s.enqueued[..s.taken], w, a);
    assert PositionInv(s, s.taken) && ActInv(s, a);
  }

  lemma EffectFinish<R>(s: State<R>, t: Tid, threw: bool, a: Act)
    requires Inv(s) && Enabled(s, Finish(t, threw))
    ensures var s', pc := Next(s, Finish(t, threw)), s.pcs[t];
            && s'.submitted == s.submitted && s'.turn == s.turn && TakenRuns(s', a) == TakenRuns(s, a)
            && s'.pcs == s.pcs[t := WantComplete(pc.act)]
            && Runs(s'.finished, a) == Runs(s.finished, a) + (if pc.act == a then [pc.run] else [])
            && (a != pc.act ==> Current(s', a) == Current(s, a))
            && (a == pc.act ==> Current(s, a) == [pc.run] && Current(s', a) == [])
  {
    var pc := s.pcs[t];
    RunsAppend(s.finished, Wrapper(pc.act, pc.run), a);
    assert ActInv(s, a) && ThreadInv(s, t);
  }

  lemma EffectCall<R>(s: State<R>, t: Tid, c: Act, r: R, a: Act)
    requires Inv(s) && Enabled(s, Call(t, c, r))
    ensures var s' := Next(s, Call(t, c, r));
            && s'.submitted == s.submitted && s'.finished == s.finished && s'.turn == s.turn
            && TakenRuns(s', a) == TakenRuns(s, a) && Current(s', a) == Current(s, a)
            && s'.pcs == s.pcs[t := WantSubmit(c, r)]
  {
    assert ActInv(s, a);
  }
}
