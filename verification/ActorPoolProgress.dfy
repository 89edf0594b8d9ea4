/** How long the scheduler can go on: a potential that every step but a new call of submit lowers,
    so that everything submitted finishes after a bounded number of steps. */
module ActorPoolProgress {
  import opened ActorPool
  import T = ActorPoolTheorems

  /** What a runnable still costs once it is in a pending queue or in the executor's queue. */
  const RUNNABLE_COST: nat := 9

  /** What the first step of submit starts from. */
  const CALL_COST: nat := 15

  /** The steps a thread can still cause from its program counter on. */
  function Cost<R>(pc: Pc<R>): nat {
    match pc
    case Outside => 0
    case WantSubmit(_, _) => CALL_COST
    case TestPlaying(_, _) => 14
    case AddPlaying(_, _) => 12
    case ExecuteFirst(_, _) => 11
    case LookupForSubmit(_, _) => 13
    case CreateForSubmit(_, _) => 12
    case Offer(_, _, _) => 11
    case LeaveSubmit(_) => 1
    case Parked => 0
    case Running(_, _) => 8
    case WantComplete(_) => 7
    case LookupForComplete(_) => 6
    case CreateForComplete(_) => 5
    case TestPending(_, _) => 4
    case RemovePlaying(_) => 2
    case Poll(_, _) => 3
    case ExecuteNext(_, _) => 11
    case LeaveComplete(_) => 1
  }

  ghost function Costs<R>(pcs: map<Tid, Pc<R>>): nat
    decreases |pcs|
  {
    if pcs == map[] then 0 else var t :| t in pcs; Cost(pcs[t]) + Costs(pcs - {t})
  }

  lemma {:induction false} CostsOf<R>(pcs: map<Tid, Pc<R>>, t: Tid)
    requires t in pcs
    ensures Costs(pcs) == Cost(pcs[t]) + Costs(pcs - {t})
    decreases |pcs|
  {
    var u :| u in pcs && Costs(pcs) == Cost(pcs[u]) + Costs(pcs - {u});
    if u != t {
      CostsOf(pcs - {u}, t);
      CostsOf(pcs - {t}, u);
      assert pcs - {u} - {t} == pcs - {t} - {u};
    }
  }

  lemma CostsUpdate<R>(pcs: map<Tid, Pc<R>>, t: Tid, pc: Pc<R>)
    requires t in pcs
    ensures Costs(pcs[t := pc]) + Cost(pcs[t]) == Costs(pcs) + Cost(pc)
  {
    CostsOf(pcs, t);
    CostsOf(pcs[t := pc], t);
    assert pcs[t := pc] - {t} == pcs - {t};
  }

  /** The number of runnables in all pending queues. */
  function Size<R>(heap: seq<seq<R>>): nat {
    if heap == [] then 0 else Size(heap[..|heap| - 1]) + |heap[|heap| - 1]|
  }

  lemma SizeAppend<R>(heap: seq<seq<R>>, queue: seq<R>)
    ensures Size(heap + [queue]) == Size(heap) + |queue|
  {
    assert (heap + [queue])[..|heap|] == heap;
  }

  lemma {:induction false} SizeUpdate<R>(heap: seq<seq<R>>, q: nat, queue: seq<R>)
    requires q < |heap|
    ensures Size(heap[q := queue]) + |heap[q]| == Size(heap) + |queue|
    decreases |heap|
  {
    var last := |heap| - 1;
    if q < last {
      SizeUpdate(heap[..last], q, queue);
      assert heap[q := queue][..last] == heap[..last][q := queue];
    } else {
      assert heap[q := queue][..last] == heap[..last];
    }
  }

  ghost function Potential<R>(s: State<R>): int {
    Costs(s.pcs) + RUNNABLE_COST * (Size(s.heap) + |s.enqueued| - s.taken)
  }

  /** A step of t that leaves both kinds of queues alone pays with its own cost. */
  lemma QuietPays<R>(s: State<R>, s': State<R>, t: Tid)
    requires ByThread(s, s', t) && s'.taken == s.taken && s'.heap == s.heap && s'.enqueued == s.enqueued
    requires Cost(s'.pcs[t]) < Cost(s.pcs[t])
    ensures Potential(s') < Potential(s)
  {
    CostsUpdate(s.pcs, t, s'.pcs[t]);
  }

  /** Creating an empty queue costs nothing. */
  lemma CreatePays<R>(s: State<R>, s': State<R>, t: Tid)
    requires ByThread(s, s', t) && s'.taken == s.taken && s'.heap == s.heap + [[]] && s'.enqueued == s.enqueued
    requires Cost(s'.pcs[t]) < Cost(s.pcs[t])
    ensures Potential(s') < Potential(s)
  {
    CostsUpdate(s.pcs, t, s'.pcs[t]);
    SizeAppend(s.heap, []);
  }

  /** Handing a runnable to the executor moves its cost there. */
  lemma ExecutePays<R>(s: State<R>, s': State<R>, t: Tid)
    requires ByThread(s, s', t) && s'.taken == s.taken && s'.heap == s.heap && |s'.enqueued| == |s.enqueued| + 1
    requires Cost(s'.pcs[t]) + RUNNABLE_COST < Cost(s.pcs[t])
    ensures Potential(s') < Potential(s)
  {
    CostsUpdate(s.pcs, t, s'.pcs[t]);
  }

  /** And so does adding it to a pending queue, or polling it from one. */
  lemma QueuePays<R>(s: State<R>, s': State<R>, t: Tid, q: nat)
    requires ByThread(s, s', t) && s'.taken == s.taken && s'.enqueued == s.enqueued
    requires q < |s.heap| && |s'.heap| == |s.heap| && s'.heap == s.heap[q := s'.heap[q]]
    requires Cost(s'.pcs[t]) + RUNNABLE_COST * |s'.heap[q]| < Cost(s.pcs[t]) + RUNNABLE_COST * |s.heap[q]|
    ensures Potential(s') < Potential(s)
  {
    CostsUpdate(s.pcs, t, s'.pcs[t]);
    SizeUpdate(s.heap, q, s'.heap[q]);
  }

  lemma SubmitPays<R>(s: State<R>, t: Tid)
    requires Enabled(s, Move(t)) && !InComplete(s.pcs[t])
    ensures Potential(SubmitMoved(s, t)) < Potential(s)
  {
    var s', pc := SubmitMoved(s, t), s.pcs[t];
    SubmitByThread(s, t);
    if pc.CreateForSubmit? { CreatePays(s, s', t); }
    else if pc.ExecuteFirst? { ExecutePays(s, s', t); }
    else if pc.Offer? { QueuePays(s, s', t, pc.queue); }
    else { QuietPays(s, s', t); }
  }

  lemma CompletePays<R>(s: State<R>, t: Tid)
    requires Enabled(s, Move(t)) && InComplete(s.pcs[t])
    ensures Potential(CompleteMoved(s, t)) < Potential(s)
  {
    var s', pc := CompleteMoved(s, t), s.pcs[t];
    CompleteByThread(s, t);
    if pc.CreateForComplete? { CreatePays(s, s', t); }
    else if pc.ExecuteNext? { ExecutePays(s, s', t); }
    else if pc.Poll? { QueuePays(s, s', t, pc.queue); }
    else { QuietPays(s, s', t); }
  }

  lemma StepPays<R>(s: State<R>, st: Step<R>)
    requires Enabled(s, st)
    ensures Potential(Next(s, st)) <= Potential(s) + (if st.Call? then CALL_COST else -1)
  {
    match st
    case Call(t, a, r) => CostsUpdate(s.pcs, t, WantSubmit(a, r));
    case Take(t) => CostsUpdate(s.pcs, t, Running(s.enqueued[s.taken].act, s.enqueued[s.taken].run));
    case Finish(t, _) => CostsUpdate(s.pcs, t, WantComplete(s.pcs[t].act));
    case Move(t) => if InComplete(s.pcs[t]) { CompletePays(s, t); } else { SubmitPays(s, t); }
  }

  function Calls<R>(steps: seq<Step<R>>): (n: nat)
    ensures n <= |steps|
  {
    if steps == [] then 0 else Calls(steps[..|steps| - 1]) + (if steps[|steps| - 1].Call? then 1 else 0)
  }

  lemma {:induction false} CostsOfIdle<R>(pcs: map<Tid, Pc<R>>)
    requires forall t :: t in pcs ==> Cost(pcs[t]) == 0
    ensures Costs(pcs) == 0
    decreases |pcs|
  {
    if pcs != map[] {
      var t :| t in pcs;
      CostsOf(pcs, t);
      CostsOfIdle(pcs - {t});
    }
  }

  lemma RunPays<R>(b: seq<State<R>>, steps: seq<Step<R>>, i: nat)
    requires IsRun(b, steps) && i < |steps|
    ensures Potential(b[i + 1]) <= Potential(b[i]) + (if steps[i].Call? then CALL_COST else -1)
  {
    StepPays(b[i], steps[i]);
  }

  lemma {:induction false} PotentialBounded<R>(b: seq<State<R>>, steps: seq<Step<R>>, i: nat)
    requires IsRun(b, steps) && i < |b|
    ensures Potential(b[i]) + (i - Calls(steps[..i])) <= CALL_COST * Calls(steps[..i])
  {
    if i == 0 {
      CostsOfIdle(b[0].pcs);
    } else {
      PotentialBounded(b, steps, i - 1);
      RunPays(b, steps, i - 1);
      assert steps[..i][..i - 1] == steps[..i - 1];
    }
  }

  /** Every run is short: it has at most 15 further steps for each call of submit. */
  lemma RunsAreBounded<R>(b: seq<State<R>>, steps: seq<Step<R>>)
    requires IsRun(b, steps)
    ensures |steps| - Calls(steps) <= CALL_COST * Calls(steps)
  {
    var last := |steps|;
    PotentialBounded(b, steps, last);
    RunsKeepInv(b, steps, last);
    assert steps[..last] == steps;
  }

  /** Everything submitted finishes: with at least one worker, a run has at most 16 steps for each
      call of submit, wherever it goes; and where no thread can go on, every call has entered its act's
      monitor and every runnable submitted for any act has finished. */
  lemma EverythingFinishes<R>(b: seq<State<R>>, steps: seq<Step<R>>, w: Tid)
    requires IsRun(b, steps) && w in b[0].pcs && b[0].pcs[w].Parked?
    ensures |steps| <= (1 + CALL_COST) * Calls(steps)
    ensures (forall t :: !T.CanStep(b[|steps|], t)) ==>
              && (forall a :: Runs(b[|steps|].finished, a) == Runs(T.Entered(steps), a))
              && (forall t :: t in b[|steps|].pcs && T.LastOf(steps, t).Some? ==> !T.LastOf(steps, t).value.Call?)
  {
    RunsAreBounded(b, steps);
    var last := |steps|;
    assert steps[..last] == steps;
    T.SubmittedIsEntered(b, steps, last);
    RunsKeepInv(b, steps, last);
    T.WorkersStay(b, steps, last, w);
    if forall t :: !T.CanStep(b[last], t) {
      forall a ensures Runs(b[last].finished, a) == Runs(T.Entered(steps), a) { T.StandStill(b[last], w, a); }
      forall t | t in b[last].pcs && T.LastOf(steps, t).Some? ensures !T.LastOf(steps, t).value.Call? {
        T.StandStill(b[last], w, 0);
        assert T.ThreadExplained(b[last], steps, t);
      }
    }
  }
}
