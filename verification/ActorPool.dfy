/** The per-actor serial scheduler (ActorThreadPool.java) as a state machine.

    Every thread has a program counter, and a step is one access to shared state:
    entering or leaving synchronized (act), one call on playingNow, one critical
    section of actsRWLock, one call on a pending queue, or one call on the executor.
    The window between readLock().unlock() and writeLock().lock() in
    pendingRunnablesOf is the program counter CreateForSubmit / CreateForComplete. */
module ActorPool {

  type Act = nat
  type Tid = nat

  /** What execute hands to the executor: a runnable together with its act. */
  datatype Wrapper<R> = Wrapper(act: Act, run: R)

  datatype Pc<R> =
    | Outside
    | WantSubmit(act: Act, run: R)
    | TestPlaying(act: Act, run: R)
    | AddPlaying(act: Act, run: R)
    | ExecuteFirst(act: Act, run: R)
    | LookupForSubmit(act: Act, run: R)
    | CreateForSubmit(act: Act, run: R)
    | Offer(act: Act, run: R, queue: nat)
    | LeaveSubmit(act: Act)
    | Parked
    | Running(act: Act, run: R)
    | WantComplete(act: Act)
    | LookupForComplete(act: Act)
    | CreateForComplete(act: Act)
    | TestPending(act: Act, queue: nat)
    | RemovePlaying(act: Act)
    | Poll(act: Act, queue: nat)
    | ExecuteNext(act: Act, run: R)
    | LeaveComplete(act: Act)

  /** Where an act's turn is: in the executor's queue, at an absolute position, or with a thread. */
  datatype Holder = InQueue(pos: nat) | AtThread(tid: Tid)

  /** acts maps an act to a reference into heap, where the queue objects live.
      The executor's queue is enqueued[taken..]. The last three fields are history:
      the order of entering submit, the order of finishing, and who holds each act's turn. */
  datatype State<R> = State(
    pcs: map<Tid, Pc<R>>,
    monitor: map<Act, Tid>,
    acts: map<Act, nat>,
    heap: seq<seq<R>>,
    playingNow: set<Act>,
    enqueued: seq<Wrapper<R>>,
    taken: nat,
    submitted: seq<Wrapper<R>>,
    finished: seq<Wrapper<R>>,
    turn: map<Act, Holder>)

  /** Move is the one step a thread can take by itself at its program counter.
      Finish ends a runnable, normally or by an exception: complete runs in a finally. */
  datatype Step<R> =
    | Call(tid: Tid, act: Act, run: R)
    | Take(tid: Tid)
    | Finish(tid: Tid, threw: bool)
    | Move(tid: Tid)

  /** The runnables of act a among ws, in order. */
  function Runs<R>(ws: seq<Wrapper<R>>, a: Act): (rs: seq<R>)
    ensures |rs| <= |ws|
  {
    if ws == [] then []
    else
      var w := ws[|ws| - 1];
      Runs(ws[..|ws| - 1], a) + (if w.act == a then [w.run] else [])
  }

  lemma RunsAppend<R>(ws: seq<Wrapper<R>>, w: Wrapper<R>, a: Act)
    ensures Runs(ws + [w], a) == Runs(ws, a) + (if w.act == a then [w.run] else [])
  {
    assert (ws + [w])[..|ws|] == ws;
  }

  predicate InMonitor<R>(pc: Pc<R>) {
    !pc.Outside? && !pc.Parked? && !pc.Running? && !pc.WantSubmit? && !pc.WantComplete?
  }

  predicate InComplete<R>(pc: Pc<R>) {
    pc.WantComplete? || pc.LookupForComplete? || pc.CreateForComplete? || pc.TestPending?
    || pc.RemovePlaying? || pc.Poll? || pc.ExecuteNext? || pc.LeaveComplete?
  }

  predicate Waiting<R>(pc: Pc<R>) {
    pc.WantSubmit? || pc.WantComplete?
  }

  /** The thread is the one that must run, or hand on, the act's next runnable. */
  predicate HasTurn<R>(pc: Pc<R>) {
    pc.ExecuteFirst? || pc.Running? || pc.WantComplete? || pc.LookupForComplete? || pc.CreateForComplete?
    || pc.TestPending? || pc.RemovePlaying? || pc.Poll? || pc.ExecuteNext?
  }

  /** The thread has entered submit and not yet placed its runnable anywhere. */
  predicate Carries<R>(pc: Pc<R>) {
    pc.TestPlaying? || pc.AddPlaying? || pc.ExecuteFirst? || pc.LookupForSubmit? || pc.CreateForSubmit? || pc.Offer?
  }

  predicate Enabled<R>(s: State<R>, st: Step<R>) {
    st.tid in s.pcs &&
    var pc := s.pcs[st.tid];
    match st
    case Call(_, _, _) => pc.Outside?
    case Take(_) => pc.Parked? && s.taken < |s.enqueued|
    case Finish(_, _) => pc.Running?
    case Move(_) =>
      && !pc.Outside? && !pc.Parked? && !pc.Running?
      && (Waiting(pc) ==> pc.act !in s.monitor)
      && (pc.Offer? || pc.TestPending? ==> pc.queue < |s.heap|)
      && (pc.Poll? ==> pc.queue < |s.heap| && s.heap[pc.queue] != [])
  }

  function Next<R>(s: State<R>, st: Step<R>): State<R>
    requires Enabled(s, st)
  {
    var t := st.tid;
    var pc := s.pcs[t];
    match st
    case Call(_, a, r) => s.(pcs := s.pcs[t := WantSubmit(a, r)])
    case Take(_) =>
      var w := s.enqueued[s.taken];
      s.(pcs := s.pcs[t := Running(w.act, w.run)], taken := s.taken + 1, turn := s.turn[w.act := AtThread(t)])
    case Finish(_, _) =>
      s.(pcs := s.pcs[t := WantComplete(pc.act)], finished := s.finished + [Wrapper(pc.act, pc.run)])
    case Move(_) => if InComplete(pc) then CompleteMoved(s, t) else SubmitMoved(s, t)
  }

  /** One access by a thread inside, or entering, submit. */
  function SubmitMoved<R>(s: State<R>, t: Tid): State<R>
    requires Enabled(s, Move(t)) && !InComplete(s.pcs[t])
  {
    match s.pcs[t]
    case WantSubmit(a, r) =>
      s.(pcs := s.pcs[t := TestPlaying(a, r)], monitor := s.monitor[a := t], submitted := s.submitted + [Wrapper(a, r)])
    case TestPlaying(a, r) =>
      s.(pcs := s.pcs[t := if a !in s.playingNow then AddPlaying(a, r) else LookupForSubmit(a, r)])
    case AddPlaying(a, r) =>
      s.(pcs := s.pcs[t := ExecuteFirst(a, r)], playingNow := s.playingNow + {a}, turn := s.turn[a := AtThread(t)])
    case ExecuteFirst(a, r) =>
      s.(pcs := s.pcs[t := LeaveSubmit(a)], enqueued := s.enqueued + [Wrapper(a, r)],
         turn := s.turn[a := InQueue(|s.enqueued|)])
    case LookupForSubmit(a, r) =>
      s.(pcs := s.pcs[t := if a in s.acts then Offer(a, r, s.acts[a]) else CreateForSubmit(a, r)])
    case CreateForSubmit(a, r) =>
      s.(pcs := s.pcs[t := Offer(a, r, |s.heap|)], heap := s.heap + [[]], acts := s.acts[a := |s.heap|])
    case Offer(a, r, q) =>
      s.(pcs := s.pcs[t := LeaveSubmit(a)], heap := s.heap[q := s.heap[q] + [r]])
    case LeaveSubmit(a) =>
      s.(pcs := s.pcs[t := Outside], monitor := s.monitor - {a})
  }

  /** One access by a thread inside, or entering, complete. */
  function CompleteMoved<R>(s: State<R>, t: Tid): State<R>
    requires Enabled(s, Move(t)) && InComplete(s.pcs[t])
  {
    match s.pcs[t]
    case WantComplete(a) =>
      s.(pcs := s.pcs[t := LookupForComplete(a)], monitor := s.monitor[a := t])
    case LookupForComplete(a) =>
      s.(pcs := s.pcs[t := if a in s.acts then TestPending(a, s.acts[a]) else CreateForComplete(a)])
    case CreateForComplete(a) =>
      s.(pcs := s.pcs[t := TestPending(a, |s.heap|)], heap := s.heap + [[]], acts := s.acts[a := |s.heap|])
    case TestPending(a, q) =>
      s.(pcs := s.pcs[t := if s.heap[q] == [] then RemovePlaying(a) else Poll(a, q)])
    case RemovePlaying(a) =>
      s.(pcs := s.pcs[t := LeaveComplete(a)], playingNow := s.playingNow - {a}, turn := s.turn - {a})
    case Poll(a, q) =>
      s.(pcs := s.pcs[t := ExecuteNext(a, s.heap[q][0])], heap := s.heap[q := s.heap[q][1..]])
    case ExecuteNext(a, r) =>
      s.(pcs := s.pcs[t := LeaveComplete(a)], enqueued := s.enqueued + [Wrapper(a, r)],
         turn := s.turn[a := InQueue(|s.enqueued|)])
    case LeaveComplete(a) =>
      s.(pcs := s.pcs[t := Parked], monitor := s.monitor - {a})
  }

  predicate Init<R>(s: State<R>) {
    && (forall t :: t in s.pcs ==> s.pcs[t].Outside? || s.pcs[t].Parked?)
    && s.monitor == map[] && s.acts == map[] && s.heap == [] && s.playingNow == {}
    && s.enqueued == [] && s.taken == 0 && s.submitted == [] && s.finished == [] && s.turn == map[]
  }

  /** A run of the machine: states b, with steps[i] leading from b[i] to b[i + 1]. */
  ghost predicate IsRun<R>(b: seq<State<R>>, steps: seq<Step<R>>) {
    && |b| == |steps| + 1
    && Init(b[0])
    && forall i :: 0 <= i < |steps| ==> Enabled(b[i], steps[i]) && b[i + 1] == Next(b[i], steps[i])
  }

  /* ---- What is where ---- */

  /** The runnables waiting in a's queue object. */
  function Pending<R>(s: State<R>, a: Act): seq<R> {
    if a in s.acts && s.acts[a] < |s.heap| then s.heap[s.acts[a]] else []
  }

  /** The runnable inside a's monitor: polled by complete, or brought by submit. */
  function InHand<R>(s: State<R>, a: Act, byComplete: bool): seq<R> {
    if a in s.monitor && s.monitor[a] in s.pcs then
      var pc := s.pcs[s.monitor[a]];
      if byComplete then (if pc.ExecuteNext? then [pc.run] else [])
      else (if Carries(pc) then [pc.run] else [])
    else []
  }

  /** The runnable of a that a worker is executing. */
  function Current<R>(s: State<R>, a: Act): seq<R> {
    if a in s.turn && s.turn[a].AtThread? && s.turn[a].tid in s.pcs && s.pcs[s.turn[a].tid].Running?
    then [s.pcs[s.turn[a].tid].run] else []
  }

  /* ---- The invariant ---- */

  /** Submission order is: handed to the executor, then polled, then pending, then brought. */
  ghost predicate OrderAt<R>(s: State<R>, a: Act) {
    Runs(s.submitted, a) == Runs(s.enqueued, a) + InHand(s, a, true) + Pending(s, a) + InHand(s, a, false)
  }

  /** Of the runnables a worker has taken, all but the running one have finished. */
  ghost predicate RunAt<R>(s: State<R>, a: Act) {
    s.taken <= |s.enqueued| && Runs(s.enqueued[..s.taken], a) == Runs(s.finished, a) + Current(s, a)
  }

  /** What each program counter knows about the shared state. */
  ghost predicate ThreadInv<R>(s: State<R>, t: Tid) {
    t in s.pcs ==>
      var pc := s.pcs[t];
      && (InMonitor(pc) ==> pc.act in s.monitor && s.monitor[pc.act] == t)
      && (HasTurn(pc) ==> pc.act in s.turn && s.turn[pc.act] == AtThread(t))
      && (pc.Offer? || pc.TestPending? || pc.Poll? ==> pc.act in s.acts && s.acts[pc.act] == pc.queue)
      && (pc.CreateForSubmit? || pc.CreateForComplete? ==> pc.act !in s.acts)
      && (pc.AddPlaying? ==> pc.act !in s.playingNow)
      && (pc.LookupForSubmit? || pc.CreateForSubmit? || pc.Offer? ==> pc.act in s.playingNow)
      && (pc.ExecuteFirst? || pc.RemovePlaying? ==> Pending(s, pc.act) == [])
      && (pc.Poll? ==> Pending(s, pc.act) != [])
  }

  ghost predicate ActInv<R>(s: State<R>, a: Act) {
    && (a in s.monitor ==>
         s.monitor[a] in s.pcs && InMonitor(s.pcs[s.monitor[a]]) && s.pcs[s.monitor[a]].act == a)
    && (a in s.acts ==> s.acts[a] < |s.heap|)
    && (a in s.turn <==> a in s.playingNow)
    && (a in s.turn ==>
         match s.turn[a]
         case InQueue(p) => s.taken <= p < |s.enqueued| && s.enqueued[p].act == a
         case AtThread(t) => t in s.pcs && HasTurn(s.pcs[t]) && s.pcs[t].act == a)
    && (a !in s.playingNow ==> Pending(s, a) == [])
  }

  ghost predicate PositionInv<R>(s: State<R>, p: nat) {
    s.taken <= p < |s.enqueued| ==>
      s.enqueued[p].act in s.turn && s.turn[s.enqueued[p].act] == InQueue(p)
  }

  ghost predicate OwnQueues<R>(s: State<R>, a: Act, a': Act) {
    a in s.acts && a' in s.acts && a != a' ==> s.acts[a] != s.acts[a']
  }

  ghost predicate Inv<R>(s: State<R>) {
    && s.taken <= |s.enqueued|
    && (forall t :: ThreadInv(s, t))
    && (forall a :: ActInv(s, a))
    && (forall p :: PositionInv(s, p))
    && (forall a, a' :: OwnQueues(s, a, a'))
    && (forall a :: OrderAt(s, a))
    && (forall a :: RunAt(s, a))
  }

  /** The act a step is about. */
  function ActOf<R>(s: State<R>, st: Step<R>): Act
    requires Enabled(s, st)
  {
    match st
    case Call(_, a, _) => a
    case Take(_) => s.enqueued[s.taken].act
    case Finish(t, _) => s.pcs[t].act
    case Move(t) => s.pcs[t].act
  }

  /** The facts of the invariant about the acting thread and its act. */
  ghost predicate Local<R>(s: State<R>, st: Step<R>) {
    && Enabled(s, st)
    && s.taken <= |s.enqueued|
    && ThreadInv(s, st.tid)
    && ActInv(s, ActOf(s, st))
    && PositionInv(s, s.taken)
  }

  /** A step leaves everything about another act as it was. */
  ghost predicate SameAct<R>(s: State<R>, s': State<R>, a: Act) {
    && (a in s.monitor <==> a in s'.monitor) && (a in s.monitor ==> s.monitor[a] == s'.monitor[a])
    && (a in s.acts <==> a in s'.acts) && (a in s.acts ==> s.acts[a] == s'.acts[a])
    && (a in s.turn <==> a in s'.turn) && (a in s.turn ==> s.turn[a] == s'.turn[a])
    && (a in s.playingNow <==> a in s'.playingNow)
    && Pending(s, a) == Pending(s', a)
    && s.enqueued <= s'.enqueued && |s.heap| <= |s'.heap|
  }

  /** A step changes the program counter of its own thread only, and no history shrinks. */
  ghost predicate ByThread<R>(s: State<R>, s': State<R>, t: Tid) {
    && t in s.pcs && t in s'.pcs && s'.pcs == s.pcs[t := s'.pcs[t]]
    && s.taken <= s'.taken <= s.taken + 1 && s.enqueued <= s'.enqueued
  }

  lemma StepByThread<R>(s: State<R>, st: Step<R>)
    requires Enabled(s, st)
    ensures ByThread(s, Next(s, st), st.tid)
    ensures !st.Take? ==> Next(s, st).taken == s.taken
  {
    if st.Move? && InComplete(s.pcs[st.tid]) { CompleteByThread(s, st.tid); }
    else if st.Move? { SubmitByThread(s, st.tid); }
  }

  lemma SubmitByThread<R>(s: State<R>, t: Tid)
    requires Enabled(s, Move(t)) && !InComplete(s.pcs[t])
    ensures ByThread(s, SubmitMoved(s, t), t) && SubmitMoved(s, t).taken == s.taken
  {
  }

  lemma CompleteByThread<R>(s: State<R>, t: Tid)
    requires Enabled(s, Move(t)) && InComplete(s.pcs[t])
    ensures ByThread(s, CompleteMoved(s, t), t) && CompleteMoved(s, t).taken == s.taken
  {
  }

  lemma Frame<R>(s: State<R>, st: Step<R>, a: Act)
    requires Local(s, st) && ActInv(s, a) && OwnQueues(s, ActOf(s, st), a) && a != ActOf(s, st)
    ensures SameAct(s, Next(s, st), a)
  {
    if st.Move? && InComplete(s.pcs[st.tid]) { FrameComplete(s, st.tid, a); }
    else if st.Move? { FrameSubmit(s, st.tid, a); }
  }

  lemma FrameSubmit<R>(s: State<R>, t: Tid, a: Act)
    requires Local(s, Move(t)) && !InComplete(s.pcs[t])
    requires ActInv(s, a) && OwnQueues(s, s.pcs[t].act, a) && a != s.pcs[t].act
    ensures SameAct(s, SubmitMoved(s, t), a)
  {
  }

  lemma FrameComplete<R>(s: State<R>, t: Tid, a: Act)
    requires Local(s, Move(t)) && InComplete(s.pcs[t])
    requires ActInv(s, a) && OwnQueues(s, s.pcs[t].act, a) && a != s.pcs[t].act
    ensures SameAct(s, CompleteMoved(s, t), a)
  {
  }

  lemma SelfSubmit<R>(s: State<R>, t: Tid)
    requires Local(s, Move(t)) && !InComplete(s.pcs[t])
    ensures ThreadInv(SubmitMoved(s, t), t)
  {
    var pc := s.pcs[t];
    if pc.LookupForSubmit? || pc.CreateForSubmit? || pc.Offer? || pc.LeaveSubmit? { SelfSubmitLate(s, t); }
    else { SelfSubmitEarly(s, t); }
  }

  lemma SelfSubmitEarly<R>(s: State<R>, t: Tid)
    requires Local(s, Move(t))
    requires var pc := s.pcs[t]; pc.WantSubmit? || pc.TestPlaying? || pc.AddPlaying? || pc.ExecuteFirst?
    ensures ThreadInv(SubmitMoved(s, t), t)
  {
  }

  lemma SelfSubmitLate<R>(s: State<R>, t: Tid)
    requires Local(s, Move(t))
    requires var pc := s.pcs[t]; pc.LookupForSubmit? || pc.CreateForSubmit? || pc.Offer? || pc.LeaveSubmit?
    ensures ThreadInv(SubmitMoved(s, t), t)
  {
  }

  lemma SelfComplete<R>(s: State<R>, t: Tid)
    requires Local(s, Move(t)) && InComplete(s.pcs[t])
    ensures ThreadInv(CompleteMoved(s, t), t)
  {
  }

  lemma ActSubmit<R>(s: State<R>, t: Tid)
    requires Local(s, Move(t)) && !InComplete(s.pcs[t])
    ensures ActInv(SubmitMoved(s, t), s.pcs[t].act)
  {
  }

  lemma ActComplete<R>(s: State<R>, t: Tid)
    requires Local(s, Move(t)) && InComplete(s.pcs[t])
    ensures ActInv(CompleteMoved(s, t), s.pcs[t].act)
  {
  }

  lemma OtherSubmit<R>(s: State<R>, u: Tid, t: Tid)
    requires Local(s, Move(u)) && !InComplete(s.pcs[u]) && t != u && t in s.pcs
    requires ThreadInv(s, t) && (!s.pcs[t].Outside? && !s.pcs[t].Parked? ==> s.pcs[t].act == s.pcs[u].act)
    ensures ThreadInv(SubmitMoved(s, u), t)
  {
  }

  lemma OtherComplete<R>(s: State<R>, u: Tid, t: Tid)
    requires Local(s, Move(u)) && InComplete(s.pcs[u]) && t != u && t in s.pcs
    requires ThreadInv(s, t) && (!s.pcs[t].Outside? && !s.pcs[t].Parked? ==> s.pcs[t].act == s.pcs[u].act)
    ensures ThreadInv(CompleteMoved(s, u), t)
  {
  }

  lemma ThreadStepOutside<R>(s: State<R>, st: Step<R>, t: Tid)
    requires Local(s, st) && ThreadInv(s, t) && !st.Move?
    requires t in s.pcs && !s.pcs[t].Outside? && !s.pcs[t].Parked? ==> s.pcs[t].act == ActOf(s, st) || t == st.tid
    ensures ThreadInv(Next(s, st), t)
  {
  }

  lemma ThreadStepFar<R>(s: State<R>, s': State<R>, u: Tid, t: Tid)
    requires ThreadInv(s, t) && t in s.pcs && t != u && ByThread(s, s', u)
    requires !s.pcs[t].Outside? && !s.pcs[t].Parked? && SameAct(s, s', s.pcs[t].act)
    ensures ThreadInv(s', t)
  {
  }

  lemma ThreadStep<R>(s: State<R>, st: Step<R>, t: Tid)
    requires Local(s, st) && ThreadInv(s, t)
    requires t in s.pcs && !s.pcs[t].Outside? && !s.pcs[t].Parked? ==>
               ActInv(s, s.pcs[t].act) && OwnQueues(s, ActOf(s, st), s.pcs[t].act)
    ensures ThreadInv(Next(s, st), t)
  {
    if t !in s.pcs {
    } else if t != st.tid && !s.pcs[t].Outside? && !s.pcs[t].Parked? && s.pcs[t].act != ActOf(s, st) {
      Frame(s, st, s.pcs[t].act);
      StepByThread(s, st);
      ThreadStepFar(s, Next(s, st), st.tid, t);
    } else if !st.Move? {
      ThreadStepOutside(s, st, t);
    } else if t == st.tid {
      if InComplete(s.pcs[t]) { SelfComplete(s, t); } else { SelfSubmit(s, t); }
    } else {
      if InComplete(s.pcs[st.tid]) { OtherComplete(s, st.tid, t); } else { OtherSubmit(s, st.tid, t); }
    }
  }

  lemma ActStepOutside<R>(s: State<R>, st: Step<R>)
    requires Local(s, st) && !st.Move?
    ensures ActInv(Next(s, st), ActOf(s, st))
  {
  }

  lemma ActStepFar<R>(s: State<R>, s': State<R>, u: Tid, a: Act)
    requires ActInv(s, a) && ByThread(s, s', u) && SameAct(s, s', a)
    requires u in s.pcs && (InMonitor(s.pcs[u]) || HasTurn(s.pcs[u]) ==> s.pcs[u].act != a)
    requires a in s.turn && s.turn[a].InQueue? ==> s'.taken <= s.turn[a].pos
    ensures ActInv(s', a)
  {
  }

  lemma ActStep<R>(s: State<R>, st: Step<R>, a: Act)
    requires Local(s, st) && ActInv(s, a) && OwnQueues(s, ActOf(s, st), a)
    requires a in s.turn && s.turn[a].InQueue? ==> PositionInv(s, s.turn[a].pos)
    ensures ActInv(Next(s, st), a)
  {
    if a != ActOf(s, st) {
      Frame(s, st, a);
      StepByThread(s, st);
      ActStepFar(s, Next(s, st), st.tid, a);
    } else if !st.Move? {
      ActStepOutside(s, st);
    } else {
      if InComplete(s.pcs[st.tid]) { ActComplete(s, st.tid); } else { ActSubmit(s, st.tid); }
    }
  }

  lemma PositionStep<R>(s: State<R>, st: Step<R>, p: nat)
    requires Local(s, st) && PositionInv(s, p)
    ensures PositionInv(Next(s, st), p)
  {
  }

  lemma OwnQueuesStep<R>(s: State<R>, st: Step<R>, a: Act, a': Act)
    requires Local(s, st) && OwnQueues(s, a, a') && ActInv(s, a) && ActInv(s, a')
    ensures OwnQueues(Next(s, st), a, a')
  {
  }

  /** The program counters whose step moves no runnable. */
  predicate Quiet<R>(pc: Pc<R>) {
    !pc.WantSubmit? && !pc.ExecuteFirst? && !pc.Offer? && !pc.Poll? && !pc.ExecuteNext?
  }

  lemma OrderQuietSubmit<R>(s: State<R>, t: Tid)
    requires Local(s, Move(t)) && !InComplete(s.pcs[t]) && Quiet(s.pcs[t])
    ensures var s', a := SubmitMoved(s, t), s.pcs[t].act;
            s'.submitted == s.submitted && s'.enqueued == s.enqueued && Pending(s', a) == Pending(s, a)
            && InHand(s', a, true) == InHand(s, a, true) && InHand(s', a, false) == InHand(s, a, false)
  {
  }

  lemma OrderQuietComplete<R>(s: State<R>, t: Tid)
    requires Local(s, Move(t)) && InComplete(s.pcs[t]) && Quiet(s.pcs[t])
    ensures var s', a := CompleteMoved(s, t), s.pcs[t].act;
            s'.submitted == s.submitted && s'.enqueued == s.enqueued && Pending(s', a) == Pending(s, a)
            && InHand(s', a, true) == InHand(s, a, true) && InHand(s', a, false) == InHand(s, a, false)
  {
    QuietQueues(s, t);
    QuietHands(s, t);
  }

  lemma QuietQueues<R>(s: State<R>, t: Tid)
    requires Local(s, Move(t)) && InComplete(s.pcs[t]) && Quiet(s.pcs[t])
    ensures var s', a := CompleteMoved(s, t), s.pcs[t].act;
            s'.submitted == s.submitted && s'.enqueued == s.enqueued && Pending(s', a) == Pending(s, a)
  {
  }

  lemma QuietHands<R>(s: State<R>, t: Tid)
    requires Local(s, Move(t)) && InComplete(s.pcs[t]) && Quiet(s.pcs[t])
    ensures var s', a := CompleteMoved(s, t), s.pcs[t].act;
            InHand(s', a, true) == InHand(s, a, true) && InHand(s', a, false) == InHand(s, a, false)
  {
  }

  lemma OrderWantSubmit<R>(s: State<R>, t: Tid)
    requires Local(s, Move(t)) && s.pcs[t].WantSubmit? && OrderAt(s, s.pcs[t].act)
    ensures OrderAt(SubmitMoved(s, t), s.pcs[t].act)
  {
    RunsAppend(s.submitted, Wrapper(s.pcs[t].act, s.pcs[t].run), s.pcs[t].act);
  }

  lemma OrderExecuteFirst<R>(s: State<R>, t: Tid)
    requires Local(s, Move(t)) && s.pcs[t].ExecuteFirst? && OrderAt(s, s.pcs[t].act)
    ensures OrderAt(SubmitMoved(s, t), s.pcs[t].act)
  {
    RunsAppend(s.enqueued, Wrapper(s.pcs[t].act, s.pcs[t].run), s.pcs[t].act);
  }

  lemma OrderOffer<R>(s: State<R>, t: Tid)
    requires Local(s, Move(t)) && s.pcs[t].Offer? && OrderAt(s, s.pcs[t].act)
    ensures OrderAt(SubmitMoved(s, t), s.pcs[t].act)
  {
  }

  lemma OrderPoll<R>(s: State<R>, t: Tid)
    requires Local(s, Move(t)) && s.pcs[t].Poll? && OrderAt(s, s.pcs[t].act)
    ensures OrderAt(CompleteMoved(s, t), s.pcs[t].act)
  {
    var queue := s.heap[s.pcs[t].queue];
    assert queue == [queue[0]] + queue[1..];
  }

  lemma OrderExecuteNext<R>(s: State<R>, t: Tid)
    requires Local(s, Move(t)) && s.pcs[t].ExecuteNext? && OrderAt(s, s.pcs[t].act)
    ensures OrderAt(CompleteMoved(s, t), s.pcs[t].act)
  {
    RunsAppend(s.enqueued, Wrapper(s.pcs[t].act, s.pcs[t].run), s.pcs[t].act);
  }

  lemma OrderMove<R>(s: State<R>, t: Tid)
    requires Local(s, Move(t)) && OrderAt(s, s.pcs[t].act)
    ensures OrderAt(Next(s, Move(t)), s.pcs[t].act)
  {
    var pc := s.pcs[t];
    if pc.WantSubmit? { OrderWantSubmit(s, t); }
    else if pc.ExecuteFirst? { OrderExecuteFirst(s, t); }
    else if pc.Offer? { OrderOffer(s, t); }
    else if pc.Poll? { OrderPoll(s, t); }
    else if pc.ExecuteNext? { OrderExecuteNext(s, t); }
    else if InComplete(pc) { OrderQuietComplete(s, t); }
    else { OrderQuietSubmit(s, t); }
  }

  lemma OrderOutside<R>(s: State<R>, st: Step<R>, a: Act)
    requires Local(s, st) && ActInv(s, a) && !st.Move? && OrderAt(s, a)
    ensures OrderAt(Next(s, st), a)
  {
  }

  /** Appending a wrapper of another act does not change the runnables of a. */
  lemma RunsOther<R>(ws: seq<Wrapper<R>>, ws': seq<Wrapper<R>>, a: Act)
    requires ws' == ws || (|ws'| == |ws| + 1 && ws <= ws' && ws'[|ws|].act != a)
    ensures Runs(ws', a) == Runs(ws, a)
  {
    if ws' != ws {
      assert ws' == ws + [ws'[|ws|]];
      RunsAppend(ws, ws'[|ws|], a);
    }
  }

  lemma HistoryOther<R>(s: State<R>, st: Step<R>, a: Act)
    requires Local(s, st) && a != ActOf(s, st)
    ensures Runs(Next(s, st).submitted, a) == Runs(s.submitted, a)
    ensures Runs(Next(s, st).enqueued, a) == Runs(s.enqueued, a)
    ensures Runs(Next(s, st).finished, a) == Runs(s.finished, a)
  {
    RunsOther(s.submitted, Next(s, st).submitted, a);
    RunsOther(s.enqueued, Next(s, st).enqueued, a);
    RunsOther(s.finished, Next(s, st).finished, a);
  }

  /** The threads and queues that hold a's runnables are not the acting thread's. */
  lemma HoldersOther<R>(s: State<R>, s': State<R>, u: Tid, a: Act)
    requires ActInv(s, a) && ByThread(s, s', u) && SameAct(s, s', a)
    requires InMonitor(s.pcs[u]) || HasTurn(s.pcs[u]) ==> s.pcs[u].act != a
    ensures InHand(s', a, true) == InHand(s, a, true)
    ensures InHand(s', a, false) == InHand(s, a, false)
    ensures Current(s', a) == Current(s, a)
  {
  }

  lemma StepOther<R>(s: State<R>, st: Step<R>, a: Act)
    requires Local(s, st) && ActInv(s, a) && OwnQueues(s, ActOf(s, st), a) && a != ActOf(s, st)
    ensures OrderAt(s, a) ==> OrderAt(Next(s, st), a)
    ensures Current(Next(s, st), a) == Current(s, a)
    ensures Runs(Next(s, st).finished, a) == Runs(s.finished, a)
  {
    Frame(s, st, a);
    HistoryOther(s, st, a);
    StepByThread(s, st);
    HoldersOther(s, Next(s, st), st.tid, a);
  }

  lemma OrderStep<R>(s: State<R>, st: Step<R>, a: Act)
    requires Local(s, st) && ActInv(s, a) && OwnQueues(s, ActOf(s, st), a) && OrderAt(s, a)
    ensures OrderAt(Next(s, st), a)
  {
    if a != ActOf(s, st) {
      StepOther(s, st, a);
    } else if st.Move? {
      OrderMove(s, st.tid);
    } else {
      OrderOutside(s, st, a);
    }
  }

  lemma CurrentSubmit<R>(s: State<R>, t: Tid)
    requires Local(s, Move(t)) && !InComplete(s.pcs[t])
    ensures Current(SubmitMoved(s, t), s.pcs[t].act) == Current(s, s.pcs[t].act)
  {
  }

  lemma CurrentComplete<R>(s: State<R>, t: Tid)
    requires Local(s, Move(t)) && InComplete(s.pcs[t])
    ensures Current(CompleteMoved(s, t), s.pcs[t].act) == Current(s, s.pcs[t].act)
  {
  }

  lemma RunTake<R>(s: State<R>, st: Step<R>, a: Act)
    requires Local(s, st) && st.Take? && ActInv(s, a) && RunAt(s, a)
    ensures a == ActOf(s, st) ==> RunAt(Next(s, st), a)
    ensures a != ActOf(s, st) ==> Runs(Next(s, st).enqueued[..s.taken + 1], a) == Runs(s.enqueued[..s.taken], a)
  {
    RunsTaken(s, a);
  }

  lemma RunsTaken<R>(s: State<R>, a: Act)
    requires s.taken < |s.enqueued|
    ensures var w := s.enqueued[s.taken];
            Runs(s.enqueued[..s.taken + 1], a) == Runs(s.enqueued[..s.taken], a) + (if w.act == a then [w.run] else [])
  {
    assert s.enqueued[..s.taken + 1] == s.enqueued[..s.taken] + [s.enqueued[s.taken]];
    RunsAppend(s.enqueued[..s.taken], s.enqueued[s.taken], a);
  }

  lemma RunFinish<R>(s: State<R>, st: Step<R>)
    requires Local(s, st) && st.Finish? && RunAt(s, ActOf(s, st))
    ensures RunAt(Next(s, st), ActOf(s, st))
  {
    RunsAppend(s.finished, Wrapper(s.pcs[st.tid].act, s.pcs[st.tid].run), ActOf(s, st));
  }

  lemma RunMove<R>(s: State<R>, t: Tid)
    requires Local(s, Move(t)) && RunAt(s, s.pcs[t].act)
    ensures RunAt(Next(s, Move(t)), s.pcs[t].act)
  {
    StepByThread(s, Move(t));
    assert Next(s, Move(t)).enqueued[..s.taken] == s.enqueued[..s.taken];
    if InComplete(s.pcs[t]) { CurrentComplete(s, t); } else { CurrentSubmit(s, t); }
  }

  lemma RunOther<R>(s: State<R>, st: Step<R>, a: Act)
    requires Local(s, st) && ActInv(s, a) && OwnQueues(s, ActOf(s, st), a) && a != ActOf(s, st) && RunAt(s, a)
    ensures RunAt(Next(s, st), a)
  {
    StepOther(s, st, a);
    StepByThread(s, st);
    if st.Take? { RunTake(s, st, a); }
    else { assert Next(s, st).enqueued[..s.taken] == s.enqueued[..s.taken]; }
  }

  lemma RunStep<R>(s: State<R>, st: Step<R>, a: Act)
    requires Local(s, st) && ActInv(s, a) && OwnQueues(s, ActOf(s, st), a) && RunAt(s, a)
    ensures RunAt(Next(s, st), a)
  {
    if a != ActOf(s, st) { RunOther(s, st, a); }
    else if st.Take? { RunTake(s, st, a); }
    else if st.Finish? { RunFinish(s, st); }
    else if st.Move? { RunMove(s, st.tid); }
  }

  lemma InvInit<R>(s: State<R>)
    requires Init(s)
    ensures Inv(s)
  {
  }

  lemma InvStep<R>(s: State<R>, st: Step<R>)
    requires Inv(s) && Enabled(s, st)
    ensures Inv(Next(s, st))
  {
    var s' := Next(s, st);
    assert Local(s, st);
    forall t ensures ThreadInv(s', t) { ThreadStep(s, st, t); }
    forall a ensures ActInv(s', a) { ActStep(s, st, a); }
    forall p ensures PositionInv(s', p) { PositionStep(s, st, p); }
    forall a, a' ensures OwnQueues(s', a, a') { OwnQueuesStep(s, st, a, a'); }
    forall a ensures OrderAt(s', a) { OrderStep(s, st, a); }
    forall a ensures RunAt(s', a) { RunStep(s, st, a); }
  }

  /** Every state of every run satisfies the invariant. */
  lemma {:induction false} RunsKeepInv<R>(b: seq<State<R>>, steps: seq<Step<R>>, i: nat)
    requires IsRun(b, steps) && i < |b|
    ensures Inv(b[i])
  {
    if i == 0 {
      InvInit(b[0]);
    } else {
      RunsKeepInv(b, steps, i - 1);
      InvStep(b[i - 1], steps[i - 1]);
    }
  }
}
