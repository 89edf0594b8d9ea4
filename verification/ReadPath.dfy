/** The reading half of the reactor (NonBlockingConnectionHandler.java, Reactor.java) on top of the
    actor pool: the selector thread leases a buffer, reads a chunk into it and submits a task;
    pool workers decode the chunk byte by byte from that buffer and give it back.

    The buffers are shared memory: a task reads whatever its buffer holds at that moment.
    The chunk kept in a task, the owner kept in a buffer, and read, consumed and cuts are history. */
module ReadPath {
  import P = ActorPool
  import opened NulFraming
  import F = Frames

  type Act = P.Act
  type Tid = P.Tid

  const BUFFER_ALLOCATION_SIZE: nat := 0x2000

  datatype Owner = Free | Selector | Task(act: Act, index: nat)
  datatype Buffer = Buffer(content: string, pos: nat, owner: Owner)
  datatype ReadTask = ReadTask(buf: nat, chunk: string)

  /** Where the selector thread is in handleReadWrite and continueRead. Allocating is the gap
      between a poll that returned null and allocateDirect. */
  datatype Selecting =
    | Idle
    | Allocating(act: Act)
    | Reading(act: Act, buf: nat)
    | Submitting(act: Act, task: ReadTask)

  /** Where a running task is: in its loop, thrown out of it after the decoder took used bytes, or past
      releaseBuffer. */
  datatype Body = Looping | Failed(used: nat) | Released(threw: bool)

  /** How a task ended: how many bytes of its chunk the decoder took, and whether it threw. */
  datatype Cut = Cut(used: nat, threw: bool)

  /** One connection: the bytes read from its channel, the bytes the decoder took, its partial
      segment, the frame texts given to process, how its tasks ended, and whether one has thrown. */
  datatype Conn =
    Conn(read: string, consumed: string, partial: string, handed: seq<string>, cuts: seq<Cut>, threw: bool)

  datatype State = State(
    pool: P.State<ReadTask>,
    selector: Tid,
    sel: Selecting,
    free: seq<nat>,
    bufs: seq<Buffer>,
    bodies: map<Tid, Body>,
    conns: map<Act, Conn>)

  /** GetByte runs one iteration of the task's loop. throws is an exception in it other than that of
      building a frame: from process when the byte completes a frame, and otherwise from the decoder's
      array. */
  datatype Step =
    | PollBuffer(act: Act)
    | Allocate
    | ReadChunk(chunk: string)
    | ReadFails
    | Submit
    | PoolMove(tid: Tid)
    | PoolTake(tid: Tid)
    | GetByte(tid: Tid, throws: bool)
    | Release(tid: Tid)
    | PoolFinish(tid: Tid)

  predicate AtBody(s: State, t: Tid) {
    t in s.pool.pcs && s.pool.pcs[t].Running? && t in s.bodies
    && s.pool.pcs[t].run.buf < |s.bufs| && s.pool.pcs[t].act in s.conns
  }

  predicate HasRemaining(b: Buffer) {
    b.pos < |b.content|
  }

  predicate Enabled(s: State, st: Step) {
    match st
    case PollBuffer(a) =>
      s.sel.Idle? && s.selector in s.pool.pcs && s.pool.pcs[s.selector].Outside? && a in s.conns
      && (s.free != [] ==> s.free[0] < |s.bufs|)
    case Allocate => s.sel.Allocating?
    case ReadChunk(chunk) =>
      s.sel.Reading? && s.sel.buf < |s.bufs| && |chunk| <= BUFFER_ALLOCATION_SIZE && s.sel.act in s.conns
    case ReadFails => s.sel.Reading? && s.sel.buf < |s.bufs|
    case Submit => s.sel.Submitting? && P.Enabled(s.pool, P.Call(s.selector, s.sel.act, s.sel.task))
    case PoolMove(t) =>
      P.Enabled(s.pool, P.Move(t)) && (s.pool.pcs[t].WantSubmit? ==> s.pool.pcs[t].run.buf < |s.bufs|)
    case PoolTake(t) => P.Enabled(s.pool, P.Take(t))
    case GetByte(t, throws) =>
      AtBody(s, t) && s.bodies[t].Looping? && HasRemaining(s.bufs[s.pool.pcs[t].run.buf])
    case Release(t) =>
      AtBody(s, t) && (s.bodies[t].Failed? || (s.bodies[t].Looping? && !HasRemaining(s.bufs[s.pool.pcs[t].run.buf])))
    case PoolFinish(t) => AtBody(s, t) && s.bodies[t].Released?
  }

  /** The text can be built into a frame. */
  predicate Builds(text: string) {
    F.JavaParse(text).Parsed?
  }

  /** The iteration throws: as the step says, or because the complete text builds no frame. */
  predicate Throws(c: Conn, b: char, throws: bool) {
    throws || (b == NUL && !Builds(c.partial))
  }

  /** One byte through decodeNextByte and, for a complete frame, process. An exception leaves the
      decoder's array emptied when the byte was NUL, and untouched otherwise. */
  function Decoded(c: Conn, b: char, throws: bool): Conn {
    if b == NUL then
      c.(consumed := c.consumed + [b], partial := "",
         handed := if Builds(c.partial) then c.handed + [c.partial] else c.handed,
         threw := c.threw || Throws(c, b, throws))
    else if throws then c.(threw := true)
    else c.(consumed := c.consumed + [b], partial := c.partial + [b])
  }

  /** What is recorded of a task when it releases its buffer. */
  function Ended(body: Body, b: Buffer): Cut {
    if body.Failed? then Cut(body.used, true) else Cut(b.pos, false)
  }

  function Next(s: State, st: Step): State
    requires Enabled(s, st)
  {
    match st
    case PollBuffer(a) =>
      if s.free == [] then s.(sel := Allocating(a))
      else
        var n := s.free[0];
        s.(sel := Reading(a, n), free := s.free[1..], bufs := s.bufs[n := s.bufs[n].(pos := 0, owner := Selector)])
    case Allocate =>
      s.(sel := Reading(s.sel.act, |s.bufs|), bufs := s.bufs + [Buffer("", 0, Selector)])
    case ReadChunk(chunk) =>
      var c := s.conns[s.sel.act];
      s.(sel := Submitting(s.sel.act, ReadTask(s.sel.buf, chunk)),
         bufs := s.bufs[s.sel.buf := s.bufs[s.sel.buf].(content := chunk, pos := 0)],
         conns := s.conns[s.sel.act := c.(read := c.read + chunk)])
    case ReadFails =>
      s.(sel := Idle, free := s.free + [s.sel.buf],
         bufs := s.bufs[s.sel.buf := s.bufs[s.sel.buf].(owner := Free)])
    case Submit =>
      s.(sel := Idle, pool := P.Next(s.pool, P.Call(s.selector, s.sel.act, s.sel.task)))
    case PoolMove(t) =>
      var pc := s.pool.pcs[t];
      s.(pool := P.Next(s.pool, P.Move(t)),
         bufs := if pc.WantSubmit?
                 then var owner := Task(pc.act, |P.Runs(s.pool.submitted, pc.act)|);
                      s.bufs[pc.run.buf := s.bufs[pc.run.buf].(owner := owner)]
                 else s.bufs)
    case PoolTake(t) =>
      s.(pool := P.Next(s.pool, P.Take(t)), bodies := s.bodies[t := Looping])
    case GetByte(t, throws) =>
      var a, n := s.pool.pcs[t].act, s.pool.pcs[t].run.buf;
      var b, c := s.bufs[n], s.conns[a];
      var byte := b.content[b.pos];
      s.(bufs := s.bufs[n := b.(pos := b.pos + 1)],
         conns := s.conns[a := Decoded(c, byte, throws)],
         bodies := if !Throws(c, byte, throws) then s.bodies
                   else s.bodies[t := Failed(if byte == NUL then b.pos + 1 else b.pos)])
    case Release(t) =>
      var a, n := s.pool.pcs[t].act, s.pool.pcs[t].run.buf;
      s.(free := s.free + [n], bufs := s.bufs[n := s.bufs[n].(owner := Free)],
         conns := s.conns[a := s.conns[a].(cuts := s.conns[a].cuts + [Ended(s.bodies[t], s.bufs[n])])],
         bodies := s.bodies[t := Released(s.bodies[t].Failed?)])
    case PoolFinish(t) =>
      s.(pool := P.Next(s.pool, P.Finish(t, s.bodies[t].threw)))
  }

  predicate Init(s: State) {
    && P.Init(s.pool)
    && s.selector in s.pool.pcs && s.pool.pcs[s.selector].Outside?
    && s.sel == Idle && s.free == [] && s.bufs == [] && s.bodies == map[]
    && forall a :: a in s.conns ==> s.conns[a] == Conn("", "", "", [], [], false)
  }

  ghost predicate IsRun(b: seq<State>, steps: seq<Step>) {
    && |b| == |steps| + 1
    && Init(b[0])
    && forall i :: 0 <= i < |steps| ==> Enabled(b[i], steps[i]) && b[i + 1] == Next(b[i], steps[i])
  }
}
