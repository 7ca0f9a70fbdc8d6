/** The retrying worker pool with the collectors of its callers, one event at a time: submitters,
    workers, the scaler, Shutdown and cancellation interleave freely. A step that would make the Go
    runtime panic (sending on a closed channel, closing one twice) sets `panicked`. */
module WorkerPool {
  import opened Results

  datatype Config = Config(minWorkers: nat, maxWorkers: nat, bufferSize: nat)

  /** Job idx of one sendChunks or processReadFile call. */
  datatype Job = Job(batch: nat, idx: nat)

  /** Leaving: the goroutine has returned but not yet taken itself off the count. */
  datatype Worker = Waiting | Taken(job: Job) | Working(job: Job) | Sending(job: Job) | Leaving | Gone

  /** Holding: inside Submit with the read lock, past the isClosed check. */
  datatype Phase = Submitting | Holding | Collecting | Finished | Rejected

  /** One caller: n jobs, of which `sent` were accepted; its results channel (capacity n) and what its
      collector has passed on to `out` (capacity n). */
  datatype Batch = Batch(n: nat, sent: nat, phase: Phase, res: seq<Job>, resClosed: bool, out: seq<Job>)

  /** Shutdown's write lock: taken, jobs closed but not marked, or never released by a second call. */
  datatype Lock = Free | Locked | Closing | Stuck

  /** The constructor adding worker i, then the ticker loop. Spawned workers are counted one step later. */
  datatype Scaler = Boot(i: nat) | BootCount(i: nat) | Idle | Add | AddCount | Retire | Stopped

  datatype Pool = Pool(queue: seq<Job>, closed: bool, isClosed: bool, lock: Lock, cancelled: bool, panicked: bool,
                       workers: seq<Worker>, total: int, active: int, scaler: Scaler, batches: seq<Batch>)

  const NEW_POOL: Pool := Pool([], false, false, Free, false, false, [], 0, 0, Boot(1), [])

  datatype Event =
    | Spawn | Count | Tick | RetireOne(i: nat) | StopScaler
    | NewBatch(n: nat) | CheckOpen(b: nat) | Send(b: nat) | SendTo(b: nat, i: nat) | SubmitCancelled(b: nat)
    | Take(i: nat) | Leave(i: nat) | Begin(i: nat) | End(i: nat)
    | SendResult(i: nat) | DropResult(i: nat) | Uncount(i: nat)
    | Collect(b: nat) | EndCollect(b: nat)
    | ShutdownLock | ShutdownClose | ShutdownMark | Cancel

  predicate NoneHolding(batches: seq<Batch>) {
    forall b :: 0 <= b < |batches| ==> batches[b].phase != Holding
  }

  function SetWorker(st: Pool, i: nat, w: Worker): (r: Pool)
    requires i < |st.workers|
  {
    st.(workers := st.workers[i := w])
  }

  function SetBatch(st: Pool, b: nat, x: Batch): (r: Pool)
    requires b < |st.batches|
  {
    st.(batches := st.batches[b := x])
  }

  /** A batch with one more job accepted; the last one ends the submit loop. */
  function Accepted(x: Batch): (r: Batch) {
    x.(sent := x.sent + 1, phase := if x.sent + 1 >= x.n then Collecting else Submitting)
  }

  // ---- The scaler ----

  function DoSpawn(cfg: Config, st: Pool): (r: Option<Pool>) {
    match st.scaler
    case Boot(i) =>
      if i <= cfg.minWorkers then Some(st.(workers := st.workers + [Waiting], scaler := BootCount(i)))
      else Some(st.(scaler := Idle))
    case Add => Some(st.(workers := st.workers + [Waiting], scaler := AddCount))
    case _ => None
  }

  function DoCount(st: Pool): (r: Option<Pool>) {
    match st.scaler
    case BootCount(i) => Some(st.(total := st.total + 1, scaler := Boot(i + 1)))
    case AddCount => Some(st.(total := st.total + 1, scaler := Idle))
    case _ => None
  }

  /** One tick. Both conditions cannot hold at once: the queue is not both empty and longer than a count. */
  function DoTick(cfg: Config, st: Pool): (r: Option<Pool>) {
    if !st.scaler.Idle? then None
    else
      var jobs, workers, active := |st.queue|, st.total, st.active;
      if jobs > workers && workers == active && workers < cfg.maxWorkers then Some(st.(scaler := Add))
      else if jobs == 0 && active < workers / 2 && workers > cfg.minWorkers then Some(st.(scaler := Retire))
      else Some(st)
  }

  /** An idle worker takes the token from the unbuffered close channel. */
  function DoRetire(st: Pool, i: nat): (r: Option<Pool>) {
    if st.scaler.Retire? && i < |st.workers| && st.workers[i].Waiting?
    then Some(SetWorker(st, i, Leaving).(scaler := Idle)) else None
  }

  // ---- Submit ----

  function DoCheckOpen(st: Pool, b: nat): (r: Option<Pool>) {
    if b >= |st.batches| || !st.batches[b].phase.Submitting? || !st.lock.Free? then None
    else Some(SetBatch(st, b, st.batches[b].(phase := if st.isClosed then Rejected else Holding)))
  }

  function DoSend(cfg: Config, st: Pool, b: nat): (r: Option<Pool>) {
    if b >= |st.batches| || !st.batches[b].phase.Holding? then None
    else if st.closed then Some(st.(panicked := true))
    else if |st.queue| >= cfg.bufferSize then None
    else Some(SetBatch(st, b, Accepted(st.batches[b])).(queue := st.queue + [Job(b, st.batches[b].sent)]))
  }

  /** The send meets a waiting worker directly. */
  function DoSendTo(st: Pool, b: nat, i: nat): (r: Option<Pool>) {
    if b >= |st.batches| || !st.batches[b].phase.Holding? || st.queue != [] ||
       i >= |st.workers| || !st.workers[i].Waiting? then None
    else if st.closed then Some(st.(panicked := true))
    else Some(SetWorker(SetBatch(st, b, Accepted(st.batches[b])), i, Taken(Job(b, st.batches[b].sent))))
  }

  // ---- A worker ----

  function DoTake(st: Pool, i: nat): (r: Option<Pool>) {
    if i < |st.workers| && st.workers[i].Waiting? && st.queue != []
    then Some(SetWorker(st, i, Taken(st.queue[0])).(queue := st.queue[1..])) else None
  }

  /** Cancelled, or the job channel is closed and drained. */
  function DoLeave(st: Pool, i: nat): (r: Option<Pool>) {
    if i < |st.workers| && st.workers[i].Waiting? && (st.cancelled || (st.closed && st.queue == []))
    then Some(SetWorker(st, i, Leaving)) else None
  }

  function DoSendResult(st: Pool, i: nat): (r: Option<Pool>) {
    if i >= |st.workers| || !st.workers[i].Sending? || st.workers[i].job.batch >= |st.batches| then None
    else
      var b := st.workers[i].job.batch;
      var x := st.batches[b];
      if x.resClosed then Some(st.(panicked := true))
      else if |x.res| >= x.n then None
      else Some(SetWorker(SetBatch(st, b, x.(res := x.res + [st.workers[i].job])), i, Waiting))
  }

  // ---- A collector ----

  /** One turn of the range loop: pass the result on, and close the channel after the last. */
  function DoCollect(st: Pool, b: nat): (r: Option<Pool>) {
    if b >= |st.batches| || !st.batches[b].phase.Collecting? || st.batches[b].res == [] ||
       |st.batches[b].out| >= st.batches[b].n then None
    else
      var x := st.batches[b].(out := st.batches[b].out + [st.batches[b].res[0]], res := st.batches[b].res[1..]);
      if |x.out| != x.n then Some(SetBatch(st, b, x))
      else if x.resClosed then Some(st.(panicked := true))
      else Some(SetBatch(st, b, x.(resClosed := true)))
  }

  function Next(cfg: Config, st: Pool, ev: Event): (r: Option<Pool>) {
    match ev
    case Spawn => DoSpawn(cfg, st)
    case Count => DoCount(st)
    case Tick => DoTick(cfg, st)
    case RetireOne(i) => DoRetire(st, i)
    case StopScaler =>
      if st.cancelled && (st.scaler.Idle? || st.scaler.Retire?) then Some(st.(scaler := Stopped)) else None
    case NewBatch(n) =>
      Some(st.(batches := st.batches + [Batch(n, 0, if n == 0 then Collecting else Submitting, [], false, [])]))
    case CheckOpen(b) => DoCheckOpen(st, b)
    case Send(b) => DoSend(cfg, st, b)
    case SendTo(b, i) => DoSendTo(st, b, i)
    case SubmitCancelled(b) =>
      if b < |st.batches| && st.batches[b].phase.Holding? && st.cancelled
      then Some(SetBatch(st, b, st.batches[b].(phase := Rejected))) else None
    case Take(i) => DoTake(st, i)
    case Leave(i) => DoLeave(st, i)
    case Begin(i) =>
      if i < |st.workers| && st.workers[i].Taken?
      then Some(SetWorker(st, i, Working(st.workers[i].job)).(active := st.active + 1)) else None
    case End(i) =>
      if i < |st.workers| && st.workers[i].Working?
      then Some(SetWorker(st, i, Sending(st.workers[i].job)).(active := st.active - 1)) else None
    case SendResult(i) => DoSendResult(st, i)
    case DropResult(i) =>
      if i < |st.workers| && st.workers[i].Sending? && st.cancelled then Some(SetWorker(st, i, Leaving)) else None
    case Uncount(i) =>
      if i < |st.workers| && st.workers[i].Leaving?
      then Some(SetWorker(st, i, Gone).(total := st.total - 1)) else None
    case Collect(b) => DoCollect(st, b)
    case EndCollect(b) =>
      if b < |st.batches| && st.batches[b].phase.Collecting? && st.batches[b].res == [] && st.batches[b].resClosed
      then Some(SetBatch(st, b, st.batches[b].(phase := Finished))) else None
    case ShutdownLock =>
      if st.lock.Free? && NoneHolding(st.batches)
      then Some(st.(lock := if st.isClosed then Stuck else Locked)) else None
    case ShutdownClose =>
      if !st.lock.Locked? then None
      else if st.closed then Some(st.(panicked := true))
      else Some(st.(closed := true, lock := Closing))
    case ShutdownMark => if st.lock.Closing? then Some(st.(isClosed := true, lock := Free)) else None
    case Cancel => Some(st.(cancelled := true))
  }

  function Run(cfg: Config, evs: seq<Event>): (r: Option<Pool>) {
    if evs == [] then Some(NEW_POOL)
    else
      match Run(cfg, evs[..|evs| - 1])
      case None => None
      case Some(st) => Next(cfg, st, evs[|evs| - 1])
  }

  // ---- The job channel ----

  /** The channel is closed at most once and never while a submitter is past its check. */
  predicate ChannelOk(st: Pool) {
    && (st.closed <==> st.isClosed || st.lock.Closing?)
    && (st.lock != Free ==> NoneHolding(st.batches))
    && (st.lock.Locked? ==> !st.isClosed)
    && (st.lock.Closing? ==> !st.isClosed)
    && (st.closed ==> NoneHolding(st.batches))
  }

  // ---- Counting workers ----

  function Running(ws: seq<Worker>): (n: nat) {
    if ws == [] then 0 else Running(ws[..|ws| - 1]) + if ws[|ws| - 1].Gone? then 0 else 1
  }

  /** Workers that still take or run jobs. */
  function Live(ws: seq<Worker>): (n: nat) {
    if ws == [] then 0 else Live(ws[..|ws| - 1]) + if ws[|ws| - 1].Gone? || ws[|ws| - 1].Leaving? then 0 else 1
  }

  function Here(w: Worker): (n: nat) {
    if w.Gone? then 0 else 1
  }

  function Alive(w: Worker): (n: nat) {
    if w.Gone? || w.Leaving? then 0 else 1
  }

  lemma {:induction false} CountUpdate(ws: seq<Worker>, i: nat, w: Worker)
    requires i < |ws|
    ensures Running(ws[i := w]) == Running(ws) - Here(ws[i]) + Here(w)
    ensures Live(ws[i := w]) == Live(ws) - Alive(ws[i]) + Alive(w)
  {
    var front := ws[..|ws| - 1];
    if i < |ws| - 1 {
      CountUpdate(front, i, w);
      assert ws[i := w][..|ws| - 1] == front[i := w];
    } else {
      assert ws[i := w][..|ws| - 1] == front;
    }
  }

  lemma CountAppend(ws: seq<Worker>, w: Worker)
    ensures Running(ws + [w]) == Running(ws) + Here(w)
    ensures Live(ws + [w]) == Live(ws) + Alive(w)
  {
    assert (ws + [w])[..|ws|] == ws;
  }

  lemma {:induction false} LiveAtMostRunning(ws: seq<Worker>)
    ensures Live(ws) <= Running(ws)
    ensures Live(ws) == Running(ws) <==> forall i :: 0 <= i < |ws| ==> !ws[i].Leaving?
  {
    if ws != [] {
      var front := ws[..|ws| - 1];
      LiveAtMostRunning(front);
      assert ws == front + [ws[|ws| - 1]];
    }
  }

  /** Spawned but not yet counted. */
  function Uncounted(s: Scaler): (n: nat) {
    if s.BootCount? || s.AddCount? then 1 else 0
  }

  /** The count is exact up to a worker being added, and leaves room for one that is about to be. */
  predicate CountOk(cfg: Config, st: Pool) {
    && Running(st.workers) == st.total + Uncounted(st.scaler)
    && st.total + Uncounted(st.scaler) <= cfg.maxWorkers
    && match st.scaler
       case Boot(i) => 1 <= i <= cfg.minWorkers + 1 && Running(st.workers) <= i - 1
       case BootCount(i) => 1 <= i <= cfg.minWorkers && Running(st.workers) <= i
       case Add => st.total < cfg.maxWorkers
       case _ => true
  }
}
