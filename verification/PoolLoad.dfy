/** The pool under load: in which order jobs are taken and results passed on, how the number of workers
    follows the work, and that a shutdown leaves no queued job behind. */
module PoolLoad {
  import opened Results
  import opened WorkerPool
  import opened PoolSafety
  import opened PoolProgress
  import opened PoolScaling

  // ---- Order ----

  /** Of each caller the queue holds later jobs behind earlier ones, all of them accepted. */
  predicate QueueInOrder(st: Pool) {
    && (forall i :: 0 <= i < |st.queue| ==>
         st.queue[i].batch < |st.batches| && st.queue[i].idx < st.batches[st.queue[i].batch].sent)
    && (forall i, j :: 0 <= i < j < |st.queue| && st.queue[i].batch == st.queue[j].batch ==>
                         st.queue[i].idx < st.queue[j].idx)
  }

  /** The job an event hands to a worker. */
  function HandedOut(st: Pool, ev: Event, st': Pool): (j: Option<Job>) {
    match ev
    case Take(i) => if i < |st'.workers| && st'.workers[i].Taken? then Some(st'.workers[i].job) else None
    case SendTo(_, i) => if i < |st'.workers| && st'.workers[i].Taken? then Some(st'.workers[i].job) else None
    case _ => None
  }

  /** Only accepted jobs enter the queue, at its end, and nothing but its front leaves it. */
  predicate QueueMoves(st: Pool, st': Pool) {
    && |st.batches| <= |st'.batches|
    && (forall b :: 0 <= b < |st.batches| ==> st.batches[b].sent <= st'.batches[b].sent)
    && (|| st'.queue == st.queue
        || (st.queue != [] && st'.queue == st.queue[1..])
        || exists b :: 0 <= b < |st.batches| && st'.queue == st.queue + [Job(b, st.batches[b].sent)] &&
                       st'.batches[b].sent == st.batches[b].sent + 1)
  }

  lemma QueueStep(cfg: Config, st: Pool, ev: Event, st': Pool)
    requires Next(cfg, st, ev) == Some(st')
    ensures QueueMoves(st, st')
  {
    hide DoSend, DoSendTo, DoTake, DoSendResult, DoCollect, DoCheckOpen, QueueMoves;
    if ev.Send? {
      SendMoves(cfg, st, ev.b, st');
    } else if ev.SendTo? {
      SendToMoves(st, ev.b, ev.i, st');
    } else if ev.Take? {
      TakeMoves(st, ev.i, st');
    } else if ev.Collect? {
      CollectStays(st, ev.b, st');
    } else if ev.SendResult? {
      SendResultStays(st, ev.i, st');
    } else if ev.CheckOpen? {
      CheckStays(st, ev.b, st');
    } else {
      OthersStayQueued(cfg, st, ev, st');
    }
  }

  /** The queue and what was accepted are as before. */
  predicate SameQueue(st: Pool, st': Pool) {
    && st'.queue == st.queue && |st.batches| <= |st'.batches|
    && forall b :: 0 <= b < |st.batches| ==> st'.batches[b].sent == st.batches[b].sent
  }

  lemma SameQueueMoves(st: Pool, st': Pool)
    requires SameQueue(st, st')
    ensures QueueMoves(st, st')
  {
  }

  lemma SendToMoves(st: Pool, b: nat, i: nat, st': Pool)
    requires DoSendTo(st, b, i) == Some(st')
    ensures QueueMoves(st, st') && |st'.queue| <= |st.queue|
  {
  }

  lemma TakeMoves(st: Pool, i: nat, st': Pool)
    requires DoTake(st, i) == Some(st')
    ensures QueueMoves(st, st') && |st'.queue| <= |st.queue|
  {
  }

  lemma CollectStays(st: Pool, b: nat, st': Pool)
    requires DoCollect(st, b) == Some(st')
    ensures QueueMoves(st, st') && st'.queue == st.queue
  {
  }

  lemma SendResultStays(st: Pool, i: nat, st': Pool)
    requires DoSendResult(st, i) == Some(st')
    ensures QueueMoves(st, st') && st'.queue == st.queue
  {
  }

  lemma CheckStays(st: Pool, b: nat, st': Pool)
    requires DoCheckOpen(st, b) == Some(st')
    ensures QueueMoves(st, st') && st'.queue == st.queue
  {
  }

  lemma OthersStayQueued(cfg: Config, st: Pool, ev: Event, st': Pool)
    requires Next(cfg, st, ev) == Some(st')
    requires !ev.Send? && !ev.SendTo? && !ev.Take? && !ev.Collect? && !ev.SendResult? && !ev.CheckOpen?
    ensures QueueMoves(st, st') && st'.queue == st.queue
  {
    hide DoSend, DoSendTo, DoTake, DoSendResult, DoCollect, DoCheckOpen, QueueMoves;
    SameQueueMoves(st, st');
  }

  lemma SendMoves(cfg: Config, st: Pool, b: nat, st': Pool)
    requires DoSend(cfg, st, b) == Some(st')
    ensures QueueMoves(st, st')
  {
    if st' != st.(panicked := true) {
      assert st'.queue == st.queue + [Job(b, st.batches[b].sent)];
    }
  }

  lemma OrderStep(st: Pool, st': Pool)
    requires QueueInOrder(st) && QueueMoves(st, st')
    ensures QueueInOrder(st')
  {
    if st'.queue != st.queue && !(st.queue != [] && st'.queue == st.queue[1..]) {
      var b :| 0 <= b < |st.batches| && st'.queue == st.queue + [Job(b, st.batches[b].sent)] &&
               st'.batches[b].sent == st.batches[b].sent + 1;
    }
  }

  lemma {:induction false} RunsAreInOrder(cfg: Config, evs: seq<Event>)
    requires Run(cfg, evs).Some?
    ensures QueueInOrder(Run(cfg, evs).value)
  {
    if evs != [] {
      hide Next, QueueInOrder, QueueMoves;
      RunsAreInOrder(cfg, evs[..|evs| - 1]);
      QueueStep(cfg, Run(cfg, evs[..|evs| - 1]).value, evs[|evs| - 1], Run(cfg, evs).value);
      OrderStep(Run(cfg, evs[..|evs| - 1]).value, Run(cfg, evs).value);
    } else {
      EmptyQueue();
    }
  }

  lemma EmptyQueue()
    ensures QueueInOrder(NEW_POOL)
  {
  }

  /** In every run a worker is handed the first of its caller's jobs that are still to be handed out:
      everything queued or sent after it is later. */
  lemma JobsAreTakenInOrder(cfg: Config, evs: seq<Event>, ev: Event, st': Pool, j: Job)
    requires Run(cfg, evs).Some? && Next(cfg, Run(cfg, evs).value, ev) == Some(st')
    requires !st'.panicked && HandedOut(Run(cfg, evs).value, ev, st') == Some(j)
    ensures j.batch < |st'.batches| && j.idx < st'.batches[j.batch].sent
    ensures forall i :: 0 <= i < |st'.queue| && st'.queue[i].batch == j.batch ==> j.idx < st'.queue[i].idx
  {
    RunsAreInOrder(cfg, evs);
    hide Run;
  }

  lemma {:induction false} QueueFitsBuffer(cfg: Config, evs: seq<Event>)
    requires Run(cfg, evs).Some?
    ensures |Run(cfg, evs).value.queue| <= cfg.bufferSize
  {
    if evs != [] {
      var st, ev := Run(cfg, evs[..|evs| - 1]).value, evs[|evs| - 1];
      QueueFitsBuffer(cfg, evs[..|evs| - 1]);
      if ev.Send? {
        hide Run;
      } else {
        QueueStep(cfg, st, ev, Run(cfg, evs).value);
        NotLonger(cfg, st, ev, Run(cfg, evs).value);
      }
    }
  }

  lemma NotLonger(cfg: Config, st: Pool, ev: Event, st': Pool)
    requires Next(cfg, st, ev) == Some(st') && !ev.Send?
    ensures |st'.queue| <= |st.queue|
  {
    hide DoSend, DoSendTo, DoTake, DoSendResult, DoCollect, DoCheckOpen, QueueMoves;
    if ev.SendTo? {
      SendToMoves(st, ev.b, ev.i, st');
    } else if ev.Take? {
      TakeMoves(st, ev.i, st');
    } else if ev.Collect? {
      CollectStays(st, ev.b, st');
    } else if ev.SendResult? {
      SendResultStays(st, ev.i, st');
    } else if ev.CheckOpen? {
      CheckStays(st, ev.b, st');
    } else {
      OthersStayQueued(cfg, st, ev, st');
    }
  }

  /** In every run a submitter past its check is held up exactly when the queue is as long as the buffer. */
  lemma SubmitWaitsIffFull(cfg: Config, evs: seq<Event>, b: nat)
    requires Run(cfg, evs).Some?
    requires b < |Run(cfg, evs).value.batches| && Run(cfg, evs).value.batches[b].phase.Holding?
    ensures |Run(cfg, evs).value.queue| <= cfg.bufferSize
    ensures Next(cfg, Run(cfg, evs).value, Send(b)).None? <==> |Run(cfg, evs).value.queue| == cfg.bufferSize
  {
    QueueFitsBuffer(cfg, evs);
    RunsAreSafe(cfg, evs);
    hide Run, Conserved;
  }

  /** What a caller has passed on and what still waits to be, taken together, only grows at its end. */
  predicate ResultsGrow(x: Batch, x': Batch) {
    x.out <= x'.out && x.out + x.res <= x'.out + x'.res
  }

  lemma CollectGrows(st: Pool, c: nat, st': Pool, b: nat)
    requires DoCollect(st, c) == Some(st') && b < |st.batches|
    ensures b < |st'.batches| && ResultsGrow(st.batches[b], st'.batches[b])
  {
    var x := st.batches[b];
    assert x.res != [] ==> x.out + x.res == x.out + [x.res[0]] + x.res[1..];
  }

  lemma SendResultGrows(st: Pool, i: nat, st': Pool, b: nat)
    requires DoSendResult(st, i) == Some(st') && b < |st.batches|
    ensures b < |st'.batches| && ResultsGrow(st.batches[b], st'.batches[b])
  {
    var x, j := st.batches[b], st.workers[i].job;
    assert x.out + (x.res + [j]) == x.out + x.res + [j];
  }

  predicate SameResults(st: Pool, st': Pool, b: nat) {
    b < |st.batches| && b < |st'.batches| && st'.batches[b].out == st.batches[b].out &&
    st'.batches[b].res == st.batches[b].res
  }

  lemma SubmitsKeepResults(cfg: Config, st: Pool, ev: Event, st': Pool, b: nat)
    requires Next(cfg, st, ev) == Some(st') && b < |st.batches|
    requires ev.Send? || ev.SendTo? || ev.CheckOpen? || ev.SubmitCancelled? || ev.EndCollect? || ev.NewBatch?
    ensures SameResults(st, st', b)
  {
    hide DoCollect, DoSendResult, DoTake, DoSpawn, DoCount, DoTick, DoRetire, DoLeave;
  }

  lemma OthersKeepResults(cfg: Config, st: Pool, ev: Event, st': Pool, b: nat)
    requires Next(cfg, st, ev) == Some(st') && b < |st.batches| && !ev.Collect? && !ev.SendResult?
    ensures SameResults(st, st', b)
  {
    hide DoCollect, DoSendResult, DoSend, DoSendTo, DoCheckOpen;
    if ev.Send? || ev.SendTo? || ev.CheckOpen? || ev.SubmitCancelled? || ev.EndCollect? || ev.NewBatch? {
      hide Next, SameResults;
      SubmitsKeepResults(cfg, st, ev, st', b);
    }
  }

  /** Results reach a caller's output in the order they arrived. */
  lemma ResultsKeepTheirOrder(cfg: Config, st: Pool, ev: Event, st': Pool, b: nat)
    requires Next(cfg, st, ev) == Some(st') && b < |st.batches|
    ensures b < |st'.batches| && ResultsGrow(st.batches[b], st'.batches[b])
  {
    hide DoCollect, DoSendResult;
    if ev.Collect? {
      hide ResultsGrow;
      CollectGrows(st, ev.b, st', b);
    } else if ev.SendResult? {
      hide ResultsGrow;
      SendResultGrows(st, ev.i, st', b);
    } else {
      hide Next;
      OthersKeepResults(cfg, st, ev, st', b);
    }
  }

  // ---- The number of active workers ----

  function Works(w: Worker): (n: nat) {
    if w.Working? then 1 else 0
  }

  function Rests(w: Worker): (n: nat) {
    if w.Waiting? then 1 else 0
  }

  function Busy(ws: seq<Worker>): (n: nat) {
    if ws == [] then 0 else Busy(ws[..|ws| - 1]) + Works(ws[|ws| - 1])
  }

  function Resting(ws: seq<Worker>): (n: nat) {
    if ws == [] then 0 else Resting(ws[..|ws| - 1]) + Rests(ws[|ws| - 1])
  }

  lemma {:induction false} BusyUpdate(ws: seq<Worker>, i: nat, w: Worker)
    requires i < |ws|
    ensures Busy(ws[i := w]) == Busy(ws) - Works(ws[i]) + Works(w)
    ensures Resting(ws[i := w]) == Resting(ws) - Rests(ws[i]) + Rests(w)
  {
    var front := ws[..|ws| - 1];
    if i < |ws| - 1 {
      BusyUpdate(front, i, w);
      assert ws[i := w][..|ws| - 1] == front[i := w];
    } else {
      assert ws[i := w][..|ws| - 1] == front;
    }
  }

  lemma BusyAppend(ws: seq<Worker>, w: Worker)
    ensures Busy(ws + [w]) == Busy(ws) + Works(w) && Resting(ws + [w]) == Resting(ws) + Rests(w)
  {
    assert (ws + [w])[..|ws|] == ws;
  }

  lemma {:induction false} BusyAndResting(ws: seq<Worker>)
    ensures Busy(ws) + Resting(ws) <= Running(ws)
  {
    if ws != [] {
      BusyAndResting(ws[..|ws| - 1]);
    }
  }

  lemma {:induction false} SomeoneRests(ws: seq<Worker>) returns (i: nat)
    requires Resting(ws) > 0
    ensures i < |ws| && ws[i].Waiting?
  {
    if ws[|ws| - 1].Waiting? {
      i := |ws| - 1;
    } else {
      i := SomeoneRests(ws[..|ws| - 1]);
    }
  }

  lemma {:induction false} WhoRests(ws: seq<Worker>, i: nat)
    requires i < |ws| && ws[i].Waiting?
    ensures Resting(ws) > 0
  {
    if i < |ws| - 1 {
      WhoRests(ws[..|ws| - 1], i);
    }
  }

  /** One worker changed, or one was added that waits. */
  predicate OneChanged(st: Pool, st': Pool, i: nat) {
    || (i < |st.workers| && |st'.workers| == |st.workers| && st'.workers == st.workers[i := st'.workers[i]] &&
        st'.active - st.active == Works(st'.workers[i]) - Works(st.workers[i]))
    || (st'.workers == st.workers && st'.active == st.active)
    || (st'.workers == st.workers + [Waiting] && st'.active == st.active)
  }

  lemma SubmitChanges(cfg: Config, st: Pool, ev: Event, st': Pool)
    requires Next(cfg, st, ev) == Some(st') && (ev.Send? || ev.SendTo? || ev.SendResult? || ev.Collect?)
    ensures OneChanged(st, st', if Mover(ev).Some? then Mover(ev).value else 0)
  {
    hide DoTake, DoSpawn, DoCount, DoTick, DoRetire, DoLeave, DoCheckOpen, Accepted;
  }

  lemma WorkersChange(cfg: Config, st: Pool, ev: Event, st': Pool)
    requires Next(cfg, st, ev) == Some(st')
    ensures OneChanged(st, st', if Mover(ev).Some? then Mover(ev).value else 0)
  {
    hide DoCollect, DoSendResult, DoSend, DoSendTo;
    if ev.Send? || ev.SendTo? || ev.SendResult? || ev.Collect? {
      hide Next, OneChanged;
      SubmitChanges(cfg, st, ev, st');
    }
  }

  lemma ActiveStep(st: Pool, st': Pool, i: nat)
    requires st.active == Busy(st.workers) && OneChanged(st, st', i)
    ensures st'.active == Busy(st'.workers)
  {
    hide Busy;
    BusyAppend(st.workers, Waiting);
    if i < |st.workers| && i < |st'.workers| {
      BusyUpdate(st.workers, i, st'.workers[i]);
    }
  }

  /** In every run the active count is the number of workers that are running a job. */
  lemma {:induction false} ActiveIsExact(cfg: Config, evs: seq<Event>)
    requires Run(cfg, evs).Some?
    ensures Run(cfg, evs).value.active == Busy(Run(cfg, evs).value.workers)
  {
    if evs != [] {
      hide Next, Busy, OneChanged;
      var st, ev := Run(cfg, evs[..|evs| - 1]).value, evs[|evs| - 1];
      ActiveIsExact(cfg, evs[..|evs| - 1]);
      WorkersChange(cfg, st, ev, Run(cfg, evs).value);
      ActiveStep(st, Run(cfg, evs).value, if Mover(ev).Some? then Mover(ev).value else 0);
    }
  }

  /** In every run a tick adds nobody while some worker waits for a job, or no more jobs are queued than
      there are workers, or the maximum is reached; and it retires nobody while a job is queued. */
  lemma NoNeedlessScaling(cfg: Config, evs: seq<Event>, st': Pool)
    requires cfg.minWorkers <= cfg.maxWorkers && Run(cfg, evs).Some?
    requires Next(cfg, Run(cfg, evs).value, Tick) == Some(st')
    ensures var st := Run(cfg, evs).value;
            && (st'.scaler.Add? ==>
                 && (forall i :: 0 <= i < |st.workers| ==> !st.workers[i].Waiting?)
                 && |st.queue| > Running(st.workers) && Running(st.workers) < cfg.maxWorkers)
            && (st'.scaler.Retire? ==> st.queue == [] && Running(st.workers) > cfg.minWorkers)
  {
    RunsCount(cfg, evs);
    ActiveIsExact(cfg, evs);
    var st := Run(cfg, evs).value;
    hide Run, Running, Busy, Resting;
    BusyAndResting(st.workers);
    forall i | 0 <= i < |st.workers| && st.workers[i].Waiting? ensures Resting(st.workers) > 0 {
      WhoRests(st.workers, i);
    }
  }

  // ---- Where the number of workers settles ----

  /** Events from a given state on. */
  function RunFrom(cfg: Config, st: Pool, evs: seq<Event>): (r: Option<Pool>)
    decreases |evs|
  {
    if evs == [] then Some(st)
    else
      match Next(cfg, st, evs[0])
      case None => None
      case Some(st1) => RunFrom(cfg, st1, evs[1..])
  }

  lemma RunFromFirst(cfg: Config, st: Pool, ev: Event, more: seq<Event>)
    requires Next(cfg, st, ev).Some?
    ensures RunFrom(cfg, st, [ev] + more) == RunFrom(cfg, Next(cfg, st, ev).value, more)
  {
    hide Next;
    assert ([ev] + more)[1..] == more;
  }

  function Larger(a: nat, b: nat): (m: nat) {
    if a < b then b else a
  }

  /** Nothing to do, and every worker on the count is running a job or waiting for one. */
  predicate Quiet(st: Pool) {
    && st.scaler.Idle? && st.queue == []
    && st.active == Busy(st.workers) && st.total == Busy(st.workers) + Resting(st.workers)
  }

  /** Where a quiet pool with a active workers settles. */
  function QuietSize(cfg: Config, active: nat): (n: nat) {
    Larger(cfg.minWorkers, 2 * active + 1)
  }

  lemma RetireRound(cfg: Config, st: Pool, i: nat) returns (st': Pool)
    requires Quiet(st) && i < |st.workers| && st.workers[i].Waiting?
    requires st.total > QuietSize(cfg, Busy(st.workers))
    ensures st' == st.(workers := st.workers[i := Gone], total := st.total - 1)
    ensures forall more :: RunFrom(cfg, st, [Tick, RetireOne(i), Uncount(i)] + more) == RunFrom(cfg, st', more)
    ensures Quiet(st') && Busy(st'.workers) == Busy(st.workers)
  {
    hide Busy, Resting, RunFrom;
    BusyUpdate(st.workers, i, Gone);
    st' := st.(workers := st.workers[i := Gone], total := st.total - 1);
    var st1 := st.(scaler := Retire);
    var st2 := st.(workers := st.workers[i := Leaving]);
    assert Next(cfg, st, Tick) == Some(st1);
    assert Next(cfg, st1, RetireOne(i)) == Some(st2);
    assert st2.workers[i := Gone] == st'.workers;
    assert Next(cfg, st2, Uncount(i)) == Some(st');
    hide Next;
    forall more ensures RunFrom(cfg, st, [Tick, RetireOne(i), Uncount(i)] + more) == RunFrom(cfg, st', more) {
      RunFromFirst(cfg, st, Tick, [RetireOne(i), Uncount(i)] + more);
      assert [Tick] + ([RetireOne(i), Uncount(i)] + more) == [Tick, RetireOne(i), Uncount(i)] + more;
      RunFromFirst(cfg, st1, RetireOne(i), [Uncount(i)] + more);
      assert [RetireOne(i)] + ([Uncount(i)] + more) == [RetireOne(i), Uncount(i)] + more;
      RunFromFirst(cfg, st2, Uncount(i), more);
    }
  }

  /** A pool with nothing queued shrinks, tick by tick, to exactly one worker more than twice the active
      ones, or to the minimum if that is more; then ticks change nothing. */
  lemma {:induction false} QuietPoolShrinks(cfg: Config, st: Pool) returns (evs: seq<Event>)
    requires Quiet(st)
    ensures RunFrom(cfg, st, evs).Some?
    ensures var st' := RunFrom(cfg, st, evs).value;
            var n := QuietSize(cfg, Busy(st.workers));
            && st'.total == (if st.total > n then n else st.total)
            && |evs| == 3 * (st.total - st'.total) && Busy(st'.workers) == Busy(st.workers)
            && Next(cfg, st', Tick) == Some(st')
    decreases st.total
  {
    if st.total > QuietSize(cfg, Busy(st.workers)) {
      hide Busy, Resting, Next, RunFrom;
      var i := SomeoneRests(st.workers);
      var st1 := RetireRound(cfg, st, i);
      var rest := QuietPoolShrinks(cfg, st1);
      evs := [Tick, RetireOne(i), Uncount(i)] + rest;
    } else {
      evs := [];
    }
  }

  /** Every worker is running a job. */
  predicate Loaded(st: Pool) {
    st.scaler.Idle? && st.active == st.total && !st.cancelled
  }

  /** Where a pool of n busy workers with `jobs` queued settles. */
  function LoadedSize(cfg: Config, jobs: nat, n: nat): (m: nat) {
    if jobs <= n || n >= cfg.maxWorkers then n
    else if (jobs + n + 1) / 2 < cfg.maxWorkers then (jobs + n + 1) / 2
    else cfg.maxWorkers
  }

  lemma LoadedNext(cfg: Config, jobs: nat, n: nat)
    requires jobs > n && n < cfg.maxWorkers
    ensures LoadedSize(cfg, jobs - 1, n + 1) == LoadedSize(cfg, jobs, n)
  {
  }

  lemma GrowRound(cfg: Config, st: Pool) returns (st': Pool)
    requires Loaded(st) && 0 <= st.total < |st.queue| && st.total < cfg.maxWorkers
    ensures var n := |st.workers|;
            && st' == st.(workers := st.workers + [Working(st.queue[0])], queue := st.queue[1..],
                          total := st.total + 1, active := st.active + 1)
            && forall more ::
                 RunFrom(cfg, st, [Tick, Spawn, Count, Take(n), Begin(n)] + more) == RunFrom(cfg, st', more)
  {
    hide RunFrom;
    var n, j := |st.workers|, st.queue[0];
    st' := st.(workers := st.workers + [Working(j)], queue := st.queue[1..], total := st.total + 1,
               active := st.active + 1);
    var st1 := st.(scaler := Add);
    var st2 := st.(workers := st.workers + [Waiting], scaler := AddCount);
    var st3 := st.(workers := st.workers + [Waiting], total := st.total + 1);
    var st4 := st3.(workers := st.workers + [Taken(j)], queue := st.queue[1..]);
    assert Next(cfg, st, Tick) == Some(st1);
    assert Next(cfg, st1, Spawn) == Some(st2);
    assert Next(cfg, st2, Count) == Some(st3);
    assert (st.workers + [Waiting])[n := Taken(j)] == st.workers + [Taken(j)];
    assert Next(cfg, st3, Take(n)) == Some(st4);
    assert (st.workers + [Taken(j)])[n := Working(j)] == st.workers + [Working(j)];
    assert Next(cfg, st4, Begin(n)) == Some(st');
    hide Next;
    forall more ensures RunFrom(cfg, st, [Tick, Spawn, Count, Take(n), Begin(n)] + more) == RunFrom(cfg, st', more) {
      RunFromFirst(cfg, st, Tick, [Spawn, Count, Take(n), Begin(n)] + more);
      assert [Tick] + ([Spawn, Count, Take(n), Begin(n)] + more) == [Tick, Spawn, Count, Take(n), Begin(n)] + more;
      RunFromFirst(cfg, st1, Spawn, [Count, Take(n), Begin(n)] + more);
      assert [Spawn] + ([Count, Take(n), Begin(n)] + more) == [Spawn, Count, Take(n), Begin(n)] + more;
      RunFromFirst(cfg, st2, Count, [Take(n), Begin(n)] + more);
      assert [Count] + ([Take(n), Begin(n)] + more) == [Count, Take(n), Begin(n)] + more;
      RunFromFirst(cfg, st3, Take(n), [Begin(n)] + more);
      assert [Take(n)] + ([Begin(n)] + more) == [Take(n), Begin(n)] + more;
      RunFromFirst(cfg, st4, Begin(n), more);
    }
  }

  /** A pool all of whose workers are busy grows, one worker for each tick, until no more jobs are queued
      than it has workers, or to the maximum; then ticks change nothing. */
  lemma {:induction false} LoadedPoolGrows(cfg: Config, st: Pool) returns (evs: seq<Event>)
    requires Loaded(st) && st.total >= 0
    ensures RunFrom(cfg, st, evs).Some?
    ensures var st' := RunFrom(cfg, st, evs).value;
            && st'.total == LoadedSize(cfg, |st.queue|, st.total) && |evs| == 5 * (st'.total - st.total)
            && st'.active == st'.total && |st'.queue| == |st.queue| - (st'.total - st.total)
            && Next(cfg, st', Tick) == Some(st')
    decreases |st.queue|
  {
    if |st.queue| > st.total && st.total < cfg.maxWorkers {
      hide Next, RunFrom;
      var st1 := GrowRound(cfg, st);
      LoadedNext(cfg, |st.queue|, st.total);
      var rest := LoadedPoolGrows(cfg, st1);
      evs := [Tick, Spawn, Count, Take(|st.workers|), Begin(|st.workers|)] + rest;
    } else {
      evs := [];
    }
  }

  // ---- Shutdown ----

  /** A shutdown leaves no queued job behind: in a run with a positive minimum, without cancellation and
      with retired workers leaving the count before the next tick, as long as jobs are queued there are
      workers to take them, and every submitted batch can be brought to its end. */
  lemma ShutdownDrains(cfg: Config, evs: seq<Event>, b: nat) returns (more: seq<Event>)
    requires 1 <= cfg.minWorkers <= cfg.maxWorkers && Run(cfg, evs).Some? && Prompt(cfg, evs)
    requires var st := Run(cfg, evs).value;
             && !st.cancelled && st.queue != [] && !st.scaler.Boot? && !st.scaler.BootCount?
             && b < |st.batches| && st.batches[b].n > 0 && st.batches[b].phase.Collecting?
    ensures Live(Run(cfg, evs).value.workers) >= cfg.minWorkers
    ensures Run(cfg, evs + more).Some?
    ensures b < |Run(cfg, evs + more).value.batches| && Run(cfg, evs + more).value.batches[b].phase.Finished?
  {
    NeverBelowMinimum(cfg, evs);
    hide Run, Live, Prompt;
    more := BatchCanFinish(cfg, evs, b);
  }

  // ---- Cancellation ----

  /** The next step of a worker of a cancelled pool towards its end. */
  function WayOut(w: Worker, i: nat): (ev: Event) {
    match w
    case Waiting => Leave(i)
    case Taken(_) => Begin(i)
    case Working(_) => End(i)
    case Sending(_) => DropResult(i)
    case _ => Uncount(i)
  }

  function StepsLeft(w: Worker): (n: nat) {
    match w
    case Taken(_) => 4
    case Working(_) => 3
    case Sending(_) => 2
    case Waiting => 2
    case Leaving => 1
    case Gone => 0
  }

  lemma StepOut(cfg: Config, st: Pool, i: nat)
    requires st.cancelled && i < |st.workers| && !st.workers[i].Gone?
    ensures var r := Next(cfg, st, WayOut(st.workers[i], i));
            && r.Some? && r.value.cancelled && |r.value.workers| == |st.workers|
            && r.value.workers == st.workers[i := r.value.workers[i]]
            && StepsLeft(r.value.workers[i]) < StepsLeft(st.workers[i])
  {
  }

  /** Whatever it is doing, a worker of a cancelled pool ends by at most four steps of its own. */
  lemma {:induction false} WorkerEnds(cfg: Config, st: Pool, i: nat) returns (evs: seq<Event>)
    requires st.cancelled && i < |st.workers|
    ensures |evs| <= 4 && RunFrom(cfg, st, evs).Some?
    ensures RunFrom(cfg, st, evs).value.cancelled
    ensures RunFrom(cfg, st, evs).value.workers == st.workers[i := Gone]
    ensures |evs| <= StepsLeft(st.workers[i])
    decreases StepsLeft(st.workers[i])
  {
    if st.workers[i].Gone? {
      evs := [];
      assert st.workers[i := Gone] == st.workers;
    } else {
      StepOut(cfg, st, i);
      hide Next;
      var ev := WayOut(st.workers[i], i);
      var st1 := Next(cfg, st, ev).value;
      var rest := WorkerEnds(cfg, st1, i);
      evs := [ev] + rest;
      RunFromFirst(cfg, st, ev, rest);
      assert st1.workers[i := Gone] == st.workers[i := Gone];
    }
  }

  lemma {:induction false} RunFromOn(cfg: Config, st: Pool, a: seq<Event>, b: seq<Event>)
    requires RunFrom(cfg, st, a).Some?
    ensures RunFrom(cfg, st, a + b) == RunFrom(cfg, RunFrom(cfg, st, a).value, b)
    decreases |a|
  {
    hide Next;
    if a == [] {
      assert a + b == b;
    } else {
      assert (a + b)[1..] == a[1..] + b;
      RunFromOn(cfg, Next(cfg, st, a[0]).value, a[1..], b);
    }
  }

  /** So a cancelled pool can always be wound down until no worker runs, whatever is queued and whoever
      does not collect results. */
  lemma {:induction false} CancelledPoolWindsDown(cfg: Config, st: Pool, n: nat) returns (evs: seq<Event>)
    requires st.cancelled && n <= |st.workers| && forall i :: n <= i < |st.workers| ==> st.workers[i].Gone?
    ensures |evs| <= 4 * n && RunFrom(cfg, st, evs).Some?
    ensures var ws := RunFrom(cfg, st, evs).value.workers;
            |ws| == |st.workers| && forall i :: 0 <= i < |ws| ==> ws[i].Gone?
    decreases n
  {
    if n == 0 {
      evs := [];
    } else {
      hide RunFrom;
      var first := WorkerEnds(cfg, st, n - 1);
      var rest := CancelledPoolWindsDown(cfg, RunFrom(cfg, st, first).value, n - 1);
      RunFromOn(cfg, st, first, rest);
      evs := first + rest;
    }
  }

  /** And a caller held up in Submit, or the scaler, can give up. */
  lemma CancelReleases(cfg: Config, st: Pool)
    requires st.cancelled
    ensures forall b :: 0 <= b < |st.batches| && st.batches[b].phase.Holding? ==>
              var r := Next(cfg, st, SubmitCancelled(b));
              && r.Some? && r.value.queue == st.queue
              && r.value.batches == st.batches[b := st.batches[b].(phase := Rejected)]
    ensures st.scaler.Idle? || st.scaler.Retire? ==> Next(cfg, st, StopScaler) == Some(st.(scaler := Stopped))
  {
  }
}
