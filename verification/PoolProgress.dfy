/** How far a pool can get: every accepted job takes boundedly many steps to its collector, and after a
    second Shutdown nothing is accepted any more. */
module PoolProgress {
  import opened Results
  import opened WorkerPool
  import opened PoolSafety

  // ---- A measure of the work left ----

  function WorkerWeight(w: Worker): (n: nat) {
    if w.Taken? then 5 else if w.Working? then 4 else if w.Sending? then 3 else 0
  }

  function WorkersWeight(ws: seq<Worker>): (n: nat) {
    if ws == [] then 0 else WorkersWeight(ws[..|ws| - 1]) + WorkerWeight(ws[|ws| - 1])
  }

  function BatchWeight(x: Batch): (n: nat) {
    2 * |x.res| + if x.phase.Collecting? then 1 else 0
  }

  function BatchesWeight(xs: seq<Batch>): (n: nat) {
    if xs == [] then 0 else BatchesWeight(xs[..|xs| - 1]) + BatchWeight(xs[|xs| - 1])
  }

  /** The steps left for everything that was accepted. */
  function Weight(st: Pool): (n: nat) {
    6 * |st.queue| + WorkersWeight(st.workers) + BatchesWeight(st.batches)
  }

  lemma {:induction false} WorkerChanges(ws: seq<Worker>, i: nat, w: Worker)
    requires i < |ws|
    ensures WorkersWeight(ws[i := w]) == WorkersWeight(ws) - WorkerWeight(ws[i]) + WorkerWeight(w)
  {
    var front := ws[..|ws| - 1];
    if i < |ws| - 1 {
      WorkerChanges(front, i, w);
      assert ws[i := w][..|ws| - 1] == front[i := w];
    } else {
      assert ws[i := w][..|ws| - 1] == front;
    }
  }

  lemma {:induction false} BatchChanges(xs: seq<Batch>, b: nat, x: Batch)
    requires b < |xs|
    ensures BatchesWeight(xs[b := x]) == BatchesWeight(xs) - BatchWeight(xs[b]) + BatchWeight(x)
  {
    var front := xs[..|xs| - 1];
    if b < |xs| - 1 {
      BatchChanges(front, b, x);
      assert xs[b := x][..|xs| - 1] == front[b := x];
    } else {
      assert xs[b := x][..|xs| - 1] == front;
    }
  }

  lemma Appended(ws: seq<Worker>, xs: seq<Batch>, x: Batch)
    ensures WorkersWeight(ws + [Waiting]) == WorkersWeight(ws)
    ensures BatchesWeight(xs + [x]) == BatchesWeight(xs) + BatchWeight(x)
  {
    assert (ws + [Waiting])[..|ws|] == ws;
    assert (xs + [x])[..|xs|] == xs;
  }

  /** The events that bring work in. */
  predicate Arrival(ev: Event) {
    ev.NewBatch? || ev.Send? || ev.SendTo?
  }

  /** One worker and one batch at most change in a step. */
  predicate Changes(st: Pool, st': Pool, i: nat, b: nat) {
    && (st'.workers == st.workers ||
        (i < |st.workers| == |st'.workers| && st'.workers == st.workers[i := st'.workers[i]]))
    && (st'.batches == st.batches ||
        (b < |st.batches| == |st'.batches| && st'.batches == st.batches[b := st'.batches[b]]))
  }

  function WorkerGain(st: Pool, st': Pool, i: nat): (d: int) {
    if i < |st.workers| == |st'.workers| then WorkerWeight(st'.workers[i]) - WorkerWeight(st.workers[i]) else 0
  }

  function BatchGain(st: Pool, st': Pool, b: nat): (d: int) {
    if b < |st.batches| == |st'.batches| then BatchWeight(st'.batches[b]) - BatchWeight(st.batches[b]) else 0
  }

  lemma WeightChanges(st: Pool, st': Pool, i: nat, b: nat)
    requires Changes(st, st', i, b)
    ensures Weight(st') == Weight(st) + 6 * (|st'.queue| - |st.queue|) + WorkerGain(st, st', i) + BatchGain(st, st', b)
  {
    hide WorkerWeight, BatchWeight, WorkersWeight, BatchesWeight;
    if i < |st.workers| == |st'.workers| {
      WorkerChanges(st.workers, i, st'.workers[i]);
      assert st'.workers == st.workers ==> WorkerWeight(st'.workers[i]) == WorkerWeight(st.workers[i]);
    }
    if b < |st.batches| == |st'.batches| {
      BatchChanges(st.batches, b, st'.batches[b]);
      assert st'.batches == st.batches ==> BatchWeight(st'.batches[b]) == BatchWeight(st.batches[b]);
    }
  }

  lemma WorkerEventWeight(cfg: Config, st: Pool, ev: Event, st': Pool)
    requires Next(cfg, st, ev) == Some(st') && !st'.panicked
    requires ev.RetireOne? || ev.Take? || ev.Leave? || ev.Begin? || ev.End? || ev.DropResult? || ev.Uncount?
    ensures Weight(st') + (if Progress(ev) then 1 else 0) <= Weight(st)
  {
    WeightChanges(st, st', ev.i, 0);
    hide Weight;
  }

  lemma SubmitEventWeight(cfg: Config, st: Pool, ev: Event, st': Pool)
    requires Next(cfg, st, ev) == Some(st') && !st'.panicked
    requires ev.CheckOpen? || ev.SubmitCancelled? || ev.EndCollect?
    ensures Weight(st') + (if Progress(ev) then 1 else 0) <= Weight(st)
  {
    WeightChanges(st, st', 0, ev.b);
    hide Weight;
  }

  lemma CollectWeight(cfg: Config, st: Pool, b: nat, st': Pool)
    requires DoCollect(st, b) == Some(st') && !st'.panicked
    ensures Weight(st') + 1 <= Weight(st)
  {
    WeightChanges(st, st', 0, b);
    hide Weight, WorkerWeight;
  }

  lemma SendResultWeight(cfg: Config, st: Pool, i: nat, st': Pool)
    requires DoSendResult(st, i) == Some(st') && !st'.panicked
    ensures Weight(st') + 1 <= Weight(st)
  {
    WeightChanges(st, st', i, st.workers[i].job.batch);
    hide Weight;
  }

  lemma ResultEventWeight(cfg: Config, st: Pool, ev: Event, st': Pool)
    requires Next(cfg, st, ev) == Some(st') && !st'.panicked && (ev.Collect? || ev.SendResult?)
    ensures Weight(st') + 1 <= Weight(st)
  {
    hide Weight, DoCollect, DoSendResult;
    if ev.Collect? {
      CollectWeight(cfg, st, ev.b, st');
    } else {
      SendResultWeight(cfg, st, ev.i, st');
    }
  }

  lemma ArrivalWeight(cfg: Config, st: Pool, ev: Event, st': Pool)
    requires Next(cfg, st, ev) == Some(st') && !st'.panicked && Arrival(ev)
    ensures Weight(st') <= Weight(st) + 7
  {
    if ev.NewBatch? {
      Appended(st.workers, st.batches, st'.batches[|st.batches|]);
    } else {
      WeightChanges(st, st', if ev.SendTo? then ev.i else 0, ev.b);
      hide Weight;
    }
  }

  lemma QuietStays(cfg: Config, st: Pool, ev: Event, st': Pool)
    requires Next(cfg, st, ev) == Some(st')
    requires ev.Spawn? || ev.Count? || ev.Tick? || ev.StopScaler? || ev.Cancel? ||
             ev.ShutdownLock? || ev.ShutdownClose? || ev.ShutdownMark?
    ensures st'.queue == st.queue && st'.batches == st.batches
    ensures st'.workers == st.workers || st'.workers == st.workers + [Waiting]
  {
    hide NoneHolding;
  }

  lemma QuietWeight(cfg: Config, st: Pool, ev: Event, st': Pool)
    requires Next(cfg, st, ev) == Some(st')
    requires ev.Spawn? || ev.Count? || ev.Tick? || ev.StopScaler? || ev.Cancel? ||
             ev.ShutdownLock? || ev.ShutdownClose? || ev.ShutdownMark?
    ensures Weight(st') == Weight(st)
  {
    hide Next, WorkersWeight, BatchesWeight;
    QuietStays(cfg, st, ev, st');
    Appended(st.workers, [], Batch(0, 0, Submitting, [], false, []));
  }

  /** Every progress event takes from what is left; an arrival adds at most seven. */
  lemma StepWeight(cfg: Config, st: Pool, ev: Event, st': Pool)
    requires Next(cfg, st, ev) == Some(st') && !st'.panicked
    ensures Weight(st') + (if Progress(ev) then 1 else 0) <= Weight(st) + (if Arrival(ev) then 7 else 0)
  {
    hide Next, Weight;
    if ev.RetireOne? || ev.Take? || ev.Leave? || ev.Begin? || ev.End? || ev.DropResult? || ev.Uncount? {
      WorkerEventWeight(cfg, st, ev, st');
    } else if ev.CheckOpen? || ev.SubmitCancelled? || ev.EndCollect? {
      SubmitEventWeight(cfg, st, ev, st');
    } else if ev.Collect? || ev.SendResult? {
      ResultEventWeight(cfg, st, ev, st');
    } else if Arrival(ev) {
      ArrivalWeight(cfg, st, ev, st');
    } else {
      QuietWeight(cfg, st, ev, st');
    }
  }

  function Progresses(evs: seq<Event>): (n: nat) {
    if evs == [] then 0 else Progresses(evs[..|evs| - 1]) + if Progress(evs[|evs| - 1]) then 1 else 0
  }

  function Arrivals(evs: seq<Event>): (n: nat) {
    if evs == [] then 0 else Arrivals(evs[..|evs| - 1]) + if Arrival(evs[|evs| - 1]) then 1 else 0
  }

  /** In every run, the steps taken on behalf of jobs, and those still to take, are at most seven for
      each batch and each submission: no job keeps the pool busy for ever. */
  lemma {:induction false} ProgressIsBounded(cfg: Config, evs: seq<Event>)
    requires Run(cfg, evs).Some?
    ensures Progresses(evs) + Weight(Run(cfg, evs).value) <= 7 * Arrivals(evs)
  {
    if evs != [] {
      hide Next, Weight;
      var front := evs[..|evs| - 1];
      ProgressIsBounded(cfg, front);
      RunsAreSafe(cfg, evs);
      StepWeight(cfg, Run(cfg, front).value, evs[|evs| - 1], Run(cfg, evs).value);
    }
  }

  // ---- Finishing a batch ----

  /** Worker i, one that lives, may have moved on; nobody else has. */
  predicate LiveMove(st: Pool, st': Pool, i: nat) {
    && i < |st.workers| == |st'.workers| && Alive(st.workers[i]) == 1 && Alive(st'.workers[i]) == 1
    && st'.workers == st.workers[i := st'.workers[i]] && st'.cancelled == st.cancelled
  }

  lemma SendResultMove(st: Pool, i: nat, st': Pool)
    requires DoSendResult(st, i) == Some(st')
    ensures LiveMove(st, st', i)
  {
    assert st'.workers == st.workers || st'.workers == st.workers[i := Waiting];
  }

  lemma CollectMove(st: Pool, b: nat, st': Pool)
    requires DoCollect(st, b) == Some(st')
    ensures st'.workers == st.workers && st'.cancelled == st.cancelled
  {
  }

  lemma ProgressParts(cfg: Config, st: Pool, ev: Event, st': Pool)
    requires Progress(ev) && Next(cfg, st, ev) == Some(st')
    ensures if ev.Collect? || ev.EndCollect? then st'.workers == st.workers && st'.cancelled == st.cancelled
            else LiveMove(st, st', ev.i)
  {
    hide DoCollect, DoSendResult;
    if ev.Collect? {
      CollectMove(st, ev.b, st');
    } else if ev.SendResult? {
      hide LiveMove;
      SendResultMove(st, ev.i, st');
    }
  }

  lemma ProgressKeepsLive(cfg: Config, st: Pool, ev: Event, st': Pool)
    requires Progress(ev) && Next(cfg, st, ev) == Some(st')
    ensures Live(st'.workers) == Live(st.workers) && st'.cancelled == st.cancelled
  {
    hide Live, Running, Next, Alive, Here;
    ProgressParts(cfg, st, ev, st');
    if st'.workers != st.workers {
      CountUpdate(st.workers, ev.i, st'.workers[ev.i]);
    }
  }

  /** Of a batch only the results move, unless its collector ends. */
  predicate SameBatch(st: Pool, st': Pool, b: nat) {
    && b < |st.batches| && b < |st'.batches| && st'.batches[b].n == st.batches[b].n
    && (st'.batches[b].phase == st.batches[b].phase || st'.batches[b].phase.Finished?)
  }

  lemma CollectKeepsBatch(st: Pool, c: nat, st': Pool, b: nat)
    requires DoCollect(st, c) == Some(st') && b < |st.batches|
    ensures SameBatch(st, st', b)
  {
  }

  lemma SendResultKeepsBatch(st: Pool, i: nat, st': Pool, b: nat)
    requires DoSendResult(st, i) == Some(st') && b < |st.batches|
    ensures SameBatch(st, st', b)
  {
  }

  lemma ProgressKeepsBatch(cfg: Config, st: Pool, ev: Event, st': Pool, b: nat)
    requires Progress(ev) && Next(cfg, st, ev) == Some(st') && b < |st.batches|
    ensures SameBatch(st, st', b)
  {
    hide DoCollect, DoSendResult;
    if ev.Collect? {
      hide SameBatch;
      CollectKeepsBatch(st, ev.b, st', b);
    } else if ev.SendResult? {
      hide SameBatch;
      SendResultKeepsBatch(st, ev.i, st', b);
    }
  }

  /** A submitted batch can always be brought to its end, by as many progress events as there is work
      left: none of them can fail, and no other event is needed. */
  lemma {:induction false} BatchCanFinish(cfg: Config, evs: seq<Event>, b: nat) returns (more: seq<Event>)
    requires Run(cfg, evs).Some?
    requires var st := Run(cfg, evs).value;
             && !st.cancelled && Live(st.workers) > 0
             && b < |st.batches| && st.batches[b].n > 0
             && (st.batches[b].phase.Collecting? || st.batches[b].phase.Finished?)
    ensures |more| <= Weight(Run(cfg, evs).value) && forall ev :: ev in more ==> Progress(ev)
    ensures Run(cfg, evs + more).Some?
    ensures b < |Run(cfg, evs + more).value.batches| && Run(cfg, evs + more).value.batches[b].phase.Finished?
    decreases Weight(Run(cfg, evs).value)
  {
    hide Next, Weight, Live, Progress;
    var st := Run(cfg, evs).value;
    if st.batches[b].phase.Finished? {
      more := [];
      assert evs + more == evs;
    } else {
      var ev := UnfinishedBatchMoves(cfg, evs, b);
      var next := evs + [ev];
      assert next[..|next| - 1] == evs;
      var st' := Run(cfg, next).value;
      ProgressKeepsLive(cfg, st, ev, st');
      ProgressKeepsBatch(cfg, st, ev, st', b);
      RunsAreSafe(cfg, next);
      StepWeight(cfg, st, ev, st');
      ProgressIsNoArrival(ev);
      var rest := BatchCanFinish(cfg, next, b);
      more := [ev] + rest;
      assert next + rest == evs + more;
    }
  }

  lemma ProgressIsNoArrival(ev: Event)
    requires Progress(ev)
    ensures !Arrival(ev)
  {
  }

  // ---- A second Shutdown ----

  /** Whoever shuts down a pool that is shut down already leaves with the write lock held. */
  lemma SecondShutdownSticks(cfg: Config, st: Pool, st': Pool)
    requires st.isClosed && Next(cfg, st, ShutdownLock) == Some(st')
    ensures st'.lock.Stuck?
  {
  }

  /** Nothing was accepted from any batch since. */
  predicate NothingSince(st: Pool, st': Pool) {
    && |st.batches| <= |st'.batches|
    && (forall b :: 0 <= b < |st.batches| ==> st'.batches[b].sent == st.batches[b].sent)
    && (forall b :: 0 <= b < |st.batches| && st.batches[b].phase.Submitting? ==> st'.batches[b].phase.Submitting?)
    && (forall b :: |st.batches| <= b < |st'.batches| ==> st'.batches[b].sent == 0)
  }

  lemma StuckEvents(cfg: Config, st: Pool, ev: Event, st': Pool)
    requires ChannelOk(st) && st.lock.Stuck? && Next(cfg, st, ev) == Some(st')
    ensures !ev.CheckOpen? && !ev.Send? && !ev.SendTo? && !ev.SubmitCancelled? && !LockEvent(ev)
  {
    hide DoSpawn, DoCount, DoTick, DoRetire, DoTake, DoLeave, DoSendResult, DoCollect;
  }

  lemma StuckCollect(st: Pool, b: nat, st': Pool)
    requires DoCollect(st, b) == Some(st')
    ensures st'.lock == st.lock && NothingSince(st, st')
  {
  }

  lemma StuckSendResult(st: Pool, i: nat, st': Pool)
    requires DoSendResult(st, i) == Some(st')
    ensures st'.lock == st.lock && NothingSince(st, st')
  {
  }

  lemma StuckStep(cfg: Config, st: Pool, ev: Event, st': Pool)
    requires ChannelOk(st) && st.lock.Stuck? && Next(cfg, st, ev) == Some(st')
    ensures st'.lock.Stuck? && NothingSince(st, st')
  {
    StuckEvents(cfg, st, ev, st');
    hide ChannelOk, NoneHolding, DoCollect, DoSendResult;
    if ev.Collect? {
      hide NothingSince;
      StuckCollect(st, ev.b, st');
    } else if ev.SendResult? {
      hide NothingSince;
      StuckSendResult(st, ev.i, st');
    } else if BatchEvent(ev) {
      hide DoSpawn, DoCount, DoTick, DoRetire, DoTake, DoLeave, DoSend, DoSendTo, DoCheckOpen;
    } else {
      hide Next;
      WorkerEventsKeepLock(cfg, st, ev, st');
    }
  }

  /** From then on, in every continuation, no Submit passes its check and no job is accepted: the
      callers wait for ever. */
  lemma {:induction false} SecondShutdownBlocksSubmits(cfg: Config, evs: seq<Event>, more: seq<Event>)
    requires Run(cfg, evs).Some? && Run(cfg, evs).value.lock.Stuck? && Run(cfg, evs + more).Some?
    ensures var st' := Run(cfg, evs + more).value;
            && st'.lock.Stuck? && NothingSince(Run(cfg, evs).value, st')
            && forall b: nat :: Next(cfg, st', CheckOpen(b)).None?
    decreases |more|
  {
    hide Next, NothingSince, ChannelOk, Conserved;
    var all := evs + more;
    if more == [] {
      assert all == evs;
      NothingAtFirst(Run(cfg, evs).value);
    } else {
      var front, last := more[..|more| - 1], more[|more| - 1];
      assert all[..|all| - 1] == evs + front && all[|all| - 1] == last;
      SecondShutdownBlocksSubmits(cfg, evs, front);
      RunsAreSafe(cfg, evs + front);
      StuckStep(cfg, Run(cfg, evs + front).value, last, Run(cfg, all).value);
      NothingSinceBoth(Run(cfg, evs).value, Run(cfg, evs + front).value, Run(cfg, all).value);
    }
    StuckChecks(cfg, Run(cfg, all).value);
  }

  lemma NothingAtFirst(st: Pool)
    ensures NothingSince(st, st)
  {
  }

  lemma NothingSinceBoth(a: Pool, b: Pool, c: Pool)
    requires NothingSince(a, b) && NothingSince(b, c)
    ensures NothingSince(a, c)
  {
  }

  lemma StuckChecks(cfg: Config, st: Pool)
    requires st.lock.Stuck?
    ensures forall b: nat :: Next(cfg, st, CheckOpen(b)).None?
  {
  }
}
