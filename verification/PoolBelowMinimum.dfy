/** A run that falls below the minimum: a tick comes before the worker retired by the last one has left
    the count. */
module PoolBelowMinimum {
  import opened Results
  import opened WorkerPool

  const ONE_TO_TWO: Config := Config(1, 2, 3)

  /** The steps from event k on. */
  function Steps(st: Pool, evs: seq<Event>, k: nat): (r: Option<Pool>)
    decreases |evs| - k
  {
    if k >= |evs| then Some(st)
    else
      match Next(ONE_TO_TWO, st, evs[k])
      case None => None
      case Some(st') => Steps(st', evs, k + 1)
  }

  lemma Then(st: Pool, evs: seq<Event>, k: nat) returns (st': Pool)
    requires k < |evs| && Next(ONE_TO_TWO, st, evs[k]).Some?
    ensures st' == Next(ONE_TO_TWO, st, evs[k]).value && Steps(st, evs, k) == Steps(st', evs, k + 1)
    ensures k + 1 == |evs| ==> Steps(st, evs, k) == Some(st')
  {
    st' := Next(ONE_TO_TWO, st, evs[k]).value;
  }

  lemma {:induction false} StepsAreRun(before: seq<Event>, st: Pool, evs: seq<Event>, k: nat)
    requires k <= |evs| && Run(ONE_TO_TWO, before + evs[..k]) == Some(st) && Steps(st, evs, k).Some?
    ensures Run(ONE_TO_TWO, before + evs) == Steps(st, evs, k)
    decreases |evs| - k
  {
    hide Next;
    if k == |evs| {
      assert before + evs[..k] == before + evs;
    } else {
      var next := before + evs[..k + 1];
      assert next[..|next| - 1] == before + evs[..k] && next[|next| - 1] == evs[k];
      StepsAreRun(before, Next(ONE_TO_TWO, st, evs[k]).value, evs, k + 1);
    }
  }

  function J(i: nat): (j: Job) {
    Job(0, i)
  }

  const BOOTED: Pool := NEW_POOL.(workers := [Waiting], total := 1, scaler := Idle)
  const SENT: Pool := BOOTED.(queue := [J(0)], batches := [Batch(3, 1, Submitting, [], false, [])])
  const BUSY: Pool :=
    BOOTED.(workers := [Working(J(0))], active := 1, batches := [Batch(3, 1, Submitting, [], false, [])])
  const LOADED: Pool := BUSY.(queue := [J(1), J(2)], batches := [Batch(3, 3, Collecting, [], false, [])])
  const GROWN: Pool := LOADED.(workers := [Working(J(0)), Waiting], total := 2)
  const ALMOST: Pool := GROWN.(queue := [J(2)], batches := [Batch(3, 3, Collecting, [J(1)], false, [])])
  const LAST: Pool := GROWN.(queue := [], batches := [Batch(3, 3, Collecting, [J(1), J(2)], false, [])])
  const IDLING: Pool :=
    LAST.(workers := [Waiting, Waiting], active := 0,
          batches := [Batch(3, 3, Collecting, [J(1), J(2), J(0)], false, [])])
  const EMPTIED: Pool := IDLING.(workers := [Leaving, Leaving])

  const BOOT: seq<Event> := [Spawn, Count, Spawn]
  const FIRST_JOB: seq<Event> := [NewBatch(3), CheckOpen(0), Send(0)]
  const FIRST_WORK: seq<Event> := [Take(0), Begin(0)]
  const TWO_MORE: seq<Event> := [CheckOpen(0), Send(0), CheckOpen(0), Send(0)]
  const GROW: seq<Event> := [Tick, Spawn, Count]
  const ONE_JOB: seq<Event> := [Take(1), Begin(1), End(1), SendResult(1)]
  const FINISH: seq<Event> := [End(0), SendResult(0)]
  const RETIRE_TWO: seq<Event> := [Tick, RetireOne(0), Tick, RetireOne(1)]

  const TOO_FEW: seq<Event> := BOOT + FIRST_JOB + FIRST_WORK + TWO_MORE + GROW + ONE_JOB + ONE_JOB + FINISH + RETIRE_TWO

  lemma Booting()
    ensures Steps(NEW_POOL, BOOT, 0) == Some(BOOTED)
  {
    hide Steps;
    var s1 := Then(NEW_POOL, BOOT, 0);
    var s2 := Then(s1, BOOT, 1);
    var s3 := Then(s2, BOOT, 2);
    assert s3.workers == BOOTED.workers && s3.queue == BOOTED.queue && s3.batches == BOOTED.batches;
  }

  lemma FirstJob()
    ensures Steps(BOOTED, FIRST_JOB, 0) == Some(SENT)
  {
    hide Steps;
    var s1 := Then(BOOTED, FIRST_JOB, 0);
    var s2 := Then(s1, FIRST_JOB, 1);
    var s3 := Then(s2, FIRST_JOB, 2);
    assert s3.workers == SENT.workers && s3.queue == SENT.queue && s3.batches == SENT.batches;
  }

  lemma FirstWork()
    ensures Steps(SENT, FIRST_WORK, 0) == Some(BUSY)
  {
    hide Steps;
    var s1 := Then(SENT, FIRST_WORK, 0);
    var s2 := Then(s1, FIRST_WORK, 1);
    assert s2.workers == BUSY.workers && s2.queue == BUSY.queue && s2.batches == BUSY.batches;
  }

  lemma TwoMore()
    ensures Steps(BUSY, TWO_MORE, 0) == Some(LOADED)
  {
    hide Steps;
    var s1 := Then(BUSY, TWO_MORE, 0);
    var s2 := Then(s1, TWO_MORE, 1);
    var s3 := Then(s2, TWO_MORE, 2);
    var s4 := Then(s3, TWO_MORE, 3);
    assert s4.workers == LOADED.workers && s4.queue == LOADED.queue && s4.batches == LOADED.batches;
  }

  lemma Growing()
    ensures Steps(LOADED, GROW, 0) == Some(GROWN)
  {
    hide Steps;
    var s1 := Then(LOADED, GROW, 0);
    var s2 := Then(s1, GROW, 1);
    var s3 := Then(s2, GROW, 2);
    assert s3.workers == GROWN.workers && s3.queue == GROWN.queue && s3.batches == GROWN.batches;
  }

  lemma SecondJob()
    ensures Steps(GROWN, ONE_JOB, 0) == Some(ALMOST)
  {
    hide Steps;
    var s1 := Then(GROWN, ONE_JOB, 0);
    var s2 := Then(s1, ONE_JOB, 1);
    var s3 := Then(s2, ONE_JOB, 2);
    var s4 := Then(s3, ONE_JOB, 3);
    assert s4.batches[0].res == ALMOST.batches[0].res;
    assert s4.workers == ALMOST.workers && s4.queue == ALMOST.queue && s4.batches == ALMOST.batches;
  }

  lemma ThirdJob()
    ensures Steps(ALMOST, ONE_JOB, 0) == Some(LAST)
  {
    hide Steps;
    var s1 := Then(ALMOST, ONE_JOB, 0);
    var s2 := Then(s1, ONE_JOB, 1);
    var s3 := Then(s2, ONE_JOB, 2);
    var s4 := Then(s3, ONE_JOB, 3);
    assert s4.batches[0].res == LAST.batches[0].res;
    assert s4.workers == LAST.workers && s4.queue == LAST.queue && s4.batches == LAST.batches;
  }

  lemma Finishing()
    ensures Steps(LAST, FINISH, 0) == Some(IDLING)
  {
    hide Steps;
    var s1 := Then(LAST, FINISH, 0);
    var s2 := Then(s1, FINISH, 1);
    assert s2.batches[0].res == IDLING.batches[0].res;
    assert s2.workers == IDLING.workers && s2.queue == IDLING.queue && s2.batches == IDLING.batches;
  }

  /** The second tick still counts two workers. */
  lemma Retiring()
    ensures Steps(IDLING, RETIRE_TWO, 0) == Some(EMPTIED)
  {
    hide Steps;
    var s1 := Then(IDLING, RETIRE_TWO, 0);
    var s2 := Then(s1, RETIRE_TWO, 1);
    var s3 := Then(s2, RETIRE_TWO, 2);
    var s4 := Then(s3, RETIRE_TWO, 3);
    assert s4.workers == EMPTIED.workers && s4.queue == EMPTIED.queue && s4.batches == EMPTIED.batches;
  }

  lemma Phase(before: seq<Event>, st: Pool, evs: seq<Event>, st': Pool)
    requires Run(ONE_TO_TWO, before) == Some(st) && Steps(st, evs, 0) == Some(st')
    ensures Run(ONE_TO_TWO, before + evs) == Some(st')
  {
    hide Steps, Run;
    assert before + evs[..0] == before;
    StepsAreRun(before, st, evs, 0);
  }

  /** The run leaves no worker to take jobs, with a minimum of one and neither shutdown nor
      cancellation. */
  lemma FloorCanBreak()
    ensures Run(ONE_TO_TWO, TOO_FEW) == Some(EMPTIED)
    ensures Live(EMPTIED.workers) == 0 < ONE_TO_TWO.minWorkers && !EMPTIED.closed && !EMPTIED.cancelled
  {
    hide Steps, Next;
    Booting();
    FirstJob();
    FirstWork();
    TwoMore();
    Growing();
    SecondJob();
    ThirdJob();
    Finishing();
    Retiring();
    assert [] + BOOT == BOOT;
    var a, b := BOOT, BOOT + FIRST_JOB;
    var b2 := b + FIRST_WORK;
    var c := b2 + TWO_MORE;
    var d := c + GROW;
    var e := d + ONE_JOB;
    var f := e + ONE_JOB;
    Phase([], NEW_POOL, BOOT, BOOTED);
    hide Run, BOOT, FIRST_JOB, FIRST_WORK, TWO_MORE, GROW, ONE_JOB, FINISH, RETIRE_TWO;
    Phase(a, BOOTED, FIRST_JOB, SENT);
    Phase(b, SENT, FIRST_WORK, BUSY);
    Phase(b2, BUSY, TWO_MORE, LOADED);
    Phase(c, LOADED, GROW, GROWN);
    Phase(d, GROWN, ONE_JOB, ALMOST);
    Phase(e, ALMOST, ONE_JOB, LAST);
    Phase(f, LAST, FINISH, IDLING);
    Phase(f + FINISH, IDLING, RETIRE_TWO, EMPTIED);
  }
}
