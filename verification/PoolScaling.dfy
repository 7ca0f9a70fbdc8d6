/** How many workers run: never more than the maximum and, as long as retired workers leave the count
    before the next tick, never fewer than the minimum. */
module PoolScaling {
  import opened Results
  import opened WorkerPool

  lemma CountStep(cfg: Config, st: Pool, ev: Event, st': Pool)
    requires cfg.minWorkers <= cfg.maxWorkers && CountOk(cfg, st) && Next(cfg, st, ev) == Some(st')
    ensures CountOk(cfg, st')
  {
    hide Running, Live, Next, CountOk, FloorOk;
    if ScalerEvent(ev) {
      CountAppend(st.workers, Waiting);
      ScalerStep(cfg, st, ev, st');
    } else {
      OtherStep(cfg, st, ev, st');
    }
  }

  lemma ScalerStep(cfg: Config, st: Pool, ev: Event, st': Pool)
    requires cfg.minWorkers <= cfg.maxWorkers && CountOk(cfg, st) && Next(cfg, st, ev) == Some(st')
    requires ScalerEvent(ev)
    requires Running(st.workers + [Waiting]) == Running(st.workers) + 1
    ensures CountOk(cfg, st')
  {
    hide Running, Live;
  }

  predicate ScalerEvent(ev: Event) {
    ev.Spawn? || ev.Count? || ev.Tick? || ev.StopScaler?
  }

  /** The worker an event is about, if it is about one. */
  function Mover(ev: Event): (i: Option<nat>) {
    match ev
    case SendTo(_, i) => Some(i)
    case RetireOne(i) => Some(i)
    case Take(i) => Some(i)
    case Leave(i) => Some(i)
    case Begin(i) => Some(i)
    case End(i) => Some(i)
    case SendResult(i) => Some(i)
    case DropResult(i) => Some(i)
    case Uncount(i) => Some(i)
    case _ => None
  }

  /** Worker i became w: the count follows only when it is gone, and it stops taking jobs only when
      retired, or when the pool is cancelled, or closed with no job left. */
  predicate Moves(st: Pool, ev: Event, st': Pool, i: nat) {
    && i < |st.workers| == |st'.workers| && st'.workers == st.workers[i := st'.workers[i]]
    && st'.total == st.total - Here(st.workers[i]) + Here(st'.workers[i])
    && Here(st'.workers[i]) <= Here(st.workers[i]) && Alive(st'.workers[i]) <= Alive(st.workers[i])
    && (Alive(st'.workers[i]) < Alive(st.workers[i]) ==>
         ev.RetireOne? || st.cancelled || (st.closed && st'.queue == []))
    && st'.closed == st.closed && st'.cancelled == st.cancelled && (st.queue == [] ==> st'.queue == [])
    && (if ev.RetireOne? then st.scaler.Retire? && st'.scaler.Idle? else st'.scaler == st.scaler)
  }

  predicate Stays(st: Pool, st': Pool) {
    && st'.workers == st.workers && st'.total == st.total && st'.scaler == st.scaler
    && (st.closed ==> st'.closed && (st.queue == [] ==> st'.queue == [])) && (st.cancelled ==> st'.cancelled)
  }

  lemma WorkerMoves(cfg: Config, st: Pool, ev: Event, st': Pool)
    requires Next(cfg, st, ev) == Some(st') && Mover(ev).Some?
    ensures Stays(st, st') || Moves(st, ev, st', Mover(ev).value)
  {
    hide Running, Live;
  }

  lemma OthersStay(cfg: Config, st: Pool, ev: Event, st': Pool)
    requires Next(cfg, st, ev) == Some(st') && Mover(ev).None? && !ScalerEvent(ev)
    ensures Stays(st, st')
  {
    hide Running, Live;
  }

  lemma MoveKeepsCount(cfg: Config, st: Pool, ev: Event, st': Pool, i: nat)
    requires CountOk(cfg, st) && Moves(st, ev, st', i)
    ensures CountOk(cfg, st')
    ensures FloorOk(cfg, st) ==> FloorOk(cfg, st')
  {
    hide Running, Live;
    CountUpdate(st.workers, i, st'.workers[i]);
  }

  lemma StayKeepsCount(cfg: Config, st: Pool, st': Pool)
    requires CountOk(cfg, st) && Stays(st, st')
    ensures CountOk(cfg, st')
    ensures FloorOk(cfg, st) ==> FloorOk(cfg, st')
  {
    hide Running, Live;
  }

  lemma OtherStep(cfg: Config, st: Pool, ev: Event, st': Pool)
    requires CountOk(cfg, st) && Next(cfg, st, ev) == Some(st') && !ScalerEvent(ev)
    ensures CountOk(cfg, st')
    ensures FloorOk(cfg, st) ==> FloorOk(cfg, st')
  {
    hide CountOk, FloorOk, Next, Moves, Stays;
    if Mover(ev).Some? {
      WorkerMoves(cfg, st, ev, st');
      if Stays(st, st') {
        StayKeepsCount(cfg, st, st');
      } else {
        MoveKeepsCount(cfg, st, ev, st', Mover(ev).value);
      }
    } else {
      OthersStay(cfg, st, ev, st');
      StayKeepsCount(cfg, st, st');
    }
  }

  lemma {:induction false} RunsCount(cfg: Config, evs: seq<Event>)
    requires cfg.minWorkers <= cfg.maxWorkers && Run(cfg, evs).Some?
    ensures CountOk(cfg, Run(cfg, evs).value)
  {
    if evs != [] {
      hide CountOk, Next;
      RunsCount(cfg, evs[..|evs| - 1]);
      CountStep(cfg, Run(cfg, evs[..|evs| - 1]).value, evs[|evs| - 1], Run(cfg, evs).value);
    }
  }

  /** In every interleaving, running workers never exceed the maximum. */
  lemma NeverAboveMaximum(cfg: Config, evs: seq<Event>)
    requires cfg.minWorkers <= cfg.maxWorkers && Run(cfg, evs).Some?
    ensures Running(Run(cfg, evs).value.workers) <= cfg.maxWorkers
  {
    RunsCount(cfg, evs);
  }

  // ---- The floor ----

  /** Open, or closed with jobs left to take. */
  predicate NeedsWorkers(st: Pool) {
    !st.cancelled && (!st.closed || st.queue != [])
  }

  predicate FloorOk(cfg: Config, st: Pool) {
    NeedsWorkers(st) ==>
      match st.scaler
      case Boot(i) => Live(st.workers) >= i - 1
      case BootCount(i) => Live(st.workers) >= i
      case Retire => Live(st.workers) > cfg.minWorkers
      case _ => Live(st.workers) >= cfg.minWorkers
  }

  predicate NoneLeaving(ws: seq<Worker>) {
    forall i :: 0 <= i < |ws| ==> !ws[i].Leaving?
  }

  lemma FloorStep(cfg: Config, st: Pool, ev: Event, st': Pool)
    requires CountOk(cfg, st) && FloorOk(cfg, st) && Next(cfg, st, ev) == Some(st')
    requires ev.Tick? ==> NoneLeaving(st.workers)
    ensures FloorOk(cfg, st')
  {
    hide Running, Live, Next, CountOk, FloorOk;
    if ScalerEvent(ev) {
      CountAppend(st.workers, Waiting);
      LiveAtMostRunning(st.workers);
      ScalerFloor(cfg, st, ev, st');
    } else {
      OtherStep(cfg, st, ev, st');
    }
  }

  lemma ScalerFloor(cfg: Config, st: Pool, ev: Event, st': Pool)
    requires CountOk(cfg, st) && FloorOk(cfg, st) && Next(cfg, st, ev) == Some(st')
    requires ScalerEvent(ev)
    requires Live(st.workers + [Waiting]) == Live(st.workers) + 1
    requires ev.Tick? ==> Live(st.workers) == Running(st.workers)
    ensures FloorOk(cfg, st')
  {
    hide Running, Live;
  }

  /** Every tick finds the retired workers already off the count. */
  predicate Prompt(cfg: Config, evs: seq<Event>)
    requires Run(cfg, evs).Some?
  {
    evs == [] ||
    (Prompt(cfg, evs[..|evs| - 1]) &&
     (evs[|evs| - 1].Tick? ==> NoneLeaving(Run(cfg, evs[..|evs| - 1]).value.workers)))
  }

  lemma {:induction false} RunsKeepFloor(cfg: Config, evs: seq<Event>)
    requires cfg.minWorkers <= cfg.maxWorkers && Run(cfg, evs).Some? && Prompt(cfg, evs)
    ensures FloorOk(cfg, Run(cfg, evs).value)
  {
    if evs != [] {
      hide FloorOk, CountOk, Next, NoneLeaving;
      var front := evs[..|evs| - 1];
      RunsCount(cfg, front);
      RunsKeepFloor(cfg, front);
      FloorStep(cfg, Run(cfg, front).value, evs[|evs| - 1], Run(cfg, evs).value);
    }
  }

  /** Before cancellation, and until a shutdown has emptied the queue, the workers that take jobs never
      fall below the minimum, once the constructor has returned. */
  lemma NeverBelowMinimum(cfg: Config, evs: seq<Event>)
    requires cfg.minWorkers <= cfg.maxWorkers && Run(cfg, evs).Some? && Prompt(cfg, evs)
    requires var st := Run(cfg, evs).value; NeedsWorkers(st) && !st.scaler.Boot? && !st.scaler.BootCount?
    ensures Live(Run(cfg, evs).value.workers) >= cfg.minWorkers
  {
    RunsKeepFloor(cfg, evs);
  }

  /** Exactly when a tick that decides to retire a worker keeps the floor: the workers that have left
      without leaving the count must be fewer than the count's surplus over the minimum. */
  lemma RetirementKeepsFloorIff(cfg: Config, st: Pool, i: nat, st1: Pool, st2: Pool)
    requires CountOk(cfg, st) && st.scaler.Idle?
    requires Next(cfg, st, Tick) == Some(st1) && Next(cfg, st1, RetireOne(i)) == Some(st2)
    ensures Live(st2.workers) >= cfg.minWorkers <==> Running(st.workers) - Live(st.workers) < st.total - cfg.minWorkers
  {
    hide Running, Live;
    CountUpdate(st.workers, i, Leaving);
  }
}
