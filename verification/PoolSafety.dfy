/** What the worker pool and its collectors keep in every interleaving. */
module PoolSafety {
  import opened Results
  import opened WorkerPool

  // ---- Where the jobs of one batch are ----

  function One(j: Job, b: nat): (m: multiset<Job>) {
    if j.batch == b then multiset{j} else multiset{}
  }

  function Held(w: Worker, b: nat): (m: multiset<Job>) {
    if w.Taken? || w.Working? || w.Sending? then One(w.job, b) else multiset{}
  }

  function QueueOf(q: seq<Job>, b: nat): (m: multiset<Job>) {
    if q == [] then multiset{} else One(q[0], b) + QueueOf(q[1..], b)
  }

  function HeldOf(ws: seq<Worker>, b: nat): (m: multiset<Job>) {
    if ws == [] then multiset{} else HeldOf(ws[..|ws| - 1], b) + Held(ws[|ws| - 1], b)
  }

  /** The first k jobs of a batch. */
  function JobsOf(b: nat, k: nat): (m: multiset<Job>)
    ensures |m| == k
  {
    if k == 0 then multiset{} else JobsOf(b, k - 1) + multiset{Job(b, k - 1)}
  }

  lemma {:induction false} QueueAppend(q: seq<Job>, j: Job, b: nat)
    ensures QueueOf(q + [j], b) == QueueOf(q, b) + One(j, b)
  {
    if q == [] {
      assert [j][1..] == [];
      assert q + [j] == [j];
    } else {
      QueueAppend(q[1..], j, b);
      assert (q + [j])[1..] == q[1..] + [j];
    }
  }

  lemma AddLast(a: multiset<Job>, b: multiset<Job>, c: multiset<Job>, d: multiset<Job>, last: multiset<Job>)
    requires a + b == c + d
    ensures (a + last) + b == (c + last) + d
  {
    assert (a + last) + b == (a + b) + last;
    assert (c + last) + d == (c + d) + last;
  }

  lemma HeldSplit(ws: seq<Worker>, b: nat)
    requires ws != []
    ensures HeldOf(ws, b) == HeldOf(ws[..|ws| - 1], b) + Held(ws[|ws| - 1], b)
  {
    hide Held;
  }

  lemma {:induction false} HeldUpdate(ws: seq<Worker>, i: nat, w: Worker, b: nat)
    requires i < |ws|
    ensures HeldOf(ws[i := w], b) + Held(ws[i], b) == HeldOf(ws, b) + Held(w, b)
  {
    hide Held, HeldOf;
    var ws', front, last := ws[i := w], ws[..|ws| - 1], ws[|ws| - 1];
    var h, h' := HeldOf(front, b), HeldOf(ws'[..|ws| - 1], b);
    HeldSplit(ws, b);
    HeldSplit(ws', b);
    if i < |ws| - 1 {
      HeldUpdate(front, i, w, b);
      assert ws'[..|ws| - 1] == front[i := w];
      AddLast(h', Held(ws[i], b), h, Held(w, b), Held(last, b));
    } else {
      assert ws'[..|ws| - 1] == front;
      SwapLast(h, Held(last, b), Held(w, b));
    }
  }

  lemma SwapLast(a: multiset<Job>, b: multiset<Job>, c: multiset<Job>)
    ensures a + c + b == a + b + c
  {
  }

  lemma HeldAppend(ws: seq<Worker>, w: Worker, b: nat)
    ensures HeldOf(ws + [w], b) == HeldOf(ws, b) + Held(w, b)
  {
    assert (ws + [w])[..|ws|] == ws;
  }

  lemma {:induction false} HeldIn(ws: seq<Worker>, i: nat, b: nat)
    requires i < |ws|
    ensures Held(ws[i], b) <= HeldOf(ws, b)
  {
    if i < |ws| - 1 {
      HeldIn(ws[..|ws| - 1], i, b);
    }
  }

  /** Everything accepted from one batch and not lost to cancellation. */
  function Everywhere(st: Pool, b: nat): (m: multiset<Job>) {
    QueueOf(st.queue, b) + HeldOf(st.workers, b) +
    if b < |st.batches| then multiset(st.batches[b].res) + multiset(st.batches[b].out) else multiset{}
  }

  function Sent(st: Pool, b: nat): (n: nat) {
    if b < |st.batches| then st.batches[b].sent else 0
  }

  /** Each accepted job is in exactly one of queue, worker, results and passed-on results; only
      cancellation loses any. */
  predicate JobsOk(st: Pool, b: nat) {
    && Everywhere(st, b) <= JobsOf(b, Sent(st, b))
    && (!st.cancelled ==> Everywhere(st, b) == JobsOf(b, Sent(st, b)))
  }

  predicate BatchOk(x: Batch) {
    && x.sent <= x.n
    && (x.phase.Submitting? || x.phase.Holding? ==> x.sent < x.n)
    && (x.phase.Collecting? || x.phase.Finished? ==> x.sent == x.n)
    && (x.resClosed <==> x.n > 0 && |x.out| == x.n)
    && (x.phase.Finished? ==> x.resClosed)
    && (!x.phase.Collecting? && !x.phase.Finished? ==> x.out == [])
  }

  ghost predicate Conserved(st: Pool) {
    (forall b: nat :: JobsOk(st, b)) &&
    (forall b :: 0 <= b < |st.batches| ==> BatchOk(st.batches[b]))
  }

  lemma SizeMono(a: multiset<Job>, b: multiset<Job>)
    requires a <= b
    ensures |a| <= |b|
  {
    assert b == a + (b - a);
  }

  /** A worker that is about to send finds its channel open and with room: the channel holds as many
      results as there are jobs. */
  lemma ResultSendNeverBlocks(st: Pool, i: nat)
    requires Conserved(st) && i < |st.workers|
    requires st.workers[i].Taken? || st.workers[i].Working? || st.workers[i].Sending?
    ensures var b := st.workers[i].job.batch;
            && b < |st.batches| && !st.batches[b].resClosed && |st.batches[b].res| < st.batches[b].n
  {
    var b := st.workers[i].job.batch;
    assert JobsOk(st, b);
    HeldIn(st.workers, i, b);
    SizeMono(Everywhere(st, b), JobsOf(b, Sent(st, b)));
    SizeMono(Held(st.workers[i], b), HeldOf(st.workers, b));
    if b < |st.batches| {
      assert |multiset(st.batches[b].res)| == |st.batches[b].res|;
      assert |multiset(st.batches[b].out)| == |st.batches[b].out|;
      assert BatchOk(st.batches[b]);
    }
  }

  /** A collector with a result in hand finds room in `out`, and its channel still open. */
  lemma CollectorNeverBlocks(st: Pool, b: nat)
    requires Conserved(st) && b < |st.batches| && st.batches[b].res != []
    ensures |st.batches[b].out| < st.batches[b].n && !st.batches[b].resClosed
  {
    assert JobsOk(st, b) && BatchOk(st.batches[b]);
    SizeMono(Everywhere(st, b), JobsOf(b, Sent(st, b)));
    assert |multiset(st.batches[b].res)| == |st.batches[b].res|;
    assert |multiset(st.batches[b].out)| == |st.batches[b].out|;
  }

  // ---- Steps ----

  lemma Cancels(a: multiset<Job>, b: multiset<Job>, x: multiset<Job>)
    requires a + x == b + x
    ensures a == b
  {
    assert a == (a + x) - x;
    assert b == (b + x) - x;
  }

  /** The results of batch b, waiting and passed on. */
  function ResultsOf(st: Pool, b: nat): (m: multiset<Job>) {
    if b < |st.batches| then multiset(st.batches[b].res) + multiset(st.batches[b].out) else multiset{}
  }

  /** Jobs that only changed place are still conserved. */
  lemma Moved(st: Pool, st': Pool, b: nat)
    requires JobsOk(st, b) && Everywhere(st', b) == Everywhere(st, b)
    requires Sent(st', b) == Sent(st, b) && (st.cancelled ==> st'.cancelled)
    ensures JobsOk(st', b)
  {
    hide Everywhere, Sent;
  }

  /** A worker gave up what it held for what it holds now; the difference went to (or came from) the
      queue or the results. */
  lemma Traded(st: Pool, st': Pool, i: nat, b: nat)
    requires i < |st.workers| && |st'.workers| == |st.workers| && st'.workers == st.workers[i := st'.workers[i]]
    requires QueueOf(st.queue, b) + Held(st.workers[i], b) + ResultsOf(st, b) ==
             QueueOf(st'.queue, b) + Held(st'.workers[i], b) + ResultsOf(st', b)
    ensures Everywhere(st', b) == Everywhere(st, b)
  {
    HeldUpdate(st.workers, i, st'.workers[i], b);
    hide QueueOf, HeldOf, Held, ResultsOf;
    Trade(QueueOf(st.queue, b), Held(st.workers[i], b), ResultsOf(st, b), HeldOf(st.workers, b),
          QueueOf(st'.queue, b), Held(st'.workers[i], b), ResultsOf(st', b), HeldOf(st'.workers, b));
    EverywhereIs(st, b);
    EverywhereIs(st', b);
  }

  lemma EverywhereIs(st: Pool, b: nat)
    ensures Everywhere(st, b) == QueueOf(st.queue, b) + HeldOf(st.workers, b) + ResultsOf(st, b)
  {
    hide QueueOf, HeldOf;
  }

  lemma Trade(q: multiset<Job>, w: multiset<Job>, r: multiset<Job>, h: multiset<Job>,
              q': multiset<Job>, w': multiset<Job>, r': multiset<Job>, h': multiset<Job>)
    requires q + w + r == q' + w' + r' && h' + w == h + w'
    ensures q' + h' + r' == q + h + r
  {
    assert (q' + h' + r') + (w + w') == (q' + w' + r') + (h' + w);
    assert (q + h + r) + (w + w') == (q + w + r) + (h + w');
    Cancels(q' + h' + r', q + h + r, w + w');
  }

  /** A worker changes without letting go of a job. */
  lemma WorkerStep(st: Pool, i: nat, w: Worker, st': Pool)
    requires Conserved(st) && i < |st.workers|
    requires st' == SetWorker(st, i, w).(active := st'.active, total := st'.total, scaler := st'.scaler)
    requires forall b: nat :: Held(w, b) == Held(st.workers[i], b)
    ensures Conserved(st')
  {
    forall b: nat ensures JobsOk(st', b) {
      hide JobsOk, QueueOf, HeldOf, Held, Everywhere;
      assert JobsOk(st, b) && Held(w, b) == Held(st.workers[i], b);
      Traded(st, st', i, b);
      Moved(st, st', b);
    }
  }

  lemma LessHeld(q: multiset<Job>, h: multiset<Job>, h': multiset<Job>, r: multiset<Job>, w: multiset<Job>)
    requires h' + w == h
    ensures q + h' + r <= q + h + r
  {
    assert q + h + r == (q + h' + r) + w;
  }

  lemma Dropped(st: Pool, i: nat, b: nat)
    requires i < |st.workers| && st.cancelled && JobsOk(st, b)
    ensures JobsOk(SetWorker(st, i, Leaving), b)
  {
    var st' := SetWorker(st, i, Leaving);
    HeldUpdate(st.workers, i, Leaving, b);
    assert Held(Leaving, b) == multiset{};
    hide JobsOf, QueueOf, HeldOf, Held, ResultsOf;
    EverywhereIs(st, b);
    EverywhereIs(st', b);
    assert ResultsOf(st', b) == ResultsOf(st, b) by {
      SameResults(st, st', b);
    }
    hide Everywhere;
    LessHeld(QueueOf(st.queue, b), HeldOf(st.workers, b), HeldOf(st'.workers, b), ResultsOf(st, b),
             Held(st.workers[i], b));
  }

  lemma SameResults(st: Pool, st': Pool, b: nat)
    requires st'.batches == st.batches
    ensures ResultsOf(st', b) == ResultsOf(st, b)
  {
  }

  lemma DropStep(st: Pool, i: nat)
    requires Conserved(st) && i < |st.workers| && st.cancelled
    ensures Conserved(SetWorker(st, i, Leaving))
  {
    forall b: nat ensures JobsOk(SetWorker(st, i, Leaving), b) {
      hide JobsOk;
      assert JobsOk(st, b);
      Dropped(st, i, b);
    }
  }

  lemma SpawnStep(st: Pool, s: Scaler)
    requires Conserved(st)
    ensures Conserved(st.(workers := st.workers + [Waiting], scaler := s))
  {
    var st' := st.(workers := st.workers + [Waiting], scaler := s);
    forall b: nat ensures JobsOk(st', b) {
      hide JobsOk, QueueOf;
      assert JobsOk(st, b);
      HeldAppend(st.workers, Waiting, b);
      assert HeldOf(st'.workers, b) == HeldOf(st.workers, b);
      hide HeldOf;
      Moved(st, st', b);
    }
  }

  lemma Swap(a: multiset<Job>, b: multiset<Job>, r: multiset<Job>)
    ensures (a + b) + multiset{} + r == b + a + r
    ensures b + a + r == b + multiset{} + (r + a)
  {
  }

  lemma Took(st: Pool, i: nat, st': Pool, b: nat)
    requires DoTake(st, i) == Some(st') && JobsOk(st, b)
    ensures JobsOk(st', b)
  {
    hide JobsOk, HeldOf, Everywhere, ResultsOf, One;
    assert QueueOf(st.queue, b) == One(st.queue[0], b) + QueueOf(st'.queue, b);
    assert Held(st.workers[i], b) == multiset{} && Held(st'.workers[i], b) == One(st.queue[0], b);
    hide QueueOf, Held;
    SameResults(st, st', b);
    Swap(One(st.queue[0], b), QueueOf(st'.queue, b), ResultsOf(st, b));
    Traded(st, st', i, b);
    Moved(st, st', b);
  }

  lemma TakeStep(st: Pool, i: nat, st': Pool)
    requires Conserved(st) && DoTake(st, i) == Some(st')
    ensures Conserved(st')
  {
    hide JobsOk;
    forall b: nat ensures JobsOk(st', b) {
      assert JobsOk(st, b);
      Took(st, i, st', b);
    }
  }

  lemma NewBatchStep(st: Pool, n: nat)
    requires Conserved(st)
    ensures Conserved(Next(Config(0, 0, 0), st, NewBatch(n)).value)
  {
    var st' := Next(Config(0, 0, 0), st, NewBatch(n)).value;
    forall b: nat ensures JobsOk(st', b) {
      hide JobsOk, QueueOf, HeldOf;
      assert JobsOk(st, b);
      assert ResultsOf(st', b) == ResultsOf(st, b);
      EverywhereIs(st, b);
      EverywhereIs(st', b);
      hide Everywhere, ResultsOf;
      Moved(st, st', b);
    }
  }

  /** Only the phase of a batch changes. */
  lemma PhaseStep(st: Pool, b: nat, p: Phase)
    requires Conserved(st) && b < |st.batches| && BatchOk(st.batches[b].(phase := p))
    ensures Conserved(SetBatch(st, b, st.batches[b].(phase := p)))
  {
    var st' := SetBatch(st, b, st.batches[b].(phase := p));
    forall b': nat ensures JobsOk(st', b') {
      hide JobsOk, QueueOf, HeldOf;
      assert JobsOk(st, b');
      Moved(st, st', b');
    }
  }

  /** One job more accepted, and it is somewhere. */
  lemma Arrived(st: Pool, st': Pool, b: nat, b': nat)
    requires b < |st.batches| && JobsOk(st, b')
    requires Everywhere(st', b') == Everywhere(st, b') + One(Job(b, st.batches[b].sent), b')
    requires Sent(st', b') == Sent(st, b') + (if b' == b then 1 else 0) && st'.cancelled == st.cancelled
    ensures JobsOk(st', b')
  {
    hide Everywhere;
  }

  lemma Queued(cfg: Config, st: Pool, b: nat, st': Pool, b': nat)
    requires !st.closed && DoSend(cfg, st, b) == Some(st') && JobsOk(st, b')
    ensures JobsOk(st', b')
  {
    var j := Job(b, st.batches[b].sent);
    hide JobsOk, HeldOf, QueueOf, One, Everywhere, ResultsOf, Sent;
    QueueAppend(st.queue, j, b');
    AcceptedResults(st, st', b, b');
    EverywhereIs(st, b');
    EverywhereIs(st', b');
    OneMoreQueued(QueueOf(st.queue, b'), One(j, b'), HeldOf(st.workers, b'), ResultsOf(st, b'));
    Arrived(st, st', b, b');
  }

  lemma OneMoreQueued(q: multiset<Job>, x: multiset<Job>, h: multiset<Job>, r: multiset<Job>)
    ensures (q + x) + h + r == q + h + r + x
  {
  }

  lemma SendStep(cfg: Config, st: Pool, b: nat, st': Pool)
    requires Conserved(st) && !st.closed && DoSend(cfg, st, b) == Some(st')
    ensures Conserved(st')
  {
    hide JobsOk;
    assert BatchOk(st.batches[b]);
    forall b': nat ensures JobsOk(st', b') {
      assert JobsOk(st, b');
      Queued(cfg, st, b, st', b');
    }
  }

  lemma OneMore(q: multiset<Job>, h: multiset<Job>, r: multiset<Job>, h': multiset<Job>, x: multiset<Job>)
    requires h' + multiset{} == h + x
    ensures q + h' + r == q + h + r + x
  {
    assert h' == h + x;
  }

  lemma SentTo(st: Pool, b: nat, i: nat, st': Pool, b': nat)
    requires !st.closed && DoSendTo(st, b, i) == Some(st') && JobsOk(st, b')
    ensures JobsOk(st', b')
  {
    var j := Job(b, st.batches[b].sent);
    hide JobsOk, One;
    assert Held(st.workers[i], b') == multiset{} && Held(st'.workers[i], b') == One(j, b');
    assert st'.workers == st.workers[i := st'.workers[i]];
    HeldUpdate(st.workers, i, st'.workers[i], b');
    hide HeldOf, QueueOf, Held, Everywhere, ResultsOf, Sent;
    AcceptedResults(st, st', b, b');
    EverywhereIs(st, b');
    EverywhereIs(st', b');
    OneMore(QueueOf(st.queue, b'), HeldOf(st.workers, b'), ResultsOf(st, b'), HeldOf(st'.workers, b'), One(j, b'));
    Arrived(st, st', b, b');
  }

  lemma AcceptedResults(st: Pool, st': Pool, b: nat, b': nat)
    requires b < |st.batches| && st'.batches == st.batches[b := Accepted(st.batches[b])]
    ensures ResultsOf(st', b') == ResultsOf(st, b') && Sent(st', b') == Sent(st, b') + if b' == b then 1 else 0
  {
  }

  lemma SendToStep(st: Pool, b: nat, i: nat, st': Pool)
    requires Conserved(st) && !st.closed && DoSendTo(st, b, i) == Some(st')
    ensures Conserved(st')
  {
    hide JobsOk;
    assert BatchOk(st.batches[b]);
    forall b': nat ensures JobsOk(st', b') {
      assert JobsOk(st, b');
      SentTo(st, b, i, st', b');
    }
  }

  lemma SentParts(st: Pool, i: nat, st': Pool, b': nat)
    requires DoSendResult(st, i) == Some(st') && !st.batches[st.workers[i].job.batch].resClosed
    ensures st'.workers == st.workers[i := Waiting] && st'.queue == st.queue
    ensures ResultsOf(st', b') == ResultsOf(st, b') + One(st.workers[i].job, b')
    ensures Sent(st', b') == Sent(st, b') && st'.cancelled == st.cancelled
  {
    hide One, ResultsOf;
    ResultArrives(st, st', st.workers[i].job, b');
  }

  lemma Delivered(st: Pool, i: nat, st': Pool, b': nat)
    requires DoSendResult(st, i) == Some(st') && !st.batches[st.workers[i].job.batch].resClosed && JobsOk(st, b')
    ensures JobsOk(st', b')
  {
    var j := st.workers[i].job;
    SentParts(st, i, st', b');
    assert Held(st.workers[i], b') == One(j, b') && Held(Waiting, b') == multiset{};
    hide JobsOk, HeldOf, QueueOf, Everywhere, Sent, Held, One, ResultsOf, DoSendResult;
    Swap(One(j, b'), QueueOf(st.queue, b'), ResultsOf(st, b'));
    Traded(st, st', i, b');
    Moved(st, st', b');
  }

  lemma ResultArrives(st: Pool, st': Pool, j: Job, b': nat)
    requires j.batch < |st.batches|
    requires st'.batches == st.batches[j.batch := st.batches[j.batch].(res := st.batches[j.batch].res + [j])]
    ensures ResultsOf(st', b') == ResultsOf(st, b') + One(j, b')
  {
  }

  lemma SendResultStep(st: Pool, i: nat, st': Pool)
    requires Conserved(st) && DoSendResult(st, i) == Some(st')
    ensures Conserved(st') && st'.panicked == st.panicked
  {
    ResultSendNeverBlocks(st, i);
    hide JobsOk;
    assert BatchOk(st.batches[st.workers[i].job.batch]);
    forall b': nat ensures JobsOk(st', b') {
      assert JobsOk(st, b');
      Delivered(st, i, st', b');
    }
  }

  lemma PassedOn(st: Pool, b: nat, st': Pool, b': nat)
    requires DoCollect(st, b) == Some(st') && !st.batches[b].resClosed && JobsOk(st, b')
    ensures JobsOk(st', b')
  {
    hide JobsOk, HeldOf, QueueOf, Everywhere, ResultsOf;
    CollectedResults(st, st', b, b');
    EverywhereIs(st, b');
    EverywhereIs(st', b');
    Moved(st, st', b');
  }

  lemma FirstMoves(res: seq<Job>, out: seq<Job>)
    requires res != []
    ensures multiset(res[1..]) + multiset(out + [res[0]]) == multiset(res) + multiset(out)
  {
    assert res == [res[0]] + res[1..];
    assert multiset(res) == multiset{res[0]} + multiset(res[1..]);
    assert multiset(out + [res[0]]) == multiset(out) + multiset{res[0]};
  }

  lemma CollectedResults(st: Pool, st': Pool, b: nat, b': nat)
    requires DoCollect(st, b) == Some(st') && !st.batches[b].resClosed
    ensures ResultsOf(st', b') == ResultsOf(st, b')
  {
    var x := st.batches[b];
    FirstMoves(x.res, x.out);
    assert b' == b ==> st'.batches[b'].res == x.res[1..] && st'.batches[b'].out == x.out + [x.res[0]];
    hide DoCollect;
  }

  lemma CollectStep(st: Pool, b: nat, st': Pool)
    requires Conserved(st) && DoCollect(st, b) == Some(st')
    ensures Conserved(st') && st'.panicked == st.panicked
  {
    CollectorNeverBlocks(st, b);
    hide JobsOk;
    assert BatchOk(st.batches[b]);
    forall b': nat ensures JobsOk(st', b') {
      assert JobsOk(st, b');
      PassedOn(st, b, st', b');
    }
  }

  lemma QuietStep(st: Pool, st': Pool)
    requires Conserved(st) && st'.queue == st.queue && st'.workers == st.workers && st'.batches == st.batches
    requires st.cancelled ==> st'.cancelled
    ensures Conserved(st')
  {
    forall b: nat ensures JobsOk(st', b) {
      hide JobsOk, HeldOf, QueueOf;
      assert JobsOk(st, b);
      Moved(st, st', b);
    }
  }

  // ---- Every step ----

  lemma CheckOpenStep(st: Pool, b: nat, st': Pool)
    requires Conserved(st) && DoCheckOpen(st, b) == Some(st')
    ensures Conserved(st')
  {
    assert BatchOk(st.batches[b]);
    PhaseStep(st, b, st'.batches[b].phase);
  }

  lemma EndSubmitOrCollect(st: Pool, b: nat, p: Phase)
    requires Conserved(st) && b < |st.batches|
    requires || (p == Rejected && st.batches[b].phase.Holding?)
             || (p == Finished && st.batches[b].phase.Collecting? && st.batches[b].resClosed)
    ensures Conserved(SetBatch(st, b, st.batches[b].(phase := p)))
  {
    assert BatchOk(st.batches[b]);
    PhaseStep(st, b, p);
  }

  /** The scaler and the workers, when no job changes hands. */
  lemma WorkerEventStep(cfg: Config, st: Pool, ev: Event, st': Pool)
    requires Conserved(st) && Next(cfg, st, ev) == Some(st')
    requires ev.RetireOne? || ev.Leave? || ev.Begin? || ev.End? || ev.Uncount?
    ensures Conserved(st')
  {
    hide Conserved;
    WorkerStep(st, ev.i, st'.workers[ev.i], st');
  }

  lemma SendsAreOpen(cfg: Config, st: Pool, ev: Event, st': Pool)
    requires ChannelOk(st) && Next(cfg, st, ev) == Some(st')
    ensures ev.Send? || ev.SendTo? ==> !st.closed
  {
  }

  lemma SubmitEventStep(cfg: Config, st: Pool, ev: Event, st': Pool)
    requires Conserved(st) && Next(cfg, st, ev) == Some(st')
    requires ev.Send? || ev.SendTo? ==> !st.closed
    requires ev.NewBatch? || ev.CheckOpen? || ev.Send? || ev.SendTo? || ev.SubmitCancelled? || ev.EndCollect?
    ensures Conserved(st')
  {
    hide Conserved, DoCheckOpen, DoSend, DoSendTo;
    match ev
    case NewBatch(n) => NewBatchStep(st, n);
    case CheckOpen(b) => CheckOpenStep(st, b, st');
    case Send(b) => SendStep(cfg, st, b, st');
    case SendTo(b, i) => SendToStep(st, b, i, st');
    case SubmitCancelled(b) => EndSubmitOrCollect(st, b, Rejected);
    case EndCollect(b) => EndSubmitOrCollect(st, b, Finished);
  }

  lemma JobEventStep(cfg: Config, st: Pool, ev: Event, st': Pool)
    requires Conserved(st) && Next(cfg, st, ev) == Some(st')
    requires ev.Take? || ev.SendResult? || ev.DropResult? || ev.Collect?
    ensures Conserved(st')
  {
    hide Conserved, DoTake, DoSendResult, DoCollect;
    match ev
    case Take(i) => TakeStep(st, i, st');
    case SendResult(i) => SendResultStep(st, i, st');
    case DropResult(i) => DropStep(st, i);
    case Collect(b) => CollectStep(st, b, st');
  }

  /** The count, the ticker, Shutdown and cancellation touch no job. */
  lemma QuietEventStep(cfg: Config, st: Pool, ev: Event, st': Pool)
    requires Conserved(st) && Next(cfg, st, ev) == Some(st')
    requires ev.Spawn? || ev.Count? || ev.Tick? || ev.StopScaler? || ev.ShutdownLock? || ev.ShutdownClose? ||
             ev.ShutdownMark? || ev.Cancel?
    ensures Conserved(st')
  {
    hide Conserved;
    if ev.Spawn? && st'.workers != st.workers {
      SpawnStep(st, st'.scaler);
    } else {
      QuietStep(st, st');
    }
  }

  lemma ConservedStep(cfg: Config, st: Pool, ev: Event, st': Pool)
    requires ChannelOk(st) && Conserved(st) && Next(cfg, st, ev) == Some(st')
    ensures Conserved(st')
  {
    hide *;
    SendsAreOpen(cfg, st, ev, st');
    if ev.RetireOne? || ev.Leave? || ev.Begin? || ev.End? || ev.Uncount? {
      WorkerEventStep(cfg, st, ev, st');
    } else if ev.NewBatch? || ev.CheckOpen? || ev.Send? || ev.SendTo? || ev.SubmitCancelled? || ev.EndCollect? {
      SubmitEventStep(cfg, st, ev, st');
    } else if ev.Take? || ev.SendResult? || ev.DropResult? || ev.Collect? {
      JobEventStep(cfg, st, ev, st');
    } else {
      QuietEventStep(cfg, st, ev, st');
    }
  }

  /** Events on batches that take or release no lock. */
  lemma BatchKeepsChannel(st: Pool, st': Pool)
    requires ChannelOk(st)
    requires st'.closed == st.closed && st'.isClosed == st.isClosed && st'.lock == st.lock
    requires forall b :: 0 <= b < |st'.batches| && st'.batches[b].phase.Holding? ==>
               (b < |st.batches| && st.batches[b].phase.Holding?) || (st.lock.Free? && !st.isClosed)
    ensures ChannelOk(st')
  {
    if !NoneHolding(st'.batches) {
      var b :| 0 <= b < |st'.batches| && st'.batches[b].phase == Holding;
    }
  }

  predicate BatchEvent(ev: Event) {
    ev.NewBatch? || ev.CheckOpen? || ev.Send? || ev.SendTo? || ev.SubmitCancelled? || ev.Collect? ||
    ev.EndCollect? || ev.SendResult?
  }

  predicate LockEvent(ev: Event) {
    ev.ShutdownLock? || ev.ShutdownClose? || ev.ShutdownMark?
  }

  /** What a batch event does to the lock and to who holds it: a batch starts holding it only while
      it is free and the pool is open. */
  predicate KeepsLock(st: Pool, st': Pool) {
    && st'.closed == st.closed && st'.isClosed == st.isClosed && st'.lock == st.lock
    && forall b :: 0 <= b < |st'.batches| && st'.batches[b].phase.Holding? ==>
         (b < |st.batches| && st.batches[b].phase.Holding?) || (st.lock.Free? && !st.isClosed)
  }

  lemma SubmitKeepsLock(cfg: Config, st: Pool, ev: Event, st': Pool)
    requires Next(cfg, st, ev) == Some(st')
    requires ev.NewBatch? || ev.CheckOpen? || ev.Send? || ev.SendTo? || ev.SubmitCancelled?
    ensures KeepsLock(st, st')
  {
  }

  lemma CollectKeepsLock(cfg: Config, st: Pool, ev: Event, st': Pool)
    requires Next(cfg, st, ev) == Some(st')
    requires ev.Collect? || ev.EndCollect? || ev.SendResult?
    ensures KeepsLock(st, st')
  {
    hide NoneHolding, DoSpawn, DoCount, DoTick, DoRetire, DoTake, DoLeave, DoSend, DoSendTo, DoCheckOpen;
    if ev.SendResult? {
      hide DoCollect;
    }
  }

  predicate TimerEvent(ev: Event) {
    ev.Spawn? || ev.Count? || ev.Tick? || ev.StopScaler? || ev.Cancel?
  }

  lemma TimerEventsKeepLock(cfg: Config, st: Pool, ev: Event, st': Pool)
    requires Next(cfg, st, ev) == Some(st') && TimerEvent(ev)
    ensures st'.closed == st.closed && st'.isClosed == st.isClosed && st'.lock == st.lock && st'.batches == st.batches
  {
    hide NoneHolding, DoSend, DoSendTo, DoCheckOpen, DoCollect, DoSendResult, DoTake, DoLeave, DoRetire;
  }

  lemma WorkerEventsKeepLock(cfg: Config, st: Pool, ev: Event, st': Pool)
    requires Next(cfg, st, ev) == Some(st') && !BatchEvent(ev) && !LockEvent(ev)
    ensures st'.closed == st.closed && st'.isClosed == st.isClosed && st'.lock == st.lock && st'.batches == st.batches
  {
    hide NoneHolding, DoSend, DoSendTo, DoCheckOpen, DoCollect, DoSendResult, DoSpawn, DoCount, DoTick;
    if TimerEvent(ev) {
      hide Next;
      TimerEventsKeepLock(cfg, st, ev, st');
    }
  }

  lemma ChannelStep(cfg: Config, st: Pool, ev: Event, st': Pool)
    requires ChannelOk(st) && Next(cfg, st, ev) == Some(st')
    ensures ChannelOk(st')
  {
    if LockEvent(ev) {
      hide DoSend, DoSendTo;
    } else {
      hide ChannelOk, Next;
      if ev.Collect? || ev.EndCollect? || ev.SendResult? {
        CollectKeepsLock(cfg, st, ev, st');
      } else if BatchEvent(ev) {
        SubmitKeepsLock(cfg, st, ev, st');
      } else {
        WorkerEventsKeepLock(cfg, st, ev, st');
      }
      BatchKeepsChannel(st, st');
    }
  }

  /** No step sends on a closed channel or closes one twice. */
  lemma StepNeverPanics(cfg: Config, st: Pool, ev: Event, st': Pool)
    requires ChannelOk(st) && Conserved(st) && !st.panicked && Next(cfg, st, ev) == Some(st')
    ensures !st'.panicked
  {
    if ev.SendResult? {
      hide ChannelOk, Conserved;
      SendResultStep(st, ev.i, st');
    } else if ev.Collect? {
      hide ChannelOk, Conserved;
      CollectStep(st, ev.b, st');
    } else {
      hide Conserved, DoTake, DoSpawn;
    }
  }

  // ---- Every run ----

  ghost predicate Safe(st: Pool) {
    ChannelOk(st) && Conserved(st) && !st.panicked
  }

  lemma {:induction false} RunsAreSafe(cfg: Config, evs: seq<Event>)
    requires Run(cfg, evs).Some?
    ensures Safe(Run(cfg, evs).value)
  {
    if evs == [] {
      forall b: nat ensures JobsOk(NEW_POOL, b) {
        assert Everywhere(NEW_POOL, b) == multiset{} && Sent(NEW_POOL, b) == 0;
      }
    } else {
      hide ChannelOk, Conserved, Next;
      var st, st' := Run(cfg, evs[..|evs| - 1]).value, Run(cfg, evs).value;
      RunsAreSafe(cfg, evs[..|evs| - 1]);
      ChannelStep(cfg, st, evs[|evs| - 1], st');
      ConservedStep(cfg, st, evs[|evs| - 1], st');
      StepNeverPanics(cfg, st, evs[|evs| - 1], st');
    }
  }

  /** A collector that ends has passed on exactly one result for every one of its n >= 1 jobs, and
      nothing of its batch is left anywhere: nobody will send on its closed channel. */
  lemma CollectorPassesEveryJobOnce(cfg: Config, evs: seq<Event>, b: nat)
    requires Run(cfg, evs).Some? && b < |Run(cfg, evs).value.batches| && Run(cfg, evs).value.batches[b].phase.Finished?
    ensures var st := Run(cfg, evs).value;
            var x := st.batches[b];
            && x.n >= 1 && multiset(x.out) == JobsOf(b, x.n)
            && x.res == [] && QueueOf(st.queue, b) == multiset{} && HeldOf(st.workers, b) == multiset{}
  {
    RunsAreSafe(cfg, evs);
    var st := Run(cfg, evs).value;
    var x := st.batches[b];
    assert JobsOk(st, b) && BatchOk(x);
    hide QueueOf, HeldOf, Run;
    EverywhereIs(st, b);
    AllInOne(QueueOf(st.queue, b) + HeldOf(st.workers, b), multiset(x.res), multiset(x.out), JobsOf(b, x.n));
    assert |multiset(x.res)| == |x.res|;
  }

  lemma AllInOne(a: multiset<Job>, r: multiset<Job>, o: multiset<Job>, all: multiset<Job>)
    requires a + (r + o) <= all && |o| == |all|
    ensures o == all && a == multiset{} && r == multiset{}
  {
    var rest := all - (a + (r + o));
    assert all == a + r + o + rest;
    assert |all| == |a| + |r| + |o| + |rest|;
  }

  /** Without cancellation every accepted job is in exactly one place: the queue, a worker, the results
      channel or the results passed on. */
  lemma AcceptedJobsAreConserved(cfg: Config, evs: seq<Event>, b: nat)
    requires Run(cfg, evs).Some? && b < |Run(cfg, evs).value.batches| && !Run(cfg, evs).value.cancelled
    ensures var st := Run(cfg, evs).value;
            QueueOf(st.queue, b) + HeldOf(st.workers, b) + multiset(st.batches[b].res) + multiset(st.batches[b].out)
            == JobsOf(b, st.batches[b].sent)
  {
    RunsAreSafe(cfg, evs);
    assert JobsOk(Run(cfg, evs).value, b);
    hide Run, QueueOf, HeldOf;
  }

  /** A worker holding a job always finds its results channel open and with room. */
  lemma SendsNeverBlock(cfg: Config, evs: seq<Event>, i: nat)
    requires Run(cfg, evs).Some? && i < |Run(cfg, evs).value.workers| && Run(cfg, evs).value.workers[i].Sending?
    ensures Next(cfg, Run(cfg, evs).value, SendResult(i)).Some?
    ensures !Next(cfg, Run(cfg, evs).value, SendResult(i)).value.panicked
  {
    RunsAreSafe(cfg, evs);
    ResultSendNeverBlocks(Run(cfg, evs).value, i);
  }

  /** The collector of an empty batch never finishes: its channel is closed only after a result. */
  lemma EmptyBatchNeverFinishes(cfg: Config, evs: seq<Event>, b: nat)
    requires Run(cfg, evs).Some? && b < |Run(cfg, evs).value.batches| && Run(cfg, evs).value.batches[b].n == 0
    ensures var st := Run(cfg, evs).value;
            && !st.batches[b].phase.Finished?
            && (forall ev :: (ev == Collect(b) || ev == EndCollect(b)) ==> Next(cfg, st, ev).None?)
  {
    RunsAreSafe(cfg, evs);
    assert BatchOk(Run(cfg, evs).value.batches[b]);
  }

  // ---- Progress ----

  lemma {:induction false} SomeoneHolds(ws: seq<Worker>, b: nat) returns (i: nat)
    requires HeldOf(ws, b) != multiset{}
    ensures i < |ws| && Held(ws[i], b) != multiset{}
  {
    if Held(ws[|ws| - 1], b) != multiset{} {
      i := |ws| - 1;
    } else {
      i := SomeoneHolds(ws[..|ws| - 1], b);
    }
  }

  lemma {:induction false} SomeoneLives(ws: seq<Worker>) returns (i: nat)
    requires Live(ws) > 0
    ensures i < |ws| && !ws[i].Gone? && !ws[i].Leaving?
  {
    if !ws[|ws| - 1].Gone? && !ws[|ws| - 1].Leaving? {
      i := |ws| - 1;
    } else {
      i := SomeoneLives(ws[..|ws| - 1]);
    }
  }

  /** The events that bring jobs closer to their collector. */
  predicate Progress(ev: Event) {
    ev.Take? || ev.Begin? || ev.End? || ev.SendResult? || ev.Collect? || ev.EndCollect?
  }

  lemma HolderMoves(cfg: Config, st: Pool, i: nat) returns (ev: Event)
    requires Conserved(st) && i < |st.workers|
    requires st.workers[i].Taken? || st.workers[i].Working? || st.workers[i].Sending?
    ensures Progress(ev) && Next(cfg, st, ev).Some?
  {
    ResultSendNeverBlocks(st, i);
    hide Conserved;
    ev := if st.workers[i].Taken? then Begin(i) else if st.workers[i].Working? then End(i) else SendResult(i);
  }

  /** A non-empty batch whose jobs are all accepted is never stuck: until its collector has finished,
      some worker or the collector can move, as long as any worker lives and nothing is cancelled. */
  lemma UnfinishedBatchMoves(cfg: Config, evs: seq<Event>, b: nat) returns (ev: Event)
    requires Run(cfg, evs).Some?
    requires var st := Run(cfg, evs).value;
             && !st.cancelled && Live(st.workers) > 0
             && b < |st.batches| && st.batches[b].phase.Collecting? && st.batches[b].n > 0
    ensures Progress(ev) && Next(cfg, Run(cfg, evs).value, ev).Some?
  {
    hide Run, ChannelOk, Conserved, Next, Live;
    RunsAreSafe(cfg, evs);
    ev := BatchMoves(cfg, Run(cfg, evs).value, b);
  }

  lemma CollectorMoves(cfg: Config, st: Pool, b: nat) returns (ev: Event)
    requires Conserved(st) && b < |st.batches| && st.batches[b].phase.Collecting?
    requires st.batches[b].res != [] || st.batches[b].resClosed
    ensures Progress(ev) && Next(cfg, st, ev).Some?
  {
    if st.batches[b].res != [] {
      CollectorNeverBlocks(st, b);
      hide Conserved;
      ev := Collect(b);
      assert DoCollect(st, b).Some?;
    } else {
      ev := EndCollect(b);
    }
  }

  lemma BatchMoves(cfg: Config, st: Pool, b: nat) returns (ev: Event)
    requires Conserved(st) && !st.cancelled && Live(st.workers) > 0
    requires b < |st.batches| && st.batches[b].phase.Collecting? && st.batches[b].n > 0
    ensures Progress(ev) && Next(cfg, st, ev).Some?
  {
    assert BatchOk(st.batches[b]) && JobsOk(st, b);
    hide Conserved, JobsOk, Live, Next, HeldOf, BatchOk;
    if st.batches[b].res != [] || st.batches[b].resClosed {
      ev := CollectorMoves(cfg, st, b);
    } else {
      SomewhereElse(st, b);
      ev := JobMoves(cfg, st, b);
    }
  }

  lemma JobMoves(cfg: Config, st: Pool, b: nat) returns (ev: Event)
    requires Conserved(st) && Live(st.workers) > 0
    requires HeldOf(st.workers, b) != multiset{} || st.queue != []
    ensures Progress(ev) && Next(cfg, st, ev).Some?
  {
    hide Conserved, HeldOf, Live, DoSendResult;
    if HeldOf(st.workers, b) != multiset{} {
      var i := SomeoneHolds(st.workers, b);
      ev := HolderMoves(cfg, st, i);
    } else {
      var i := SomeoneLives(st.workers);
      if st.workers[i].Waiting? {
        ev := Take(i);
      } else {
        ev := HolderMoves(cfg, st, i);
      }
    }
  }

  /** With no result waiting and some still missing, a job is held or queued. */
  lemma SomewhereElse(st: Pool, b: nat)
    requires JobsOk(st, b) && !st.cancelled && b < |st.batches| && st.batches[b].res == []
    requires |st.batches[b].out| != st.batches[b].sent
    ensures HeldOf(st.workers, b) != multiset{} || st.queue != []
  {
    var out := multiset(st.batches[b].out);
    assert HeldOf(st.workers, b) == multiset{} && st.queue == [] ==> Everywhere(st, b) == out;
    assert |out| == |st.batches[b].out|;
  }
}
