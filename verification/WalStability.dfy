/** Crash after crash: what a log that replay has appended to means, and when recovering it again and
    again gives the same map. */
module WalStability {
  import opened Results
  import opened Bytes
  import opened Frames
  import opened History
  import opened WalCodec
  import opened Layout
  import opened WalLog
  import opened WalScan
  import opened SnapshotFile
  import opened WalRoom
  import opened WalProtocol
  import opened WalSafety
  import opened WalTheorems
  import opened WalRecovery

  // ---- The meaning of the log during recovery ----

  predicate RecoveryEvent(ev: Event) {
    ev.Restart? || ev.ReplayNext? || ev.ReplayDelete? || ev.ReplayDeleteDone? || ev.EndReplay? || ev.FlushTimer? ||
    ev.SpillBuffer? || ev.InterruptReplay? || ev.ReplayRefused?
  }

  /** Wherever the log is cut from here on, it folds to m; and the store shows m once it serves. */
  ghost predicate Steady(cfg: Config, c: Codec, st: Sys, m: Store)
    requires LogOk(cfg, c, st)
  {
    var ops := Logged(cfg, c, st);
    && (forall p :: |Durable(cfg, c, st)| <= p <= |ops| ==> MapAfter(ops[..p]) == m)
    && (st.mode.Serving? ==> st.files == m && st.pending == map[])
  }

  lemma SteadyAll(cfg: Config, c: Codec, st: Sys, m: Store)
    requires LogOk(cfg, c, st) && Steady(cfg, c, st, m)
    ensures MapAfter(Logged(cfg, c, st)) == m && MapAfter(Durable(cfg, c, st)) == m
  {
    hide Shape, Survived, Flat, MapAfter;
    var ops := Logged(cfg, c, st);
    assert ops[..|ops|] == ops && ops[..|Durable(cfg, c, st)|] == Durable(cfg, c, st);
  }

  lemma RestartSteady(cfg: Config, c: Codec, st: Sys, st': Sys)
    requires Proper(cfg, c) && Inv(cfg, c, st) && DoRestart(cfg, c, st) == Some(st')
    ensures Inv(cfg, c, st') && LogOk(cfg, c, st') && LogOk(cfg, c, st)
    ensures Steady(cfg, c, st', MapAfter(Durable(cfg, c, st)))
  {
    hide InitWal, Landed, ReadAll, DecodeSnapshot, SnapOk, SnapperOk, WaitersOk, ReclaimOk, KeysMatch, MapOk,
         ReplayOk, Survived, Revives, Shape;
    RestartStep(cfg, c, st, st');
    var ops := Logged(cfg, c, st');
    assert ops[..|ops|] == ops;
  }

  lemma DeleteAbsent(ops: seq<Op>, m: Store, name: string)
    requires MapAfter(ops) == m && name !in m
    ensures MapAfter(ops + [Del(name)]) == m
  {
    assert (ops + [Del(name)])[..|ops|] == ops;
  }

  lemma ReplayedMeaning(c: Codec, ops: seq<Op>, files: Store, pending: map<nat, Waiter>, rest: seq<WalEntry>, upto: nat)
    requires ReplayOk(c, ops, files, pending, rest, upto)
    ensures MapAfter(ops) == MapAfter(ops[..upto])
  {
    assert ops == ops[..upto] + ops[upto..];
    ReplayConcat(map[], ops[..upto], ops[upto..]);
    forall i | 0 <= i < |ops[upto..]| ensures ops[upto..][i].Del? && ops[upto..][i].Key() !in MapAfter(ops[..upto]) {
      assert ops[upto..][i] == ops[upto + i];
    }
    DeletesIdleIffAbsent(MapAfter(ops[..upto]), ops[upto..]);
  }

  lemma ReplayDeleteSteady(cfg: Config, c: Codec, st: Sys, st': Sys, m: Store)
    requires Proper(cfg, c) && Inv(cfg, c, st) && LogOk(cfg, c, st) && Steady(cfg, c, st, m)
    requires DoReplayDelete(cfg, c, st) == Some(st') && LogOk(cfg, c, st')
    ensures Steady(cfg, c, st', m)
  {
    hide LogOk, Logged, Durable, AppendEntry, Appended, SnapOk, ReclaimOk, WaitersOk, SnapperOk, ReplayOk, Published,
         Fits, MapAfter, KeysMatch;
    var op := OpOf(c, st.mode.rest[0]);
    var ops, ops' := Logged(cfg, c, st), Logged(cfg, c, st');
    AppendKeepsCore(cfg, c, st, st.files[op.name], true, st');
    ReplayedMeaning(c, ops, st.files, st.pending, st.mode.rest, st.mode.upto);
    FiredIsAbsent(c, ops, st.files, st.pending, st.mode.rest, st.mode.upto);
    SteadyAll(cfg, c, st, m);
    assert st.files[op.name].name == op.name by {
      assert KeysMatch(st.files);
      MatchingKey(st.files, op.name);
    }
    DeleteAbsent(ops, m, op.name);
    DurableGrows(cfg, c, st, st.files[op.name], true, st');
    forall p | |Durable(cfg, c, st')| <= p <= |ops'| ensures MapAfter(ops'[..p]) == m {
      if p <= |ops| {
        assert ops'[..p] == ops[..p];
      } else {
        assert ops'[..p] == ops';
      }
    }
  }

  lemma MatchingKey(files: Store, x: string)
    requires KeysMatch(files) && x in files
    ensures files[x].name == x
  {
  }

  lemma DurableGrows(cfg: Config, c: Codec, st: Sys, meta: FileMetadata, isDelete: bool, st': Sys)
    requires Proper(cfg, c) && Core(cfg, c, st) && LogOk(cfg, c, st') &&
             DoAppend(cfg, c, st, meta, isDelete) == Some(st')
    ensures |Durable(cfg, c, st)| <= |Durable(cfg, c, st')|
  {
    hide AppendEntry, Appended, Shape, Survived, Flat, ReclaimOk;
    AppendKeepsLog(cfg, c, st, meta, isDelete, st');
  }

  /** Steps that append nothing only move the durable end forward. */
  lemma ForwardSteady(cfg: Config, c: Codec, st: Sys, st': Sys, m: Store)
    requires LogOk(cfg, c, st) && LogOk(cfg, c, st') && Steady(cfg, c, st, m)
    requires Flat(st'.layout) == Flat(st.layout) && Survived(st.wal, st.layout) <= Survived(st'.wal, st'.layout)
    requires st'.mode.Serving? ==> st.mode.Serving? && st'.files == st.files && st'.pending == st.pending
    ensures Steady(cfg, c, st', m)
  {
    hide Good, Survived, Flat, MapAfter;
    OpsPrefix(c, Survived(st'.wal, st'.layout), Flat(st.layout));
    OpsPrefix(c, Survived(st.wal, st.layout), Survived(st'.wal, st'.layout));
    assert Logged(cfg, c, st') == Logged(cfg, c, st);
  }

  lemma RecoveryStepSteady(cfg: Config, c: Codec, st: Sys, ev: Event, st': Sys, m: Store)
    requires Proper(cfg, c) && Inv(cfg, c, st) && LogOk(cfg, c, st) && Steady(cfg, c, st, m)
    requires RecoveryEvent(ev) && Next(cfg, c, st, ev) == Some(st')
    ensures Inv(cfg, c, st') && LogOk(cfg, c, st') && Steady(cfg, c, st', m)
  {
    hide LogOk, Steady, Survived, SnapOk, Published, DoAppend, DoRestart, DoReplayDelete, Inv, Proper, Flush, Spill,
         Revives, DoInterruptReplay, Flat;
    StepKeepsInv(cfg, c, st, ev, st');
    InvGivesLog(cfg, c, st');
    if ev.Restart? {
      RestartSteady(cfg, c, st, st');
      SteadyAll(cfg, c, st, m);
    } else if ev.ReplayDelete? {
      ReplayDeleteSteady(cfg, c, st, st', m);
    } else if ev.EndReplay? {
      EndReplaySteady(cfg, c, st, st', m);
    } else if ev.InterruptReplay? {
      InterruptReplayCarries(cfg, c, st, ev, st');
      ForwardSteady(cfg, c, st, st', m);
    } else {
      if ev.SpillBuffer? {
        SpillGrows(cfg, c, st, ev.k);
      } else if ev.FlushTimer? {
        FlushGrows(cfg, c, st);
      }
      ForwardSteady(cfg, c, st, st', m);
    }
  }

  lemma InterruptReplayCarries(cfg: Config, c: Codec, st: Sys, ev: Event, st': Sys)
    requires Proper(cfg, c) && Inv(cfg, c, st) && LogOk(cfg, c, st) && LogOk(cfg, c, st')
    requires ev.InterruptReplay? && Next(cfg, c, st, ev) == Some(st')
    ensures Flat(st'.layout) == Flat(st.layout) && Survived(st.wal, st.layout) <= Survived(st'.wal, st'.layout)
    ensures st'.mode == st.mode && st.mode.Replaying? && st'.snap == st.snap
  {
    hide Inv, LogOk, Flat, Survived, DoInterrupt, OpOf;
    InterruptStep(cfg, c, st, st.files[OpOf(c, st.mode.rest[0]).name], true, ev.second, ev.created, ev.k, st');
  }

  lemma SpillGrows(cfg: Config, c: Codec, st: Sys, k: nat)
    requires Proper(cfg, c) && Inv(cfg, c, st) && k <= |st.wal.buf|
    ensures 1 <= st.wal.lastSeg == |st.layout| && st.wal.lastSeg in st.wal.segs
    ensures Survived(st.wal, st.layout) <= Survived(Spill(st.wal, k), st.layout)
  {
    hide Survived;
    SpillKeepsShape(cfg, c, st.wal, st.layout, k);
  }

  lemma FlushGrows(cfg: Config, c: Codec, st: Sys)
    requires Proper(cfg, c) && Inv(cfg, c, st)
    ensures 1 <= st.wal.lastSeg == |st.layout| && st.wal.lastSeg in st.wal.segs
    ensures Survived(st.wal, st.layout) <= Survived(Flush(st.wal), st.layout)
  {
    hide Survived;
    FlushKeepsShape(cfg, c, st.wal, st.layout);
  }

  lemma EndReplaySteady(cfg: Config, c: Codec, st: Sys, st': Sys, m: Store)
    requires Proper(cfg, c) && Inv(cfg, c, st) && LogOk(cfg, c, st) && Steady(cfg, c, st, m)
    requires Next(cfg, c, st, EndReplay) == Some(st') && LogOk(cfg, c, st')
    ensures Steady(cfg, c, st', m)
  {
    hide Inv, Shape, Survived, Flat, MapAfter, Durable, Logged;
    EndReplayStep(cfg, c, st);
    SteadyAll(cfg, c, st, m);
    SameLogged(cfg, c, st, st');
  }

  lemma SameLogged(cfg: Config, c: Codec, st: Sys, st': Sys)
    requires LogOk(cfg, c, st) && LogOk(cfg, c, st') && st'.layout == st.layout
    requires st'.wal == st.wal.(lastSnapshot := st'.wal.lastSnapshot)
    ensures Logged(cfg, c, st') == Logged(cfg, c, st) && Durable(cfg, c, st') == Durable(cfg, c, st)
  {
    RenumberSnapshot(cfg, c, st.wal, st.layout, st'.wal.lastSnapshot);
  }

  lemma RestartIsNext(cfg: Config, c: Codec, st: Sys, st': Sys)
    requires Next(cfg, c, st, Restart) == Some(st')
    ensures DoRestart(cfg, c, st) == Some(st')
  {
    hide DoRestart;
  }

  lemma SteadyServes(cfg: Config, c: Codec, st: Sys, m: Store)
    requires LogOk(cfg, c, st) && Steady(cfg, c, st, m)
    ensures st.mode.Serving? ==> st.files == m
  {
    hide LogOk, Logged, Durable;
  }

  // ---- What a start-up reads ----

  lemma BeforeMonotone(layout: seq<seq<WalEntry>>, s: nat, t: nat)
    requires s <= t <= |layout|
    ensures Before(layout, s) <= Before(layout, t)
  {
    FlatSplit(layout[..t], s);
    assert layout[..t][..s] == layout[..s];
  }

  /** Every segment file comes after the first j entries of the log. */
  ghost predicate StartsAfter(segs: set<nat>, layout: seq<seq<WalEntry>>, j: nat) {
    forall s :: s in segs ==> 1 <= s <= |layout| && j <= Before(layout, s - 1)
  }

  /** What a crash leaves begins as the log did. */
  lemma LandedBefore(cfg: Config, c: Codec, st: Sys, s: nat)
    requires LogOk(cfg, c, st) && 1 <= s <= st.wal.lastSeg
    ensures 1 <= st.wal.lastSeg == |st.layout| <= |Landed(c, st)|
    ensures Before(Landed(c, st), s - 1) == Before(st.layout, s - 1)
  {
    LogLength(cfg, c, st);
    hide Whole, Flat, LogOk;
    assert Landed(c, st)[..s - 1] == st.layout[..s - 1];
  }

  lemma SameStarts(segs: set<nat>, segs': set<nat>, layout: seq<seq<WalEntry>>, layout': seq<seq<WalEntry>>, j: nat)
    requires |layout| <= |layout'| && forall s :: s in segs ==> 1 <= s <= |layout|
    requires forall t :: 0 <= t < |layout| ==> Before(layout', t) == Before(layout, t)
    requires || (segs' == segs && |layout'| == |layout|)
             || (segs' == segs + {|layout'|} && 1 <= |layout'| && j <= Before(layout', |layout'| - 1))
    ensures StartsAfter(segs', layout', j) <==> StartsAfter(segs, layout, j)
  {
    hide Before;
    assert forall s :: s in segs ==> s in segs';
  }

  lemma LandedStarts(cfg: Config, c: Codec, st: Sys, j: nat)
    requires LogOk(cfg, c, st) && j <= |Flat(Landed(c, st))|
    ensures StartsAfter(Directory(st).Keys, Landed(c, st), j) <==> StartsAfter(st.wal.segs.Keys, st.layout, j)
  {
    LandedLength(cfg, c, st);
    LogKeys(cfg, c, st);
    hide LogOk, Landed, Flat, Before, StartsAfter;
    forall t | 0 <= t < |st.layout| ensures Before(Landed(c, st), t) == Before(st.layout, t) {
      LandedBefore(cfg, c, st, t + 1);
    }
    LastIsAll(c, st);
    SameStarts(st.wal.segs.Keys, Directory(st).Keys, st.layout, Landed(c, st), j);
  }

  lemma LastIsAll(c: Codec, st: Sys)
    ensures st.rotation == Halted(true) ==>
              |Landed(c, st)| >= 1 && Before(Landed(c, st), |Landed(c, st)| - 1) == |Flat(Landed(c, st))|
  {
    var layout := Trimmed(c, st.wal, st.layout);
    if st.rotation == Halted(true) {
      FlatEmptySegment(layout);
      assert Landed(c, st)[..|layout|] == layout;
    }
  }

  lemma FirstFileStarts(segs: set<nat>, layout: seq<seq<WalEntry>>, n: nat) returns (j: nat)
    requires 1 <= n <= |layout| && segs == Range(|layout| + 1 - n, |layout| + 1)
    ensures j == Before(layout, |layout| - n) && StartsAfter(segs, layout, j)
    ensures forall i: nat :: StartsAfter(segs, layout, i) ==> i <= j
  {
    hide Range, Before;
    j := Before(layout, |layout| - n);
    assert |layout| + 1 - n in segs;
    forall s | s in segs ensures j <= Before(layout, s - 1) {
      BeforeMonotone(layout, |layout| - n, s - 1);
    }
  }

  /** The scan of a good directory yields the surviving log from entry j on, where j is as late as the
      first segment file allows. */
  lemma ScanOfRestart(cfg: Config, c: Codec, st: Sys, st': Sys) returns (j: nat)
    requires Proper(cfg, c) && Core(cfg, c, st) && StartUp(cfg, c, st) == Some(st') && st.snap.Some?
    ensures st'.mode.Replaying? && DecodeSnapshot(c, st.snap.value) == Ok((st'.mode.no, st'.files))
    ensures 1 <= st.wal.lastSeg == |st.layout| && st.wal.lastSeg in st.wal.segs
    ensures j <= |Survived(st.wal, st.layout)| && st'.mode.rest == Survived(st.wal, st.layout)[j..]
    ensures StartsAfter(st.wal.segs.Keys, st.layout, j)
    ensures forall i: nat :: StartsAfter(st.wal.segs.Keys, st.layout, i) ==> i <= j
  {
    hide InitWal, ReadAll, Survived, Covered, Shape, SnapOk, SnapperOk, WaitersOk, Landed, DecodeSnapshot,
         KeysMatch, Directory, Published, ReclaimOk, LogOk, Flat, StartsAfter;
    LandedLength(cfg, c, st);
    RestartLog(cfg, c, st, st'.wal);
    j := ScanOfWhole(cfg, c, st'.wal, st'.layout);
    LandedStarts(cfg, c, st, j);
    forall i: nat | StartsAfter(st.wal.segs.Keys, st.layout, i) ensures i <= j {
      NoLaterStart(cfg, c, st, i, j);
    }
  }

  /** No start later than the first file allows. */
  lemma NoLaterStart(cfg: Config, c: Codec, st: Sys, i: nat, j: nat)
    requires LogOk(cfg, c, st) && StartsAfter(st.wal.segs.Keys, st.layout, i)
    requires forall k: nat :: StartsAfter(Directory(st).Keys, Landed(c, st), k) ==> k <= j
    ensures i <= j
  {
    LandedLength(cfg, c, st);
    hide LogOk, Landed, StartsAfter, Flat;
    LastStart(cfg, c, st, i);
    LandedStarts(cfg, c, st, i);
  }

  lemma LastStart(cfg: Config, c: Codec, st: Sys, i: nat)
    requires LogOk(cfg, c, st) && StartsAfter(st.wal.segs.Keys, st.layout, i)
    ensures i <= |Flat(Landed(c, st))|
  {
    LandedLength(cfg, c, st);
    hide LogOk, Landed, Flat;
    assert st.wal.lastSeg in st.wal.segs.Keys;
    LandedBefore(cfg, c, st, st.wal.lastSeg);
    FlatSplit(Landed(c, st), st.wal.lastSeg - 1);
  }

  lemma ScanOfWhole(cfg: Config, c: Codec, w: Wal, layout: seq<seq<WalEntry>>) returns (j: nat)
    requires Lossless(c) && Shape(cfg, c, w, layout) && w.buf == [] && w.lastSeq == |Flat(layout)|
    requires w.lastSeg < TWO_TO_64 && ReadAll(c, w.segs, w.lastSeg, w.lastSeq).Ok?
    ensures j <= |Flat(layout)| && ReadAll(c, w.segs, w.lastSeg, w.lastSeq).value == Flat(layout)[j..]
    ensures StartsAfter(w.segs.Keys, layout, j)
    ensures forall i: nat :: StartsAfter(w.segs.Keys, layout, i) ==> i <= j
  {
    hide ReadAll, GoodLayout, EncodeFile, Range, Flat, StartsAfter;
    LastFileWhole(cfg, c, w, layout);
    hide WholeFiles, Numbered;
    ScanIsExact(c, w.segs, layout);
    j := FirstFileStarts(w.segs.Keys, layout, |w.segs|);
  }

  // ---- Recovering again ----

  /** Cut after p entries, the log from entry j on replays to m on the image, and revives nothing. */
  ghost predicate CalmAt(img: Store, ops: seq<Op>, j: nat, p: nat, m: Store) {
    j <= p <= |ops| && Replay(img, ops[j..p]) == m && !Revives(img, ops[j..p])
  }

  /** Wherever the log is cut from here on, a start-up reads it from entry j or later and may recover. */
  ghost predicate Calm(cfg: Config, c: Codec, st: Sys, j: nat, m: Store)
    requires LogOk(cfg, c, st)
  {
    match st.snap
    case None => m == map[]
    case Some(f) =>
      && DecodeSnapshot(c, f).Ok?
      && StartsAfter(st.wal.segs.Keys, st.layout, j)
      && forall p :: |Durable(cfg, c, st)| <= p <= |Logged(cfg, c, st)| ==>
                       CalmAt(DecodeSnapshot(c, f).value.1, Logged(cfg, c, st), j, p, m)
  }

  lemma DurableIsCut(cfg: Config, c: Codec, st: Sys)
    requires LogOk(cfg, c, st)
    ensures Durable(cfg, c, st) == Logged(cfg, c, st)[..|Durable(cfg, c, st)|]
  {
    hide Shape, Survived, Flat;
  }

  lemma CalmDurable(cfg: Config, c: Codec, st: Sys, j: nat, m: Store)
    requires LogOk(cfg, c, st) && Calm(cfg, c, st, j, m) && st.snap.Some?
    ensures var d := Durable(cfg, c, st);
            CalmAt(DecodeSnapshot(c, st.snap.value).value.1, d, j, |d|, m)
  {
    hide LogOk, Logged, Durable, Revives, Replay, StartsAfter, DecodeSnapshot;
    DurableIsCut(cfg, c, st);
    var ops, n := Logged(cfg, c, st), |Durable(cfg, c, st)|;
    assert CalmAt(DecodeSnapshot(c, st.snap.value).value.1, ops, j, n, m);
    assert ops[..n][j..n] == ops[j..n];
  }

  lemma ScannedOps(cfg: Config, c: Codec, st: Sys, j: nat)
    requires LogOk(cfg, c, st) && j <= |Survived(st.wal, st.layout)|
    ensures AllGood(c, Survived(st.wal, st.layout)[j..]) && j <= |Durable(cfg, c, st)|
    ensures Ops(c, Survived(st.wal, st.layout)[j..]) == Durable(cfg, c, st)[j..]
  {
    LogIsGood(cfg, c, st);
    hide Shape, Survived, Flat, Good;
    var es, all := Survived(st.wal, st.layout), Flat(st.layout);
    assert AllGood(c, es) by {
      assert forall i :: 0 <= i < |es| ==> es[i] == all[i];
    }
    OpsDrop(c, es, j);
  }

  lemma LogIsGood(cfg: Config, c: Codec, st: Sys)
    requires LogOk(cfg, c, st)
    ensures AllGood(c, Flat(st.layout))
    ensures 1 <= st.wal.lastSeg == |st.layout| && st.wal.lastSeg in st.wal.segs
  {
    hide Survived, Flat;
  }

  /** A later start-up meets the condition on its own. */
  lemma CalmIsRecoverable(cfg: Config, c: Codec, st: Sys, st': Sys, j: nat, m: Store)
    requires Proper(cfg, c) && Inv(cfg, c, st) && LogOk(cfg, c, st)
    requires Steady(cfg, c, st, m) && Calm(cfg, c, st, j, m) && StartUp(cfg, c, st) == Some(st')
    ensures Recoverable(c, st, st')
  {
    hide LogOk, Survived, Flat, Revives, Replay, InitWal, ReadAll, DecodeSnapshot, Landed, Core, ModeOk, MapAfter,
         Directory;
    hide Steady, Calm, Durable, Logged, AllGood;
    SteadyAll(cfg, c, st, m);
    ScannedOps(cfg, c, st, 0);
    LogIsGood(cfg, c, st);
    if st.snap.None? {
      assert Survived(st.wal, st.layout)[0..] == Survived(st.wal, st.layout);
      assert Durable(cfg, c, st)[0..] == Durable(cfg, c, st);
      CalmWithoutSnapshot(cfg, c, st, j, m);
    } else {
      var k := ScanOfRestart(cfg, c, st, st');
      ScannedOps(cfg, c, st, k);
      CalmDurable(cfg, c, st, j, m);
      CalmStarts(cfg, c, st, j, m);
      LaterStartRevivesLess(st'.files, Durable(cfg, c, st), j, k, m);
    }
  }

  lemma CalmWithoutSnapshot(cfg: Config, c: Codec, st: Sys, j: nat, m: Store)
    requires LogOk(cfg, c, st) && Calm(cfg, c, st, j, m) && st.snap.None?
    ensures m == map[]
  {
    hide LogOk, Logged, Durable;
  }

  lemma CalmStarts(cfg: Config, c: Codec, st: Sys, j: nat, m: Store)
    requires LogOk(cfg, c, st) && Calm(cfg, c, st, j, m) && st.snap.Some?
    ensures StartsAfter(st.wal.segs.Keys, st.layout, j) && DecodeSnapshot(c, st.snap.value).Ok?
  {
    hide LogOk, Logged, Durable, StartsAfter, DecodeSnapshot, CalmAt;
  }

  lemma LaterStartRevivesLess(img: Store, ops: seq<Op>, j: nat, k: nat, m: Store)
    requires CalmAt(img, ops, j, |ops|, m) && j <= k <= |ops|
    ensures !Revives(img, ops[k..])
  {
    hide Revives, Replay;
    assert ops[j..|ops|] == ops[j..k] + ops[k..];
    if Revives(img, ops[k..]) {
      RevivesSuffix(img, ops[j..k], ops[k..]);
    }
  }

  lemma RestartStaysCalm(cfg: Config, c: Codec, st: Sys, st': Sys, j: nat, m: Store)
    requires Proper(cfg, c) && Inv(cfg, c, st) && LogOk(cfg, c, st) && LogOk(cfg, c, st')
    requires Calm(cfg, c, st, j, m) && DoRestart(cfg, c, st) == Some(st')
    ensures Calm(cfg, c, st', j, m)
  {
    hide LogOk, Logged, Durable, Revives, Replay, Landed, InitWal, ReadAll, DecodeSnapshot, ModeOk, Recoverable,
         Survived, Directory, Flat;
    RestartStep(cfg, c, st, st');
    if st.snap.Some? {
      CalmDurable(cfg, c, st, j, m);
      LogLength(cfg, c, st);
      RestartLog(cfg, c, st, st'.wal);
      DurableCount(cfg, c, st);
      hide Calm, StartsAfter;
      CalmStarts(cfg, c, st, j, m);
      LandedStarts(cfg, c, st, j);
      CalmByCuts(cfg, c, st', j, m);
    } else {
      hide Calm;
      CalmWithoutSnapshot(cfg, c, st, j, m);
      CalmByCuts(cfg, c, st', j, m);
    }
  }

  lemma DurableCount(cfg: Config, c: Codec, st: Sys)
    requires LogOk(cfg, c, st)
    ensures 1 <= st.wal.lastSeg == |st.layout| && st.wal.lastSeg in st.wal.segs
    ensures |Durable(cfg, c, st)| == |Survived(st.wal, st.layout)|
  {
    LogLength(cfg, c, st);
    hide Shape, Survived, Flat;
  }

  /** A log that is whole on disk is calm if it is calm at its end. */
  lemma CalmByCuts(cfg: Config, c: Codec, st: Sys, j: nat, m: Store)
    requires LogOk(cfg, c, st) && Durable(cfg, c, st) == Logged(cfg, c, st)
    requires st.snap.None? ==> m == map[]
    requires st.snap.Some? ==>
               && DecodeSnapshot(c, st.snap.value).Ok? && StartsAfter(st.wal.segs.Keys, st.layout, j)
               && CalmAt(DecodeSnapshot(c, st.snap.value).value.1, Logged(cfg, c, st), j, |Logged(cfg, c, st)|, m)
    ensures Calm(cfg, c, st, j, m)
  {
    hide LogOk, Logged, Durable, CalmAt, StartsAfter, DecodeSnapshot;
  }

  /** The first restart, which met the condition, makes all later ones calm. */
  lemma FirstRestartIsCalm(cfg: Config, c: Codec, st: Sys, st': Sys) returns (j: nat)
    requires Proper(cfg, c) && Inv(cfg, c, st) && DoRestart(cfg, c, st) == Some(st')
    ensures Inv(cfg, c, st') && LogOk(cfg, c, st') && LogOk(cfg, c, st)
    ensures Calm(cfg, c, st', j, MapAfter(Durable(cfg, c, st)))
  {
    hide LogOk, Logged, Durable, Revives, MapAfter, InitWal, StartUp, ModeOk, Core, Recoverable, Calm, StartsAfter;
    CoreHasLog(cfg, c, st);
    RestartStep(cfg, c, st, st');
    CoreHasLog(cfg, c, st');
    j := 0;
    if st.snap.Some? {
      j := FirstScanIsCalm(cfg, c, st, st');
    } else {
      RestartedPlain(cfg, c, st, st');
      NothingLeft(cfg, c, st);
    }
    CalmByCuts(cfg, c, st', j, MapAfter(Durable(cfg, c, st)));
  }

  lemma RestartedPlain(cfg: Config, c: Codec, st: Sys, st': Sys)
    requires DoRestart(cfg, c, st) == Some(st') && st.snap.None?
    ensures NothingToRecover(c, st) && st'.snap.None?
  {
    hide InitWal, Landed, NothingToRecover;
  }

  lemma FirstScanIsCalm(cfg: Config, c: Codec, st: Sys, st': Sys) returns (j: nat)
    requires Proper(cfg, c) && Inv(cfg, c, st) && LogOk(cfg, c, st) && LogOk(cfg, c, st')
    requires DoRestart(cfg, c, st) == Some(st') && st.snap.Some? && st'.snap == st.snap
    requires Logged(cfg, c, st') == Durable(cfg, c, st)
    ensures DecodeSnapshot(c, st.snap.value).Ok? && StartsAfter(st'.wal.segs.Keys, st'.layout, j)
    ensures var d := Durable(cfg, c, st);
            CalmAt(DecodeSnapshot(c, st.snap.value).value.1, d, j, |d|, MapAfter(d))
  {
    hide LogOk, Logged, Durable, Revives, Replay, InitWal, ReadAll, ModeOk, Core, StartsAfter, Landed, DecodeSnapshot;
    hide AllGood, Survived, MapAfter, Directory, Flat;
    j := ScanOfRestart(cfg, c, st, st');
    ScannedOps(cfg, c, st, j);
    RestartLog(cfg, c, st, st'.wal);
    LandedStarts(cfg, c, st, j);
    ReplayReachesDurableMap(cfg, c, st, st'.wal, st'.mode.no, st'.files, st'.mode.rest);
    var d := Durable(cfg, c, st);
    assert d[j..|d|] == d[j..];
  }

  lemma NothingLeft(cfg: Config, c: Codec, st: Sys)
    requires LogOk(cfg, c, st) && NothingToRecover(c, st)
    ensures MapAfter(Durable(cfg, c, st)) == map[]
  {
    hide Shape, Survived, Flat, MapAfter;
  }

  /** Steps that append nothing keep calm. */
  lemma ForwardCalm(cfg: Config, c: Codec, st: Sys, st': Sys, j: nat, m: Store)
    requires LogOk(cfg, c, st) && LogOk(cfg, c, st') && Calm(cfg, c, st, j, m)
    requires Flat(st'.layout) == Flat(st.layout) && Survived(st.wal, st.layout) <= Survived(st'.wal, st'.layout)
    requires st'.snap == st.snap
    requires StartsAfter(st.wal.segs.Keys, st.layout, j) ==> StartsAfter(st'.wal.segs.Keys, st'.layout, j)
    ensures Calm(cfg, c, st', j, m)
  {
    hide Good, Survived, Flat, CalmAt, StartsAfter, DecodeSnapshot;
    OpsPrefix(c, Survived(st'.wal, st'.layout), Flat(st.layout));
    OpsPrefix(c, Survived(st.wal, st.layout), Survived(st'.wal, st'.layout));
    assert Logged(cfg, c, st') == Logged(cfg, c, st);
  }

  // ---- A delete logged by replay ----

  lemma RotatedKeys(cfg: Config, c: Codec, w: Wal)
    requires AddNewLogFile(cfg, c, w).Done?
    ensures AddNewLogFile(cfg, c, w).wal.segs.Keys <= w.segs.Keys + {w.lastSeg, w.lastSeg + 1}
    ensures AddNewLogFile(cfg, c, w).wal.lastSeg == w.lastSeg + 1
  {
    hide LastNumber;
  }

  lemma AppendedKeys(cfg: Config, c: Codec, w: Wal, data: seq<byte>, isDelete: bool)
    requires AppendEntry(cfg, c, w, data, isDelete).Done? && w.lastSeg in w.segs
    ensures var w' := AppendEntry(cfg, c, w, data, isDelete).wal;
            w.lastSeg <= w'.lastSeg && forall s :: s in w'.segs ==> s in w.segs || w.lastSeg < s <= w'.lastSeg
  {
    hide AddNewLogFile, Frame;
    var length := |c.encEntry(MakeEntry(c, w.lastSeq + 1, data, isDelete))|;
    var w1 := RotateIf(w.curSize >= cfg.maxSize, cfg, c, w).wal;
    if w.curSize >= cfg.maxSize {
      RotatedKeys(cfg, c, w);
    }
    if w.curSize + length + 4 >= cfg.maxSize {
      RotatedKeys(cfg, c, w1.(lastSeq := w1.lastSeq + 1));
    }
  }

  /** Segments before the last keep their entries, and so does the last if new ones follow it. */
  lemma PushedPrefix(layout: seq<seq<WalEntry>>, last: nat, e: WalEntry, s: nat)
    requires layout != [] && |layout| <= last && (s < |layout| || (s == |layout| < last))
    ensures |Push(Pad(layout, last), e)| == last && Push(Pad(layout, last), e)[..s] == layout[..s]
  {
  }

  /** What stood before a segment still does; in front of a new segment stands everything. */
  lemma PushedBefore(layout: seq<seq<WalEntry>>, last: nat, e: WalEntry, s: nat)
    requires layout != [] && |layout| <= last && 1 <= s <= last
    ensures |Push(Pad(layout, last), e)| == last
    ensures Before(Push(Pad(layout, last), e), s - 1) >= Before(layout, if s <= |layout| then s - 1 else |layout|)
  {
    var layout', n := Push(Pad(layout, last), e), if s <= |layout| then s - 1 else |layout|;
    PushedPrefix(layout, last, e, n);
    hide Flat, Push, Pad;
    BeforeMonotone(layout', n, s - 1);
  }

  lemma AppendedStarts(segs: set<nat>, segs': set<nat>, layout: seq<seq<WalEntry>>, last: nat, e: WalEntry, j: nat)
    requires StartsAfter(segs, layout, j) && layout != [] && |layout| <= last && j <= |Flat(layout)|
    requires forall s :: s in segs' ==> s in segs || |layout| < s <= last
    ensures StartsAfter(segs', Push(Pad(layout, last), e), j)
  {
    hide Flat, Push, Pad;
    assert layout[..|layout|] == layout;
    forall s | s in segs' ensures 1 <= s <= last == |Push(Pad(layout, last), e)| &&
                                  j <= Before(Push(Pad(layout, last), e), s - 1) {
      PushedBefore(layout, last, e, s);
    }
  }

  lemma DeleteStaysCalm(img: Store, ops: seq<Op>, j: nat, m: Store, x: string)
    requires CalmAt(img, ops, j, |ops|, m) && x !in m
    ensures CalmAt(img, ops + [Del(x)], j, |ops| + 1, m)
  {
    hide Revives;
    var all := ops + [Del(x)];
    assert ops[j..|ops|] == ops[j..];
    assert all[j..|ops| + 1] == ops[j..] + [Del(x)];
    RevivesPersists(img, ops[j..], [Del(x)]);
    ReplayConcat(img, ops[j..], [Del(x)]);
    assert [Del(x)][..0] == [];
    assert Replay(m, []) == m;
    assert Replay(m, [Del(x)]) == ApplyOp(m, Del(x));
  }

  lemma CutStaysCalm(img: Store, ops: seq<Op>, ops': seq<Op>, j: nat, p: nat, m: Store)
    requires CalmAt(img, ops, j, p, m) && ops <= ops'
    ensures CalmAt(img, ops', j, p, m)
  {
    hide Revives, Replay;
    assert ops'[j..p] == ops[j..p];
  }

  lemma ReplayDeleteCalm(cfg: Config, c: Codec, st: Sys, st': Sys, j: nat, m: Store)
    requires Proper(cfg, c) && Inv(cfg, c, st) && LogOk(cfg, c, st) && Steady(cfg, c, st, m)
    requires Calm(cfg, c, st, j, m) && DoReplayDelete(cfg, c, st) == Some(st') && LogOk(cfg, c, st')
    ensures Calm(cfg, c, st', j, m)
  {
    hide LogOk, Logged, Durable, Inv, Steady, AppendEntry, Appended, CalmAt, StartsAfter, DecodeSnapshot, OpOf,
         DoAppend;
    var op := OpOf(c, st.mode.rest[0]);
    var ops, ops' := Logged(cfg, c, st), Logged(cfg, c, st');
    ReplayLogsOneDelete(cfg, c, st, st', m);
    if st.snap.Some? {
      var img := DecodeSnapshot(c, st.snap.value).value.1;
      assert j <= |ops| by {
        CalmReaches(cfg, c, st, j, m);
      }
      AppendStartsAfter(cfg, c, st, st.files[op.name], true, st', j);
      forall p | |Durable(cfg, c, st')| <= p <= |ops'| ensures CalmAt(img, ops', j, p, m) {
        DeleteCut(img, ops, j, p, m, op.name, |Durable(cfg, c, st)|);
      }
    }
  }

  lemma CalmReaches(cfg: Config, c: Codec, st: Sys, j: nat, m: Store)
    requires LogOk(cfg, c, st) && Calm(cfg, c, st, j, m) && st.snap.Some?
    ensures j <= |Logged(cfg, c, st)|
  {
    hide LogOk, Logged, Durable, Revives, Replay, StartsAfter, DecodeSnapshot;
    assert CalmAt(DecodeSnapshot(c, st.snap.value).value.1, Logged(cfg, c, st), j, |Logged(cfg, c, st)|, m);
  }

  lemma DeleteCut(img: Store, ops: seq<Op>, j: nat, p: nat, m: Store, x: string, d: nat)
    requires d <= |ops| && d <= p <= |ops| + 1 && x !in m
    requires forall q :: d <= q <= |ops| ==> CalmAt(img, ops, j, q, m)
    ensures CalmAt(img, ops + [Del(x)], j, p, m)
  {
    hide CalmAt;
    assert CalmAt(img, ops, j, |ops|, m);
    if p <= |ops| {
      assert CalmAt(img, ops, j, p, m);
      CutStaysCalm(img, ops, ops + [Del(x)], j, p, m);
    } else {
      DeleteStaysCalm(img, ops, j, m, x);
    }
  }

  lemma AppendStartsAfter(cfg: Config, c: Codec, st: Sys, meta: FileMetadata, isDelete: bool, st': Sys, j: nat)
    requires LogOk(cfg, c, st) && DoAppend(cfg, c, st, meta, isDelete) == Some(st')
    requires StartsAfter(st.wal.segs.Keys, st.layout, j) && j <= |Logged(cfg, c, st)|
    ensures StartsAfter(st'.wal.segs.Keys, st'.layout, j)
  {
    hide Flat, Survived, GoodLayout, AppendEntry, StartsAfter, Push, Pad;
    LogIsGood(cfg, c, st);
    AppendedKeys(cfg, c, st.wal, c.encMeta(meta), isDelete);
    AppendedStarts(st.wal.segs.Keys, st'.wal.segs.Keys, st.layout, st'.wal.lastSeg,
                   MakeEntry(c, st.wal.lastSeq + 1, c.encMeta(meta), isDelete), j);
  }

  /** A delete that replay logs names something the log has lost by its end. */
  lemma ReplayLogsOneDelete(cfg: Config, c: Codec, st: Sys, st': Sys, m: Store)
    requires Proper(cfg, c) && Inv(cfg, c, st) && LogOk(cfg, c, st) && Steady(cfg, c, st, m)
    requires DoReplayDelete(cfg, c, st) == Some(st') && LogOk(cfg, c, st')
    ensures var op := OpOf(c, st.mode.rest[0]);
            && op.Del? && op.name !in m && op.name in st.files
            && Logged(cfg, c, st') == Logged(cfg, c, st) + [Del(op.name)]
            && DoAppend(cfg, c, st, st.files[op.name], true) == Some(st')
    ensures |Durable(cfg, c, st)| <= |Durable(cfg, c, st')| && st'.snap == st.snap && st'.mode == st.mode
  {
    hide LogOk, Logged, Durable, AppendEntry, Appended, SnapOk, ReclaimOk, WaitersOk, SnapperOk, ReplayOk, Published;
    hide Fits, MapAfter, KeysMatch, Steady;
    var op := OpOf(c, st.mode.rest[0]);
    var ops := Logged(cfg, c, st);
    AppendKeepsCore(cfg, c, st, st.files[op.name], true, st');
    ReplayedMeaning(c, ops, st.files, st.pending, st.mode.rest, st.mode.upto);
    FiredIsAbsent(c, ops, st.files, st.pending, st.mode.rest, st.mode.upto);
    SteadyAll(cfg, c, st, m);
    MatchingKey(st.files, op.name);
    DurableGrows(cfg, c, st, st.files[op.name], true, st');
  }

  // ---- Every step of recovery ----

  lemma CalmStep(cfg: Config, c: Codec, st: Sys, ev: Event, st': Sys, j: nat, m: Store)
    requires Proper(cfg, c) && Inv(cfg, c, st) && LogOk(cfg, c, st)
    requires Steady(cfg, c, st, m) && Calm(cfg, c, st, j, m)
    requires RecoveryEvent(ev) && !ev.ReplayRefused? && FreeNext(cfg, c, st, ev) == Some(st')
    ensures Next(cfg, c, st, ev) == Some(st')
    ensures Inv(cfg, c, st') && LogOk(cfg, c, st') && Steady(cfg, c, st', m) && Calm(cfg, c, st', j, m)
  {
    hide LogOk, Steady, Calm, Survived, DoAppend, StartUp, Recoverable, DoReplayDelete, Inv, Proper, Flush, Spill;
    hide DoInterruptReplay, Flat, StartsAfter, FiresNext;
    if ev.Restart? {
      CalmIsRecoverable(cfg, c, st, st', j, m);
      RecoveryStepSteady(cfg, c, st, ev, st', m);
      RestartStaysCalm(cfg, c, st, st', j, m);
    } else {
      RecoveryStepSteady(cfg, c, st, ev, st', m);
      if ev.ReplayDelete? {
        ReplayDeleteCalm(cfg, c, st, st', j, m);
      } else if ev.InterruptReplay? {
        InterruptReplayCarries(cfg, c, st, ev, st');
        InterruptReplayStarts(cfg, c, st, ev, st', j, m);
        ForwardCalm(cfg, c, st, st', j, m);
      } else {
        QuietRecoveryStep(cfg, c, st, ev, st');
        ForwardCalm(cfg, c, st, st', j, m);
      }
    }
  }

  lemma HalfKeys(cfg: Config, c: Codec, w: Wal, k: nat)
    requires HalfRotated(cfg, c, w, k).Some?
    ensures HalfRotated(cfg, c, w, k).value.segs.Keys <= w.segs.Keys
    ensures HalfRotated(cfg, c, w, k).value.lastSeg == w.lastSeg
  {
    hide LastNumber;
  }

  lemma EmptyStarts(segs: set<nat>, segs': set<nat>, layout: seq<seq<WalEntry>>, j: nat)
    requires StartsAfter(segs, layout, j) && j <= |Flat(layout)|
    requires forall s :: s in segs' ==> s in segs || s == |layout| + 1
    ensures StartsAfter(segs', layout + [[]], j)
  {
    hide Flat;
    var layout' := layout + [[]];
    assert layout'[..|layout|] == layout;
    forall s | s in segs' ensures 1 <= s <= |layout'| && j <= Before(layout', s - 1) {
      if s <= |layout| {
        assert layout'[..s - 1] == layout[..s - 1];
      }
    }
  }

  lemma FewerStart(segs: set<nat>, segs': set<nat>, layout: seq<seq<WalEntry>>, j: nat)
    requires StartsAfter(segs, layout, j) && segs' <= segs
    ensures StartsAfter(segs', layout, j)
  {
    hide Flat, Before;
  }

  lemma InterruptReplayStarts(cfg: Config, c: Codec, st: Sys, ev: Event, st': Sys, j: nat, m: Store)
    requires Proper(cfg, c) && Inv(cfg, c, st) && LogOk(cfg, c, st) && Calm(cfg, c, st, j, m)
    requires ev.InterruptReplay? && Next(cfg, c, st, ev) == Some(st')
    ensures StartsAfter(st.wal.segs.Keys, st.layout, j) ==> StartsAfter(st'.wal.segs.Keys, st'.layout, j)
  {
    hide Inv, LogOk, Flat, OpOf, HalfRotated, AddNewLogFile, StartsAfter, Calm, Pad, Logged, FiresNext;
    LogLength(cfg, c, st);
    PadOne(st.layout);
    if StartsAfter(st.wal.segs.Keys, st.layout, j) {
      assert j <= |Flat(st.layout)| by {
        StartsInLog(cfg, c, st, j);
      }
      if ev.second {
        var w1 := AddNewLogFile(cfg, c, st.wal).wal;
        RotatedKeys(cfg, c, st.wal);
        EmptyStarts(st.wal.segs.Keys, w1.segs.Keys, st.layout, j);
        HalfKeys(cfg, c, w1, ev.k);
        FewerStart(w1.segs.Keys, st'.wal.segs.Keys, st'.layout, j);
      } else {
        HalfKeys(cfg, c, st.wal, ev.k);
        FewerStart(st.wal.segs.Keys, st'.wal.segs.Keys, st'.layout, j);
      }
    }
  }

  lemma StartsInLog(cfg: Config, c: Codec, st: Sys, j: nat)
    requires LogOk(cfg, c, st) && StartsAfter(st.wal.segs.Keys, st.layout, j)
    ensures j <= |Flat(st.layout)|
  {
    LogLength(cfg, c, st);
    hide LogOk, Flat;
    assert st.wal.lastSeg in st.wal.segs.Keys;
    FlatSplit(st.layout, st.wal.lastSeg - 1);
  }

  lemma QuietRecoveryStep(cfg: Config, c: Codec, st: Sys, ev: Event, st': Sys)
    requires Proper(cfg, c) && Inv(cfg, c, st) && LogOk(cfg, c, st) && LogOk(cfg, c, st')
    requires RecoveryEvent(ev) && !ev.Restart? && !ev.ReplayDelete? && !ev.InterruptReplay?
    requires Next(cfg, c, st, ev) == Some(st')
    ensures st'.layout == st.layout && Survived(st.wal, st.layout) <= Survived(st'.wal, st'.layout)
    ensures st'.wal.segs.Keys == st.wal.segs.Keys && st'.snap == st.snap && st'.wal.lastSeg == st.wal.lastSeg
    ensures st'.mode.Replaying? ==> st.mode.Replaying? && st'.wal.lastSnapshot == st.wal.lastSnapshot
  {
    hide Survived, Inv, LogOk, Shape, ApplyOp, OpOf;
    LogIsGood(cfg, c, st);
    if ev.SpillBuffer? {
      SpillGrows(cfg, c, st, ev.k);
    } else if ev.FlushTimer? {
      FlushGrows(cfg, c, st);
    } else if ev.EndReplay? {
      LogIsShaped(cfg, c, st);
      RenumberSnapshot(cfg, c, st.wal, st.layout, st'.wal.lastSnapshot);
    } else {
      assert st'.wal == st.wal;
    }
  }

  lemma LogIsShaped(cfg: Config, c: Codec, st: Sys)
    requires LogOk(cfg, c, st)
    ensures Shape(cfg, c, st.wal, st.layout)
  {
    hide Shape, Survived, Flat;
  }

  lemma {:induction false} CycleStays(cfg: Config, c: Codec, evs: seq<Event>, st: Sys, cycle: seq<Event>, j: nat,
                                      m: Store)
    requires Proper(cfg, c) && Run(cfg, c, evs) == Some(st) && Inv(cfg, c, st) && LogOk(cfg, c, st)
    requires Steady(cfg, c, st, m) && Calm(cfg, c, st, j, m) && RunFreely(cfg, c, st, cycle).Some?
    requires forall ev :: ev in cycle ==> RecoveryEvent(ev) && !ev.ReplayRefused?
    ensures Run(cfg, c, evs + cycle) == RunFreely(cfg, c, st, cycle)
    ensures var st' := RunFreely(cfg, c, st, cycle).value;
            Inv(cfg, c, st') && LogOk(cfg, c, st') && Steady(cfg, c, st', m) && Calm(cfg, c, st', j, m)
    decreases |cycle|
  {
    hide Inv, LogOk, Steady, Calm, Next, FreeNext, Proper;
    if cycle == [] {
      assert evs + cycle == evs;
    } else {
      var front, last := cycle[..|cycle| - 1], cycle[|cycle| - 1];
      assert last in cycle && forall ev :: ev in front ==> ev in cycle;
      CycleStays(cfg, c, evs, st, front, j, m);
      assert (evs + cycle)[..|evs + cycle| - 1] == evs + front;
      CalmStep(cfg, c, RunFreely(cfg, c, st, front).value, last, RunFreely(cfg, c, st, cycle).value, j, m);
    }
  }

  // ---- Room for the deletes of every start-up ----

  /** Every rotation of a start-up from here on succeeds: file t, which is on disk, ends its walk back. */
  ghost predicate Roomy(cfg: Config, c: Codec, st: Sys, t: nat)
    requires LogOk(cfg, c, st)
  {
    && Rooted(cfg, st.wal, st.layout, t) && Before(st.layout, t - 1) < |Durable(cfg, c, st)|
    && (st.mode.Replaying? ==> st.wal.lastSnapshot == 0)
  }

  lemma RootOfDelete(cfg: Config, c: Codec, st: Sys, meta: FileMetadata, t: nat)
    requires Proper(cfg, c) && Inv(cfg, c, st) && LogOk(cfg, c, st) && Rooted(cfg, st.wal, st.layout, t)
    requires st.wal.lastSnapshot == 0 && st.wal.lastSeg + 2 < TWO_TO_64
    ensures var r := AppendEntry(cfg, c, st.wal, c.encMeta(meta), true);
            r.Done? && Rooted(cfg, r.wal, Appended(c, st.wal, r.wal, st.layout, c.encMeta(meta), true), t)
  {
    hide Inv, Survived, Flat, Shape, AppendEntry, Appended, Rooted;
    RootedAppends(cfg, c, st.wal, st.layout, c.encMeta(meta), true, t);
  }

  /** So no delete is refused. */
  lemma RoomyNeverRefuses(cfg: Config, c: Codec, st: Sys, t: nat)
    requires Proper(cfg, c) && Inv(cfg, c, st) && LogOk(cfg, c, st) && Roomy(cfg, c, st, t)
    ensures FreeNext(cfg, c, st, ReplayRefused).None?
  {
    hide Inv, LogOk, AppendEntry, Appended, OpOf, Rooted, Durable;
    if FreeNext(cfg, c, st, ReplayRefused).Some? {
      RootOfDelete(cfg, c, st, st.files[OpOf(c, st.mode.rest[0]).name], t);
    }
  }

  lemma RoomyForward(cfg: Config, c: Codec, st: Sys, st': Sys, t: nat)
    requires LogOk(cfg, c, st) && LogOk(cfg, c, st') && Roomy(cfg, c, st, t)
    requires st'.layout == st.layout && Survived(st.wal, st.layout) <= Survived(st'.wal, st'.layout)
    requires st'.wal.segs.Keys == st.wal.segs.Keys && st'.wal.lastSeg == st.wal.lastSeg
    requires st'.mode.Replaying? ==> st.mode.Replaying? && st'.wal.lastSnapshot == st.wal.lastSnapshot
    ensures Roomy(cfg, c, st', t)
  {
    DurableCount(cfg, c, st);
    DurableCount(cfg, c, st');
    hide LogOk, Survived, Flat, Durable;
    SameRoot(cfg, st.wal, st'.wal, st.layout, st'.layout, t);
  }

  lemma RoomyDelete(cfg: Config, c: Codec, st: Sys, st': Sys, t: nat)
    requires Proper(cfg, c) && Inv(cfg, c, st) && LogOk(cfg, c, st) && LogOk(cfg, c, st') && Roomy(cfg, c, st, t)
    requires DoReplayDelete(cfg, c, st) == Some(st')
    ensures Roomy(cfg, c, st', t)
  {
    hide LogOk, AppendEntry, Appended, OpOf, Rooted, Durable, Fits, ModeOk, SnapOk, ReclaimOk, WaitersOk, SnapperOk;
    hide KeysMatch, Before;
    var meta := st.files[OpOf(c, st.mode.rest[0]).name];
    LogLength(cfg, c, st);
    RootOfDelete(cfg, c, st, meta, t);
    DurableGrows(cfg, c, st, meta, true, st');
    AppendKeepsSnapshotNumber(cfg, c, st.wal, c.encMeta(meta), true);
    AppendedBefore(cfg, c, st.wal, st'.wal, st.layout, c.encMeta(meta), t);
  }

  lemma RotationKeepsSnapshotNumber(cfg: Config, c: Codec, w: Wal)
    ensures AddNewLogFile(cfg, c, w).wal.lastSnapshot == w.lastSnapshot
    ensures AddNewLogFile(cfg, c, w).wal.lastSeg >= w.lastSeg
  {
    hide LastNumber, Drain;
  }

  lemma AppendKeepsSnapshotNumber(cfg: Config, c: Codec, w: Wal, data: seq<byte>, isDelete: bool)
    ensures AppendEntry(cfg, c, w, data, isDelete).wal.lastSnapshot == w.lastSnapshot
    ensures AppendEntry(cfg, c, w, data, isDelete).wal.lastSeg >= w.lastSeg
  {
    hide AddNewLogFile, Frame;
    RotationKeepsSnapshotNumber(cfg, c, w);
    var w1 := RotateIf(w.curSize >= cfg.maxSize, cfg, c, w).wal;
    RotationKeepsSnapshotNumber(cfg, c, w1.(lastSeq := w1.lastSeq + 1));
  }

  lemma AppendedBefore(cfg: Config, c: Codec, w: Wal, w': Wal, layout: seq<seq<WalEntry>>, data: seq<byte>, t: nat)
    requires Rooted(cfg, w, layout, t) && w.lastSeg <= w'.lastSeg
    ensures t <= |layout| <= |Appended(c, w, w', layout, data, true)|
    ensures Before(Appended(c, w, w', layout, data, true), t - 1) == Before(layout, t - 1)
  {
    hide Flat;
    assert Appended(c, w, w', layout, data, true)[..t - 1] == layout[..t - 1];
  }

  lemma HalfRooted(cfg: Config, c: Codec, w: Wal, layout: seq<seq<WalEntry>>, k: nat, t: nat)
    requires Lossless(c) && Shape(cfg, c, w, layout) && cfg.maxSegs >= 2 && w.lastSeg < TWO_TO_64
    requires Rooted(cfg, w, layout, t) && w.lastSnapshot == 0 && HalfRotated(cfg, c, w, k).Some?
    ensures var w' := HalfRotated(cfg, c, w, k).value;
            Rooted(cfg, w', layout, t) && w'.lastSnapshot == 0 && w'.lastSeg == w.lastSeg
  {
    if |w.segs| >= cfg.maxSegs {
      RootedKeepsAll(cfg, c, w, layout, t);
    }
    hide Shape, Remove, Rooted;
    assert Spill(w, k).segs.Keys == w.segs.Keys;
    RootHasFile(cfg, w, layout, t);
    SameRoot(cfg, w, Spill(w, k), layout, layout, t);
  }

  lemma RootHasFile(cfg: Config, w: Wal, layout: seq<seq<WalEntry>>, t: nat)
    requires Rooted(cfg, w, layout, t)
    ensures 1 <= t <= |layout| && layout[t - 1] != []
  {
  }

  lemma RoomyInterrupt(cfg: Config, c: Codec, st: Sys, ev: Event, st': Sys, t: nat)
    requires Proper(cfg, c) && Inv(cfg, c, st) && LogOk(cfg, c, st) && LogOk(cfg, c, st') && Roomy(cfg, c, st, t)
    requires ev.InterruptReplay? && Next(cfg, c, st, ev) == Some(st')
    ensures Roomy(cfg, c, st', t)
  {
    InterruptReplayCarries(cfg, c, st, ev, st');
    DurableCount(cfg, c, st);
    DurableCount(cfg, c, st');
    LogIsShaped(cfg, c, st);
    hide LogOk, Inv, Next, Shape, Survived, Flat, Durable, Rooted, Before;
    var meta := InterruptReplayIs(cfg, c, st, ev, st');
    InterruptRoot(cfg, c, st, meta, true, ev.second, ev.created, ev.k, st', t);
  }

  lemma InterruptReplayIs(cfg: Config, c: Codec, st: Sys, ev: Event, st': Sys) returns (meta: FileMetadata)
    requires ev.InterruptReplay? && Next(cfg, c, st, ev) == Some(st')
    ensures DoInterrupt(cfg, c, st, meta, true, ev.second, ev.created, ev.k) == Some(st')
  {
    hide DoInterrupt, OpOf;
    meta := st.files[OpOf(c, st.mode.rest[0]).name];
  }

  lemma InterruptRoot(cfg: Config, c: Codec, st: Sys, meta: FileMetadata, isDelete: bool, second: bool,
                      created: bool, k: nat, st': Sys, t: nat)
    requires Proper(cfg, c) && Shape(cfg, c, st.wal, st.layout) && Rooted(cfg, st.wal, st.layout, t)
    requires st.wal.lastSnapshot == 0
    requires DoInterrupt(cfg, c, st, meta, isDelete, second, created, k) == Some(st')
    ensures Rooted(cfg, st'.wal, st'.layout, t) && st'.wal.lastSnapshot == 0
    ensures 1 <= t <= |st.layout| <= |st'.layout| && Before(st'.layout, t - 1) == Before(st.layout, t - 1)
  {
    PadOne(st.layout);
    RootFields(cfg, st.wal, st.layout, t);
    hide Shape, Flat, HalfRotated, AddNewLogFile, Rooted, OpenNext, Pad, Frame;
    if second {
      RootedRotates(cfg, c, st.wal, st.layout, t);
      OpenedFields(st.wal);
      HalfRooted(cfg, c, OpenNext(st.wal), st.layout + [[]], k, t);
      assert (st.layout + [[]])[..t - 1] == st.layout[..t - 1];
    } else {
      HalfRooted(cfg, c, st.wal, st.layout, k, t);
    }
  }

  lemma LandedRoot(cfg: Config, c: Codec, st: Sys, w: Wal, t: nat)
    requires Proper(cfg, c) && Inv(cfg, c, st) && LogOk(cfg, c, st)
    requires Rooted(cfg, st.wal, st.layout, t) && Before(st.layout, t - 1) < |Durable(cfg, c, st)|
    requires InitWal(cfg, c, Directory(st)) == Ok(w)
    ensures Rooted(cfg, w, Landed(c, st), t) && Before(Landed(c, st), t - 1) < |Durable(cfg, c, st)|
    ensures w.lastSnapshot == 0
  {
    DurableCount(cfg, c, st);
    LandedLength(cfg, c, st);
    RootHasFile(cfg, st.wal, st.layout, t);
    LandedBefore(cfg, c, st, t);
    hide LogOk, Inv, Landed, Survived, Flat, Durable, InitWal, Directory, Rooted, Before;
    RestartFields(cfg, c, st, w);
    LandedHolds(cfg, c, st, t);
    DirectoryRoot(cfg, st, w, Landed(c, st), t);
  }

  lemma RestartFields(cfg: Config, c: Codec, st: Sys, w: Wal)
    requires Proper(cfg, c) && Inv(cfg, c, st) && LogOk(cfg, c, st) && InitWal(cfg, c, Directory(st)) == Ok(w)
    ensures 1 <= st.wal.lastSeg == |st.layout| && st.wal.lastSeg in st.wal.segs
    ensures w.segs == Directory(st) && w.lastSeg == |Landed(c, st)| && w.lastSnapshot == 0
    ensures |Flat(Landed(c, st))| == |Survived(st.wal, st.layout)|
  {
    LogLength(cfg, c, st);
    hide LogOk, ModeOk, Landed, Survived, Flat, InitWal, Directory, Covered, Shape, Published, WaitersOk, SnapOk;
    hide SnapperOk, ReclaimOk, KeysMatch;
    RestartLog(cfg, c, st, w);
  }

  lemma DirectoryRoot(cfg: Config, st: Sys, w: Wal, layout: seq<seq<WalEntry>>, t: nat)
    requires Rooted(cfg, st.wal, st.layout, t) && w.segs == Directory(st) && w.lastSeg == |layout|
    requires w.lastSeg == st.wal.lastSeg + if st.rotation == Halted(true) then 1 else 0
    requires t <= |layout| && layout[t - 1] != []
    ensures Rooted(cfg, w, layout, t)
  {
    RootFields(cfg, st.wal, st.layout, t);
    if st.rotation == Halted(true) {
      hide Rooted;
      NewFileRoot(cfg, st.wal, w, st.layout, layout, t);
    } else {
      hide Rooted;
      SameRoot(cfg, st.wal, w, st.layout, layout, t);
    }
  }

  lemma RootFields(cfg: Config, w: Wal, layout: seq<seq<WalEntry>>, t: nat)
    requires Rooted(cfg, w, layout, t)
    ensures 1 <= t <= w.lastSeg == |layout| && w.lastSeg in w.segs
  {
  }

  lemma NewFileRoot(cfg: Config, w: Wal, w': Wal, layout: seq<seq<WalEntry>>, layout': seq<seq<WalEntry>>, t: nat)
    requires Rooted(cfg, w, layout, t) && w'.segs == w.segs[w.lastSeg + 1 := []] && w'.lastSeg == w.lastSeg + 1
    requires |layout'| == |layout| + 1 && layout'[t - 1] != []
    ensures Rooted(cfg, w', layout', t)
  {
    assert w'.segs.Keys == w.segs.Keys + {w.lastSeg + 1};
    SmallSum(w.segs.Keys, {w.lastSeg + 1});
    assert |w'.segs| == |w'.segs.Keys| && |w.segs| == |w.segs.Keys|;
  }

  /** The first entry of file t is on disk, so a crash leaves the file with an entry. */
  lemma LandedHolds(cfg: Config, c: Codec, st: Sys, t: nat)
    requires LogOk(cfg, c, st) && 1 <= t <= st.wal.lastSeg == |st.layout| <= |Landed(c, st)|
    requires Before(st.layout, t - 1) < |Flat(Landed(c, st))| && st.layout[t - 1] != []
    requires st.wal.lastSeg in st.wal.segs
    ensures Landed(c, st)[t - 1] != []
  {
    LandedBefore(cfg, c, st, t);
    LogLength(cfg, c, st);
    hide LogOk, Whole;
    var layout := Trimmed(c, st.wal, st.layout);
    FlatEmptySegment(layout);
    if t == st.wal.lastSeg {
      assert layout + [] == layout;
      assert Flat(Landed(c, st)) == Flat(layout);
      BeforeStep(layout, t);
      assert layout[..t] == layout && layout[..t - 1] == st.layout[..t - 1];
    }
  }

  lemma RoomyRestart(cfg: Config, c: Codec, st: Sys, st': Sys, t: nat)
    requires Proper(cfg, c) && Inv(cfg, c, st) && LogOk(cfg, c, st) && LogOk(cfg, c, st') && Roomy(cfg, c, st, t)
    requires DoRestart(cfg, c, st) == Some(st')
    ensures Roomy(cfg, c, st', t)
  {
    hide LogOk, Inv, InitWal, ReadAll, DecodeSnapshot, Landed, Rooted, Durable, Recoverable, Directory, Before;
    RestartStep(cfg, c, st, st');
    LandedRoot(cfg, c, st, st'.wal, t);
  }

  lemma RoomyStep(cfg: Config, c: Codec, st: Sys, ev: Event, st': Sys, t: nat)
    requires Proper(cfg, c) && Inv(cfg, c, st) && LogOk(cfg, c, st) && LogOk(cfg, c, st') && Roomy(cfg, c, st, t)
    requires RecoveryEvent(ev) && Next(cfg, c, st, ev) == Some(st')
    ensures Roomy(cfg, c, st', t)
  {
    hide LogOk, Inv, Roomy, DoRestart, DoReplayDelete, DoInterruptReplay, Survived, Flush, Spill, FiresNext, Proper;
    if ev.Restart? {
      RoomyRestart(cfg, c, st, st', t);
    } else if ev.ReplayDelete? {
      RoomyDelete(cfg, c, st, st', t);
    } else if ev.InterruptReplay? {
      RoomyInterrupt(cfg, c, st, ev, st', t);
    } else {
      LogLength(cfg, c, st);
      LogLength(cfg, c, st');
      QuietRecoveryStep(cfg, c, st, ev, st');
      RoomyForward(cfg, c, st, st', t);
    }
  }

  /** A cycle that begins with room has no refused delete in it. */
  lemma {:induction false} RoomyCycle(cfg: Config, c: Codec, evs: seq<Event>, st: Sys, cycle: seq<Event>, j: nat,
                                      m: Store, t: nat)
    requires Proper(cfg, c) && Run(cfg, c, evs) == Some(st) && Inv(cfg, c, st) && LogOk(cfg, c, st)
    requires Steady(cfg, c, st, m) && Calm(cfg, c, st, j, m) && Roomy(cfg, c, st, t)
    requires RunFreely(cfg, c, st, cycle).Some? && forall ev :: ev in cycle ==> RecoveryEvent(ev)
    ensures ReplayRefused !in cycle
    ensures var st' := RunFreely(cfg, c, st, cycle).value;
            Inv(cfg, c, st') && LogOk(cfg, c, st') && Roomy(cfg, c, st', t)
    decreases |cycle|
  {
    hide Inv, LogOk, Steady, Calm, Next, FreeNext, Proper, Roomy;
    if cycle != [] {
      var front, last := cycle[..|cycle| - 1], cycle[|cycle| - 1];
      assert last in cycle && forall ev :: ev in front ==> ev in cycle;
      RoomyCycle(cfg, c, evs, st, front, j, m, t);
      CycleStays(cfg, c, evs, st, front, j, m);
      var st1, st' := RunFreely(cfg, c, st, front).value, RunFreely(cfg, c, st, cycle).value;
      RoomyNeverRefuses(cfg, c, st1, t);
      CalmStep(cfg, c, st1, last, st', j, m);
      RoomyStep(cfg, c, st1, last, st', t);
      assert cycle == front + [last];
    }
  }

  lemma FirstRestartIsRoomy(cfg: Config, c: Codec, st: Sys, st': Sys) returns (t: nat)
    requires Proper(cfg, c) && Inv(cfg, c, st) && HasRoom(cfg, Directory(st)) && DoRestart(cfg, c, st) == Some(st')
    ensures Inv(cfg, c, st') && LogOk(cfg, c, st') && Roomy(cfg, c, st', t)
  {
    hide LogOk, Inv, InitWal, ReadAll, DecodeSnapshot, Landed, Rooted, Durable, Logged, Recoverable, Directory, RoomAt;
    hide Shape, Before, Flat;
    RestartStep(cfg, c, st, st');
    InvGivesLog(cfg, c, st);
    InvGivesLog(cfg, c, st');
    t :| RoomAt(cfg, Directory(st), t);
    BegunIsRooted(cfg, c, st, st'.wal, t);
    RootInLog(cfg, c, st', t);
  }

  lemma RootInLog(cfg: Config, c: Codec, st: Sys, t: nat)
    requires LogOk(cfg, c, st) && Rooted(cfg, st.wal, st.layout, t) && Durable(cfg, c, st) == Logged(cfg, c, st)
    ensures t <= |st.layout| && Before(st.layout, t - 1) < |Durable(cfg, c, st)|
  {
    hide Shape, Survived, Flat;
    BeforeStep(st.layout, t);
    FlatSplit(st.layout, t);
  }

  /** Recovery is stable. Let the restart after some run meet its condition. Then in whatever way the
      program goes on, through recovery steps and further crashes at any of them, in the middle of a
      rotation too, every later restart meets the condition as well, although it replays a log that the
      earlier ones appended deletes to; the log keeps its meaning, and a store that gets to serve again
      holds exactly the map of everything that was on disk at the first crash. All this as long as the log
      refuses no delete, which it never does if the directory of the first crash has room. */
  lemma RecoveryIsStable(cfg: Config, c: Codec, evs: seq<Event>, cycle: seq<Event>)
    requires Proper(cfg, c) && Run(cfg, c, evs + [Restart]).Some? && Run(cfg, c, evs).Some?
    requires RunFreely(cfg, c, After(cfg, c, evs + [Restart]), cycle).Some?
    requires forall ev :: ev in cycle ==> RecoveryEvent(ev)
    requires ReplayRefused !in cycle || HasRoom(cfg, Directory(After(cfg, c, evs)))
    ensures ReplayRefused !in cycle
    ensures var st := RunFreely(cfg, c, After(cfg, c, evs + [Restart]), cycle).value;
            var m := MapAfter(Durable(cfg, c, After(cfg, c, evs)));
            && Run(cfg, c, evs + [Restart] + cycle) == Some(st)
            && LogOk(cfg, c, st) && Steady(cfg, c, st, m) && MapAfter(Durable(cfg, c, st)) == m
            && (st.mode.Serving? ==> st.files == m)
  {
    hide Inv, LogOk, Steady, Calm, Roomy, HasRoom, Proper, Next, Durable, Logged, MapAfter, RunFreely;
    var first := evs + [Restart];
    assert first[..|first| - 1] == evs;
    var before, st0 := After(cfg, c, evs), After(cfg, c, first);
    var m := MapAfter(Durable(cfg, c, before));
    RestartIsNext(cfg, c, before, st0);
    RestartSteady(cfg, c, before, st0);
    var j := FirstRestartIsCalm(cfg, c, before, st0);
    if HasRoom(cfg, Directory(before)) {
      var t := FirstRestartIsRoomy(cfg, c, before, st0);
      RoomyCycle(cfg, c, first, st0, cycle, j, m, t);
    }
    CycleStays(cfg, c, first, st0, cycle, j, m);
    var st := RunFreely(cfg, c, st0, cycle).value;
    SteadyAll(cfg, c, st, m);
    SteadyServes(cfg, c, st, m);
  }
}
