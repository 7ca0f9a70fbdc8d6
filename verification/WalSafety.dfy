/** Every event keeps the invariant of the log machine. */
module WalSafety {
  import opened Results
  import opened Bytes
  import opened Frames
  import opened History
  import opened WalCodec
  import opened Layout
  import opened WalLog
  import opened WalScan
  import opened SnapshotFile
  import opened WalProtocol

  /** The runs considered: lossless codecs, and room for at least two segment files. */
  ghost predicate Proper(cfg: Config, c: Codec) {
    Lossless(c) && cfg.maxSegs >= 2
  }

  lemma OpsPrefix(c: Codec, es: seq<WalEntry>, es': seq<WalEntry>)
    requires AllGood(c, es') && es <= es'
    ensures AllGood(c, es) && Ops(c, es) <= Ops(c, es')
  {
    forall i | 0 <= i < |es| ensures Good(c, es[i]) && Ops(c, es')[i] == OpOf(c, es[i]) {
      assert es[i] == es'[i];
    }
  }

  lemma OpsSnoc(c: Codec, es: seq<WalEntry>, e: WalEntry)
    requires AllGood(c, es) && Good(c, e)
    ensures AllGood(c, es + [e]) && Ops(c, es + [e]) == Ops(c, es) + [OpOf(c, e)]
  {
  }

  /** A log that only grew keeps both snapshot files good. */
  lemma GrowthKeepsSnapshots(cfg: Config, c: Codec, st: Sys, st': Sys)
    requires LogOk(cfg, c, st) && LogOk(cfg, c, st')
    requires SnapOk(c, Durable(cfg, c, st), st.snap) && SnapperOk(c, Durable(cfg, c, st), st)
    requires Survived(st.wal, st.layout) <= Survived(st'.wal, st'.layout)
    requires st'.snap == st.snap && st'.snapper == st.snapper
    requires st.wal.lastSeq <= st'.wal.lastSeq && st.wal.lastSeg <= st'.wal.lastSeg
    ensures Durable(cfg, c, st) <= Durable(cfg, c, st')
    ensures SnapOk(c, Durable(cfg, c, st'), st'.snap) && SnapperOk(c, Durable(cfg, c, st'), st')
  {
    OpsPrefix(c, Survived(st.wal, st.layout), Survived(st'.wal, st'.layout));
    if st.snap.Some? {
      var (no, img) := DecodeSnapshot(c, st.snap.value).value;
      FreshGrows(Durable(cfg, c, st), Durable(cfg, c, st'), no, img);
    }
    if st.snapper.Cloned? {
      var (no, img) := DecodeSnapshot(c, st.snapper.image).value;
      FreshGrows(Durable(cfg, c, st), Durable(cfg, c, st'), no, img);
    }
  }

  // ---- Appending ----

  lemma ShapeGivesPrefix(cfg: Config, c: Codec, w: Wal, layout: seq<seq<WalEntry>>)
    requires Lossless(c) && Shape(cfg, c, w, layout)
    ensures 1 <= w.lastSeg == |layout| && w.lastSeg in w.segs && AllGood(c, Flat(layout))
    ensures Survived(w, layout) <= Flat(layout)
  {
  }

  /** The entry an append writes. */
  function NewEntry(c: Codec, w: Wal, meta: FileMetadata, isDelete: bool): (e: WalEntry) {
    MakeEntry(c, w.lastSeq + 1, c.encMeta(meta), isDelete)
  }

  function NewOp(meta: FileMetadata, isDelete: bool): (op: Op) {
    if isDelete then Del(meta.name) else Put(meta)
  }

  lemma NewEntryIsGood(c: Codec, w: Wal, meta: FileMetadata, isDelete: bool)
    requires Lossless(c) && Fits(c.encEntry(NewEntry(c, w, meta, isDelete)))
    ensures Good(c, NewEntry(c, w, meta, isDelete))
    ensures OpOf(c, NewEntry(c, w, meta, isDelete)) == NewOp(meta, isDelete)
  {
  }

  lemma AppendKeepsLog(cfg: Config, c: Codec, st: Sys, meta: FileMetadata, isDelete: bool, st': Sys)
    requires Proper(cfg, c) && LogOk(cfg, c, st) && ReclaimOk(c, st)
    requires DoAppend(cfg, c, st, meta, isDelete) == Some(st')
    ensures LogOk(cfg, c, st') && ReclaimOk(c, st')
    ensures Survived(st.wal, st.layout) <= Survived(st'.wal, st'.layout)
    ensures Flat(st'.layout) == Flat(st.layout) + [NewEntry(c, st.wal, meta, isDelete)]
    ensures st.wal.gen <= st'.wal.gen && st.wal.lastSeg <= st'.wal.lastSeg && st'.wal.lastSeq == st.wal.lastSeq + 1
    ensures st.wal.gen < st'.wal.gen ==> |Survived(st'.wal, st'.layout)| == |Flat(st.layout)|
  {
    hide AppendEntry, Shape, Survived, Flat, Covered, Appended, Published, Good;
    NewEntryIsGood(c, st.wal, meta, isDelete);
    AppendIsSafe(cfg, c, st.wal, st.layout, c.encMeta(meta), isDelete, Published(c, st.snap));
    ShapeGivesPrefix(cfg, c, st'.wal, st'.layout);
  }

  lemma AppendKeepsWaiters(ops: seq<Op>, op: Op, d: nat, d': nat, gen: nat, gen': nat, pending: map<nat, Waiter>)
    requires WaitersOk(ops, d, gen, pending)
    requires d <= d' && gen <= gen' && (gen < gen' ==> d' == |ops|)
    ensures WaitersOk(ops + [op], d', gen', pending[|ops| + 1 := Waiter(gen', op)])
  {
  }

  lemma AppendKeepsCore(cfg: Config, c: Codec, st: Sys, meta: FileMetadata, isDelete: bool, st': Sys)
    requires Proper(cfg, c) && Core(cfg, c, st) && DoAppend(cfg, c, st, meta, isDelete) == Some(st')
    ensures Core(cfg, c, st')
    ensures Logged(cfg, c, st') == Logged(cfg, c, st) + [NewOp(meta, isDelete)]
    ensures st'.pending == st.pending[|Logged(cfg, c, st')| := Waiter(st'.wal.gen, NewOp(meta, isDelete))]
  {
    hide ReclaimOk, Survived, Published, SnapOk, SnapperOk, KeysMatch, AppendEntry, Appended, WaitersOk, Shape, Flat,
         AllGood, Good;
    AppendKeepsLog(cfg, c, st, meta, isDelete, st');
    NewEntryIsGood(c, st.wal, meta, isDelete);
    ShapeGivesPrefix(cfg, c, st.wal, st.layout);
    OpsSnoc(c, Flat(st.layout), NewEntry(c, st.wal, meta, isDelete));
    GrowthKeepsSnapshots(cfg, c, st, st');
    AppendKeepsWaiters(Logged(cfg, c, st), NewOp(meta, isDelete), |Durable(cfg, c, st)|, |Durable(cfg, c, st')|,
                       st.wal.gen, st'.wal.gen, st.pending);
  }

  lemma AppendKeepsMap(ops: seq<Op>, ops': seq<Op>, waiting: set<nat>, waiting': set<nat>, files: Store)
    requires MapOk(ops, waiting, files)
    requires |ops'| == |ops| + 1 && ops <= ops' && waiting' == waiting + {|ops'|}
    ensures MapOk(ops', waiting', files)
  {
    forall x ensures Settled(ops', waiting', files, x) {
      assert Settled(ops, waiting, files, x);
      var p: nat :| Splits(ops, waiting, x, p) && Look(files, x) == Look(MapAfter(ops[..p]), x);
      assert ops'[..p] == ops[..p];
      assert Splits(ops', waiting', x, p);
    }
  }

  lemma ClientAppend(cfg: Config, c: Codec, st: Sys, meta: FileMetadata, isDelete: bool, st': Sys)
    requires Proper(cfg, c) && Inv(cfg, c, st) && st.mode.Serving?
    requires DoAppend(cfg, c, st, meta, isDelete) == Some(st')
    ensures Inv(cfg, c, st')
  {
    hide LogOk, MapOk, Logged, Durable, AppendEntry, Appended, SnapOk, ReclaimOk, WaitersOk, SnapperOk, KeysMatch;
    AppendKeepsCore(cfg, c, st, meta, isDelete, st');
    AppendKeepsMap(Logged(cfg, c, st), Logged(cfg, c, st'), st.pending.Keys, st'.pending.Keys, st.files);
  }

  // ---- Spilling, flushing and reclaiming ----

  lemma GrowthKeepsWaiters(ops: seq<Op>, d: nat, d': nat, gen: nat, gen': nat, pending: map<nat, Waiter>)
    requires WaitersOk(ops, d, gen, pending)
    requires d <= d' && gen <= gen' && (gen < gen' ==> d' == |ops|)
    ensures WaitersOk(ops, d', gen', pending)
  {
  }

  /** A step of the log alone, appending nothing. */
  lemma LogStep(cfg: Config, c: Codec, st: Sys, w: Wal)
    requires Proper(cfg, c) && Inv(cfg, c, st)
    requires Shape(cfg, c, w, st.layout) && Survived(st.wal, st.layout) <= Survived(w, st.layout)
    requires w.lastSeq == st.wal.lastSeq && w.lastSeg == st.wal.lastSeg && w.lastSnapshot == st.wal.lastSnapshot
    requires Covered(w.segs.Keys, st.layout, Published(c, st.snap))
    requires st.wal.gen <= w.gen && (st.wal.gen < w.gen ==> Survived(w, st.layout) == Flat(st.layout))
    ensures Inv(cfg, c, st.(wal := w))
  {
    var st' := st.(wal := w);
    hide Shape, Survived, Flat, Covered, Published, SnapOk, SnapperOk, WaitersOk, MapOk, ReplayOk, KeysMatch;
    ShapeGivesPrefix(cfg, c, w, st.layout);
    GrowthKeepsSnapshots(cfg, c, st, st');
    GrowthKeepsWaiters(Logged(cfg, c, st), |Durable(cfg, c, st)|, |Durable(cfg, c, st')|, st.wal.gen, w.gen,
                       st.pending);
  }

  lemma SpillStep(cfg: Config, c: Codec, st: Sys, k: nat)
    requires Proper(cfg, c) && Inv(cfg, c, st) && k <= |st.wal.buf|
    ensures Inv(cfg, c, st.(wal := Spill(st.wal, k)))
  {
    hide Shape, Survived, SnapOk, SnapperOk, WaitersOk, MapOk, ReplayOk, KeysMatch, Published;
    SpillKeepsShape(cfg, c, st.wal, st.layout, k);
    assert st.wal.lastSeg in st.wal.segs by {
      ShapeGivesPrefix(cfg, c, st.wal, st.layout);
    }
    assert Spill(st.wal, k).segs.Keys == st.wal.segs.Keys;
    LogStep(cfg, c, st, Spill(st.wal, k));
  }

  lemma FlushStep(cfg: Config, c: Codec, st: Sys)
    requires Proper(cfg, c) && Inv(cfg, c, st)
    ensures Inv(cfg, c, st.(wal := Flush(st.wal)))
    ensures Survived(Flush(st.wal), st.layout) == Flat(st.layout)
  {
    hide Shape, Survived, SnapOk, SnapperOk, WaitersOk, MapOk, ReplayOk, KeysMatch, Published, Flat;
    FlushKeepsShape(cfg, c, st.wal, st.layout);
    assert st.wal.lastSeg in st.wal.segs by {
      ShapeGivesPrefix(cfg, c, st.wal, st.layout);
    }
    assert Flush(st.wal).segs.Keys == st.wal.segs.Keys;
    LogStep(cfg, c, st, Flush(st.wal));
  }

  lemma ReclaimStep(cfg: Config, c: Codec, st: Sys, seg: nat, st': Sys)
    requires Proper(cfg, c) && Inv(cfg, c, st) && DoReclaim(c, st, seg) == Some(st')
    ensures Inv(cfg, c, st')
  {
    hide Shape, Survived, SnapOk, WaitersOk, MapOk, ReplayOk, KeysMatch, Published, Flat, Remove;
    if Remove(c, st.wal, seg).Done? {
      RemoveIsSafe(cfg, c, st.wal, st.layout, seg, Published(c, st.snap));
      LogStep(cfg, c, st, Remove(c, st.wal, seg).wal);
    }
  }

  // ---- An append cut short in a rotation ----

  /** An empty segment more changes nothing that the rest depends on. */
  lemma EmptySegmentStep(cfg: Config, c: Codec, st: Sys, w: Wal)
    requires Proper(cfg, c) && Inv(cfg, c, st) && !st.rotation.Halted? && w.lastSeg + 1 < TWO_TO_64
    requires Rotated(cfg, c, st.wal, st.layout, w, st.layout + [[]], Published(c, st.snap))
    requires w.lastSeq == st.wal.lastSeq
    ensures Inv(cfg, c, st.(wal := w, layout := st.layout + [[]]))
  {
    var st' := st.(wal := w, layout := st.layout + [[]]);
    hide Shape, Survived, Flat, Covered, Published, SnapOk, SnapperOk, WaitersOk, MapOk, ReplayOk, KeysMatch, Pad;
    ShapeGivesPrefix(cfg, c, w, st'.layout);
    GrowthKeepsSnapshots(cfg, c, st, st');
    GrowthKeepsWaiters(Logged(cfg, c, st), |Durable(cfg, c, st)|, |Durable(cfg, c, st')|, st.wal.gen, w.gen,
                       st.pending);
  }

  /** Nothing that had survived is lost, nothing is logged, and a generation that is closed was whole on
      disk. */
  ghost predicate Carries(cfg: Config, c: Codec, st: Sys, st': Sys) {
    && Inv(cfg, c, st') && LogOk(cfg, c, st) && LogOk(cfg, c, st')
    && Flat(st'.layout) == Flat(st.layout) && Survived(st.wal, st.layout) <= Survived(st'.wal, st'.layout)
    && st.wal.gen <= st'.wal.gen
    && (st.wal.gen < st'.wal.gen ==> Survived(st'.wal, st'.layout) == Flat(st.layout))
  }

  lemma CarriesOn(cfg: Config, c: Codec, st: Sys, st1: Sys, st2: Sys)
    requires Carries(cfg, c, st, st1) && Carries(cfg, c, st1, st2)
    ensures Carries(cfg, c, st, st2)
  {
    hide Inv, LogOk, Flat, Survived;
    SurvivorsLogged(cfg, c, st2);
  }

  lemma SurvivorsLogged(cfg: Config, c: Codec, st: Sys)
    requires LogOk(cfg, c, st)
    ensures Survived(st.wal, st.layout) <= Flat(st.layout)
  {
    hide Shape, Survived, Flat;
  }

  /** Removing the oldest file and handing over part of the buffer. */
  lemma HalfRotationStep(cfg: Config, c: Codec, st: Sys, k: nat)
    requires Proper(cfg, c) && Inv(cfg, c, st) && HalfRotated(cfg, c, st.wal, k).Some?
    ensures Carries(cfg, c, st, st.(wal := HalfRotated(cfg, c, st.wal, k).value))
    ensures HalfRotated(cfg, c, st.wal, k).value.lastSeg == st.wal.lastSeg
  {
    hide Shape, Survived, SnapOk, SnapperOk, WaitersOk, MapOk, ReplayOk, KeysMatch, Published, Remove, Flat;
    if |st.wal.segs| >= cfg.maxSegs {
      assert Oldest(cfg, st.wal) != st.wal.lastSeg by {
        OldestIsOlder(cfg, c, st.wal, st.layout);
      }
      RemoveIsSafe(cfg, c, st.wal, st.layout, Oldest(cfg, st.wal), Published(c, st.snap));
      var w1 := Remove(c, st.wal, Oldest(cfg, st.wal)).wal;
      LogStep(cfg, c, st, w1);
      SpillStep(cfg, c, st.(wal := w1), k);
      SpillKeepsShape(cfg, c, w1, st.layout, k);
    } else {
      SpillStep(cfg, c, st, k);
      SpillKeepsShape(cfg, c, st.wal, st.layout, k);
    }
  }

  lemma FirstRotationStep(cfg: Config, c: Codec, st: Sys)
    requires Proper(cfg, c) && Inv(cfg, c, st) && !st.rotation.Halted? && st.wal.lastSeg + 2 < TWO_TO_64
    requires AddNewLogFile(cfg, c, st.wal).Done?
    ensures Carries(cfg, c, st, st.(wal := AddNewLogFile(cfg, c, st.wal).wal, layout := st.layout + [[]]))
    ensures AddNewLogFile(cfg, c, st.wal).wal.lastSeg == st.wal.lastSeg + 1 == |st.layout| + 1
  {
    hide Shape, Survived, SnapOk, SnapperOk, WaitersOk, MapOk, ReplayOk, KeysMatch, Published, AddNewLogFile, Flat, Pad;
    RotationIsSafe(cfg, c, st.wal, st.layout, Published(c, st.snap));
    ShapeGivesPrefix(cfg, c, st.wal, st.layout);
    EmptySegmentStep(cfg, c, st, AddNewLogFile(cfg, c, st.wal).wal);
  }

  lemma PadOne(layout: seq<seq<WalEntry>>)
    ensures Pad(layout, |layout|) == layout && Pad(layout, |layout| + 1) == layout + [[]]
  {
  }

  lemma InterruptStep(cfg: Config, c: Codec, st: Sys, meta: FileMetadata, isDelete: bool, second: bool,
                      created: bool, k: nat, st': Sys)
    requires Proper(cfg, c) && Inv(cfg, c, st)
    requires DoInterrupt(cfg, c, st, meta, isDelete, second, created, k) == Some(st')
    ensures Carries(cfg, c, st, st') && st'.mode == st.mode && st'.snap == st.snap
  {
    hide Inv, HalfRotated, AddNewLogFile, Pad, Carries;
    PadOne(st.layout);
    LayoutLength(cfg, c, st);
    var st1 := st;
    if second {
      FirstRotationStep(cfg, c, st);
      st1 := st.(wal := AddNewLogFile(cfg, c, st.wal).wal, layout := st.layout + [[]]);
      CarriedInv(cfg, c, st, st1);
    }
    HalfRotationStep(cfg, c, st1, k);
    var st2 := st1.(wal := HalfRotated(cfg, c, st1.wal, k).value);
    CarriedInv(cfg, c, st1, st2);
    if second {
      CarriesOn(cfg, c, st, st1, st2);
    }
    HaltingStep(cfg, c, st2, created);
    CarriesOn(cfg, c, st, st2, st2.(rotation := Halted(created)));
  }

  lemma CarriedInv(cfg: Config, c: Codec, st: Sys, st': Sys)
    requires Carries(cfg, c, st, st')
    ensures Inv(cfg, c, st')
  {
    hide Inv, LogOk, Survived, Flat;
  }

  lemma LayoutLength(cfg: Config, c: Codec, st: Sys)
    requires Inv(cfg, c, st)
    ensures st.wal.lastSeg == |st.layout|
  {
    hide GoodLayout, Survived, Flat, EncodeFile;
  }

  lemma HaltingStep(cfg: Config, c: Codec, st: Sys, created: bool)
    requires Inv(cfg, c, st) && st.wal.lastSeg + 1 < TWO_TO_64
    ensures Carries(cfg, c, st, st.(rotation := Halted(created)))
  {
    hide Shape, Survived, Flat, Covered, Published, SnapOk, SnapperOk, WaitersOk, MapOk, ReplayOk, KeysMatch;
    var st' := st.(rotation := Halted(created));
    assert LogOk(cfg, c, st');
    assert Logged(cfg, c, st') == Logged(cfg, c, st) && Durable(cfg, c, st') == Durable(cfg, c, st);
    SnapperSame(c, Durable(cfg, c, st), st, st');
  }

  lemma SnapperSame(c: Codec, durable: seq<Op>, st: Sys, st': Sys)
    requires SnapperOk(c, durable, st) && st'.snapper == st.snapper && st'.snap == st.snap && st'.wal == st.wal
    ensures SnapperOk(c, durable, st')
  {
    hide GoodImage, Published;
  }

  // ---- The map ----

  /** The name an update is of: exactly the operations up to it have reached the map. */
  lemma UpdateSettles(ops: seq<Op>, pending: map<nat, Waiter>, files: Store, entry: nat)
    requires entry in pending && 1 <= entry <= |ops| && pending[entry].op == ops[entry - 1]
    requires forall j :: j in pending ==> 1 <= j <= |ops| && pending[j].op == ops[j - 1]
    requires forall j :: j in pending && j < entry ==> pending[j].op.Key() != pending[entry].op.Key()
    requires Settled(ops, pending.Keys, files, pending[entry].op.Key())
    ensures Settled(ops, pending.Keys - {entry}, ApplyOp(files, pending[entry].op), pending[entry].op.Key())
  {
    hide Replay;
    var op := pending[entry].op;
    var x, waiting := op.Key(), pending.Keys - {entry};
    var p: nat :| Splits(ops, pending.Keys, x, p) && Look(files, x) == Look(MapAfter(ops[..p]), x);
    forall i | 0 <= i < |ops| && ops[i].Key() == x ensures i < entry <==> i + 1 !in waiting {
      assert i + 1 in pending ==> pending[i + 1].op.Key() == x;
    }
    assert Splits(ops, waiting, x, entry);
    LookApply(files, op, x);
    UpToEntry(ops, entry);
    LookApply(MapAfter(ops[..entry - 1]), op, x);
  }

  lemma UpToEntry(ops: seq<Op>, n: nat)
    requires 1 <= n <= |ops|
    ensures MapAfter(ops[..n]) == ApplyOp(MapAfter(ops[..n - 1]), ops[n - 1])
  {
    assert ops[..n][..n - 1] == ops[..n - 1];
  }

  lemma UpdateSparesOthers(ops: seq<Op>, waiting: set<nat>, files: Store, entry: nat, x: string)
    requires 1 <= entry <= |ops| && ops[entry - 1].Key() != x && Settled(ops, waiting, files, x)
    ensures Settled(ops, waiting - {entry}, ApplyOp(files, ops[entry - 1]), x)
  {
    hide Replay;
    var p: nat :| Splits(ops, waiting, x, p) && Look(files, x) == Look(MapAfter(ops[..p]), x);
    assert Splits(ops, waiting - {entry}, x, p);
    LookApply(files, ops[entry - 1], x);
  }

  /** An appender's update, taken in log order among those of its name. */
  lemma UpdateKeepsMap(ops: seq<Op>, pending: map<nat, Waiter>, files: Store, entry: nat)
    requires MapOk(ops, pending.Keys, files)
    requires entry in pending && 1 <= entry <= |ops| && pending[entry].op == ops[entry - 1]
    requires forall j :: j in pending ==> 1 <= j <= |ops| && pending[j].op == ops[j - 1]
    requires forall j :: j in pending && j < entry ==> pending[j].op.Key() != pending[entry].op.Key()
    ensures MapOk(ops, (pending - {entry}).Keys, ApplyOp(files, pending[entry].op))
  {
    hide Settled, ApplyOp;
    var op := pending[entry].op;
    assert (pending - {entry}).Keys == pending.Keys - {entry};
    forall x ensures Settled(ops, pending.Keys - {entry}, ApplyOp(files, op), x) {
      assert Settled(ops, pending.Keys, files, x);
      if op.Key() == x {
        UpdateSettles(ops, pending, files, entry);
      } else {
        UpdateSparesOthers(ops, pending.Keys, files, entry, x);
      }
    }
  }

  lemma UpdateKeepsWaiters(ops: seq<Op>, d: nat, gen: nat, pending: map<nat, Waiter>, entry: nat)
    requires WaitersOk(ops, d, gen, pending)
    requires entry in pending && pending[entry].gen < gen
    ensures WaitersOk(ops, d, gen, pending - {entry})
  {
  }

  lemma UpdateStep(cfg: Config, c: Codec, st: Sys, entry: nat, st': Sys)
    requires Proper(cfg, c) && Inv(cfg, c, st) && st.mode.Serving? && DoUpdate(st, entry) == Some(st')
    ensures Inv(cfg, c, st')
  {
    hide Shape, Survived, Flat, Covered, Published, MapOk;
    UpdateKeepsMap(Logged(cfg, c, st), st.pending, st.files, entry);
    UpdateKeepsWaiters(Logged(cfg, c, st), |Durable(cfg, c, st)|, st.wal.gen, st.pending, entry);
  }

  lemma MapOkWhenEqual(ops: seq<Op>, files: Store)
    requires files == MapAfter(ops)
    ensures MapOk(ops, {}, files)
  {
    forall x ensures Settled(ops, {}, files, x) {
      assert ops[..|ops|] == ops;
      assert Splits(ops, {}, x, |ops|);
    }
  }

  // ---- Snapshots ----

  /** If no entry up to the captured number is still on its way to the map, the clone holds every
      name as of some durable point after that number. */
  lemma CloneIsFresh(ops: seq<Op>, durable: seq<Op>, gen: nat, pending: map<nat, Waiter>, files: Store, no: nat)
    requires WaitersOk(ops, |durable|, gen, pending) && durable <= ops && MapOk(ops, pending.Keys, files)
    requires no <= |ops| && forall j :: j in pending ==> j > no
    ensures no <= |durable| && Fresh(durable, no, files)
  {
    assert no == 0 || no !in pending;
    forall x ensures Caught(durable, no, files, x) {
      assert Settled(ops, pending.Keys, files, x);
      var p: nat :| Splits(ops, pending.Keys, x, p) && Look(files, x) == Look(MapAfter(ops[..p]), x);
      var q := if p > |durable| then |durable| else if p < no then no else p;
      if p > q {
        UntouchedBetween(ops, q, p, x);
      } else {
        UntouchedBetween(ops, p, q, x);
      }
      assert durable[..q] == ops[..q];
    }
  }

  lemma CloneStep(cfg: Config, c: Codec, st: Sys, order: seq<string>, st': Sys)
    requires Proper(cfg, c) && Inv(cfg, c, st) && DoClone(c, st, order) == Some(st')
    ensures Inv(cfg, c, st')
  {
    hide Shape, Survived, Flat, Covered, MapOk, WaitersOk, Fresh, DecodeSnapshot, Image, KeysMatch;
    CloneIsFresh(Logged(cfg, c, st), Durable(cfg, c, st), st.wal.gen, st.pending, st.files, st.snapper.no);
    SnapshotRoundTrip(c, st.snapper.no, st.files, order);
  }

  lemma CaptureStep(cfg: Config, c: Codec, st: Sys)
    requires Proper(cfg, c) && Inv(cfg, c, st) && st.snapper.Idle? && st.mode.Serving?
    ensures Inv(cfg, c, st.(snapper := Captured(st.wal.lastSeq, st.wal.lastSeg)))
  {
    hide Shape, Survived, Flat, Covered, MapOk, WaitersOk, Fresh, DecodeSnapshot, KeysMatch;
  }

  lemma WriteTmpStep(cfg: Config, c: Codec, st: Sys, k: nat, st': Sys)
    requires Inv(cfg, c, st) && DoWriteTmp(st, k) == Some(st')
    ensures Inv(cfg, c, st')
  {
    hide Shape, Survived, Flat, Covered, MapOk, WaitersOk, Fresh, DecodeSnapshot, KeysMatch, ReplayOk, Overlay;
  }

  lemma RenameStep(cfg: Config, c: Codec, st: Sys, st': Sys)
    requires Inv(cfg, c, st) && DoRename(st) == Some(st')
    ensures Inv(cfg, c, st')
  {
    hide Shape, Survived, Flat, Before, MapOk, WaitersOk, Fresh, DecodeSnapshot, KeysMatch, ReplayOk;
    assert Overlay(st.snapper.image, st.tmp) == st.snapper.image;
  }

  lemma RecordStep(cfg: Config, c: Codec, st: Sys)
    requires Inv(cfg, c, st) && st.snapper.Renamed?
    ensures Inv(cfg, c, st.(wal := st.wal.(lastSnapshot := st.snapper.no), snapper := Cleaning(st.snapper.seg)))
  {
    hide GoodLayout, Whole, Flat, Covered, MapOk, WaitersOk, Fresh, DecodeSnapshot, KeysMatch, ReplayOk;
    assert Survived(st.wal.(lastSnapshot := st.snapper.no), st.layout) == Survived(st.wal, st.layout);
  }

  // ---- Crash and recovery ----

  /** What start-up finds after a crash in a good state: the well-shaped log of what survived. */
  lemma RestartLog(cfg: Config, c: Codec, st: Sys, w: Wal)
    requires Proper(cfg, c) && Core(cfg, c, st) && InitWal(cfg, c, Directory(st)) == Ok(w)
    ensures var layout := Landed(c, st);
            && Shape(cfg, c, w, layout) && Covered(w.segs.Keys, layout, Published(c, st.snap))
            && Flat(layout) == Survived(st.wal, st.layout) == Survived(w, layout)
            && w.segs == Directory(st) && w.lastSeg == |layout| < TWO_TO_64 && st.wal.lastSeg == |st.layout|
            && w.lastSeq == |Flat(layout)| && w.lastSnapshot == 0 && w.buf == [] && w.gen == 0
  {
    hide Survived, Flat, Published, InitWal, SnapOk, SnapperOk, WaitersOk, Covered, Trimmed, Shape;
    LogLength(cfg, c, st);
    TrimmedCovered(c, st.wal, st.layout, Published(c, st.snap));
    if st.rotation == Halted(true) {
      TornResumesNumbering(cfg, c, st.wal, st.layout);
      TornCovered(c, st, Published(c, st.snap));
    } else {
      InitResumesNumbering(cfg, c, st.wal, st.layout);
      assert Landed(c, st) == Trimmed(c, st.wal, st.layout);
    }
  }

  lemma LogLength(cfg: Config, c: Codec, st: Sys)
    requires LogOk(cfg, c, st)
    ensures 1 <= st.wal.lastSeg == |st.layout| == |Trimmed(c, st.wal, st.layout)| && st.wal.lastSeg in st.wal.segs
  {
    hide GoodLayout, Survived, Flat, EncodeFile, Whole;
  }

  lemma TornCovered(c: Codec, st: Sys, no: nat)
    requires st.rotation == Halted(true) && st.wal.lastSeg in st.wal.segs
    requires 1 <= st.wal.lastSeg == |Trimmed(c, st.wal, st.layout)|
    requires Covered(st.wal.segs.Keys, Trimmed(c, st.wal, st.layout), no)
    ensures Covered(Directory(st).Keys, Landed(c, st), no)
  {
    hide Covered, Trimmed;
    CoveredGrows(st.wal.segs.Keys, Trimmed(c, st.wal, st.layout), Directory(st).Keys, Landed(c, st), no);
  }

  lemma TrimmedCovered(c: Codec, w: Wal, layout: seq<seq<WalEntry>>, no: nat)
    requires Covered(w.segs.Keys, layout, no) && 1 <= w.lastSeg == |layout| && w.lastSeg in w.segs
    ensures Covered(w.segs.Keys, Trimmed(c, w, layout), no)
  {
    hide Whole;
    forall s | 1 <= s <= |layout| && s !in w.segs.Keys ensures Before(Trimmed(c, w, layout), s) <= no {
      assert Trimmed(c, w, layout)[..s] == layout[..s];
    }
  }

  lemma OpsDrop(c: Codec, es: seq<WalEntry>, j: nat)
    requires AllGood(c, es) && j <= |es|
    ensures AllGood(c, es[j..]) && Ops(c, es[j..]) == Ops(c, es)[j..]
  {
  }

  /** The scan yields a suffix of the surviving log that starts no later than the snapshot's number. */
  lemma ScanStartsInTime(cfg: Config, c: Codec, w: Wal, layout: seq<seq<WalEntry>>, no: nat, es: seq<WalEntry>)
    requires Proper(cfg, c) && Shape(cfg, c, w, layout) && Survived(w, layout) == Flat(layout)
    requires w.buf == [] && w.lastSeg < TWO_TO_64 && Covered(w.segs.Keys, layout, no)
    requires ReadAll(c, w.segs, w.lastSeg, |Flat(layout)|) == Ok(es)
    ensures exists j: nat :: j <= no && j <= |Flat(layout)| && es == Flat(layout)[j..]
  {
    hide Flat, Survived, ReadAll, GoodLayout, AllGood, EncodeFile;
    assert WholeFiles(c, w.segs, layout, |layout|) && Numbered(Flat(layout)) by {
      LastFileWhole(cfg, c, w, layout);
    }
    ScanIsExact(c, w.segs, layout);
    var s := w.lastSeg - |w.segs|;
    var j := Before(layout, s);
    if s > 0 {
      assert s !in w.segs.Keys;
    } else {
      hide *;
      EmptyBefore(layout);
    }
  }

  lemma EmptyBefore(layout: seq<seq<WalEntry>>)
    ensures Before(layout, 0) == 0
  {
    assert layout[..0] == [];
  }

  lemma LastFileWhole(cfg: Config, c: Codec, w: Wal, layout: seq<seq<WalEntry>>)
    requires Shape(cfg, c, w, layout) && w.buf == []
    ensures WholeFiles(c, w.segs, layout, |layout|) && Numbered(Flat(layout))
  {
    assert w.segs[w.lastSeg] + w.buf == w.segs[w.lastSeg];
  }

  /** Start-up from the directory of a good state, as far as it goes: the fields it initialises, the
      published snapshot and the entries it is going to replay. */
  ghost predicate Starts(cfg: Config, c: Codec, st: Sys, w: Wal, no: nat, img: Store, es: seq<WalEntry>) {
    && InitWal(cfg, c, Directory(st)) == Ok(w)
    && st.snap.Some? && DecodeSnapshot(c, st.snap.value) == Ok((no, img))
    && ReadAll(c, w.segs, w.lastSeg, w.lastSeq) == Ok(es)
  }

  /** The retained entries, replayed without a filter on the snapshot, give the map of everything
      that reached the disk. */
  lemma ReplayReachesDurableMap(cfg: Config, c: Codec, st: Sys, w: Wal, no: nat, img: Store, es: seq<WalEntry>)
    requires Proper(cfg, c) && Core(cfg, c, st) && Starts(cfg, c, st, w, no, img, es)
    ensures w.lastSeq == |Durable(cfg, c, st)|
    ensures AllGood(c, es) && Replay(img, Ops(c, es)) == MapAfter(Durable(cfg, c, st))
  {
    var layout := Landed(c, st);
    RestartLog(cfg, c, st, w);
    hide Flat, Survived, ReadAll, Covered, AllGood, InitWal, Landed, SnapperOk, WaitersOk, GoodLayout,
         DecodeSnapshot, Fresh, KeysMatch, Replay;
    ScanStartsInTime(cfg, c, w, layout, no, es);
    var j: nat :| j <= no && j <= |Flat(layout)| && es == Flat(layout)[j..];
    assert AllGood(c, Flat(layout)) by {
      hide *;
      ShapeGivesPrefix(cfg, c, w, layout);
    }
    OpsDrop(c, Flat(layout), j);
    OverlapNeedsNoFilter(Durable(cfg, c, st), no, img, j);
  }

  lemma RestartCore(cfg: Config, c: Codec, st: Sys, st': Sys)
    requires Proper(cfg, c) && Core(cfg, c, st) && InitWal(cfg, c, Directory(st)) == Ok(st'.wal)
    requires st'.layout == Landed(c, st) && st'.snap == st.snap && st'.rotation == Complete
    requires st'.pending == map[] && st'.snapper == Idle && KeysMatch(st'.files)
    ensures Core(cfg, c, st') && Durable(cfg, c, st') == Logged(cfg, c, st') == Durable(cfg, c, st)
  {
    hide InitWal, Landed, Survived, Flat, Covered, Shape, Fresh, DecodeSnapshot, KeysMatch, Published;
    RestartLog(cfg, c, st, st'.wal);
    ShapeGivesPrefix(cfg, c, st'.wal, st'.layout);
    assert LogOk(cfg, c, st');
  }

  lemma RestartStep(cfg: Config, c: Codec, st: Sys, st': Sys)
    requires Proper(cfg, c) && Inv(cfg, c, st) && DoRestart(cfg, c, st) == Some(st')
    ensures Inv(cfg, c, st') && Durable(cfg, c, st') == Logged(cfg, c, st') == Durable(cfg, c, st)
    ensures st'.snap == st.snap
  {
    hide InitWal, Landed, LogOk, ReclaimOk, ReadAll, DecodeSnapshot, MapOk, ReplayOk, Fresh, WaitersOk, SnapperOk,
         Survived, Revives;
    if st.snap.None? {
      RestartCore(cfg, c, st, st');
      MapOkWhenEqual(Logged(cfg, c, st'), map[]);
      assert st'.pending.Keys == {};
    } else {
      var (no, img) := DecodeSnapshot(c, st.snap.value).value;
      RestartCore(cfg, c, st, st');
      ReplayReachesDurableMap(cfg, c, st, st'.wal, no, img, st'.mode.rest);
      ReplayOkAtStart(c, Logged(cfg, c, st'), img, st'.mode.rest);
    }
  }

  lemma ReplayOkAtStart(c: Codec, ops: seq<Op>, img: Store, es: seq<WalEntry>)
    requires AllGood(c, es) && !Revives(img, Ops(c, es)) && Replay(img, Ops(c, es)) == MapAfter(ops)
    ensures ReplayOk(c, ops, img, map[], es, |ops|)
  {
    assert ops[..|ops|] == ops;
  }

  // ---- Replaying ----

  lemma ReplayTakesNext(c: Codec, ops: seq<Op>, files: Store, pending: map<nat, Waiter>, rest: seq<WalEntry>, upto: nat)
    requires ReplayOk(c, ops, files, pending, rest, upto) && rest != []
    ensures ReplayOk(c, ops, ApplyOp(files, OpOf(c, rest[0])), map[], rest[1..], upto)
  {
    OpsDrop(c, rest, 1);
    ReplayFront(files, Ops(c, rest));
  }

  lemma ApplyKeepsKeys(files: Store, op: Op)
    requires KeysMatch(files)
    ensures KeysMatch(ApplyOp(files, op))
  {
  }

  lemma ReplayNextStep(cfg: Config, c: Codec, st: Sys, st': Sys)
    requires Proper(cfg, c) && Inv(cfg, c, st) && DoReplayNext(c, st) == Some(st')
    ensures Inv(cfg, c, st')
  {
    hide Shape, Survived, Flat, Covered, SnapOk, WaitersOk, ReplayOk, KeysMatch, Published, ApplyOp;
    assert AllGood(c, st.mode.rest) by {
      ReplayRestGood(c, Logged(cfg, c, st), st.files, st.pending, st.mode.rest, st.mode.upto);
    }
    ReplayTakesNext(c, Logged(cfg, c, st), st.files, st.pending, st.mode.rest, st.mode.upto);
    ApplyKeepsKeys(st.files, OpOf(c, st.mode.rest[0]));
  }

  lemma ReplayRestGood(c: Codec, ops: seq<Op>, files: Store, pending: map<nat, Waiter>, rest: seq<WalEntry>, upto: nat)
    requires ReplayOk(c, ops, files, pending, rest, upto)
    ensures AllGood(c, rest)
  {
  }

  /** A replayed delete that fires names something the replay ends without. */
  lemma FiredIsAbsent(c: Codec, ops: seq<Op>, files: Store, pending: map<nat, Waiter>, rest: seq<WalEntry>, upto: nat)
    requires ReplayOk(c, ops, files, pending, rest, upto) && rest != []
    requires OpOf(c, rest[0]).Del? && OpOf(c, rest[0]).name in files
    ensures OpOf(c, rest[0]).name !in MapAfter(ops[..upto])
  {
    assert Ops(c, rest)[0] == OpOf(c, rest[0]);
    AliveAfterDelete(files, Ops(c, rest));
  }

  lemma ReplayLogsDelete(c: Codec, ops: seq<Op>, ops': seq<Op>, files: Store, rest: seq<WalEntry>, upto: nat, gen: nat)
    requires ReplayOk(c, ops, files, map[], rest, upto) && rest != []
    requires OpOf(c, rest[0]).Del? && OpOf(c, rest[0]).name in files
    requires ops' == ops + [OpOf(c, rest[0])]
    ensures ReplayOk(c, ops', files, map[|ops'| := Waiter(gen, OpOf(c, rest[0]))], rest, upto)
  {
    FiredIsAbsent(c, ops, files, map[], rest, upto);
    assert ops'[..upto] == ops[..upto];
  }

  lemma ReplayDeleteStep(cfg: Config, c: Codec, st: Sys, st': Sys)
    requires Proper(cfg, c) && Inv(cfg, c, st) && DoReplayDelete(cfg, c, st) == Some(st')
    ensures Inv(cfg, c, st')
  {
    hide LogOk, Logged, Durable, AppendEntry, Appended, SnapOk, ReclaimOk, WaitersOk, SnapperOk, ReplayOk, Published,
         Fits;
    var op := OpOf(c, st.mode.rest[0]);
    AppendKeepsCore(cfg, c, st, st.files[op.name], true, st');
    ReplayLogsDelete(c, Logged(cfg, c, st), Logged(cfg, c, st'), st.files, st.mode.rest, st.mode.upto, st'.wal.gen);
  }

  lemma ReplayDeleteDoneStep(cfg: Config, c: Codec, st: Sys, st': Sys)
    requires Proper(cfg, c) && Inv(cfg, c, st) && DoReplayDeleteDone(st) == Some(st')
    ensures Inv(cfg, c, st')
  {
    var n := st.wal.lastSeq;
    hide Shape, Survived, Flat, Covered, SnapOk, WaitersOk, Published, ApplyOp, KeysMatch, Revives, Replay, AllGood;
    UpdateKeepsWaiters(Logged(cfg, c, st), |Durable(cfg, c, st)|, st.wal.gen, st.pending, n);
    assert st.pending - {n} == map[];
    hide ReplayOk;
    ReplayTakesNext(c, Logged(cfg, c, st), st.files, st.pending, st.mode.rest, st.mode.upto);
    ApplyKeepsKeys(st.files, st.pending[n].op);
  }

  lemma ReplayEnds(c: Codec, ops: seq<Op>, files: Store, upto: nat)
    requires ReplayOk(c, ops, files, map[], [], upto)
    ensures files == MapAfter(ops)
  {
    assert Ops(c, []) == [];
    assert files == MapAfter(ops[..upto]);
    assert ops == ops[..upto] + ops[upto..];
    ReplayConcat(map[], ops[..upto], ops[upto..]);
    forall i | 0 <= i < |ops[upto..]| ensures ops[upto..][i].Del? && ops[upto..][i].Key() !in files {
      assert ops[upto..][i] == ops[upto + i];
    }
    DeletesIdleIffAbsent(files, ops[upto..]);
  }

  lemma EndReplayCore(cfg: Config, c: Codec, st: Sys, no: nat)
    requires Core(cfg, c, st) && st.snapper.Idle? && no <= Published(c, st.snap)
    ensures var st' := st.(wal := st.wal.(lastSnapshot := no), mode := Serving);
            Core(cfg, c, st') && Logged(cfg, c, st') == Logged(cfg, c, st)
  {
    hide Shape, Survived, Flat, Covered, WaitersOk, SnapOk, Published, KeysMatch;
    RenumberSnapshot(cfg, c, st.wal, st.layout, no);
  }

  lemma EndReplayStep(cfg: Config, c: Codec, st: Sys)
    requires Proper(cfg, c) && Inv(cfg, c, st)
    requires st.mode.Replaying? && st.mode.rest == [] && st.pending == map[]
    ensures Inv(cfg, c, st.(wal := st.wal.(lastSnapshot := st.mode.no), mode := Serving))
    ensures st.files == MapAfter(Logged(cfg, c, st))
  {
    hide Core, LogOk, Logged, Durable, MapOk, Published, ReplayOk, MapAfter, Proper;
    CoreHasLog(cfg, c, st);
    EndReplayCore(cfg, c, st, st.mode.no);
    CoreHasLog(cfg, c, st.(wal := st.wal.(lastSnapshot := st.mode.no), mode := Serving));
    ReplayEnds(c, Logged(cfg, c, st), st.files, st.mode.upto);
    MapOkWhenEqual(Logged(cfg, c, st), st.files);
    assert st.pending.Keys == {};
  }

  lemma CoreHasLog(cfg: Config, c: Codec, st: Sys)
    requires Core(cfg, c, st)
    ensures LogOk(cfg, c, st)
  {
    hide LogOk;
  }

  lemma RenumberSnapshot(cfg: Config, c: Codec, w: Wal, layout: seq<seq<WalEntry>>, no: nat)
    requires Shape(cfg, c, w, layout)
    ensures Shape(cfg, c, w.(lastSnapshot := no), layout)
    ensures Survived(w.(lastSnapshot := no), layout) == Survived(w, layout)
  {
  }
}
