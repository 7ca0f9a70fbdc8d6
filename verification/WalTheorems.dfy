/** What every run of the log machine guarantees. */
module WalTheorems {
  import opened Results
  import opened Bytes
  import opened Frames
  import opened History
  import opened WalCodec
  import opened Layout
  import opened WalLog
  import opened SnapshotFile
  import opened WalProtocol
  import opened WalSafety

  lemma FreshDirectoryIsGood(cfg: Config, c: Codec)
    requires Proper(cfg, c)
    ensures Inv(cfg, c, EMPTY_DIRECTORY)
  {
    hide Shape, Survived, Flat, MapOk, Covered, Fresh, DecodeSnapshot, Proper;
    EmptyLogIsGood(cfg, c);
    MapOkWhenEqual([], map[]);
    assert Ops(c, []) == [];
    assert EMPTY_DIRECTORY.pending.Keys == {};
  }

  lemma NothingLogged()
    ensures Flat(EMPTY_DIRECTORY.layout) == []
  {
    FlatEmptySegment([]);
    assert [] + [[]] == EMPTY_DIRECTORY.layout;
  }

  lemma EmptyFile(c: Codec)
    ensures GoodFiles(c, EMPTY_DIRECTORY.wal, EMPTY_DIRECTORY.layout)
  {
    EncodeEmpty(c, []);
    hide EncodeFile;
    assert EMPTY_DIRECTORY.layout[0] == [];
  }

  lemma EmptyLogIsGood(cfg: Config, c: Codec)
    requires Proper(cfg, c)
    ensures var w, layout := EMPTY_DIRECTORY.wal, EMPTY_DIRECTORY.layout;
            && Shape(cfg, c, w, layout) && Flat(layout) == Survived(w, layout) == []
            && Covered(w.segs.Keys, layout, 0)
  {
    hide Flat, EncodeFile, Whole, Good, GoodFiles, Before;
    NothingLogged();
    EmptyFile(c);
    assert EMPTY_DIRECTORY.layout[0] == [] && 1 in EMPTY_DIRECTORY.wal.segs.Keys;
  }

  lemma StepKeepsInv(cfg: Config, c: Codec, st: Sys, ev: Event, st': Sys)
    requires Proper(cfg, c) && Inv(cfg, c, st) && Next(cfg, c, st, ev) == Some(st')
    ensures Inv(cfg, c, st')
  {
    hide DoAppend, DoUpdate, DoClone, DoWriteTmp, DoRename, DoReclaim, DoRestart, DoReplayNext, DoReplayDelete,
         DoReplayDeleteDone, DoInterrupt;
    hide LogOk, Logged, Durable, SnapOk, ReclaimOk, WaitersOk, SnapperOk, KeysMatch, MapOk, ReplayOk, Published,
         Proper, Flush, Spill;
    match ev
    case Append(meta, isDelete) => ClientAppend(cfg, c, st, meta, isDelete, st');
    case SpillBuffer(k) => SpillStep(cfg, c, st, k);
    case FlushTimer => FlushStep(cfg, c, st);
    case UpdateMap(entry) => UpdateStep(cfg, c, st, entry, st');
    case Capture => CaptureStep(cfg, c, st);
    case Clone(order) => CloneStep(cfg, c, st, order, st');
    case WriteTmp(k) => WriteTmpStep(cfg, c, st, k, st');
    case Rename => RenameStep(cfg, c, st, st');
    case Record => RecordStep(cfg, c, st);
    case Reclaim(seg) => ReclaimStep(cfg, c, st, seg, st');
    case EndCleanup => EndCleanupStep(cfg, c, st);
    case Restart => RestartStep(cfg, c, st, st');
    case ReplayNext => ReplayNextStep(cfg, c, st, st');
    case ReplayDelete => ReplayDeleteStep(cfg, c, st, st');
    case ReplayDeleteDone => ReplayDeleteDoneStep(cfg, c, st, st');
    case EndReplay => EndReplayStep(cfg, c, st);
    case Interrupt(meta, isDelete, second, created, k) =>
      InterruptStep(cfg, c, st, meta, isDelete, second, created, k, st');
    case InterruptReplay(second, created, k) =>
      InterruptStep(cfg, c, st, st.files[OpOf(c, st.mode.rest[0]).name], true, second, created, k, st');
  }

  lemma EndCleanupStep(cfg: Config, c: Codec, st: Sys)
    requires Inv(cfg, c, st)
    ensures Inv(cfg, c, st.(snapper := Idle))
  {
    hide Shape, Survived, Flat, Covered, SnapOk, WaitersOk, KeysMatch, MapOk, ReplayOk, Published;
  }

  lemma {:induction false} RunsAreGood(cfg: Config, c: Codec, evs: seq<Event>)
    requires Proper(cfg, c) && Run(cfg, c, evs).Some?
    ensures Inv(cfg, c, Run(cfg, c, evs).value)
  {
    hide Inv, Proper, Next;
    if evs == [] {
      FreshDirectoryIsGood(cfg, c);
    } else {
      var st := Run(cfg, c, evs[..|evs| - 1]).value;
      RunsAreGood(cfg, c, evs[..|evs| - 1]);
      StepKeepsInv(cfg, c, st, evs[|evs| - 1], Run(cfg, c, evs).value);
    }
  }

  /** The state a run ends in. */
  ghost function After(cfg: Config, c: Codec, evs: seq<Event>): (st: Sys)
    requires Proper(cfg, c) && Run(cfg, c, evs).Some?
    ensures Inv(cfg, c, st) && LogOk(cfg, c, st)
  {
    RunsAreGood(cfg, c, evs);
    Run(cfg, c, evs).value
  }

  lemma AfterIs(cfg: Config, c: Codec, evs: seq<Event>, st: Sys)
    requires Proper(cfg, c) && Run(cfg, c, evs) == Some(st)
    ensures After(cfg, c, evs) == st
  {
    hide Run, Inv, LogOk;
  }

  // ---- Group commit ----

  /** Entry number j has been acknowledged: its appender has updated the map, or may, since the flush
      generation it captured is closed. */
  ghost predicate Acknowledged(st: Sys, j: nat) {
    1 <= j <= st.wal.lastSeq && (j !in st.pending || st.pending[j].gen < st.wal.gen)
  }

  lemma {:induction false} Locate(layout: seq<seq<WalEntry>>, j: nat) returns (s: nat)
    requires 1 <= j <= |Flat(layout)|
    ensures 1 <= s <= |layout| && Before(layout, s - 1) < j <= Before(layout, s)
  {
    var front := layout[..|layout| - 1];
    assert layout[..|layout|] == layout;
    if j <= |Flat(front)| {
      s := Locate(front, j);
      assert front[..s] == layout[..s] && front[..s - 1] == layout[..s - 1];
    } else {
      s := |layout|;
    }
  }

  /** Entry j stands at place i of segment s, and its whole frame is in that segment's file, unless
      the segment was reclaimed under a snapshot that covers it. */
  ghost predicate OnDisk(c: Codec, st: Sys, j: nat, s: nat, i: nat) {
    && 1 <= s <= |st.layout| && i < |st.layout[s - 1]| && st.layout[s - 1][i].seqNo == j
    && (if s in st.wal.segs then EncodeFile(c, st.layout[s - 1][..i + 1]) <= st.wal.segs[s]
        else j <= Published(c, st.snap))
  }

  lemma EncodePrefix(c: Codec, es: seq<WalEntry>, n: nat)
    requires n <= |es|
    ensures EncodeFile(c, es[..n]) <= EncodeFile(c, es)
  {
    assert Bodies(c, es) == Bodies(c, es[..n]) + Bodies(c, es[n..]);
    FrameAllConcat(Bodies(c, es[..n]), Bodies(c, es[n..]));
  }

  lemma {:induction false} WholePrefix(f: seq<byte>, bodies: seq<seq<byte>>, n: nat)
    requires AllFit(bodies) && f <= FrameAll(bodies) && n <= Whole(f)
    ensures n <= |bodies| && FrameAll(bodies[..n]) <= f
    decreases n
  {
    if n > 0 {
      var r := ReadFrame(f);
      assert r.Got?;
      FrameOfReadFrame(f);
      assert bodies != [];
      hide ReadFrame, Frame;
      SameFirstFrame(r.body, r.rest, bodies[0], FrameAll(bodies[1..]));
      WholePrefix(r.rest, bodies[1..], n - 1);
      assert bodies[..n][1..] == bodies[1..][..n - 1];
    }
  }

  lemma WholeEntries(c: Codec, f: seq<byte>, es: seq<WalEntry>, n: nat)
    requires AllGood(c, es) && f <= EncodeFile(c, es) && n <= Whole(f)
    ensures n <= |es| && EncodeFile(c, es[..n]) <= f
  {
    WholePrefix(f, Bodies(c, es), n);
    assert Bodies(c, es)[..n] == Bodies(c, es[..n]);
  }

  lemma DurableIsOnDisk(cfg: Config, c: Codec, st: Sys, j: nat) returns (s: nat, i: nat)
    requires Proper(cfg, c) && Inv(cfg, c, st) && 1 <= j <= |Durable(cfg, c, st)|
    ensures OnDisk(c, st, j, s, i)
  {
    hide Published, SnapOk, SnapperOk, WaitersOk, KeysMatch, MapOk, ReplayOk, Flat, Whole, EncodeFile, AllGood,
         Survived;
    s := Locate(st.layout, j);
    i := j - Before(st.layout, s - 1) - 1;
    BeforeStep(st.layout, s);
    SegmentNumbers(st.layout, s - 1);
    SurvivedCount(cfg, c, st.wal, st.layout);
    if s in st.wal.segs {
      if s < st.wal.lastSeg {
        EncodePrefix(c, st.layout[s - 1], i + 1);
      } else {
        assert EncodeFile(c, st.layout[s - 1]) == st.wal.segs[s] + st.wal.buf;
        WholeEntries(c, st.wal.segs[s], st.layout[s - 1], i + 1);
      }
    }
  }

  /** Group commit: in every interleaving, when an appender is released the whole of its entry is in
      its segment file (or was, until a snapshot covering it was published). */
  lemma GroupCommit(cfg: Config, c: Codec, evs: seq<Event>, j: nat)
    requires Proper(cfg, c) && Run(cfg, c, evs).Some? && Acknowledged(After(cfg, c, evs), j)
    ensures j <= |Durable(cfg, c, After(cfg, c, evs))|
    ensures exists s, i :: OnDisk(c, After(cfg, c, evs), j, s, i)
  {
    hide Run, Shape, Survived, Flat, Published, OnDisk, KeysMatch, MapOk, ReplayOk, SnapperOk;
    var st := After(cfg, c, evs);
    var s, i := DurableIsOnDisk(cfg, c, st, j);
  }

  /** A generation is closed only once everything logged until then is durable: by the flush timer, or
      by a rotation before the entry that caused it is written. */
  lemma GenerationClosesWhenDurable(cfg: Config, c: Codec, st: Sys, ev: Event, st': Sys)
    requires Proper(cfg, c) && Inv(cfg, c, st) && Next(cfg, c, st, ev) == Some(st') && !ev.Restart?
    ensures Inv(cfg, c, st')
    ensures st'.wal.gen > st.wal.gen ==> Logged(cfg, c, st) <= Durable(cfg, c, st')
  {
    hide Inv, Proper, LogOk, Next, Logged, Durable, OpOf;
    StepKeepsInv(cfg, c, st, ev, st');
    InvGivesLog(cfg, c, st);
    InvGivesLog(cfg, c, st');
    if st'.wal.gen > st.wal.gen {
      if ev.Append? || ev.ReplayDelete? {
        LoggingRotates(cfg, c, st, ev, st');
      } else if ev.Interrupt? {
        InterruptIsNext(cfg, c, st, ev, st');
        InterruptMakesDurable(cfg, c, st, ev.meta, ev.isDelete, ev.second, ev.created, ev.k, st');
      } else if ev.InterruptReplay? {
        InterruptReplayMakesDurable(cfg, c, st, ev, st');
      } else {
        OnlyFlushCloses(cfg, c, st, ev, st');
        FlushMakesDurable(cfg, c, st);
        NotHalted(cfg, c, st, st');
        FlushIsNext(cfg, c, st);
      }
    }
  }

  lemma InvGivesLog(cfg: Config, c: Codec, st: Sys)
    requires Inv(cfg, c, st)
    ensures LogOk(cfg, c, st)
  {
    hide LogOk;
  }

  lemma InterruptIsNext(cfg: Config, c: Codec, st: Sys, ev: Event, st': Sys)
    requires Next(cfg, c, st, ev) == Some(st') && ev.Interrupt?
    ensures DoInterrupt(cfg, c, st, ev.meta, ev.isDelete, ev.second, ev.created, ev.k) == Some(st')
  {
    hide DoInterrupt;
  }

  lemma InterruptReplayMakesDurable(cfg: Config, c: Codec, st: Sys, ev: Event, st': Sys)
    requires Proper(cfg, c) && Inv(cfg, c, st) && LogOk(cfg, c, st) && LogOk(cfg, c, st')
    requires Next(cfg, c, st, ev) == Some(st') && ev.InterruptReplay? && st'.wal.gen > st.wal.gen
    ensures Logged(cfg, c, st) <= Durable(cfg, c, st')
  {
    hide Proper, Inv, LogOk, Logged, Durable, DoInterrupt, OpOf;
    InterruptMakesDurable(cfg, c, st, st.files[OpOf(c, st.mode.rest[0]).name], true, ev.second, ev.created, ev.k, st');
  }

  /** An append that is cut short has closed a generation only with its first rotation. */
  lemma InterruptMakesDurable(cfg: Config, c: Codec, st: Sys, meta: FileMetadata, isDelete: bool, second: bool,
                              created: bool, k: nat, st': Sys)
    requires Proper(cfg, c) && Inv(cfg, c, st) && LogOk(cfg, c, st) && LogOk(cfg, c, st')
    requires DoInterrupt(cfg, c, st, meta, isDelete, second, created, k) == Some(st')
    requires st'.wal.gen > st.wal.gen
    ensures Logged(cfg, c, st) <= Durable(cfg, c, st')
  {
    hide Shape, Survived, Flat, Inv, DoInterrupt, Good;
    LogLength(cfg, c, st');
    InterruptStep(cfg, c, st, meta, isDelete, second, created, k, st');
    assert Survived(st'.wal, st'.layout) == Flat(st.layout);
  }

  lemma NotHalted(cfg: Config, c: Codec, st: Sys, st': Sys)
    requires Next(cfg, c, st, FlushTimer) == Some(st')
    ensures !st.rotation.Halted?
  {
    hide Flush;
  }

  lemma FlushIsNext(cfg: Config, c: Codec, st: Sys)
    requires !st.rotation.Halted?
    ensures Next(cfg, c, st, FlushTimer) == Some(st.(wal := Flush(st.wal)))
  {
    hide Flush;
  }

  lemma LoggingRotates(cfg: Config, c: Codec, st: Sys, ev: Event, st': Sys)
    requires Proper(cfg, c) && Inv(cfg, c, st) && LogOk(cfg, c, st) && LogOk(cfg, c, st')
    requires Next(cfg, c, st, ev) == Some(st') && (ev.Append? || ev.ReplayDelete?) && st'.wal.gen > st.wal.gen
    ensures Logged(cfg, c, st) <= Durable(cfg, c, st')
  {
    hide Proper, Inv, LogOk, Logged, Durable, DoAppend, OpOf;
    if ev.Append? {
      RotationMakesDurable(cfg, c, st, ev.meta, ev.isDelete, st');
    } else {
      RotationMakesDurable(cfg, c, st, st.files[OpOf(c, st.mode.rest[0]).name], true, st');
    }
  }

  lemma OnlyFlushCloses(cfg: Config, c: Codec, st: Sys, ev: Event, st': Sys)
    requires Next(cfg, c, st, ev) == Some(st') && st'.wal.gen > st.wal.gen
    requires !ev.Restart? && !ev.Append? && !ev.ReplayDelete? && !ev.Interrupt? && !ev.InterruptReplay?
    ensures ev == FlushTimer
  {
    hide Overlay, Image, LastNumber, Drain, DoInterrupt;
  }

  lemma FlushMakesDurable(cfg: Config, c: Codec, st: Sys)
    requires Proper(cfg, c) && Inv(cfg, c, st)
    ensures var st' := st.(wal := Flush(st.wal));
            Inv(cfg, c, st') && LogOk(cfg, c, st) && LogOk(cfg, c, st') && Durable(cfg, c, st') == Logged(cfg, c, st)
  {
    hide Shape, Survived, Flat, SnapOk, ReclaimOk, WaitersOk, SnapperOk, KeysMatch, MapOk, ReplayOk, Flush;
    FlushStep(cfg, c, st);
  }

  lemma RotationMakesDurable(cfg: Config, c: Codec, st: Sys, meta: FileMetadata, isDelete: bool, st': Sys)
    requires Proper(cfg, c) && Inv(cfg, c, st) && LogOk(cfg, c, st) && LogOk(cfg, c, st')
    requires DoAppend(cfg, c, st, meta, isDelete) == Some(st') && st'.wal.gen > st.wal.gen
    ensures Logged(cfg, c, st) <= Durable(cfg, c, st')
  {
    hide AppendEntry, Appended, Flat, EncodeFile, Survived, SnapOk, WaitersOk, SnapperOk, KeysMatch, MapOk, ReplayOk,
         Published, Covered;
    AppendKeepsLog(cfg, c, st, meta, isDelete, st');
    assert Survived(st'.wal, st'.layout) == Flat(st.layout);
  }

  /** A flush, once it gets the log's lock, releases everyone who was waiting. */
  lemma FlushReleasesAll(cfg: Config, c: Codec, st: Sys, j: nat)
    requires Proper(cfg, c) && Inv(cfg, c, st) && 1 <= j <= st.wal.lastSeq && !st.rotation.Halted?
    ensures Next(cfg, c, st, FlushTimer).Some? && Acknowledged(Next(cfg, c, st, FlushTimer).value, j)
  {
    hide Shape, Survived, Flat, Published, KeysMatch, MapOk, ReplayOk, SnapperOk, SnapOk;
  }

  // ---- Log shape and reclaiming ----

  /** In every run the segments in number order, then the writer's buffer, decode to exactly the
      logged entries, numbered from 1, no entry split across files; the tracked size is what is on
      disk and buffered; a segment past the size limit holds one entry. */
  lemma LogShape(cfg: Config, c: Codec, evs: seq<Event>, s: nat)
    requires Proper(cfg, c) && Run(cfg, c, evs).Some?
    requires s in After(cfg, c, evs).wal.segs
    ensures var st := After(cfg, c, evs);
            var written := if s == st.wal.lastSeg then st.wal.segs[s] + st.wal.buf else st.wal.segs[s];
            && 1 <= s <= st.wal.lastSeg == |st.layout|
            && DecodeFile(c, written) == Some(st.layout[s - 1])
            && (|written| < cfg.maxSize || |st.layout[s - 1]| <= 1)
            && (s == st.wal.lastSeg ==> st.wal.curSize == |written|)
            && Numbered(Flat(st.layout)) && st.wal.lastSeq == |Flat(st.layout)|
  {
    hide *;
    ShapeOfLog(cfg, c, After(cfg, c, evs), s);
  }

  lemma ShapeOfLog(cfg: Config, c: Codec, st: Sys, s: nat)
    requires Proper(cfg, c) && LogOk(cfg, c, st) && s in st.wal.segs
    ensures var written := if s == st.wal.lastSeg then st.wal.segs[s] + st.wal.buf else st.wal.segs[s];
            && 1 <= s <= st.wal.lastSeg == |st.layout|
            && DecodeFile(c, written) == Some(st.layout[s - 1])
            && (|written| < cfg.maxSize || |st.layout[s - 1]| <= 1)
            && (s == st.wal.lastSeg ==> st.wal.curSize == |written|)
            && Numbered(Flat(st.layout)) && st.wal.lastSeq == |Flat(st.layout)|
  {
    hide Survived, Flat, EncodeFile, DecodeFile, Numbered, Good;
    DecodeEncode(c, st.layout[s - 1]);
  }

  ghost function AppendedOps(evs: seq<Event>): (ops: seq<Op>) {
    if evs == [] then []
    else
      AppendedOps(evs[..|evs| - 1]) +
      match evs[|evs| - 1] case Append(meta, isDelete) => [NewOp(meta, isDelete)] case _ => []
  }

  /** Without a crash, the log is the appends of the run in their order. */
  lemma {:induction false} AppendedInOrder(cfg: Config, c: Codec, evs: seq<Event>)
    requires Proper(cfg, c) && Run(cfg, c, evs).Some? && Restart !in evs
    ensures After(cfg, c, evs).mode.Serving?
    ensures Logged(cfg, c, After(cfg, c, evs)) == AppendedOps(evs)
  {
    hide Inv, LogOk, DoUpdate, DoClone, DoWriteTmp, DoRename, DoReclaim, DoReplayNext, DoReplayDelete,
         DoReplayDeleteDone, Flush, Spill, DoRestart;
    if evs == [] {
      FlatEmptySegment([]);
      assert [] + [[]] == EMPTY_DIRECTORY.layout;
    } else {
      var front, ev := evs[..|evs| - 1], evs[|evs| - 1];
      assert ev in evs && forall e :: e in front ==> e in evs;
      AppendedInOrder(cfg, c, front);
      var st, st' := After(cfg, c, front), After(cfg, c, evs);
      if ev.Append? {
        hide DoAppend;
        AppendLogs(cfg, c, st, ev.meta, ev.isDelete, st');
      } else if ev.Interrupt? {
        hide DoInterrupt, Logged;
        InterruptIsNext(cfg, c, st, ev, st');
        InterruptLogsNothing(cfg, c, st, ev, st');
      } else {
        SameLayout(cfg, c, st, ev, st');
      }
    }
  }

  lemma AppendLogs(cfg: Config, c: Codec, st: Sys, meta: FileMetadata, isDelete: bool, st': Sys)
    requires Proper(cfg, c) && Inv(cfg, c, st) && LogOk(cfg, c, st) && LogOk(cfg, c, st')
    requires DoAppend(cfg, c, st, meta, isDelete) == Some(st')
    ensures Logged(cfg, c, st') == Logged(cfg, c, st) + [NewOp(meta, isDelete)] && st'.mode == st.mode
  {
    hide LogOk, Logged, AppendEntry, Appended;
    AppendKeepsCore(cfg, c, st, meta, isDelete, st');
  }

  lemma InterruptLogsNothing(cfg: Config, c: Codec, st: Sys, ev: Event, st': Sys)
    requires Proper(cfg, c) && Inv(cfg, c, st) && LogOk(cfg, c, st) && LogOk(cfg, c, st') && ev.Interrupt?
    requires DoInterrupt(cfg, c, st, ev.meta, ev.isDelete, ev.second, ev.created, ev.k) == Some(st')
    ensures Logged(cfg, c, st') == Logged(cfg, c, st) && st'.mode == st.mode
  {
    hide Shape, Survived, Flat, Inv, DoInterrupt;
    InterruptStep(cfg, c, st, ev.meta, ev.isDelete, ev.second, ev.created, ev.k, st');
  }

  lemma SameLayout(cfg: Config, c: Codec, st: Sys, ev: Event, st': Sys)
    requires !ev.Append? && !ev.Restart? && !ev.Interrupt? && st.mode.Serving? && Next(cfg, c, st, ev) == Some(st')
    ensures st'.layout == st.layout && st'.mode == st.mode
  {
    hide Flush, Spill, Remove, Overlay, Image;
  }

  /** Reclaiming is safe in every run: an entry numbered above the published snapshot's number is in a
      segment that still exists, and the published number is of an entry on disk. */
  lemma ReclaimingIsSafe(cfg: Config, c: Codec, evs: seq<Event>, s: nat, i: nat)
    requires Proper(cfg, c) && Run(cfg, c, evs).Some?
    requires var st := After(cfg, c, evs); 1 <= s <= |st.layout| && i < |st.layout[s - 1]|
    ensures var st := After(cfg, c, evs);
            && (st.layout[s - 1][i].seqNo > Published(c, st.snap) ==> s in st.wal.segs)
            && Published(c, st.snap) <= |Durable(cfg, c, st)|
  {
    hide After, Run, LogOk, SnapOk, ReclaimOk, WaitersOk, SnapperOk, KeysMatch, MapOk, ReplayOk, Published, Survived,
         Before;
    var st := After(cfg, c, evs);
    PublishedIsDurable(c, Durable(cfg, c, st), st.snap);
    SegmentUpTo(cfg, c, st, s, i);
    MissingIsCovered(cfg, c, st, s);
  }

  lemma SegmentUpTo(cfg: Config, c: Codec, st: Sys, s: nat, i: nat)
    requires LogOk(cfg, c, st) && 1 <= s <= |st.layout| && i < |st.layout[s - 1]|
    ensures st.layout[s - 1][i].seqNo <= Before(st.layout, s)
  {
    hide Survived, Flat, Before, GoodFiles;
    BeforeStep(st.layout, s);
    SegmentNumbers(st.layout, s - 1);
  }

  lemma MissingIsCovered(cfg: Config, c: Codec, st: Sys, s: nat)
    requires LogOk(cfg, c, st) && ReclaimOk(c, st) && 1 <= s <= |st.layout|
    ensures s !in st.wal.segs ==> Before(st.layout, s) <= Published(c, st.snap)
  {
    hide LogOk, Before, Published;
  }

  lemma PublishedIsDurable(c: Codec, durable: seq<Op>, snap: Option<seq<byte>>)
    requires SnapOk(c, durable, snap)
    ensures Published(c, snap) <= |durable|
  {
    hide Fresh, DecodeSnapshot, KeysMatch;
  }
}
