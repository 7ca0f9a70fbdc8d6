/** The log of a server that has just started: on an empty directory, and on what a crash left. */
module WalStarted {
  import opened Results
  import opened Bytes
  import opened Frames
  import opened History
  import opened WalCodec
  import opened Layout
  import opened WalLog
  import opened WalScan
  import opened SnapshotFile
  import opened LogReplay
  import opened WalRoom
  import opened WalProtocol
  import opened WalSafety
  import opened WalTheorems
  import opened WalRecovery

  // ---- An empty directory ----

  /** A manager that has no file yet. */
  const NO_LOG: Wal := Wal(map[], 0, 0, 0, 0, [], 0)

  /** The first start is a rotation out of nothing. It succeeds exactly when the limit allows a file, and
      leaves the state every run begins with: one empty file, number 1. A restart straight after it finds
      that state again. */
  lemma FirstStart(cfg: Config, c: Codec)
    requires Lossless(c)
    ensures InitWal(cfg, c, map[]).Ok? <==> cfg.maxSegs > 0
    ensures AddNewLogFile(cfg, c, NO_LOG) ==
            if cfg.maxSegs > 0 then Done(EMPTY_DIRECTORY.wal.(gen := 1)) else Failed(NO_LOG)
    ensures cfg.maxSegs > 0 ==>
              var w := InitWal(cfg, c, map[]).value;
              && w == EMPTY_DIRECTORY.wal && Shape(cfg, c, w, [[]]) && Flat([[]]) == []
              && InitWal(cfg, c, w.segs) == Ok(w)
  {
    FirstLayout(cfg, c);
    assert Drain(NO_LOG)[1 := []] == map[1 := []];
    assert IsMax({1}, 1) && EMPTY_DIRECTORY.wal.segs.Keys == {1};
    OnlyMax({1}, 1);
    assert TailScan(c, []) == Empty;
  }

  lemma FirstLayout(cfg: Config, c: Codec)
    ensures Shape(cfg, c, EMPTY_DIRECTORY.wal, [[]]) && Flat([[]]) == []
  {
    NothingLogged();
    EmptyFile(c);
    hide Flat, EncodeFile, GoodFiles;
  }

  // ---- What a crash left ----

  /** The log and the map of a server that has started: every retained entry applied to the image, and
      the number of the snapshot file recorded. Without a snapshot file nothing is read. */
  ghost function StartedServer(cfg: Config, c: Codec, segs: map<nat, seq<byte>>,
                               snap: Option<seq<byte>>): (r: Result<Pair>) {
    match snap
    case None =>
      (match InitWal(cfg, c, segs)
       case Err => Err
       case Ok(w) => Ok(Pair(w, map[])))
    case Some(f) =>
      match Begun(cfg, c, segs, f)
      case Err => Err
      case Ok((p, es)) =>
        match AllApplied(cfg, c, p, es)
        case Err => Err
        case Ok(p') => Ok(p'.(wal := p'.wal.(lastSnapshot := FromBigEndian(f[..8]))))
  }

  /** It starts when there is a recovered map, and holds that map. */
  lemma StartsWithRecovered(cfg: Config, c: Codec, segs: map<nat, seq<byte>>, snap: Option<seq<byte>>)
    ensures StartedServer(cfg, c, segs, snap).Ok? == Recovered(cfg, c, segs, snap).Ok?
    ensures StartedServer(cfg, c, segs, snap).Ok? ==>
              StartedServer(cfg, c, segs, snap).value.files == Recovered(cfg, c, segs, snap).value
  {
    hide InitWal, AllApplied, Begun;
  }

  // ---- Which refused deletes leave a hole in the numbering ----

  /** An append gets as far as taking a number: it needs no first rotation, or that one succeeds. */
  predicate TakesNumber(cfg: Config, c: Codec, w: Wal) {
    w.curSize < cfg.maxSize || AddNewLogFile(cfg, c, w).Done?
  }

  /** Entry i is a delete the log refuses after its number was taken. */
  predicate Skips(cfg: Config, c: Codec, p: Pair, es: seq<WalEntry>, i: nat) {
    Refused(cfg, c, p, es, i) && TakesNumber(cfg, c, AllApplied(cfg, c, p, es[..i]).value.wal)
  }

  /** The layout after one entry was applied, and after all of them. */
  function StepLaid(cfg: Config, c: Codec, p: Pair, layout: seq<seq<WalEntry>>, e: WalEntry): (r: seq<seq<WalEntry>>)
    requires Good(c, e)
  {
    if !Fires(c, p.files, e) then layout
    else
      var data := c.encMeta(p.files[OpOf(c, e).Key()]);
      match AppendEntry(cfg, c, p.wal, data, true)
      case Failed(w) => Pad(layout, w.lastSeg)
      case Done(w) => Appended(c, p.wal, w, layout, data, true)
  }

  function Laid(cfg: Config, c: Codec, p: Pair, layout: seq<seq<WalEntry>>, es: seq<WalEntry>): (r: seq<seq<WalEntry>>)
    requires AllGood(c, es)
    decreases |es|
  {
    if es == [] then layout
    else
      match Applied(cfg, c, p, es[0])
      case Err => layout
      case Ok(p1) => Laid(cfg, c, p1, StepLaid(cfg, c, p, layout, es[0]), es[1..])
  }

  /** Every delete record start-up may write has a representable length. */
  predicate RecordsFit(cfg: Config, c: Codec, p: Pair, es: seq<WalEntry>)
    requires AllGood(c, es)
    decreases |es|
  {
    es != [] ==>
      && (Fires(c, p.files, es[0]) ==> Fits(DeleteRecord(c, p.files, es[0], p.wal.lastSeq)))
      && Applied(cfg, c, p, es[0]).Ok?
      && RecordsFit(cfg, c, Applied(cfg, c, p, es[0]).value, es[1..])
  }

  /** A well-shaped log during start-up: flushed, nothing recorded yet, its numbering up to date. */
  ghost predicate Tracked(cfg: Config, c: Codec, w: Wal, layout: seq<seq<WalEntry>>, no: nat) {
    && Shape(cfg, c, w, layout) && Covered(w.segs.Keys, layout, no)
    && w.lastSeq == |Flat(layout)| && w.lastSnapshot == 0 && w.buf == []
  }

  /** Nothing but deletes was added. */
  ghost predicate OnlyDeletes(c: Codec, before: seq<WalEntry>, after: seq<WalEntry>) {
    before <= after && forall i :: |before| <= i < |after| ==> after[i].isDelete && Good(c, after[i])
  }

  lemma LoggedDelete(cfg: Config, c: Codec, w: Wal, layout: seq<seq<WalEntry>>, meta: FileMetadata, no: nat)
    requires Lossless(c) && cfg.maxSegs >= 2 && Tracked(cfg, c, w, layout, no) && w.lastSeg + 1 < TWO_TO_64
    requires Fits(c.encEntry(MakeEntry(c, w.lastSeq + 1, c.encMeta(meta), true)))
    requires AppendEntry(cfg, c, w, c.encMeta(meta), true).Done?
    ensures var w1 := AppendEntry(cfg, c, w, c.encMeta(meta), true).wal;
            var layout1 := Appended(c, w, w1, layout, c.encMeta(meta), true);
            && Tracked(cfg, c, Flush(w1), layout1, no) && w1.lastSeg <= w.lastSeg + 2
            && OnlyDeletes(c, Flat(layout), Flat(layout1))
  {
    hide Shape, AppendEntry, Appended, Flat, Survived, Covered, Good;
    MetadataEncodes(c, meta, w.lastSeq + 1);
    AppendIsSafe(cfg, c, w, layout, c.encMeta(meta), true, no);
    var w1 := AppendEntry(cfg, c, w, c.encMeta(meta), true).wal;
    var layout1 := Appended(c, w, w1, layout, c.encMeta(meta), true);
    FlushKeepsShape(cfg, c, w1, layout1);
    FlushedKeys(cfg, c, w1, layout1);
  }

  lemma FlushedKeys(cfg: Config, c: Codec, w: Wal, layout: seq<seq<WalEntry>>)
    requires Shape(cfg, c, w, layout)
    ensures Flush(w).segs.Keys == w.segs.Keys
  {
    hide GoodLayout, EncodeFile;
  }

  /** Refused before it took a number, an append changes nothing. */
  lemma RefusedEarly(cfg: Config, c: Codec, w: Wal, data: seq<byte>, isDelete: bool)
    requires AppendEntry(cfg, c, w, data, isDelete).Failed? && !TakesNumber(cfg, c, w)
    ensures AppendEntry(cfg, c, w, data, isDelete).wal == w
  {
    hide LastNumber, OpenNext;
  }

  lemma TrackedStep(cfg: Config, c: Codec, p: Pair, layout: seq<seq<WalEntry>>, e: WalEntry, no: nat)
    requires Lossless(c) && cfg.maxSegs >= 2 && Tracked(cfg, c, p.wal, layout, no) && p.wal.lastSeg + 1 < TWO_TO_64
    requires Good(c, e) && (Fires(c, p.files, e) ==> Fits(DeleteRecord(c, p.files, e, p.wal.lastSeq)))
    requires !(RefusedIn(cfg, c, p, e) && TakesNumber(cfg, c, p.wal))
    ensures Applied(cfg, c, p, e).Ok?
    ensures var w1, layout1 := Applied(cfg, c, p, e).value.wal, StepLaid(cfg, c, p, layout, e);
            && Tracked(cfg, c, w1, layout1, no) && w1.lastSeg <= p.wal.lastSeg + 2
            && OnlyDeletes(c, Flat(layout), Flat(layout1))
  {
    hide Tracked, AppendEntry, Appended, Flat, Pad, TakesNumber, Good, Flush;
    AppliedGood(cfg, c, p, e);
    if Fires(c, p.files, e) {
      var meta := p.files[OpOf(c, e).Key()];
      if RefusedIn(cfg, c, p, e) {
        RefusedEarly(cfg, c, p.wal, c.encMeta(meta), true);
        TrackedPad(cfg, c, p.wal, layout, no);
      } else {
        AcceptedStep(cfg, c, p, e);
        LoggedDelete(cfg, c, p.wal, layout, meta, no);
        FlushedSeg(AppendEntry(cfg, c, p.wal, c.encMeta(meta), true).wal);
      }
    }
  }

  lemma FlushedSeg(w: Wal)
    ensures Flush(w).lastSeg == w.lastSeg && Flush(w).lastSeq == w.lastSeq
  {
  }

  lemma TrackedPad(cfg: Config, c: Codec, w: Wal, layout: seq<seq<WalEntry>>, no: nat)
    requires Tracked(cfg, c, w, layout, no)
    ensures Pad(layout, w.lastSeg) == layout
  {
    hide GoodLayout, Flat, EncodeFile, Covered;
  }

  /** What an entry makes of the log: nothing, unless it is a delete that fires. */
  lemma AppliedGood(cfg: Config, c: Codec, p: Pair, e: WalEntry)
    requires Good(c, e)
    ensures Applied(cfg, c, p, e).Ok?
    ensures !Fires(c, p.files, e) ==> Applied(cfg, c, p, e).value.wal == p.wal && !RefusedIn(cfg, c, p, e)
    ensures Fires(c, p.files, e) ==>
              var r := AppendEntry(cfg, c, p.wal, c.encMeta(p.files[OpOf(c, e).Key()]), true);
              && (RefusedIn(cfg, c, p, e) <==> r.Failed?)
              && Applied(cfg, c, p, e).value.wal == if r.Done? then Flush(r.wal) else r.wal
  {
    hide AppendEntry, Flush;
  }

  // ---- Counting entries and numbers ----

  lemma {:induction false} PadFlat(layout: seq<seq<WalEntry>>, last: nat)
    ensures Flat(Pad(layout, last)) == Flat(layout)
    decreases last
  {
    if last > |layout| {
      PadFlat(layout, last - 1);
      PadOneMore(layout, last - 1);
      FlatEmptySegment(Pad(layout, last - 1));
    } else {
      assert Pad(layout, last) == layout;
    }
  }

  lemma RotationNumber(cfg: Config, c: Codec, w: Wal)
    ensures AddNewLogFile(cfg, c, w).wal.lastSeq == w.lastSeq
  {
    hide LastNumber;
  }

  /** Whether it is taken or refused, an append that takes a number moves the last number by one. */
  lemma AppendNumber(cfg: Config, c: Codec, w: Wal, data: seq<byte>, isDelete: bool)
    ensures AppendEntry(cfg, c, w, data, isDelete).wal.lastSeq == w.lastSeq + if TakesNumber(cfg, c, w) then 1 else 0
    ensures AppendEntry(cfg, c, w, data, isDelete).Done? ==> TakesNumber(cfg, c, w)
  {
    hide AddNewLogFile, Frame;
    RotationNumber(cfg, c, w);
    var w1 := RotateIf(w.curSize >= cfg.maxSize, cfg, c, w).wal;
    RotationNumber(cfg, c, w1.(lastSeq := w1.lastSeq + 1));
  }

  /** How far the last number is ahead of the entries in the log. */
  function Ahead(w: Wal, layout: seq<seq<WalEntry>>): (n: int) {
    w.lastSeq - |Flat(layout)|
  }

  lemma AheadStep(cfg: Config, c: Codec, p: Pair, layout: seq<seq<WalEntry>>, e: WalEntry)
    requires Good(c, e) && layout != []
    ensures Applied(cfg, c, p, e).Ok? && StepLaid(cfg, c, p, layout, e) != []
    ensures Ahead(Applied(cfg, c, p, e).value.wal, StepLaid(cfg, c, p, layout, e)) ==
            Ahead(p.wal, layout) + if RefusedIn(cfg, c, p, e) && TakesNumber(cfg, c, p.wal) then 1 else 0
  {
    hide AppendEntry, Flat, Pad, TakesNumber, Good, Flush, Push;
    AppliedGood(cfg, c, p, e);
    if Fires(c, p.files, e) {
      var data := c.encMeta(p.files[OpOf(c, e).Key()]);
      var r := AppendEntry(cfg, c, p.wal, data, true);
      AppendNumber(cfg, c, p.wal, data, true);
      FlushedSeg(r.wal);
      PaddedLog(layout, r.wal.lastSeg, MakeEntry(c, p.wal.lastSeq + 1, data, true));
    }
  }

  lemma PaddedLog(layout: seq<seq<WalEntry>>, last: nat, e: WalEntry)
    requires layout != []
    ensures Pad(layout, last) != [] && Flat(Pad(layout, last)) == Flat(layout)
    ensures Push(Pad(layout, last), e) != [] && |Flat(Push(Pad(layout, last), e))| == |Flat(layout)| + 1
  {
    hide Flat;
    PadFlat(layout, last);
    FlatPush(Pad(layout, last), e);
  }

  lemma SkipsLater(cfg: Config, c: Codec, p: Pair, es: seq<WalEntry>, i: nat)
    requires es != [] && Applied(cfg, c, p, es[0]).Ok?
    ensures Skips(cfg, c, p, es, i + 1) == Skips(cfg, c, Applied(cfg, c, p, es[0]).value, es[1..], i)
    ensures Skips(cfg, c, p, es, 0) == (RefusedIn(cfg, c, p, es[0]) && TakesNumber(cfg, c, p.wal))
  {
    hide RefusedIn, Applied, TakesNumber;
    RefusedLater(cfg, c, p, es, i);
    assert es[..0] == [];
    if i + 1 <= |es| {
      AppliedFront(cfg, c, p, es[..i + 1]);
      assert es[..i + 1][1..] == es[1..][..i];
    }
  }

  lemma SkipNow(cfg: Config, c: Codec, p: Pair, es: seq<WalEntry>)
    requires es != [] && Applied(cfg, c, p, es[0]).Ok?
    ensures (exists i: nat :: Skips(cfg, c, p, es, i)) <==>
            || (RefusedIn(cfg, c, p, es[0]) && TakesNumber(cfg, c, p.wal))
            || (exists i: nat :: Skips(cfg, c, Applied(cfg, c, p, es[0]).value, es[1..], i))
  {
    hide Skips, RefusedIn, Applied, TakesNumber;
    SkipsLater(cfg, c, p, es, 0);
    if i: nat :| Skips(cfg, c, p, es, i) && i > 0 {
      SkipsLater(cfg, c, p, es, i - 1);
    }
    if i: nat :| Skips(cfg, c, Applied(cfg, c, p, es[0]).value, es[1..], i) {
      SkipsLater(cfg, c, p, es, i);
    }
  }

  lemma NoneSkipped(cfg: Config, c: Codec, p: Pair, i: nat)
    ensures !Skips(cfg, c, p, [], i)
  {
  }

  /** The last number is ahead of the log by as many as deletes were refused with their number taken. */
  lemma {:induction false} AheadIffSkips(cfg: Config, c: Codec, p: Pair, layout: seq<seq<WalEntry>>, es: seq<WalEntry>)
    requires AllGood(c, es) && layout != []
    ensures AllApplied(cfg, c, p, es).Ok?
    ensures var w, layout' := AllApplied(cfg, c, p, es).value.wal, Laid(cfg, c, p, layout, es);
            Ahead(w, layout') >= Ahead(p.wal, layout) &&
            (Ahead(w, layout') == Ahead(p.wal, layout) <==> forall i: nat :: !Skips(cfg, c, p, es, i))
    decreases |es|
  {
    hide Applied, Skips, RefusedIn, TakesNumber, StepLaid, Ahead, Good;
    if es == [] {
      forall i: nat ensures !Skips(cfg, c, p, es, i) {
        NoneSkipped(cfg, c, p, i);
      }
    } else {
      AheadStep(cfg, c, p, layout, es[0]);
      AppliedFront(cfg, c, p, es);
      SkipNow(cfg, c, p, es);
      AheadIffSkips(cfg, c, Applied(cfg, c, p, es[0]).value, StepLaid(cfg, c, p, layout, es[0]), es[1..]);
    }
  }

  /** As long as none is, the log stays well shaped, and only deletes are added to it. */
  lemma {:induction false} TrackedAll(cfg: Config, c: Codec, p: Pair, layout: seq<seq<WalEntry>>, es: seq<WalEntry>,
                                      no: nat)
    requires Lossless(c) && cfg.maxSegs >= 2 && Tracked(cfg, c, p.wal, layout, no)
    requires AllGood(c, es) && RecordsFit(cfg, c, p, es) && p.wal.lastSeg + 2 * |es| < TWO_TO_64
    requires forall i: nat :: !Skips(cfg, c, p, es, i)
    ensures AllApplied(cfg, c, p, es).Ok?
    ensures var layout' := Laid(cfg, c, p, layout, es);
            && Tracked(cfg, c, AllApplied(cfg, c, p, es).value.wal, layout', no)
            && OnlyDeletes(c, Flat(layout), Flat(layout'))
    decreases |es|
  {
    hide Applied, Skips, RefusedIn, TakesNumber, StepLaid, Tracked, Flat, Good, DeleteRecord, Fires;
    if es != [] {
      AppliedFront(cfg, c, p, es);
      SkipNow(cfg, c, p, es);
      TrackedStep(cfg, c, p, layout, es[0], no);
      TrackedAll(cfg, c, Applied(cfg, c, p, es[0]).value, StepLaid(cfg, c, p, layout, es[0]), es[1..], no);
    }
  }

  // ---- After any run ----

  /** Start-up stays clear of 2^64 and writes no record of 2^32 octets or more. */
  ghost predicate Bounded(cfg: Config, c: Codec, segs: map<nat, seq<byte>>, f: seq<byte>) {
    Begun(cfg, c, segs, f).Ok? ==>
      var (p, es) := Begun(cfg, c, segs, f).value;
      AllGood(c, es) ==>
        RecordsFit(cfg, c, p, es) && p.wal.lastSeg + 2 * |es| + 2 < TWO_TO_64 && p.wal.lastSeq + |es| + 1 < TWO_TO_64
  }

  /** The log refuses one of start-up's own deletes after its number was taken. */
  ghost predicate SkipsNumber(cfg: Config, c: Codec, segs: map<nat, seq<byte>>, f: seq<byte>) {
    Begun(cfg, c, segs, f).Ok? &&
    var (p, es) := Begun(cfg, c, segs, f).value;
    exists i: nat :: Skips(cfg, c, p, es, i)
  }

  /** Which entries stand in which segment of the started server's log. */
  ghost function StartedLayout(cfg: Config, c: Codec, st: Sys): (layout: seq<seq<WalEntry>>) {
    if st.snap.None? || Begun(cfg, c, Directory(st), st.snap.value).Err? then Landed(c, st)
    else
      var (p, es) := Begun(cfg, c, Directory(st), st.snap.value).value;
      if AllGood(c, es) then Laid(cfg, c, p, Landed(c, st), es) else Landed(c, st)
  }

  /** A log fit for appending, rotating and reclaiming under a snapshot numbered `no`. */
  ghost predicate GoodLog(cfg: Config, c: Codec, w: Wal, layout: seq<seq<WalEntry>>, no: nat) {
    && Shape(cfg, c, w, layout) && Covered(w.segs.Keys, layout, no)
    && w.lastSeq == |Flat(layout)| && w.lastSnapshot <= no
  }

  lemma BegunIsTracked(cfg: Config, c: Codec, st: Sys, w: Wal)
    requires Proper(cfg, c) && Inv(cfg, c, st) && InitWal(cfg, c, Directory(st)) == Ok(w)
    ensures Tracked(cfg, c, w, Landed(c, st), Published(c, st.snap))
    ensures LogOk(cfg, c, st) && Flat(Landed(c, st)) == Survived(st.wal, st.layout) && Landed(c, st) != []
  {
    hide InitWal, Shape, Landed, Survived, Covered, LogOk, ModeOk, Directory, Flat, Published;
    hide SnapOk, ReclaimOk, WaitersOk, SnapperOk, KeysMatch;
    RestartLog(cfg, c, st, w);
    ShapeLength(cfg, c, w, Landed(c, st));
  }

  lemma ShapeLength(cfg: Config, c: Codec, w: Wal, layout: seq<seq<WalEntry>>)
    requires Shape(cfg, c, w, layout)
    ensures layout != []
  {
    hide GoodLayout, EncodeFile;
  }

  lemma RecordedLog(cfg: Config, c: Codec, w: Wal, layout: seq<seq<WalEntry>>, no: nat)
    requires w.lastSnapshot == 0 && w.buf == []
    ensures Tracked(cfg, c, w, layout, no) <==> GoodLog(cfg, c, w.(lastSnapshot := no), layout, no)
  {
    hide GoodLayout, EncodeFile, Flat, Covered;
  }

  /** Start-up writes out everything it logs and records no snapshot before it ends. */
  lemma {:induction false} AppliedIsFlushed(cfg: Config, c: Codec, p: Pair, es: seq<WalEntry>)
    requires p.wal.lastSnapshot == 0 && p.wal.buf == [] && AllApplied(cfg, c, p, es).Ok?
    ensures AllApplied(cfg, c, p, es).value.wal.lastSnapshot == 0 && AllApplied(cfg, c, p, es).value.wal.buf == []
  {
    if es != [] {
      hide Applied;
      AppliedIsFlushed(cfg, c, p, es[..|es| - 1]);
      AppliedStaysFlushed(cfg, c, AllApplied(cfg, c, p, es[..|es| - 1]).value, es[|es| - 1]);
    }
  }

  lemma AppliedStaysFlushed(cfg: Config, c: Codec, p: Pair, e: WalEntry)
    requires p.wal.lastSnapshot == 0 && p.wal.buf == [] && Applied(cfg, c, p, e).Ok?
    ensures Applied(cfg, c, p, e).value.wal.lastSnapshot == 0 && Applied(cfg, c, p, e).value.wal.buf == []
  {
    hide LastNumber, Drain, Frame;
  }

  /** The log of a server started after any run, crashed at any step of it: it has recorded exactly the
      published number, and it is well shaped, with every segment that holds an entry above that number
      still there, if and only if no delete of start-up was refused after its number was taken. Start-up
      then has added nothing but deletes to what was on disk. */
  lemma StartedLogIsGoodIff(cfg: Config, c: Codec, evs: seq<Event>)
    requires Proper(cfg, c) && Run(cfg, c, evs).Some?
    requires var st := After(cfg, c, evs);
             && StartedServer(cfg, c, Directory(st), st.snap).Ok?
             && (st.snap.Some? ==> Bounded(cfg, c, Directory(st), st.snap.value))
    ensures var st := After(cfg, c, evs);
            var w, layout := StartedServer(cfg, c, Directory(st), st.snap).value.wal, StartedLayout(cfg, c, st);
            var no := Published(c, st.snap);
            && w.lastSnapshot == no
            && (GoodLog(cfg, c, w, layout, no) <==>
                (st.snap.Some? ==> !SkipsNumber(cfg, c, Directory(st), st.snap.value)))
            && (GoodLog(cfg, c, w, layout, no) ==> OnlyDeletes(c, Survived(st.wal, st.layout), Flat(layout)))
  {
    hide *;
    StartedLog(cfg, c, After(cfg, c, evs));
  }

  lemma StartedLog(cfg: Config, c: Codec, st: Sys)
    requires Proper(cfg, c) && Inv(cfg, c, st) && LogOk(cfg, c, st)
    requires StartedServer(cfg, c, Directory(st), st.snap).Ok?
    requires st.snap.Some? ==> Bounded(cfg, c, Directory(st), st.snap.value)
    ensures var w, layout := StartedServer(cfg, c, Directory(st), st.snap).value.wal, StartedLayout(cfg, c, st);
            var no := Published(c, st.snap);
            && w.lastSnapshot == no
            && (GoodLog(cfg, c, w, layout, no) <==>
                (st.snap.Some? ==> !SkipsNumber(cfg, c, Directory(st), st.snap.value)))
            && (GoodLog(cfg, c, w, layout, no) ==> OnlyDeletes(c, Survived(st.wal, st.layout), Flat(layout)))
  {
    hide Inv, LogOk, Directory, InitWal, Tracked, AllApplied, Laid, Landed, Skips, RecordsFit, Survived, Flat;
    hide GoodLog, ReadAll, RestoreInto, AllGood, Ahead;
    var no := Published(c, st.snap);
    if st.snap.None? {
      var w := InitWal(cfg, c, Directory(st)).value;
      BegunIsTracked(cfg, c, st, w);
      EmptyRecord(cfg, c, w, Landed(c, st), no);
    } else {
      var f := st.snap.value;
      var (p, es) := Begun(cfg, c, Directory(st), f).value;
      BegunIsTracked(cfg, c, st, p.wal);
      BegunIsDurable(cfg, c, st);
      assert no == FromBigEndian(f[..8]);
      StartedEntries(cfg, c, p, Landed(c, st), es, no);
    }
  }

  lemma EmptyRecord(cfg: Config, c: Codec, w: Wal, layout: seq<seq<WalEntry>>, no: nat)
    requires Tracked(cfg, c, w, layout, no) && no == 0
    ensures GoodLog(cfg, c, w, layout, no) && w.lastSnapshot == no
  {
    hide Shape, Covered, Flat;
  }

  lemma StartedEntries(cfg: Config, c: Codec, p: Pair, layout: seq<seq<WalEntry>>, es: seq<WalEntry>, no: nat)
    requires Lossless(c) && cfg.maxSegs >= 2 && Tracked(cfg, c, p.wal, layout, no) && layout != []
    requires AllGood(c, es) && RecordsFit(cfg, c, p, es) && p.wal.lastSeg + 2 * |es| < TWO_TO_64
    ensures AllApplied(cfg, c, p, es).Ok?
    ensures var w, layout' := AllApplied(cfg, c, p, es).value.wal, Laid(cfg, c, p, layout, es);
            && (GoodLog(cfg, c, w.(lastSnapshot := no), layout', no) <==> forall i: nat :: !Skips(cfg, c, p, es, i))
            && (GoodLog(cfg, c, w.(lastSnapshot := no), layout', no) ==> OnlyDeletes(c, Flat(layout), Flat(layout')))
  {
    hide Shape, Skips, RecordsFit, Laid, AllApplied, GoodLog, Flat, Covered, AllGood;
    AheadIffSkips(cfg, c, p, layout, es);
    AppliedIsFlushed(cfg, c, p, es);
    var w, layout' := AllApplied(cfg, c, p, es).value.wal, Laid(cfg, c, p, layout, es);
    RecordedLog(cfg, c, w, layout', no);
    if forall i: nat :: !Skips(cfg, c, p, es, i) {
      TrackedAll(cfg, c, p, layout, es, no);
    }
  }

  /** So reclaiming is safe for the started server itself: what its snapshot does not cover is there, and
      an append, with the rotations it makes, leaves it there and the log as good as before. */
  lemma StartedServerReclaimsSafely(cfg: Config, c: Codec, w: Wal, layout: seq<seq<WalEntry>>, no: nat,
                                    s: nat, i: nat, data: seq<byte>, isDelete: bool)
    requires Proper(cfg, c) && GoodLog(cfg, c, w, layout, no) && w.lastSeg + 1 < TWO_TO_64
    requires Good(c, MakeEntry(c, w.lastSeq + 1, data, isDelete))
    ensures 1 <= s <= |layout| && i < |layout[s - 1]| && layout[s - 1][i].seqNo > no ==> s in w.segs
    ensures var r := AppendEntry(cfg, c, w, data, isDelete);
            r.Done? ==> GoodLog(cfg, c, r.wal, Appended(c, w, r.wal, layout, data, isDelete), no)
  {
    hide EncodeFile, AppendEntry, Appended, Flat, Survived, Good, Before;
    if 1 <= s <= |layout| && i < |layout[s - 1]| {
      EntryUpTo(cfg, c, layout, s, i);
    }
    if AppendEntry(cfg, c, w, data, isDelete).Done? {
      AppendIsSafe(cfg, c, w, layout, data, isDelete, no);
    }
  }

  lemma EntryUpTo(cfg: Config, c: Codec, layout: seq<seq<WalEntry>>, s: nat, i: nat)
    requires GoodLayout(cfg, c, layout) && 1 <= s <= |layout| && i < |layout[s - 1]|
    ensures layout[s - 1][i].seqNo <= Before(layout, s)
  {
    hide Flat, EncodeFile, Good;
    BeforeStep(layout, s);
    SegmentNumbers(layout, s - 1);
  }
}
