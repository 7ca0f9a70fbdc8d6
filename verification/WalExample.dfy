/** A run that meets every condition of the theorems: one file is added, the snapshot that covers it is
    published, and recovery finds it. */
module WalExample {
  import opened Results
  import opened Frames
  import opened History
  import opened WalCodec
  import opened Layout
  import opened WalLog
  import opened WalScan
  import opened SnapshotFile
  import opened WalProtocol
  import opened WalSafety
  import opened LogReplay
  import opened WalTheorems
  import opened WalRecovery

  function AddOneFile(meta: FileMetadata): (evs: seq<Event>) {
    [Append(meta, false), FlushTimer, UpdateMap(1), Capture, Clone([meta.name]), Rename, Record]
  }

  /** The state after the first n of those events. */
  ghost function Stage(c: Codec, meta: FileMetadata, n: nat): (st: Sys)
    requires n <= 7
  {
    var e := MakeEntry(c, 1, c.encMeta(meta), false);
    var f := Frame(c.encEntry(e));
    var size := |c.encEntry(e)| + 4;
    var image := Image(c, 1, [meta]);
    var waiting := map[1 := Waiter(0, Put(meta))];
    var files := map[meta.name := meta];
    var buffered := Wal(map[1 := []], 1, size, 1, 0, f, 0);
    var flushed := Wal(map[1 := f], 1, size, 1, 0, [], 1);
    match n
    case 0 => EMPTY_DIRECTORY
    case 1 => Sys(buffered, map[], None, [], waiting, Idle, Serving, [[e]], Complete)
    case 2 => Sys(flushed, map[], None, [], waiting, Idle, Serving, [[e]], Complete)
    case 3 => Sys(flushed, files, None, [], map[], Idle, Serving, [[e]], Complete)
    case 4 => Sys(flushed, files, None, [], map[], Captured(1, 1), Serving, [[e]], Complete)
    case 5 => Sys(flushed, files, None, [], map[], Cloned(1, 1, image), Serving, [[e]], Complete)
    case 6 => Sys(flushed, files, Some(image), [], map[], Renamed(1, 1), Serving, [[e]], Complete)
    case 7 => Sys(flushed.(lastSnapshot := 1), files, Some(image), [], map[], Cleaning(1), Serving, [[e]], Complete)
  }

  /** Room for the entry in the first segment, and records of representable length. */
  ghost predicate SmallEnough(cfg: Config, c: Codec, meta: FileMetadata) {
    var e := MakeEntry(c, 1, c.encMeta(meta), false);
    |c.encEntry(e)| + 4 < cfg.maxSize && Fits(c.encEntry(e)) && Fits(c.encMeta(meta))
  }

  lemma FirstStage(cfg: Config, c: Codec, meta: FileMetadata)
    requires Proper(cfg, c) && SmallEnough(cfg, c, meta)
    ensures Next(cfg, c, Stage(c, meta, 0), Append(meta, false)) == Some(Stage(c, meta, 1))
  {
    hide AddNewLogFile, Frame, MakeEntry;
    var w, data := EMPTY_DIRECTORY.wal, c.encMeta(meta);
    var e := MakeEntry(c, 1, data, false);
    var body := c.encEntry(e);
    assert [] + Frame(body) == Frame(body);
    assert Reserve(cfg, c, w, |body|) == Done(w.(lastSeq := 1));
    var w' := Wal(map[1 := []], 1, |body| + 4, 1, 0, Frame(body), 0);
    assert AppendEntry(cfg, c, w, data, false) == Done(w');
    assert Pad([[]], 1) == [[]];
    assert [] + [e] == [e];
    assert Appended(c, w, w', [[]], data, false) == [[e]];
    var none: map<nat, Waiter> := map[];
    assert none[1 := Waiter(0, Put(meta))] == map[1 := Waiter(0, Put(meta))];
  }

  lemma CloneStage(cfg: Config, c: Codec, meta: FileMetadata)
    requires Proper(cfg, c) && SmallEnough(cfg, c, meta)
    ensures Next(cfg, c, Stage(c, meta, 4), Clone([meta.name])) == Some(Stage(c, meta, 5))
  {
    var files := map[meta.name := meta];
    assert Listed(files, [meta.name]) == [meta];
    hide Image, Frame;
  }

  lemma LaterStages(cfg: Config, c: Codec, meta: FileMetadata)
    ensures Next(cfg, c, Stage(c, meta, 1), FlushTimer) == Some(Stage(c, meta, 2))
    ensures Next(cfg, c, Stage(c, meta, 2), UpdateMap(1)) == Some(Stage(c, meta, 3))
    ensures Next(cfg, c, Stage(c, meta, 3), Capture) == Some(Stage(c, meta, 4))
    ensures Next(cfg, c, Stage(c, meta, 5), Rename) == Some(Stage(c, meta, 6))
    ensures Next(cfg, c, Stage(c, meta, 6), Record) == Some(Stage(c, meta, 7))
  {
    hide Image, Frame;
    var image := Image(c, 1, [meta]);
    assert image + [] == image;
    var f := Frame(c.encEntry(MakeEntry(c, 1, c.encMeta(meta), false)));
    assert [] + f == f;
    assert Drain(Stage(c, meta, 1).wal) == map[1 := f];
    var waiting := map[1 := Waiter(0, Put(meta))];
    assert waiting - {1} == map[];
  }

  lemma {:induction false} ReachesStage(cfg: Config, c: Codec, meta: FileMetadata, n: nat)
    requires Proper(cfg, c) && SmallEnough(cfg, c, meta) && n <= 7
    ensures Run(cfg, c, AddOneFile(meta)[..n]) == Some(Stage(c, meta, n))
  {
    hide Next, Stage;
    if n == 0 {
      NothingYet(c, meta);
    } else {
      var evs := AddOneFile(meta);
      ReachesStage(cfg, c, meta, n - 1);
      assert evs[..n][..n - 1] == evs[..n - 1];
      FirstStage(cfg, c, meta);
      CloneStage(cfg, c, meta);
      LaterStages(cfg, c, meta);
    }
  }

  lemma NothingYet(c: Codec, meta: FileMetadata)
    ensures Stage(c, meta, 0) == EMPTY_DIRECTORY
  {
  }

  /** The conditions can be met: after this run a crash and a start-up give the file back. */
  lemma AddedFileIsRecovered(cfg: Config, c: Codec, meta: FileMetadata)
    requires Proper(cfg, c) && SmallEnough(cfg, c, meta)
    ensures Run(cfg, c, AddOneFile(meta)).Some?
    ensures var st := After(cfg, c, AddOneFile(meta));
            st.snap.Some? && Recovered(cfg, c, Directory(st), st.snap) == Ok(map[meta.name := meta])
  {
    hide Run, Next, Recovered, MapAfter, Stage, Parse, WalkEnds, Contiguous, Trimmed, Survived, FitsLastFile;
    hide SmallEnough, LosesDelete;
    var evs := AddOneFile(meta);
    assert evs[..7] == evs;
    ReachesStage(cfg, c, meta, 7);
    var st := After(cfg, c, evs);
    StartsUp(cfg, c, meta, st);
    InitSucceedsIff(cfg, c, st.wal, st.layout);
    RecoveryCompletesIff(cfg, c, evs);
    RecoveryIsExact(cfg, c, evs);
    NoDeleteToLog(cfg, c, meta, st);
    RoomKeepsDeletes(cfg, c, evs);
  }

  lemma OneFileReads(c: Codec, e: WalEntry)
    requires Lossless(c) && Good(c, e) && e.seqNo == 1
    ensures ReadAll(c, map[1 := Frame(c.encEntry(e))], 1, 1) == Ok([e])
  {
    var f := Frame(c.encEntry(e));
    var segs := map[1 := f];
    EncodeSnoc(c, [], e);
    assert [] + [e] == [e] && EncodeFile(c, []) + f == f;
    ReadFileWhole(c, [e], 1);
    hide Frame, EncodeFile, ReadFile;
    assert |segs| == |segs.Keys| && segs.Keys == {1};
    assert ReadFrom(c, segs, 1, 0, 1) == Ok([]);
  }

  /** Only an add is replayed. */
  lemma NoDeleteToLog(cfg: Config, c: Codec, meta: FileMetadata, st: Sys)
    requires Proper(cfg, c) && SmallEnough(cfg, c, meta) && st == Stage(c, meta, 7)
    ensures FitsLastFile(cfg, c, Directory(st), st.snap.value)
  {
    var e := MakeEntry(c, 1, c.encMeta(meta), false);
    OneEntry(c, e);
    OneFileReads(c, e);
    OneFileInit(cfg, c, e);
    hide Frame, ReadAll, DecodeSnapshot, InitWal, TailScan, Image;
    if Begun(cfg, c, Directory(st), st.snap.value).Ok? {
      var (p, es) := Begun(cfg, c, Directory(st), st.snap.value).value;
      assert es == [e] && es[1..] == [];
      assert DeleteBytes(c, p.files, es, p.wal.lastSeq) == 0;
    }
  }

  lemma OneFileInit(cfg: Config, c: Codec, e: WalEntry)
    requires Lossless(c) && Good(c, e) && e.seqNo == 1
    ensures InitWal(cfg, c, map[1 := Frame(c.encEntry(e))]) ==
            Ok(Wal(map[1 := Frame(c.encEntry(e))], 1, |c.encEntry(e)| + 4, 1, 0, [], 0))
  {
    var segs := map[1 := Frame(c.encEntry(e))];
    OneEntry(c, e);
    hide TailScan;
    assert segs.Keys == {1} && IsMax(segs.Keys, 1);
    OnlyMax(segs.Keys, 1);
  }

  /** The published snapshot is needed: a crash before it loses a file whose add was acknowledged. */
  lemma LostWithoutSnapshot(cfg: Config, c: Codec, meta: FileMetadata)
    requires Proper(cfg, c) && SmallEnough(cfg, c, meta)
    ensures var evs := [Append(meta, false), FlushTimer, UpdateMap(1)];
            && Run(cfg, c, evs).Some?
            && var st := After(cfg, c, evs);
               && Acknowledged(st, 1) && st.files == MapAfter(Durable(cfg, c, st)) == map[meta.name := meta]
               && Recovered(cfg, c, Directory(st), st.snap) == Ok(map[])
  {
    hide Run, Next, SmallEnough, MapAfter, Parse;
    var evs := [Append(meta, false), FlushTimer, UpdateMap(1)];
    assert AddOneFile(meta)[..3] == evs;
    ReachesStage(cfg, c, meta, 3);
    var st := After(cfg, c, evs);
    DurableIsOnePut(cfg, c, meta, st, 3);
    OnePut(meta);
    OneFileStarts(cfg, c, meta, st, 3);
  }

  lemma OneFileStarts(cfg: Config, c: Codec, meta: FileMetadata, st: Sys, n: nat)
    requires Proper(cfg, c) && SmallEnough(cfg, c, meta) && 2 <= n <= 7 && st == Stage(c, meta, n)
    ensures InitWal(cfg, c, st.wal.segs).Ok?
  {
    assert st.wal.segs.Keys == {1};
    assert MaxKey(st.wal.segs.Keys) == 1;
    OneEntry(c, MakeEntry(c, 1, c.encMeta(meta), false));
  }

  lemma StartsUp(cfg: Config, c: Codec, meta: FileMetadata, st: Sys)
    requires Proper(cfg, c) && SmallEnough(cfg, c, meta) && st == Stage(c, meta, 7) && LogOk(cfg, c, st)
    ensures InitWal(cfg, c, st.wal.segs).Ok? && st.snap.Some?
    ensures Contiguous(st.wal.segs.Keys, st.wal.lastSeg)
    ensures MapAfter(Durable(cfg, c, st)) == map[meta.name := meta]
  {
    assert st.wal.segs.Keys == {1};
    assert MaxKey(st.wal.segs.Keys) == 1;
    OneEntry(c, MakeEntry(c, 1, c.encMeta(meta), false));
    hide Frame, Parse, TailScan, EncodeFile, Shape, Survived, Flat, MapAfter;
    DurableIsOnePut(cfg, c, meta, st, 7);
    OnePut(meta);
  }

  lemma OnePut(meta: FileMetadata)
    ensures MapAfter([Put(meta)]) == map[meta.name := meta]
  {
    assert [Put(meta)][..0] == [];
    assert Replay(map[], []) == map[];
  }

  lemma DurableIsOnePut(cfg: Config, c: Codec, meta: FileMetadata, st: Sys, n: nat)
    requires Proper(cfg, c) && SmallEnough(cfg, c, meta) && LogOk(cfg, c, st)
    requires 2 <= n <= 7 && st == Stage(c, meta, n)
    ensures Durable(cfg, c, st) == [Put(meta)]
  {
    var e := MakeEntry(c, 1, c.encMeta(meta), false);
    OneEntry(c, e);
    LogLength(cfg, c, st);
    assert Survived(st.wal, st.layout) == Flat(st.layout) by {
      SurvivedCount(cfg, c, st.wal, st.layout);
    }
    OneStage(c, meta, n);
    assert OpOf(c, e) == Put(meta);
    hide Shape, Survived, Flat, Stage, OpOf, Good, Fits;
  }

  lemma OneStage(c: Codec, meta: FileMetadata, n: nat)
    requires 2 <= n <= 7
    ensures Stage(c, meta, n).layout == [[MakeEntry(c, 1, c.encMeta(meta), false)]] && Stage(c, meta, n).wal.buf == []
  {
    hide Frame, Image;
  }

  lemma OneEntry(c: Codec, e: WalEntry)
    requires Lossless(c) && Good(c, e)
    ensures TailScan(c, Frame(c.encEntry(e))) == Found(e)
    ensures Flat([[e]]) == [e]
  {
    EncodeSnoc(c, [], e);
    assert [] + [e] == [e] && EncodeFile(c, []) + Frame(c.encEntry(e)) == Frame(c.encEntry(e));
    TailScanWhole(c, [e]);
    FlatEmptySegment([]);
    FlatPush([[]], e);
  }
}
