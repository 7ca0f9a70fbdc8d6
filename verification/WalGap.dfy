/** An error-free run, meeting every condition, after which start-up fails: a rotation with more
    segment files than the limit removes one in the middle. */
module WalGap {
  import opened Results
  import opened Bytes
  import opened Frames
  import opened History
  import opened WalCodec
  import opened Layout
  import opened WalLog
  import opened WalScan
  import opened SnapshotFile
  import opened WalProtocol
  import opened WalSafety
  import opened WalTheorems
  import opened WalRecovery
  import opened WalExample
  import opened WalSteps

  /** The same file is added four times; the last append comes between the recording of the snapshot
      that covers the first three and its cleanup. */
  function GapRun(meta: FileMetadata): (evs: seq<Event>)
    ensures |evs| == 12
  {
    var add := Append(meta, false);
    [add, add, add, FlushTimer, UpdateMap(1), UpdateMap(2), UpdateMap(3), Capture, Clone([meta.name]), Rename,
     Record, add]
  }

  function Entry(c: Codec, meta: FileMetadata, no: nat): (e: WalEntry) {
    MakeEntry(c, no, c.encMeta(meta), false)
  }

  function Framed(c: Codec, meta: FileMetadata, no: nat): (f: seq<byte>) {
    Frame(c.encEntry(Entry(c, meta, no)))
  }

  function Size(c: Codec, meta: FileMetadata, no: nat): (n: nat) {
    |c.encEntry(Entry(c, meta, no))| + 4
  }

  /** Two segment files at most, each with room for one of the entries and not for two. */
  predicate OneEach(cfg: Config, c: Codec, meta: FileMetadata) {
    && cfg.maxSegs == 2 && Fits(c.encMeta(meta))
    && (forall no :: 1 <= no <= 4 ==> Fits(c.encEntry(Entry(c, meta, no))) && Size(c, meta, no) < cfg.maxSize)
    && (forall no :: 1 <= no <= 3 ==> Size(c, meta, no) + Size(c, meta, no + 1) >= cfg.maxSize)
  }

  /** The log after the first n appends, before the flush. */
  function Buffered(c: Codec, meta: FileMetadata, n: nat): (w: Wal)
    requires 1 <= n <= 3
  {
    var f1, f2, f3 := Framed(c, meta, 1), Framed(c, meta, 2), Framed(c, meta, 3);
    if n == 1 then Wal(map[1 := []], 1, Size(c, meta, 1), 1, 0, f1, 0)
    else if n == 2 then Wal(map[1 := f1, 2 := []], 2, Size(c, meta, 2), 2, 0, f2, 1)
    else Wal(map[1 := f1, 2 := f2, 3 := []], 3, Size(c, meta, 3), 3, 0, f3, 2)
  }

  function Waiting(meta: FileMetadata, from: nat, n: nat): (p: map<nat, Waiter>) {
    map j | j in Range(from, n + 1) :: Waiter(Behind(j), Put(meta))
  }

  function Behind(j: nat): (gen: nat) {
    if j == 0 then 0 else j - 1
  }

  function Placed(c: Codec, meta: FileMetadata, n: nat): (layout: seq<seq<WalEntry>>) {
    seq(n, i requires 0 <= i < n => [Entry(c, meta, i + 1)])
  }

  function Flushed(c: Codec, meta: FileMetadata): (w: Wal) {
    Wal(map[1 := Framed(c, meta, 1), 2 := Framed(c, meta, 2), 3 := Framed(c, meta, 3)], 3, Size(c, meta, 3), 3, 0, [],
        3)
  }

  /** The state after the first n events of that run. */
  function Stage(c: Codec, meta: FileMetadata, n: nat): (st: Sys)
    requires n <= 12
  {
    var w, files, image, layout := Flushed(c, meta), map[meta.name := meta], Image(c, 3, [meta]), Placed(c, meta, 3);
    if n == 0 then EMPTY_DIRECTORY
    else if n <= 3 then
      Sys(Buffered(c, meta, n), map[], None, [], Waiting(meta, 1, n), Idle, Serving, Placed(c, meta, n), Complete)
    else if n == 4 then Sys(w, map[], None, [], Waiting(meta, 1, 3), Idle, Serving, layout, Complete)
    else if n <= 7 then Sys(w, files, None, [], Waiting(meta, n - 3, 3), Idle, Serving, layout, Complete)
    else if n == 8 then Sys(w, files, None, [], map[], Captured(3, 3), Serving, layout, Complete)
    else if n == 9 then Sys(w, files, None, [], map[], Cloned(3, 3, image), Serving, layout, Complete)
    else if n == 10 then Sys(w, files, Some(image), [], map[], Renamed(3, 3), Serving, layout, Complete)
    else if n == 11 then
      Sys(w.(lastSnapshot := 3), files, Some(image), [], map[], Cleaning(3), Serving, layout, Complete)
    else
      Sys(Wal(map[1 := Framed(c, meta, 1), 3 := Framed(c, meta, 3), 4 := []], 4, Size(c, meta, 4), 4, 3,
              Framed(c, meta, 4), 4),
          files, Some(image), [], map[4 := Waiter(4, Put(meta))], Cleaning(3), Serving, Placed(c, meta, 4), Complete)
  }

  lemma NoneWaiting(meta: FileMetadata)
    ensures Waiting(meta, 1, 0) == map[]
  {
  }

  lemma OneMoreWaits(meta: FileMetadata, n: nat)
    ensures Waiting(meta, 1, n)[n + 1 := Waiter(n, Put(meta))] == Waiting(meta, 1, n + 1)
  {
    assert Range(1, n + 2) == Range(1, n + 1) + {n + 1};
  }

  lemma OneWaitsLess(meta: FileMetadata, j: nat)
    requires 1 <= j <= 3
    ensures Waiting(meta, j, 3) - {j} == Waiting(meta, j + 1, 3)
    ensures Waiting(meta, j, 3).Keys == Range(j, 4) && Waiting(meta, j, 3)[j] == Waiter(j - 1, Put(meta))
  {
    assert Range(j, 4) - {j} == Range(j + 1, 4);
  }

  // ---- The appends ----

  lemma PlacedOneMore(c: Codec, meta: FileMetadata, n: nat)
    ensures Push(Pad(Placed(c, meta, n), n + 1), Entry(c, meta, n + 1)) == Placed(c, meta, n + 1)
  {
    assert Pad(Placed(c, meta, n), n + 1) == Placed(c, meta, n) + [[]];
    assert [] + [Entry(c, meta, n + 1)] == [Entry(c, meta, n + 1)];
  }

  /** An append that finds the current segment full: one rotation, then the entry. */
  lemma RotatingAppend(cfg: Config, c: Codec, meta: FileMetadata, w: Wal, w1: Wal)
    requires w.curSize < cfg.maxSize <= w.curSize + Size(c, meta, w.lastSeq + 1)
    requires AddNewLogFile(cfg, c, w.(lastSeq := w.lastSeq + 1)) == Done(w1) && w1.buf == [] && w1.curSize == 0
    ensures AppendEntry(cfg, c, w, c.encMeta(meta), false) ==
            Done(w1.(buf := Framed(c, meta, w.lastSeq + 1), curSize := Size(c, meta, w.lastSeq + 1)))
  {
    hide AddNewLogFile, Frame;
    assert [] + Framed(c, meta, w.lastSeq + 1) == Framed(c, meta, w.lastSeq + 1);
  }

  lemma AppendGives(cfg: Config, c: Codec, st: Sys, meta: FileMetadata, w: Wal)
    requires OneEach(cfg, c, meta) && st.wal.lastSeg <= 4 && st.wal.lastSeq <= 3
    requires st.mode.Serving? && !st.rotation.Halted?
    requires AppendEntry(cfg, c, st.wal, c.encMeta(meta), false) == Done(w)
    ensures Next(cfg, c, st, Append(meta, false)) ==
            Some(st.(wal := w, layout := Push(Pad(st.layout, w.lastSeg), Entry(c, meta, st.wal.lastSeq + 1)),
                     pending := st.pending[w.lastSeq := Waiter(w.gen, Put(meta))]))
  {
    hide AppendEntry, Push, Pad;
  }

  lemma FirstAppend(cfg: Config, c: Codec, meta: FileMetadata)
    requires OneEach(cfg, c, meta)
    ensures Next(cfg, c, Stage(c, meta, 0), Append(meta, false)) == Some(Stage(c, meta, 1))
  {
    hide Frame;
    var w := EMPTY_DIRECTORY.wal;
    assert [] + Framed(c, meta, 1) == Framed(c, meta, 1);
    assert Size(c, meta, 1) < cfg.maxSize;
    assert AppendEntry(cfg, c, w, c.encMeta(meta), false) == Done(Buffered(c, meta, 1));
    AppendGives(cfg, c, EMPTY_DIRECTORY, meta, Buffered(c, meta, 1));
    PlacedOneMore(c, meta, 0);
    assert Push(Pad([[]], 1), Entry(c, meta, 1)) == Placed(c, meta, 1);
    NoneWaiting(meta);
    OneMoreWaits(meta, 0);
  }

  lemma SecondAppend(cfg: Config, c: Codec, meta: FileMetadata)
    requires OneEach(cfg, c, meta)
    ensures Next(cfg, c, Stage(c, meta, 1), Append(meta, false)) == Some(Stage(c, meta, 2))
  {
    hide Frame;
    var w := Buffered(c, meta, 1);
    var w1 := w.(segs := map[1 := Framed(c, meta, 1), 2 := []], lastSeg := 2, curSize := 0, lastSeq := 2, buf := [],
        gen := 1);
    assert [] + Framed(c, meta, 1) == Framed(c, meta, 1);
    assert OpenNext(w.(lastSeq := 2)).segs == w1.segs;
    assert AddNewLogFile(cfg, c, w.(lastSeq := 2)) == Done(w1);
    assert Size(c, meta, 1) + Size(c, meta, 2) >= cfg.maxSize;
    RotatingAppend(cfg, c, meta, w, w1);
    AppendGives(cfg, c, Stage(c, meta, 1), meta, Buffered(c, meta, 2));
    PlacedOneMore(c, meta, 1);
    OneMoreWaits(meta, 1);
  }

  lemma NewestOf(c: Codec, meta: FileMetadata, segs: map<nat, seq<byte>>, s: nat)
    requires Lossless(c) && Fits(c.encEntry(Entry(c, meta, s))) && s in segs && segs[s] == Framed(c, meta, s)
    ensures LastNumber(c, segs, s) == Ok(s)
  {
    hide Frame, TailScan;
    OneEntry(c, Entry(c, meta, s));
  }

  /** The oldest segment has to stay, so the limit is exceeded. */
  lemma ThirdAppend(cfg: Config, c: Codec, meta: FileMetadata)
    requires OneEach(cfg, c, meta) && Lossless(c)
    ensures Next(cfg, c, Stage(c, meta, 2), Append(meta, false)) == Some(Stage(c, meta, 3))
  {
    hide Frame, LastNumber;
    var w := Buffered(c, meta, 2);
    var w1 := ThirdRotation(cfg, c, meta);
    assert Size(c, meta, 2) + Size(c, meta, 3) >= cfg.maxSize;
    RotatingAppend(cfg, c, meta, w, w1);
    hide AppendEntry, AddNewLogFile;
    AppendGives(cfg, c, Stage(c, meta, 2), meta, Buffered(c, meta, 3));
    PlacedOneMore(c, meta, 2);
    OneMoreWaits(meta, 2);
  }

  lemma TwoFiles(f1: seq<byte>, f2: seq<byte>)
    ensures map[1 := f1, 2 := []][2 := f2][3 := []] == map[1 := f1, 2 := f2, 3 := []]
    ensures map[1 := f1, 2 := f2].Keys == {1, 2} && |map[1 := f1, 2 := f2]| == 2
  {
    var m := map[1 := f1, 2 := f2];
    assert m.Keys == {1, 2} && |m| == |m.Keys|;
  }

  lemma ThreeFiles(f1: seq<byte>, f2: seq<byte>, f3: seq<byte>)
    ensures (map[1 := f1, 2 := f2, 3 := f3] - {2})[3 := f3][4 := []] == map[1 := f1, 3 := f3, 4 := []]
    ensures |map[1 := f1, 2 := f2, 3 := f3]| == 3
  {
    var m := map[1 := f1, 2 := f2, 3 := f3];
    assert m.Keys == {1, 2, 3} && |m| == |m.Keys|;
    assert (m - {2})[3 := f3][4 := []] == map[1 := f1, 3 := f3, 4 := []];
  }

  lemma ThirdRotation(cfg: Config, c: Codec, meta: FileMetadata) returns (w1: Wal)
    requires OneEach(cfg, c, meta) && Lossless(c)
    ensures w1 == Buffered(c, meta, 3).(buf := [], curSize := 0)
    ensures AddNewLogFile(cfg, c, Buffered(c, meta, 2).(lastSeq := 3)) == Done(w1)
  {
    hide Framed, LastNumber, Size, OpenNext, AddNewLogFile;
    var w := Buffered(c, meta, 2).(lastSeq := 3);
    w1 := Buffered(c, meta, 3).(buf := [], curSize := 0);
    assert [] + Framed(c, meta, 2) == Framed(c, meta, 2);
    TwoFiles(Framed(c, meta, 1), Framed(c, meta, 2));
    TwoFiles(Framed(c, meta, 1), []);
    OpenedNext(w, 2, Framed(c, meta, 2));
    NewestOf(c, meta, w.segs, 1);
    FullRotation(cfg, c, w, 1, 1);
  }

  /** Above the limit, rotation removes segment 2 and leaves segment 1. */
  lemma LastRotation(cfg: Config, c: Codec, meta: FileMetadata) returns (w1: Wal)
    requires OneEach(cfg, c, meta) && Lossless(c)
    ensures w1 == Wal(map[1 := Framed(c, meta, 1), 3 := Framed(c, meta, 3), 4 := []], 4, 0, 4, 3, [], 4)
    ensures AddNewLogFile(cfg, c, Flushed(c, meta).(lastSeq := 4, lastSnapshot := 3)) == Done(w1)
  {
    hide Framed, LastNumber, Size, OpenNext, AddNewLogFile;
    var w := Flushed(c, meta).(lastSeq := 4, lastSnapshot := 3);
    w1 := Wal(map[1 := Framed(c, meta, 1), 3 := Framed(c, meta, 3), 4 := []], 4, 0, 4, 3, [], 4);
    assert Framed(c, meta, 3) + [] == Framed(c, meta, 3);
    ThreeFiles(Framed(c, meta, 1), Framed(c, meta, 2), Framed(c, meta, 3));
    OpenedNext(w.(segs := w.segs - {2}), 3, Framed(c, meta, 3));
    NewestOf(c, meta, w.segs, 2);
    FullRotation(cfg, c, w, 2, 2);
  }

  lemma LastAppend(cfg: Config, c: Codec, meta: FileMetadata)
    requires OneEach(cfg, c, meta) && Lossless(c)
    ensures Next(cfg, c, Stage(c, meta, 11), Append(meta, false)) == Some(Stage(c, meta, 12))
  {
    hide Framed, LastNumber, Image, AddNewLogFile, AppendEntry;
    var st := Stage(c, meta, 11);
    var w1 := LastRotation(cfg, c, meta);
    assert Size(c, meta, 3) + Size(c, meta, 4) >= cfg.maxSize;
    RotatingAppend(cfg, c, meta, st.wal, w1);
    AppendGives(cfg, c, st, meta, Stage(c, meta, 12).wal);
    PlacedOneMore(c, meta, 3);
    assert st.pending[4 := Waiter(4, Put(meta))] == map[4 := Waiter(4, Put(meta))];
  }

  // ---- The steps between ----

  lemma Flushes(cfg: Config, c: Codec, meta: FileMetadata)
    ensures Next(cfg, c, Stage(c, meta, 3), FlushTimer) == Some(Stage(c, meta, 4))
  {
    hide Framed, Image, Size, Waiting, Placed;
    var w := Buffered(c, meta, 3);
    assert [] + Framed(c, meta, 3) == Framed(c, meta, 3);
    assert Drain(w) == Flushed(c, meta).segs;
  }

  lemma Updates(cfg: Config, c: Codec, meta: FileMetadata, n: nat, j: nat)
    requires 4 <= n <= 6 && j == n - 3
    ensures Next(cfg, c, Stage(c, meta, n), UpdateMap(j)) == Some(Stage(c, meta, n + 1))
  {
    hide Flushed, Image, Waiting, Placed;
    var st := Stage(c, meta, n);
    OneWaitsLess(meta, j);
    assert st.wal.gen == 3 by {
      FlushedGen(c, meta);
    }
    FirstInLine(st.pending, j);
    assert ApplyOp(st.files, Put(meta)) == map[meta.name := meta];
  }

  lemma FlushedGen(c: Codec, meta: FileMetadata)
    ensures Flushed(c, meta).gen == 3
  {
    hide Framed, Size;
  }

  lemma FirstInLine(pending: map<nat, Waiter>, j: nat)
    requires pending.Keys == Range(j, 4)
    ensures forall k :: k in pending ==> j <= k
  {
    assert forall k :: k in pending ==> k in pending.Keys;
  }

  lemma Snapshots(cfg: Config, c: Codec, meta: FileMetadata, n: nat)
    requires 7 <= n <= 10 && Fits(c.encMeta(meta))
    ensures Next(cfg, c, Stage(c, meta, n), GapRun(meta)[n]) == Some(Stage(c, meta, n + 1))
  {
    hide Frame, Image;
    if n == 7 {
      assert Waiting(meta, 4, 3) == map[];
    } else if n == 8 {
      var files := map[meta.name := meta];
      assert Enumerates([meta.name], files) && Listed(files, [meta.name]) == [meta];
      assert Records(c, [meta]) == [c.encMeta(meta)];
    } else if n == 9 {
      assert Image(c, 3, [meta]) + [] == Image(c, 3, [meta]);
    }
  }

  lemma EveryStep(cfg: Config, c: Codec, meta: FileMetadata, n: nat)
    requires OneEach(cfg, c, meta) && Lossless(c) && n < 12
    ensures Next(cfg, c, Stage(c, meta, n), GapRun(meta)[n]) == Some(Stage(c, meta, n + 1))
  {
    hide Next, Stage, OneEach;
    if n == 0 {
      FirstAppend(cfg, c, meta);
    } else if n == 1 {
      SecondAppend(cfg, c, meta);
    } else if n == 2 {
      ThirdAppend(cfg, c, meta);
    } else if n == 3 {
      Flushes(cfg, c, meta);
    } else if n <= 6 {
      Updates(cfg, c, meta, n, n - 3);
    } else if n <= 10 {
      MetadataFits(cfg, c, meta);
      Snapshots(cfg, c, meta, n);
    } else {
      LastAppend(cfg, c, meta);
    }
  }

  lemma NothingRun(c: Codec, meta: FileMetadata)
    ensures Stage(c, meta, 0) == EMPTY_DIRECTORY
  {
  }

  lemma {:induction false} ReachesGap(cfg: Config, c: Codec, meta: FileMetadata, n: nat)
    requires OneEach(cfg, c, meta) && Lossless(c) && n <= 12
    ensures Run(cfg, c, GapRun(meta)[..n]) == Some(Stage(c, meta, n))
  {
    hide Next, Stage, OneEach, GapRun;
    if n == 0 {
      NothingRun(c, meta);
    } else {
      var evs := GapRun(meta);
      ReachesGap(cfg, c, meta, n - 1);
      assert evs[..n][..n - 1] == evs[..n - 1];
      EveryStep(cfg, c, meta, n - 1);
    }
  }

  lemma MetadataFits(cfg: Config, c: Codec, meta: FileMetadata)
    requires OneEach(cfg, c, meta)
    ensures Fits(c.encMeta(meta)) && cfg.maxSegs >= 2
  {
  }

  /** After that run three acknowledged adds are covered by a published snapshot, and yet a start-up
      fails: it looks for as many files as there are, ending at the last, and segment 2 is gone. */
  lemma RecoveryCanFail(cfg: Config, c: Codec, meta: FileMetadata)
    requires OneEach(cfg, c, meta) && Lossless(c)
    ensures Proper(cfg, c) && Run(cfg, c, GapRun(meta)).Some?
    ensures var st := After(cfg, c, GapRun(meta));
            && st.snap.Some? && Acknowledged(st, 3) && st.wal.segs.Keys == {1, 3, 4}
            && Directory(st) == st.wal.segs && Recovered(cfg, c, Directory(st), st.snap).Err?
  {
    hide *;
    MetadataFits(cfg, c, meta);
    ProperIf(cfg, c);
    ReachesGap(cfg, c, meta, 12);
    assert GapRun(meta)[..12] == GapRun(meta);
    AfterIs(cfg, c, GapRun(meta), Stage(c, meta, 12));
    GapHolds(c, meta);
    RecoveryCompletesIff(cfg, c, GapRun(meta));
  }

  lemma GapHolds(c: Codec, meta: FileMetadata)
    ensures var st := Stage(c, meta, 12);
            && st.snap.Some? && Acknowledged(st, 3) && st.wal.segs.Keys == {1, 3, 4} && Directory(st) == st.wal.segs
            && !Contiguous(st.wal.segs.Keys, st.wal.lastSeg)
  {
    hide Image, Framed;
    hide Contiguous;
    var st := Stage(c, meta, 12);
    assert st.wal.segs.Keys == {1, 3, 4};
    MiddleMissing(st.wal.segs.Keys);
  }

  lemma MiddleMissing(keys: set<nat>)
    requires keys == {1, 3, 4}
    ensures !Contiguous(keys, 4)
  {
    assert |keys| == 3;
    assert 2 in Range(2, 5) && 2 !in keys;
  }
}
