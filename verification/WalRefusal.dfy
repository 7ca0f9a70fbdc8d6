/** An error-free run, meeting every condition on runs, after which a start-up completes and brings an
    acknowledged delete back: the log refuses the delete that start-up logs again. */
module WalRefusal {
  import opened Results
  import opened Bytes
  import opened Frames
  import opened History
  import opened WalCodec
  import opened Layout
  import opened WalLog
  import opened WalScan
  import opened SnapshotFile
  import opened LogReplay
  import opened WalProtocol
  import opened WalSafety
  import opened WalTheorems
  import opened WalRecovery
  import opened WalStarted
  import opened WalExample
  import opened WalSteps

  /** One file is added, a second one added and deleted; a snapshot of all that is published, and its
      cleanup stops at the empty segment. */
  function RefusalRun(a: FileMetadata, x: FileMetadata): (evs: seq<Event>)
    ensures |evs| == 13
  {
    [Append(a, false), Append(x, false), Append(x, true), FlushTimer, UpdateMap(1), UpdateMap(2), UpdateMap(3),
     Capture, Clone([a.name]), Rename, Record, Reclaim(2), Reclaim(3)]
  }

  function Added(c: Codec, a: FileMetadata): (e: WalEntry) {
    MakeEntry(c, 1, c.encMeta(a), false)
  }

  function Second(c: Codec, x: FileMetadata): (e: WalEntry) {
    MakeEntry(c, 2, c.encMeta(x), false)
  }

  function Third(c: Codec, x: FileMetadata): (e: WalEntry) {
    MakeEntry(c, 3, c.encMeta(x), true)
  }

  /** The delete that start-up is going to log. */
  function Again(c: Codec, x: FileMetadata): (e: WalEntry) {
    MakeEntry(c, 4, c.encMeta(x), true)
  }

  /** Three segment files, as is the default; the first entry fills a segment, each of the others fits
      one and no two of them do. */
  predicate Sizes(cfg: Config, c: Codec, a: FileMetadata, x: FileMetadata) {
    && cfg.maxSegs == 3 && a.name != x.name && Fits(c.encMeta(a))
    && Fits(c.encEntry(Added(c, a))) && Fits(c.encEntry(Second(c, x))) && Fits(c.encEntry(Third(c, x)))
    && cfg.maxSize <= RecordSize(c, Added(c, a)) && 0 < cfg.maxSize
    && RecordSize(c, Second(c, x)) < cfg.maxSize && RecordSize(c, Third(c, x)) < cfg.maxSize
    && cfg.maxSize <= RecordSize(c, Second(c, x)) + RecordSize(c, Third(c, x))
    && cfg.maxSize <= RecordSize(c, Third(c, x)) + RecordSize(c, Again(c, x))
  }

  function F(c: Codec, e: WalEntry): (f: seq<byte>) {
    Frame(c.encEntry(e))
  }

  /** The log after n of the appends; after the flush. */
  function LogAfter(c: Codec, a: FileMetadata, x: FileMetadata, n: nat): (w: Wal) {
    var f1, f2, f3 := F(c, Added(c, a)), F(c, Second(c, x)), F(c, Third(c, x));
    if n == 0 then EMPTY_DIRECTORY.wal
    else if n == 1 then Wal(map[1 := [], 2 := []], 2, RecordSize(c, Added(c, a)), 1, 0, f1, 1)
    else if n == 2 then Wal(map[2 := f1, 3 := [], 4 := []], 4, RecordSize(c, Second(c, x)), 2, 0, f2, 3)
    else if n == 3 then Wal(map[2 := f1, 3 := [], 4 := f2, 5 := []], 5, RecordSize(c, Third(c, x)), 3, 0, f3, 4)
    else Wal(map[2 := f1, 3 := [], 4 := f2, 5 := f3], 5, RecordSize(c, Third(c, x)), 3, 0, [], 5)
  }

  function LayoutAfter(c: Codec, a: FileMetadata, x: FileMetadata, n: nat): (layout: seq<seq<WalEntry>>) {
    if n == 0 then [[]]
    else if n == 1 then [[], [Added(c, a)]]
    else if n == 2 then [[], [Added(c, a)], [], [Second(c, x)]]
    else [[], [Added(c, a)], [], [Second(c, x)], [Third(c, x)]]
  }

  function Waiting(a: FileMetadata, x: FileMetadata, n: nat): (p: map<nat, Waiter>) {
    if n == 0 then map[]
    else if n == 1 then map[1 := Waiter(1, Put(a))]
    else if n == 2 then map[1 := Waiter(1, Put(a)), 2 := Waiter(3, Put(x))]
    else map[1 := Waiter(1, Put(a)), 2 := Waiter(3, Put(x)), 3 := Waiter(4, Del(x.name))]
  }

  /** What is left in the directory. */
  function Leftover(c: Codec, x: FileMetadata): (segs: map<nat, seq<byte>>) {
    map[3 := [], 4 := F(c, Second(c, x)), 5 := F(c, Third(c, x))]
  }

  /** The state after the first n events of that run. */
  function Stage(c: Codec, a: FileMetadata, x: FileMetadata, n: nat): (st: Sys)
    requires n <= 13
  {
    var w, layout, image := LogAfter(c, a, x, 4), LayoutAfter(c, a, x, 3), Image(c, 3, [a]);
    var one, both := map[a.name := a], map[a.name := a, x.name := x];
    var w', left := w.(lastSnapshot := 3), w.(lastSnapshot := 3, segs := Leftover(c, x));
    var p := Waiting(a, x, 3);
    if n <= 3 then
      Sys(LogAfter(c, a, x, n), map[], None, [], Waiting(a, x, n), Idle, Serving, LayoutAfter(c, a, x, n), Complete)
    else if n == 4 then Sys(w, map[], None, [], p, Idle, Serving, layout, Complete)
    else if n == 5 then Sys(w, one, None, [], p - {1}, Idle, Serving, layout, Complete)
    else if n == 6 then Sys(w, both, None, [], p - {1} - {2}, Idle, Serving, layout, Complete)
    else if n == 7 then Sys(w, one, None, [], map[], Idle, Serving, layout, Complete)
    else if n == 8 then Sys(w, one, None, [], map[], Captured(3, 5), Serving, layout, Complete)
    else if n == 9 then Sys(w, one, None, [], map[], Cloned(3, 5, image), Serving, layout, Complete)
    else if n == 10 then Sys(w, one, Some(image), [], map[], Renamed(3, 5), Serving, layout, Complete)
    else if n == 11 then Sys(w', one, Some(image), [], map[], Cleaning(5), Serving, layout, Complete)
    else if n == 12 then Sys(left, one, Some(image), [], map[], Cleaning(5), Serving, layout, Complete)
    else Sys(left, one, Some(image), [], map[], Idle, Serving, layout, Complete)
  }

  // ---- The appends ----

  lemma NewestOf(c: Codec, segs: map<nat, seq<byte>>, s: nat, e: WalEntry)
    requires Lossless(c) && Good(c, e) && s in segs && segs[s] == F(c, e)
    ensures LastNumber(c, segs, s) == Ok(e.seqNo)
  {
    hide Frame, TailScan;
    OneEntry(c, e);
  }

  lemma EntriesGood(cfg: Config, c: Codec, a: FileMetadata, x: FileMetadata)
    requires Lossless(c) && Sizes(cfg, c, a, x)
    ensures Good(c, Added(c, a)) && Good(c, Second(c, x)) && Good(c, Third(c, x))
    ensures OpOf(c, Added(c, a)) == Put(a) && OpOf(c, Second(c, x)) == Put(x) && OpOf(c, Third(c, x)) == Del(x.name)
  {
  }

  lemma FirstMaps(none: seq<byte>)
    requires none == []
    ensures map[1 := none][1 := none][2 := none] == map[1 := none, 2 := none]
    ensures |map[1 := none]| == 1
  {
    assert map[1 := none].Keys == {1} && |map[1 := none]| == |map[1 := none].Keys|;
  }

  lemma FirstLayouts(c: Codec, a: FileMetadata, x: FileMetadata)
    ensures Push(Pad(LayoutAfter(c, a, x, 0), 2), Added(c, a)) == LayoutAfter(c, a, x, 1)
    ensures Push(Pad(LayoutAfter(c, a, x, 1), 4), Second(c, x)) == LayoutAfter(c, a, x, 2)
    ensures Push(Pad(LayoutAfter(c, a, x, 2), 5), Third(c, x)) == LayoutAfter(c, a, x, 3)
  {
    assert [] + [Added(c, a)] == [Added(c, a)];
    assert [] + [Second(c, x)] == [Second(c, x)];
    assert [] + [Third(c, x)] == [Third(c, x)];
    assert Pad(LayoutAfter(c, a, x, 0), 2) == [[], []];
    assert Pad(LayoutAfter(c, a, x, 1), 4) == [[], [Added(c, a)], [], []];
    assert Pad(LayoutAfter(c, a, x, 2), 5) == [[], [Added(c, a)], [], [Second(c, x)], []];
  }

  lemma FirstAppend(cfg: Config, c: Codec, a: FileMetadata, x: FileMetadata)
    requires Lossless(c) && Sizes(cfg, c, a, x)
    ensures Next(cfg, c, Stage(c, a, x, 0), Append(a, false)) == Some(Stage(c, a, x, 1))
  {
    hide F, LastNumber, OpenNext, AddNewLogFile, RecordSize;
    var w, e := EMPTY_DIRECTORY.wal, Added(c, a);
    var w1 := Wal(map[1 := [], 2 := []], 2, 0, 1, 0, [], 1);
    FirstMaps([]);
    OpenedNext(w.(lastSeq := 1), 1, []);
    RoomRotation(cfg, c, w.(lastSeq := 1));
    OneRotation(cfg, c, w, e, w1);
    FirstRecord(c, a, x, w1);
    AppendStep(cfg, c, EMPTY_DIRECTORY, a, false, LogAfter(c, a, x, 1));
    FirstLayouts(c, a, x);
    assert EMPTY_DIRECTORY.pending[1 := Waiter(1, Put(a))] == Waiting(a, x, 1);
  }

  lemma FirstRecord(c: Codec, a: FileMetadata, x: FileMetadata, w1: Wal)
    requires w1 == Wal(map[1 := [], 2 := []], 2, 0, 1, 0, [], 1)
    ensures Write(w1, c.encEntry(Added(c, a))) == LogAfter(c, a, x, 1)
  {
    Written(w1, c.encEntry(Added(c, a)), LogAfter(c, a, x, 1));
  }

  lemma SecondMaps(f: seq<byte>)
    ensures map[1 := [], 2 := []][2 := f][3 := []] == map[1 := [], 2 := f, 3 := []]
    ensures (map[1 := [], 2 := f, 3 := []] - {1})[3 := []][4 := []] == map[2 := f, 3 := [], 4 := []]
    ensures |map[1 := [], 2 := f]| == 2 && |map[1 := [], 2 := f, 3 := []]| == 3
  {
    var m, m' := map[1 := [], 2 := f], map[1 := [], 2 := f, 3 := []];
    assert m.Keys == {1, 2} && |m| == |m.Keys|;
    assert m'.Keys == {1, 2, 3} && |m'| == |m'.Keys|;
    assert (m' - {1})[3 := []][4 := []] == map[2 := f, 3 := [], 4 := []];
  }

  /** Two rotations for one entry: the size is read before the first. They leave an empty segment. */
  lemma SecondAppend(cfg: Config, c: Codec, a: FileMetadata, x: FileMetadata)
    requires Lossless(c) && Sizes(cfg, c, a, x)
    ensures Next(cfg, c, Stage(c, a, x, 1), Append(x, false)) == Some(Stage(c, a, x, 2))
  {
    hide F, AddNewLogFile, RecordSize, AppendEntry;
    var w, e, f := LogAfter(c, a, x, 1), Second(c, x), F(c, Added(c, a));
    var w1 := Wal(map[1 := [], 2 := f, 3 := []], 3, 0, 1, 0, [], 2);
    var w2 := Wal(map[2 := f, 3 := [], 4 := []], 4, 0, 2, 0, [], 3);
    FirstOfTwo(cfg, c, w, f, w1);
    SecondOfTwo(cfg, c, w1, f, w2);
    TwoRotations(cfg, c, w, e, w1, w2);
    SecondRecord(c, a, x, w2);
    hide Write;
    AppendStep(cfg, c, Stage(c, a, x, 1), x, false, LogAfter(c, a, x, 2));
    FirstLayouts(c, a, x);
    assert Waiting(a, x, 1)[2 := Waiter(3, Put(x))] == Waiting(a, x, 2);
  }

  lemma FirstOfTwo(cfg: Config, c: Codec, w: Wal, f: seq<byte>, w1: Wal)
    requires cfg.maxSegs == 3 && w == Wal(map[1 := [], 2 := []], 2, w.curSize, 1, 0, f, 1)
    requires w1 == Wal(map[1 := [], 2 := f, 3 := []], 3, 0, 1, 0, [], 2)
    ensures AddNewLogFile(cfg, c, w) == Done(w1)
  {
    hide OpenNext, AddNewLogFile;
    SecondMaps([]);
    SecondMaps(f);
    assert [] + f == f;
    OpenedNext(w, 2, f);
    RoomRotation(cfg, c, w);
  }

  lemma SecondOfTwo(cfg: Config, c: Codec, w1: Wal, f: seq<byte>, w2: Wal)
    requires cfg.maxSegs == 3 && w1 == Wal(map[1 := [], 2 := f, 3 := []], 3, 0, 1, 0, [], 2)
    requires w2 == Wal(map[2 := f, 3 := [], 4 := []], 4, 0, 2, 0, [], 3)
    ensures AddNewLogFile(cfg, c, w1.(lastSeq := 2)) == Done(w2)
  {
    hide OpenNext, AddNewLogFile, LastNumber;
    SecondMaps(f);
    var none: seq<byte> := [];
    assert none + none == none;
    EmptyFirst(c, w1.segs);
    OpenedNext(w1.(lastSeq := 2, segs := w1.segs - {1}), 3, []);
    FullRotation(cfg, c, w1.(lastSeq := 2), 1, 0);
  }

  lemma SecondRecord(c: Codec, a: FileMetadata, x: FileMetadata, w2: Wal)
    requires w2 == Wal(map[2 := F(c, Added(c, a)), 3 := [], 4 := []], 4, 0, 2, 0, [], 3)
    ensures Write(w2, c.encEntry(Second(c, x))) == LogAfter(c, a, x, 2)
  {
    Written(w2, c.encEntry(Second(c, x)), LogAfter(c, a, x, 2));
  }

  lemma EmptyFirst(c: Codec, segs: map<nat, seq<byte>>)
    requires 1 in segs && segs[1] == []
    ensures LastNumber(c, segs, 1) == Ok(0)
  {
    assert TailScan(c, []) == Empty;
  }

  lemma ThirdMaps(f: seq<byte>, g: seq<byte>)
    ensures map[2 := f, 3 := [], 4 := []][4 := g][5 := []] == map[2 := f, 3 := [], 4 := g, 5 := []]
    ensures |map[2 := f, 3 := [], 4 := []]| == 3
  {
    var m := map[2 := f, 3 := [], 4 := []];
    assert m.Keys == {2, 3, 4} && |m| == |m.Keys|;
  }

  lemma ThirdAppend(cfg: Config, c: Codec, a: FileMetadata, x: FileMetadata)
    requires Lossless(c) && Sizes(cfg, c, a, x)
    ensures Next(cfg, c, Stage(c, a, x, 2), Append(x, true)) == Some(Stage(c, a, x, 3))
  {
    hide F, OpenNext, AddNewLogFile, AppendEntry;
    var w, e := LogAfter(c, a, x, 2), Third(c, x);
    var w1 := ThirdRotation(cfg, c, a, x);
    OneRotation(cfg, c, w, e, w1);
    ThirdRecord(c, a, x, w1);
    hide RecordSize, Write;
    AppendStep(cfg, c, Stage(c, a, x, 2), x, true, LogAfter(c, a, x, 3));
    FirstLayouts(c, a, x);
    assert Waiting(a, x, 2)[3 := Waiter(4, Del(x.name))] == Waiting(a, x, 3);
  }

  lemma ThirdRotation(cfg: Config, c: Codec, a: FileMetadata, x: FileMetadata) returns (w1: Wal)
    requires Lossless(c) && Sizes(cfg, c, a, x)
    ensures w1 == Wal(map[2 := F(c, Added(c, a)), 3 := [], 4 := F(c, Second(c, x)), 5 := []], 5, 0, 3, 0, [], 4)
    ensures AddNewLogFile(cfg, c, LogAfter(c, a, x, 2).(lastSeq := 3)) == Done(w1)
  {
    EntriesGood(cfg, c, a, x);
    hide F, LastNumber, AddNewLogFile, RecordSize, Good;
    var w, f, g := LogAfter(c, a, x, 2), F(c, Added(c, a)), F(c, Second(c, x));
    w1 := Wal(map[2 := f, 3 := [], 4 := g, 5 := []], 5, 0, 3, 0, [], 4);
    NewestOf(c, w.segs, 2, Added(c, a));
    SecondStays(cfg, c, w.(lastSeq := 3), f, g, w1);
  }

  lemma SecondStays(cfg: Config, c: Codec, w: Wal, f: seq<byte>, g: seq<byte>, w1: Wal)
    requires cfg.maxSegs == 3 && w == Wal(map[2 := f, 3 := [], 4 := []], 4, w.curSize, 3, 0, g, 3)
    requires LastNumber(c, w.segs, 2) == Ok(1)
    requires w1 == Wal(map[2 := f, 3 := [], 4 := g, 5 := []], 5, 0, 3, 0, [], 4)
    ensures AddNewLogFile(cfg, c, w) == Done(w1)
  {
    hide LastNumber, OpenNext, AddNewLogFile;
    ThirdMaps(f, g);
    assert [] + g == g;
    OpenedNext(w, 4, g);
    FullRotation(cfg, c, w, 2, 1);
  }

  lemma ThirdRecord(c: Codec, a: FileMetadata, x: FileMetadata, w1: Wal)
    requires w1 == Wal(map[2 := F(c, Added(c, a)), 3 := [], 4 := F(c, Second(c, x)), 5 := []], 5, 0, 3, 0, [], 4)
    ensures Write(w1, c.encEntry(Third(c, x))) == LogAfter(c, a, x, 3)
  {
    Written(w1, c.encEntry(Third(c, x)), LogAfter(c, a, x, 3));
  }

  // ---- The steps between ----

  lemma Flushed(cfg: Config, c: Codec, a: FileMetadata, x: FileMetadata)
    ensures Next(cfg, c, Stage(c, a, x, 3), FlushTimer) == Some(Stage(c, a, x, 4))
  {
    hide F, RecordSize, Image;
    var st, f := Stage(c, a, x, 3), F(c, Third(c, x));
    assert [] + f == f;
    FlushStepIs(cfg, c, st, f);
    assert st.wal.segs[5 := f] == LogAfter(c, a, x, 4).segs;
  }

  lemma Updated(cfg: Config, c: Codec, a: FileMetadata, x: FileMetadata, n: nat, j: nat)
    requires 4 <= n <= 6 && j == n - 3 && a.name != x.name
    ensures Next(cfg, c, Stage(c, a, x, n), UpdateMap(j)) == Some(Stage(c, a, x, n + 1))
  {
    hide F, RecordSize, Image;
    var st := Stage(c, a, x, n);
    assert Waiting(a, x, 3) - {1} - {2} == map[3 := Waiter(4, Del(x.name))];
    UpdateStepIs(cfg, c, st, j);
    if n == 4 {
      assert ApplyOp(map[], Put(a)) == map[a.name := a];
    } else if n == 5 {
      assert ApplyOp(map[a.name := a], Put(x)) == map[a.name := a, x.name := x];
    } else {
      assert map[a.name := a, x.name := x] - {x.name} == map[a.name := a];
    }
  }

  lemma Snapshots(cfg: Config, c: Codec, a: FileMetadata, x: FileMetadata, n: nat)
    requires 7 <= n <= 10 && Fits(c.encMeta(a))
    ensures Next(cfg, c, Stage(c, a, x, n), RefusalRun(a, x)[n]) == Some(Stage(c, a, x, n + 1))
  {
    hide F, RecordSize, Image;
    if n == 8 {
      var files := map[a.name := a];
      assert Enumerates([a.name], files) && Listed(files, [a.name]) == [a];
      assert Records(c, [a]) == [c.encMeta(a)];
    } else if n == 9 {
      assert Image(c, 3, [a]) + [] == Image(c, 3, [a]);
    }
  }

  lemma FirstReclaim(cfg: Config, c: Codec, a: FileMetadata, x: FileMetadata)
    requires Lossless(c) && Sizes(cfg, c, a, x)
    ensures Next(cfg, c, Stage(c, a, x, 11), Reclaim(2)) == Some(Stage(c, a, x, 12))
  {
    EntriesGood(cfg, c, a, x);
    hide F, RecordSize, Image, LastNumber, Good, Sizes;
    NewestOf(c, LogAfter(c, a, x, 4).segs, 2, Added(c, a));
    RemovesSecond(c, LogAfter(c, a, x, 4).(lastSnapshot := 3), Leftover(c, x), F(c, Added(c, a)));
    hide Remove, Leftover;
  }

  lemma RemovesSecond(c: Codec, w: Wal, left: map<nat, seq<byte>>, f: seq<byte>)
    requires left.Keys == {3, 4, 5} && w.segs == left[2 := f]
    requires LastNumber(c, w.segs, 2) == Ok(1) && w.lastSnapshot == 3
    ensures Remove(c, w, 2) == Done(w.(segs := left))
  {
    hide LastNumber;
    assert w.segs - {2} == left;
  }

  lemma SecondReclaim(cfg: Config, c: Codec, a: FileMetadata, x: FileMetadata)
    ensures Next(cfg, c, Stage(c, a, x, 12), Reclaim(3)) == Some(Stage(c, a, x, 13))
  {
    hide F, RecordSize, Image, LastNumber;
    Unremovable(c, Leftover(c, x));
  }

  lemma Unremovable(c: Codec, segs: map<nat, seq<byte>>)
    requires 3 in segs && segs[3] == [] && 2 !in segs
    ensures LastNumber(c, segs, 3).Err?
  {
    assert TailScan(c, []) == Empty;
  }

  lemma EveryStep(cfg: Config, c: Codec, a: FileMetadata, x: FileMetadata, n: nat)
    requires Lossless(c) && Sizes(cfg, c, a, x) && n < 13
    ensures Next(cfg, c, Stage(c, a, x, n), RefusalRun(a, x)[n]) == Some(Stage(c, a, x, n + 1))
  {
    hide Next, Stage;
    if n == 0 {
      FirstAppend(cfg, c, a, x);
    } else if n == 1 {
      SecondAppend(cfg, c, a, x);
    } else if n == 2 {
      ThirdAppend(cfg, c, a, x);
    } else if n == 3 {
      Flushed(cfg, c, a, x);
    } else if n <= 6 {
      Updated(cfg, c, a, x, n, n - 3);
    } else if n <= 10 {
      Snapshots(cfg, c, a, x, n);
    } else if n == 11 {
      FirstReclaim(cfg, c, a, x);
    } else {
      SecondReclaim(cfg, c, a, x);
    }
  }

  lemma NothingRun(c: Codec, a: FileMetadata, x: FileMetadata)
    ensures Stage(c, a, x, 0) == EMPTY_DIRECTORY
  {
  }

  lemma {:induction false} Reaches(cfg: Config, c: Codec, a: FileMetadata, x: FileMetadata, n: nat)
    requires Lossless(c) && Sizes(cfg, c, a, x) && n <= 13
    ensures Run(cfg, c, RefusalRun(a, x)[..n]) == Some(Stage(c, a, x, n))
  {
    hide Next, Stage, Sizes, RefusalRun;
    if n == 0 {
      NothingRun(c, a, x);
    } else {
      Reaches(cfg, c, a, x, n - 1);
      EveryStep(cfg, c, a, x, n - 1);
      RunOneMore(cfg, c, RefusalRun(a, x), n - 1, Stage(c, a, x, n - 1), Stage(c, a, x, n));
    }
  }

  // ---- Start-up ----

  lemma OneRecordFile(c: Codec, e: WalEntry, stop: nat)
    requires Lossless(c) && Good(c, e)
    ensures ReadFile(c, F(c, e), stop) == Some([e]) && TailScan(c, F(c, e)) == Found(e)
  {
    EncodeSnoc(c, [], e);
    assert [] + [e] == [e] && EncodeFile(c, []) + F(c, e) == F(c, e);
    ReadFileWhole(c, [e], stop);
    OneEntry(c, e);
  }

  lemma ThreeFileScan(c: Codec, segs: map<nat, seq<byte>>, e: WalEntry, e': WalEntry)
    requires segs.Keys == {3, 4, 5} && ReadFile(c, segs[3], 3) == Some([])
    requires ReadFile(c, segs[4], 3) == Some([e]) && ReadFile(c, segs[5], 3) == Some([e'])
    ensures ReadAll(c, segs, 5, 3) == Ok([e, e'])
  {
    hide ReadFile;
    var none: seq<WalEntry> := [];
    assert |segs| == |segs.Keys|;
    assert none + none == none && none + [e] == [e] && [e] + [e'] == [e, e'];
    assert ReadFrom(c, segs, 3, 0, 3) == Ok(none);
    assert ReadFrom(c, segs, 3, 1, 3) == Ok(none);
    assert ReadFrom(c, segs, 3, 2, 3) == Ok([e]);
  }

  lemma LastInit(cfg: Config, c: Codec, segs: map<nat, seq<byte>>, e: WalEntry)
    requires segs.Keys == {3, 4, 5} && TailScan(c, segs[5]) == Found(e)
    ensures InitWal(cfg, c, segs) == Ok(Wal(segs, 5, |segs[5]|, e.seqNo, 0, [], 0))
  {
    hide TailScan;
    assert IsMax(segs.Keys, 5);
    OnlyMax(segs.Keys, 5);
  }

  lemma ReadsLeftover(cfg: Config, c: Codec, a: FileMetadata, x: FileMetadata)
    requires Lossless(c) && Sizes(cfg, c, a, x)
    ensures ReadAll(c, Leftover(c, x), 5, 3) == Ok([Second(c, x), Third(c, x)])
    ensures InitWal(cfg, c, Leftover(c, x)) ==
            Ok(Wal(Leftover(c, x), 5, RecordSize(c, Third(c, x)), 3, 0, [], 0))
  {
    EntriesGood(cfg, c, a, x);
    var segs := Leftover(c, x);
    OneRecordFile(c, Second(c, x), 3);
    OneRecordFile(c, Third(c, x), 3);
    assert ReadFile(c, [], 3) == Some([]);
    assert |F(c, Third(c, x))| == RecordSize(c, Third(c, x));
    hide F, ReadFile, TailScan, Good, RecordSize, ReadAll, InitWal;
    ThreeFileScan(c, segs, Second(c, x), Third(c, x));
    LastInit(cfg, c, segs, Third(c, x));
  }

  lemma ImageDecodes(c: Codec, a: FileMetadata)
    requires Lossless(c) && Fits(c.encMeta(a))
    ensures DecodeSnapshot(c, Image(c, 3, [a])) == Ok((3, map[a.name := a]))
  {
    var files := map[a.name := a];
    assert Enumerates([a.name], files) && Listed(files, [a.name]) == [a];
    assert Records(c, [a]) == [c.encMeta(a)];
    SnapshotRoundTrip(c, 3, files, [a.name]);
  }

  lemma StartUpReads(cfg: Config, c: Codec, a: FileMetadata, x: FileMetadata)
    requires Lossless(c) && Sizes(cfg, c, a, x)
    ensures var w := Wal(Leftover(c, x), 5, RecordSize(c, Third(c, x)), 3, 0, [], 0);
            Begun(cfg, c, Leftover(c, x), Image(c, 3, [a])) ==
            Ok((Pair(w, map[a.name := a]), [Second(c, x), Third(c, x)]))
  {
    hide InitWal, ReadAll, DecodeSnapshot, Image;
    ReadsLeftover(cfg, c, a, x);
    ImageDecodes(c, a);
  }

  /** The rotation that the delete needs cannot be made. */
  lemma RotationRefused(cfg: Config, c: Codec, a: FileMetadata, x: FileMetadata, w: Wal)
    requires Lossless(c) && Sizes(cfg, c, a, x)
    requires w == Wal(Leftover(c, x), 5, RecordSize(c, Third(c, x)), 3, 0, [], 0)
    ensures AppendEntry(cfg, c, w, c.encMeta(x), true).Failed?
  {
    hide F, LastNumber;
    assert w.segs.Keys == {3, 4, 5} && |w.segs| == |w.segs.Keys|;
    Unremovable(c, w.segs);
    assert Oldest(cfg, w) == 3;
  }

  lemma Returns(cfg: Config, c: Codec, a: FileMetadata, x: FileMetadata)
    requires Lossless(c) && Sizes(cfg, c, a, x)
    ensures Recovered(cfg, c, Leftover(c, x), Some(Image(c, 3, [a]))) == Ok(map[a.name := a, x.name := x])
  {
    EntriesGood(cfg, c, a, x);
    StartUpReads(cfg, c, a, x);
    var w := Wal(Leftover(c, x), 5, RecordSize(c, Third(c, x)), 3, 0, [], 0);
    RotationRefused(cfg, c, a, x, w);
    hide Begun, AppendEntry, Image, Sizes, Leftover, RecordSize;
    var es, p := [Second(c, x), Third(c, x)], Pair(w, map[a.name := a]);
    assert es[..1] == [Second(c, x)] && es[..1][..0] == [] && es[..2] == es;
    assert AllApplied(cfg, c, p, es[..1]) == Ok(Pair(w, map[a.name := a, x.name := x]));
  }

  lemma DurableIs(cfg: Config, c: Codec, a: FileMetadata, x: FileMetadata, st: Sys)
    requires Proper(cfg, c) && Sizes(cfg, c, a, x) && st == Stage(c, a, x, 13) && LogOk(cfg, c, st)
    ensures Durable(cfg, c, st) == [Put(a), Put(x), Del(x.name)]
  {
    EntriesGood(cfg, c, a, x);
    FlatOfRun(c, a, x);
    LastLog(c, a, x);
    LogLength(cfg, c, st);
    assert Survived(st.wal, st.layout) == Flat(st.layout) by {
      SurvivedCount(cfg, c, st.wal, st.layout);
    }
    hide Shape, Survived, Flat, Stage, OpOf, Good;
    assert Durable(cfg, c, st) == [Put(a), Put(x), Del(x.name)];
  }

  lemma LastLog(c: Codec, a: FileMetadata, x: FileMetadata)
    ensures Stage(c, a, x, 13).layout == LayoutAfter(c, a, x, 3) && Stage(c, a, x, 13).wal.buf == []
  {
    hide F, Image, RecordSize;
  }

  lemma MapOfRun(a: FileMetadata, x: FileMetadata)
    requires a.name != x.name
    ensures MapAfter([Put(a), Put(x), Del(x.name)]) == map[a.name := a]
  {
    var ops := [Put(a), Put(x), Del(x.name)];
    assert ops[..2] == [Put(a), Put(x)] && ops[..2][..1] == [Put(a)] && ops[..2][..1][..0] == [];
    OnePut(a);
    assert MapAfter(ops[..2]) == map[a.name := a, x.name := x];
  }

  lemma FlatOfRun(c: Codec, a: FileMetadata, x: FileMetadata)
    ensures Flat(LayoutAfter(c, a, x, 3)) == [Added(c, a), Second(c, x), Third(c, x)]
  {
    var e1, e2, e3 := Added(c, a), Second(c, x), Third(c, x);
    var layout := [[], [e1], [], [e2], [e3]];
    assert layout[..4] == [[], [e1], [], [e2]] && layout[..4][..3] == [[], [e1], []];
    assert layout[..4][..3][..2] == [[], [e1]] && layout[..4][..3][..2][..1] == [[]];
    assert layout[..4][..3][..2][..1][..0] == [];
    assert Flat([[]]) == [];
    assert Flat([[], [e1]]) == [e1];
    assert Flat([[], [e1], []]) == [e1];
    assert Flat([[], [e1], [], [e2]]) == [e1, e2];
  }

  /** After that run the directory, with a published snapshot of all three acknowledged updates, starts
      up without an error, and the deleted file is back. */
  lemma DeletedFileReturns(cfg: Config, c: Codec, a: FileMetadata, x: FileMetadata)
    requires Lossless(c) && Sizes(cfg, c, a, x)
    ensures Proper(cfg, c) && Run(cfg, c, RefusalRun(a, x)).Some?
    ensures var st := After(cfg, c, RefusalRun(a, x));
            && st.snap.Some? && Acknowledged(st, 3) && MapAfter(Durable(cfg, c, st)) == map[a.name := a]
            && Recovered(cfg, c, Directory(st), st.snap) == Ok(map[a.name := a, x.name := x])
  {
    hide *;
    RefusalIsProper(cfg, c, a, x);
    Reaches(cfg, c, a, x, 13);
    assert RefusalRun(a, x)[..13] == RefusalRun(a, x);
    AfterIs(cfg, c, RefusalRun(a, x), Stage(c, a, x, 13));
    DurableIs(cfg, c, a, x, Stage(c, a, x, 13));
    NamesDiffer(cfg, c, a, x);
    MapOfRun(a, x);
    LastStage(c, a, x);
    Returns(cfg, c, a, x);
  }

  lemma NamesDiffer(cfg: Config, c: Codec, a: FileMetadata, x: FileMetadata)
    requires Sizes(cfg, c, a, x)
    ensures a.name != x.name
  {
  }

  lemma RefusalIsProper(cfg: Config, c: Codec, a: FileMetadata, x: FileMetadata)
    requires Lossless(c) && Sizes(cfg, c, a, x)
    ensures Proper(cfg, c)
  {
    ProperIf(cfg, c);
  }

  lemma LastStage(c: Codec, a: FileMetadata, x: FileMetadata)
    ensures var st := Stage(c, a, x, 13);
            Directory(st) == Leftover(c, x) && st.snap == Some(Image(c, 3, [a])) && Acknowledged(st, 3)
  {
    hide F, Image, RecordSize;
  }

  // ---- The number that is lost ----

  /** What start-up makes of the second entry: the number is taken, the rotation refused. */
  lemma TakenAndRefused(cfg: Config, c: Codec, a: FileMetadata, x: FileMetadata, w: Wal)
    requires Lossless(c) && Sizes(cfg, c, a, x)
    requires w == Wal(Leftover(c, x), 5, RecordSize(c, Third(c, x)), 3, 0, [], 0)
    ensures var p1 := Pair(w, map[a.name := a, x.name := x]);
            && RefusedIn(cfg, c, p1, Third(c, x)) && TakesNumber(cfg, c, w)
            && Applied(cfg, c, p1, Third(c, x)) == Ok(p1.(wal := w.(lastSeq := 4)))
  {
    EntriesGood(cfg, c, a, x);
    RotationRefused(cfg, c, a, x, w);
    AppendNumber(cfg, c, w, c.encMeta(x), true);
    SecondCheckFails(cfg, c, w, c.encMeta(x));
  }

  lemma SecondCheckFails(cfg: Config, c: Codec, w: Wal, data: seq<byte>)
    requires w.curSize < cfg.maxSize && AppendEntry(cfg, c, w, data, true).Failed?
    ensures AppendEntry(cfg, c, w, data, true).wal == w.(lastSeq := w.lastSeq + 1)
  {
    hide LastNumber, OpenNext;
  }

  /** That start-up leaves three entries and the number 4 as the last one: whatever is appended next is
      number 5, and the numbering of the log has a hole. */
  lemma NumberIsSkipped(cfg: Config, c: Codec, a: FileMetadata, x: FileMetadata)
    requires Lossless(c) && Sizes(cfg, c, a, x)
    ensures Proper(cfg, c) && Run(cfg, c, RefusalRun(a, x)).Some?
    ensures var st := After(cfg, c, RefusalRun(a, x));
            && st.snap.Some? && SkipsNumber(cfg, c, Directory(st), st.snap.value)
            && StartedServer(cfg, c, Directory(st), st.snap).Ok?
            && var w := StartedServer(cfg, c, Directory(st), st.snap).value.wal;
               && w.segs == Leftover(c, x) && w.lastSeq == 4 && |Durable(cfg, c, st)| == 3
               && forall e: WalEntry :: e.seqNo == w.lastSeq + 1 ==>
                    !Numbered([Added(c, a), Second(c, x), Third(c, x)] + [e])
  {
    hide *;
    DeletedFileReturns(cfg, c, a, x);
    Reaches(cfg, c, a, x, 13);
    assert RefusalRun(a, x)[..13] == RefusalRun(a, x);
    AfterIs(cfg, c, RefusalRun(a, x), Stage(c, a, x, 13));
    DurableIs(cfg, c, a, x, Stage(c, a, x, 13));
    LastStage(c, a, x);
    SkippedAtStart(cfg, c, a, x);
    HoleAfterThree(c, a, x);
  }

  lemma HoleAfterThree(c: Codec, a: FileMetadata, x: FileMetadata)
    ensures forall e: WalEntry :: e.seqNo == 5 ==> !Numbered([Added(c, a), Second(c, x), Third(c, x)] + [e])
  {
    forall e: WalEntry | e.seqNo == 5 ensures !Numbered([Added(c, a), Second(c, x), Third(c, x)] + [e]) {
      assert ([Added(c, a), Second(c, x), Third(c, x)] + [e])[3] == e;
    }
  }

  lemma SkippedAtStart(cfg: Config, c: Codec, a: FileMetadata, x: FileMetadata)
    requires Lossless(c) && Sizes(cfg, c, a, x)
    ensures SkipsNumber(cfg, c, Leftover(c, x), Image(c, 3, [a]))
    ensures StartedServer(cfg, c, Leftover(c, x), Some(Image(c, 3, [a]))).Ok?
    ensures var w := StartedServer(cfg, c, Leftover(c, x), Some(Image(c, 3, [a]))).value.wal;
            w.segs == Leftover(c, x) && w.lastSeq == 4
  {
    EntriesGood(cfg, c, a, x);
    StartUpReads(cfg, c, a, x);
    var w := Wal(Leftover(c, x), 5, RecordSize(c, Third(c, x)), 3, 0, [], 0);
    TakenAndRefused(cfg, c, a, x, w);
    hide Begun, AppendEntry, Image, Sizes, Leftover, RecordSize, TakesNumber, RefusedIn;
    var es, p := [Second(c, x), Third(c, x)], Pair(w, map[a.name := a]);
    assert es[..1] == [Second(c, x)] && es[..1][..0] == [] && es[..2] == es;
    var p1 := Pair(w, map[a.name := a, x.name := x]);
    assert AllApplied(cfg, c, p, es[..1]) == Ok(p1);
    assert AllApplied(cfg, c, p, es) == Applied(cfg, c, p1, es[1]);
    assert Skips(cfg, c, p, es, 1);
  }
}
