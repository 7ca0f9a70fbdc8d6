/** A clone that does not wait for the entries up to its number, and what is lost by it. */
module WalHaste {
  import opened Results
  import opened Bytes
  import opened Frames
  import opened History
  import opened WalCodec
  import opened Layout
  import opened WalLog
  import opened WalScan
  import opened SnapshotFile
  import opened LogReplay
  import opened WalProtocol
  import opened WalRecovery
  import opened WalExample
  import opened WalSteps

  /** A clone taken at any time, and the log h later on, read from entry j: the recovered map is right
      about a name exactly when a retained entry mentions it or the clone had it right already; and it is
      right about every name of which no update was on its way to the map. */
  lemma CloneRightAboutIff(cfg: Config, c: Codec, st: Sys, h: seq<Op>, j: nat, x: string)
    requires Inv(cfg, c, st) && LogOk(cfg, c, st) && st.mode.Serving?
    requires Logged(cfg, c, st) <= h && j <= |Logged(cfg, c, st)|
    ensures Look(Replay(st.files, h[j..]), x) == Look(MapAfter(h), x) <==>
            Touches(h[j..], x) || Look(st.files, x) == Look(MapAfter(h), x)
    ensures (forall i :: i in st.pending ==> st.pending[i].op.Key() != x) ==>
              Look(Replay(st.files, h[j..]), x) == Look(MapAfter(h), x)
  {
    hide LogOk, Inv, Logged, Replay, MapAfter;
    ReplayRightAboutIff(h, st.files, j, x);
    if (forall i :: i in st.pending ==> st.pending[i].op.Key() != x) && !Touches(h[j..], x) {
      ShownIsLogged(cfg, c, st, x);
      var ops := Logged(cfg, c, st);
      forall i | |ops| <= i < |h| ensures h[i].Key() != x {
        assert h[j..][i - j] == h[i];
      }
      UntouchedBetween(h, |ops|, |h|, x);
      assert h[..|h|] == h && h[..|ops|] == ops;
    }
  }

  // ---- A losing run ----

  /** Both files are added; the clone is taken before either reaches the map. */
  function HastyRun(a: FileMetadata, b: FileMetadata): (evs: seq<Event>)
    ensures |evs| == 10
  {
    [Append(a, false), Append(b, false), Capture, Clone([]), Rename, Record, FlushTimer, UpdateMap(1), UpdateMap(2),
     Reclaim(1)]
  }

  function First(c: Codec, a: FileMetadata): (e: WalEntry) {
    MakeEntry(c, 1, c.encMeta(a), false)
  }

  function Second(c: Codec, b: FileMetadata): (e: WalEntry) {
    MakeEntry(c, 2, c.encMeta(b), false)
  }

  /** Each entry fits a segment, and not both one. */
  predicate Sizes(cfg: Config, c: Codec, a: FileMetadata, b: FileMetadata) {
    && cfg.maxSegs >= 2 && a.name != b.name
    && Fits(c.encEntry(First(c, a))) && Fits(c.encEntry(Second(c, b)))
    && RecordSize(c, First(c, a)) < cfg.maxSize <= RecordSize(c, First(c, a)) + RecordSize(c, Second(c, b))
  }

  function F(c: Codec, e: WalEntry): (f: seq<byte>) {
    Frame(c.encEntry(e))
  }

  /** The state after the first n events of that run. */
  function Stage(c: Codec, a: FileMetadata, b: FileMetadata, n: nat): (st: Sys)
    requires n <= 10
  {
    var f1, f2 := F(c, First(c, a)), F(c, Second(c, b));
    var size1, size2 := RecordSize(c, First(c, a)), RecordSize(c, Second(c, b));
    var layout, image := [[First(c, a)], [Second(c, b)]], Image(c, 2, []);
    var p1, p2 := map[1 := Waiter(0, Put(a))], map[1 := Waiter(0, Put(a)), 2 := Waiter(1, Put(b))];
    var w := Wal(map[1 := f1, 2 := []], 2, size2, 2, 0, f2, 1);
    var w' := Wal(map[1 := f1, 2 := f2], 2, size2, 2, 2, [], 2);
    var both := map[a.name := a, b.name := b];
    if n == 0 then EMPTY_DIRECTORY
    else if n == 1 then
      Sys(Wal(map[1 := []], 1, size1, 1, 0, f1, 0), map[], None, [], p1, Idle, Serving, [[First(c, a)]], Complete)
    else if n == 2 then Sys(w, map[], None, [], p2, Idle, Serving, layout, Complete)
    else if n == 3 then Sys(w, map[], None, [], p2, Captured(2, 2), Serving, layout, Complete)
    else if n == 4 then Sys(w, map[], None, [], p2, Cloned(2, 2, image), Serving, layout, Complete)
    else if n == 5 then Sys(w, map[], Some(image), [], p2, Renamed(2, 2), Serving, layout, Complete)
    else if n == 6 then
      Sys(w.(lastSnapshot := 2), map[], Some(image), [], p2, Cleaning(2), Serving, layout, Complete)
    else if n == 7 then Sys(w', map[], Some(image), [], p2, Cleaning(2), Serving, layout, Complete)
    else if n == 8 then
      Sys(w', map[a.name := a], Some(image), [], p2 - {1}, Cleaning(2), Serving, layout, Complete)
    else if n == 9 then Sys(w', both, Some(image), [], map[], Cleaning(2), Serving, layout, Complete)
    else Sys(w'.(segs := map[2 := f2]), both, Some(image), [], map[], Cleaning(2), Serving, layout, Complete)
  }

  lemma FirstAppend(cfg: Config, c: Codec, a: FileMetadata, b: FileMetadata)
    requires Lossless(c) && Sizes(cfg, c, a, b)
    ensures FreeNext(cfg, c, Stage(c, a, b, 0), Append(a, false)) == Some(Stage(c, a, b, 1))
  {
    hide AppendEntry;
    var w, w1 := EMPTY_DIRECTORY.wal, EMPTY_DIRECTORY.wal.(lastSeq := 1);
    NoRotation(cfg, c, w, First(c, a));
    Written(w1, c.encEntry(First(c, a)), Stage(c, a, b, 1).wal);
    assert AppendEntry(cfg, c, w, c.encMeta(a), false) == Done(Stage(c, a, b, 1).wal);
    hide F, Write, RecordSize, DoAppend;
    AppendStep(cfg, c, EMPTY_DIRECTORY, a, false, Stage(c, a, b, 1).wal);
    assert Pad([[]], 1) == [[]] && [] + [First(c, a)] == [First(c, a)];
    assert EMPTY_DIRECTORY.pending[1 := Waiter(0, Put(a))] == map[1 := Waiter(0, Put(a))];
    var r := FreeNext(cfg, c, Stage(c, a, b, 0), Append(a, false));
    assert r == Next(cfg, c, Stage(c, a, b, 0), Append(a, false));
    assert r.value.pending == Stage(c, a, b, 1).pending && r.value.layout == Stage(c, a, b, 1).layout;
  }

  lemma OpensSecond(cfg: Config, c: Codec, w: Wal, f: seq<byte>, w1: Wal)
    requires cfg.maxSegs >= 2 && w == Wal(map[1 := []], 1, w.curSize, 2, 0, f, 0)
    requires w1 == Wal(map[1 := f, 2 := []], 2, 0, 2, 0, [], 1)
    ensures AddNewLogFile(cfg, c, w) == Done(w1)
  {
    hide OpenNext;
    assert w.segs.Keys == {1} && |w.segs| == |w.segs.Keys|;
    assert [] + f == f;
    OpenedNext(w, 1, f);
    assert w.segs[1 := f][2 := []] == map[1 := f, 2 := []];
  }

  lemma SecondAppend(cfg: Config, c: Codec, a: FileMetadata, b: FileMetadata)
    requires Lossless(c) && Sizes(cfg, c, a, b)
    ensures FreeNext(cfg, c, Stage(c, a, b, 1), Append(b, false)) == Some(Stage(c, a, b, 2))
  {
    hide AppendEntry, AddNewLogFile;
    var w, f := Stage(c, a, b, 1).wal, F(c, First(c, a));
    var w1 := Wal(map[1 := f, 2 := []], 2, 0, 2, 0, [], 1);
    OpensSecond(cfg, c, w.(lastSeq := 2), f, w1);
    OneRotation(cfg, c, w, Second(c, b), w1);
    Written(w1, c.encEntry(Second(c, b)), Stage(c, a, b, 2).wal);
    assert AppendEntry(cfg, c, w, c.encMeta(b), false) == Done(Stage(c, a, b, 2).wal);
    hide F, Write, RecordSize, DoAppend;
    AppendStep(cfg, c, Stage(c, a, b, 1), b, false, Stage(c, a, b, 2).wal);
    assert Pad([[First(c, a)]], 2) == [[First(c, a)], []] && [] + [Second(c, b)] == [Second(c, b)];
    assert Stage(c, a, b, 1).pending[2 := Waiter(1, Put(b))] == Stage(c, a, b, 2).pending;
    var r := FreeNext(cfg, c, Stage(c, a, b, 1), Append(b, false));
    assert r == Next(cfg, c, Stage(c, a, b, 1), Append(b, false));
    assert r.value.pending == Stage(c, a, b, 2).pending && r.value.layout == Stage(c, a, b, 2).layout;
  }

  lemma Snapshots(cfg: Config, c: Codec, a: FileMetadata, b: FileMetadata, n: nat)
    requires 2 <= n <= 5
    ensures FreeNext(cfg, c, Stage(c, a, b, n), HastyRun(a, b)[n]) == Some(Stage(c, a, b, n + 1))
  {
    hide F, RecordSize, Image;
    if n == 3 {
      assert Listed(map[], []) == [] && Records(c, []) == [];
    } else if n == 4 {
      assert Image(c, 2, []) + [] == Image(c, 2, []);
    }
  }

  lemma Updates(cfg: Config, c: Codec, a: FileMetadata, b: FileMetadata, n: nat)
    requires 6 <= n <= 8 && a.name != b.name
    ensures FreeNext(cfg, c, Stage(c, a, b, n), HastyRun(a, b)[n]) == Some(Stage(c, a, b, n + 1))
  {
    hide F, RecordSize, Image;
    var st := Stage(c, a, b, n);
    if n == 6 {
      assert [] + F(c, Second(c, b)) == F(c, Second(c, b));
      assert Drain(st.wal) == Stage(c, a, b, 7).wal.segs;
    } else if n == 7 {
      assert ApplyOp(map[], Put(a)) == map[a.name := a];
    } else {
      assert st.pending == map[2 := Waiter(1, Put(b))] && st.pending - {2} == map[];
      assert ApplyOp(map[a.name := a], Put(b)) == map[a.name := a, b.name := b];
    }
  }

  lemma Good2(cfg: Config, c: Codec, a: FileMetadata, b: FileMetadata)
    requires Lossless(c) && Sizes(cfg, c, a, b)
    ensures Good(c, First(c, a)) && Good(c, Second(c, b)) && OpOf(c, Second(c, b)) == Put(b)
  {
  }

  lemma Reclaimed(cfg: Config, c: Codec, a: FileMetadata, b: FileMetadata)
    requires Lossless(c) && Sizes(cfg, c, a, b)
    ensures FreeNext(cfg, c, Stage(c, a, b, 9), Reclaim(1)) == Some(Stage(c, a, b, 10))
  {
    Good2(cfg, c, a, b);
    OneEntry(c, First(c, a));
    hide Frame, RecordSize, Image, TailScan, Good;
    var w := Stage(c, a, b, 9).wal;
    assert w.segs - {1} == map[2 := F(c, Second(c, b))];
    assert LastNumber(c, w.segs, 1) == Ok(1);
  }

  lemma EveryStep(cfg: Config, c: Codec, a: FileMetadata, b: FileMetadata, n: nat)
    requires Lossless(c) && Sizes(cfg, c, a, b) && n < 10
    ensures FreeNext(cfg, c, Stage(c, a, b, n), HastyRun(a, b)[n]) == Some(Stage(c, a, b, n + 1))
  {
    hide FreeNext, Stage;
    if n == 0 {
      FirstAppend(cfg, c, a, b);
    } else if n == 1 {
      SecondAppend(cfg, c, a, b);
    } else if n <= 5 {
      Snapshots(cfg, c, a, b, n);
    } else if n <= 8 {
      Updates(cfg, c, a, b, n);
    } else {
      Reclaimed(cfg, c, a, b);
    }
  }

  lemma NothingRun(c: Codec, a: FileMetadata, b: FileMetadata)
    ensures Stage(c, a, b, 0) == EMPTY_DIRECTORY
  {
  }

  lemma {:induction false} Reaches(cfg: Config, c: Codec, a: FileMetadata, b: FileMetadata, n: nat)
    requires Lossless(c) && Sizes(cfg, c, a, b) && n <= 10
    ensures RunFreely(cfg, c, EMPTY_DIRECTORY, HastyRun(a, b)[..n]) == Some(Stage(c, a, b, n))
  {
    hide FreeNext, Stage, Sizes, HastyRun;
    if n == 0 {
      NothingRun(c, a, b);
    } else {
      var evs := HastyRun(a, b);
      Reaches(cfg, c, a, b, n - 1);
      EveryStep(cfg, c, a, b, n - 1);
      assert evs[..n][..n - 1] == evs[..n - 1];
    }
  }

  lemma EmptyImage(c: Codec)
    ensures DecodeSnapshot(c, Image(c, 2, [])) == Ok((2, map[]))
  {
    Uint64(2);
    assert Records(c, []) == [];
    var f := Image(c, 2, []);
    assert f == BigEndian(2, 8) && f[..8] == f && f[8..] == [];
  }

  lemma OnlySecondRead(cfg: Config, c: Codec, b: FileMetadata, e: WalEntry)
    requires Lossless(c) && Good(c, e) && e.seqNo == 2
    ensures var segs := map[2 := F(c, e)];
            && InitWal(cfg, c, segs) == Ok(Wal(segs, 2, |F(c, e)|, 2, 0, [], 0))
            && ReadAll(c, segs, 2, 2) == Ok([e])
  {
    var segs := map[2 := F(c, e)];
    EncodeSnoc(c, [], e);
    assert [] + [e] == [e] && EncodeFile(c, []) + F(c, e) == F(c, e);
    ReadFileWhole(c, [e], 2);
    OneEntry(c, e);
    hide F, ReadFile, TailScan, EncodeFile;
    assert segs.Keys == {2} && |segs| == |segs.Keys| && IsMax(segs.Keys, 2);
    OnlyMax(segs.Keys, 2);
    assert ReadFrom(c, segs, 2, 0, 2) == Ok([]);
  }

  lemma OnlySecondFound(cfg: Config, c: Codec, a: FileMetadata, b: FileMetadata)
    requires Lossless(c) && Sizes(cfg, c, a, b)
    ensures Recovered(cfg, c, map[2 := F(c, Second(c, b))], Some(Image(c, 2, []))) == Ok(map[b.name := b])
  {
    Good2(cfg, c, a, b);
    var e := Second(c, b);
    OnlySecondRead(cfg, c, b, e);
    EmptyImage(c);
    hide F, InitWal, ReadAll, DecodeSnapshot, Image, AppendEntry;
    assert [e][..0] == [];
    assert AllApplied(cfg, c, Pair(Wal(map[2 := F(c, e)], 2, |F(c, e)|, 2, 0, [], 0), map[]), []).Ok?;
  }

  /** Both adds were acknowledged, written and shown, and the first is gone after a crash. */
  lemma HastyCloneLosesFile(cfg: Config, c: Codec, a: FileMetadata, b: FileMetadata)
    requires Lossless(c) && Sizes(cfg, c, a, b)
    ensures RunFreely(cfg, c, EMPTY_DIRECTORY, HastyRun(a, b)).Some?
    ensures var st := RunFreely(cfg, c, EMPTY_DIRECTORY, HastyRun(a, b)).value;
            && st.files == map[a.name := a, b.name := b] && st.pending == map[] && st.wal.buf == []
            && Recovered(cfg, c, Directory(st), st.snap) == Ok(map[b.name := b])
  {
    Reaches(cfg, c, a, b, 10);
    assert HastyRun(a, b)[..10] == HastyRun(a, b);
    OnlySecondFound(cfg, c, a, b);
    hide RunFreely, Recovered, Image, F, RecordSize;
  }
}
