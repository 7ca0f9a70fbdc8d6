/** What a start-up makes of the directory that a crash leaves, whatever step the crash comes at. */
module WalRecovery {
  import opened Results
  import opened Bytes
  import opened Frames
  import opened History
  import opened WalCodec
  import opened Layout
  import opened WalLog
  import opened WalScan
  import opened SnapshotFile
  import opened LogReplay
  import opened WalRoom
  import opened WalProtocol
  import opened WalSafety
  import opened WalTheorems

  /** What start-up has read when it begins to apply: the log and the restored image, and the entries. */
  ghost function Begun(cfg: Config, c: Codec, segs: map<nat, seq<byte>>,
                       f: seq<byte>): (r: Result<(Pair, seq<WalEntry>)>) {
    match InitWal(cfg, c, segs)
    case Err => Err
    case Ok(w) =>
      match DecodeSnapshot(c, f)
      case Err => Err
      case Ok((_, img)) =>
        match ReadAll(c, w.segs, w.lastSeg, w.lastSeq)
        case Err => Err
        case Ok(es) => Ok((Pair(w, img), es))
  }

  /** The map a start-up ends with, from the log directory and the snapshot file alone, with every entry
      applied as the store applies it. */
  ghost function Recovered(cfg: Config, c: Codec, segs: map<nat, seq<byte>>,
                           snap: Option<seq<byte>>): (r: Result<Store>) {
    match snap
    case None => if InitWal(cfg, c, segs).Ok? then Ok(map[]) else Err
    case Some(f) =>
      match Begun(cfg, c, segs, f)
      case Err => Err
      case Ok((p, es)) =>
        match AllApplied(cfg, c, p, es)
        case Err => Err
        case Ok(p') => Ok(p'.files)
  }

  /** Some delete that start-up fires is refused by the log, and no later entry is of its name. */
  ghost predicate LosesDelete(cfg: Config, c: Codec, segs: map<nat, seq<byte>>, f: seq<byte>) {
    Begun(cfg, c, segs, f).Ok? &&
    var (p, es) := Begun(cfg, c, segs, f).value;
    AllGood(c, es) && exists i: nat :: RefusedForGood(cfg, c, p, es, i)
  }

  /** And this happens to name x. */
  ghost predicate KeepsDeleted(cfg: Config, c: Codec, segs: map<nat, seq<byte>>, f: seq<byte>, x: string) {
    Begun(cfg, c, segs, f).Ok? &&
    var (p, es) := Begun(cfg, c, segs, f).value;
    AllGood(c, es) && KeptOn(cfg, c, p, es, x)
  }

  /** The operations start-up has read, replayed on the image, are the map of everything on disk. */
  lemma BegunIsDurable(cfg: Config, c: Codec, st: Sys)
    requires Proper(cfg, c) && Inv(cfg, c, st) && LogOk(cfg, c, st)
    requires st.snap.Some? && Begun(cfg, c, Directory(st), st.snap.value).Ok?
    ensures var (p, es) := Begun(cfg, c, Directory(st), st.snap.value).value;
            AllGood(c, es) && Replay(p.files, Ops(c, es)) == MapAfter(Durable(cfg, c, st))
  {
    hide LogOk, InitWal, ReadAll, DecodeSnapshot, ModeOk, Replay, MapAfter, Directory, Durable, AllGood;
    hide SnapOk, ReclaimOk, WaitersOk, SnapperOk, KeysMatch;
    var (p, es) := Begun(cfg, c, Directory(st), st.snap.value).value;
    var no := DecodeSnapshot(c, st.snap.value).value.0;
    ReplayReachesDurableMap(cfg, c, st, p.wal, no, p.files, es);
  }

  /** Recovery is exact. After any run, with any number of crashes in it and crashed at any step, a
      start-up that completes ends with the map of exactly the operations that reached the disk if and
      only if, with a snapshot file, the log refuses for good none of the deletes that start-up logs
      again; without one, if and only if those operations leave nothing behind. */
  lemma RecoveryIsExact(cfg: Config, c: Codec, evs: seq<Event>)
    requires Proper(cfg, c) && Run(cfg, c, evs).Some?
    requires var st := After(cfg, c, evs); Recovered(cfg, c, Directory(st), st.snap).Ok?
    ensures var st := After(cfg, c, evs);
            var all := MapAfter(Durable(cfg, c, st));
            Recovered(cfg, c, Directory(st), st.snap).value == all <==>
            if st.snap.Some? then !LosesDelete(cfg, c, Directory(st), st.snap.value) else all == map[]
  {
    hide *;
    StartUpIsExact(cfg, c, After(cfg, c, evs));
  }

  lemma StartUpIsExact(cfg: Config, c: Codec, st: Sys)
    requires Proper(cfg, c) && Inv(cfg, c, st) && LogOk(cfg, c, st)
    requires Recovered(cfg, c, Directory(st), st.snap).Ok?
    ensures var all := MapAfter(Durable(cfg, c, st));
            Recovered(cfg, c, Directory(st), st.snap).value == all <==>
            if st.snap.Some? then !LosesDelete(cfg, c, Directory(st), st.snap.value) else all == map[]
  {
    hide Inv, LogOk, Directory, InitWal, Begun, AllApplied, RefusedForGood, Durable, MapAfter, AllGood, Replay;
    if st.snap.Some? {
      BegunIsDurable(cfg, c, st);
      var (p, es) := Begun(cfg, c, Directory(st), st.snap.value).value;
      AppliedIsReplayIff(cfg, c, p, es);
    }
  }

  // ---- When nothing is refused ----

  /** Every delete record that start-up may write is shorter than 2^32 octets, and the counters are far
      from their end. */
  ghost predicate WithinBounds(cfg: Config, c: Codec, segs: map<nat, seq<byte>>, f: seq<byte>) {
    Begun(cfg, c, segs, f).Ok? ==>
      var (p, es) := Begun(cfg, c, segs, f).value;
      AllGood(c, es) ==> DeletesFit(c, p.files, es, p.wal.lastSeq) && p.wal.lastSeg + 2 * |es| + 2 < TWO_TO_64
  }

  /** The deletes fit into the file that is there, so start-up does not rotate at all. */
  ghost predicate FitsLastFile(cfg: Config, c: Codec, segs: map<nat, seq<byte>>, f: seq<byte>) {
    Begun(cfg, c, segs, f).Ok? ==>
      var (p, es) := Begun(cfg, c, segs, f).value;
      AllGood(c, es) ==> p.wal.curSize + DeleteBytes(c, p.files, es, p.wal.lastSeq) < cfg.maxSize
  }

  /** What can be seen in the directory before start-up: it has room for the deletes in its last file, or
      an entry in a file no newer than the first that a rotation would aim at. Then none is refused. */
  lemma RoomKeepsDeletes(cfg: Config, c: Codec, evs: seq<Event>)
    requires Proper(cfg, c) && Run(cfg, c, evs).Some? && After(cfg, c, evs).snap.Some?
    requires var st := After(cfg, c, evs);
             || FitsLastFile(cfg, c, Directory(st), st.snap.value)
             || (HasRoom(cfg, Directory(st)) && WithinBounds(cfg, c, Directory(st), st.snap.value))
    ensures var st := After(cfg, c, evs);
            !LosesDelete(cfg, c, Directory(st), st.snap.value)
  {
    hide *;
    RoomInDirectory(cfg, c, After(cfg, c, evs));
  }

  lemma RoomInDirectory(cfg: Config, c: Codec, st: Sys)
    requires Proper(cfg, c) && Inv(cfg, c, st) && LogOk(cfg, c, st) && st.snap.Some?
    requires || FitsLastFile(cfg, c, Directory(st), st.snap.value)
             || (HasRoom(cfg, Directory(st)) && WithinBounds(cfg, c, Directory(st), st.snap.value))
    ensures !LosesDelete(cfg, c, Directory(st), st.snap.value)
  {
    hide Inv, LogOk, Directory, InitWal, ReadAll, DecodeSnapshot, Refused, AllGood, RoomAt, Rooted, Shape;
    if LosesDelete(cfg, c, Directory(st), st.snap.value) {
      var (p, es) := Begun(cfg, c, Directory(st), st.snap.value).value;
      if FitsLastFile(cfg, c, Directory(st), st.snap.value) {
        RoomInSegment(cfg, c, p, es);
      } else {
        var t :| RoomAt(cfg, Directory(st), t);
        BegunIsRooted(cfg, c, st, p.wal, t);
        RootedNeverRefuses(cfg, c, p, Landed(c, st), es, t);
      }
    }
  }

  lemma BegunIsRooted(cfg: Config, c: Codec, st: Sys, w: Wal, t: nat)
    requires Proper(cfg, c) && Inv(cfg, c, st) && InitWal(cfg, c, Directory(st)) == Ok(w)
    requires RoomAt(cfg, Directory(st), t)
    ensures Shape(cfg, c, w, Landed(c, st)) && Rooted(cfg, w, Landed(c, st), t)
    ensures w.lastSnapshot == 0 && w.lastSeq == |Flat(Landed(c, st))|
  {
    hide InitWal, Shape, Rooted, RoomAt, Landed, Survived, Covered, LogOk, ModeOk, Directory, Flat;
    hide SnapOk, ReclaimOk, WaitersOk, SnapperOk, KeysMatch;
    RestartLog(cfg, c, st, w);
    RoomIsRooted(cfg, c, w, Landed(c, st), t);
  }

  // ---- When start-up completes ----

  /** InitWAL succeeds exactly when the file the log was writing ends with a whole entry and the walk back
      over empty segments can end. A rotation that was cut leaves an empty file after that one. */
  lemma InitSucceedsIff(cfg: Config, c: Codec, w: Wal, layout: seq<seq<WalEntry>>)
    requires Lossless(c) && Shape(cfg, c, w, layout)
    ensures var layout' := Trimmed(c, w, layout);
            && (InitWal(cfg, c, w.segs).Ok? <==>
                && Parse(w.segs[w.lastSeg]).Some?
                && exists t :: 1 <= t <= w.lastSeg && WalkEnds(w.segs, layout', w.lastSeg, t))
            && InitWal(cfg, c, w.segs[w.lastSeg + 1 := []]).Ok? == InitWal(cfg, c, w.segs).Ok?
  {
    hide EncodeFile, Flat, Parse, Whole, AllGood, LastNumber, Trimmed;
    assert IsMax(w.segs.Keys, w.lastSeg);
    OnlyMax(w.segs.Keys, w.lastSeg);
    TornInit(cfg, c, w.segs, w.lastSeg);
    if Parse(w.segs[w.lastSeg]).Some? {
      TrimmedIsSurvived(cfg, c, w, layout);
      TrimmedFiles(cfg, c, w, layout);
      hide GoodFiles;
      LastNumberIsNewest(c, w.segs, Trimmed(c, w, layout), w.lastSeg);
    } else if InitWal(cfg, c, w.segs).Ok? {
      LastNumberNeedsParse(c, w.segs, w.lastSeg);
    }
  }

  lemma ScansIffContiguous(cfg: Config, c: Codec, st: Sys, w: Wal)
    requires Proper(cfg, c) && Core(cfg, c, st) && InitWal(cfg, c, Directory(st)) == Ok(w)
    ensures ReadAll(c, w.segs, w.lastSeg, w.lastSeq).Ok? <==> Contiguous(st.wal.segs.Keys, st.wal.lastSeg)
  {
    hide InitWal, ReadAll, Flat, Survived, Landed, Covered, Shape, SnapOk, SnapperOk, WaitersOk, LogOk, Contiguous;
    hide KeysMatch, Published, ReclaimOk, Directory;
    LandedLength(cfg, c, st);
    RestartLog(cfg, c, st, w);
    ScansIffNoGap(cfg, c, w, Landed(c, st));
    DirectoryContiguous(cfg, c, st);
  }

  lemma DirectoryContiguous(cfg: Config, c: Codec, st: Sys)
    requires LogOk(cfg, c, st)
    ensures Contiguous(Directory(st).Keys, |Landed(c, st)|) <==> Contiguous(st.wal.segs.Keys, st.wal.lastSeg)
  {
    LandedLength(cfg, c, st);
    LogKeys(cfg, c, st);
    hide LogOk, Landed, Contiguous;
    if st.rotation == Halted(true) {
      NewFileContiguous(st.wal.segs.Keys, st.wal.lastSeg);
      assert Directory(st).Keys == st.wal.segs.Keys + {st.wal.lastSeg + 1};
    }
  }

  lemma LandedLength(cfg: Config, c: Codec, st: Sys)
    requires LogOk(cfg, c, st)
    ensures 1 <= st.wal.lastSeg == |st.layout| && st.wal.lastSeg in st.wal.segs
    ensures |Landed(c, st)| == st.wal.lastSeg + if st.rotation == Halted(true) then 1 else 0
  {
    hide LogOk, Trimmed;
    LogLength(cfg, c, st);
  }

  lemma LogKeys(cfg: Config, c: Codec, st: Sys)
    requires LogOk(cfg, c, st)
    ensures forall s :: s in st.wal.segs ==> 1 <= s <= st.wal.lastSeg
  {
    hide GoodLayout, Survived, Flat, EncodeFile;
  }

  lemma ScansIffNoGap(cfg: Config, c: Codec, w: Wal, layout: seq<seq<WalEntry>>)
    requires Lossless(c) && Shape(cfg, c, w, layout) && w.buf == [] && w.lastSeg < TWO_TO_64
    requires w.lastSeq == |Flat(layout)|
    ensures ReadAll(c, w.segs, w.lastSeg, w.lastSeq).Ok? <==> Contiguous(w.segs.Keys, w.lastSeg)
  {
    hide ReadAll, Flat, EncodeFile, GoodLayout, Range;
    LastFileWhole(cfg, c, w, layout);
    hide WholeFiles, Numbered;
    ScanIsExact(c, w.segs, layout);
    assert |w.segs| == |w.segs.Keys|;
  }

  /** When recovery completes, after any run and a crash at any step of it, inside a rotation too: exactly
      when the file the log was writing ends with a whole entry, the walk back over empty segments finds
      the files it needs, and, if a snapshot was published, the segment files have no gap. Neither the
      snapshot file nor what a segment holds can stop it. */
  lemma RecoveryCompletesIff(cfg: Config, c: Codec, evs: seq<Event>)
    requires Proper(cfg, c) && Run(cfg, c, evs).Some?
    ensures var st := After(cfg, c, evs);
            var layout := Trimmed(c, st.wal, st.layout);
            && 1 <= st.wal.lastSeg == |layout| && st.wal.lastSeg in st.wal.segs
            && (Recovered(cfg, c, Directory(st), st.snap).Ok? <==>
                && Parse(st.wal.segs[st.wal.lastSeg]).Some?
                && (exists t :: 1 <= t <= st.wal.lastSeg && WalkEnds(st.wal.segs, layout, st.wal.lastSeg, t))
                && (st.snap.Some? ==> Contiguous(st.wal.segs.Keys, st.wal.lastSeg)))
  {
    hide *;
    StartUpCompletesIff(cfg, c, After(cfg, c, evs));
  }

  lemma StartUpCompletesIff(cfg: Config, c: Codec, st: Sys)
    requires Proper(cfg, c) && Inv(cfg, c, st) && LogOk(cfg, c, st)
    ensures var layout := Trimmed(c, st.wal, st.layout);
            && 1 <= st.wal.lastSeg == |layout| && st.wal.lastSeg in st.wal.segs
            && (Recovered(cfg, c, Directory(st), st.snap).Ok? <==>
                && Parse(st.wal.segs[st.wal.lastSeg]).Some?
                && (exists t :: 1 <= t <= st.wal.lastSeg && WalkEnds(st.wal.segs, layout, st.wal.lastSeg, t))
                && (st.snap.Some? ==> Contiguous(st.wal.segs.Keys, st.wal.lastSeg)))
  {
    hide InitWal, Survived, WalkEnds, Contiguous, Shape, Parse, Recovered, Inv, Flat;
    LogLength(cfg, c, st);
    InitSucceedsIff(cfg, c, st.wal, st.layout);
    hide LogOk;
    RecoveredIff(cfg, c, st);
  }

  lemma RecoveredIff(cfg: Config, c: Codec, st: Sys)
    requires Proper(cfg, c) && Inv(cfg, c, st) && LogOk(cfg, c, st)
    ensures Recovered(cfg, c, Directory(st), st.snap).Ok? <==>
            InitWal(cfg, c, Directory(st)).Ok? && (st.snap.Some? ==> Contiguous(st.wal.segs.Keys, st.wal.lastSeg))
  {
    hide InitWal, ReadAll, ModeOk, SnapperOk, WaitersOk, ReclaimOk, KeysMatch, DecodeSnapshot, Fresh, Replay;
    hide LogOk, Durable, Contiguous, Directory, AllApplied, AllGood, MapAfter;
    if InitWal(cfg, c, Directory(st)).Ok? {
      ScansIffContiguous(cfg, c, st, InitWal(cfg, c, Directory(st)).value);
      if st.snap.Some? && Begun(cfg, c, Directory(st), st.snap.value).Ok? {
        BegunIsDurable(cfg, c, st);
        var (p, es) := Begun(cfg, c, Directory(st), st.snap.value).value;
        AppliedIsReplayIff(cfg, c, p, es);
      }
    }
  }

  // ---- Acknowledged updates ----

  lemma FoundAfterStartUp(cfg: Config, c: Codec, st: Sys, x: string)
    requires Proper(cfg, c) && Inv(cfg, c, st) && LogOk(cfg, c, st)
    requires st.snap.Some? && Recovered(cfg, c, Directory(st), st.snap).Ok?
    ensures var found := Look(Recovered(cfg, c, Directory(st), st.snap).value, x);
            found == Look(MapAfter(Durable(cfg, c, st)), x) <==>
            !KeepsDeleted(cfg, c, Directory(st), st.snap.value, x)
  {
    hide Inv, LogOk, Directory, InitWal, Begun, AllApplied, KeptOn, Durable, MapAfter, AllGood, Replay;
    BegunIsDurable(cfg, c, st);
    var (p, es) := Begun(cfg, c, Directory(st), st.snap.value).value;
    LookAfterStartUp(cfg, c, p, es, x);
  }

  /** Acknowledged updates: a name all of whose updates were acknowledged is found after recovery as the
      log last left it, and as the store showed it before the crash, exactly when its last retained entry
      is not a delete that start-up fires and the log refuses. */
  lemma AcknowledgedUpdateFoundIff(cfg: Config, c: Codec, evs: seq<Event>, x: string)
    requires Proper(cfg, c) && Run(cfg, c, evs).Some?
    requires var st := After(cfg, c, evs);
             && st.snap.Some? && Recovered(cfg, c, Directory(st), st.snap).Ok?
             && forall j :: 1 <= j <= st.wal.lastSeq && Logged(cfg, c, st)[j - 1].Key() == x ==> Acknowledged(st, j)
    ensures var st := After(cfg, c, evs);
            var found := Look(Recovered(cfg, c, Directory(st), st.snap).value, x);
            && (found == Look(MapAfter(Logged(cfg, c, st)), x) <==>
                !KeepsDeleted(cfg, c, Directory(st), st.snap.value, x))
            && (st.mode.Serving? && (forall j :: j in st.pending ==> st.pending[j].op.Key() != x) ==>
                Look(st.files, x) == Look(MapAfter(Logged(cfg, c, st)), x))
  {
    hide After, Run, Recovered, LogOk, Logged, Durable, MapAfter, Inv, KeepsDeleted, Directory;
    var st := After(cfg, c, evs);
    FoundAfterStartUp(cfg, c, st, x);
    TailUntouched(cfg, c, st, x);
    if st.mode.Serving? && forall j :: j in st.pending ==> st.pending[j].op.Key() != x {
      ShownIsLogged(cfg, c, st, x);
    }
  }

  /** So no acknowledged add or delete is lost when the directory shows that there is room. */
  lemma NoAcknowledgedUpdateLost(cfg: Config, c: Codec, evs: seq<Event>, x: string)
    requires Proper(cfg, c) && Run(cfg, c, evs).Some?
    requires var st := After(cfg, c, evs);
             && st.snap.Some? && Recovered(cfg, c, Directory(st), st.snap).Ok?
             && (forall j :: 1 <= j <= st.wal.lastSeq && Logged(cfg, c, st)[j - 1].Key() == x ==> Acknowledged(st, j))
             && (|| FitsLastFile(cfg, c, Directory(st), st.snap.value)
                 || (HasRoom(cfg, Directory(st)) && WithinBounds(cfg, c, Directory(st), st.snap.value)))
    ensures var st := After(cfg, c, evs);
            Look(Recovered(cfg, c, Directory(st), st.snap).value, x) == Look(MapAfter(Logged(cfg, c, st)), x)
  {
    hide After, Run, Recovered, LogOk, Logged, Durable, MapAfter, Inv, Directory, FitsLastFile, HasRoom, WithinBounds;
    hide KeepsDeleted, LosesDelete, Acknowledged;
    var st := After(cfg, c, evs);
    RoomKeepsDeletes(cfg, c, evs);
    AcknowledgedUpdateFoundIff(cfg, c, evs, x);
    if KeepsDeleted(cfg, c, Directory(st), st.snap.value, x) {
      KeptIsLost(cfg, c, Directory(st), st.snap.value, x);
    }
  }

  lemma KeptIsLost(cfg: Config, c: Codec, segs: map<nat, seq<byte>>, f: seq<byte>, x: string)
    requires KeepsDeleted(cfg, c, segs, f, x)
    ensures LosesDelete(cfg, c, segs, f)
  {
    hide Begun, RefusedForGood;
  }

  lemma TailUntouched(cfg: Config, c: Codec, st: Sys, x: string)
    requires Inv(cfg, c, st) && LogOk(cfg, c, st)
    requires forall j :: 1 <= j <= st.wal.lastSeq && Logged(cfg, c, st)[j - 1].Key() == x ==> Acknowledged(st, j)
    ensures Look(MapAfter(Durable(cfg, c, st)), x) == Look(MapAfter(Logged(cfg, c, st)), x)
  {
    hide Shape, Survived, Flat, SnapOk, SnapperOk, ReclaimOk, KeysMatch, MapOk, ReplayOk, MapAfter;
    var ops, d := Logged(cfg, c, st), |Durable(cfg, c, st)|;
    forall i | d <= i < |ops| ensures ops[i].Key() != x {
      assert !Acknowledged(st, i + 1);
    }
    UntouchedBetween(ops, d, |ops|, x);
    assert ops[..|ops|] == ops && Durable(cfg, c, st) == ops[..d];
  }

  lemma ShownIsLogged(cfg: Config, c: Codec, st: Sys, x: string)
    requires Inv(cfg, c, st) && LogOk(cfg, c, st) && st.mode.Serving?
    requires forall j :: j in st.pending ==> st.pending[j].op.Key() != x
    ensures Look(st.files, x) == Look(MapAfter(Logged(cfg, c, st)), x)
  {
    hide Shape, Survived, Flat, SnapOk, SnapperOk, ReclaimOk, KeysMatch, MapAfter;
    var ops := Logged(cfg, c, st);
    assert Settled(ops, st.pending.Keys, st.files, x);
    var p: nat :| Splits(ops, st.pending.Keys, x, p) && Look(st.files, x) == Look(MapAfter(ops[..p]), x);
    UntouchedBetween(ops, p, |ops|, x);
    assert ops[..|ops|] == ops;
  }
}
