/** Where rotation ends: which appends succeed, when the segment files stay without a gap, and what a
    limit of one segment does. */
module WalLimits {
  import opened Results
  import opened Bytes
  import opened Frames
  import opened WalCodec
  import opened Layout
  import opened WalLog
  import opened WalScan
  import opened SnapshotFile
  import opened LogReplay
  import opened WalRecovery

  // ---- When an append succeeds ----

  /** There is room for another file, or the one to go is there and its newest number can be found. */
  predicate CanRotate(cfg: Config, w: Wal, layout: seq<seq<WalEntry>>) {
    |w.segs| < cfg.maxSegs ||
    (var s := Oldest(cfg, w);
     1 <= s <= |layout| && s in w.segs && exists t :: 1 <= t <= s && WalkEnds(w.segs, layout, s, t))
  }

  /** Rotation succeeds exactly then, and a rotation that fails changes nothing. */
  lemma RotationSucceedsIff(cfg: Config, c: Codec, w: Wal, layout: seq<seq<WalEntry>>)
    requires Lossless(c) && Shape(cfg, c, w, layout) && cfg.maxSegs >= 2 && w.lastSeg < TWO_TO_64
    ensures AddNewLogFile(cfg, c, w).Done? <==> CanRotate(cfg, w, layout)
    ensures AddNewLogFile(cfg, c, w).Failed? ==> AddNewLogFile(cfg, c, w).wal == w
  {
    hide EncodeFile, Flat, LastNumber, WalkEnds;
    if |w.segs| >= cfg.maxSegs {
      OldestIsOlder(cfg, c, w, layout);
      var s := Oldest(cfg, w);
      if s in w.segs {
        assert WholeFiles(c, w.segs, layout, s);
        LastNumberIsNewest(c, w.segs, layout, s);
      }
    }
  }

  lemma RotatedLogIsShaped(cfg: Config, c: Codec, w: Wal, layout: seq<seq<WalEntry>>)
    requires Lossless(c) && Shape(cfg, c, w, layout) && cfg.maxSegs >= 2 && w.lastSeg < TWO_TO_64
    requires AddNewLogFile(cfg, c, w).Done?
    ensures var w' := AddNewLogFile(cfg, c, w).wal;
            Shape(cfg, c, w'.(lastSeq := w'.lastSeq + 1), layout + [[]]) && w'.lastSeg == w.lastSeg + 1
  {
    hide Shape, LastNumber, Drain;
    var w1 := w;
    if |w.segs| >= cfg.maxSegs {
      OldestIsOlder(cfg, c, w, layout);
      if w1.segs != Remove(c, w, Oldest(cfg, w)).wal.segs {
        DropKeepsShape(cfg, c, w, layout, Oldest(cfg, w));
      }
      w1 := Remove(c, w, Oldest(cfg, w)).wal;
    }
    OpenNextKeepsShape(cfg, c, w1, layout);
    RenumberedShape(cfg, c, OpenNext(w1), layout + [[]], w1.lastSeq + 1);
  }

  /** The files that the first of two rotations leaves. */
  function Left(cfg: Config, w: Wal, layout: seq<seq<WalEntry>>): (segs: map<nat, seq<byte>>) {
    var s := Oldest(cfg, w);
    if |w.segs| >= cfg.maxSegs && s <= |layout| && Before(layout, s) <= w.lastSnapshot then w.segs - {s} else w.segs
  }

  /** Whether a second rotation can be made right after the first, told from the files before both. */
  predicate CanRotateTwice(cfg: Config, w: Wal, layout: seq<seq<WalEntry>>) {
    || |w.segs| + 1 < cfg.maxSegs
    || (var s := w.lastSeg + 2 - cfg.maxSegs;
        && 1 <= s <= |layout| && s in Left(cfg, w, layout)
        && exists t :: 1 <= t <= s && WalkEnds(Left(cfg, w, layout), layout, s, t))
  }

  /** An append succeeds exactly when it needs no rotation, or the one or two it makes can be made. */
  lemma AppendSucceedsIff(cfg: Config, c: Codec, w: Wal, layout: seq<seq<WalEntry>>, data: seq<byte>, isDelete: bool)
    requires Lossless(c) && Shape(cfg, c, w, layout) && cfg.maxSegs >= 2 && w.lastSeg + 1 < TWO_TO_64
    ensures var length := |c.encEntry(MakeEntry(c, w.lastSeq + 1, data, isDelete))|;
            AppendEntry(cfg, c, w, data, isDelete).Done? <==>
            || w.curSize + length + 4 < cfg.maxSize
            || (CanRotate(cfg, w, layout) && (w.curSize >= cfg.maxSize ==> CanRotateTwice(cfg, w, layout)))
  {
    hide AddNewLogFile, Shape, CanRotate, Frame, CanRotateTwice;
    RotationSucceedsIff(cfg, c, w, layout);
    RenumberedShape(cfg, c, w, layout, w.lastSeq + 1);
    RotationSucceedsIff(cfg, c, w.(lastSeq := w.lastSeq + 1), layout);
    RenumberedRotates(cfg, w, layout);
    if AddNewLogFile(cfg, c, w).Done? {
      var w1 := AddNewLogFile(cfg, c, w).wal;
      RotatedLogIsShaped(cfg, c, w, layout);
      RotationSucceedsIff(cfg, c, w1.(lastSeq := w1.lastSeq + 1), layout + [[]]);
      RenumberedRotates(cfg, w1, layout + [[]]);
      SecondRotationIff(cfg, c, w, layout);
    }
  }

  lemma KeepsAllIff(cfg: Config, c: Codec, w: Wal, layout: seq<seq<WalEntry>>)
    requires Lossless(c) && Shape(cfg, c, w, layout) && cfg.maxSegs >= 2 && w.lastSeg < TWO_TO_64
    requires AddNewLogFile(cfg, c, w).Done?
    ensures Left(cfg, w, layout).Keys == if KeepsAll(cfg, c, w) then w.segs.Keys else w.segs.Keys - {Oldest(cfg, w)}
    ensures !KeepsAll(cfg, c, w) ==> |w.segs| >= cfg.maxSegs && Oldest(cfg, w) in w.segs
    ensures |w.segs| >= cfg.maxSegs ==> 1 <= Oldest(cfg, w) == w.lastSeg - cfg.maxSegs + 1 < w.lastSeg
  {
    hide EncodeFile, Flat, LastNumber, WalkEnds, Before;
    if |w.segs| >= cfg.maxSegs {
      OldestIsOlder(cfg, c, w, layout);
      assert WholeFiles(c, w.segs, layout, Oldest(cfg, w));
      LastNumberIsNewest(c, w.segs, layout, Oldest(cfg, w));
    }
  }

  lemma SecondRotationIff(cfg: Config, c: Codec, w: Wal, layout: seq<seq<WalEntry>>)
    requires Lossless(c) && Shape(cfg, c, w, layout) && cfg.maxSegs >= 2 && w.lastSeg + 1 < TWO_TO_64
    requires AddNewLogFile(cfg, c, w).Done?
    ensures CanRotate(cfg, AddNewLogFile(cfg, c, w).wal, layout + [[]]) <==> CanRotateTwice(cfg, w, layout)
  {
    hide *;
    LogFiles(cfg, c, w, layout);
    LeftAfterRotation(cfg, c, w, layout);
    SecondTarget(cfg, w, AddNewLogFile(cfg, c, w).wal, layout);
  }

  /** What the first rotation leaves, and one file more. */
  lemma LeftAfterRotation(cfg: Config, c: Codec, w: Wal, layout: seq<seq<WalEntry>>)
    requires Lossless(c) && Shape(cfg, c, w, layout) && cfg.maxSegs >= 2 && w.lastSeg < TWO_TO_64
    requires AddNewLogFile(cfg, c, w).Done?
    ensures var w' := AddNewLogFile(cfg, c, w).wal;
            && w'.lastSeg == w.lastSeg + 1 && w'.segs.Keys == Left(cfg, w, layout).Keys + {w.lastSeg + 1}
            && (|w'.segs.Keys| < cfg.maxSegs <==> |w.segs| + 1 < cfg.maxSegs) && |w'.segs.Keys| <= w.lastSeg + 1
    ensures forall s :: s in Left(cfg, w, layout).Keys ==> 1 <= s <= w.lastSeg
  {
    hide *;
    LogFiles(cfg, c, w, layout);
    KeepsAllIff(cfg, c, w, layout);
    RotationKeys(cfg, c, w);
    LeftCounts(w.segs.Keys, Left(cfg, w, layout).Keys, AddNewLogFile(cfg, c, w).wal.segs.Keys, w.lastSeg,
               KeepsAll(cfg, c, w), Oldest(cfg, w), cfg.maxSegs);
  }

  lemma LeftCounts(keys: set<nat>, left: set<nat>, keys': set<nat>, last: nat, all: bool, s: nat, max: nat)
    requires |keys| <= last && forall k :: k in keys ==> 1 <= k <= last
    requires left == if all then keys else keys - {s}
    requires if all then keys' == keys + {last + 1} else s in keys && keys' == keys - {s} + {last + 1}
    requires !all ==> |keys| >= max
    ensures keys' == left + {last + 1} && |keys'| <= last + 1 && (|keys'| < max <==> |keys| + 1 < max)
    ensures forall k :: k in left ==> 1 <= k <= last
  {
    if all {
      assert |keys'| == |keys| + 1;
    } else {
      assert |keys - {s}| == |keys| - 1;
      assert |keys'| == |keys|;
    }
  }

  lemma LogFiles(cfg: Config, c: Codec, w: Wal, layout: seq<seq<WalEntry>>)
    requires Shape(cfg, c, w, layout)
    ensures w.lastSeg == |layout| && w.lastSeg in w.segs && |w.segs| == |w.segs.Keys| <= w.lastSeg
    ensures forall s :: s in w.segs.Keys ==> 1 <= s <= w.lastSeg
  {
    hide GoodLayout, EncodeFile, Flat;
    SmallKeys(w.segs.Keys, w.lastSeg);
  }

  lemma SecondTarget(cfg: Config, w: Wal, w': Wal, layout: seq<seq<WalEntry>>)
    requires cfg.maxSegs >= 2 && w.lastSeg + 1 < TWO_TO_64 && w'.lastSeg == w.lastSeg + 1 && w.lastSeg == |layout|
    requires w'.segs.Keys == Left(cfg, w, layout).Keys + {w.lastSeg + 1}
    requires forall s :: s in Left(cfg, w, layout).Keys ==> 1 <= s <= w.lastSeg
    requires |w'.segs.Keys| < cfg.maxSegs <==> |w.segs| + 1 < cfg.maxSegs
    requires |w'.segs.Keys| <= w.lastSeg + 1
    ensures CanRotate(cfg, w', layout + [[]]) <==> CanRotateTwice(cfg, w, layout)
  {
    hide Left;
    var segs, layout' := Left(cfg, w, layout), layout + [[]];
    assert |w'.segs| == |w'.segs.Keys|;
    if |w'.segs| >= cfg.maxSegs {
      var s := w.lastSeg + 2 - cfg.maxSegs;
      assert Oldest(cfg, w') == s;
      assert s in w'.segs <==> s in segs by {
        assert s in w'.segs.Keys <==> s in segs.Keys;
      }
      forall t | 1 <= t <= s ensures WalkEnds(w'.segs, layout', s, t) <==> WalkEnds(segs, layout, s, t) {
        assert forall u :: t <= u <= s ==> (u in w'.segs.Keys <==> u in segs.Keys);
        assert layout'[t - 1] == layout[t - 1];
      }
    }
  }

  lemma RenumberedRotates(cfg: Config, w: Wal, layout: seq<seq<WalEntry>>)
    ensures CanRotate(cfg, w.(lastSeq := w.lastSeq + 1), layout) == CanRotate(cfg, w, layout)
  {
    hide WalkEnds;
  }

  /** A rotation that fails goes on failing whatever is flushed, as long as the older files stay. */
  lemma FailedRotationFailsAgain(cfg: Config, c: Codec, w: Wal, layout: seq<seq<WalEntry>>, w': Wal)
    requires Lossless(c) && Shape(cfg, c, w, layout) && Shape(cfg, c, w', layout)
    requires cfg.maxSegs >= 2 && w.lastSeg < TWO_TO_64 && w'.segs.Keys == w.segs.Keys
    requires AddNewLogFile(cfg, c, w).Failed?
    ensures AddNewLogFile(cfg, c, w').Failed?
  {
    hide Shape, AddNewLogFile;
    ShapeLastSeg(cfg, c, w, layout);
    ShapeLastSeg(cfg, c, w', layout);
    RotationSucceedsIff(cfg, c, w, layout);
    RotationSucceedsIff(cfg, c, w', layout);
    assert |w.segs| == |w.segs.Keys| && |w'.segs| == |w'.segs.Keys|;
    assert forall s, t :: 1 <= t <= s <= |layout| ==> WalkEnds(w.segs, layout, s, t) == WalkEnds(w'.segs, layout, s, t);
    hide WalkEnds;
  }

  lemma ShapeLastSeg(cfg: Config, c: Codec, w: Wal, layout: seq<seq<WalEntry>>)
    requires Shape(cfg, c, w, layout)
    ensures w.lastSeg == |layout|
  {
  }

  /** It does happen: an empty oldest segment whose predecessor was reclaimed cannot be removed. */
  lemma RotationCanFail(cfg: Config, c: Codec, w: Wal)
    requires cfg.maxSegs == 3 && w.lastSeg == 5 && w.segs.Keys == {3, 4, 5} && w.segs[3] == []
    ensures AddNewLogFile(cfg, c, w) == Failed(w)
  {
    assert |w.segs| == |w.segs.Keys| == 3;
    assert Oldest(cfg, w) == 3;
    assert TailScan(c, []) == Empty;
  }

  // ---- Gaps ----

  /** The segment files up to the last have no gap. */
  ghost predicate NoGap(w: Wal) {
    Contiguous(w.segs.Keys, w.lastSeg)
  }

  lemma OneFileMore(keys: set<nat>, n: nat, last: nat)
    requires n <= last && keys == Range(last + 1 - n, last + 1)
    ensures |keys + {last + 1}| == n + 1 && keys + {last + 1} == Range(last + 1 - n, last + 2)
  {
    RangeSize(last + 1 - n, last + 2);
  }

  /** Replacing file s by a new last one leaves no gap exactly when s was the first. */
  lemma OneFileReplaced(keys: set<nat>, n: nat, last: nat, s: nat)
    requires n <= last && keys == Range(last + 1 - n, last + 1) && s in keys
    ensures |keys - {s} + {last + 1}| == n
    ensures keys - {s} + {last + 1} == Range(last + 2 - n, last + 2) <==> s == last + 1 - n
  {
    OneFileMore(keys, n, last);
    var keys' := keys - {s} + {last + 1};
    assert keys' == (keys + {last + 1}) - {s};
    assert s != last + 1 - n ==> s in Range(last + 2 - n, last + 2) && s !in keys';
  }

  /** Rotation removes nothing: there is room, or the file it aims at has to stay. */
  predicate KeepsAll(cfg: Config, c: Codec, w: Wal) {
    |w.segs| < cfg.maxSegs ||
    (var s := Oldest(cfg, w);
     s in w.segs && LastNumber(c, w.segs, s).Ok? && LastNumber(c, w.segs, s).value > w.lastSnapshot)
  }

  lemma RotationKeys(cfg: Config, c: Codec, w: Wal)
    requires w.lastSeg in w.segs && AddNewLogFile(cfg, c, w).Done?
    requires |w.segs| >= cfg.maxSegs ==> Oldest(cfg, w) < w.lastSeg
    ensures AddNewLogFile(cfg, c, w).wal.lastSeg == w.lastSeg + 1
    ensures var keys := AddNewLogFile(cfg, c, w).wal.segs.Keys;
            if KeepsAll(cfg, c, w) then keys == w.segs.Keys + {w.lastSeg + 1}
            else Oldest(cfg, w) in w.segs && keys == w.segs.Keys - {Oldest(cfg, w)} + {w.lastSeg + 1}
  {
    hide LastNumber, OpenNext, Oldest;
    if KeepsAll(cfg, c, w) {
      assert AddNewLogFile(cfg, c, w).wal == OpenNext(w);
      OpenNextKeys(w);
    } else {
      var w1 := w.(segs := w.segs - {Oldest(cfg, w)});
      assert AddNewLogFile(cfg, c, w).wal == OpenNext(w1);
      OpenNextKeys(w1);
    }
  }

  lemma OpenNextKeys(w: Wal)
    requires w.lastSeg in w.segs
    ensures OpenNext(w).segs.Keys == w.segs.Keys + {w.lastSeg + 1} && OpenNext(w).lastSeg == w.lastSeg + 1
  {
  }

  lemma ContiguousByKeys(w: Wal, n: nat)
    requires |w.segs.Keys| == n
    ensures NoGap(w) <==> n <= w.lastSeg && w.segs.Keys == Range(w.lastSeg + 1 - n, w.lastSeg + 1)
  {
    assert |w.segs| == |w.segs.Keys|;
  }

  lemma GrownContiguous(w: Wal, w': Wal)
    requires NoGap(w) && w'.lastSeg == w.lastSeg + 1 && w'.segs.Keys == w.segs.Keys + {w.lastSeg + 1}
    ensures NoGap(w')
  {
    ContiguousByKeys(w, |w.segs.Keys|);
    ContiguousByKeys(w', |w'.segs.Keys|);
    OneFileMore(w.segs.Keys, |w.segs.Keys|, w.lastSeg);
  }

  lemma ReplacedContiguous(w: Wal, w': Wal, s: nat)
    requires NoGap(w) && s in w.segs && w'.lastSeg == w.lastSeg + 1
    requires w'.segs.Keys == w.segs.Keys - {s} + {w.lastSeg + 1}
    ensures NoGap(w') <==> s == w.lastSeg + 1 - |w.segs|
  {
    hide NoGap, Range;
    assert |w.segs| == |w.segs.Keys|;
    ContiguousByKeys(w, |w.segs.Keys|);
    ContiguousByKeys(w', |w'.segs.Keys|);
    OneFileReplaced(w.segs.Keys, |w.segs.Keys|, w.lastSeg, s);
  }

  /** A rotation keeps the segment files free of gaps exactly when there are no more of them than the
      limit, or it removes none: above the limit it aims at a file in the middle. */
  lemma RotationKeepsContiguityIff(cfg: Config, c: Codec, w: Wal, layout: seq<seq<WalEntry>>)
    requires Lossless(c) && Shape(cfg, c, w, layout) && cfg.maxSegs >= 2 && w.lastSeg < TWO_TO_64
    requires NoGap(w) && AddNewLogFile(cfg, c, w).Done?
    ensures NoGap(AddNewLogFile(cfg, c, w).wal) <==> |w.segs| <= cfg.maxSegs || KeepsAll(cfg, c, w)
  {
    hide AddNewLogFile, NoGap, LastNumber, GoodLayout, EncodeFile, Flat;
    if |w.segs| >= cfg.maxSegs {
      OldestIsOlder(cfg, c, w, layout);
    }
    assert w.lastSeg in w.segs;
    hide *;
    RotationKeys(cfg, c, w);
    if KeepsAll(cfg, c, w) {
      GrownContiguous(w, AddNewLogFile(cfg, c, w).wal);
    } else {
      ReplacedContiguous(w, AddNewLogFile(cfg, c, w).wal, Oldest(cfg, w));
      RemovesOnlyWhenFull(cfg, c, w);
    }
  }

  lemma RemovesOnlyWhenFull(cfg: Config, c: Codec, w: Wal)
    requires !KeepsAll(cfg, c, w)
    ensures |w.segs| >= cfg.maxSegs
  {
  }

  /** A cleanup step keeps the segment files free of gaps exactly when the file has to stay, or is the
      first: cleanup takes the files in the order of their names, where 10 comes before 8. */
  lemma ReclaimKeepsContiguityIff(c: Codec, w: Wal, s: nat)
    requires NoGap(w) && s < w.lastSeg && Remove(c, w, s).Done?
    ensures NoGap(Remove(c, w, s).wal) <==>
            LastNumber(c, w.segs, s).value > w.lastSnapshot || s == w.lastSeg + 1 - |w.segs|
  {
    hide LastNumber, Range;
    if LastNumber(c, w.segs, s).value <= w.lastSnapshot {
      assert (w.segs - {s}).Keys == w.segs.Keys - {s};
      assert |w.segs| == |w.segs.Keys|;
      OneFileLess(w.segs.Keys, |w.segs|, w.lastSeg, s);
    }
  }

  lemma OneFileLess(keys: set<nat>, n: nat, last: nat, s: nat)
    requires n <= last && n == |keys| && keys == Range(last + 1 - n, last + 1) && s in keys && s < last
    ensures |keys - {s}| == n - 1
    ensures keys - {s} == Range(last + 2 - n, last + 1) <==> s == last + 1 - n
  {
    assert s != last + 1 - n ==> s in Range(last + 2 - n, last + 1) && s !in keys - {s};
    assert s == last + 1 - n ==> keys - {s} == Range(last + 2 - n, last + 1);
  }

  /** So a crash in the middle of a cleanup of the files 8 to 12, listed by name, leaves a directory that
      no start-up with a snapshot file reads. */
  lemma CleanupByNameLeavesGap(cfg: Config, c: Codec, w: Wal, f: seq<byte>)
    requires w.segs.Keys == {8, 9, 10, 11, 12} && w.lastSeg == 12
    requires forall s :: 10 <= s <= 11 ==>
               TailScan(c, w.segs[s]).Found? && TailScan(c, w.segs[s]).entry.seqNo <= w.lastSnapshot
    ensures var w1 := Remove(c, w, 10).wal;
            var w2 := Remove(c, w1, 11).wal;
            && w2.segs.Keys == {8, 9, 12}
            && Recovered(cfg, c, w2.segs, Some(f)).Err?
  {
    hide Recovered, Remove, LastNumber, TailScan;
    var w1, w2 := w.(segs := w.segs - {10}), w.(segs := w.segs - {10} - {11});
    RemovesFull(c, w, 10);
    RemovesFull(c, w1, 11);
    assert w2.segs.Keys == {8, 9, 12};
    GapFails(cfg, c, w2.segs, f);
  }

  lemma RemovesFull(c: Codec, w: Wal, s: nat)
    requires s in w.segs && TailScan(c, w.segs[s]).Found? && TailScan(c, w.segs[s]).entry.seqNo <= w.lastSnapshot
    ensures Remove(c, w, s) == Done(w.(segs := w.segs - {s}))
  {
    hide TailScan;
  }

  lemma GapFails(cfg: Config, c: Codec, segs: map<nat, seq<byte>>, f: seq<byte>)
    requires segs.Keys == {8, 9, 12}
    ensures Recovered(cfg, c, segs, Some(f)).Err?
  {
    hide LastNumber, DecodeSnapshot, AllApplied, ReadAll;
    assert |segs| == |segs.Keys| == 3;
    assert IsMax(segs.Keys, 12);
    OnlyMax(segs.Keys, 12);
    ReadFromMisses(c, segs, 12);
  }

  lemma ReadFromMisses(c: Codec, segs: map<nat, seq<byte>>, lastSeg: nat)
    requires lastSeg == 12 && |segs| == 3 && 10 !in segs
    ensures forall stop: nat :: ReadAll(c, segs, lastSeg, stop).Err?
  {
    forall stop: nat ensures ReadAll(c, segs, lastSeg, stop).Err? {
      assert ReadFrom(c, segs, 10, 1, stop).Err?;
      assert ReadFrom(c, segs, 10, 2, stop).Err?;
    }
  }

  // ---- One segment only ----

  /** The newest number the current segment or an earlier one holds on disk. */
  function NewestOnDisk(c: Codec, w: Wal): (no: nat) {
    if w.lastSeg in w.segs && LastNumber(c, w.segs, w.lastSeg).Ok? then LastNumber(c, w.segs, w.lastSeg).value else 0
  }

  /** Rotation keeps every byte of the current segment, buffered ones too, exactly when there is room
      for two segments or the newest number on disk is above the recorded snapshot: with a limit of
      one it may remove the current file before the buffer is flushed into it. */
  lemma RotationKeepsBufferIff(cfg: Config, c: Codec, w: Wal, layout: seq<seq<WalEntry>>)
    requires Lossless(c) && Shape(cfg, c, w, layout) && cfg.maxSegs >= 1 && w.lastSeg < TWO_TO_64
    requires AddNewLogFile(cfg, c, w).Done?
    ensures var w' := AddNewLogFile(cfg, c, w).wal;
            (w.lastSeg in w'.segs && w'.segs[w.lastSeg] == w.segs[w.lastSeg] + w.buf) <==>
            (cfg.maxSegs >= 2 || NewestOnDisk(c, w) > w.lastSnapshot)
  {
    hide LastNumber, GoodLayout;
    if cfg.maxSegs >= 2 && |w.segs| >= cfg.maxSegs {
      OldestIsOlder(cfg, c, w, layout);
    }
    if cfg.maxSegs == 1 {
      assert |w.segs| >= 1 by {
        assert w.lastSeg in w.segs.Keys;
      }
      assert Oldest(cfg, w) == w.lastSeg;
    }
  }

  /** A limit of one loses entries: two appends to a fresh log, the second of which rotates, release
      the first appender while its entry is in no file and no buffer. */
  lemma LimitOneLosesAnEntry(cfg: Config, c: Codec, first: seq<byte>, second: seq<byte>)
    requires cfg.maxSegs == 1
    requires var body := c.encEntry(MakeEntry(c, 1, first, false));
             |body| + 4 < cfg.maxSize <= |body| + 4 + |c.encEntry(MakeEntry(c, 2, second, false))| + 4
    ensures var w0 := Wal(map[1 := []], 1, 0, 0, 0, [], 0);
            var r1 := AppendEntry(cfg, c, w0, first, false);
            && r1.Done? && r1.wal.gen == 0
            && var r2 := AppendEntry(cfg, c, r1.wal, second, false);
               && r2.Done? && r2.wal.gen == 1
               && r2.wal.segs == map[2 := []] && r2.wal.buf == Frame(c.encEntry(MakeEntry(c, 2, second, false)))
  {
    hide Frame, MakeEntry;
    var w0 := Wal(map[1 := []], 1, 0, 0, 0, [], 0);
    var body, body2 := c.encEntry(MakeEntry(c, 1, first, false)), c.encEntry(MakeEntry(c, 2, second, false));
    var w1 := AppendEntry(cfg, c, w0, first, false).wal;
    assert w1.(buf := []) == Wal(map[1 := []], 1, |body| + 4, 1, 0, [], 0);
    var w2 := w1.(lastSeq := 2);
    assert TailScan(c, []) == Empty;
    assert Oldest(cfg, w2) == 1 && LastNumber(c, w2.segs, 1) == Ok(0);
    assert |w2.segs| == 1 && w2.segs - {1} == map[];
    var w3 := Wal(map[], 1, |body| + 4, 2, 0, w2.buf, 0);
    assert Remove(c, w2, 1) == Done(w3);
    assert AddNewLogFile(cfg, c, w2) == Done(OpenNext(w3));
    assert OpenNext(w3) == Wal(map[2 := []], 2, 0, 2, 0, [], 1);
    assert [] + Frame(body2) == Frame(body2);
  }
}
