/** What the start-up scans find in a log directory. */
module WalScan {
  import opened Results
  import opened Bytes
  import opened Frames
  import opened WalCodec
  import opened Layout
  import opened WalLog

  // ---- The fast tail scan against full decoding ----

  /** On any file that decodes in full, the tail scan returns the last entry of the full decode, and
      reports an empty file exactly when there is none. */
  lemma {:induction false} TailScanAgrees(c: Codec, bodies: seq<seq<byte>>)
    requires UnmarshalAll(c, bodies).Some?
    ensures |UnmarshalAll(c, bodies).value| == |bodies|
    ensures var es := UnmarshalAll(c, bodies).value;
            bodies != [] ==> Unmarshal(c, bodies[|bodies| - 1]) == Some(es[|es| - 1])
  {
    if bodies != [] {
      TailScanAgrees(c, bodies[1..]);
      if |bodies| > 1 {
        assert bodies[|bodies| - 1] == bodies[1..][|bodies| - 2];
      }
    }
  }

  lemma TailScanIsLastOfDecode(c: Codec, f: seq<byte>)
    requires DecodeFile(c, f).Some?
    ensures var es := DecodeFile(c, f).value;
            TailScan(c, f) == if es == [] then Empty else Found(es[|es| - 1])
  {
    TailScanAgrees(c, Parse(f).value);
  }

  /** From file s back to file t, and not past the first: empty files, and at t either an entry or the
      empty first file. */
  predicate WalkStops(c: Codec, segs: map<nat, seq<byte>>, s: nat, t: nat) {
    && t <= s && (t == 0 ==> s == 0) && (forall u :: t < u <= s ==> u in segs && segs[u] == [])
    && t in segs && (if segs[t] == [] then t == 1 else TailScan(c, segs[t]).Found?)
  }

  lemma TailEmptyIff(c: Codec, f: seq<byte>)
    ensures TailScan(c, f).Empty? <==> f == []
  {
  }

  lemma StopsHere(c: Codec, segs: map<nat, seq<byte>>, s: nat, t: nat)
    requires s in segs && (segs[s] != [] || s <= 1)
    ensures WalkStops(c, segs, s, t) <==> t == s && (segs[s] == [] ==> s == 1) && !TailScan(c, segs[s]).Bad?
  {
    TailEmptyIff(c, segs[s]);
    hide TailScan;
    if t < s {
      assert segs[s] == [] ==> s == 1;
    }
  }

  lemma StopsBefore(c: Codec, segs: map<nat, seq<byte>>, s: nat, r: nat, t: nat)
    requires r + 1 == s && r >= 1 && s in segs && segs[s] == [] && WalkStops(c, segs, s, t)
    ensures r in segs && WalkStops(c, segs, r, t)
  {
    hide TailScan;
    assert t != s;
    assert t < r ==> r in segs;
  }

  lemma StopsAfter(c: Codec, segs: map<nat, seq<byte>>, s: nat, r: nat, t: nat)
    requires r + 1 == s && r >= 1 && s in segs && segs[s] == [] && WalkStops(c, segs, r, t)
    ensures WalkStops(c, segs, s, t)
  {
    hide TailScan;
    forall u | t < u <= s ensures u in segs && segs[u] == [] {
      assert u == s || u <= r;
    }
  }

  lemma StopsOneBack(c: Codec, segs: map<nat, seq<byte>>, s: nat, t: nat)
    requires s in segs
    ensures WalkStops(c, segs, s, t) <==>
            if segs[s] != [] || s <= 1 then t == s && (segs[s] == [] ==> s == 1) && !TailScan(c, segs[s]).Bad?
            else s - 1 in segs && WalkStops(c, segs, s - 1, t)
  {
    hide WalkStops, TailScan;
    if segs[s] != [] || s <= 1 {
      StopsHere(c, segs, s, t);
    } else {
      var r: nat := s - 1;
      if WalkStops(c, segs, s, t) {
        StopsBefore(c, segs, s, r, t);
      }
      if WalkStops(c, segs, r, t) {
        StopsAfter(c, segs, s, r, t);
      }
    }
  }

  /** What the walk back makes of the file it starts from. */
  lemma LastNumberStep(c: Codec, segs: map<nat, seq<byte>>, s: nat)
    requires s in segs
    ensures segs[s] == [] && s > 1 ==>
              LastNumber(c, segs, s) == if s - 1 in segs then LastNumber(c, segs, s - 1) else Err
    ensures segs[s] != [] || s <= 1 ==>
              (LastNumber(c, segs, s).Ok? <==> (segs[s] == [] ==> s == 1) && !TailScan(c, segs[s]).Bad?)
    ensures segs[s] != [] && TailScan(c, segs[s]).Found? ==>
              LastNumber(c, segs, s) == Ok(TailScan(c, segs[s]).entry.seqNo)
    ensures segs[s] == [] && s == 1 ==> LastNumber(c, segs, s) == Ok(0)
  {
    assert TailScan(c, segs[s]).Empty? <==> segs[s] == [];
    hide TailScan;
  }

  /** In any directory at all, file 0 included: the walk back finds a number exactly if it passes over empty
      files that are all there to one with an entry, whose number it is, or to the empty first file. */
  lemma {:induction false} LastNumberIff(c: Codec, segs: map<nat, seq<byte>>, s: nat)
    requires s in segs
    ensures LastNumber(c, segs, s).Ok? <==> exists t :: WalkStops(c, segs, s, t)
    ensures forall t :: WalkStops(c, segs, s, t) && LastNumber(c, segs, s).Ok? ==>
              t in segs &&
              LastNumber(c, segs, s).value == if segs[t] == [] then 0 else TailScan(c, segs[t]).entry.seqNo
    decreases s
  {
    LastNumberStep(c, segs, s);
    forall t ensures WalkStops(c, segs, s, t) <==>
                     if segs[s] != [] || s <= 1 then t == s && (segs[s] == [] ==> s == 1) && !TailScan(c, segs[s]).Bad?
                     else s - 1 in segs && WalkStops(c, segs, s - 1, t)
    {
      StopsOneBack(c, segs, s, t);
    }
    hide WalkStops, LastNumber, TailScan;
    if segs[s] != [] || s <= 1 {
      assert LastNumber(c, segs, s).Ok? ==> WalkStops(c, segs, s, s);
    } else if s - 1 in segs {
      var r := s - 1;
      LastNumberIff(c, segs, r);
      if t :| WalkStops(c, segs, r, t) {
        assert WalkStops(c, segs, s, t);
      }
    }
  }

  // ---- Reading every file ----

  /** Reading a file entry by entry, ending where `tail` holds no further whole record. */
  lemma {:induction false} ReadFileEntries(c: Codec, es: seq<WalEntry>, tail: seq<byte>, stop: nat)
    requires Lossless(c) && AllGood(c, es)
    requires forall i :: 0 <= i < |es| ==> es[i].seqNo != stop
    requires !ReadFrame(tail).Got?
    ensures ReadFile(c, EncodeFile(c, es) + tail, stop) == if tail == [] then Some(es) else None
  {
    if es == [] {
      assert EncodeFile(c, es) + tail == tail;
    } else {
      var rest := EncodeFile(c, es[1..]) + tail;
      EncodeFront(c, es);
      assert EncodeFile(c, es) + tail == Frame(c.encEntry(es[0])) + rest;
      ReadFrameOfFrame(c.encEntry(es[0]), rest);
      assert Unmarshal(c, c.encEntry(es[0])) == Some(es[0]);
      hide EncodeFile, Frame, ReadFrame, Unmarshal;
      ReadFileEntries(c, es[1..], tail, stop);
      assert [es[0]] + es[1..] == es;
    }
  }

  lemma EncodeFront(c: Codec, es: seq<WalEntry>)
    requires es != []
    ensures EncodeFile(c, es) == Frame(c.encEntry(es[0])) + EncodeFile(c, es[1..])
  {
    assert Bodies(c, es)[1..] == Bodies(c, es[1..]);
  }

  /** Stopping at the number of the last entry drops nothing. */
  lemma {:induction false} ReadFileWhole(c: Codec, es: seq<WalEntry>, stop: nat)
    requires Lossless(c) && AllGood(c, es)
    requires forall i :: 0 <= i < |es| - 1 ==> es[i].seqNo != stop
    ensures ReadFile(c, EncodeFile(c, es), stop) == Some(es)
  {
    if es == [] {
    } else {
      var rest := EncodeFile(c, es[1..]);
      EncodeFront(c, es);
      ReadFrameOfFrame(c.encEntry(es[0]), rest);
      assert Unmarshal(c, c.encEntry(es[0])) == Some(es[0]);
      hide EncodeFile, Frame, ReadFrame, Unmarshal;
      if es[0].seqNo == stop {
        assert es == [es[0]];
      } else {
        ReadFileWhole(c, es[1..], stop);
        assert [es[0]] + es[1..] == es;
      }
    }
  }

  /** Cut strictly inside its final record, a file fails the tail scan, the full decode and the read. */
  lemma CutFileFailsEveryScan(c: Codec, es: seq<WalEntry>, last: WalEntry, cut: nat, stop: nat)
    requires Lossless(c) && AllGood(c, es) && Good(c, last)
    requires 0 < cut < |Frame(c.encEntry(last))|
    requires forall i :: 0 <= i < |es| ==> es[i].seqNo != stop
    ensures var f := EncodeFile(c, es) + Frame(c.encEntry(last))[..cut];
            TailScan(c, f) == Bad && DecodeFile(c, f) == None && ReadFile(c, f, stop) == None
  {
    var tail := Frame(c.encEntry(last))[..cut];
    CutRecord(c.encEntry(last), cut);
    CutFinalRecord(Bodies(c, es), tail);
    ReadFileEntries(c, es, tail, stop);
  }

  // ---- Checksums ----

  /** An entry is read back exactly if its checksum is that of its data. */
  lemma ChecksumDecides(c: Codec, e: WalEntry)
    requires Lossless(c)
    ensures Unmarshal(c, c.encEntry(e)) == if e.crc == c.crc(e.data) then Some(e) else None
  {
  }

  lemma {:induction false} UnmarshalStops(c: Codec, es: seq<WalEntry>, bad: WalEntry, more: seq<WalEntry>)
    requires Lossless(c) && AllGood(c, es) && bad.crc != c.crc(bad.data)
    ensures UnmarshalAll(c, Bodies(c, es + [bad] + more)) == None
  {
    var all := es + [bad] + more;
    if es == [] {
      assert all[0] == bad;
    } else {
      UnmarshalStops(c, es[1..], bad, more);
      assert Bodies(c, all)[1..] == Bodies(c, es[1..] + [bad] + more);
    }
  }

  lemma {:induction false} ReadFileStopsAtBad(c: Codec, es: seq<WalEntry>, bad: WalEntry, more: seq<WalEntry>,
                                              stop: nat)
    requires Lossless(c) && AllGood(c, es) && Fits(c.encEntry(bad)) && bad.crc != c.crc(bad.data)
    requires forall i :: 0 <= i < |es| ==> es[i].seqNo != stop
    ensures ReadFile(c, EncodeFile(c, es + [bad] + more), stop) == None
  {
    var all := es + [bad] + more;
    EncodeFront(c, all);
    ReadFrameOfFrame(c.encEntry(all[0]), EncodeFile(c, all[1..]));
    ChecksumDecides(c, all[0]);
    hide EncodeFile, Frame, ReadFrame, Unmarshal;
    if es == [] {
      assert all[0] == bad;
    } else {
      assert all[0] == es[0];
      ReadFileStopsAtBad(c, es[1..], bad, more, stop);
      assert all[1..] == es[1..] + [bad] + more;
    }
  }

  /** A record whose checksum is wrong makes the full decode and the entry-by-entry read fail, wherever it
      stands. The tail scan, which looks at the last record only, fails just if it is the last. */
  lemma WrongChecksum(c: Codec, es: seq<WalEntry>, bad: WalEntry, more: seq<WalEntry>, stop: nat)
    requires Lossless(c) && AllGood(c, es) && AllGood(c, more) && Fits(c.encEntry(bad)) && bad.crc != c.crc(bad.data)
    requires forall i :: 0 <= i < |es| ==> es[i].seqNo != stop
    ensures var f := EncodeFile(c, es + [bad] + more);
            && DecodeFile(c, f) == None && ReadFile(c, f, stop) == None
            && TailScan(c, f) == if more == [] then Bad else Found(more[|more| - 1])
  {
    var all := es + [bad] + more;
    ParseFrameAll(Bodies(c, all));
    UnmarshalStops(c, es, bad, more);
    ReadFileStopsAtBad(c, es, bad, more, stop);
    ChecksumDecides(c, all[|all| - 1]);
    hide ReadFile, Unmarshal;
    assert Bodies(c, all)[|all| - 1] == c.encEntry(all[|all| - 1]);
  }

  /** A read ends with the entry it was told to stop at: whatever follows is not looked at, even if it
      could not be read. */
  lemma ReadFileFirst(c: Codec, e: WalEntry, rest: seq<byte>, stop: nat)
    requires Lossless(c) && Good(c, e)
    ensures ReadFile(c, Frame(c.encEntry(e)) + rest, stop) ==
            if e.seqNo == stop then Some([e])
            else
              match ReadFile(c, rest, stop)
              case None => None
              case Some(es) => Some([e] + es)
  {
    ReadFrameOfFrame(c.encEntry(e), rest);
    ChecksumDecides(c, e);
    hide Frame, ReadFrame, Unmarshal;
  }

  lemma {:induction false} NothingReadPastStop(c: Codec, es: seq<WalEntry>, last: WalEntry, tail: seq<byte>)
    requires Lossless(c) && AllGood(c, es) && Good(c, last)
    requires forall i :: 0 <= i < |es| ==> es[i].seqNo != last.seqNo
    ensures ReadFile(c, EncodeFile(c, es + [last]) + tail, last.seqNo) == Some(es + [last])
  {
    var all := es + [last];
    var rest := EncodeFile(c, all[1..]) + tail;
    EncodeFront(c, all);
    hide EncodeFile, Frame, ReadFile, Good;
    assert EncodeFile(c, all) + tail == Frame(c.encEntry(all[0])) + rest;
    ReadFileFirst(c, all[0], rest, last.seqNo);
    if es == [] {
      assert all[0] == last && [last] == all;
    } else {
      assert all[0] == es[0] && all[1..] == es[1..] + [last];
      NothingReadPastStop(c, es[1..], last, tail);
      assert [es[0]] + (es[1..] + [last]) == all;
    }
  }

  function Range(a: nat, b: nat): (r: set<nat>)
    ensures forall k :: k in r <==> a <= k < b
  {
    if a < b then Range(a, b - 1) + {b - 1} else {}
  }

  lemma {:induction false} RangeSize(a: nat, b: nat)
    requires a <= b
    ensures |Range(a, b)| == b - a
  {
    if a < b {
      RangeSize(a, b - 1);
    }
  }

  lemma SubsetOfSameSize(a: set<nat>, b: set<nat>)
    requires a <= b && |a| == |b|
    ensures a == b
  {
    assert |b - a| == |b| - |a|;
    assert b - a == {};
  }

  lemma {:induction false} ReadFromNeedsFiles(c: Codec, segs: map<nat, seq<byte>>, start: nat, count: nat, stop: nat)
    requires ReadFrom(c, segs, start, count, stop).Ok?
    ensures Range(start, start + count) <= segs.Keys
  {
    if count > 0 {
      ReadFromNeedsFiles(c, segs, start, count - 1, stop);
    }
  }

  /** As many files as numbers from the computed start to the last segment: a scan that succeeds has
      read every file there is, the numbers have no gap, and the unsigned start did not wrap. */
  lemma ScanSuccessMeansContiguous(c: Codec, segs: map<nat, seq<byte>>, lastSeg: nat, stop: nat)
    requires lastSeg < TWO_TO_64 && forall s :: s in segs ==> s <= lastSeg
    requires ReadAll(c, segs, lastSeg, stop).Ok?
    ensures |segs| <= lastSeg + 1 && (lastSeg - |segs| + 1) % TWO_TO_64 == lastSeg + 1 - |segs|
    ensures segs.Keys == Range(lastSeg + 1 - |segs|, lastSeg + 1)
  {
    hide ReadFrom, Range;
    BoundedKeys(segs.Keys, lastSeg + 1);
    assert |segs| == |segs.Keys|;
    var start := lastSeg + 1 - |segs|;
    ReadFromNeedsFiles(c, segs, start, |segs|, stop);
    RangeSize(start, lastSeg + 1);
    SubsetOfSameSize(Range(start, lastSeg + 1), segs.Keys);
  }

  lemma {:induction false} BoundedKeys(keys: set<nat>, n: nat)
    requires forall k :: k in keys ==> k < n
    ensures |keys| <= n
    decreases n
  {
    if n == 0 {
      assert keys == {};
    } else {
      BoundedKeys(keys - {n - 1}, n - 1);
    }
  }

  lemma SegmentReads(c: Codec, segs: map<nat, seq<byte>>, layout: seq<seq<WalEntry>>, s: nat)
    requires Lossless(c) && Numbered(Flat(layout)) && WholeFiles(c, segs, layout, |layout|)
    requires 1 <= s <= |layout| && s in segs
    ensures ReadFile(c, segs[s], |Flat(layout)|) == Some(layout[s - 1])
  {
    hide EncodeFile, ReadFile;
    assert segs[s] == EncodeFile(c, layout[s - 1]);
    SegmentNumbers(layout, s - 1);
    FlatSplit(layout, s);
    BeforeStep(layout, s);
    ReadFileWhole(c, layout[s - 1], |Flat(layout)|);
  }

  /** A directory of whole files whose numbers run from `first` on: the layout from there. */
  lemma {:induction false} ReadFromIsFlat(c: Codec, segs: map<nat, seq<byte>>, layout: seq<seq<WalEntry>>, first: nat,
                                          count: nat)
    requires Lossless(c) && Numbered(Flat(layout))
    requires 1 <= first && first - 1 + count <= |layout|
    requires WholeFiles(c, segs, layout, |layout|)
    requires forall s :: first <= s < first + count ==> s in segs
    ensures ReadFrom(c, segs, first, count, |Flat(layout)|) == Ok(Flat(layout[first - 1..first - 1 + count]))
  {
    hide ReadFile, WholeFiles, Numbered, Flat;
    if count > 0 {
      ReadFromIsFlat(c, segs, layout, first, count - 1);
      var s := first + count - 1;
      SegmentReads(c, segs, layout, s);
      FlatOneMore(layout, first - 1, s);
    } else {
      EmptyFlat(layout[first - 1..first - 1]);
    }
  }

  lemma FlatOneMore(layout: seq<seq<WalEntry>>, from: nat, s: nat)
    requires from < s <= |layout|
    ensures Flat(layout[from..s]) == Flat(layout[from..s - 1]) + layout[s - 1]
  {
    assert layout[from..s][..s - from - 1] == layout[from..s - 1];
  }

  lemma EmptyFlat(layout: seq<seq<WalEntry>>)
    requires |layout| == 0
    ensures Flat(layout) == []
  {
  }

  lemma ScanOfContiguous(c: Codec, segs: map<nat, seq<byte>>, layout: seq<seq<WalEntry>>, n: nat)
    requires Lossless(c) && Numbered(Flat(layout)) && WholeFiles(c, segs, layout, |layout|)
    requires |layout| < TWO_TO_64 && n == |segs| && 1 <= n <= |layout|
    requires segs.Keys == Range(|layout| + 1 - n, |layout| + 1)
    ensures Before(layout, |layout| - n) <= |Flat(layout)|
    ensures ReadAll(c, segs, |layout|, |Flat(layout)|) == Ok(Flat(layout)[Before(layout, |layout| - n)..])
  {
    hide Flat, ReadFrom, WholeFiles, Numbered, Range;
    var first := |layout| + 1 - n;
    assert forall s :: first <= s < first + n ==> s in segs.Keys;
    assert (|layout| - n + 1) % TWO_TO_64 == first;
    ReadFromIsFlat(c, segs, layout, first, n);
    assert layout[first - 1..first - 1 + n] == layout[first - 1..];
    FlatSplit(layout, first - 1);
  }

  /** The start-up scan is exact: it succeeds exactly when the remaining files are contiguous, and
      then yields every entry on disk, in order, from the first file there is. */
  lemma ScanIsExact(c: Codec, segs: map<nat, seq<byte>>, layout: seq<seq<WalEntry>>)
    requires Lossless(c) && Numbered(Flat(layout)) && WholeFiles(c, segs, layout, |layout|)
    requires 1 <= |layout| < TWO_TO_64 && |layout| in segs
    requires forall s :: s in segs ==> 1 <= s <= |layout|
    ensures 1 <= |segs| <= |layout| && Before(layout, |layout| - |segs|) <= |Flat(layout)|
    ensures ReadAll(c, segs, |layout|, |Flat(layout)|).Ok? <==>
            segs.Keys == Range(|layout| + 1 - |segs|, |layout| + 1)
    ensures ReadAll(c, segs, |layout|, |Flat(layout)|).Ok? ==>
            ReadAll(c, segs, |layout|, |Flat(layout)|).value == Flat(layout)[Before(layout, |layout| - |segs|)..]
  {
    hide Flat, ReadAll, Range, WholeFiles, Numbered;
    SmallKeys(segs.Keys, |layout|);
    assert |segs| == |segs.Keys|;
    FlatSplit(layout, |layout| - |segs|);
    if ReadAll(c, segs, |layout|, |Flat(layout)|).Ok? {
      ScanSuccessMeansContiguous(c, segs, |layout|, |Flat(layout)|);
    }
    if segs.Keys == Range(|layout| + 1 - |segs|, |layout| + 1) {
      ScanOfContiguous(c, segs, layout, |segs|);
    }
  }

  // ---- InitWAL ----

  lemma {:induction false} HasMax(keys: set<nat>)
    requires keys != {}
    ensures exists m :: IsMax(keys, m)
    decreases |keys|
  {
    var k :| k in keys;
    var rest := keys - {k};
    assert keys == rest + {k};
    if rest == {} {
      assert IsMax(keys, k);
    } else {
      HasMax(rest);
      var m :| IsMax(rest, m);
      assert IsMax(keys, if k > m then k else m);
    }
  }

  predicate IsMax(keys: set<nat>, m: nat) {
    m in keys && forall k :: k in keys ==> k <= m
  }

  ghost function MaxKey(keys: set<nat>): (m: nat)
    requires keys != {}
    ensures IsMax(keys, m)
  {
    HasMax(keys);
    var m :| IsMax(keys, m);
    m
  }

  /** The manager's fields after start-up, from the log directory alone. */
  ghost function InitWal(cfg: Config, c: Codec, segs: map<nat, seq<byte>>): (r: Result<Wal>) {
    if segs == map[] then
      if cfg.maxSegs == 0 then Err else Ok(Wal(map[1 := []], 1, 0, 0, 0, [], 0))
    else
      var last := MaxKey(segs.Keys);
      match LastNumber(c, segs, last)
      case Err => Err
      case Ok(no) => Ok(Wal(segs, last, |segs[last]|, no, 0, [], 0))
  }

  /** The layout of what a crash leaves: whole entries of the last file only. */
  function Trimmed(c: Codec, w: Wal, layout: seq<seq<WalEntry>>): (r: seq<seq<WalEntry>>)
  {
    if w.lastSeg == 0 || w.lastSeg != |layout| || w.lastSeg !in w.segs then layout
    else
      var n := Whole(w.segs[w.lastSeg]);
      var last := layout[w.lastSeg - 1];
      layout[w.lastSeg - 1 := if n <= |last| then last[..n] else last]
  }

  lemma TrimmedFlat(layout: seq<seq<WalEntry>>, part: seq<WalEntry>)
    requires layout != [] && part <= layout[|layout| - 1]
    ensures var layout' := layout[|layout| - 1 := part];
            && Flat(layout') == Flat(layout[..|layout| - 1]) + part
            && Flat(layout') <= Flat(layout)
  {
    var k := |layout| - 1;
    assert layout[k := part][..k] == layout[..k];
    assert Flat(layout) == Flat(layout[..k]) + layout[k];
  }

  lemma TrimmedLayout(cfg: Config, c: Codec, layout: seq<seq<WalEntry>>, part: seq<WalEntry>)
    requires layout != [] && part <= layout[|layout| - 1] && GoodLayout(cfg, c, layout)
    ensures GoodLayout(cfg, c, layout[|layout| - 1 := part])
  {
    var k := |layout| - 1;
    var layout' := layout[k := part];
    TrimmedFlat(layout, part);
    assert part == layout[k][..|part|];
    EncodeShorter(c, layout[k], |part|);
    hide Flat, EncodeFile;
    forall s | 0 <= s < |layout'|
      ensures AllGood(c, layout'[s]) && (|layout'[s]| <= 1 || |EncodeFile(c, layout'[s])| < cfg.maxSize)
    {
      assert s < k ==> layout'[s] == layout[s];
    }
  }

  lemma TrimmedIsSurvived(cfg: Config, c: Codec, w: Wal, layout: seq<seq<WalEntry>>)
    requires Lossless(c) && Shape(cfg, c, w, layout)
    ensures Flat(Trimmed(c, w, layout)) == Survived(w, layout)
    ensures GoodLayout(cfg, c, Trimmed(c, w, layout))
  {
    hide EncodeFile, Flat, Whole, GoodLayout, Survived;
    var k := w.lastSeg - 1;
    var last, n := layout[k], Whole(w.segs[w.lastSeg]);
    WholeFits(cfg, c, w, layout);
    SurvivedCount(cfg, c, w, layout);
    TrimmedFlat(layout, last[..n]);
    TrimmedLayout(cfg, c, layout, last[..n]);
  }

  lemma WholeFits(cfg: Config, c: Codec, w: Wal, layout: seq<seq<WalEntry>>)
    requires Lossless(c) && Shape(cfg, c, w, layout)
    ensures Whole(w.segs[w.lastSeg]) <= |layout[w.lastSeg - 1]|
  {
    hide EncodeFile, Flat, Whole;
    var f, last := w.segs[w.lastSeg], layout[w.lastSeg - 1];
    assert f <= EncodeFile(c, last) by {
      assert EncodeFile(c, last) == f + w.buf;
    }
    DecodeCut(c, f, last);
  }

  /** If the last file parses, every file is whole for the trimmed layout. */
  lemma TrimmedFiles(cfg: Config, c: Codec, w: Wal, layout: seq<seq<WalEntry>>)
    requires Lossless(c) && Shape(cfg, c, w, layout) && Parse(w.segs[w.lastSeg]).Some?
    ensures WholeFiles(c, w.segs, Trimmed(c, w, layout), w.lastSeg)
    ensures GoodFiles(c, w.(buf := [], curSize := |w.segs[w.lastSeg]|), Trimmed(c, w, layout))
  {
    var f, es, layout' := w.segs[w.lastSeg], layout[w.lastSeg - 1], Trimmed(c, w, layout);
    hide EncodeFile, Parse, Whole, Flat, Good;
    TrimmedFile(c, f, w.buf, es);
    assert f + [] == f;
    forall t | t in w.segs && t <= w.lastSeg
      ensures w.segs[t] == EncodeFile(c, layout'[t - 1]) && AllGood(c, layout'[t - 1])
    {
      assert t < w.lastSeg ==> layout'[t - 1] == layout[t - 1];
    }
  }

  lemma TrimmedFile(c: Codec, f: seq<byte>, buf: seq<byte>, es: seq<WalEntry>)
    requires Lossless(c) && AllGood(c, es) && f + buf == EncodeFile(c, es) && Parse(f).Some?
    ensures Whole(f) <= |es| && f == EncodeFile(c, es[..Whole(f)])
  {
    hide EncodeFile, Parse, Whole, Good;
    assert f <= f + buf;
    DecodeCut(c, f, es);
  }

  lemma LastNumberNeedsParse(c: Codec, segs: map<nat, seq<byte>>, s: nat)
    requires s in segs && LastNumber(c, segs, s).Ok?
    ensures Parse(segs[s]).Some?
  {
  }

  lemma EncodeShorter(c: Codec, es: seq<WalEntry>, n: nat)
    requires n <= |es|
    ensures |EncodeFile(c, es[..n])| <= |EncodeFile(c, es)|
  {
    assert Bodies(c, es) == Bodies(c, es[..n]) + Bodies(c, es[n..]);
    FrameAllConcat(Bodies(c, es[..n]), Bodies(c, es[n..]));
  }

  /** Start-up on what a crash leaves: if it succeeds, the last file ends with a whole entry, the
      log is again well shaped and numbering resumes just past the last entry on disk. */
  lemma InitResumesNumbering(cfg: Config, c: Codec, w: Wal, layout: seq<seq<WalEntry>>)
    requires Lossless(c) && Shape(cfg, c, w, layout)
    requires InitWal(cfg, c, w.segs).Ok?
    ensures var w' := InitWal(cfg, c, w.segs).value;
            var layout' := Trimmed(c, w, layout);
            && w'.segs == w.segs && w'.lastSeg == w.lastSeg && w'.buf == [] && w'.gen == 0 && w'.lastSnapshot == 0
            && Shape(cfg, c, w', layout')
            && w'.lastSeq == |Flat(layout')|
            && Flat(layout') == Survived(w, layout) == Survived(w', layout')
  {
    hide EncodeFile, Flat, Parse, Whole, Survived, AllGood, Trimmed, LastNumber;
    var last, layout' := MaxKey(w.segs.Keys), Trimmed(c, w, layout);
    assert last == w.lastSeg;
    TrimmedIsSurvived(cfg, c, w, layout);
    LastNumberNeedsParse(c, w.segs, last);
    TrimmedFiles(cfg, c, w, layout);
    LastNumberIsNewest(c, w.segs, layout', last);
    assert layout'[..last] == layout';
    SurvivedCount(cfg, c, InitWal(cfg, c, w.segs).value, layout');
  }

  // ---- A rotation cut short ----

  lemma {:induction false} LastNumberSame(c: Codec, segs: map<nat, seq<byte>>, segs': map<nat, seq<byte>>, s: nat)
    requires s in segs && s in segs'
    requires forall u :: u <= s && u in segs ==> u in segs' && segs'[u] == segs[u]
    requires forall u :: u <= s && u in segs' ==> u in segs
    ensures LastNumber(c, segs', s) == LastNumber(c, segs, s)
    decreases s
  {
    if TailScan(c, segs[s]).Empty? && s > 1 && s - 1 in segs {
      LastNumberSame(c, segs, segs', s - 1);
    }
  }

  /** With an empty newer file the start-up scan begins at the file before it. */
  lemma TornInit(cfg: Config, c: Codec, segs: map<nat, seq<byte>>, last: nat)
    requires IsMax(segs.Keys, last) && last >= 1
    ensures var dir := segs[last + 1 := []];
            && InitWal(cfg, c, dir).Ok? == InitWal(cfg, c, segs).Ok?
            && (InitWal(cfg, c, segs).Ok? ==>
                 && InitWal(cfg, c, segs).value.(curSize := 0, segs := dir, lastSeg := last + 1) ==
                    InitWal(cfg, c, dir).value
                 && InitWal(cfg, c, segs).value.segs == segs && InitWal(cfg, c, segs).value.lastSeg == last)
  {
    var dir := segs[last + 1 := []];
    hide LastNumber, TailScan;
    OnlyMax(segs.Keys, last);
    OnlyMax(dir.Keys, last + 1);
    EmptyLast(c, dir, last + 1);
    LastNumberSame(c, segs, dir, last);
  }

  lemma OnlyMax(keys: set<nat>, m: nat)
    requires IsMax(keys, m)
    ensures keys != {} && MaxKey(keys) == m
  {
  }

  lemma EmptyLast(c: Codec, segs: map<nat, seq<byte>>, s: nat)
    requires s in segs && segs[s] == [] && s >= 2 && s - 1 in segs
    ensures LastNumber(c, segs, s) == LastNumber(c, segs, s - 1)
  {
    assert TailScan(c, []) == Empty;
  }

  /** What start-up finds after such a crash: the log that survived, and an empty segment more. */
  lemma TornResumesNumbering(cfg: Config, c: Codec, w: Wal, layout: seq<seq<WalEntry>>)
    requires Lossless(c) && Shape(cfg, c, w, layout)
    requires InitWal(cfg, c, w.segs[w.lastSeg + 1 := []]).Ok?
    ensures var w' := InitWal(cfg, c, w.segs[w.lastSeg + 1 := []]).value;
            var layout' := Trimmed(c, w, layout) + [[]];
            && w'.segs == w.segs[w.lastSeg + 1 := []] && w'.lastSeg == w.lastSeg + 1
            && w'.buf == [] && w'.gen == 0 && w'.lastSnapshot == 0
            && Shape(cfg, c, w', layout')
            && w'.lastSeq == |Flat(layout')|
            && Flat(layout') == Survived(w, layout) == Survived(w', layout')
  {
    hide EncodeFile, Flat, Parse, Whole, Survived, AllGood, Trimmed, LastNumber, InitWal, Good;
    assert IsMax(w.segs.Keys, w.lastSeg);
    TornInit(cfg, c, w.segs, w.lastSeg);
    InitResumesNumbering(cfg, c, w, layout);
    var w0, layout0 := InitWal(cfg, c, w.segs).value, Trimmed(c, w, layout);
    assert w0.segs[w0.lastSeg] + w0.buf == w0.segs[w0.lastSeg];
    assert w0.segs[w0.lastSeg := w0.segs[w0.lastSeg]] == w0.segs;
    var w1 := OpenNext(w0);
    hide Shape;
    OpenNextKeepsShape(cfg, c, w0, layout0);
    FlatEmptySegment(layout0);
    RegeneratedShape(cfg, c, w1, layout0 + [[]], 0);
  }

  lemma RegeneratedShape(cfg: Config, c: Codec, w: Wal, layout: seq<seq<WalEntry>>, gen: nat)
    requires Shape(cfg, c, w, layout)
    ensures Shape(cfg, c, w.(gen := gen), layout)
    ensures Survived(w.(gen := gen), layout) == Survived(w, layout)
  {
    hide GoodLayout, EncodeFile, Flat, Whole;
  }

  // ---- Gaps ----

  /** The segment files have no gap. */
  ghost predicate Contiguous(keys: set<nat>, last: nat) {
    |keys| <= last && keys == Range(last + 1 - |keys|, last + 1)
  }

  /** A newer file neither makes a gap nor closes one. */
  lemma NewFileContiguous(keys: set<nat>, last: nat)
    requires last in keys && forall s :: s in keys ==> s <= last
    ensures Contiguous(keys + {last + 1}, last + 1) <==> Contiguous(keys, last)
  {
    var n := |keys|;
    assert |keys + {last + 1}| == n + 1;
    if n <= last {
      assert Range(last + 1 - n, last + 2) == Range(last + 1 - n, last + 1) + {last + 1};
      assert keys + {last + 1} == Range(last + 1 - n, last + 2) ==> keys == Range(last + 1 - n, last + 1) by {
        assert keys == (keys + {last + 1}) - {last + 1};
        assert Range(last + 1 - n, last + 1) == Range(last + 1 - n, last + 2) - {last + 1};
      }
    }
  }
}
