/** The log manager as the program runs it: an object over the log directory. Every method is proved
    against the functions of WalLog and WalScan. */
module WalManager {
  import opened Results
  import opened Bytes
  import opened Frames
  import opened WalCodec
  import opened Layout
  import opened WalLog
  import opened WalScan

  /** What the tail scan makes of the last record it passed. */
  function Judge(c: Codec, body: seq<byte>): (r: Scan) {
    match Unmarshal(c, body)
    case None => Bad
    case Some(e) => Found(e)
  }

  /** The rest of a tail scan that has just skipped `prev` and has `rest` ahead. */
  function TailFrom(c: Codec, prev: seq<byte>, rest: seq<byte>): (r: Scan) {
    match Parse(rest)
    case None => Bad
    case Some(bodies) => Judge(c, if bodies == [] then prev else bodies[|bodies| - 1])
  }

  lemma TailFromStep(c: Codec, prev: seq<byte>, rest: seq<byte>)
    requires ReadFrame(rest).Got?
    ensures TailFrom(c, prev, rest) == TailFrom(c, ReadFrame(rest).body, ReadFrame(rest).rest)
    ensures TailScan(c, rest) == TailFrom(c, ReadFrame(rest).body, ReadFrame(rest).rest)
  {
    var r := ReadFrame(rest);
    if Parse(r.rest).Some? && Parse(r.rest).value != [] {
      var bodies := Parse(r.rest).value;
      assert ([r.body] + bodies)[|bodies|] == bodies[|bodies| - 1];
    }
  }

  /** Reading at an offset is reading what is left of the file. */
  lemma ReadFrameAt(f: seq<byte>, pos: nat)
    requires pos + 4 <= |f|
    ensures var length := FromBigEndian(f[pos..pos + 4]);
            ReadFrame(f[pos..]) ==
              if pos + 4 + length > |f| then Broken
              else Got(f[pos + 4..pos + 4 + length], f[pos + 4 + length..])
  {
    var rest := f[pos..];
    var length := FromBigEndian(f[pos..pos + 4]);
    assert rest[..4] == f[pos..pos + 4];
    if 4 + length <= |rest| {
      assert rest[4..4 + length] == f[pos + 4..pos + 4 + length];
      assert rest[4 + length..] == f[pos + 4 + length..];
    }
  }

  /** What the tail scan is known to be at an offset, where a record of `prev` octets ends. */
  ghost predicate ScannedTo(c: Codec, f: seq<byte>, pos: nat, prev: nat) {
    && ((pos == 0 && prev == 0) || 4 + prev <= pos)
    && (pos > |f| ==> pos - prev <= |f| && TailScan(c, f) == Bad)
    && (0 < pos <= |f| ==> TailScan(c, f) == TailFrom(c, f[pos - prev..pos], f[pos..]))
  }

  lemma ScanBegins(c: Codec, f: seq<byte>)
    ensures ScannedTo(c, f, 0, 0)
  {
  }

  lemma ShortTail(c: Codec, f: seq<byte>, pos: nat, prev: nat)
    requires ScannedTo(c, f, pos, prev) && pos < |f| && |f| - pos < 4
    ensures TailScan(c, f) == Bad
  {
    assert ReadFrame(f[pos..]) == Broken;
    assert pos == 0 ==> f[pos..] == f;
  }

  lemma Skip(c: Codec, f: seq<byte>, pos: nat, prev: nat)
    requires ScannedTo(c, f, pos, prev) && pos + 4 <= |f|
    ensures ScannedTo(c, f, pos + 4 + FromBigEndian(f[pos..pos + 4]), FromBigEndian(f[pos..pos + 4]))
  {
    var rest, length := f[pos..], FromBigEndian(f[pos..pos + 4]);
    assert pos == 0 ==> rest == f;
    ReadFrameAt(f, pos);
    if pos + 4 + length <= |f| {
      TailFromStep(c, f[pos - prev..pos], rest);
      hide TailFrom, TailScan, ReadFrame;
    }
  }

  lemma ScanEnds(c: Codec, f: seq<byte>, pos: nat, prev: nat)
    requires ScannedTo(c, f, pos, prev) && pos >= |f|
    ensures pos == 0 ==> TailScan(c, f) == Empty
    ensures pos > |f| ==> TailScan(c, f) == Bad
    ensures pos == |f| > 0 ==> prev <= pos && TailScan(c, f) == Judge(c, f[pos - prev..pos])
  {
    if pos == |f| && pos > 0 {
      assert f[pos..] == [];
    }
  }

  /** The skip scan: it only reads lengths, may run past the end of the file, and then reads back the
      last record it skipped. It agrees with full parsing on every file. */
  method FindLastRecord(c: Codec, f: seq<byte>) returns (r: Scan)
    ensures r == TailScan(c, f)
  {
    hide TailScan, ScannedTo;
    var pos: nat, prev: nat := 0, 0;
    ScanBegins(c, f);
    while pos < |f|
      invariant ScannedTo(c, f, pos, prev)
      decreases |f| - pos
    {
      if |f| - pos < 4 {
        ShortTail(c, f, pos, prev);
        return Bad;
      }
      Skip(c, f, pos, prev);
      var length := FromBigEndian(f[pos..pos + 4]);
      pos, prev := pos + 4 + length, length;
    }
    ScanEnds(c, f, pos, prev);
    if pos == 0 {
      return Empty;
    }
    if pos > |f| {
      return Bad;
    }
    var e := Unmarshal(c, f[pos - prev..pos]);
    r := match e case None => Bad case Some(entry) => Found(entry);
  }

  method ReadAllEntriesFromFile(c: Codec, f: seq<byte>, seqNo: nat) returns (r: Option<seq<WalEntry>>)
    ensures r == ReadFile(c, f, seqNo)
  {
    var entries: seq<WalEntry> := [];
    var rest := f;
    assert forall es: seq<WalEntry> :: [] + es == es;
    while true
      invariant ReadFile(c, f, seqNo) ==
                match ReadFile(c, rest, seqNo) case None => None case Some(es) => Some(entries + es)
      decreases |rest|
    {
      match ReadFrame(rest) {
        case End =>
          assert entries + [] == entries;
          return Some(entries);
        case Broken =>
          return None;
        case Got(body, tail) =>
          var e := Unmarshal(c, body);
          if e.None? {
            return None;
          }
          if e.value.seqNo == seqNo {
            return Some(entries + [e.value]);
          }
          assert forall es: seq<WalEntry> :: entries + ([e.value] + es) == (entries + [e.value]) + es;
          entries, rest := entries + [e.value], tail;
      }
    }
  }

  /** Removing, one after the other, the listed segments below segNo; the first error ends it. */
  function Cleanup(c: Codec, w: Wal, listing: seq<nat>, segNo: nat): (r: Outcome)
    decreases |listing|
  {
    if listing == [] then Done(w)
    else if listing[0] >= segNo then Cleanup(c, w, listing[1..], segNo)
    else
      match Remove(c, w, listing[0])
      case Failed(w1) => Failed(w1)
      case Done(w1) => Cleanup(c, w1, listing[1..], segNo)
  }

  /** However the directory is listed and wherever cleanup stops, it only removes segments whose
      entries the published snapshot covers. */
  lemma {:induction false} CleanupIsSafe(cfg: Config, c: Codec, w: Wal, layout: seq<seq<WalEntry>>, listing: seq<nat>,
                                         segNo: nat, no: nat)
    requires Lossless(c) && Shape(cfg, c, w, layout) && Covered(w.segs.Keys, layout, no) && w.lastSnapshot <= no
    requires segNo <= w.lastSeg
    ensures var w' := Cleanup(c, w, listing, segNo).wal;
            && Shape(cfg, c, w', layout) && Covered(w'.segs.Keys, layout, no)
            && w'.(segs := w.segs) == w && Survived(w', layout) == Survived(w, layout)
    decreases |listing|
  {
    hide Shape, Survived, Covered, Remove;
    if listing != [] {
      if listing[0] >= segNo {
        CleanupIsSafe(cfg, c, w, layout, listing[1..], segNo, no);
      } else if Remove(c, w, listing[0]).Done? {
        RemoveIsSafe(cfg, c, w, layout, listing[0], no);
        CleanupIsSafe(cfg, c, Remove(c, w, listing[0]).wal, layout, listing[1..], segNo, no);
      } else {
        FailedRemoveChangesNothing(c, w, listing[0]);
      }
    }
  }

  lemma FailedRemoveChangesNothing(c: Codec, w: Wal, s: nat)
    requires Remove(c, w, s).Failed?
    ensures Remove(c, w, s).wal == w
  {
  }

  // ---- What exactly a cleanup leaves ----

  /** The listed segments in front of segNo all of whose entries the recorded snapshot covers. */
  function Reclaimed(w: Wal, layout: seq<seq<WalEntry>>, listing: seq<nat>, segNo: nat): (keys: set<nat>) {
    set s | s in listing && s < segNo && s <= |layout| && Before(layout, s) <= w.lastSnapshot
  }

  /** When cleanup comes to the m-th file listed, the newest number in it or before it can be found. */
  ghost predicate Findable(w: Wal, layout: seq<seq<WalEntry>>, listing: seq<nat>, segNo: nat, m: nat)
    requires m < |listing|
  {
    var segs, s := w.segs - Reclaimed(w, layout, listing[..m], segNo), listing[m];
    s in segs && 1 <= s <= |layout| && exists t :: 1 <= t <= s && WalkEnds(segs, layout, s, t)
  }

  /** A segment in front of the current one goes exactly when its newest number is found and recorded as
      covered. */
  lemma RemoveIsExact(cfg: Config, c: Codec, w: Wal, layout: seq<seq<WalEntry>>, s: nat)
    requires Lossless(c) && Shape(cfg, c, w, layout) && s < w.lastSeg
    ensures var found := s in w.segs && exists t :: 1 <= t <= s && WalkEnds(w.segs, layout, s, t);
            Remove(c, w, s) ==
            if !found then Failed(w)
            else if Before(layout, s) <= w.lastSnapshot then Done(w.(segs := w.segs - {s}))
            else Done(w)
  {
    if s in w.segs {
      hide EncodeFile, Flat, LastNumber, Good;
      assert WholeFiles(c, w.segs, layout, s);
      LastNumberIsNewest(c, w.segs, layout, s);
    }
  }

  lemma ReclaimedFirst(w: Wal, layout: seq<seq<WalEntry>>, listing: seq<nat>, segNo: nat)
    requires listing != []
    ensures Reclaimed(w, layout, listing, segNo) ==
            Reclaimed(w, layout, listing[..1], segNo) + Reclaimed(w, layout, listing[1..], segNo)
  {
    assert listing == listing[..1] + listing[1..];
  }

  lemma ReclaimedOne(w: Wal, layout: seq<seq<WalEntry>>, s: nat, segNo: nat)
    ensures Reclaimed(w, layout, [s], segNo) ==
            if s < segNo && s <= |layout| && Before(layout, s) <= w.lastSnapshot then {s} else {}
  {
  }

  /** What cleanup finds at place m + 1, once the first file listed is dealt with. */
  lemma FindableLater(w: Wal, w1: Wal, layout: seq<seq<WalEntry>>, listing: seq<nat>, segNo: nat, m: nat)
    requires m + 1 < |listing|
    requires w1 == w.(segs := w.segs - Reclaimed(w, layout, listing[..1], segNo))
    ensures Findable(w, layout, listing, segNo, m + 1) == Findable(w1, layout, listing[1..], segNo, m)
    ensures w1.segs - Reclaimed(w1, layout, listing[1..][..m], segNo) ==
            w.segs - Reclaimed(w, layout, listing[..m + 1], segNo)
  {
    hide Before, WalkEnds;
    assert listing[..m + 1][..1] == listing[..1] && listing[..m + 1][1..] == listing[1..][..m];
    ReclaimedFirst(w, layout, listing[..m + 1], segNo);
    assert w1.segs - Reclaimed(w1, layout, listing[1..][..m], segNo) ==
           w.segs - Reclaimed(w, layout, listing[..m + 1], segNo);
  }

  /** The whole of what a cleanup does. It ends without an error exactly when the newest number of each
      older file listed can be found as cleanup comes to it, and has then removed exactly the covered
      ones. Otherwise it has removed exactly those in front of the first one whose number cannot be found. */
  ghost predicate CleanedUp(w: Wal, layout: seq<seq<WalEntry>>, listing: seq<nat>, segNo: nat, r: Outcome) {
    match r
    case Done(w') =>
      && (forall m :: 0 <= m < |listing| && listing[m] < segNo ==> Findable(w, layout, listing, segNo, m))
      && w' == w.(segs := w.segs - Reclaimed(w, layout, listing, segNo))
    case Failed(w') =>
      exists n: nat :: n < |listing| && StopsAt(w, layout, listing, segNo, n, w')
  }

  ghost predicate StopsAt(w: Wal, layout: seq<seq<WalEntry>>, listing: seq<nat>, segNo: nat, n: nat, w': Wal)
    requires n < |listing|
  {
    && listing[n] < segNo && !Findable(w, layout, listing, segNo, n)
    && (forall m :: 0 <= m < n && listing[m] < segNo ==> Findable(w, layout, listing, segNo, m))
    && w' == w.(segs := w.segs - Reclaimed(w, layout, listing[..n], segNo))
  }

  lemma CleanedUpLater(w: Wal, w1: Wal, layout: seq<seq<WalEntry>>, listing: seq<nat>, segNo: nat, r: Outcome)
    requires listing != [] && (listing[0] < segNo ==> Findable(w, layout, listing, segNo, 0))
    requires w1 == w.(segs := w.segs - Reclaimed(w, layout, listing[..1], segNo))
    requires CleanedUp(w1, layout, listing[1..], segNo, r)
    ensures CleanedUp(w, layout, listing, segNo, r)
  {
    hide Findable, Reclaimed, Before;
    forall m | 0 <= m < |listing| - 1
      ensures Findable(w, layout, listing, segNo, m + 1) == Findable(w1, layout, listing[1..], segNo, m)
      ensures listing[m + 1] == listing[1..][m]
    {
      FindableLater(w, w1, layout, listing, segNo, m);
    }
    forall m | 0 < m < |listing| ensures Findable(w, layout, listing, segNo, m) ==
                                         Findable(w1, layout, listing[1..], segNo, m - 1) {
      FindableLater(w, w1, layout, listing, segNo, m - 1);
    }
    if r.Done? {
      ReclaimedFirst(w, layout, listing, segNo);
      ReclaimedSame(w, w1, layout, listing[1..], segNo);
    } else {
      var n: nat :| n < |listing| - 1 && StopsAt(w1, layout, listing[1..], segNo, n, r.wal);
      FindableLater(w, w1, layout, listing, segNo, n);
      assert StopsAt(w, layout, listing, segNo, n + 1, r.wal);
    }
  }

  lemma ReclaimedSame(w: Wal, w1: Wal, layout: seq<seq<WalEntry>>, listing: seq<nat>, segNo: nat)
    requires w1.lastSnapshot == w.lastSnapshot
    ensures Reclaimed(w1, layout, listing, segNo) == Reclaimed(w, layout, listing, segNo)
  {
  }

  lemma {:induction false} CleanupIsExact(cfg: Config, c: Codec, w: Wal, layout: seq<seq<WalEntry>>, listing: seq<nat>,
                                          segNo: nat)
    requires Lossless(c) && Shape(cfg, c, w, layout) && segNo <= w.lastSeg
    ensures CleanedUp(w, layout, listing, segNo, Cleanup(c, w, listing, segNo))
    decreases |listing|
  {
    hide Shape, Findable, Remove, StopsAt, Reclaimed;
    if listing == [] {
      NothingListed(w, layout, segNo);
    } else {
      FirstListed(cfg, c, w, layout, listing, segNo);
      var w1 := w.(segs := w.segs - Reclaimed(w, layout, listing[..1], segNo));
      if listing[0] >= segNo || Findable(w, layout, listing, segNo, 0) {
        CleanupIsExact(cfg, c, w1, layout, listing[1..], segNo);
        CleanedUpLater(w, w1, layout, listing, segNo, Cleanup(c, w1, listing[1..], segNo));
      } else {
        StopsAtOnce(w, layout, listing, segNo);
      }
    }
  }

  lemma NothingListed(w: Wal, layout: seq<seq<WalEntry>>, segNo: nat)
    ensures CleanedUp(w, layout, [], segNo, Done(w))
  {
    assert w.segs - Reclaimed(w, layout, [], segNo) == w.segs;
  }

  lemma StopsAtOnce(w: Wal, layout: seq<seq<WalEntry>>, listing: seq<nat>, segNo: nat)
    requires listing != [] && listing[0] < segNo && !Findable(w, layout, listing, segNo, 0)
    ensures CleanedUp(w, layout, listing, segNo, Failed(w))
  {
    hide Findable;
    assert w.segs - Reclaimed(w, layout, listing[..0], segNo) == w.segs;
    assert StopsAt(w, layout, listing, segNo, 0, w);
  }

  /** The first turn of the loop. */
  lemma FirstListed(cfg: Config, c: Codec, w: Wal, layout: seq<seq<WalEntry>>, listing: seq<nat>, segNo: nat)
    requires Lossless(c) && Shape(cfg, c, w, layout) && segNo <= w.lastSeg && listing != []
    ensures var w1 := w.(segs := w.segs - Reclaimed(w, layout, listing[..1], segNo));
            && Shape(cfg, c, w1, layout) && w1.lastSeg == w.lastSeg
            && (listing[0] >= segNo ==> w1 == w)
            && (listing[0] < segNo ==>
                 Remove(c, w, listing[0]) == if Findable(w, layout, listing, segNo, 0) then Done(w1) else Failed(w))
  {
    hide EncodeFile, Flat, Remove, GoodLayout, Before;
    var s := listing[0];
    assert listing[..1] == [s] && listing[..0] == [];
    ReclaimedOne(w, layout, s, segNo);
    assert w.segs - Reclaimed(w, layout, listing[..0], segNo) == w.segs;
    assert w.segs - {} == w.segs;
    if s < segNo {
      RemoveIsExact(cfg, c, w, layout, s);
      DropKeepsShape(cfg, c, w, layout, s);
    }
  }

  /** When the snapshot covers the whole log, a cleanup without an error leaves no listed older file. */
  lemma NoneLeft(cfg: Config, c: Codec, w: Wal, layout: seq<seq<WalEntry>>, listing: seq<nat>, segNo: nat, w': Wal)
    requires Shape(cfg, c, w, layout) && segNo <= w.lastSeg && |Flat(layout)| <= w.lastSnapshot
    requires CleanedUp(w, layout, listing, segNo, Done(w'))
    ensures w'.segs.Keys == w.segs.Keys - set s | s in listing && s < segNo
  {
    hide Flat, EncodeFile, GoodLayout, Findable;
    forall s | s in listing && s < segNo ensures s in Reclaimed(w, layout, listing, segNo) {
      FlatSplit(layout, s);
    }
  }

  class WAL {
    const cfg: Config
    const codec: Codec
    // The log directory: segment files by number.
    var segs: map<nat, seq<byte>>
    var lastSegmentNo: nat
    var curSegmentSize: nat
    var lastSequenceNo: nat
    var lastSnapshot: nat
    // The buffered writer over the current segment.
    var writer: seq<byte>
    // How many flushDone channels have been closed.
    var generation: nat

    ghost function State(): (w: Wal)
      reads this
    {
      Wal(segs, lastSegmentNo, curSegmentSize, lastSequenceNo, lastSnapshot, writer, generation)
    }

    constructor (cfg: Config, codec: Codec, segs: map<nat, seq<byte>>, segNo: nat, size: nat, seqNo: nat)
      ensures this.cfg == cfg && this.codec == codec
      ensures State() == Wal(segs, segNo, size, seqNo, 0, [], 0)
    {
      this.cfg, this.codec, this.segs := cfg, codec, segs;
      lastSegmentNo, curSegmentSize, lastSequenceNo := segNo, size, seqNo;
      lastSnapshot, writer, generation := 0, [], 0;
    }

    static method FindLastSegmentNumber(segs: map<nat, seq<byte>>) returns (last: nat)
      ensures if segs == map[] then last == 0 else IsMax(segs.Keys, last)
    {
      last := 0;
      var files := segs.Keys;
      while files != {}
        invariant files <= segs.Keys
        invariant forall k :: k in segs && k !in files ==> k <= last
        invariant last in segs || (last == 0 && files == segs.Keys)
        decreases |files|
      {
        var k :| k in files;
        last := if k > last then k else last;
        files := files - {k};
      }
      if segs != map[] {
        assert segs.Keys != {};
      }
    }

    static method FindLastSequenceNumber(c: Codec, segs: map<nat, seq<byte>>, s: nat) returns (r: Result<nat>)
      requires s in segs
      ensures r == LastNumber(c, segs, s)
      decreases s
    {
      var last := FindLastRecord(c, segs[s]);
      match last {
        case Bad => r := Err;
        case Found(e) => r := Ok(e.seqNo);
        case Empty =>
          if s == 1 {
            r := Ok(0);
          } else if s == 0 || s - 1 !in segs {
            r := Err;
          } else {
            r := FindLastSequenceNumber(c, segs, s - 1);
          }
      }
    }

    /** InitWAL over a directory. An empty one gets its first file, number 1, if the limit allows any. */
    static method InitWAL(cfg: Config, c: Codec, disk: map<nat, seq<byte>>) returns (r: Result<WAL>)
      ensures disk == map[] ==> (r.Ok? <==> cfg.maxSegs > 0)
      ensures disk == map[] && r.Ok? ==> r.value.State() == Wal(map[1 := []], 1, 0, 0, 0, [], 0)
      ensures r.Ok? <==> InitWal(cfg, c, disk).Ok?
      ensures r.Ok? ==> fresh(r.value) && r.value.cfg == cfg && r.value.codec == c
      ensures r.Ok? ==> r.value.State() == InitWal(cfg, c, disk).value
    {
      if disk == map[] {
        if cfg.maxSegs == 0 {
          return Err;
        }
        var w := new WAL(cfg, c, map[1 := []], 1, 0, 0);
        return Ok(w);
      }
      var last := FindLastSegmentNumber(disk);
      assert disk.Keys != {} && last == MaxKey(disk.Keys);
      var no := FindLastSequenceNumber(c, disk, last);
      if no.Err? {
        return Err;
      }
      var w := new WAL(cfg, c, disk, last, |disk[last]|, no.value);
      r := Ok(w);
    }

    method ReadAllEntries() returns (r: Result<seq<WalEntry>>)
      ensures r == ReadAll(codec, segs, lastSegmentNo, lastSequenceNo)
    {
      hide ReadFile;
      var count := |segs|;
      if count == 0 {
        return Err;
      }
      var startNo := (lastSegmentNo - count + 1) % TWO_TO_64;
      var entries: seq<WalEntry> := [];
      var i := 0;
      while i < count
        invariant 0 <= i <= count
        invariant ReadFrom(codec, segs, startNo, i, lastSequenceNo) == Ok(entries)
      {
        if startNo + i !in segs {
          ReadFromFails(codec, segs, startNo, i + 1, count, lastSequenceNo);
          return Err;
        }
        var part := ReadAllEntriesFromFile(codec, segs[startNo + i], lastSequenceNo);
        if part.None? {
          ReadFromFails(codec, segs, startNo, i + 1, count, lastSequenceNo);
          return Err;
        }
        entries := entries + part.value;
        i := i + 1;
      }
      r := Ok(entries);
    }

    method Flush()
      modifies this
      ensures State() == WalLog.Flush(old(State()))
    {
      if lastSegmentNo in segs {
        segs := segs[lastSegmentNo := segs[lastSegmentNo] + writer];
      }
      writer := [];
      generation := generation + 1;
    }

    method RemoveLogFile(segNo: nat) returns (ok: bool)
      modifies this
      ensures ok <==> Remove(codec, old(State()), segNo).Done?
      ensures State() == Remove(codec, old(State()), segNo).wal
    {
      if segNo !in segs {
        return false;
      }
      var no := FindLastSequenceNumber(codec, segs, segNo);
      if no.Err? {
        return false;
      }
      if no.value > lastSnapshot {
        return true;
      }
      segs := segs - {segNo};
      ok := true;
    }

    method AddNewLogFile() returns (ok: bool)
      modifies this
      ensures ok <==> WalLog.AddNewLogFile(cfg, codec, old(State())).Done?
      ensures State() == WalLog.AddNewLogFile(cfg, codec, old(State())).wal
    {
      hide LastNumber, Remove, OpenNext;
      if |segs| >= cfg.maxSegs {
        ok := RemoveLogFile((lastSegmentNo - cfg.maxSegs + 1) % TWO_TO_64);
        if !ok {
          return;
        }
      }
      ghost var w := State();
      CreateFirst(w);
      var previous := lastSegmentNo;
      lastSegmentNo := lastSegmentNo + 1;
      segs := segs[lastSegmentNo := []];
      curSegmentSize := 0;
      // The writer still belongs to the previous file.
      if previous in segs {
        segs := segs[previous := segs[previous] + writer];
      }
      generation := generation + 1;
      writer := [];
      ok := true;
    }

    /** The part of AppendEntry under the mutex. */
    method AppendEntryLocked(data: seq<byte>, isDelete: bool) returns (ok: bool)
      modifies this
      ensures ok <==> WalLog.AppendEntry(cfg, codec, old(State()), data, isDelete).Done?
      ensures State() == WalLog.AppendEntry(cfg, codec, old(State()), data, isDelete).wal
    {
      hide WalLog.AddNewLogFile;
      var segSize := curSegmentSize;
      ghost var w := State();
      if segSize >= cfg.maxSize {
        ok := AddNewLogFile();
        RotationKeepsNumber(cfg, codec, w);
        if !ok {
          return;
        }
      }
      lastSequenceNo := lastSequenceNo + 1;
      var entry := MakeEntry(codec, lastSequenceNo, data, isDelete);
      var body := codec.encEntry(entry);
      if segSize + |body| + 4 >= cfg.maxSize {
        ok := AddNewLogFile();
        if !ok {
          return;
        }
      }
      writer := writer + Frame(body);
      curSegmentSize := curSegmentSize + |body| + 4;
      ok := true;
    }

    /** Append and wait: in a sequential reading, the flush the appender waits for follows at once. */
    method AppendEntry(data: seq<byte>, isDelete: bool) returns (ok: bool)
      modifies this
      ensures ok <==> WalLog.AppendEntry(cfg, codec, old(State()), data, isDelete).Done?
      ensures State() == var r := WalLog.AppendEntry(cfg, codec, old(State()), data, isDelete);
                         if r.Done? then WalLog.Flush(r.wal) else r.wal
    {
      ok := AppendEntryLocked(data, isDelete);
      if ok {
        Flush();
      }
    }

    method PerformCleanup(listing: seq<nat>, segNo: nat) returns (ok: bool)
      modifies this
      ensures ok <==> Cleanup(codec, old(State()), listing, segNo).Done?
      ensures State() == Cleanup(codec, old(State()), listing, segNo).wal
      ensures Lossless(codec) && segNo <= old(lastSegmentNo) ==>
                forall layout :: Shape(cfg, codec, old(State()), layout) ==>
                                   CleanedUp(old(State()), layout, listing, segNo,
                                             if ok then Done(State()) else Failed(State()))
    {
      if Lossless(codec) && segNo <= lastSegmentNo {
        forall layout | Shape(cfg, codec, State(), layout)
          ensures CleanedUp(State(), layout, listing, segNo, Cleanup(codec, State(), listing, segNo))
        {
          CleanupIsExact(cfg, codec, State(), layout, listing, segNo);
        }
      }
      hide Shape, CleanedUp, Remove;
      var i := 0;
      while i < |listing|
        invariant 0 <= i <= |listing|
        invariant Cleanup(codec, old(State()), listing, segNo) == Cleanup(codec, State(), listing[i..], segNo)
      {
        assert listing[i..][0] == listing[i] && listing[i..][1..] == listing[i + 1..];
        if listing[i] < segNo {
          ok := RemoveLogFile(listing[i]);
          if !ok {
            return;
          }
        }
        i := i + 1;
      }
      ok := true;
    }
  }

  /** The new file is created before the old buffer is flushed; the order does not show. */
  lemma CreateFirst(w: Wal)
    ensures var created := w.segs[w.lastSeg + 1 := []];
            var segs := if w.lastSeg in created then created[w.lastSeg := created[w.lastSeg] + w.buf] else created;
            OpenNext(w) == Wal(segs, w.lastSeg + 1, 0, w.lastSeq, w.lastSnapshot, [], w.gen + 1)
  {
    if w.lastSeg in w.segs {
      var x := w.segs[w.lastSeg] + w.buf;
      assert w.segs[w.lastSeg := x][w.lastSeg + 1 := []] == w.segs[w.lastSeg + 1 := []][w.lastSeg := x];
    }
  }

  lemma RotationKeepsNumber(cfg: Config, c: Codec, w: Wal)
    ensures WalLog.AddNewLogFile(cfg, c, w).wal.lastSeq == w.lastSeq
  {
    hide LastNumber;
  }

  lemma {:induction false} ReadFromFails(c: Codec, segs: map<nat, seq<byte>>, start: nat, n: nat, count: nat, stop: nat)
    requires n <= count && ReadFrom(c, segs, start, n, stop).Err?
    ensures ReadFrom(c, segs, start, count, stop).Err?
    decreases count
  {
    if n < count {
      ReadFromFails(c, segs, start, n, count - 1, stop);
    }
  }
}
