/** The write-ahead log as values: what each operation of the manager makes of the log directory
    and of its own fields. The class in WalManager is proved against these functions. */
module WalLog {
  import opened Results
  import opened Bytes
  import opened Frames
  import opened WalCodec
  import opened Layout

  /** maxSize bounds a segment in bytes, maxSegs the number of segment files. */
  datatype Config = Config(maxSize: nat, maxSegs: nat)

  /** The segment files by number, then the manager's fields. buf holds what the writer has not yet
      handed to the last segment file; gen counts the flushDone channels closed so far. */
  datatype Wal = Wal(segs: map<nat, seq<byte>>, lastSeg: nat, curSize: nat, lastSeq: nat,
                     lastSnapshot: nat, buf: seq<byte>, gen: nat)

  datatype Outcome = Done(wal: Wal) | Failed(wal: Wal)

  // ---- Reading ----

  datatype Scan = Empty | Bad | Found(entry: WalEntry)

  /** What the tail scan of a file means, said with full parsing. */
  function TailScan(c: Codec, f: seq<byte>): (r: Scan) {
    match Parse(f)
    case None => Bad
    case Some(bodies) =>
      if bodies == [] then Empty
      else
        match Unmarshal(c, bodies[|bodies| - 1])
        case None => Bad
        case Some(e) => Found(e)
  }

  /** The newest number in segment s, or in the closest earlier segment if s is empty. */
  function LastNumber(c: Codec, segs: map<nat, seq<byte>>, s: nat): (r: Result<nat>)
    requires s in segs
  {
    match TailScan(c, segs[s])
    case Bad => Err
    case Found(e) => Ok(e.seqNo)
    case Empty =>
      if s == 1 then Ok(0)
      else if s == 0 || s - 1 !in segs then Err
      else LastNumber(c, segs, s - 1)
  }

  function ReadFile(c: Codec, f: seq<byte>, stop: nat): (r: Option<seq<WalEntry>>)
    decreases |f|
  {
    match ReadFrame(f)
    case End => Some([])
    case Broken => None
    case Got(body, rest) =>
      match Unmarshal(c, body)
      case None => None
      case Some(e) =>
        if e.seqNo == stop then Some([e])
        else
          match ReadFile(c, rest, stop)
          case None => None
          case Some(es) => Some([e] + es)
  }

  function ReadFrom(c: Codec, segs: map<nat, seq<byte>>, start: nat, count: nat,
                    stop: nat): (r: Result<seq<WalEntry>>) {
    if count == 0 then Ok([])
    else
      match ReadFrom(c, segs, start, count - 1, stop)
      case Err => Err
      case Ok(es) =>
        if start + count - 1 !in segs then Err
        else
          match ReadFile(c, segs[start + count - 1], stop)
          case None => Err
          case Some(more) => Ok(es + more)
  }

  /** The start-up scan: as many files as there are, ending at the last; the start is unsigned. */
  function ReadAll(c: Codec, segs: map<nat, seq<byte>>, lastSeg: nat, stop: nat): (r: Result<seq<WalEntry>>) {
    if |segs| == 0 then Err
    else ReadFrom(c, segs, (lastSeg - |segs| + 1) % TWO_TO_64, |segs|, stop)
  }

  // ---- Writing ----

  function Remove(c: Codec, w: Wal, s: nat): (r: Outcome) {
    if s !in w.segs then Failed(w)
    else
      match LastNumber(c, w.segs, s)
      case Err => Failed(w)
      case Ok(no) => if no > w.lastSnapshot then Done(w) else Done(w.(segs := w.segs - {s}))
  }

  /** The writer's bytes reach the file they were meant for, if that file is still there. */
  function Drain(w: Wal): (segs: map<nat, seq<byte>>) {
    if w.lastSeg in w.segs then w.segs[w.lastSeg := w.segs[w.lastSeg] + w.buf] else w.segs
  }

  function Flush(w: Wal): (r: Wal) {
    w.(segs := Drain(w), buf := [], gen := w.gen + 1)
  }

  function OpenNext(w: Wal): (r: Wal) {
    w.(segs := Drain(w)[w.lastSeg + 1 := []], lastSeg := w.lastSeg + 1, curSize := 0, buf := [], gen := w.gen + 1)
  }

  /** The segment a rotation tries to remove; the subtraction is unsigned. */
  function Oldest(cfg: Config, w: Wal): (s: nat) {
    (w.lastSeg - cfg.maxSegs + 1) % TWO_TO_64
  }

  function AddNewLogFile(cfg: Config, c: Codec, w: Wal): (r: Outcome) {
    if |w.segs| < cfg.maxSegs then Done(OpenNext(w))
    else
      match Remove(c, w, Oldest(cfg, w))
      case Failed(w1) => Failed(w1)
      case Done(w1) => Done(OpenNext(w1))
  }

  function Write(w: Wal, body: seq<byte>): (r: Wal) {
    w.(buf := w.buf + Frame(body), curSize := w.curSize + |body| + 4)
  }

  function RotateIf(full: bool, cfg: Config, c: Codec, w: Wal): (r: Outcome) {
    if full then AddNewLogFile(cfg, c, w) else Done(w)
  }

  /** The rotations before an entry of the given length, and its number. The second size check still
      uses the size read before the first rotation. */
  function Reserve(cfg: Config, c: Codec, w: Wal, length: nat): (r: Outcome) {
    match RotateIf(w.curSize >= cfg.maxSize, cfg, c, w)
    case Failed(w1) => Failed(w1)
    case Done(w1) => RotateIf(w.curSize + length + 4 >= cfg.maxSize, cfg, c, w1.(lastSeq := w1.lastSeq + 1))
  }

  function AppendEntry(cfg: Config, c: Codec, w: Wal, data: seq<byte>, isDelete: bool): (r: Outcome) {
    var body := c.encEntry(MakeEntry(c, w.lastSeq + 1, data, isDelete));
    match Reserve(cfg, c, w, |body|)
    case Failed(w1) => Failed(w1)
    case Done(w1) => Done(Write(w1, body))
  }

  // ---- The shape every log keeps ----

  /** Well-made entries, numbered from 1 without a gap; no segment grows past the size limit
      unless a single entry does. */
  ghost predicate GoodLayout(cfg: Config, c: Codec, layout: seq<seq<WalEntry>>) {
    && (forall s :: 0 <= s < |layout| ==> AllGood(c, layout[s]))
    && AllGood(c, Flat(layout))
    && Numbered(Flat(layout))
    && (forall s :: 0 <= s < |layout| ==> |layout[s]| <= 1 || |EncodeFile(c, layout[s])| < cfg.maxSize)
  }

  /** Each segment file but the last decodes to its part of the layout; the last one does together
      with the writer's buffer. No entry is split across files and the tracked size is exact. */
  ghost predicate GoodFiles(c: Codec, w: Wal, layout: seq<seq<WalEntry>>) {
    && 1 <= w.lastSeg == |layout|
    && w.lastSeg in w.segs
    && (forall s :: s in w.segs ==> 1 <= s <= w.lastSeg)
    && (forall s :: s in w.segs && s < w.lastSeg ==> w.segs[s] == EncodeFile(c, layout[s - 1]))
    && w.segs[w.lastSeg] + w.buf == EncodeFile(c, layout[w.lastSeg - 1])
    && w.curSize == |w.segs[w.lastSeg]| + |w.buf|
  }

  ghost predicate Shape(cfg: Config, c: Codec, w: Wal, layout: seq<seq<WalEntry>>) {
    GoodLayout(cfg, c, layout) && GoodFiles(c, w, layout)
  }

  /** What is on disk whole: every earlier segment's entries and the whole frames of the last file. */
  function Survived(w: Wal, layout: seq<seq<WalEntry>>): (es: seq<WalEntry>)
    requires 1 <= w.lastSeg == |layout| && w.lastSeg in w.segs
  {
    var n := Before(layout, w.lastSeg - 1) + Whole(w.segs[w.lastSeg]);
    if n <= |Flat(layout)| then Flat(layout)[..n] else Flat(layout)
  }

  /** The last file holds as many whole entries as were handed to it. */
  lemma LastFileCount(c: Codec, f: seq<byte>, buf: seq<byte>, es: seq<WalEntry>)
    requires Lossless(c) && AllGood(c, es) && f + buf == EncodeFile(c, es)
    ensures Whole(f) <= |es| && (buf == [] ==> Whole(f) == |es|)
  {
    hide EncodeFile, Whole, Parse, Good;
    assert f <= f + buf;
    DecodeCut(c, f, es);
    DecodeEncode(c, es);
    assert buf == [] ==> f + buf == f;
  }

  lemma SurvivedCount(cfg: Config, c: Codec, w: Wal, layout: seq<seq<WalEntry>>)
    requires Lossless(c) && Shape(cfg, c, w, layout)
    ensures |Survived(w, layout)| == Before(layout, w.lastSeg - 1) + Whole(w.segs[w.lastSeg])
    ensures Survived(w, layout) <= Flat(layout)
    ensures w.buf == [] ==> Survived(w, layout) == Flat(layout)
  {
    hide EncodeFile, Flat, Whole, Good;
    LastFileCount(c, w.segs[w.lastSeg], w.buf, layout[w.lastSeg - 1]);
    BeforeStep(layout, w.lastSeg);
    assert layout[..w.lastSeg] == layout;
  }

  // ---- Steps ----

  lemma EmptySegmentKeepsLayout(cfg: Config, c: Codec, layout: seq<seq<WalEntry>>)
    requires GoodLayout(cfg, c, layout)
    ensures GoodLayout(cfg, c, layout + [[]]) && Flat(layout + [[]]) == Flat(layout)
  {
    FlatEmptySegment(layout);
    hide Flat, EncodeFile, Good;
  }

  lemma OpenNextKeepsFiles(c: Codec, w: Wal, layout: seq<seq<WalEntry>>)
    requires GoodFiles(c, w, layout)
    ensures GoodFiles(c, OpenNext(w), layout + [[]])
  {
    var w', layout' := OpenNext(w), layout + [[]];
    EncodeEmpty(c, []);
    hide EncodeFile;
    assert layout'[w'.lastSeg - 1] == [];
    assert w'.segs[w'.lastSeg] + w'.buf == [];
    forall s | s in w'.segs && s < w'.lastSeg ensures w'.segs[s] == EncodeFile(c, layout'[s - 1]) {
      assert layout'[s - 1] == layout[s - 1];
    }
  }

  /** Opening the next file moves the whole buffer into the file it was meant for. */
  lemma OpenNextKeepsShape(cfg: Config, c: Codec, w: Wal, layout: seq<seq<WalEntry>>)
    requires Lossless(c) && Shape(cfg, c, w, layout)
    ensures Shape(cfg, c, OpenNext(w), layout + [[]])
    ensures Survived(OpenNext(w), layout + [[]]) == Flat(layout)
  {
    EmptySegmentKeepsLayout(cfg, c, layout);
    OpenNextKeepsFiles(c, w, layout);
    hide Flat, EncodeFile, GoodLayout, GoodFiles, Survived;
    SurvivedCount(cfg, c, OpenNext(w), layout + [[]]);
  }

  lemma DropKeepsShape(cfg: Config, c: Codec, w: Wal, layout: seq<seq<WalEntry>>, s: nat)
    requires Shape(cfg, c, w, layout) && s != w.lastSeg
    ensures Shape(cfg, c, w.(segs := w.segs - {s}), layout)
    ensures Survived(w.(segs := w.segs - {s}), layout) == Survived(w, layout)
  {
  }

  lemma FlushKeepsShape(cfg: Config, c: Codec, w: Wal, layout: seq<seq<WalEntry>>)
    requires Lossless(c) && Shape(cfg, c, w, layout)
    ensures Shape(cfg, c, Flush(w), layout)
    ensures Survived(Flush(w), layout) == Flat(layout)
  {
    var w' := Flush(w);
    assert w'.segs[w'.lastSeg] + w'.buf == w.segs[w.lastSeg] + w.buf;
    SurvivedCount(cfg, c, w', layout);
  }

  /** The writer may hand over any part of its buffer early, since it holds only so much. */
  function Spill(w: Wal, k: nat): (r: Wal)
    requires w.lastSeg in w.segs && k <= |w.buf|
  {
    w.(segs := w.segs[w.lastSeg := w.segs[w.lastSeg] + w.buf[..k]], buf := w.buf[k..])
  }

  lemma SpillKeepsShape(cfg: Config, c: Codec, w: Wal, layout: seq<seq<WalEntry>>, k: nat)
    requires Lossless(c) && Shape(cfg, c, w, layout) && k <= |w.buf|
    ensures Shape(cfg, c, Spill(w, k), layout)
    ensures Survived(w, layout) <= Survived(Spill(w, k), layout)
  {
    var w' := Spill(w, k);
    hide GoodLayout, EncodeFile, Flat, Whole, Survived;
    assert w.buf[..k] + w.buf[k..] == w.buf;
    assert w'.segs[w'.lastSeg] + w'.buf == w.segs[w.lastSeg] + w.buf;
    assert GoodFiles(c, w', layout);
    hide GoodFiles;
    SpilledSurvivors(cfg, c, w, layout, k);
  }

  lemma SpilledSurvivors(cfg: Config, c: Codec, w: Wal, layout: seq<seq<WalEntry>>, k: nat)
    requires Lossless(c) && Shape(cfg, c, w, layout) && k <= |w.buf| && Shape(cfg, c, Spill(w, k), layout)
    ensures Survived(w, layout) <= Survived(Spill(w, k), layout)
  {
    var w' := Spill(w, k);
    hide GoodLayout, EncodeFile, Flat, Whole;
    SurvivedCount(cfg, c, w, layout);
    SurvivedCount(cfg, c, w', layout);
    WholeMonotone(w.segs[w.lastSeg], w'.segs[w'.lastSeg]);
    hide Survived;
  }

  lemma PushKeepsLayout(cfg: Config, c: Codec, layout: seq<seq<WalEntry>>, e: WalEntry)
    requires layout != [] && GoodLayout(cfg, c, layout)
    requires Good(c, e) && e.seqNo == |Flat(layout)| + 1
    requires var last := layout[|layout| - 1];
             last == [] || |EncodeFile(c, last + [e])| < cfg.maxSize
    ensures GoodLayout(cfg, c, Push(layout, e))
  {
    FlatPush(layout, e);
    forall s | 0 <= s < |layout|
      ensures AllGood(c, Push(layout, e)[s])
      ensures |Push(layout, e)[s]| <= 1 || |EncodeFile(c, Push(layout, e)[s])| < cfg.maxSize
    {
      assert s < |layout| - 1 ==> Push(layout, e)[s] == layout[s];
    }
  }

  lemma WriteKeepsFiles(c: Codec, w: Wal, layout: seq<seq<WalEntry>>, e: WalEntry)
    requires GoodFiles(c, w, layout)
    ensures GoodFiles(c, Write(w, c.encEntry(e)), Push(layout, e))
    ensures EncodeFile(c, layout[w.lastSeg - 1] + [e]) == EncodeFile(c, layout[w.lastSeg - 1]) + Frame(c.encEntry(e))
  {
    var w', layout' := Write(w, c.encEntry(e)), Push(layout, e);
    EncodeSnoc(c, layout[w.lastSeg - 1], e);
    assert w'.segs[w'.lastSeg] + w'.buf == (w.segs[w.lastSeg] + w.buf) + Frame(c.encEntry(e));
    forall s | s in w'.segs && s < w'.lastSeg ensures w'.segs[s] == EncodeFile(c, layout'[s - 1]) {
      assert layout'[s - 1] == layout[s - 1];
    }
  }

  lemma WriteKeepsShape(cfg: Config, c: Codec, w: Wal, layout: seq<seq<WalEntry>>, e: WalEntry)
    requires Lossless(c) && Shape(cfg, c, w, layout)
    requires Good(c, e) && e.seqNo == |Flat(layout)| + 1
    requires layout[w.lastSeg - 1] == [] || w.curSize + |c.encEntry(e)| + 4 < cfg.maxSize
    ensures Shape(cfg, c, Write(w, c.encEntry(e)), Push(layout, e))
  {
    WriteKeepsFiles(c, w, layout, e);
    PushKeepsLayout(cfg, c, layout, e);
  }

  /** An entry in the buffer survives nothing yet; what survived before it still does. */
  lemma WriteKeepsSurvivors(cfg: Config, c: Codec, w: Wal, w': Wal, layout: seq<seq<WalEntry>>, e: WalEntry)
    requires Lossless(c) && Shape(cfg, c, w, layout) && Shape(cfg, c, w', Push(layout, e))
    requires w'.segs == w.segs
    ensures Flat(Push(layout, e)) == Flat(layout) + [e]
    ensures Survived(w', Push(layout, e)) == Survived(w, layout)
  {
    FlatPush(layout, e);
    SurvivedCount(cfg, c, w, layout);
    SurvivedCount(cfg, c, w', Push(layout, e));
    assert Push(layout, e)[..w.lastSeg - 1] == layout[..w.lastSeg - 1];
  }

  // ---- The newest number at or before a segment ----

  /** The segment files up to s are whole. */
  ghost predicate WholeFiles(c: Codec, segs: map<nat, seq<byte>>, layout: seq<seq<WalEntry>>, s: nat)
    requires s <= |layout|
  {
    forall t :: t in segs && t <= s ==> 1 <= t && segs[t] == EncodeFile(c, layout[t - 1]) && AllGood(c, layout[t - 1])
  }

  /** Segments t to s exist, and the walk back from s can end at t. */
  predicate WalkEnds(segs: map<nat, seq<byte>>, layout: seq<seq<WalEntry>>, s: nat, t: nat)
    requires 1 <= t <= s <= |layout|
  {
    (forall u :: t <= u <= s ==> u in segs) && (t == 1 || layout[t - 1] != [])
  }

  lemma TailScanWhole(c: Codec, es: seq<WalEntry>)
    requires Lossless(c) && AllGood(c, es)
    ensures TailScan(c, EncodeFile(c, es)) == if es == [] then Empty else Found(es[|es| - 1])
  {
    DecodeEncode(c, es);
  }

  /** The walk back over empty segments yields the newest number at or before s; it succeeds exactly
      when every predecessor it needs still exists. */
  lemma {:induction false} LastNumberIsNewest(c: Codec, segs: map<nat, seq<byte>>, layout: seq<seq<WalEntry>>, s: nat)
    requires Lossless(c) && 1 <= s <= |layout| && s in segs
    requires WholeFiles(c, segs, layout, s) && Numbered(Flat(layout))
    ensures LastNumber(c, segs, s).Ok? ==> LastNumber(c, segs, s).value == Before(layout, s)
    ensures LastNumber(c, segs, s).Ok? <==> exists t :: 1 <= t <= s && WalkEnds(segs, layout, s, t)
  {
    TailScanWhole(c, layout[s - 1]);
    BeforeStep(layout, s);
    hide EncodeFile, TailScan, Flat, Good;
    if layout[s - 1] != [] {
      SegmentNumbers(layout, s - 1);
      assert WalkEnds(segs, layout, s, s);
    } else if s == 1 {
      assert WalkEnds(segs, layout, s, s);
    } else if s - 1 in segs {
      LastNumberIsNewest(c, segs, layout, s - 1);
      WalkGoesOn(segs, layout, s, s - 1);
    }
  }

  /** The walk back from an empty segment is the walk back from its predecessor. */
  lemma WalkGoesOn(segs: map<nat, seq<byte>>, layout: seq<seq<WalEntry>>, s: nat, r: nat)
    requires 1 <= r == s - 1 < |layout| && s in segs && layout[s - 1] == []
    ensures (exists t :: 1 <= t <= s && WalkEnds(segs, layout, s, t)) <==>
            exists t :: 1 <= t <= r && WalkEnds(segs, layout, r, t)
  {
    if t :| 1 <= t <= r && WalkEnds(segs, layout, r, t) {
      assert WalkEnds(segs, layout, s, t);
    }
    if t :| 1 <= t <= s && WalkEnds(segs, layout, s, t) {
      assert WalkEnds(segs, layout, r, t);
    }
  }

  // ---- Reclaiming ----

  /** Removing a full segment leaves the rest of the log alone, and loses no entry above `no`. */
  lemma RemoveIsSafe(cfg: Config, c: Codec, w: Wal, layout: seq<seq<WalEntry>>, s: nat, no: nat)
    requires Lossless(c) && Shape(cfg, c, w, layout) && Covered(w.segs.Keys, layout, no) && w.lastSnapshot <= no
    requires s != w.lastSeg && Remove(c, w, s).Done?
    ensures var w' := Remove(c, w, s).wal;
            w'.(segs := w.segs) == w && Shape(cfg, c, w', layout) && Covered(w'.segs.Keys, layout, no) &&
            Survived(w', layout) == Survived(w, layout)
  {
    assert WholeFiles(c, w.segs, layout, s);
    LastNumberIsNewest(c, w.segs, layout, s);
    DropKeepsShape(cfg, c, w, layout, s);
  }

  lemma {:induction false} SmallKeys(keys: set<nat>, n: nat)
    requires forall k :: k in keys ==> 1 <= k <= n
    ensures |keys| <= n
    decreases n
  {
    if n == 0 {
      assert keys == {};
    } else {
      SmallKeys(keys - {n}, n - 1);
    }
  }

  /** With room for two segments, rotation never aims at the current file and never underflows. */
  lemma OldestIsOlder(cfg: Config, c: Codec, w: Wal, layout: seq<seq<WalEntry>>)
    requires Shape(cfg, c, w, layout) && cfg.maxSegs >= 2 && w.lastSeg < TWO_TO_64 && |w.segs| >= cfg.maxSegs
    ensures 1 <= Oldest(cfg, w) == w.lastSeg - cfg.maxSegs + 1 < w.lastSeg
  {
    SmallKeys(w.segs.Keys, w.lastSeg);
    assert |w.segs| == |w.segs.Keys|;
  }

  /** From w, zero or more rotations led to w': as many empty segments more, everything older on disk
      if there was one, and nothing above the published number removed. */
  ghost predicate Rotated(cfg: Config, c: Codec, w: Wal, layout: seq<seq<WalEntry>>, w': Wal,
                          layout': seq<seq<WalEntry>>, no: nat) {
    && Shape(cfg, c, w, layout) && Shape(cfg, c, w', layout')
    && w.lastSeg <= w'.lastSeg && layout' == Pad(layout, w'.lastSeg)
    && Flat(layout') == Flat(layout)
    && Survived(w, layout) <= Survived(w', layout')
    && w'.lastSnapshot == w.lastSnapshot
    && w.gen <= w'.gen && (w.gen < w'.gen ==> Survived(w', layout') == Flat(layout))
    && Covered(w'.segs.Keys, layout', no)
  }

  lemma OpenNextRotates(cfg: Config, c: Codec, w: Wal, layout: seq<seq<WalEntry>>, no: nat)
    requires Lossless(c) && Shape(cfg, c, w, layout) && Covered(w.segs.Keys, layout, no)
    ensures Rotated(cfg, c, w, layout, OpenNext(w), layout + [[]], no)
  {
    hide Shape, Survived, Flat, Covered, OpenNext, Pad;
    OpenNextParts(cfg, c, w, layout);
    OpenNextKeepsShape(cfg, c, w, layout);
    FlatEmptySegment(layout);
    CoveredGrows(w.segs.Keys, layout, OpenNext(w).segs.Keys, layout + [[]], no);
  }

  lemma OpenNextParts(cfg: Config, c: Codec, w: Wal, layout: seq<seq<WalEntry>>)
    requires Lossless(c) && Shape(cfg, c, w, layout)
    ensures var w' := OpenNext(w);
            && w'.lastSeg == w.lastSeg + 1 == |layout| + 1 >= 2 && w'.lastSnapshot == w.lastSnapshot &&
                w'.gen == w.gen + 1
            && w.lastSeg in w.segs && w.segs.Keys <= w'.segs.Keys && w.lastSeg + 1 in w'.segs
            && Pad(layout, w'.lastSeg) == layout + [[]]
    ensures Survived(w, layout) <= Flat(layout)
  {
    hide GoodLayout, EncodeFile, Flat;
    SurvivedCount(cfg, c, w, layout);
  }

  lemma RotationIsSafe(cfg: Config, c: Codec, w: Wal, layout: seq<seq<WalEntry>>, no: nat)
    requires Lossless(c) && Shape(cfg, c, w, layout) && Covered(w.segs.Keys, layout, no) && w.lastSnapshot <= no
    requires cfg.maxSegs >= 2 && w.lastSeg < TWO_TO_64
    requires AddNewLogFile(cfg, c, w).Done?
    ensures var w' := AddNewLogFile(cfg, c, w).wal;
            && Rotated(cfg, c, w, layout, w', layout + [[]], no)
            && w'.lastSeg == w.lastSeg + 1 && w'.gen == w.gen + 1 && w'.lastSeq == w.lastSeq
  {
    var w1 := w;
    if |w.segs| >= cfg.maxSegs {
      OldestIsOlder(cfg, c, w, layout);
      RemoveIsSafe(cfg, c, w, layout, Oldest(cfg, w), no);
      w1 := Remove(c, w, Oldest(cfg, w)).wal;
    }
    OpenNextRotates(cfg, c, w1, layout, no);
  }

  lemma NotRotated(cfg: Config, c: Codec, w: Wal, layout: seq<seq<WalEntry>>, no: nat)
    requires Lossless(c) && Shape(cfg, c, w, layout) && Covered(w.segs.Keys, layout, no)
    ensures w.lastSeg == |layout| && Rotated(cfg, c, w, layout, w, Pad(layout, w.lastSeg), no)
  {
    assert Pad(layout, w.lastSeg) == layout;
  }

  lemma RotatedRenumbered(cfg: Config, c: Codec, w: Wal, layout: seq<seq<WalEntry>>, w1: Wal,
                          layout1: seq<seq<WalEntry>>, no: nat, seqNo: nat)
    requires Rotated(cfg, c, w, layout, w1, layout1, no)
    ensures Rotated(cfg, c, w, layout, w1.(lastSeq := seqNo), layout1, no)
  {
    RenumberedShape(cfg, c, w1, layout1, seqNo);
    hide Shape, Survived, Covered, Flat, Pad;
  }

  lemma RenumberedShape(cfg: Config, c: Codec, w: Wal, layout: seq<seq<WalEntry>>, seqNo: nat)
    requires Shape(cfg, c, w, layout)
    ensures Shape(cfg, c, w.(lastSeq := seqNo), layout)
    ensures Survived(w.(lastSeq := seqNo), layout) == Survived(w, layout)
  {
    hide GoodLayout, EncodeFile, Flat, Whole;
  }

  lemma RotatedTransitive(cfg: Config, c: Codec, w: Wal, layout: seq<seq<WalEntry>>, w1: Wal,
                          layout1: seq<seq<WalEntry>>,
                          w2: Wal, no: nat)
    requires Rotated(cfg, c, w, layout, w1, layout1, no) && Rotated(cfg, c, w1, layout1, w2, layout1 + [[]], no)
    requires w2.lastSeg == w1.lastSeg + 1
    ensures Rotated(cfg, c, w, layout, w2, Pad(layout, w2.lastSeg), no)
  {
    PadOneMore(layout, w1.lastSeg);
  }

  lemma RotateIfIsSafe(full: bool, cfg: Config, c: Codec, w: Wal, layout: seq<seq<WalEntry>>, w1: Wal, no: nat)
    requires Lossless(c) && cfg.maxSegs >= 2 && w1.lastSeg < TWO_TO_64 && w.lastSnapshot <= no
    requires |layout| <= w1.lastSeg && Rotated(cfg, c, w, layout, w1, Pad(layout, w1.lastSeg), no)
    requires RotateIf(full, cfg, c, w1).Done?
    ensures var w2 := RotateIf(full, cfg, c, w1).wal;
            && w2.lastSeg == (if full then w1.lastSeg + 1 else w1.lastSeg) && w2.lastSeq == w1.lastSeq
            && (!full ==> w2 == w1)
            && Rotated(cfg, c, w, layout, w2, Pad(layout, w2.lastSeg), no)
  {
    if full {
      RotationIsSafe(cfg, c, w1, Pad(layout, w1.lastSeg), no);
      RotatedTransitive(cfg, c, w, layout, w1, Pad(layout, w1.lastSeg), AddNewLogFile(cfg, c, w1).wal, no);
    }
  }

  // ---- Appending ----

  /** The log after a successful append: the layout gains the entry and the segments opened for it. */
  function Appended(c: Codec, w: Wal, w': Wal, layout: seq<seq<WalEntry>>, data: seq<byte>,
                    isDelete: bool): (r: seq<seq<WalEntry>>)
  {
    Push(Pad(layout, w'.lastSeg), MakeEntry(c, w.lastSeq + 1, data, isDelete))
  }

  lemma ReserveIsSafe(cfg: Config, c: Codec, w: Wal, layout: seq<seq<WalEntry>>, length: nat, no: nat)
    requires Lossless(c) && Shape(cfg, c, w, layout) && Covered(w.segs.Keys, layout, no) && w.lastSnapshot <= no
    requires cfg.maxSegs >= 2 && w.lastSeg + 1 < TWO_TO_64
    requires Reserve(cfg, c, w, length).Done?
    ensures var w2 := Reserve(cfg, c, w, length).wal;
            && w.lastSeg <= w2.lastSeg <= w.lastSeg + 2 && w2.lastSeq == w.lastSeq + 1
            && Rotated(cfg, c, w, layout, w2, Pad(layout, w2.lastSeg), no)
            && (w2.lastSeg > w.lastSeg || (w2.curSize == w.curSize && w.curSize + length + 4 < cfg.maxSize))
  {
    hide Rotated, AddNewLogFile, Shape, Covered, Pad;
    NotRotated(cfg, c, w, layout, no);
    RotateIfIsSafe(w.curSize >= cfg.maxSize, cfg, c, w, layout, w, no);
    var w1 := RotateIf(w.curSize >= cfg.maxSize, cfg, c, w).wal;
    RotatedRenumbered(cfg, c, w, layout, w1, Pad(layout, w1.lastSeg), no, w1.lastSeq + 1);
    RotateIfIsSafe(w.curSize + length + 4 >= cfg.maxSize, cfg, c, w, layout, w1.(lastSeq := w1.lastSeq + 1), no);
  }

  /** Every way through append: the log holds exactly one entry more; what had survived still does,
      and everything older does if a rotation flushed; nothing above the published number is removed. */
  lemma AppendIsSafe(cfg: Config, c: Codec, w: Wal, layout: seq<seq<WalEntry>>, data: seq<byte>, isDelete: bool,
                     no: nat)
    requires Lossless(c) && Shape(cfg, c, w, layout) && Covered(w.segs.Keys, layout, no) && w.lastSnapshot <= no
    requires w.lastSeq == |Flat(layout)|
    requires cfg.maxSegs >= 2 && w.lastSeg + 1 < TWO_TO_64
    requires Good(c, MakeEntry(c, w.lastSeq + 1, data, isDelete))
    requires AppendEntry(cfg, c, w, data, isDelete).Done?
    ensures var w' := AppendEntry(cfg, c, w, data, isDelete).wal;
            w.lastSeg <= w'.lastSeg <= w.lastSeg + 2 && w'.lastSeq == w.lastSeq + 1
    ensures var w' := AppendEntry(cfg, c, w, data, isDelete).wal;
            var layout' := Appended(c, w, w', layout, data, isDelete);
            && Shape(cfg, c, w', layout') && Covered(w'.segs.Keys, layout', no)
            && Flat(layout') == Flat(layout) + [MakeEntry(c, w.lastSeq + 1, data, isDelete)]
            && Survived(w, layout) <= Survived(w', layout')
            && w'.lastSnapshot == w.lastSnapshot && w.gen <= w'.gen
            && (w.gen < w'.gen ==> Survived(w', layout') == Flat(layout))
  {
    hide AddNewLogFile, Covered, Pad, Push, Reserve, Shape, Survived;
    var e := MakeEntry(c, w.lastSeq + 1, data, isDelete);
    var w2 := Reserve(cfg, c, w, |c.encEntry(e)|).wal;
    ReserveIsSafe(cfg, c, w, layout, |c.encEntry(e)|, no);
    WriteInRoom(cfg, c, w, layout, w2, e, no);
  }

  lemma WriteInRoom(cfg: Config, c: Codec, w: Wal, layout: seq<seq<WalEntry>>, w2: Wal, e: WalEntry, no: nat)
    requires Lossless(c) && Shape(cfg, c, w, layout)
    requires w.lastSeg <= w2.lastSeg && Rotated(cfg, c, w, layout, w2, Pad(layout, w2.lastSeg), no)
    requires Good(c, e) && e.seqNo == |Flat(layout)| + 1
    requires w2.lastSeg > w.lastSeg || w2.curSize + |c.encEntry(e)| + 4 < cfg.maxSize
    ensures var w' := Write(w2, c.encEntry(e));
            var layout' := Push(Pad(layout, w'.lastSeg), e);
            && Shape(cfg, c, w', layout') && Covered(w'.segs.Keys, layout', no)
            && Flat(layout') == Flat(layout) + [e]
            && Survived(w', layout') == Survived(w2, Pad(layout, w2.lastSeg))
  {
    var w', layout2 := Write(w2, c.encEntry(e)), Pad(layout, w2.lastSeg);
    WriteKeepsShape(cfg, c, w2, layout2, e);
    WriteKeepsSurvivors(cfg, c, w2, w', layout2, e);
    CoveredPush(w2.segs.Keys, layout2, e, no);
  }
}
