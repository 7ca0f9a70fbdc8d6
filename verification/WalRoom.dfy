/** Log directories whose rotations succeed all through start-up: an older file holds an entry, so the
    walk back from any file that a rotation aims at can end. */
module WalRoom {
  import opened Bytes
  import opened Frames
  import opened History
  import opened WalCodec
  import opened Layout
  import opened WalLog
  import opened WalScan
  import opened LogReplay

  function Least(a: nat, b: nat): (m: nat) {
    if a < b then a else b
  }

  /** Visible in a directory: file t is not empty, no file from t on is missing, and the first file that
      a rotation can aim at is not older than t. */
  ghost predicate RoomAt(cfg: Config, segs: map<nat, seq<byte>>, t: nat) {
    && t in segs && 1 <= t && segs[t] != []
    && (forall u :: t <= u <= MaxKey(segs.Keys) ==> u in segs)
    && t + Least(|segs|, cfg.maxSegs) <= MaxKey(segs.Keys) + 1
  }

  ghost predicate HasRoom(cfg: Config, segs: map<nat, seq<byte>>) {
    exists t :: RoomAt(cfg, segs, t)
  }

  /** The same of a log whose entries are known. */
  ghost predicate Rooted(cfg: Config, w: Wal, layout: seq<seq<WalEntry>>, t: nat) {
    && 1 <= t <= w.lastSeg == |layout| && layout[t - 1] != []
    && (forall u :: t <= u <= w.lastSeg ==> u in w.segs)
    && t + Least(|w.segs|, cfg.maxSegs) <= w.lastSeg + 1
  }

  lemma RoomIsRooted(cfg: Config, c: Codec, w: Wal, layout: seq<seq<WalEntry>>, t: nat)
    requires Shape(cfg, c, w, layout) && w.buf == [] && RoomAt(cfg, w.segs, t)
    ensures Rooted(cfg, w, layout, t)
  {
    hide GoodLayout, EncodeFile, Flat;
    assert IsMax(w.segs.Keys, w.lastSeg);
    OnlyMax(w.segs.Keys, w.lastSeg);
    assert w.segs[w.lastSeg] + w.buf == w.segs[w.lastSeg];
    EncodeEmpty(c, layout[t - 1]);
  }

  lemma EnoughBefore(layout: seq<seq<WalEntry>>, t: nat, s: nat)
    requires 1 <= t <= s <= |layout| && layout[t - 1] != []
    ensures Before(layout, s) >= 1
  {
    hide Flat;
    FlatSplit(layout[..s], t);
    assert layout[..s][..t] == layout[..t];
    BeforeStep(layout, t);
  }

  /** Nothing was recorded since start-up, so a rotation removes nothing, and it succeeds. */
  lemma RootedKeepsAll(cfg: Config, c: Codec, w: Wal, layout: seq<seq<WalEntry>>, t: nat)
    requires Lossless(c) && Shape(cfg, c, w, layout) && cfg.maxSegs >= 2 && w.lastSeg < TWO_TO_64
    requires Rooted(cfg, w, layout, t) && w.lastSnapshot == 0 && |w.segs| >= cfg.maxSegs
    ensures Remove(c, w, Oldest(cfg, w)) == Done(w)
  {
    hide GoodLayout, EncodeFile, Flat, LastNumber;
    OldestIsOlder(cfg, c, w, layout);
    var s := Oldest(cfg, w);
    assert Numbered(Flat(layout)) && WholeFiles(c, w.segs, layout, s) by {
      OlderFilesWhole(cfg, c, w, layout, s);
    }
    LastNumberIsNewest(c, w.segs, layout, s);
    assert WalkEnds(w.segs, layout, s, t);
    EnoughBefore(layout, t, s);
  }

  lemma OlderFilesWhole(cfg: Config, c: Codec, w: Wal, layout: seq<seq<WalEntry>>, s: nat)
    requires Shape(cfg, c, w, layout) && s < w.lastSeg
    ensures Numbered(Flat(layout)) && WholeFiles(c, w.segs, layout, s)
  {
    hide EncodeFile, Flat, Good;
  }

  lemma OpenedRoot(cfg: Config, w: Wal, layout: seq<seq<WalEntry>>, t: nat)
    requires Rooted(cfg, w, layout, t)
    ensures Rooted(cfg, OpenNext(w), layout + [[]], t)
  {
    var w' := OpenNext(w);
    assert w'.segs.Keys <= w.segs.Keys + {w.lastSeg + 1};
    assert w.lastSeg in w.segs;
    assert w'.segs.Keys == w.segs.Keys + {w.lastSeg + 1};
    SmallSum(w.segs.Keys, {w.lastSeg + 1});
    assert |w'.segs| == |w'.segs.Keys| && |w.segs| == |w.segs.Keys|;
  }

  lemma SmallSum(a: set<nat>, b: set<nat>)
    ensures |a + b| <= |a| + |b|
  {
    assert a + b == a + (b - a);
    assert |b| == |b - a| + |b * a|;
  }

  lemma RootedRotates(cfg: Config, c: Codec, w: Wal, layout: seq<seq<WalEntry>>, t: nat)
    requires Lossless(c) && Shape(cfg, c, w, layout) && cfg.maxSegs >= 2 && w.lastSeg < TWO_TO_64
    requires Rooted(cfg, w, layout, t) && w.lastSnapshot == 0
    ensures AddNewLogFile(cfg, c, w) == Done(OpenNext(w))
    ensures Shape(cfg, c, OpenNext(w), layout + [[]]) && Rooted(cfg, OpenNext(w), layout + [[]], t)
  {
    hide Shape, Rooted, Remove, OpenNext;
    if |w.segs| >= cfg.maxSegs {
      RootedKeepsAll(cfg, c, w, layout, t);
    }
    OpenNextKeepsShape(cfg, c, w, layout);
    OpenedRoot(cfg, w, layout, t);
  }

  lemma SameRoot(cfg: Config, w: Wal, w': Wal, layout: seq<seq<WalEntry>>, layout': seq<seq<WalEntry>>, t: nat)
    requires Rooted(cfg, w, layout, t) && w'.lastSeg == w.lastSeg && w'.segs.Keys == w.segs.Keys
    requires |layout'| == |layout| && layout'[t - 1] != []
    ensures Rooted(cfg, w', layout', t)
  {
    assert |w'.segs| == |w'.segs.Keys| && |w.segs| == |w.segs.Keys|;
    assert forall u :: u in w.segs.Keys ==> u in w'.segs;
  }

  lemma OpenedFields(w: Wal)
    ensures OpenNext(w).lastSeg == w.lastSeg + 1 && OpenNext(w).lastSnapshot == w.lastSnapshot
    ensures OpenNext(w).lastSeq == w.lastSeq
  {
  }

  /** The rotations of one append. */
  lemma RootedReserves(cfg: Config, c: Codec, w: Wal, layout: seq<seq<WalEntry>>, length: nat, t: nat)
    requires Lossless(c) && Shape(cfg, c, w, layout) && cfg.maxSegs >= 2 && w.lastSeg + 2 < TWO_TO_64
    requires Rooted(cfg, w, layout, t) && w.lastSnapshot == 0
    ensures var r := Reserve(cfg, c, w, length);
            && r.Done? && w.lastSeg <= r.wal.lastSeg && Rooted(cfg, r.wal, Pad(layout, r.wal.lastSeg), t)
  {
    hide Shape, Rooted, AddNewLogFile, OpenNext, Pad;
    SamePad(cfg, c, w, layout);
    RootedRotates(cfg, c, w, layout, t);
    OpenedFields(w);
    RenumberedShape(cfg, c, w, layout, w.lastSeq + 1);
    RenumberedRoot(cfg, w, layout, t);
    RootedRotates(cfg, c, w.(lastSeq := w.lastSeq + 1), layout, t);
    OpenedFields(w.(lastSeq := w.lastSeq + 1));
    if w.curSize >= cfg.maxSize {
      var w1, layout1 := OpenNext(w), layout + [[]];
      RenumberedShape(cfg, c, w1, layout1, w1.lastSeq + 1);
      RenumberedRoot(cfg, w1, layout1, t);
      RootedRotates(cfg, c, w1.(lastSeq := w1.lastSeq + 1), layout1, t);
      OpenedFields(w1.(lastSeq := w1.lastSeq + 1));
    }
  }

  lemma SamePad(cfg: Config, c: Codec, w: Wal, layout: seq<seq<WalEntry>>)
    requires Shape(cfg, c, w, layout)
    ensures Pad(layout, w.lastSeg) == layout && Pad(layout, w.lastSeg + 1) == layout + [[]]
    ensures Pad(layout, w.lastSeg + 2) == layout + [[]] + [[]]
  {
    hide GoodLayout, EncodeFile, Flat;
    PadOneMore(layout, w.lastSeg);
    PadOneMore(layout, w.lastSeg + 1);
  }

  lemma RenumberedRoot(cfg: Config, w: Wal, layout: seq<seq<WalEntry>>, t: nat)
    requires Rooted(cfg, w, layout, t)
    ensures Rooted(cfg, w.(lastSeq := w.lastSeq + 1), layout, t)
  {
  }

  /** An append in a rooted log succeeds, and the log stays rooted. */
  lemma RootedAppends(cfg: Config, c: Codec, w: Wal, layout: seq<seq<WalEntry>>, data: seq<byte>, isDelete: bool,
                      t: nat)
    requires Lossless(c) && Shape(cfg, c, w, layout) && cfg.maxSegs >= 2 && w.lastSeg + 2 < TWO_TO_64
    requires Rooted(cfg, w, layout, t) && w.lastSnapshot == 0
    ensures var r := AppendEntry(cfg, c, w, data, isDelete);
            r.Done? && Rooted(cfg, r.wal, Appended(c, w, r.wal, layout, data, isDelete), t)
  {
    hide Shape, Reserve, Frame, Rooted;
    var e := MakeEntry(c, w.lastSeq + 1, data, isDelete);
    RootedReserves(cfg, c, w, layout, |c.encEntry(e)|, t);
    var w1 := Reserve(cfg, c, w, |c.encEntry(e)|).wal;
    PushedRoot(cfg, w1, Pad(layout, w1.lastSeg), t, c.encEntry(e), e);
  }

  lemma PushedRoot(cfg: Config, w: Wal, layout: seq<seq<WalEntry>>, t: nat, body: seq<byte>, e: WalEntry)
    requires Rooted(cfg, w, layout, t)
    ensures Rooted(cfg, Write(w, body), Push(layout, e), t)
  {
    hide Frame;
  }

  // ---- Start-up ----

  lemma AnyCovers(segs: set<nat>, layout: seq<seq<WalEntry>>)
    ensures Covered(segs, layout, |Flat(layout)|)
  {
    hide Flat;
    forall s | 1 <= s <= |layout| ensures Before(layout, s) <= |Flat(layout)| {
      FlatSplit(layout, s);
    }
  }

  /** One delete that start-up logs, and its flush. */
  lemma RootedDelete(cfg: Config, c: Codec, w: Wal, layout: seq<seq<WalEntry>>, data: seq<byte>, t: nat)
    requires Lossless(c) && Shape(cfg, c, w, layout) && cfg.maxSegs >= 2 && w.lastSeg + 2 < TWO_TO_64
    requires Rooted(cfg, w, layout, t) && w.lastSnapshot == 0 && w.lastSeq == |Flat(layout)|
    requires Good(c, MakeEntry(c, w.lastSeq + 1, data, true))
    ensures var r := AppendEntry(cfg, c, w, data, true);
            && r.Done?
            && var w', layout' := Flush(r.wal), Appended(c, w, r.wal, layout, data, true);
               && Shape(cfg, c, w', layout') && Rooted(cfg, w', layout', t) && w'.lastSnapshot == 0
               && w'.lastSeq == |Flat(layout')| == w.lastSeq + 1 && w'.lastSeg <= w.lastSeg + 2
  {
    hide Shape, Rooted, AppendEntry, Appended, Flat, Survived, Covered, Good;
    RootedAppends(cfg, c, w, layout, data, true, t);
    AnyCovers(w.segs.Keys, layout);
    AppendIsSafe(cfg, c, w, layout, data, true, |Flat(layout)|);
    var w1 := AppendEntry(cfg, c, w, data, true).wal;
    var layout' := Appended(c, w, w1, layout, data, true);
    FlushKeepsShape(cfg, c, w1, layout');
    FlushedRoot(cfg, w1, layout', t);
  }

  lemma FlushedRoot(cfg: Config, w: Wal, layout: seq<seq<WalEntry>>, t: nat)
    requires Rooted(cfg, w, layout, t)
    ensures Rooted(cfg, Flush(w), layout, t)
  {
    assert Flush(w).segs.Keys == w.segs.Keys;
    SameRoot(cfg, w, Flush(w), layout, layout, t);
  }

  lemma MetadataEncodes(c: Codec, meta: FileMetadata, no: nat)
    requires Lossless(c) && Fits(c.encEntry(MakeEntry(c, no, c.encMeta(meta), true)))
    ensures Good(c, MakeEntry(c, no, c.encMeta(meta), true))
  {
  }

  /** In a rooted log no delete of start-up is refused. */
  lemma {:induction false} RootedNeverRefuses(cfg: Config, c: Codec, p: Pair, layout: seq<seq<WalEntry>>,
                                              es: seq<WalEntry>, t: nat)
    requires Lossless(c) && Shape(cfg, c, p.wal, layout) && cfg.maxSegs >= 2
    requires Rooted(cfg, p.wal, layout, t) && p.wal.lastSnapshot == 0 && p.wal.lastSeq == |Flat(layout)|
    requires AllGood(c, es) && DeletesFit(c, p.files, es, p.wal.lastSeq)
    requires p.wal.lastSeg + 2 * |es| + 2 < TWO_TO_64
    ensures forall i: nat :: !Refused(cfg, c, p, es, i)
    decreases |es|
  {
    hide Shape, Rooted, AppendEntry, Appended, Refused, RefusedIn, Applied, OpOf, ApplyOp, Flat, Flush;
    if es == [] {
      NoneRefused(cfg, c, p);
    } else {
      var layout1 := layout;
      if Fires(c, p.files, es[0]) {
        var meta := p.files[OpOf(c, es[0]).Key()];
        MetadataEncodes(c, meta, p.wal.lastSeq + 1);
        RootedDelete(cfg, c, p.wal, layout, c.encMeta(meta), t);
        var w1 := AppendEntry(cfg, c, p.wal, c.encMeta(meta), true).wal;
        layout1 := Appended(c, p.wal, w1, layout, c.encMeta(meta), true);
      }
      RefusedFires(cfg, c, p, es[0]);
      AcceptedStep(cfg, c, p, es[0]);
      RootedNeverRefuses(cfg, c, Applied(cfg, c, p, es[0]).value, layout1, es[1..], t);
      RefusedNowOrLater(cfg, c, p, es);
    }
  }
}
