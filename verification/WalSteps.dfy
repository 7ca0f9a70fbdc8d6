/** Single steps of concrete runs: what an append does that rotates never, once or twice. */
module WalSteps {
  import opened Results
  import opened Bytes
  import opened Frames
  import opened History
  import opened WalCodec
  import opened Layout
  import opened WalLog
  import opened WalProtocol
  import opened WalSafety
  import opened WalTheorems

  function RecordSize(c: Codec, e: WalEntry): (n: nat) {
    |c.encEntry(e)| + 4
  }

  lemma RunOneMore(cfg: Config, c: Codec, evs: seq<Event>, n: nat, st: Sys, st': Sys)
    requires n < |evs| && Run(cfg, c, evs[..n]) == Some(st) && Next(cfg, c, st, evs[n]) == Some(st')
    ensures Run(cfg, c, evs[..n + 1]) == Some(st')
  {
    hide Next;
    assert evs[..n + 1][..n] == evs[..n];
  }

  lemma ProperIf(cfg: Config, c: Codec)
    requires Lossless(c) && cfg.maxSegs >= 2
    ensures Proper(cfg, c)
  {
  }

  /** Opening the next file when the buffer belongs to the last one. */
  lemma OpenedNext(w: Wal, n: nat, f: seq<byte>)
    requires w.lastSeg == n && n in w.segs && w.segs[n] + w.buf == f
    ensures OpenNext(w) == Wal(w.segs[n := f][n + 1 := []], n + 1, 0, w.lastSeq, w.lastSnapshot, [], w.gen + 1)
  {
  }

  lemma RoomRotation(cfg: Config, c: Codec, w: Wal)
    requires |w.segs| < cfg.maxSegs
    ensures AddNewLogFile(cfg, c, w) == Done(OpenNext(w))
  {
    hide OpenNext;
  }

  lemma FullRotation(cfg: Config, c: Codec, w: Wal, s: nat, no: nat)
    requires |w.segs| >= cfg.maxSegs && Oldest(cfg, w) == s && s in w.segs && LastNumber(c, w.segs, s) == Ok(no)
    ensures AddNewLogFile(cfg, c, w) == Done(OpenNext(if no > w.lastSnapshot then w else w.(segs := w.segs - {s})))
  {
    hide LastNumber, OpenNext;
  }

  lemma NoRotation(cfg: Config, c: Codec, w: Wal, e: WalEntry)
    requires e == MakeEntry(c, w.lastSeq + 1, e.data, e.isDelete) && w.curSize + RecordSize(c, e) < cfg.maxSize
    ensures AppendEntry(cfg, c, w, e.data, e.isDelete) == Done(Write(w.(lastSeq := w.lastSeq + 1), c.encEntry(e)))
  {
    hide AddNewLogFile, Frame;
  }

  lemma OneRotation(cfg: Config, c: Codec, w: Wal, e: WalEntry, w1: Wal)
    requires e == MakeEntry(c, w.lastSeq + 1, e.data, e.isDelete)
    requires w.curSize < cfg.maxSize <= w.curSize + RecordSize(c, e)
    requires AddNewLogFile(cfg, c, w.(lastSeq := w.lastSeq + 1)) == Done(w1)
    ensures AppendEntry(cfg, c, w, e.data, e.isDelete) == Done(Write(w1, c.encEntry(e)))
  {
    hide AddNewLogFile, Frame;
  }

  lemma TwoRotations(cfg: Config, c: Codec, w: Wal, e: WalEntry, w1: Wal, w2: Wal)
    requires e == MakeEntry(c, w.lastSeq + 1, e.data, e.isDelete) && w.curSize >= cfg.maxSize
    requires AddNewLogFile(cfg, c, w) == Done(w1) && w1.lastSeq == w.lastSeq
    requires AddNewLogFile(cfg, c, w1.(lastSeq := w1.lastSeq + 1)) == Done(w2)
    ensures AppendEntry(cfg, c, w, e.data, e.isDelete) == Done(Write(w2, c.encEntry(e)))
  {
    hide AddNewLogFile, Frame;
  }

  /** The entry of one record in an empty buffer. */
  lemma Written(w: Wal, body: seq<byte>, w': Wal)
    requires w.buf == [] && w' == w.(buf := Frame(body), curSize := w.curSize + |body| + 4)
    ensures Write(w, body) == w'
  {
    hide Frame;
    assert [] + Frame(body) == Frame(body);
  }

  lemma AppendStep(cfg: Config, c: Codec, st: Sys, meta: FileMetadata, isDelete: bool, w: Wal)
    requires st.wal.lastSeg <= 8 && st.wal.lastSeq <= 8 && st.mode.Serving? && !st.rotation.Halted?
    requires Fits(c.encEntry(NewEntry(c, st.wal, meta, isDelete)))
    requires AppendEntry(cfg, c, st.wal, c.encMeta(meta), isDelete) == Done(w)
    ensures Next(cfg, c, st, Append(meta, isDelete)) ==
            Some(st.(wal := w, layout := Push(Pad(st.layout, w.lastSeg), NewEntry(c, st.wal, meta, isDelete)),
                     pending := st.pending[w.lastSeq := Waiter(w.gen, NewOp(meta, isDelete))]))
  {
    hide AppendEntry, Push, Pad;
  }

  lemma FlushStepIs(cfg: Config, c: Codec, st: Sys, f: seq<byte>)
    requires !st.rotation.Halted? && st.wal.lastSeg in st.wal.segs && st.wal.segs[st.wal.lastSeg] + st.wal.buf == f
    ensures Next(cfg, c, st, FlushTimer) ==
            Some(st.(wal := st.wal.(segs := st.wal.segs[st.wal.lastSeg := f], buf := [], gen := st.wal.gen + 1)))
  {
  }

  lemma UpdateStepIs(cfg: Config, c: Codec, st: Sys, j: nat)
    requires st.mode.Serving? && j in st.pending && st.pending[j].gen < st.wal.gen
    requires forall i :: i in st.pending ==> i >= j
    ensures Next(cfg, c, st, UpdateMap(j)) ==
            Some(st.(files := ApplyOp(st.files, st.pending[j].op), pending := st.pending - {j}))
  {
    hide ApplyOp;
  }
}
