/** A crash inside a rotation, between the creation of the new file and the flush of the old buffer. */
module WalTorn {
  import opened Results
  import opened Bytes
  import opened Frames
  import opened History
  import opened WalCodec
  import opened Layout
  import opened WalLog
  import opened WalScan
  import opened WalProtocol
  import opened WalSafety
  import opened WalTheorems
  import opened WalRecovery
  import opened WalExample
  import opened WalSteps

  /** The first entry fits the first segment, and the second does not fit behind it. */
  ghost predicate FillsUp(cfg: Config, c: Codec, meta: FileMetadata) {
    && SmallEnough(cfg, c, meta)
    && cfg.maxSize <= RecordSize(c, MakeEntry(c, 1, c.encMeta(meta), false)) +
                      RecordSize(c, MakeEntry(c, 2, c.encMeta(meta), false))
  }

  function Record(c: Codec, meta: FileMetadata): (f: seq<byte>) {
    Frame(c.encEntry(MakeEntry(c, 1, c.encMeta(meta), false)))
  }

  /** The first k octets of the record reach the file, and the next append creates a new one. */
  function TornRun(meta: FileMetadata, k: nat): (evs: seq<Event>)
    ensures |evs| == 3
  {
    [Append(meta, false), SpillBuffer(k), Interrupt(meta, false, false, true, 0)]
  }

  ghost function Torn(c: Codec, meta: FileMetadata, k: nat): (st: Sys)
    requires k <= |Record(c, meta)|
  {
    var st := Stage(c, meta, 1);
    st.(wal := st.wal.(segs := map[1 := Record(c, meta)[..k]], buf := Record(c, meta)[k..]))
  }

  lemma Spilt(cfg: Config, c: Codec, meta: FileMetadata, k: nat)
    requires k <= |Record(c, meta)|
    ensures Next(cfg, c, Stage(c, meta, 1), SpillBuffer(k)) == Some(Torn(c, meta, k))
  {
    hide Frame;
    assert [] + Record(c, meta)[..k] == Record(c, meta)[..k];
    assert Spill(Stage(c, meta, 1).wal, k).segs == map[1 := Record(c, meta)[..k]];
  }

  lemma Interrupted(cfg: Config, c: Codec, meta: FileMetadata, k: nat)
    requires Proper(cfg, c) && FillsUp(cfg, c, meta) && k <= |Record(c, meta)|
    ensures Next(cfg, c, Torn(c, meta, k), TornRun(meta, k)[2]) == Some(Torn(c, meta, k).(rotation := Halted(true)))
  {
    var st := Torn(c, meta, k);
    hide Frame;
    assert |st.wal.segs| == 1 by {
      assert st.wal.segs.Keys == {1} && |st.wal.segs| == |st.wal.segs.Keys|;
    }
    NothingSpilt(st.wal);
    PadOne(st.layout);
    hide Spill, Pad;
    assert HalfRotated(cfg, c, st.wal, 0) == Some(st.wal);
  }

  lemma NothingSpilt(w: Wal)
    requires w.lastSeg in w.segs
    ensures Spill(w, 0) == w
  {
    assert w.buf[..0] == [] && w.buf[0..] == w.buf && w.segs[w.lastSeg] + w.buf[..0] == w.segs[w.lastSeg];
    assert w.segs[w.lastSeg := w.segs[w.lastSeg]] == w.segs;
  }

  lemma TornStage(cfg: Config, c: Codec, meta: FileMetadata, k: nat)
    requires Proper(cfg, c) && FillsUp(cfg, c, meta) && k <= |Record(c, meta)|
    ensures Run(cfg, c, TornRun(meta, k)) == Some(Torn(c, meta, k).(rotation := Halted(true)))
  {
    hide Next, Torn, Record, SmallEnough;
    var evs := TornRun(meta, k);
    FirstStage(cfg, c, meta);
    NothingYet(c, meta);
    assert evs[..0] == [] && evs[..3] == evs;
    hide Stage;
    RunOneMore(cfg, c, evs, 0, EMPTY_DIRECTORY, Stage(c, meta, 1));
    Spilt(cfg, c, meta, k);
    RunOneMore(cfg, c, evs, 1, Stage(c, meta, 1), Torn(c, meta, k));
    Interrupted(cfg, c, meta, k);
    RunOneMore(cfg, c, evs, 2, Torn(c, meta, k), Torn(c, meta, k).(rotation := Halted(true)));
  }

  /** If the buffer had been handed over in part, start-up fails from then on, although the newest file
      holds no cut record: it holds nothing, and the file before it is cut. */
  lemma CutBeforeEmptyFileFails(cfg: Config, c: Codec, meta: FileMetadata, k: nat)
    requires Proper(cfg, c) && FillsUp(cfg, c, meta) && 0 < k < |Record(c, meta)|
    ensures Run(cfg, c, TornRun(meta, k)).Some?
    ensures var st := After(cfg, c, TornRun(meta, k));
            && Directory(st) == map[1 := Record(c, meta)[..k], 2 := []]
            && Recovered(cfg, c, Directory(st), st.snap).Err?
  {
    hide Run, Recovered, Record, Trimmed, WalkEnds, Contiguous, Inv, LogOk, Parse, Torn, FillsUp, TornRun;
    assert Fits(c.encEntry(MakeEntry(c, 1, c.encMeta(meta), false))) by {
      FitsFirst(cfg, c, meta);
    }
    TornStage(cfg, c, meta, k);
    var st := Torn(c, meta, k).(rotation := Halted(true));
    AfterIs(cfg, c, TornRun(meta, k), st);
    TornFiles(c, meta, k);
    RecoveryCompletesIff(cfg, c, TornRun(meta, k));
  }

  lemma FitsFirst(cfg: Config, c: Codec, meta: FileMetadata)
    requires FillsUp(cfg, c, meta)
    ensures Fits(c.encEntry(MakeEntry(c, 1, c.encMeta(meta), false)))
  {
  }

  lemma TornFiles(c: Codec, meta: FileMetadata, k: nat)
    requires 0 < k < |Record(c, meta)| && Fits(c.encEntry(MakeEntry(c, 1, c.encMeta(meta), false)))
    ensures var st := Torn(c, meta, k).(rotation := Halted(true));
            && Directory(st) == map[1 := Record(c, meta)[..k], 2 := []]
            && st.wal.lastSeg == 1 && 1 in st.wal.segs && Parse(st.wal.segs[1]).None?
  {
    CutRecord(c.encEntry(MakeEntry(c, 1, c.encMeta(meta), false)), k);
    assert Parse(Record(c, meta)[..k]).None?;
    hide Frame, ReadFrame, Parse;
    assert Torn(c, meta, k).wal.segs[2 := []] == map[1 := Record(c, meta)[..k], 2 := []];
  }
}
