/** The metadata store: the in-memory map, its snapshot writer and reader, and start-up recovery. */
module FileStore {
  import opened Results
  import opened Bytes
  import opened Frames
  import opened History
  import opened WalCodec
  import opened Layout
  import opened SnapshotFile
  import opened LogReplay
  import opened WalManager
  import Log = WalLog

  class MetadataStore {
    var files: Store
    const wal: WAL

    constructor (wal: WAL)
      ensures this.wal == wal && files == map[]
    {
      this.wal := wal;
      files := map[];
    }

    ghost function State(): (p: Pair)
      reads this, wal
    {
      Pair(wal.State(), files)
    }

    /** A log that refuses the entry is reported to nobody, and the map stays as it was. */
    method AddFileMetadata(meta: FileMetadata, addToWAL: bool)
      modifies this, wal
      ensures !addToWAL ==> State() == old(State()).(files := old(files)[meta.name := meta])
      ensures addToWAL ==>
                var r := Log.AppendEntry(wal.cfg, wal.codec, old(wal.State()), wal.codec.encMeta(meta), false);
                if r.Done? then State() == Pair(Log.Flush(r.wal), old(files)[meta.name := meta])
                else State() == Pair(r.wal, old(files))
    {
      hide Log.AppendEntry, Log.Flush;
      if addToWAL {
        var ok := wal.AppendEntry(wal.codec.encMeta(meta), false);
        if !ok {
          return;
        }
      }
      files := files[meta.name := meta];
    }

    method DeleteFileMetadata(key: string)
      modifies this, wal
      ensures State() == Deleted(wal.cfg, wal.codec, old(State()), key)
    {
      hide Log.AppendEntry, Log.Flush;
      if key !in files {
        return;
      }
      var ok := wal.AppendEntry(wal.codec.encMeta(files[key]), true);
      if ok {
        files := files - {key};
      }
    }

    method Apply(e: WalEntry) returns (ok: bool)
      modifies this, wal
      ensures ok <==> Applied(wal.cfg, wal.codec, old(State()), e).Ok?
      ensures State() == if ok then Applied(wal.cfg, wal.codec, old(State()), e).value else old(State())
    {
      var meta := wal.codec.decMeta(e.data);
      if meta.None? {
        return false;
      }
      if e.isDelete {
        DeleteFileMetadata(meta.value.name);
      } else {
        AddFileMetadata(meta.value, false);
      }
      ok := true;
    }

    /** Writes the records of a clone of the map, in whatever order the loop meets them. */
    method Snapshot() returns (f: seq<byte>)
      ensures exists order :: Enumerates(order, files) && f == Dump(wal.codec, Listed(files, order))
    {
      var clone := files;
      var rest := clone.Keys;
      ghost var order: seq<string> := [];
      f := [];
      while rest != {}
        invariant rest <= clone.Keys
        invariant forall i :: 0 <= i < |order| ==> order[i] in clone && order[i] !in rest
        invariant forall i, j :: 0 <= i < j < |order| ==> order[i] != order[j]
        invariant forall x :: x in clone ==> x in rest || x in order
        invariant f == Dump(wal.codec, Listed(clone, order))
        decreases |rest|
      {
        var name :| name in rest;
        DumpOneMore(wal.codec, clone, order, name);
        f := f + Frame(wal.codec.encMeta(clone[name]));
        order := order + [name];
        rest := rest - {name};
      }
      assert Enumerates(order, files);
    }

    method Restore(f: seq<byte>) returns (ok: bool)
      modifies this, wal
      ensures wal.State() == old(wal.State())
      ensures ok <==> RestoreInto(wal.codec, old(files), f).Ok?
      ensures files == RestoredSoFar(wal.codec, old(files), f)
    {
      var rest := f;
      while true
        invariant RestoreInto(wal.codec, old(files), f) == RestoreInto(wal.codec, files, rest)
        invariant RestoredSoFar(wal.codec, old(files), f) == RestoredSoFar(wal.codec, files, rest)
        invariant wal.State() == old(wal.State())
        decreases |rest|
      {
        match ReadFrame(rest) {
          case End =>
            return true;
          case Broken =>
            return false;
          case Got(body, tail) =>
            var meta := wal.codec.decMeta(body);
            if meta.None? {
              return false;
            }
            AddFileMetadata(meta.value, false);
            rest := tail;
        }
      }
    }
  }

  lemma DumpOneMore(c: Codec, m: Store, order: seq<string>, name: string)
    requires name in m && forall i :: 0 <= i < |order| ==> order[i] in m
    ensures Dump(c, Listed(m, order + [name])) == Dump(c, Listed(m, order)) + Frame(c.encMeta(m[name]))
  {
    var bodies := Records(c, Listed(m, order));
    FrameAllSnoc(bodies, c.encMeta(m[name]));
    assert Records(c, Listed(m, order + [name])) == bodies + [c.encMeta(m[name])];
  }

  /** What start-up makes of a snapshot file and the log: the restored image, with every retained entry
      applied to it; or an error. */
  function Started(cfg: Log.Config, c: Codec, w: Log.Wal, snap: seq<byte>): (r: Result<Pair>) {
    match DecodeSnapshot(c, snap)
    case Err => Err
    case Ok((no, img)) =>
      match Log.ReadAll(c, w.segs, w.lastSeg, w.lastSeq)
      case Err => Err
      case Ok(es) =>
        match AllApplied(cfg, c, Pair(w, img), es)
        case Err => Err
        case Ok(p) => Ok(p.(wal := p.wal.(lastSnapshot := no)))
  }

  /** EnableSnapshots at start-up: restore the published snapshot, read every retained entry, apply
      them all; without a snapshot file nothing is read. After an error the program ends; until the
      entries are applied, an error has left the log as it was. */
  method EnableSnapshots(w: WAL, store: MetadataStore, snap: Option<seq<byte>>) returns (ok: bool)
    requires store.wal == w && store.files == map[]
    modifies w, store
    ensures snap.None? ==> ok && store.files == map[] && w.State() == old(w.State()).(lastSnapshot := 0)
    ensures snap.Some? ==> (ok <==> Started(w.cfg, w.codec, old(w.State()), snap.value).Ok?)
    ensures ok && snap.Some? ==> |snap.value| >= 8 && w.lastSnapshot == FromBigEndian(snap.value[..8])
    ensures ok && snap.Some? ==> store.State() == Started(w.cfg, w.codec, old(w.State()), snap.value).value
    ensures snap.Some? && (DecodeSnapshot(w.codec, snap.value).Err? ||
                           Log.ReadAll(w.codec, old(w.segs), old(w.lastSegmentNo), old(w.lastSequenceNo)).Err?) ==>
              w.State() == old(w.State())
  {
    hide Applied, RestoreInto, RestoredSoFar, Log.ReadAll;
    if snap.None? {
      w.lastSnapshot := 0;
      return true;
    }
    if |snap.value| < 8 {
      return false;
    }
    var seqNo := FromBigEndian(snap.value[..8]);
    ok := store.Restore(snap.value[8..]);
    if !ok {
      return;
    }
    var entries := w.ReadAllEntries();
    if entries.Err? {
      return false;
    }
    ghost var start := store.State();
    var es := entries.value;
    var i := 0;
    while i < |es|
      invariant 0 <= i <= |es|
      invariant AllApplied(w.cfg, w.codec, start, es[..i]) == Ok(store.State())
    {
      assert es[..i + 1][..i] == es[..i];
      ok := store.Apply(es[i]);
      if !ok {
        AppliedPrefix(w.cfg, w.codec, start, es, i + 1);
        return;
      }
      i := i + 1;
    }
    assert es[..|es|] == es;
    w.lastSnapshot := seqNo;
    ok := true;
  }

  /** takeSnapshot without interference: the temporary file, its publication and the cleanup. A failed
      cleanup is reported after the snapshot has been published. */
  method TakeSnapshot(w: WAL, store: MetadataStore, tmp: seq<byte>, listing: seq<nat>)
    returns (published: seq<byte>, ok: bool)
    requires store.wal == w
    modifies w
    ensures store.files == old(store.files)
    ensures exists order :: Enumerates(order, store.files) &&
              published == Overlay(Image(w.codec, old(w.lastSequenceNo), Listed(store.files, order)), tmp)
    ensures var recorded := old(w.State()).(lastSnapshot := old(w.lastSequenceNo));
            && ok == Cleanup(w.codec, recorded, listing, old(w.lastSegmentNo)).Done?
            && w.State() == Cleanup(w.codec, recorded, listing, old(w.lastSegmentNo)).wal
    ensures ok && Lossless(w.codec) ==>
              forall layout :: Log.Shape(w.cfg, w.codec, old(w.State()), layout) &&
                               |Flat(layout)| <= old(w.lastSequenceNo) ==>
                                 w.segs.Keys == old(w.segs.Keys) - set s | s in listing && s < old(w.lastSegmentNo)
  {
    hide Log.Shape, CleanedUp, Cleanup;
    var seqNo, segNo := w.lastSequenceNo, w.lastSegmentNo;
    ghost var was := w.State();
    var records := store.Snapshot();
    published := Overlay(BigEndian(seqNo, 8) + records, tmp);
    w.lastSnapshot := seqNo;
    ghost var recorded := w.State();
    ok := w.PerformCleanup(listing, segNo);
    if ok && Lossless(w.codec) {
      forall layout | Log.Shape(w.cfg, w.codec, was, layout) && |Flat(layout)| <= seqNo
        ensures w.segs.Keys == recorded.segs.Keys - set s | s in listing && s < segNo
      {
        RecordedShape(w.cfg, w.codec, was, layout, seqNo);
        NoneLeft(w.cfg, w.codec, recorded, layout, listing, segNo, w.State());
      }
    }
  }

  lemma RecordedShape(cfg: Log.Config, c: Codec, w: Log.Wal, layout: seq<seq<WalEntry>>, no: nat)
    requires Log.Shape(cfg, c, w, layout)
    ensures Log.Shape(cfg, c, w.(lastSnapshot := no), layout) && |layout| == w.lastSeg
  {
    hide Log.GoodLayout, EncodeFile;
  }
}
