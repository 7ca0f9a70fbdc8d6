/** What one client alone makes of the store is a run of the log machine: an add, a delete and a snapshot,
    as the classes are proved to perform them. */
module StoreRuns {
  import opened Results
  import opened Bytes
  import opened Frames
  import opened History
  import opened WalCodec
  import opened WalLog
  import opened SnapshotFile
  import opened LogReplay
  import opened WalProtocol
  import opened WalSafety
  import opened WalReplayRun
  import opened WalManager

  /** Serving, with no append and no snapshot under way. */
  predicate AtRest(st: Sys) {
    st.mode.Serving? && st.pending == map[] && st.snapper == Idle && st.rotation == Complete
  }

  /** Numbers that can be counted on, and a record that can be written. */
  predicate CanLog(c: Codec, st: Sys, meta: FileMetadata, isDelete: bool) {
    && st.wal.lastSeg + 2 < TWO_TO_64 && st.wal.lastSeq + 1 < TWO_TO_64
    && Fits(c.encEntry(NewEntry(c, st.wal, meta, isDelete)))
  }

  /** An append, the flush it waits for, and its update of the map. */
  lemma UpdateIsARun(cfg: Config, c: Codec, st: Sys, meta: FileMetadata, isDelete: bool)
    requires AtRest(st) && CanLog(c, st, meta, isDelete)
    requires AppendEntry(cfg, c, st.wal, c.encMeta(meta), isDelete).Done?
    ensures var w := AppendEntry(cfg, c, st.wal, c.encMeta(meta), isDelete).wal;
            RunFreely(cfg, c, st, [Append(meta, isDelete), FlushTimer, UpdateMap(w.lastSeq)]) ==
            Some(st.(wal := Flush(w), files := ApplyOp(st.files, NewOp(meta, isDelete)),
                     layout := Appended(c, st.wal, w, st.layout, c.encMeta(meta), isDelete)))
  {
    hide AppendEntry, Drain, Appended, ApplyOp;
    var w := AppendEntry(cfg, c, st.wal, c.encMeta(meta), isDelete).wal;
    var st1 := st.(wal := w, layout := Appended(c, st.wal, w, st.layout, c.encMeta(meta), isDelete),
                   pending := map[w.lastSeq := Waiter(w.gen, NewOp(meta, isDelete))]);
    assert FreeNext(cfg, c, st, Append(meta, isDelete)) == Some(st1);
    var st2 := st1.(wal := Flush(w));
    assert FreeNext(cfg, c, st1, FlushTimer) == Some(st2);
    assert st2.pending - {w.lastSeq} == map[];
    assert FreeNext(cfg, c, st2, UpdateMap(w.lastSeq)) ==
           Some(st2.(files := ApplyOp(st.files, NewOp(meta, isDelete)), pending := map[]));
    hide FreeNext;
    ThreeEvents(cfg, c, st, Append(meta, isDelete), FlushTimer, UpdateMap(w.lastSeq));
  }

  /** Adding a file: what AddFileMetadata is proved to do. */
  lemma AddIsARun(cfg: Config, c: Codec, st: Sys, meta: FileMetadata)
    requires AtRest(st) && CanLog(c, st, meta, false)
    requires AppendEntry(cfg, c, st.wal, c.encMeta(meta), false).Done?
    ensures var w := AppendEntry(cfg, c, st.wal, c.encMeta(meta), false).wal;
            var r := RunFreely(cfg, c, st, [Append(meta, false), FlushTimer, UpdateMap(w.lastSeq)]);
            r.Some? && AtRest(r.value) && r.value.wal == Flush(w) && r.value.files == st.files[meta.name := meta]
  {
    hide AppendEntry, Flush, RunFreely;
    UpdateIsARun(cfg, c, st, meta, false);
  }

  /** Deleting one that is there: what DeleteFileMetadata is proved to do. */
  lemma DeleteIsARun(cfg: Config, c: Codec, st: Sys, key: string)
    requires AtRest(st) && KeysMatch(st.files) && key in st.files && CanLog(c, st, st.files[key], true)
    requires AppendEntry(cfg, c, st.wal, c.encMeta(st.files[key]), true).Done?
    ensures var w := AppendEntry(cfg, c, st.wal, c.encMeta(st.files[key]), true).wal;
            var r := RunFreely(cfg, c, st, [Append(st.files[key], true), FlushTimer, UpdateMap(w.lastSeq)]);
            && r.Some? && AtRest(r.value)
            && Pair(r.value.wal, r.value.files) == Deleted(cfg, c, Pair(st.wal, st.files), key)
  {
    hide AppendEntry, Flush, RunFreely;
    UpdateIsARun(cfg, c, st, st.files[key], true);
  }

  // ---- A snapshot ----

  /** The cleanup of a listing: one event for each older file, up to the first that cannot be dealt with. */
  function CleanupEvents(c: Codec, w: Wal, listing: seq<nat>, segNo: nat): (evs: seq<Event>)
    decreases |listing|
  {
    if listing == [] then [EndCleanup]
    else if listing[0] >= segNo then CleanupEvents(c, w, listing[1..], segNo)
    else
      match Remove(c, w, listing[0])
      case Failed(_) => [Reclaim(listing[0])]
      case Done(w1) => [Reclaim(listing[0])] + CleanupEvents(c, w1, listing[1..], segNo)
  }

  lemma {:induction false} CleanupRun(cfg: Config, c: Codec, st: Sys, listing: seq<nat>, segNo: nat)
    requires st.snapper == Cleaning(segNo) && st.rotation == Complete
    ensures RunFreely(cfg, c, st, CleanupEvents(c, st.wal, listing, segNo)) ==
            Some(st.(wal := Cleanup(c, st.wal, listing, segNo).wal, snapper := Idle))
    decreases |listing|
  {
    hide Remove, RunFreely;
    if listing == [] {
      OneEvent(cfg, c, st, EndCleanup);
    } else if listing[0] >= segNo {
      CleanupRun(cfg, c, st, listing[1..], segNo);
    } else {
      OneEvent(cfg, c, st, Reclaim(listing[0]));
      match Remove(c, st.wal, listing[0])
      case Failed(w1) =>
        FailedKeeps(c, st.wal, listing[0]);
      case Done(w1) =>
        RunFreelyOn(cfg, c, st, [Reclaim(listing[0])], CleanupEvents(c, w1, listing[1..], segNo));
        CleanupRun(cfg, c, st.(wal := w1), listing[1..], segNo);
    }
  }

  lemma FailedKeeps(c: Codec, w: Wal, s: nat)
    requires Remove(c, w, s).Failed?
    ensures Remove(c, w, s).wal == w
  {
  }

  function SnapshotEvents(c: Codec, w: Wal, order: seq<string>, listing: seq<nat>): (evs: seq<Event>) {
    [Capture, Clone(order), Rename] + ([Record] +
    CleanupEvents(c, w.(lastSnapshot := w.lastSeq), listing, w.lastSeg))
  }

  /** A snapshot nothing interferes with: what TakeSnapshot is proved to do. */
  lemma SnapshotIsARun(cfg: Config, c: Codec, st: Sys, order: seq<string>, listing: seq<nat>)
    requires AtRest(st) && Enumerates(order, st.files) && AllFit(Records(c, Listed(st.files, order)))
    ensures var recorded := st.wal.(lastSnapshot := st.wal.lastSeq);
            RunFreely(cfg, c, st, SnapshotEvents(c, st.wal, order, listing)) ==
            Some(st.(wal := Cleanup(c, recorded, listing, st.wal.lastSeg).wal, tmp := [],
                     snap := Some(Overlay(Image(c, st.wal.lastSeq, Listed(st.files, order)), st.tmp))))
  {
    hide Overlay, Image, Cleanup, CleanupEvents, RunFreely;
    var w := st.wal;
    var image := Image(c, w.lastSeq, Listed(st.files, order));
    var st1 := st.(snapper := Captured(w.lastSeq, w.lastSeg));
    var st2 := st.(snapper := Cloned(w.lastSeq, w.lastSeg, image));
    var st3 := st.(snap := Some(Overlay(image, st.tmp)), tmp := [], snapper := Renamed(w.lastSeq, w.lastSeg));
    var st4 := st3.(wal := w.(lastSnapshot := w.lastSeq), snapper := Cleaning(w.lastSeg));
    assert FreeNext(cfg, c, st, Capture) == Some(st1);
    assert FreeNext(cfg, c, st1, Clone(order)) == Some(st2);
    assert FreeNext(cfg, c, st2, Rename) == Some(st3);
    assert FreeNext(cfg, c, st3, Record) == Some(st4);
    hide FreeNext;
    ThreeEvents(cfg, c, st, Capture, Clone(order), Rename);
    OneEvent(cfg, c, st3, Record);
    var rest := CleanupEvents(c, st4.wal, listing, w.lastSeg);
    RunFreelyOn(cfg, c, st, [Capture, Clone(order), Rename], [Record] + rest);
    RunFreelyOn(cfg, c, st3, [Record], rest);
    CleanupRun(cfg, c, st4, listing, w.lastSeg);
  }

  // ---- What a crash may find ----

  /** Any part of the buffer may have reached the file when a crash comes. */
  lemma AnyPartMayBeOnDisk(cfg: Config, c: Codec, st: Sys, k: nat)
    requires st.rotation == Complete && st.wal.lastSeg in st.wal.segs && k <= |st.wal.buf|
    ensures var r := Next(cfg, c, st, SpillBuffer(k));
            && r.Some?
            && Directory(r.value) == st.wal.segs[st.wal.lastSeg := st.wal.segs[st.wal.lastSeg] + st.wal.buf[..k]]
            && r.value.wal.segs[st.wal.lastSeg] + r.value.wal.buf == st.wal.segs[st.wal.lastSeg] + st.wal.buf
  {
    assert st.wal.buf[..k] + st.wal.buf[k..] == st.wal.buf;
  }
}
