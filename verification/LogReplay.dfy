/** Replay at start-up as the code does it: the retained entries are applied one by one to the restored
    map, and every delete that finds its name is logged again. A delete the log refuses is swallowed. */
module LogReplay {
  import opened Results
  import opened Bytes
  import opened Frames
  import opened History
  import opened WalCodec
  import opened WalLog

  /** The log and the map while entries are applied. */
  datatype Pair = Pair(wal: Wal, files: Store)

  /** Deleting a name: unknown names are ignored; known ones are logged, and leave the map unless the
      log refused the entry, an error nobody reports. */
  function Deleted(cfg: Config, c: Codec, p: Pair, name: string): (r: Pair) {
    if name !in p.files then p
    else
      match AppendEntry(cfg, c, p.wal, c.encMeta(p.files[name]), true)
      case Failed(w) => p.(wal := w)
      case Done(w) => Pair(Flush(w), p.files - {name})
  }

  function Applied(cfg: Config, c: Codec, p: Pair, e: WalEntry): (r: Result<Pair>) {
    match c.decMeta(e.data)
    case None => Err
    case Some(meta) =>
      if e.isDelete then Ok(Deleted(cfg, c, p, meta.name)) else Ok(p.(files := p.files[meta.name := meta]))
  }

  function AllApplied(cfg: Config, c: Codec, p: Pair, es: seq<WalEntry>): (r: Result<Pair>) {
    if es == [] then Ok(p)
    else
      match AllApplied(cfg, c, p, es[..|es| - 1])
      case Err => Err
      case Ok(p1) => Applied(cfg, c, p1, es[|es| - 1])
  }

  lemma {:induction false} AppliedPrefix(cfg: Config, c: Codec, p: Pair, es: seq<WalEntry>, n: nat)
    requires n <= |es| && AllApplied(cfg, c, p, es[..n]).Err?
    ensures AllApplied(cfg, c, p, es).Err?
    decreases |es|
  {
    hide Applied;
    if n < |es| {
      assert es[..|es| - 1][..n] == es[..n];
      AppliedPrefix(cfg, c, p, es[..|es| - 1], n);
    } else {
      assert es[..n] == es;
    }
  }

  /** Applying the entries succeeds exactly if the metadata of each of them decodes, whatever the log makes
      of the deletes. */
  lemma {:induction false} AppliesIffDecodes(cfg: Config, c: Codec, p: Pair, es: seq<WalEntry>)
    ensures AllApplied(cfg, c, p, es).Ok? <==> forall i :: 0 <= i < |es| ==> c.decMeta(es[i].data).Some?
  {
    hide Deleted;
    if es != [] {
      AppliesIffDecodes(cfg, c, p, es[..|es| - 1]);
    }
  }

  // ---- Refused deletes ----

  /** In this state the entry deletes a name that is there, and the log refuses that delete. */
  predicate RefusedIn(cfg: Config, c: Codec, p: Pair, e: WalEntry) {
    && e.isDelete && c.decMeta(e.data).Some? && c.decMeta(e.data).value.name in p.files
    && AppendEntry(cfg, c, p.wal, c.encMeta(p.files[c.decMeta(e.data).value.name]), true).Failed?
  }

  /** Entry i is a delete that start-up fires and the log refuses. */
  predicate Refused(cfg: Config, c: Codec, p: Pair, es: seq<WalEntry>, i: nat) {
    i < |es| && AllApplied(cfg, c, p, es[..i]).Ok? && RefusedIn(cfg, c, AllApplied(cfg, c, p, es[..i]).value, es[i])
  }

  /** And no later entry is of the same name. */
  predicate RefusedForGood(cfg: Config, c: Codec, p: Pair, es: seq<WalEntry>, i: nat)
    requires AllGood(c, es)
  {
    Refused(cfg, c, p, es, i) && forall k :: i < k < |es| ==> OpOf(c, es[k]).Key() != OpOf(c, es[i]).Key()
  }

  ghost predicate KeptOn(cfg: Config, c: Codec, p: Pair, es: seq<WalEntry>, x: string)
    requires AllGood(c, es)
  {
    exists i: nat :: RefusedForGood(cfg, c, p, es, i) && OpOf(c, es[i]).Key() == x
  }

  lemma KeptBefore(cfg: Config, c: Codec, p: Pair, es: seq<WalEntry>, x: string)
    requires es != [] && AllGood(c, es) && OpOf(c, es[|es| - 1]).Key() != x
    ensures AllGood(c, es[..|es| - 1]) && (KeptOn(cfg, c, p, es, x) <==> KeptOn(cfg, c, p, es[..|es| - 1], x))
  {
    hide AllApplied, RefusedIn, OpOf;
    var front := es[..|es| - 1];
    forall i: nat | i < |front|
      ensures Refused(cfg, c, p, front, i) == Refused(cfg, c, p, es, i)
      ensures OpOf(c, es[i]).Key() == x ==>
                (RefusedForGood(cfg, c, p, front, i) <==> RefusedForGood(cfg, c, p, es, i))
    {
      assert front[..i] == es[..i];
      assert forall k :: i < k < |front| ==> es[k] == front[k];
    }
  }

  lemma KeptLast(cfg: Config, c: Codec, p: Pair, es: seq<WalEntry>)
    requires es != [] && AllGood(c, es) && AllApplied(cfg, c, p, es[..|es| - 1]).Ok?
    ensures var n := |es| - 1;
            KeptOn(cfg, c, p, es, OpOf(c, es[n]).Key()) <==>
            RefusedIn(cfg, c, AllApplied(cfg, c, p, es[..n]).value, es[n])
  {
    hide AllApplied, RefusedIn, OpOf;
    var n := |es| - 1;
    assert Refused(cfg, c, p, es, n) == RefusedIn(cfg, c, AllApplied(cfg, c, p, es[..n]).value, es[n]);
    assert Refused(cfg, c, p, es, n) ==> RefusedForGood(cfg, c, p, es, n);
  }

  lemma AppliedLook(cfg: Config, c: Codec, p: Pair, e: WalEntry, x: string)
    requires Good(c, e)
    ensures Applied(cfg, c, p, e).Ok?
    ensures var op := OpOf(c, e);
            Look(Applied(cfg, c, p, e).value.files, x) ==
            if op.Key() != x || RefusedIn(cfg, c, p, e) then Look(p.files, x) else op.Effect()
    ensures RefusedIn(cfg, c, p, e) ==> OpOf(c, e) == Del(OpOf(c, e).Key()) && OpOf(c, e).Key() in p.files
  {
    hide AppendEntry, Flush;
  }

  /** A name ends as the replay of the operations leaves it, unless the last entry of the name is a
      delete the log refused: then the deleted name is still there. */
  lemma {:induction false} LookAfterStartUp(cfg: Config, c: Codec, p: Pair, es: seq<WalEntry>, x: string)
    requires AllGood(c, es)
    ensures AllApplied(cfg, c, p, es).Ok?
    ensures var files, ideal := AllApplied(cfg, c, p, es).value.files, Replay(p.files, Ops(c, es));
            if KeptOn(cfg, c, p, es, x) then x in files && x !in ideal else Look(files, x) == Look(ideal, x)
  {
    hide Applied, RefusedIn, KeptOn, OpOf;
    if es == [] {
      NothingKept(cfg, c, p, x);
    } else {
      var front, last := es[..|es| - 1], es[|es| - 1];
      assert Ops(c, es)[..|es| - 1] == Ops(c, front);
      LookAfterStartUp(cfg, c, p, front, x);
      var p1 := AllApplied(cfg, c, p, front).value;
      AppliedLook(cfg, c, p1, last, x);
      LookApply(Replay(p.files, Ops(c, front)), OpOf(c, last), x);
      if OpOf(c, last).Key() == x {
        KeptLast(cfg, c, p, es);
      } else {
        KeptBefore(cfg, c, p, es, x);
      }
    }
  }

  lemma NothingKept(cfg: Config, c: Codec, p: Pair, x: string)
    ensures !KeptOn(cfg, c, p, [], x)
  {
  }

  /** Start-up ends with the replay of the operations exactly when no refused delete is the last entry
      of its name. */
  lemma AppliedIsReplayIff(cfg: Config, c: Codec, p: Pair, es: seq<WalEntry>)
    requires AllGood(c, es)
    ensures AllApplied(cfg, c, p, es).Ok?
    ensures AllApplied(cfg, c, p, es).value.files == Replay(p.files, Ops(c, es)) <==>
            forall i: nat :: !RefusedForGood(cfg, c, p, es, i)
  {
    hide AllApplied, RefusedIn, OpOf, Replay;
    LookAfterStartUp(cfg, c, p, es, "");
    var files, ideal := AllApplied(cfg, c, p, es).value.files, Replay(p.files, Ops(c, es));
    if forall i: nat :: !RefusedForGood(cfg, c, p, es, i) {
      forall x ensures Look(files, x) == Look(ideal, x) {
        LookAfterStartUp(cfg, c, p, es, x);
      }
      SameLooks(files, ideal);
    }
    if i: nat :| RefusedForGood(cfg, c, p, es, i) {
      LookAfterStartUp(cfg, c, p, es, OpOf(c, es[i]).Key());
    }
  }

  // ---- Entry by entry from the front ----

  lemma {:induction false} AppliedFront(cfg: Config, c: Codec, p: Pair, es: seq<WalEntry>)
    requires es != []
    ensures AllApplied(cfg, c, p, es) ==
            match Applied(cfg, c, p, es[0]) case Err => Err case Ok(p1) => AllApplied(cfg, c, p1, es[1..])
    decreases |es|
  {
    hide Applied;
    var front := es[..|es| - 1];
    if front == [] {
      assert es[1..] == [] && AllApplied(cfg, c, p, front) == Ok(p);
    } else {
      AppliedFront(cfg, c, p, front);
      assert front[1..] == es[1..][..|es[1..]| - 1];
    }
  }

  lemma RefusedLater(cfg: Config, c: Codec, p: Pair, es: seq<WalEntry>, i: nat)
    requires es != [] && Applied(cfg, c, p, es[0]).Ok?
    ensures Refused(cfg, c, p, es, i + 1) == Refused(cfg, c, Applied(cfg, c, p, es[0]).value, es[1..], i)
    ensures Refused(cfg, c, p, es, 0) == RefusedIn(cfg, c, p, es[0])
  {
    hide RefusedIn, Applied;
    assert es[..0] == [];
    if i + 1 <= |es| {
      AppliedFront(cfg, c, p, es[..i + 1]);
      assert es[..i + 1][1..] == es[1..][..i];
    }
  }

  /** The record start-up logs for the next entry, if it is a delete that fires. */
  predicate Fires(c: Codec, files: Store, e: WalEntry)
    requires Good(c, e)
  {
    OpOf(c, e).Del? && OpOf(c, e).Key() in files
  }

  function DeleteRecord(c: Codec, files: Store, e: WalEntry, no: nat): (body: seq<byte>)
    requires Good(c, e) && Fires(c, files, e)
  {
    c.encEntry(MakeEntry(c, no + 1, c.encMeta(files[OpOf(c, e).Key()]), true))
  }

  /** The octets of all the deletes start-up is going to log, from the image and the entries alone. */
  function DeleteBytes(c: Codec, files: Store, es: seq<WalEntry>, no: nat): (n: nat)
    requires AllGood(c, es)
    decreases |es|
  {
    if es == [] then 0
    else if Fires(c, files, es[0]) then
      |DeleteRecord(c, files, es[0], no)| + 4 + DeleteBytes(c, ApplyOp(files, OpOf(c, es[0])), es[1..], no + 1)
    else DeleteBytes(c, ApplyOp(files, OpOf(c, es[0])), es[1..], no)
  }

  /** Each of them has a representable length. */
  predicate DeletesFit(c: Codec, files: Store, es: seq<WalEntry>, no: nat)
    requires AllGood(c, es)
    decreases |es|
  {
    es == [] ||
    if Fires(c, files, es[0]) then
      Fits(DeleteRecord(c, files, es[0], no)) && DeletesFit(c, ApplyOp(files, OpOf(c, es[0])), es[1..], no + 1)
    else DeletesFit(c, ApplyOp(files, OpOf(c, es[0])), es[1..], no)
  }

  /** What one accepted entry makes of log and map. */
  lemma AcceptedStep(cfg: Config, c: Codec, p: Pair, e: WalEntry)
    requires Good(c, e) && !RefusedIn(cfg, c, p, e)
    ensures Applied(cfg, c, p, e).Ok?
    ensures var p1 := Applied(cfg, c, p, e).value;
            && p1.files == ApplyOp(p.files, OpOf(c, e))
            && (if Fires(c, p.files, e) then
                  var r := AppendEntry(cfg, c, p.wal, c.encMeta(p.files[OpOf(c, e).Key()]), true);
                  r.Done? && p1.wal == Flush(r.wal)
                else p1.wal == p.wal)
  {
    hide AppendEntry, Flush;
    assert OpOf(c, e).Del? && OpOf(c, e).name !in p.files ==> p.files - {OpOf(c, e).name} == p.files;
  }

  lemma RefusedFires(cfg: Config, c: Codec, p: Pair, e: WalEntry)
    requires Good(c, e)
    ensures RefusedIn(cfg, c, p, e) ==>
              && Fires(c, p.files, e)
              && AppendEntry(cfg, c, p.wal, c.encMeta(p.files[OpOf(c, e).Key()]), true).Failed?
  {
    hide AppendEntry;
  }

  lemma SmallAppend(cfg: Config, c: Codec, w: Wal, data: seq<byte>, isDelete: bool)
    requires w.curSize + |c.encEntry(MakeEntry(c, w.lastSeq + 1, data, isDelete))| + 4 < cfg.maxSize
    ensures var r := AppendEntry(cfg, c, w, data, isDelete);
            && r.Done? && r.wal.lastSeq == w.lastSeq + 1
            && r.wal.curSize == w.curSize + |c.encEntry(MakeEntry(c, w.lastSeq + 1, data, isDelete))| + 4
  {
    hide AddNewLogFile;
  }

  /** Deletes that all fit into the current segment are never refused. */
  lemma {:induction false} RoomInSegment(cfg: Config, c: Codec, p: Pair, es: seq<WalEntry>)
    requires AllGood(c, es) && p.wal.curSize + DeleteBytes(c, p.files, es, p.wal.lastSeq) < cfg.maxSize
    ensures forall i: nat :: !Refused(cfg, c, p, es, i)
    decreases |es|
  {
    hide AppendEntry, Refused, RefusedIn, Applied, OpOf, ApplyOp;
    if es == [] {
      NoneRefused(cfg, c, p);
    } else {
      if Fires(c, p.files, es[0]) {
        SmallAppend(cfg, c, p.wal, c.encMeta(p.files[OpOf(c, es[0]).Key()]), true);
      }
      RefusedFires(cfg, c, p, es[0]);
      AcceptedStep(cfg, c, p, es[0]);
      var p1 := Applied(cfg, c, p, es[0]).value;
      RoomInSegment(cfg, c, p1, es[1..]);
      RefusedNowOrLater(cfg, c, p, es);
    }
  }

  lemma NoneRefused(cfg: Config, c: Codec, p: Pair)
    ensures forall i: nat :: !Refused(cfg, c, p, [], i)
  {
  }

  lemma RefusedNowOrLater(cfg: Config, c: Codec, p: Pair, es: seq<WalEntry>)
    requires es != [] && Applied(cfg, c, p, es[0]).Ok? && !RefusedIn(cfg, c, p, es[0])
    requires forall i: nat :: !Refused(cfg, c, Applied(cfg, c, p, es[0]).value, es[1..], i)
    ensures forall i: nat :: !Refused(cfg, c, p, es, i)
  {
    hide Refused, RefusedIn, Applied;
    forall i: nat ensures !Refused(cfg, c, p, es, i) {
      RefusedLater(cfg, c, p, es, if i == 0 then 0 else i - 1);
    }
  }
}
