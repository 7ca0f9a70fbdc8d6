/** Start-up of the metadata server, from the log directory and the snapshot file. */
module MetaServer {
  import opened Results
  import opened Bytes
  import opened History
  import opened WalCodec
  import opened SnapshotFile
  import opened LogReplay
  import opened WalManager
  import opened FileStore
  import WalProtocol
  import WalSafety
  import WalTheorems
  import WalRecovery
  import WalStarted

  /** Start-up fails exactly when there is no recovered map. Otherwise the server holds that map, and its
      log has recorded the number of the snapshot file. */
  method NewMetaServer(cfg: WalLog.Config, c: Codec, segs: map<nat, seq<byte>>, snap: Option<seq<byte>>)
    returns (store: Result<MetadataStore>)
    ensures store.Ok? <==> WalRecovery.Recovered(cfg, c, segs, snap).Ok?
    ensures store.Ok? ==> store.value.files == WalRecovery.Recovered(cfg, c, segs, snap).value
    ensures store.Ok? ==> store.value.wal.cfg == cfg && store.value.wal.codec == c
    ensures store.Ok? ==>
              store.value.wal.lastSnapshot ==
              if snap.Some? && |snap.value| >= 8 then FromBigEndian(snap.value[..8]) else 0
    ensures store.Ok? == WalStarted.StartedServer(cfg, c, segs, snap).Ok?
    ensures store.Ok? ==> store.value.State() == WalStarted.StartedServer(cfg, c, segs, snap).value
  {
    hide AllApplied, WalLog.ReadAll, WalLog.LastNumber, RestoreInto;
    var w := WAL.InitWAL(cfg, c, segs);
    if w.Err? {
      return Err;
    }
    var s := new MetadataStore(w.value);
    var ok := EnableSnapshots(w.value, s, snap);
    if !ok {
      return Err;
    }
    store := Ok(s);
  }

  /** A server started on what a crash left, after any run and at any step of it: it holds exactly what
      reached the disk, unless the log refused for good a delete of its own start-up; and its log is fit to
      go on, unless such a delete was refused after its number was taken. */
  method StartAfterCrash(cfg: WalLog.Config, c: Codec, ghost evs: seq<WalProtocol.Event>,
                         segs: map<nat, seq<byte>>, snap: seq<byte>)
    returns (store: Result<MetadataStore>)
    requires WalSafety.Proper(cfg, c) && WalProtocol.Run(cfg, c, evs).Some?
    requires var st := WalTheorems.After(cfg, c, evs); segs == WalProtocol.Directory(st) && Some(snap) == st.snap
    ensures store.Ok? ==>
              (store.value.files == MapAfter(WalProtocol.Durable(cfg, c, WalTheorems.After(cfg, c, evs))) <==>
               !WalRecovery.LosesDelete(cfg, c, segs, snap))
    ensures store.Ok? && WalStarted.Bounded(cfg, c, segs, snap) ==>
              var st := WalTheorems.After(cfg, c, evs);
              var w, no := store.value.wal.State(), WalProtocol.Published(c, st.snap);
              && w.lastSnapshot == no
              && (WalStarted.GoodLog(cfg, c, w, WalStarted.StartedLayout(cfg, c, st), no) <==>
                  !WalStarted.SkipsNumber(cfg, c, segs, snap))
  {
    hide AllApplied, WalRecovery.Begun, WalStarted.GoodLog, WalStarted.Bounded, WalStarted.SkipsNumber;
    hide WalStarted.StartedLayout, WalProtocol.Published, WalProtocol.Directory, WalProtocol.LogOk, WalProtocol.Inv;
    hide WalTheorems.After, WalProtocol.Run, MapAfter, WalProtocol.Durable, WalStarted.StartedServer;
    store := NewMetaServer(cfg, c, segs, Some(snap));
    if store.Ok? {
      WalRecovery.RecoveryIsExact(cfg, c, evs);
      if WalStarted.Bounded(cfg, c, segs, snap) {
        WalStarted.StartedLogIsGoodIff(cfg, c, evs);
      }
    }
  }
}
