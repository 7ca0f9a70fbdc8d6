/** The metadata server's log, snapshots and recovery as one machine: appenders, the flush timer, the
    snapshot goroutine and crashes interleave freely, one event at a time. */
module WalProtocol {
  import opened Results
  import opened Bytes
  import opened Frames
  import opened History
  import opened WalCodec
  import opened Layout
  import opened WalLog
  import opened WalScan
  import opened SnapshotFile

  /** An appender that has written its entry and not yet updated the map: the flushDone generation it
      captured, and the update it is going to make. */
  datatype Waiter = Waiter(gen: nat, op: Op)

  /** Where the snapshot goroutine stands. */
  datatype Snapper =
    | Idle
    | Captured(no: nat, seg: nat)
    | Cloned(no: nat, seg: nat, image: seq<byte>)
    | Renamed(no: nat, seg: nat)
    | Cleaning(seg: nat)

  /** Replaying is the time between start-up and the end of restore; upto is how many entries the log
      held at start-up. */
  datatype Mode = Serving | Replaying(rest: seq<WalEntry>, no: nat, upto: nat)

  /** Halted: an append that a crash is going to cut short stands in the middle of a rotation, holding
      the log's lock; created tells whether the new file is there already, the buffer not yet flushed. */
  datatype Rotation = Complete | Halted(created: bool)

  /** snap and tmp are the published and the temporary snapshot file (an absent temporary file is
      empty). layout records which entries were written to which segment. */
  datatype Sys = Sys(wal: Wal, files: Store, snap: Option<seq<byte>>, tmp: seq<byte>,
                     pending: map<nat, Waiter>, snapper: Snapper, mode: Mode, layout: seq<seq<WalEntry>>,
                     rotation: Rotation)

  datatype Event =
    | Append(meta: FileMetadata, isDelete: bool)
    | SpillBuffer(k: nat)
    | FlushTimer
    | UpdateMap(entry: nat)
    | Capture
    | Clone(order: seq<string>)
    | WriteTmp(k: nat)
    | Rename
    | Record
    | Reclaim(seg: nat)
    | EndCleanup
    | Restart
    | ReplayNext
    | ReplayDelete
    | ReplayDeleteDone
    | EndReplay
    | ReplayRefused
    | Interrupt(meta: FileMetadata, isDelete: bool, second: bool, created: bool, k: nat)
    | InterruptReplay(second: bool, created: bool, k: nat)

  const EMPTY_DIRECTORY: Sys :=
    Sys(Wal(map[1 := []], 1, 0, 0, 0, [], 0), map[], None, [], map[], Idle, Serving, [[]], Complete)

  /** The segment files as a crash finds them: a rotation cut between creating the new file and flushing
      the buffer into the old one leaves an empty file more. */
  function Directory(st: Sys): (segs: map<nat, seq<byte>>) {
    if st.rotation == Halted(true) then st.wal.segs[st.wal.lastSeg + 1 := []] else st.wal.segs
  }

  /** The layout of what a crash leaves. */
  function Landed(c: Codec, st: Sys): (layout: seq<seq<WalEntry>>) {
    Trimmed(c, st.wal, st.layout) + if st.rotation == Halted(true) then [[]] else []
  }

  // ---- Events ----

  /** AppendEntry up to its wait: number, rotate, buffer, capture the flush generation. */
  function DoAppend(cfg: Config, c: Codec, st: Sys, meta: FileMetadata, isDelete: bool): (r: Option<Sys>) {
    var data := c.encMeta(meta);
    var w := st.wal;
    if st.rotation.Halted? || w.lastSeg + 2 >= TWO_TO_64 || w.lastSeq + 1 >= TWO_TO_64 ||
       !Fits(c.encEntry(MakeEntry(c, w.lastSeq + 1, data, isDelete))) then None
    else
      match AppendEntry(cfg, c, w, data, isDelete)
      case Failed(_) => None
      case Done(w') =>
        Some(st.(wal := w', layout := Appended(c, w, w', st.layout, data, isDelete),
                 pending := st.pending[w'.lastSeq := Waiter(w'.gen, if isDelete then Del(meta.name) else Put(meta))]))
  }

  /** One rotation up to its end, or up to the creation of the file, with k buffered bytes handed over
      to the old file. */
  function HalfRotated(cfg: Config, c: Codec, w: Wal, k: nat): (r: Option<Wal>) {
    match (if |w.segs| < cfg.maxSegs then Done(w) else Remove(c, w, Oldest(cfg, w)))
    case Failed(_) => None
    case Done(w1) => if w1.lastSeg in w1.segs && k <= |w1.buf| then Some(Spill(w1, k)) else None
  }

  /** An append that will not get to its end: it stands in its first or its second rotation. The
      number it took is only in memory. */
  function DoInterrupt(cfg: Config, c: Codec, st: Sys, meta: FileMetadata, isDelete: bool, second: bool,
                       created: bool, k: nat): (r: Option<Sys>) {
    var w := st.wal;
    var body := c.encEntry(MakeEntry(c, w.lastSeq + 1, c.encMeta(meta), isDelete));
    if st.rotation.Halted? || w.lastSeg + 2 >= TWO_TO_64 ||
       w.curSize + |body| + 4 < cfg.maxSize || (second && w.curSize < cfg.maxSize) then None
    else
      match (if second then AddNewLogFile(cfg, c, w) else Done(w))
      case Failed(_) => None
      case Done(w1) =>
        match HalfRotated(cfg, c, w1, k)
        case None => None
        case Some(w2) =>
          Some(st.(wal := w2, layout := Pad(st.layout, w1.lastSeg), rotation := Halted(created)))
  }

  function DoInterruptReplay(cfg: Config, c: Codec, st: Sys, second: bool, created: bool,
                             k: nat): (r: Option<Sys>) {
    if !FiresNext(c, st) then None
    else DoInterrupt(cfg, c, st, st.files[OpOf(c, st.mode.rest[0]).name], true, second, created, k)
  }

  /** The next replayed entry deletes a name that is there. */
  predicate FiresNext(c: Codec, st: Sys) {
    && st.mode.Replaying? && st.mode.rest != [] && st.pending == map[]
    && c.decMeta(st.mode.rest[0].data).Some?
    && var op := OpOf(c, st.mode.rest[0]); op.Del? && op.name in st.files
  }

  /** A released appender updates the map. */
  function UpdateAnyhow(st: Sys, entry: nat): (r: Option<Sys>) {
    if entry !in st.pending || st.pending[entry].gen >= st.wal.gen then None
    else Some(st.(files := ApplyOp(st.files, st.pending[entry].op), pending := st.pending - {entry}))
  }

  /** An earlier update of the same name has not reached the map yet. */
  predicate Overtakes(st: Sys, entry: nat) {
    entry in st.pending &&
    exists j :: j in st.pending && j < entry && st.pending[j].op.Key() == st.pending[entry].op.Key()
  }

  /** Updates of one name happen in log order. */
  function DoUpdate(st: Sys, entry: nat): (r: Option<Sys>) {
    if Overtakes(st, entry) then None else UpdateAnyhow(st, entry)
  }

  /** The clone waits for no one. */
  ghost function CloneAnyhow(c: Codec, st: Sys, order: seq<string>): (r: Option<Sys>) {
    if !st.snapper.Captured? || !Enumerates(order, st.files) || !AllFit(Records(c, Listed(st.files, order))) then None
    else
      Some(st.(snapper := Cloned(st.snapper.no, st.snapper.seg,
                                 Image(c, st.snapper.no, Listed(st.files, order)))))
  }

  /** An entry up to the captured number is still on its way to the map. */
  predicate Hasty(st: Sys) {
    st.snapper.Captured? && exists j :: j in st.pending && j <= st.snapper.no
  }

  ghost function DoClone(c: Codec, st: Sys, order: seq<string>): (r: Option<Sys>) {
    if Hasty(st) then None else CloneAnyhow(c, st, order)
  }

  /** Part of the intended contents reaches the temporary file, which nobody truncated. */
  function DoWriteTmp(st: Sys, k: nat): (r: Option<Sys>) {
    match st.snapper
    case Captured(no, _) => if k <= 8 then Some(st.(tmp := Overlay(BigEndian(no, 8)[..k], st.tmp))) else None
    case Cloned(_, _, image) => if k <= |image| then Some(st.(tmp := Overlay(image[..k], st.tmp))) else None
    case _ => None
  }

  function RenameAnyhow(st: Sys): (r: Option<Sys>) {
    if !st.snapper.Cloned? then None
    else
      Some(st.(snap := Some(Overlay(st.snapper.image, st.tmp)), tmp := [],
               snapper := Renamed(st.snapper.no, st.snapper.seg)))
  }

  /** A longer temporary file than the image was left behind. */
  predicate Cluttered(st: Sys) {
    st.snapper.Cloned? && |st.tmp| > |st.snapper.image|
  }

  function DoRename(st: Sys): (r: Option<Sys>) {
    if Cluttered(st) then None else RenameAnyhow(st)
  }

  function DoReclaim(c: Codec, st: Sys, seg: nat): (r: Option<Sys>) {
    if !st.snapper.Cleaning? || seg >= st.snapper.seg then None
    else
      match Remove(c, st.wal, seg)
      case Failed(_) => Some(st.(snapper := Idle))
      case Done(w) => Some(st.(wal := w))
  }

  ghost predicate NothingToRecover(c: Codec, st: Sys) {
    && 1 <= st.wal.lastSeg == |st.layout| && st.wal.lastSeg in st.wal.segs
    && AllGood(c, Survived(st.wal, st.layout))
    && MapAfter(Ops(c, Survived(st.wal, st.layout))) == map[]
  }

  /** A crash at any moment, then start-up from the directory alone: InitWAL, the snapshot file, and
      the scan of every segment. Without a snapshot file nothing is replayed. */
  ghost function StartUp(cfg: Config, c: Codec, st: Sys): (r: Option<Sys>) {
    match InitWal(cfg, c, Directory(st))
    case Err => None
    case Ok(w) =>
      var layout := Landed(c, st);
      match st.snap
      case None => Some(Sys(w, map[], None, st.tmp, map[], Idle, Serving, layout, Complete))
      case Some(f) =>
        match DecodeSnapshot(c, f)
        case Err => None
        case Ok((no, img)) =>
          match ReadAll(c, w.segs, w.lastSeg, w.lastSeq)
          case Err => None
          case Ok(es) =>
            Some(Sys(w, img, st.snap, st.tmp, map[], Idle, Replaying(es, no, w.lastSeq), layout, Complete))
  }

  /** The condition on a restart: without a snapshot file there is nothing to replay; with one, the
      retained log revives no deleted name. */
  ghost predicate Recoverable(c: Codec, st: Sys, st': Sys) {
    match st'.mode
    case Serving => NothingToRecover(c, st)
    case Replaying(es, _, _) => AllGood(c, es) && !Revives(st'.files, Ops(c, es))
  }

  ghost function DoRestart(cfg: Config, c: Codec, st: Sys): (r: Option<Sys>) {
    match StartUp(cfg, c, st)
    case None => None
    case Some(st') => if Recoverable(c, st, st') then Some(st') else None
  }

  /** The next replayed entry is an add, or a delete of a name that is not there. */
  function DoReplayNext(c: Codec, st: Sys): (r: Option<Sys>) {
    if !st.mode.Replaying? || st.mode.rest == [] || st.pending != map[] ||
       c.decMeta(st.mode.rest[0].data).None? then None
    else
      var op := OpOf(c, st.mode.rest[0]);
      if op.Del? && op.name in st.files then None
      else Some(st.(files := ApplyOp(st.files, op), mode := st.mode.(rest := st.mode.rest[1..])))
  }

  /** The next replayed entry deletes a name that is there: the store logs that delete again. */
  function DoReplayDelete(cfg: Config, c: Codec, st: Sys): (r: Option<Sys>) {
    if !FiresNext(c, st) then None else DoAppend(cfg, c, st, st.files[OpOf(c, st.mode.rest[0]).name], true)
  }

  /** The log refuses that delete: the error is swallowed, the name stays, and replay goes on. */
  function DoReplayRefused(cfg: Config, c: Codec, st: Sys): (r: Option<Sys>) {
    if !FiresNext(c, st) || st.wal.lastSeg + 2 >= TWO_TO_64 || st.wal.lastSeq + 1 >= TWO_TO_64 then None
    else
      match AppendEntry(cfg, c, st.wal, c.encMeta(st.files[OpOf(c, st.mode.rest[0]).name]), true)
      case Done(_) => None
      case Failed(w) =>
        Some(st.(wal := w, layout := Pad(st.layout, w.lastSeg), mode := st.mode.(rest := st.mode.rest[1..])))
  }

  /** Its flush is over: the name leaves the map and replay goes on. */
  function DoReplayDeleteDone(st: Sys): (r: Option<Sys>) {
    if !st.mode.Replaying? || st.mode.rest == [] then None
    else
      match DoUpdate(st, st.wal.lastSeq)
      case None => None
      case Some(st') => Some(st'.(mode := st.mode.(rest := st.mode.rest[1..])))
  }

  /** One step that meets its conditions. */
  ghost function Step(cfg: Config, c: Codec, st: Sys, ev: Event): (r: Option<Sys>) {
    match ev
    case Append(meta, isDelete) => if st.mode.Serving? then DoAppend(cfg, c, st, meta, isDelete) else None
    case SpillBuffer(k) =>
      if st.wal.lastSeg in st.wal.segs && k <= |st.wal.buf| then Some(st.(wal := Spill(st.wal, k))) else None
    case FlushTimer => Some(st.(wal := Flush(st.wal)))
    case UpdateMap(entry) => if st.mode.Serving? then DoUpdate(st, entry) else None
    case Capture =>
      if st.mode.Serving? && st.snapper.Idle?
      then Some(st.(snapper := Captured(st.wal.lastSeq, st.wal.lastSeg))) else None
    case Clone(order) => DoClone(c, st, order)
    case WriteTmp(k) => DoWriteTmp(st, k)
    case Rename => DoRename(st)
    case Record =>
      if st.snapper.Renamed?
      then Some(st.(wal := st.wal.(lastSnapshot := st.snapper.no), snapper := Cleaning(st.snapper.seg))) else None
    case Reclaim(seg) => DoReclaim(c, st, seg)
    case EndCleanup => if st.snapper.Cleaning? then Some(st.(snapper := Idle)) else None
    case Restart => DoRestart(cfg, c, st)
    case ReplayNext => DoReplayNext(c, st)
    case ReplayDelete => DoReplayDelete(cfg, c, st)
    case ReplayDeleteDone => DoReplayDeleteDone(st)
    case EndReplay =>
      if st.mode.Replaying? && st.mode.rest == [] && st.pending == map[]
      then Some(st.(wal := st.wal.(lastSnapshot := st.mode.no), mode := Serving)) else None
    case ReplayRefused => None
    case Interrupt(meta, isDelete, second, created, k) =>
      if st.mode.Serving? then DoInterrupt(cfg, c, st, meta, isDelete, second, created, k) else None
    case InterruptReplay(second, created, k) => DoInterruptReplay(cfg, c, st, second, created, k)
  }

  /** What goes on without the log's lock, and without a replay that waits for it. */
  predicate NeedsNoLock(ev: Event) {
    ev.UpdateMap? || ev.Clone? || ev.WriteTmp? || ev.Rename? || ev.Record? || ev.EndCleanup? || ev.Restart?
  }

  ghost function Next(cfg: Config, c: Codec, st: Sys, ev: Event): (r: Option<Sys>) {
    if st.rotation.Halted? && !NeedsNoLock(ev) then None else Step(cfg, c, st, ev)
  }

  /** The state after a run of events from an empty directory, or None if some event was not possible. */
  ghost function Run(cfg: Config, c: Codec, evs: seq<Event>): (r: Option<Sys>) {
    if evs == [] then Some(EMPTY_DIRECTORY)
    else
      match Run(cfg, c, evs[..|evs| - 1])
      case None => None
      case Some(st) => Next(cfg, c, st, evs[|evs| - 1])
  }

  /** The code's own steps, whether or not they meet the conditions. */
  ghost function FreeStep(cfg: Config, c: Codec, st: Sys, ev: Event): (r: Option<Sys>) {
    match ev
    case UpdateMap(entry) => if st.mode.Serving? then UpdateAnyhow(st, entry) else None
    case Clone(order) => CloneAnyhow(c, st, order)
    case Rename => RenameAnyhow(st)
    case Restart => StartUp(cfg, c, st)
    case ReplayRefused => DoReplayRefused(cfg, c, st)
    case _ => Step(cfg, c, st, ev)
  }

  ghost function FreeNext(cfg: Config, c: Codec, st: Sys, ev: Event): (r: Option<Sys>) {
    if st.rotation.Halted? && !NeedsNoLock(ev) then None else FreeStep(cfg, c, st, ev)
  }

  ghost function RunFreely(cfg: Config, c: Codec, st: Sys, evs: seq<Event>): (r: Option<Sys>) {
    if evs == [] then Some(st)
    else
      match RunFreely(cfg, c, st, evs[..|evs| - 1])
      case None => None
      case Some(st') => FreeNext(cfg, c, st', evs[|evs| - 1])
  }

  // ---- Invariant ----

  ghost predicate LogOk(cfg: Config, c: Codec, st: Sys) {
    && Shape(cfg, c, st.wal, st.layout)
    && st.wal.lastSeq == |Flat(st.layout)|
    && st.wal.lastSeg < TWO_TO_64 && st.wal.lastSeq < TWO_TO_64
    && (st.rotation == Halted(true) ==> st.wal.lastSeg + 1 < TWO_TO_64)
    && |Survived(st.wal, st.layout)| <= |Flat(st.layout)|
    && Survived(st.wal, st.layout) <= Flat(st.layout)
  }

  /** Every operation logged so far, flushed or not. */
  ghost function Logged(cfg: Config, c: Codec, st: Sys): (ops: seq<Op>)
    requires LogOk(cfg, c, st)
  {
    Ops(c, Flat(st.layout))
  }

  /** The operations whose entries are whole on disk, or were reclaimed. */
  ghost function Durable(cfg: Config, c: Codec, st: Sys): (ops: seq<Op>)
    requires LogOk(cfg, c, st)
    ensures ops <= Logged(cfg, c, st)
  {
    Ops(c, Survived(st.wal, st.layout))
  }

  /** The number in the published snapshot file, 0 without one. */
  function Published(c: Codec, snap: Option<seq<byte>>): (no: nat) {
    if snap.Some? && DecodeSnapshot(c, snap.value).Ok? then DecodeSnapshot(c, snap.value).value.0 else 0
  }

  /** A snapshot file that decodes to an image at least as new as its number. */
  ghost predicate GoodImage(c: Codec, durable: seq<Op>, f: seq<byte>) {
    match DecodeSnapshot(c, f)
    case Err => false
    case Ok((no, img)) => no <= |durable| && Fresh(durable, no, img) && KeysMatch(img)
  }

  ghost predicate SnapOk(c: Codec, durable: seq<Op>, snap: Option<seq<byte>>) {
    snap.Some? ==> GoodImage(c, durable, snap.value)
  }

  ghost predicate ReclaimOk(c: Codec, st: Sys) {
    Covered(st.wal.segs.Keys, st.layout, Published(c, st.snap)) && st.wal.lastSnapshot <= Published(c, st.snap)
  }

  /** Whoever is not waiting is durable; whoever's captured generation is closed is durable too. */
  ghost predicate WaitersOk(ops: seq<Op>, durable: nat, gen: nat, pending: map<nat, Waiter>) {
    && (forall j :: j in pending ==>
         && 1 <= j <= |ops| && pending[j].op == ops[j - 1] && pending[j].gen <= gen
         && (pending[j].gen < gen ==> j <= durable))
    && (forall j :: 1 <= j <= |ops| && j !in pending ==> j <= durable)
  }

  /** Of the operations on x exactly the first p have reached the map. */
  ghost predicate Splits(ops: seq<Op>, waiting: set<nat>, x: string, p: nat) {
    p <= |ops| && forall i :: 0 <= i < |ops| && ops[i].Key() == x ==> (i < p <==> i + 1 !in waiting)
  }

  ghost predicate Settled(ops: seq<Op>, waiting: set<nat>, files: Store, x: string) {
    exists p: nat :: Splits(ops, waiting, x, p) && Look(files, x) == Look(MapAfter(ops[..p]), x)
  }

  ghost predicate MapOk(ops: seq<Op>, waiting: set<nat>, files: Store) {
    forall x :: Settled(ops, waiting, files, x)
  }

  /** Replaying the rest ends in the map the log meant at start-up; every delete logged meanwhile
      names something that map does not have. */
  ghost predicate ReplayOk(c: Codec, ops: seq<Op>, files: Store, pending: map<nat, Waiter>, rest: seq<WalEntry>,
                           upto: nat) {
    && upto <= |ops| && AllGood(c, rest)
    && !Revives(files, Ops(c, rest))
    && Replay(files, Ops(c, rest)) == MapAfter(ops[..upto])
    && (forall i :: upto <= i < |ops| ==> ops[i].Del? && ops[i].name !in MapAfter(ops[..upto]))
    && (pending == map[] ||
        (pending.Keys == {|ops|} && rest != [] && pending[|ops|].op == OpOf(c, rest[0]) && pending[|ops|].op.Del?))
  }

  ghost predicate SnapperOk(c: Codec, durable: seq<Op>, st: Sys) {
    match st.snapper
    case Idle => true
    case Captured(no, seg) => Published(c, st.snap) <= no <= st.wal.lastSeq && seg <= st.wal.lastSeg
    case Cloned(no, seg, image) =>
      && GoodImage(c, durable, image) && DecodeSnapshot(c, image).value.0 == no
      && Published(c, st.snap) <= no && seg <= st.wal.lastSeg
    case Renamed(no, seg) => st.snap.Some? && no == Published(c, st.snap) && seg <= st.wal.lastSeg
    case Cleaning(seg) => seg <= st.wal.lastSeg
  }

  ghost predicate Core(cfg: Config, c: Codec, st: Sys) {
    && LogOk(cfg, c, st)
    && SnapOk(c, Durable(cfg, c, st), st.snap)
    && ReclaimOk(c, st)
    && WaitersOk(Logged(cfg, c, st), |Durable(cfg, c, st)|, st.wal.gen, st.pending)
    && SnapperOk(c, Durable(cfg, c, st), st)
    && KeysMatch(st.files)
  }

  ghost predicate ModeOk(cfg: Config, c: Codec, st: Sys)
    requires LogOk(cfg, c, st)
  {
    match st.mode
    case Serving => MapOk(Logged(cfg, c, st), st.pending.Keys, st.files)
    case Replaying(rest, no, upto) =>
      && ReplayOk(c, Logged(cfg, c, st), st.files, st.pending, rest, upto)
      && st.snapper.Idle? && st.snap.Some? && no == Published(c, st.snap)
  }

  ghost predicate Inv(cfg: Config, c: Codec, st: Sys) {
    Core(cfg, c, st) && ModeOk(cfg, c, st)
  }
}
