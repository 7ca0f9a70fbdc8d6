/** What clients and the directory can show: conditions on a run that a caller can check, under which
    every start-up of the run gives back what was on disk. */
module WalClients {
  import opened Results
  import opened Frames
  import opened History
  import opened WalCodec
  import opened Layout
  import opened WalLog
  import opened WalScan
  import opened SnapshotFile
  import opened WalRoom
  import opened WalProtocol
  import opened WalSafety
  import opened WalTheorems
  import opened WalRecovery
  import opened WalStability

  predicate DeletesOf(evs: seq<Event>, x: string) {
    exists i :: 0 <= i < |evs| && evs[i].Append? && evs[i].isDelete && evs[i].meta.name == x
  }

  /** No client adds a name after some client deleted it. */
  predicate ClientsNeverReadd(evs: seq<Event>) {
    forall i, k :: 0 <= i < k < |evs| && evs[i].Append? && evs[i].isDelete && evs[k].Append? && !evs[k].isDelete ==>
                     evs[i].meta.name != evs[k].meta.name
  }

  /** The program does not crash before its first snapshot is published. */
  predicate PublishesFirst(evs: seq<Event>) {
    forall k :: 0 <= k < |evs| && evs[k].Restart? ==> Rename in evs[..k]
  }

  /** The conditions on single steps: updates of one name in log order, no clone while an entry up to its
      number is on its way to the map, no longer temporary snapshot left behind, and a directory with
      room at a restart. */
  ghost predicate InOrder(cfg: Config, st: Sys, ev: Event) {
    match ev
    case UpdateMap(entry) => !Overtakes(st, entry)
    case Clone(_) => !Hasty(st)
    case Rename => !Cluttered(st)
    case Restart => HasRoom(cfg, Directory(st))
    case _ => true
  }

  ghost predicate Orderly(cfg: Config, c: Codec, evs: seq<Event>) {
    forall k :: 0 <= k < |evs| && RunFreely(cfg, c, EMPTY_DIRECTORY, evs[..k]).Some? ==>
                  InOrder(cfg, RunFreely(cfg, c, EMPTY_DIRECTORY, evs[..k]).value, evs[k])
  }

  ghost predicate DeletesKnown(evs: seq<Event>, ops: seq<Op>) {
    forall i :: 0 <= i < |ops| && ops[i].Del? ==> DeletesOf(evs, ops[i].name)
  }

  /** The log, and what is left of a replay, delete only what clients deleted. */
  ghost predicate Tame(cfg: Config, c: Codec, evs: seq<Event>, st: Sys)
    requires LogOk(cfg, c, st)
  {
    && NeverReadds(Logged(cfg, c, st)) && DeletesKnown(evs, Logged(cfg, c, st))
    && (st.mode.Replaying? ==> AllGood(c, st.mode.rest) && DeletesKnown(evs, Ops(c, st.mode.rest)))
    && (Rename in evs ==> st.snap.Some?)
  }

  lemma MoreDeletes(evs: seq<Event>, ev: Event, ops: seq<Op>)
    requires DeletesKnown(evs, ops)
    ensures DeletesKnown(evs + [ev], ops)
  {
    forall i | 0 <= i < |ops| && ops[i].Del? ensures DeletesOf(evs + [ev], ops[i].name) {
      assert DeletesOf(evs, ops[i].name);
      var k :| 0 <= k < |evs| && evs[k].Append? && evs[k].isDelete && evs[k].meta.name == ops[i].name;
      assert (evs + [ev])[k] == evs[k];
    }
  }

  lemma ClientAppendIsTame(evs: seq<Event>, meta: FileMetadata, isDelete: bool, ops: seq<Op>)
    requires NeverReadds(ops) && DeletesKnown(evs, ops) && ClientsNeverReadd(evs + [Append(meta, isDelete)])
    ensures NeverReadds(ops + [NewOp(meta, isDelete)])
    ensures DeletesKnown(evs + [Append(meta, isDelete)], ops + [NewOp(meta, isDelete)])
  {
    var ev, op := Append(meta, isDelete), NewOp(meta, isDelete);
    MoreDeletes(evs, ev, ops);
    if isDelete {
      assert (evs + [ev])[|evs|] == ev;
      assert DeletesOf(evs + [ev], meta.name);
    } else {
      forall i | 0 <= i < |ops| && ops[i].Del? ensures ops[i].Key() != op.Key() {
        assert DeletesOf(evs, ops[i].name);
        var k :| 0 <= k < |evs| && evs[k].Append? && evs[k].isDelete && evs[k].meta.name == ops[i].name;
        assert (evs + [ev])[k] == evs[k] && (evs + [ev])[|evs|] == ev;
      }
    }
  }

  lemma TameAppend(cfg: Config, c: Codec, evs: seq<Event>, st: Sys, meta: FileMetadata, isDelete: bool, st': Sys)
    requires Proper(cfg, c) && Inv(cfg, c, st) && LogOk(cfg, c, st) && LogOk(cfg, c, st')
    requires Tame(cfg, c, evs, st) && st.mode.Serving? && DoAppend(cfg, c, st, meta, isDelete) == Some(st')
    requires ClientsNeverReadd(evs + [Append(meta, isDelete)])
    ensures Tame(cfg, c, evs + [Append(meta, isDelete)], st')
  {
    hide LogOk, Logged, AppendEntry, Appended, NeverReadds, DeletesKnown, ClientsNeverReadd;
    AppendLogs(cfg, c, st, meta, isDelete, st');
    ClientAppendIsTame(evs, meta, isDelete, Logged(cfg, c, st));
  }

  lemma TameReplayDelete(cfg: Config, c: Codec, evs: seq<Event>, st: Sys, st': Sys)
    requires Proper(cfg, c) && Inv(cfg, c, st) && LogOk(cfg, c, st) && LogOk(cfg, c, st')
    requires Tame(cfg, c, evs, st) && DoReplayDelete(cfg, c, st) == Some(st')
    ensures Tame(cfg, c, evs + [ReplayDelete], st')
  {
    var op := OpOf(c, st.mode.rest[0]);
    hide LogOk, Logged, AppendEntry, Appended, SnapOk, ReclaimOk, WaitersOk, SnapperOk, ReplayOk, Published,
         DeletesKnown;
    hide AllGood, Durable, NeverReadds, ModeOk, Fits;
    AppendLogs(cfg, c, st, st.files[op.name], true, st');
    MatchingKey(st.files, op.name);
    ReplayedDeleteIsTame(c, evs, st.mode.rest, Logged(cfg, c, st));
    assert Rename in evs + [ReplayDelete] ==> Rename in evs;
  }

  lemma ReplayedDeleteIsTame(c: Codec, evs: seq<Event>, rest: seq<WalEntry>, ops: seq<Op>)
    requires rest != [] && AllGood(c, rest) && OpOf(c, rest[0]).Del?
    requires NeverReadds(ops) && DeletesKnown(evs, ops) && DeletesKnown(evs, Ops(c, rest))
    ensures NeverReadds(ops + [OpOf(c, rest[0])])
    ensures DeletesKnown(evs + [ReplayDelete], ops + [OpOf(c, rest[0])])
    ensures DeletesKnown(evs + [ReplayDelete], Ops(c, rest))
  {
    var op, all := OpOf(c, rest[0]), Ops(c, rest);
    assert all[0] == op;
    hide OpOf, DeletesOf, AllGood;
    MoreDeletes(evs, ReplayDelete, all);
    MoreDeletes(evs, ReplayDelete, ops);
    assert DeletesOf(evs + [ReplayDelete], all[0].name);
  }

  lemma NeverReaddsPart(ops: seq<Op>, j: nat, n: nat)
    requires NeverReadds(ops) && j <= n <= |ops|
    ensures NeverReadds(ops[j..n])
  {
  }

  lemma DeletesKnownPart(evs: seq<Event>, ops: seq<Op>, j: nat, n: nat)
    requires DeletesKnown(evs, ops) && j <= n <= |ops|
    ensures DeletesKnown(evs, ops[j..n])
  {
  }

  /** A start-up after a published snapshot meets the condition. */
  lemma TameRestart(cfg: Config, c: Codec, evs: seq<Event>, st: Sys, st': Sys)
    requires Proper(cfg, c) && Inv(cfg, c, st) && LogOk(cfg, c, st)
    requires Tame(cfg, c, evs, st) && StartUp(cfg, c, st) == Some(st') && Rename in evs
    ensures DoRestart(cfg, c, st) == Some(st')
    ensures Inv(cfg, c, st') && LogOk(cfg, c, st') && Tame(cfg, c, evs + [Restart], st')
  {
    hide LogOk, Logged, Durable, InitWal, ReadAll, DecodeSnapshot, Landed, Core, ModeOk, Revives, AllGood, Directory;
    hide DeletesKnown, NeverReadds;
    var j := ScanOfRestart(cfg, c, st, st');
    ScannedOps(cfg, c, st, j);
    DurableIsCut(cfg, c, st);
    var ops, n := Logged(cfg, c, st), |Durable(cfg, c, st)|;
    assert ops[..n][j..] == ops[j..n] && ops[..n] == ops[0..n];
    NeverReaddsPart(ops, j, n);
    NeverReaddsPart(ops, 0, n);
    DeletesKnownPart(evs, ops, j, n);
    DeletesKnownPart(evs, ops, 0, n);
    MoreDeletes(evs, Restart, ops[j..n]);
    MoreDeletes(evs, Restart, ops[0..n]);
    NeverReaddingRevivesNothing(st'.files, ops[j..n]);
    RestartStep(cfg, c, st, st');
    CoreHasLog(cfg, c, st');
  }

  /** Steps that neither log anything nor start up. */
  lemma QuietStep(cfg: Config, c: Codec, st: Sys, ev: Event, st': Sys)
    requires Next(cfg, c, st, ev) == Some(st') && !ev.Append? && !ev.Restart? && !ev.ReplayDelete?
    requires !ev.Interrupt? && !ev.InterruptReplay?
    ensures st'.layout == st.layout && (st'.snap == st.snap || st'.snap.Some?) && (ev.Rename? ==> st'.snap.Some?)
    ensures st'.mode.Replaying? ==>
              st.mode.Replaying? && (st'.mode.rest == st.mode.rest ||
                                     (st.mode.rest != [] && st'.mode.rest == st.mode.rest[1..]))
  {
    hide Flush, Spill, Remove, Overlay, Image, ApplyOp, OpOf;
  }

  lemma TameQuietly(cfg: Config, c: Codec, evs: seq<Event>, st: Sys, ev: Event, st': Sys)
    requires LogOk(cfg, c, st) && LogOk(cfg, c, st') && Tame(cfg, c, evs, st)
    requires Next(cfg, c, st, ev) == Some(st') && !ev.Append? && !ev.Restart? && !ev.ReplayDelete?
    requires !ev.Interrupt? && !ev.InterruptReplay?
    ensures Tame(cfg, c, evs + [ev], st')
  {
    QuietStep(cfg, c, st, ev, st');
    hide Next, Shape, Survived, Flat, NeverReadds, DeletesKnown, Good;
    MoreDeletes(evs, ev, Logged(cfg, c, st));
    if st'.mode.Replaying? {
      MoreDeletes(evs, ev, Ops(c, st.mode.rest));
      if st'.mode.rest != st.mode.rest {
        RestDeletesKnown(c, evs + [ev], st.mode.rest);
      }
    }
  }

  lemma RestDeletesKnown(c: Codec, evs: seq<Event>, rest: seq<WalEntry>)
    requires rest != [] && AllGood(c, rest) && DeletesKnown(evs, Ops(c, rest))
    ensures AllGood(c, rest[1..]) && DeletesKnown(evs, Ops(c, rest[1..]))
  {
    hide DeletesKnown, Good;
    var ops := Ops(c, rest);
    OpsDrop(c, rest, 1);
    assert ops[1..] == ops[1..|ops|];
    DeletesKnownPart(evs, ops, 1, |ops|);
  }

  /** An append that is cut short logs nothing. */
  lemma TameInterrupt(cfg: Config, c: Codec, evs: seq<Event>, st: Sys, ev: Event, st': Sys)
    requires Proper(cfg, c) && Inv(cfg, c, st) && LogOk(cfg, c, st) && LogOk(cfg, c, st') && Tame(cfg, c, evs, st)
    requires (ev.Interrupt? || ev.InterruptReplay?) && Next(cfg, c, st, ev) == Some(st')
    ensures Tame(cfg, c, evs + [ev], st')
  {
    InterruptCarries(cfg, c, st, ev, st');
    hide Inv, Shape, Survived, Flat, NeverReadds, DeletesKnown, Next, Good;
    assert Logged(cfg, c, st') == Logged(cfg, c, st);
    MoreDeletes(evs, ev, Logged(cfg, c, st));
    if st'.mode.Replaying? {
      MoreDeletes(evs, ev, Ops(c, st.mode.rest));
    }
  }

  lemma InterruptCarries(cfg: Config, c: Codec, st: Sys, ev: Event, st': Sys)
    requires Proper(cfg, c) && Inv(cfg, c, st) && LogOk(cfg, c, st) && LogOk(cfg, c, st')
    requires (ev.Interrupt? || ev.InterruptReplay?) && Next(cfg, c, st, ev) == Some(st')
    ensures Flat(st'.layout) == Flat(st.layout) && st'.mode == st.mode && st'.snap == st.snap
  {
    hide Inv, LogOk, Flat, Survived, DoInterrupt, OpOf;
    if ev.Interrupt? {
      InterruptStep(cfg, c, st, ev.meta, ev.isDelete, ev.second, ev.created, ev.k, st');
    } else {
      InterruptReplayCarries(cfg, c, st, ev, st');
    }
  }

  /** A replay that is under way has room. */
  ghost predicate ReplayHasRoom(cfg: Config, c: Codec, st: Sys)
    requires LogOk(cfg, c, st)
  {
    st.mode.Replaying? ==> exists t :: Roomy(cfg, c, st, t)
  }

  /** A step that is in order is a step of the machine. */
  lemma InOrderIsNext(cfg: Config, c: Codec, st: Sys, ev: Event, st': Sys)
    requires FreeNext(cfg, c, st, ev) == Some(st') && InOrder(cfg, st, ev) && !ev.Restart? && !ev.ReplayRefused?
    ensures Next(cfg, c, st, ev) == Some(st')
  {
    hide DoAppend, UpdateAnyhow, CloneAnyhow, RenameAnyhow, DoReplayDelete, DoReplayDeleteDone, DoInterrupt;
    hide DoInterruptReplay, Flush, Spill, HasRoom;
  }

  lemma OnlyRecoveryWhileReplaying(cfg: Config, c: Codec, st: Sys, ev: Event, st': Sys)
    requires Inv(cfg, c, st) && st.mode.Replaying? && Next(cfg, c, st, ev) == Some(st')
    ensures RecoveryEvent(ev)
  {
    hide Core, LogOk, ReplayOk, Logged, DoReplayDelete, DoReplayDeleteDone, DoInterruptReplay, DoRestart;
    hide DoAppend, DoInterrupt;
    assert st.snapper.Idle?;
  }

  lemma StaysServing(cfg: Config, c: Codec, st: Sys, ev: Event, st': Sys)
    requires Next(cfg, c, st, ev) == Some(st') && !ev.Restart? && st'.mode.Replaying?
    ensures st.mode.Replaying?
  {
    hide AppendEntry, Flush, Spill, Remove, Overlay, Image, ApplyOp, OpOf, AddNewLogFile, HalfRotated;
  }

  lemma RoomStep(cfg: Config, c: Codec, st: Sys, ev: Event, st': Sys)
    requires Proper(cfg, c) && Inv(cfg, c, st) && LogOk(cfg, c, st) && ReplayHasRoom(cfg, c, st)
    requires Next(cfg, c, st, ev) == Some(st') && InOrder(cfg, st, ev) && LogOk(cfg, c, st')
    ensures ReplayHasRoom(cfg, c, st')
  {
    hide Proper, Inv, LogOk, Roomy, HasRoom, DoRestart;
    if st'.mode.Replaying? {
      if ev.Restart? {
        RestartIsNext(cfg, c, st, st');
        var t := FirstRestartIsRoomy(cfg, c, st, st');
      } else {
        hide Next;
        StaysServing(cfg, c, st, ev, st');
        OnlyRecoveryWhileReplaying(cfg, c, st, ev, st');
        var t :| Roomy(cfg, c, st, t);
        RoomyStep(cfg, c, st, ev, st', t);
      }
    }
  }

  /** With room no delete is refused. */
  lemma NoneRefusedWithRoom(cfg: Config, c: Codec, st: Sys)
    requires Proper(cfg, c) && Inv(cfg, c, st) && LogOk(cfg, c, st) && ReplayHasRoom(cfg, c, st)
    ensures FreeNext(cfg, c, st, ReplayRefused).None?
  {
    hide Proper, Inv, LogOk, Roomy, AppendEntry, OpOf;
    if st.mode.Replaying? {
      var t :| Roomy(cfg, c, st, t);
      RoomyNeverRefuses(cfg, c, st, t);
    }
  }

  lemma TameStep(cfg: Config, c: Codec, evs: seq<Event>, st: Sys, ev: Event, st': Sys)
    requires Proper(cfg, c) && Inv(cfg, c, st) && LogOk(cfg, c, st) && Tame(cfg, c, evs, st)
    requires ReplayHasRoom(cfg, c, st) && InOrder(cfg, st, ev)
    requires FreeNext(cfg, c, st, ev) == Some(st') && ClientsNeverReadd(evs + [ev]) && (ev.Restart? ==> Rename in evs)
    ensures Next(cfg, c, st, ev) == Some(st')
    ensures Inv(cfg, c, st') && LogOk(cfg, c, st') && Tame(cfg, c, evs + [ev], st') && ReplayHasRoom(cfg, c, st')
  {
    hide LogOk, Tame, DoAppend, StartUp, Recoverable, DoReplayDelete, Inv, Proper, ClientsNeverReadd;
    hide ReplayHasRoom, InOrder, DoInterrupt, FiresNext, Flush, Spill, CloneAnyhow, RenameAnyhow, UpdateAnyhow;
    NoneRefusedWithRoom(cfg, c, st);
    if ev.Restart? {
      TameRestart(cfg, c, evs, st, st');
    } else {
      InOrderIsNext(cfg, c, st, ev, st');
      StepKeepsInv(cfg, c, st, ev, st');
      InvGivesLog(cfg, c, st');
      if ev.Append? {
        TameAppend(cfg, c, evs, st, ev.meta, ev.isDelete, st');
      } else if ev.ReplayDelete? {
        TameReplayDelete(cfg, c, evs, st, st');
      } else if ev.Interrupt? || ev.InterruptReplay? {
        TameInterrupt(cfg, c, evs, st, ev, st');
      } else {
        TameQuietly(cfg, c, evs, st, ev, st');
      }
    }
    RoomStep(cfg, c, st, ev, st');
  }

  lemma FreshDirectoryIsTame(cfg: Config, c: Codec)
    requires Proper(cfg, c)
    ensures Inv(cfg, c, EMPTY_DIRECTORY) && LogOk(cfg, c, EMPTY_DIRECTORY) && Tame(cfg, c, [], EMPTY_DIRECTORY)
  {
    FreshDirectoryIsGood(cfg, c);
    FlatEmptySegment([]);
    assert [] + [[]] == EMPTY_DIRECTORY.layout;
  }

  lemma OrderlyFront(cfg: Config, c: Codec, evs: seq<Event>)
    requires evs != [] && Orderly(cfg, c, evs) && ClientsNeverReadd(evs) && PublishesFirst(evs)
    ensures var front, last := evs[..|evs| - 1], evs[|evs| - 1];
            && evs == front + [last]
            && Orderly(cfg, c, front) && ClientsNeverReadd(front) && PublishesFirst(front)
            && (last.Restart? ==> Rename in front)
            && (RunFreely(cfg, c, EMPTY_DIRECTORY, front).Some? ==>
                  InOrder(cfg, RunFreely(cfg, c, EMPTY_DIRECTORY, front).value, last))
  {
    hide RunFreely, InOrder;
    var front := evs[..|evs| - 1];
    assert forall k :: 0 <= k < |front| ==> front[k] == evs[k] && front[..k] == evs[..k];
  }

  lemma {:induction false} FreeRunsAreTame(cfg: Config, c: Codec, evs: seq<Event>)
    requires Proper(cfg, c) && RunFreely(cfg, c, EMPTY_DIRECTORY, evs).Some?
    requires ClientsNeverReadd(evs) && PublishesFirst(evs) && Orderly(cfg, c, evs)
    ensures Run(cfg, c, evs) == RunFreely(cfg, c, EMPTY_DIRECTORY, evs)
    ensures var st := Run(cfg, c, evs).value;
            Inv(cfg, c, st) && LogOk(cfg, c, st) && Tame(cfg, c, evs, st) && ReplayHasRoom(cfg, c, st)
  {
    hide Inv, LogOk, Tame, Next, FreeNext, Proper, Orderly, ClientsNeverReadd, PublishesFirst, InOrder, Roomy;
    if evs == [] {
      FreshDirectoryIsTame(cfg, c);
    } else {
      var front, last := evs[..|evs| - 1], evs[|evs| - 1];
      OrderlyFront(cfg, c, evs);
      FreeRunsAreTame(cfg, c, front);
      TameStep(cfg, c, front, Run(cfg, c, front).value, last, RunFreely(cfg, c, EMPTY_DIRECTORY, evs).value);
    }
  }

  /** What can be seen from outside is enough: if no client adds a name again that a client deleted, no
      crash comes before the first published snapshot, single steps are in order and the directory has
      room whenever the program starts up, then every step of the code is a step of the machine, and
      recovery after the run, if it completes, gives exactly the map of everything on disk. */
  lemma NeverReaddingIsRecovered(cfg: Config, c: Codec, evs: seq<Event>)
    requires Proper(cfg, c) && RunFreely(cfg, c, EMPTY_DIRECTORY, evs).Some?
    requires ClientsNeverReadd(evs) && PublishesFirst(evs + [Restart]) && Orderly(cfg, c, evs + [Restart])
    ensures Run(cfg, c, evs) == RunFreely(cfg, c, EMPTY_DIRECTORY, evs)
    ensures var st := After(cfg, c, evs);
            && st.snap.Some?
            && (WithinBounds(cfg, c, Directory(st), st.snap.value) && Recovered(cfg, c, Directory(st), st.snap).Ok? ==>
                  Recovered(cfg, c, Directory(st), st.snap).value == MapAfter(Durable(cfg, c, st)))
  {
    var more := evs + [Restart];
    assert more[..|more| - 1] == evs && more[|more| - 1] == Restart;
    RestartNeverReadds(evs);
    OrderlyFront(cfg, c, more);
    FreeRunsAreTame(cfg, c, evs);
    TamePublishes(cfg, c, evs, Run(cfg, c, evs).value);
    hide *;
    AfterIs(cfg, c, evs, Run(cfg, c, evs).value);
    RoomyStartUp(cfg, c, Run(cfg, c, evs).value);
  }

  lemma RoomyStartUp(cfg: Config, c: Codec, st: Sys)
    requires Proper(cfg, c) && Inv(cfg, c, st) && LogOk(cfg, c, st) && InOrder(cfg, st, Restart)
    ensures st.snap.Some? && WithinBounds(cfg, c, Directory(st), st.snap.value) &&
            Recovered(cfg, c, Directory(st), st.snap).Ok? ==>
              Recovered(cfg, c, Directory(st), st.snap).value == MapAfter(Durable(cfg, c, st))
  {
    hide LogOk, Recovered, Durable, MapAfter, Inv, Proper, WithinBounds, HasRoom, LosesDelete;
    if st.snap.Some? && WithinBounds(cfg, c, Directory(st), st.snap.value) &&
       Recovered(cfg, c, Directory(st), st.snap).Ok? {
      RoomInDirectory(cfg, c, st);
      StartUpIsExact(cfg, c, st);
    }
  }

  lemma RestartNeverReadds(evs: seq<Event>)
    requires ClientsNeverReadd(evs)
    ensures ClientsNeverReadd(evs + [Restart])
  {
  }

  lemma TamePublishes(cfg: Config, c: Codec, evs: seq<Event>, st: Sys)
    requires LogOk(cfg, c, st) && Tame(cfg, c, evs, st) && Rename in evs
    ensures st.snap.Some?
  {
    hide LogOk, Logged;
  }
}
