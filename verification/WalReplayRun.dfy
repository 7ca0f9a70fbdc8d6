/** Start-up as the store performs it, entry by entry, is a run of the log machine. */
module WalReplayRun {
  import opened Results
  import opened Bytes
  import opened Frames
  import opened History
  import opened WalCodec
  import opened Layout
  import opened WalLog
  import opened WalScan
  import opened SnapshotFile
  import opened LogReplay
  import opened WalProtocol
  import opened WalSafety
  import opened WalTheorems
  import opened WalRecovery
  import opened WalStarted

  /** What the machine does for one entry that start-up applies. */
  function EntryEvents(cfg: Config, c: Codec, p: Pair, e: WalEntry): (evs: seq<Event>)
    requires Good(c, e)
  {
    if !Fires(c, p.files, e) then [ReplayNext]
    else if RefusedIn(cfg, c, p, e) then [ReplayRefused]
    else [ReplayDelete, FlushTimer, ReplayDeleteDone]
  }

  function ReplayEvents(cfg: Config, c: Codec, p: Pair, es: seq<WalEntry>): (evs: seq<Event>)
    requires AllGood(c, es)
    decreases |es|
  {
    if es == [] then [EndReplay]
    else
      match Applied(cfg, c, p, es[0])
      case Err => []
      case Ok(p1) => EntryEvents(cfg, c, p, es[0]) + ReplayEvents(cfg, c, p1, es[1..])
  }

  lemma {:induction false} RunFreelyOn(cfg: Config, c: Codec, st: Sys, a: seq<Event>, b: seq<Event>)
    ensures RunFreely(cfg, c, st, a + b) ==
            match RunFreely(cfg, c, st, a) case None => None case Some(st1) => RunFreely(cfg, c, st1, b)
    decreases |b|
  {
    hide FreeNext;
    if b == [] {
      assert a + b == a;
    } else {
      var front := b[..|b| - 1];
      assert (a + b)[..|a + b| - 1] == a + front;
      RunFreelyOn(cfg, c, st, a, front);
    }
  }

  lemma OneEvent(cfg: Config, c: Codec, st: Sys, ev: Event)
    ensures RunFreely(cfg, c, st, [ev]) == FreeNext(cfg, c, st, ev)
  {
    hide FreeNext;
    assert [ev][..0] == [];
  }

  /** The machine in the middle of replay. */
  ghost predicate InReplay(st: Sys, p: Pair, es: seq<WalEntry>) {
    && st.wal == p.wal && st.files == p.files && st.pending == map[] && st.mode.Replaying? && st.mode.rest == es
    && st.rotation == Complete
  }

  lemma NotFiring(cfg: Config, c: Codec, st: Sys, p: Pair, es: seq<WalEntry>)
    requires es != [] && Good(c, es[0]) && InReplay(st, p, es) && !Fires(c, p.files, es[0])
    ensures Applied(cfg, c, p, es[0]).Ok?
    ensures var p1 := Applied(cfg, c, p, es[0]).value;
            FreeNext(cfg, c, st, ReplayNext) ==
            Some(st.(wal := p1.wal, files := p1.files, mode := st.mode.(rest := es[1..])))
  {
    hide AppendEntry, Flush;
    var op := OpOf(c, es[0]);
    assert op.Del? && op.name !in p.files ==> p.files - {op.name} == p.files;
  }

  lemma Refusing(cfg: Config, c: Codec, st: Sys, p: Pair, es: seq<WalEntry>)
    requires es != [] && Good(c, es[0]) && InReplay(st, p, es) && RefusedIn(cfg, c, p, es[0])
    requires p.wal.lastSeg + 2 < TWO_TO_64 && p.wal.lastSeq + 1 < TWO_TO_64
    ensures Applied(cfg, c, p, es[0]).Ok?
    ensures var p1 := Applied(cfg, c, p, es[0]).value;
            FreeNext(cfg, c, st, ReplayRefused) ==
            Some(st.(wal := p1.wal, files := p1.files, layout := StepLaid(cfg, c, p, st.layout, es[0]),
                     mode := st.mode.(rest := es[1..])))
  {
    hide AppendEntry, Flush, Pad;
  }

  /** The state after the delete is logged, before its flush. */
  function Logging(cfg: Config, c: Codec, st: Sys, p: Pair, e: WalEntry): (st': Sys)
    requires Good(c, e) && Fires(c, p.files, e)
  {
    var meta := p.files[OpOf(c, e).Key()];
    var w := AppendEntry(cfg, c, p.wal, c.encMeta(meta), true).wal;
    st.(wal := w, layout := Appended(c, p.wal, w, st.layout, c.encMeta(meta), true),
        pending := map[w.lastSeq := Waiter(w.gen, Del(meta.name))])
  }

  predicate Accepts(cfg: Config, c: Codec, p: Pair, e: WalEntry)
    requires Good(c, e)
  {
    && Fires(c, p.files, e)
    && AppendEntry(cfg, c, p.wal, c.encMeta(p.files[OpOf(c, e).Key()]), true).Done?
    && p.wal.lastSeg + 2 < TWO_TO_64 && p.wal.lastSeq + 1 < TWO_TO_64
    && Fits(DeleteRecord(c, p.files, e, p.wal.lastSeq))
  }

  lemma LogsDelete(cfg: Config, c: Codec, st: Sys, p: Pair, es: seq<WalEntry>)
    requires es != [] && Good(c, es[0]) && InReplay(st, p, es) && Accepts(cfg, c, p, es[0])
    ensures FreeNext(cfg, c, st, ReplayDelete) == Some(Logging(cfg, c, st, p, es[0]))
  {
    hide AppendEntry, Appended;
  }

  lemma FlushesDelete(cfg: Config, c: Codec, st: Sys)
    requires st.rotation == Complete
    ensures FreeNext(cfg, c, st, FlushTimer) == Some(st.(wal := Flush(st.wal)))
  {
    hide Flush;
  }

  lemma FinishesDelete(cfg: Config, c: Codec, st: Sys, name: string, gen: nat)
    requires st.mode.Replaying? && st.mode.rest != [] && st.rotation == Complete
    requires gen < st.wal.gen && st.pending == map[st.wal.lastSeq := Waiter(gen, Del(name))]
    ensures FreeNext(cfg, c, st, ReplayDeleteDone) ==
            Some(st.(files := st.files - {name}, pending := map[], mode := st.mode.(rest := st.mode.rest[1..])))
  {
    assert st.pending - {st.wal.lastSeq} == map[];
  }

  lemma Deleting(cfg: Config, c: Codec, st: Sys, p: Pair, es: seq<WalEntry>)
    requires es != [] && Good(c, es[0]) && InReplay(st, p, es) && Accepts(cfg, c, p, es[0]) && KeysMatch(p.files)
    ensures Applied(cfg, c, p, es[0]).Ok?
    ensures var p1 := Applied(cfg, c, p, es[0]).value;
            RunFreely(cfg, c, st, [ReplayDelete, FlushTimer, ReplayDeleteDone]) ==
            Some(st.(wal := p1.wal, files := p1.files, layout := StepLaid(cfg, c, p, st.layout, es[0]),
                     mode := st.mode.(rest := es[1..])))
  {
    hide AppendEntry, Drain, Appended, FreeNext, RunFreely;
    var key := OpOf(c, es[0]).Key();
    var st1 := Logging(cfg, c, st, p, es[0]);
    LogsDelete(cfg, c, st, p, es);
    FlushesDelete(cfg, c, st1);
    var st2 := st1.(wal := Flush(st1.wal));
    FinishesDelete(cfg, c, st2, key, st1.wal.gen);
    ThreeEvents(cfg, c, st, ReplayDelete, FlushTimer, ReplayDeleteDone);
    AppliedGood(cfg, c, p, es[0]);
  }

  lemma ThreeEvents(cfg: Config, c: Codec, st: Sys, a: Event, b: Event, d: Event)
    ensures RunFreely(cfg, c, st, [a, b, d]) ==
            match FreeNext(cfg, c, st, a)
            case None => None
            case Some(s1) =>
              match FreeNext(cfg, c, s1, b)
              case None => None
              case Some(s2) => FreeNext(cfg, c, s2, d)
  {
    hide FreeNext;
    assert [a, b, d] == [a] + ([b] + [d]);
    RunFreelyOn(cfg, c, st, [a], [b] + [d]);
    OneEvent(cfg, c, st, a);
    if FreeNext(cfg, c, st, a).Some? {
      var s1 := FreeNext(cfg, c, st, a).value;
      RunFreelyOn(cfg, c, s1, [b], [d]);
      OneEvent(cfg, c, s1, b);
      if FreeNext(cfg, c, s1, b).Some? {
        OneEvent(cfg, c, FreeNext(cfg, c, s1, b).value, d);
      }
    }
  }

  lemma EntryRun(cfg: Config, c: Codec, st: Sys, p: Pair, es: seq<WalEntry>)
    requires es != [] && Good(c, es[0]) && InReplay(st, p, es) && KeysMatch(p.files)
    requires p.wal.lastSeg + 2 < TWO_TO_64 && p.wal.lastSeq + 1 < TWO_TO_64
    requires Fires(c, p.files, es[0]) ==> Fits(DeleteRecord(c, p.files, es[0], p.wal.lastSeq))
    ensures Applied(cfg, c, p, es[0]).Ok?
    ensures var p1 := Applied(cfg, c, p, es[0]).value;
            && KeysMatch(p1.files) && p1.wal.lastSeg <= p.wal.lastSeg + 2 && p1.wal.lastSeq <= p.wal.lastSeq + 1
            && RunFreely(cfg, c, st, EntryEvents(cfg, c, p, es[0])) ==
               Some(st.(wal := p1.wal, files := p1.files, layout := StepLaid(cfg, c, p, st.layout, es[0]),
                        mode := st.mode.(rest := es[1..])))
  {
    hide AppendEntry, RunFreely, FreeNext, KeysMatch, Good, OpOf, ApplyOp, DeleteRecord;
    AppliedGood(cfg, c, p, es[0]);
    AppliedBounds(cfg, c, p, es[0]);
    if !Fires(c, p.files, es[0]) {
      NotFiring(cfg, c, st, p, es);
      OneEvent(cfg, c, st, ReplayNext);
    } else if RefusedIn(cfg, c, p, es[0]) {
      Refusing(cfg, c, st, p, es);
      OneEvent(cfg, c, st, ReplayRefused);
    } else {
      Deleting(cfg, c, st, p, es);
    }
  }

  lemma AppliedBounds(cfg: Config, c: Codec, p: Pair, e: WalEntry)
    requires Good(c, e) && KeysMatch(p.files)
    ensures Applied(cfg, c, p, e).Ok? && KeysMatch(Applied(cfg, c, p, e).value.files)
    ensures var w := Applied(cfg, c, p, e).value.wal;
            w.lastSeg <= p.wal.lastSeg + 2 && w.lastSeq <= p.wal.lastSeq + 1
  {
    hide LastNumber, Drain, Frame;
  }

  /** Entry by entry, the machine goes where start-up goes. */
  lemma {:induction false} ReplayRun(cfg: Config, c: Codec, st: Sys, p: Pair, es: seq<WalEntry>)
    requires AllGood(c, es) && InReplay(st, p, es) && KeysMatch(p.files) && RecordsFit(cfg, c, p, es)
    requires p.wal.lastSeg + 2 * |es| + 2 < TWO_TO_64 && p.wal.lastSeq + |es| + 1 < TWO_TO_64
    ensures AllApplied(cfg, c, p, es).Ok?
    ensures var p' := AllApplied(cfg, c, p, es).value;
            RunFreely(cfg, c, st, ReplayEvents(cfg, c, p, es)) ==
            Some(st.(wal := p'.wal.(lastSnapshot := st.mode.no), files := p'.files, mode := Serving,
                     layout := Laid(cfg, c, p, st.layout, es)))
    decreases |es|
  {
    hide Applied, EntryEvents, KeysMatch, Good, StepLaid, Fires, DeleteRecord, FreeNext;
    if es == [] {
      OneEvent(cfg, c, st, EndReplay);
      ReplayOver(cfg, c, st, p);
    } else {
      EntryRun(cfg, c, st, p, es);
      AppliedFront(cfg, c, p, es);
      var p1 := Applied(cfg, c, p, es[0]).value;
      var st1 := st.(wal := p1.wal, files := p1.files, layout := StepLaid(cfg, c, p, st.layout, es[0]),
                     mode := st.mode.(rest := es[1..]));
      RunFreelyOn(cfg, c, st, EntryEvents(cfg, c, p, es[0]), ReplayEvents(cfg, c, p1, es[1..]));
      ReplayRun(cfg, c, st1, p1, es[1..]);
    }
  }

  lemma ReplayOver(cfg: Config, c: Codec, st: Sys, p: Pair)
    requires InReplay(st, p, [])
    ensures FreeNext(cfg, c, st, EndReplay) ==
            Some(st.(wal := p.wal.(lastSnapshot := st.mode.no), files := p.files, mode := Serving))
  {
  }

  // ---- The whole of start-up ----

  /** The events of a start-up on what a crash of st leaves. */
  ghost function StartUpEvents(cfg: Config, c: Codec, st: Sys): (evs: seq<Event>) {
    if st.snap.None? || Begun(cfg, c, Directory(st), st.snap.value).Err? then [Restart]
    else
      var (p, es) := Begun(cfg, c, Directory(st), st.snap.value).value;
      if AllGood(c, es) then [Restart] + ReplayEvents(cfg, c, p, es) else [Restart]
  }

  /** A server that serves with nothing going on. */
  ghost function Rested(cfg: Config, c: Codec, st: Sys, p: Pair): (st': Sys) {
    Sys(p.wal, p.files, st.snap, st.tmp, map[], Idle, Serving, StartedLayout(cfg, c, st), Complete)
  }

  /** The log, the map and the layout of a started server are those at the end of a run of the machine:
      the restart, then what replay does for each entry, then its end. */
  lemma StartUpIsARun(cfg: Config, c: Codec, evs: seq<Event>)
    requires Proper(cfg, c) && Run(cfg, c, evs).Some?
    requires var st := After(cfg, c, evs);
             && StartedServer(cfg, c, Directory(st), st.snap).Ok?
             && (st.snap.Some? ==> Bounded(cfg, c, Directory(st), st.snap.value))
    ensures var st := After(cfg, c, evs);
            RunFreely(cfg, c, st, StartUpEvents(cfg, c, st)) ==
            Some(Rested(cfg, c, st, StartedServer(cfg, c, Directory(st), st.snap).value))
  {
    hide *;
    StartUpRun(cfg, c, After(cfg, c, evs));
  }

  lemma ImageKeys(cfg: Config, c: Codec, st: Sys)
    requires Inv(cfg, c, st) && LogOk(cfg, c, st) && st.snap.Some?
    requires DecodeSnapshot(c, st.snap.value).Ok?
    ensures KeysMatch(DecodeSnapshot(c, st.snap.value).value.1)
  {
    hide LogOk, ModeOk, ReclaimOk, WaitersOk, SnapperOk, KeysMatch, DecodeSnapshot, Fresh, Durable;
  }

  lemma StartUpRun(cfg: Config, c: Codec, st: Sys)
    requires Proper(cfg, c) && Inv(cfg, c, st) && LogOk(cfg, c, st)
    requires StartedServer(cfg, c, Directory(st), st.snap).Ok?
    requires st.snap.Some? ==> Bounded(cfg, c, Directory(st), st.snap.value)
    ensures RunFreely(cfg, c, st, StartUpEvents(cfg, c, st)) ==
            Some(Rested(cfg, c, st, StartedServer(cfg, c, Directory(st), st.snap).value))
  {
    hide Inv, LogOk, Directory, InitWal, AllApplied, Laid, Landed, RecordsFit, ReadAll, RestoreInto, AllGood, KeysMatch,
         Durable, ReplayEvents, MapAfter, Replay, RunFreely;
    OneEvent(cfg, c, st, Restart);
    if st.snap.Some? {
      BegunIsDurable(cfg, c, st);
      ImageKeys(cfg, c, st);
      var (p, es) := Begun(cfg, c, Directory(st), st.snap.value).value;
      var st1 := StartUp(cfg, c, st).value;
      RunFreelyOn(cfg, c, st, [Restart], ReplayEvents(cfg, c, p, es));
      ReplayRun(cfg, c, st1, p, es);
    }
  }

  // ---- As a run that meets the conditions ----

  predicate Guarded(ev: Event) {
    ev.UpdateMap? || ev.Clone? || ev.Rename? || ev.Restart? || ev.ReplayRefused?
  }

  lemma UnguardedNext(cfg: Config, c: Codec, st: Sys, ev: Event)
    requires !Guarded(ev)
    ensures FreeNext(cfg, c, st, ev) == Next(cfg, c, st, ev)
  {
    hide Step;
  }

  lemma {:induction false} FreelyIsRun(cfg: Config, c: Codec, evs: seq<Event>, more: seq<Event>)
    requires Run(cfg, c, evs).Some? && forall i :: 0 <= i < |more| ==> !Guarded(more[i])
    ensures Run(cfg, c, evs + more) == RunFreely(cfg, c, Run(cfg, c, evs).value, more)
    decreases |more|
  {
    hide Next, FreeNext, Guarded;
    if more == [] {
      assert evs + more == evs;
    } else {
      var front := more[..|more| - 1];
      assert (evs + more)[..|evs + more| - 1] == evs + front;
      FreelyIsRun(cfg, c, evs, front);
      if Run(cfg, c, evs + front).Some? {
        UnguardedNext(cfg, c, Run(cfg, c, evs + front).value, more[|more| - 1]);
      }
    }
  }

  lemma {:induction false} NothingGuarded(cfg: Config, c: Codec, p: Pair, es: seq<WalEntry>)
    requires AllGood(c, es) && forall i: nat :: !Refused(cfg, c, p, es, i)
    ensures forall i :: 0 <= i < |ReplayEvents(cfg, c, p, es)| ==> !Guarded(ReplayEvents(cfg, c, p, es)[i])
    decreases |es|
  {
    hide Applied, RefusedIn, Good, Refused, Fires;
    if es != [] {
      AppliedGood(cfg, c, p, es[0]);
      RefusedLater(cfg, c, p, es, 0);
      var p1 := Applied(cfg, c, p, es[0]).value;
      forall i: nat ensures !Refused(cfg, c, p1, es[1..], i) {
        RefusedLater(cfg, c, p, es, i);
      }
      NothingGuarded(cfg, c, p1, es[1..]);
    }
  }

  /** If the restart meets its condition and the log refuses none of start-up's deletes, the started
      server is a state that runs reach: whatever every run guarantees holds of it and of all it does. */
  lemma StartedServerIsReached(cfg: Config, c: Codec, evs: seq<Event>)
    requires Proper(cfg, c) && Run(cfg, c, evs).Some?
    requires var st := After(cfg, c, evs);
             && st.snap.Some? && DoRestart(cfg, c, st).Some?
             && StartedServer(cfg, c, Directory(st), st.snap).Ok? && Bounded(cfg, c, Directory(st), st.snap.value)
             && var (p, es) := Begun(cfg, c, Directory(st), st.snap.value).value;
                forall i: nat :: !Refused(cfg, c, p, es, i)
    ensures var st := After(cfg, c, evs);
            Run(cfg, c, evs + StartUpEvents(cfg, c, st)) ==
            Some(Rested(cfg, c, st, StartedServer(cfg, c, Directory(st), st.snap).value))
  {
    hide After, StartUp, Begun, Refused, Bounded, Directory, Recoverable, InitWal, LogOk, Inv, ReplayEvents, AllGood;
    hide MapAfter, Replay, Durable, AllApplied, Rested, Run, RunFreely;
    var st := After(cfg, c, evs);
    StartUpIsARun(cfg, c, evs);
    BegunIsDurable(cfg, c, st);
    var (p, es) := Begun(cfg, c, Directory(st), st.snap.value).value;
    NothingGuarded(cfg, c, p, es);
    RestartIsOne(cfg, c, evs, st);
    FreelyIsRun(cfg, c, evs + [Restart], ReplayEvents(cfg, c, p, es));
    assert evs + [Restart] + ReplayEvents(cfg, c, p, es) == evs + ([Restart] + ReplayEvents(cfg, c, p, es));
    RunFreelyOn(cfg, c, st, [Restart], ReplayEvents(cfg, c, p, es));
  }

  lemma RestartIsOne(cfg: Config, c: Codec, evs: seq<Event>, st: Sys)
    requires Proper(cfg, c) && Run(cfg, c, evs).Some? && st == After(cfg, c, evs) && DoRestart(cfg, c, st).Some?
    ensures Run(cfg, c, evs + [Restart]).Some?
    ensures Some(Run(cfg, c, evs + [Restart]).value) == RunFreely(cfg, c, st, [Restart])
  {
    hide StartUp, Recoverable, Inv, LogOk;
    assert (evs + [Restart])[..|evs|] == evs;
    OneEvent(cfg, c, st, Restart);
  }
}
