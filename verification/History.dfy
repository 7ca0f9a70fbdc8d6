/** The metadata map the log protects, and what replaying a history of operations does to it. */
module History {
  import opened Results

  datatype ChunkInfo = ChunkInfo(size: nat, offset: int, addr: string)

  datatype FileMetadata = FileMetadata(size: int, name: string, chunkInfo: map<string, ChunkInfo>)

  type Store = map<string, FileMetadata>

  /** What one log entry does: file metadata under its name, or removal of a name. */
  datatype Op = Put(meta: FileMetadata) | Del(name: string) {
    function Key(): string {
      if Put? then meta.name else name
    }
    function Effect(): Option<FileMetadata> {
      if Put? then Some(meta) else None
    }
  }

  function ApplyOp(m: Store, op: Op): (r: Store) {
    match op
    case Put(meta) => m[meta.name := meta]
    case Del(name) => m - {name}
  }

  function Replay(m: Store, ops: seq<Op>): (r: Store) {
    if ops == [] then m else ApplyOp(Replay(m, ops[..|ops| - 1]), ops[|ops| - 1])
  }

  function MapAfter(ops: seq<Op>): (r: Store) {
    Replay(map[], ops)
  }

  function Look(m: Store, x: string): (r: Option<FileMetadata>) {
    if x in m then Some(m[x]) else None
  }

  predicate Touches(ops: seq<Op>, x: string) {
    exists i :: 0 <= i < |ops| && ops[i].Key() == x
  }

  /** Every name maps to metadata carrying that name. */
  predicate KeysMatch(m: Store) {
    forall x :: x in m ==> m[x].name == x
  }

  lemma SameLooks(a: Store, b: Store)
    requires forall x :: Look(a, x) == Look(b, x)
    ensures a == b
  {
    forall x ensures x in a <==> x in b {
      assert Look(a, x) == Look(b, x);
    }
    forall x | x in a ensures a[x] == b[x] {
      assert Look(a, x) == Look(b, x);
    }
  }

  lemma LookApply(m: Store, op: Op, x: string)
    ensures Look(ApplyOp(m, op), x) == if op.Key() == x then op.Effect() else Look(m, x)
  {
  }

  /** Two updates may reach the map in either order exactly when they are of different names or leave
      the same behind. */
  lemma UpdatesCommuteIff(m: Store, a: Op, b: Op)
    ensures ApplyOp(ApplyOp(m, a), b) == ApplyOp(ApplyOp(m, b), a) <==> a.Key() != b.Key() || a.Effect() == b.Effect()
  {
    var ab, ba := ApplyOp(ApplyOp(m, a), b), ApplyOp(ApplyOp(m, b), a);
    forall x
      ensures Look(ab, x) ==
              (if b.Key() == x then b.Effect() else if a.Key() == x then a.Effect() else Look(m, x))
      ensures Look(ba, x) ==
              (if a.Key() == x then a.Effect() else if b.Key() == x then b.Effect() else Look(m, x))
    {
      LookApply(m, a, x);
      LookApply(m, b, x);
      LookApply(ApplyOp(m, a), b, x);
      LookApply(ApplyOp(m, b), a, x);
    }
    if a.Key() != b.Key() || a.Effect() == b.Effect() {
      SameLooks(ab, ba);
    } else {
      assert Look(ab, a.Key()) != Look(ba, a.Key());
    }
  }

  lemma {:induction false} ReplayConcat(m: Store, a: seq<Op>, b: seq<Op>)
    ensures Replay(m, a + b) == Replay(Replay(m, a), b)
    decreases |b|
  {
    if b == [] {
      assert a + b == a;
    } else {
      ReplayConcat(m, a, b[..|b| - 1]);
      assert (a + b)[..|a + b| - 1] == a + b[..|b| - 1];
    }
  }

  lemma {:induction false} ReplayKeepsKeys(m: Store, ops: seq<Op>)
    requires KeysMatch(m)
    ensures KeysMatch(Replay(m, ops))
  {
    if ops != [] {
      ReplayKeepsKeys(m, ops[..|ops| - 1]);
    }
  }

  /** Last writer wins: what a replay leaves under a name ignores where it started,
      unless the name is never mentioned. */
  lemma {:induction false} LookReplay(m: Store, ops: seq<Op>, x: string)
    ensures Look(Replay(m, ops), x) == if Touches(ops, x) then Look(MapAfter(ops), x) else Look(m, x)
  {
    if ops != [] {
      var front, last := ops[..|ops| - 1], ops[|ops| - 1];
      LookReplay(m, front, x);
      LookApply(Replay(m, front), last, x);
      LookApply(MapAfter(front), last, x);
      if Touches(ops, x) && last.Key() != x {
        var i :| 0 <= i < |ops| && ops[i].Key() == x;
        assert front[i].Key() == x;
      }
      if Touches(front, x) {
        var i :| 0 <= i < |front| && front[i].Key() == x;
        assert ops[i].Key() == x;
      }
    }
  }

  /** Between two points of a history that no operation on x separates, x keeps its value. */
  lemma UntouchedBetween(h: seq<Op>, p: nat, q: nat, x: string)
    requires p <= q <= |h|
    requires forall i :: p <= i < q ==> h[i].Key() != x
    ensures Look(MapAfter(h[..p]), x) == Look(MapAfter(h[..q]), x)
  {
    assert h[..q] == h[..p] + h[p..q];
    ReplayConcat(map[], h[..p], h[p..q]);
    LookReplay(MapAfter(h[..p]), h[p..q], x);
    assert !Touches(h[p..q], x);
  }

  // ---- Overlapping replay ----

  /** x has in img the value it had at some point of the history no earlier than `no`. */
  ghost predicate Caught(h: seq<Op>, no: nat, img: Store, x: string) {
    exists p :: no <= p <= |h| && Look(img, x) == Look(MapAfter(h[..p]), x)
  }

  /** img holds every name as of some point after the first `no` operations, each at its own point. */
  ghost predicate Fresh(h: seq<Op>, no: nat, img: Store) {
    forall x :: Caught(h, no, img, x)
  }

  lemma FreshGrows(h: seq<Op>, h': seq<Op>, no: nat, img: Store)
    requires Fresh(h, no, img) && h <= h'
    ensures Fresh(h', no, img)
  {
    forall x ensures Caught(h', no, img, x) {
      assert Caught(h, no, img, x);
      var p :| no <= p <= |h| && Look(img, x) == Look(MapAfter(h[..p]), x);
      assert h'[..p] == h[..p];
    }
  }

  /** Replaying from any point the image already covers gives the map after the whole history:
      no operation needs to be filtered out, though many are replayed on a map newer than they are. */
  lemma OverlapNeedsNoFilter(h: seq<Op>, no: nat, img: Store, j: nat)
    requires j <= no <= |h|
    requires Fresh(h, no, img)
    ensures Replay(img, h[j..]) == MapAfter(h)
  {
    forall x ensures Look(Replay(img, h[j..]), x) == Look(MapAfter(h), x) {
      LookReplay(img, h[j..], x);
      assert h == h[..j] + h[j..];
      ReplayConcat(map[], h[..j], h[j..]);
      LookReplay(MapAfter(h[..j]), h[j..], x);
      if !Touches(h[j..], x) {
        assert Caught(h, no, img, x);
        var p :| no <= p <= |h| && Look(img, x) == Look(MapAfter(h[..p]), x);
        forall i | p <= i < |h| ensures h[i].Key() != x {
          assert h[j..][i - j].Key() != x;
        }
        UntouchedBetween(h, p, |h|, x);
        assert h[..|h|] == h;
      }
    }
    SameLooks(Replay(img, h[j..]), MapAfter(h));
  }

  /** What a replay of the suffix makes of any image: it is right about a name exactly when the suffix
      mentions the name or the image had it right already. */
  lemma ReplayRightAboutIff(h: seq<Op>, img: Store, j: nat, x: string)
    requires j <= |h|
    ensures Look(Replay(img, h[j..]), x) == Look(MapAfter(h), x) <==>
            Touches(h[j..], x) || Look(img, x) == Look(MapAfter(h), x)
  {
    LookReplay(img, h[j..], x);
    assert h == h[..j] + h[j..];
    ReplayConcat(map[], h[..j], h[j..]);
    LookReplay(MapAfter(h[..j]), h[j..], x);
  }

  ghost predicate OverlapExact(h: seq<Op>, a: nat, j: nat)
    requires a <= |h| && j <= |h|
  {
    Replay(MapAfter(h[..a]), h[j..]) == MapAfter(h)
  }

  function Repeat(op: Op, n: nat): (h: seq<Op>)
    ensures |h| == n
    ensures forall i :: 0 <= i < n ==> h[i] == op
  {
    seq(n, i => op)
  }

  /** Exactly when skipping the first j operations is safe on an image of the first a:
      for every history, if and only if nothing between the image and the replay is skipped. */
  lemma OverlapIsExact(n: nat, a: nat, j: nat)
    requires a <= n && j <= n
    ensures (forall h: seq<Op> | |h| == n :: OverlapExact(h, a, j)) <==> j <= a
  {
    if j <= a {
      forall h: seq<Op> | |h| == n ensures OverlapExact(h, a, j) {
        forall x ensures Caught(h, a, MapAfter(h[..a]), x) {
          assert Look(MapAfter(h[..a]), x) == Look(MapAfter(h[..a]), x);
        }
        OverlapNeedsNoFilter(h, a, MapAfter(h[..a]), j);
      }
    } else {
      SkippedAdd(n, a, j);
    }
  }

  /** An add that neither the image nor the replay has is lost. */
  lemma SkippedAdd(n: nat, a: nat, j: nat)
    requires a < j <= n
    ensures exists h: seq<Op> :: |h| == n && !OverlapExact(h, a, j)
  {
    var gone, kept := Del("gone"), Put(FileMetadata(0, "kept", map[]));
    var h := Repeat(gone, a) + [kept] + Repeat(gone, n - a - 1);
    hide Replay;
    assert !Touches(h[..a], "kept") && !Touches(h[j..], "kept");
    LookReplay(map[], h[..a], "kept");
    LookReplay(MapAfter(h[..a]), h[j..], "kept");
    UntouchedBetween(h, a + 1, n, "kept");
    assert h[..n] == h;
    OneMoreOp(h, a);
    LookApply(MapAfter(h[..a]), kept, "kept");
    EmptyMap();
    assert !OverlapExact(h, a, j);
  }

  lemma OneMoreOp(h: seq<Op>, a: nat)
    requires a < |h|
    ensures MapAfter(h[..a + 1]) == ApplyOp(MapAfter(h[..a]), h[a])
  {
    assert h[..a + 1][..a] == h[..a];
  }

  lemma EmptyMap()
    ensures MapAfter([]) == map[]
  {
  }

  // ---- Replay that logs its own deletes ----

  /** The deletes a replay logs again: those that find their name in the map built so far. */
  function FiredDeletes(m: Store, ops: seq<Op>): (fired: seq<Op>)
    decreases |ops|
  {
    if ops == [] then []
    else
      (if ops[0].Del? && ops[0].name in m then [ops[0]] else []) + FiredDeletes(ApplyOp(m, ops[0]), ops[1..])
  }

  /** Some delete takes effect on a name that the same log has alive at its end. */
  predicate Revives(m: Store, ops: seq<Op>)
    decreases |ops|
  {
    ops != [] &&
    ((ops[0].Del? && ops[0].name in m && ops[0].name in MapAfter(ops)) || Revives(ApplyOp(m, ops[0]), ops[1..]))
  }

  lemma ReplayFront(m: Store, ops: seq<Op>)
    requires ops != []
    ensures Replay(m, ops) == Replay(ApplyOp(m, ops[0]), ops[1..])
  {
    assert ops == [ops[0]] + ops[1..];
    ReplayConcat(m, [ops[0]], ops[1..]);
    assert Replay(m, [ops[0]]) == ApplyOp(Replay(m, []), ops[0]);
  }

  lemma AliveAfterDelete(m: Store, ops: seq<Op>)
    requires ops != [] && ops[0].Del?
    ensures ops[0].name in Replay(m, ops) <==> ops[0].name in MapAfter(ops)
  {
    assert ops[0].Key() == ops[0].name;
    LookReplay(m, ops, ops[0].name);
  }

  /** Some operation of the list is of a name in the map. */
  ghost predicate SomeAlive(ops: seq<Op>, m: Store) {
    exists i :: 0 <= i < |ops| && ops[i].Key() in m
  }

  lemma SomeAliveFirst(op: Op, ops: seq<Op>, m: Store)
    ensures SomeAlive([op] + ops, m) <==> op.Key() in m || SomeAlive(ops, m)
  {
    var all := [op] + ops;
    assert all[0] == op && forall i :: 0 <= i < |ops| ==> all[i + 1] == ops[i];
  }

  lemma {:induction false} FiredAreDeletes(m: Store, ops: seq<Op>)
    ensures forall i :: 0 <= i < |FiredDeletes(m, ops)| ==> FiredDeletes(m, ops)[i].Del?
    decreases |ops|
  {
    if ops != [] {
      FiredAreDeletes(ApplyOp(m, ops[0]), ops[1..]);
    }
  }

  lemma {:induction false} RevivesIffSomeAlive(m: Store, ops: seq<Op>)
    ensures Revives(m, ops) <==> SomeAlive(FiredDeletes(m, ops), Replay(m, ops))
    decreases |ops|
  {
    hide Replay, SomeAlive;
    if ops == [] {
      NoneAlive(Replay(m, ops));
    } else {
      var m1 := ApplyOp(m, ops[0]);
      RevivesIffSomeAlive(m1, ops[1..]);
      ReplayFront(m, ops);
      SomeAliveFirst(ops[0], FiredDeletes(m1, ops[1..]), Replay(m, ops));
      if ops[0].Del? && ops[0].name in m {
        AliveAfterDelete(m, ops);
      } else {
        assert FiredDeletes(m, ops) == FiredDeletes(m1, ops[1..]);
      }
    }
  }

  lemma NoneAlive(m: Store)
    ensures !SomeAlive([], m)
  {
  }

  /** The fired deletes name something alive at the end exactly when the log revives a name. */
  lemma RevivesIffFiredAlive(m: Store, ops: seq<Op>)
    ensures Revives(m, ops) <==>
            exists i :: 0 <= i < |FiredDeletes(m, ops)| && FiredDeletes(m, ops)[i].Key() in Replay(m, ops)
    ensures forall i :: 0 <= i < |FiredDeletes(m, ops)| ==> FiredDeletes(m, ops)[i].Del?
  {
    FiredAreDeletes(m, ops);
    RevivesIffSomeAlive(m, ops);
  }

  lemma {:induction false} DeletesRemove(m: Store, dels: seq<Op>, x: string)
    requires forall i :: 0 <= i < |dels| ==> dels[i].Del?
    ensures Look(Replay(m, dels), x) == if Touches(dels, x) then None else Look(m, x)
  {
    LookReplay(m, dels, x);
    if Touches(dels, x) {
      var i :| 0 <= i < |dels| && dels[i].Key() == x;
      if dels[|dels| - 1].Key() == x {
        LookApply(MapAfter(dels[..|dels| - 1]), dels[|dels| - 1], x);
      } else {
        var front := dels[..|dels| - 1];
        DeletesRemove(map[], front, x);
        assert front[i].Key() == x;
        LookApply(MapAfter(front), dels[|dels| - 1], x);
      }
    }
  }

  /** Deletes of names that are not there change nothing, and only those. */
  lemma DeletesIdleIffAbsent(m: Store, dels: seq<Op>)
    requires forall i :: 0 <= i < |dels| ==> dels[i].Del?
    ensures Replay(m, dels) == m <==> forall i :: 0 <= i < |dels| ==> dels[i].Key() !in m
  {
    if forall i :: 0 <= i < |dels| ==> dels[i].Key() !in m {
      forall x ensures Look(Replay(m, dels), x) == Look(m, x) {
        DeletesRemove(m, dels, x);
      }
      SameLooks(Replay(m, dels), m);
    } else {
      var i :| 0 <= i < |dels| && dels[i].Key() in m;
      DeletesRemove(m, dels, dels[i].Key());
    }
  }

  /** Recovering twice gives the same map exactly when the log revives no name: a replayed delete is
      logged again behind the whole log, so it undoes any later add of its name the next time. */
  lemma SecondRecoveryAgrees(m: Store, ops: seq<Op>)
    ensures Replay(m, ops + FiredDeletes(m, ops)) == Replay(m, ops) <==> !Revives(m, ops)
  {
    RevivesIffFiredAlive(m, ops);
    ReplayConcat(m, ops, FiredDeletes(m, ops));
    DeletesIdleIffAbsent(Replay(m, ops), FiredDeletes(m, ops));
  }

  /** A name that is added again after a delete is lost by the second recovery. */
  lemma ReAddedNameIsLost(meta: FileMetadata)
    ensures var ops := [Put(meta), Del(meta.name), Put(meta)];
            && Revives(map[], ops) && meta.name in MapAfter(ops)
            && meta.name !in Replay(map[], ops + FiredDeletes(map[], ops))
  {
    var x := meta.name;
    var ops := [Put(meta), Del(x), Put(meta)];
    var m1 := ApplyOp(map[], Put(meta));
    assert ops[1..] == [Del(x), Put(meta)] && ops[1..][1..] == [Put(meta)] && ops[2..][1..] == [];
    assert FiredDeletes(ApplyOp(m1, Del(x)), [Put(meta)]) == [] by {
      assert [Put(meta)][1..] == [];
    }
    assert FiredDeletes(m1, ops[1..]) == [Del(x)];
    assert FiredDeletes(map[], ops) == [Del(x)];
    assert ops[..2] + [Put(meta)] == ops;
    assert MapAfter(ops) == ApplyOp(MapAfter(ops[..2]), Put(meta));
    assert MapAfter(ops[1..]) == ApplyOp(MapAfter(ops[1..][..1]), Put(meta));
    assert (ops + [Del(x)])[..3] == ops;
  }

  // ---- When a log revives nothing ----

  /** The delete at i finds its name, and the log has that name alive at its end. */
  ghost predicate RevivedAt(m: Store, ops: seq<Op>, i: nat) {
    i < |ops| && ops[i].Del? && ops[i].name in Replay(m, ops[..i]) && ops[i].name in MapAfter(ops)
  }

  lemma RevivedLater(m: Store, ops: seq<Op>, i: nat)
    requires ops != [] && i < |ops| - 1
    ensures RevivedAt(m, ops, i + 1) <==> RevivedAt(ApplyOp(m, ops[0]), ops[1..], i)
  {
    var x := ops[i + 1].Key();
    assert ops[1..][i].Key() == x;
    assert ops[..i + 1][1..] == ops[1..][..i];
    ReplayFront(m, ops[..i + 1]);
    ReplayFront(map[], ops);
    LookReplay(ApplyOp(map[], ops[0]), ops[1..], x);
  }

  lemma {:induction false} RevivesIff(m: Store, ops: seq<Op>)
    ensures Revives(m, ops) <==> exists i: nat :: RevivedAt(m, ops, i)
    decreases |ops|
  {
    if ops != [] {
      var m1 := ApplyOp(m, ops[0]);
      RevivesIff(m1, ops[1..]);
      assert ops[..0] == [];
      if i: nat :| RevivedAt(m, ops, i) && i > 0 {
        RevivedLater(m, ops, i - 1);
      }
      if i: nat :| RevivedAt(m1, ops[1..], i) {
        RevivedLater(m, ops, i);
      }
      assert ops[0].Del? && ops[0].name in m && ops[0].name in MapAfter(ops) <==> RevivedAt(m, ops, 0);
    }
  }

  /** A name that a replay loses is deleted while it is there. */
  lemma {:induction false} LostByDelete(m: Store, ops: seq<Op>, x: string) returns (i: nat)
    requires x in m && x !in Replay(m, ops)
    ensures i < |ops| && ops[i] == Del(x) && x in Replay(m, ops[..i])
  {
    var front := ops[..|ops| - 1];
    if x in Replay(m, front) {
      i := |ops| - 1;
    } else {
      i := LostByDelete(m, front, x);
      assert front[..i] == ops[..i];
    }
  }

  /** What a suffix of a log revives, the log revives. */
  lemma RevivesSuffix(m: Store, a: seq<Op>, b: seq<Op>)
    requires Revives(m, b)
    ensures Revives(m, a + b)
  {
    RevivesIff(m, b);
    RevivesIff(m, a + b);
    var i: nat :| RevivedAt(m, b, i);
    var x, ops := b[i].name, a + b;
    assert b[i].Key() == x;
    ReplayConcat(map[], a, b);
    LookReplay(MapAfter(a), b, x);
    assert ops[..|a| + i] == a + b[..i];
    ReplayConcat(m, a, b[..i]);
    LookReplay(Replay(m, a), b[..i], x);
    LookReplay(m, b[..i], x);
    if x in Replay(m, ops[..|a| + i]) {
      assert RevivedAt(m, ops, |a| + i);
    } else {
      var k := LostByDelete(m, a, x);
      assert ops[..k] == a[..k];
      assert RevivedAt(m, ops, k);
    }
  }

  /** Deletes that a replay logs behind a log change nothing about what it revives, as long as each
      names something the replay ends without. */
  lemma RevivesPersists(m: Store, ops: seq<Op>, dels: seq<Op>)
    requires forall i :: 0 <= i < |dels| ==> dels[i].Del? && dels[i].name !in Replay(m, ops)
    ensures Revives(m, ops + dels) <==> Revives(m, ops)
  {
    var all := ops + dels;
    RevivesIff(m, ops);
    RevivesIff(m, all);
    ReplayConcat(map[], ops, dels);
    if i: nat :| RevivedAt(m, ops, i) {
      assert ops[i].Key() == ops[i].name;
      LookReplay(m, ops, ops[i].name);
      DeletesRemove(MapAfter(ops), dels, ops[i].name);
      assert all[..i] == ops[..i];
      assert RevivedAt(m, all, i);
    }
    if i: nat :| RevivedAt(m, all, i) {
      DeletesRemove(MapAfter(ops), dels, all[i].name);
      assert all[..i] == ops[..i];
      assert RevivedAt(m, ops, i);
    }
  }

  /** No add of a name after a delete of it. */
  predicate NeverReadds(ops: seq<Op>) {
    forall i, k :: 0 <= i < k < |ops| && ops[i].Del? && ops[k].Put? ==> ops[i].Key() != ops[k].Key()
  }

  lemma {:induction false} StaysDeleted(ops: seq<Op>, i: nat)
    requires NeverReadds(ops) && i < |ops| && ops[i].Del?
    ensures ops[i].name !in MapAfter(ops)
  {
    if i < |ops| - 1 {
      StaysDeleted(ops[..|ops| - 1], i);
    }
  }

  /** Such a log revives nothing, whatever it is replayed on. */
  lemma NeverReaddingRevivesNothing(m: Store, ops: seq<Op>)
    requires NeverReadds(ops)
    ensures !Revives(m, ops)
  {
    RevivesIff(m, ops);
    if i: nat :| RevivedAt(m, ops, i) {
      StaysDeleted(ops, i);
    }
  }
}
