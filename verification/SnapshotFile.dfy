/** The snapshot file: an eight-octet sequence number, then one record per file in map order. */
module SnapshotFile {
  import opened Results
  import opened Bytes
  import opened Frames
  import opened History
  import opened WalCodec

  /** Some order in which a loop can visit a map. */
  ghost predicate Enumerates(order: seq<string>, m: Store) {
    (forall i :: 0 <= i < |order| ==> order[i] in m) &&
    (forall i, j :: 0 <= i < j < |order| ==> order[i] != order[j]) &&
    (forall x :: x in m ==> x in order)
  }

  function Records(c: Codec, metas: seq<FileMetadata>): (bodies: seq<seq<byte>>)
    ensures |bodies| == |metas|
    ensures forall i :: 0 <= i < |metas| ==> bodies[i] == c.encMeta(metas[i])
  {
    seq(|metas|, i requires 0 <= i < |metas| => c.encMeta(metas[i]))
  }

  function Listed(m: Store, order: seq<string>): (metas: seq<FileMetadata>)
    requires forall i :: 0 <= i < |order| ==> order[i] in m
    ensures |metas| == |order|
    ensures forall i :: 0 <= i < |order| ==> metas[i] == m[order[i]]
  {
    seq(|order|, i requires 0 <= i < |order| => m[order[i]])
  }

  function Dump(c: Codec, metas: seq<FileMetadata>): (f: seq<byte>) {
    FrameAll(Records(c, metas))
  }

  function Image(c: Codec, no: nat, metas: seq<FileMetadata>): (f: seq<byte>) {
    BigEndian(no, 8) + Dump(c, metas)
  }

  /** Reading records into a map until the file ends. */
  function RestoreInto(c: Codec, m: Store, f: seq<byte>): (r: Result<Store>)
    decreases |f|
  {
    match ReadFrame(f)
    case End => Ok(m)
    case Broken => Err
    case Got(body, rest) =>
      match c.decMeta(body)
      case None => Err
      case Some(meta) => RestoreInto(c, m[meta.name := meta], rest)
  }

  /** The map when reading stops, at the end of the file or at a record that cannot be read. */
  function RestoredSoFar(c: Codec, m: Store, f: seq<byte>): (r: Store)
    ensures RestoreInto(c, m, f).Ok? ==> r == RestoreInto(c, m, f).value
    decreases |f|
  {
    match ReadFrame(f)
    case End => m
    case Broken => m
    case Got(body, rest) =>
      match c.decMeta(body)
      case None => m
      case Some(meta) => RestoredSoFar(c, m[meta.name := meta], rest)
  }

  function DecodeSnapshot(c: Codec, f: seq<byte>): (r: Result<(nat, Store)>) {
    if |f| < 8 then Err
    else
      match RestoreInto(c, map[], f[8..])
      case Err => Err
      case Ok(m) => Ok((FromBigEndian(f[..8]), m))
  }

  function Puts(metas: seq<FileMetadata>): (ops: seq<Op>)
    ensures |ops| == |metas|
    ensures forall i :: 0 <= i < |metas| ==> ops[i] == Put(metas[i])
  {
    seq(|metas|, i requires 0 <= i < |metas| => Put(metas[i]))
  }

  /** Records are put one by one on top of the map; whatever follows them is read next. */
  lemma {:induction false} RestoreRecords(c: Codec, m: Store, metas: seq<FileMetadata>, tail: seq<byte>)
    requires Lossless(c) && AllFit(Records(c, metas))
    ensures RestoreInto(c, m, Dump(c, metas) + tail) == RestoreInto(c, Replay(m, Puts(metas)), tail)
    decreases |metas|
  {
    if metas == [] {
      assert Dump(c, metas) + tail == tail;
    } else {
      var rest := Dump(c, metas[1..]) + tail;
      assert Records(c, metas)[1..] == Records(c, metas[1..]);
      assert Dump(c, metas) + tail == Frame(c.encMeta(metas[0])) + rest;
      ReadFrameOfFrame(c.encMeta(metas[0]), rest);
      RestoreRecords(c, m[metas[0].name := metas[0]], metas[1..], tail);
      assert Puts(metas)[1..] == Puts(metas[1..]);
      ReplayFront(m, Puts(metas));
    }
  }

  // ---- What restoring makes of any file ----

  /** The file begins with records that decode to metas; what follows is empty, cut short, or a record
      that does not decode. */
  ghost predicate BeginsWith(c: Codec, f: seq<byte>, metas: seq<FileMetadata>, tail: seq<byte>)
    decreases |metas|
  {
    if metas == [] then
      f == tail && (ReadFrame(f).Got? ==> c.decMeta(ReadFrame(f).body).None?)
    else
      && ReadFrame(f).Got? && c.decMeta(ReadFrame(f).body) == Some(metas[0])
      && BeginsWith(c, ReadFrame(f).rest, metas[1..], tail)
  }

  /** Every file is of that form, and in one way only. */
  lemma {:induction false} EveryFileBegins(c: Codec, f: seq<byte>) returns (metas: seq<FileMetadata>, tail: seq<byte>)
    ensures BeginsWith(c, f, metas, tail)
    decreases |f|
  {
    var r := ReadFrame(f);
    if r.Got? && c.decMeta(r.body).Some? {
      var more, t := EveryFileBegins(c, r.rest);
      metas, tail := [c.decMeta(r.body).value] + more, t;
      assert metas[1..] == more;
    } else {
      metas, tail := [], f;
    }
  }

  lemma {:induction false} BeginsOneWay(c: Codec, f: seq<byte>, metas: seq<FileMetadata>, tail: seq<byte>,
                                        metas': seq<FileMetadata>, tail': seq<byte>)
    requires BeginsWith(c, f, metas, tail) && BeginsWith(c, f, metas', tail')
    ensures metas' == metas && tail' == tail
    decreases |metas|
  {
    if metas != [] && metas' != [] {
      BeginsOneWay(c, ReadFrame(f).rest, metas[1..], tail, metas'[1..], tail');
      assert metas == [metas[0]] + metas[1..] && metas' == [metas'[0]] + metas'[1..];
    }
  }

  /** Restoring puts exactly the records in front on top of the map, and succeeds exactly if nothing
      follows them: a record cut short or one that does not decode is an error, and what came before it is
      in the map already. */
  lemma {:induction false} RestoreIsExact(c: Codec, m: Store, f: seq<byte>, metas: seq<FileMetadata>, tail: seq<byte>)
    requires BeginsWith(c, f, metas, tail)
    ensures RestoredSoFar(c, m, f) == Replay(m, Puts(metas))
    ensures RestoreInto(c, m, f) == if tail == [] then Ok(Replay(m, Puts(metas))) else Err
    decreases |metas|
  {
    if metas != [] {
      var first := metas[0];
      RestoreIsExact(c, m[first.name := first], ReadFrame(f).rest, metas[1..], tail);
      assert Puts(metas)[1..] == Puts(metas[1..]);
      ReplayFront(m, Puts(metas));
    }
  }

  /** A snapshot file is read exactly if it has a number and whole records that decode. */
  lemma SnapshotReadsIff(c: Codec, f: seq<byte>)
    ensures DecodeSnapshot(c, f).Ok? <==>
            && |f| >= 8 && Parse(f[8..]).Some?
            && forall i :: 0 <= i < |Parse(f[8..]).value| ==> c.decMeta(Parse(f[8..]).value[i]).Some?
  {
    if |f| >= 8 {
      RestoreReadsIff(c, map[], f[8..]);
    }
  }

  lemma {:induction false} RestoreReadsIff(c: Codec, m: Store, f: seq<byte>)
    ensures RestoreInto(c, m, f).Ok? <==>
            Parse(f).Some? && forall i :: 0 <= i < |Parse(f).value| ==> c.decMeta(Parse(f).value[i]).Some?
    decreases |f|
  {
    var r := ReadFrame(f);
    if r.Got? {
      var meta := c.decMeta(r.body);
      if meta.Some? {
        RestoreReadsIff(c, m[meta.value.name := meta.value], r.rest);
      }
      if Parse(f).Some? {
        assert Parse(f).value[0] == r.body && Parse(f).value[1..] == Parse(r.rest).value;
      }
    }
  }

  lemma {:induction false} PutsListed(m: Store, order: seq<string>, n: nat, x: string)
    requires KeysMatch(m) && Enumerates(order, m) && n <= |order|
    ensures Look(MapAfter(Puts(Listed(m, order))[..n]), x) == if x in order[..n] then Some(m[x]) else None
  {
    if n > 0 {
      var ops := Puts(Listed(m, order));
      PutsListed(m, order, n - 1, x);
      assert ops[..n][..n - 1] == ops[..n - 1];
      LookApply(MapAfter(ops[..n - 1]), ops[n - 1], x);
      assert order[..n] == order[..n - 1] + [order[n - 1]];
    }
  }

  /** Whatever order the map was visited in, restoring the dump gives the map back exactly when
      every key is the name its metadata carries. */
  lemma DumpRoundTrip(c: Codec, m: Store, order: seq<string>)
    requires Lossless(c) && Enumerates(order, m) && AllFit(Records(c, Listed(m, order)))
    ensures RestoreInto(c, map[], Dump(c, Listed(m, order))) == Ok(m) <==> KeysMatch(m)
  {
    var metas := Listed(m, order);
    var dump := Dump(c, metas);
    RestoreRecords(c, map[], metas, []);
    assert dump + [] == dump;
    assert RestoreInto(c, map[], dump) == Ok(MapAfter(Puts(metas)));
    ReplayKeepsKeys(map[], Puts(metas));
    if KeysMatch(m) {
      forall x ensures Look(MapAfter(Puts(metas)), x) == Look(m, x) {
        PutsListed(m, order, |order|, x);
        assert Puts(metas)[..|order|] == Puts(metas) && order[..|order|] == order;
      }
      SameLooks(MapAfter(Puts(metas)), m);
    }
  }

  /** In particular for every map that adds and deletes lead to. */
  lemma ReachedMapsRoundTrip(c: Codec, ops: seq<Op>, order: seq<string>)
    requires Lossless(c) && Enumerates(order, MapAfter(ops)) && AllFit(Records(c, Listed(MapAfter(ops), order)))
    ensures RestoreInto(c, map[], Dump(c, Listed(MapAfter(ops), order))) == Ok(MapAfter(ops))
  {
    ReplayKeepsKeys(map[], ops);
    DumpRoundTrip(c, MapAfter(ops), order);
  }

  lemma SnapshotRoundTrip(c: Codec, no: nat, m: Store, order: seq<string>)
    requires Lossless(c) && Enumerates(order, m) && AllFit(Records(c, Listed(m, order)))
    requires KeysMatch(m) && no < TWO_TO_64
    ensures DecodeSnapshot(c, Image(c, no, Listed(m, order))) == Ok((no, m))
  {
    var image := Image(c, no, Listed(m, order));
    Uint64(no);
    DumpRoundTrip(c, m, order);
    assert image[..8] == BigEndian(no, 8);
    assert image[8..] == Dump(c, Listed(m, order));
  }

  // ---- The temporary file ----

  /** Writing from the start of a file opened without truncation: what is longer stays. */
  function Overlay(image: seq<byte>, leftover: seq<byte>): (f: seq<byte>) {
    image + if |leftover| > |image| then leftover[|image|..] else []
  }

  /** A left-over temporary file shows through exactly when it is longer than the new image; its tail
      is then restored on top of the snapshot. */
  lemma LeftoverShowsThrough(c: Codec, no: nat, m: Store, order: seq<string>, leftover: seq<byte>)
    requires Lossless(c) && Enumerates(order, m) && AllFit(Records(c, Listed(m, order))) && KeysMatch(m)
    ensures var image := Image(c, no, Listed(m, order));
            && (Overlay(image, leftover) == image <==> |leftover| <= |image|)
            && RestoreInto(c, map[], Overlay(image, leftover)[8..]) ==
               RestoreInto(c, m, Overlay(image, leftover)[|image|..])
  {
    var metas := Listed(m, order);
    var image := Image(c, no, metas);
    var tail := Overlay(image, leftover)[|image|..];
    assert Overlay(image, leftover) == image + tail;
    assert Overlay(image, leftover)[8..] == Dump(c, metas) + tail;
    RestoreRecords(c, map[], metas, tail);
    RestoreRecords(c, map[], metas, []);
    assert Dump(c, metas) + [] == Dump(c, metas);
    DumpRoundTrip(c, m, order);
    assert RestoreInto(c, MapAfter(Puts(metas)), []) == Ok(MapAfter(Puts(metas)));
  }
}
