/** The chunk server's request handler: the loop over a connection, its three handlers and the disk. */
module ChunkServer {
  import opened Results
  import opened Bytes
  import opened StoragePath
  import opened MessageProtocol
  import opened Chunking

  /** hash is MD5 in hexadecimal; decodeId finds the chunk id in encoded chunk metadata. */
  datatype Config = Config(hash: Hash, depth: nat, decodeId: seq<byte> -> Option<string>)

  type Disk = map<string, seq<byte>>

  /** What one handler makes of the disk, what it writes to the connection, and whether it succeeded. */
  datatype Outcome = Outcome(disk: Disk, reply: seq<byte>, ok: bool)

  type Request = (byte, seq<byte>)

  /** A read message's payload as a key. */
  function Text(payload: seq<byte>): (key: string) {
    seq(|payload|, i requires 0 <= i < |payload| => payload[i] as char)
  }

  /** Metadata, chunk, check, rename. */
  function Written(s: Config, disk: Disk, payload: seq<byte>): (r: Outcome) {
    match SplitWrite(payload)
    case None => Outcome(disk, [], false)
    case Some((meta, chunk)) =>
      match s.decodeId(meta)
      case None => Outcome(disk, [], false)
      case Some(key) =>
        var tmp := TempPath(key, s.depth);
        if s.hash(chunk) != key then Outcome(disk[tmp := chunk], [], false)
        else Outcome((disk - {tmp})[FinalPath(key, s.depth) := chunk], [], true)
  }

  /** The key a write message comes with, if one can be read. */
  function KeyOf(s: Config, payload: seq<byte>): (key: Option<string>) {
    if SplitWrite(payload).None? then None else s.decodeId(SplitWrite(payload).value.0)
  }

  /** The two disks differ at most at the given paths. */
  ghost predicate SameElsewhere(disk: Disk, disk': Disk, paths: set<string>) {
    forall p :: p !in paths ==> (p in disk <==> p in disk') && (p in disk ==> disk'[p] == disk[p])
  }

  /** The file at the key's final path, sent back in one message. */
  function Served(s: Config, disk: Disk, payload: seq<byte>): (r: Outcome) {
    var path := FinalPath(Text(payload), s.depth);
    if path !in disk then Outcome(disk, [], false)
    else
      var e := EncodeMessage(Message(TYPE_READ_RESPONSE, |disk[path]| % TWO_TO_32, Some(disk[path])));
      Outcome(disk, e.written, e.error.None?)
  }

  function Echoed(disk: Disk, payload: seq<byte>): (r: Outcome) {
    var e := EncodeMessage(Message(TYPE_PING_RESPONSE, |payload| % TWO_TO_32, Some(payload)));
    Outcome(disk, e.written, e.error.None?)
  }

  predicate Known(kind: byte) {
    kind == TYPE_WRITE || kind == TYPE_READ || kind == TYPE_PING
  }

  function Handled(s: Config, disk: Disk, kind: byte, payload: seq<byte>): (r: Outcome)
    requires Known(kind)
  {
    if kind == TYPE_WRITE then Written(s, disk, payload)
    else if kind == TYPE_READ then Served(s, disk, payload)
    else Echoed(disk, payload)
  }

  /** The requests handled without error, the disk and the replies at the end, and whether the loop
      ended without an error. */
  datatype Session = Session(handled: seq<Request>, disk: Disk, replies: seq<byte>, ok: bool)

  /** One connection. A handler reads its payload to the end, or to where the stream ends; its error
      ends the session, as does a message without payload; one of unknown type is skipped without
      taking its payload. */
  function Converse(s: Config, disk: Disk, input: seq<byte>): (r: Session)
    decreases |input|
  {
    match DecodeHeader(input)
    case EndOfStream => Session([], disk, [], true)
    case Failed(_) => Session([], disk, [], false)
    case Frame(kind, length, rest) =>
      if length == 0 then Session([], disk, [], true)
      else if !Known(kind) then Converse(s, disk, rest)
      else
        var n := Min(length, |rest|);
        var o := Handled(s, disk, kind, rest[..n]);
        if !o.ok then Session([], o.disk, o.reply, false)
        else
          var more := Converse(s, o.disk, rest[n..]);
          Session([(kind, rest[..n])] + more.handled, more.disk, o.reply + more.replies, more.ok)
  }

  lemma TempIsLonger(key: string, depth: nat)
    ensures TempPath(key, depth) != FinalPath(key, depth)
  {
    assert TempPath(key, depth) == FinalPath(key, depth) + ".tmp";
  }

  // ---- The program ----

  class Store {
    const config: Config
    var disk: Disk

    constructor (config: Config)
      ensures this.config == config && disk == map[]
    {
      this.config, disk := config, map[];
    }

    /** storage.Write: copy into the truncated temporary file piece by piece, hashing as it goes. */
    method Write(key: string, data: seq<byte>, piece: nat) returns (tmp: string, contentHash: string)
      requires piece > 0
      modifies this
      ensures tmp == TempPath(key, config.depth) && contentHash == config.hash(data)
      ensures disk == old(disk)[tmp := data]
    {
      tmp := TempPath(key, config.depth);
      disk := disk[tmp := []];
      var hashed := [];
      var n := 0;
      while n < |data|
        invariant 0 <= n <= |data| && hashed == data[..n]
        invariant disk == old(disk)[tmp := data[..n]]
      {
        var m := Min(|data| - n, piece);
        assert data[..n + m] == data[..n] + data[n..n + m];
        disk := disk[tmp := disk[tmp] + data[n..n + m]];
        hashed := hashed + data[n..n + m];
        n := n + m;
      }
      assert data[..|data|] == data;
      contentHash := config.hash(hashed);
    }

    /** handleWrite: metadata, chunk, check, rename. It succeeds exactly when the chunk hashes to the
        key it came with, and then publishes it; otherwise it leaves at most the temporary file. */
    method HandleWrite(payload: seq<byte>, piece: nat) returns (ok: bool)
      requires piece > 0
      modifies this
      ensures ok <==>
                && SplitWrite(payload).Some? && config.decodeId(SplitWrite(payload).value.0).Some?
                && config.hash(SplitWrite(payload).value.1) == config.decodeId(SplitWrite(payload).value.0).value
      ensures KeyOf(config, payload).None? ==> disk == old(disk)
      ensures KeyOf(config, payload).Some? ==>
                var key, chunk := KeyOf(config, payload).value, SplitWrite(payload).value.1;
                var tmp, path := TempPath(key, config.depth), FinalPath(key, config.depth);
                && SameElsewhere(old(disk), disk, {tmp, path})
                && (if ok then tmp !in disk && path in disk && disk[path] == chunk
                    else tmp in disk && disk[tmp] == chunk && SameElsewhere(old(disk), disk, {tmp}))
      ensures Outcome(disk, [], ok) == Written(config, old(disk), payload)
    {
      hide TempPath, FinalPath, RenameTarget, PathOf, SplitWrite;
      var split := SplitWrite(payload);
      if split.None? {
        return false;
      }
      var id := config.decodeId(split.value.0);
      if id.None? {
        return false;
      }
      var tmp, contentHash := Write(id.value, split.value.1, piece);
      if contentHash != id.value {
        return false;
      }
      RenamedIsReadPath(id.value, config.depth);
      TempIsLonger(id.value, config.depth);
      disk := (disk - {tmp})[RenameTarget(tmp) := disk[tmp]];
      ok := true;
    }

    method HandleRead(payload: seq<byte>, w: Stream) returns (ok: bool)
      modifies w
      ensures var o := Served(config, disk, payload); ok == o.ok && w.data == old(w.data) + o.reply
    {
      var path := FinalPath(Text(payload), config.depth);
      if path !in disk {
        return false;
      }
      var error := Encode(w, Message(TYPE_READ_RESPONSE, |disk[path]| % TWO_TO_32, Some(disk[path])));
      ok := error.None?;
    }

    method HandlePing(payload: seq<byte>, w: Stream) returns (ok: bool)
      modifies w
      ensures var o := Echoed(disk, payload); ok == o.ok && w.data == old(w.data) + o.reply
    {
      var error := Encode(w, Message(TYPE_PING_RESPONSE, |payload| % TWO_TO_32, Some(payload)));
      ok := error.None?;
    }

    method HandleOne(kind: byte, payload: seq<byte>, w: Stream, piece: nat) returns (ok: bool)
      requires piece > 0 && Known(kind)
      modifies this, w
      ensures var o := Handled(config, old(disk), kind, payload);
              ok == o.ok && disk == o.disk && w.data == old(w.data) + o.reply
    {
      hide Written, Served, Echoed;
      if kind == TYPE_PING {
        assert Echoed(disk, payload).disk == disk by {
          EchoKeepsDisk(disk, payload);
        }
        ok := HandlePing(payload, w);
      } else if kind == TYPE_READ {
        assert Served(config, disk, payload).disk == disk by {
          ReadKeepsDisk(config, disk, payload);
        }
        ok := HandleRead(payload, w);
      } else {
        ok := HandleWrite(payload, piece);
      }
    }

    /** The loop over a connection: r is what arrives, w what is sent back. */
    method Serve(r: Stream, w: Stream, piece: nat) returns (handled: seq<Request>, ok: bool)
      requires r != w && piece > 0
      modifies this, r, w
      ensures var s := Converse(config, old(disk), old(r.data));
              handled == s.handled && ok == s.ok && disk == s.disk && w.data == old(w.data) + s.replies
    {
      hide Converse, Continued, Handled, DecodeHeader, Header;
      handled := [];
      ghost var replies: seq<byte> := [];
      ghost var sent, whole := w.data, Converse(config, disk, r.data);
      NothingBefore(whole);
      while true
        invariant w.data == sent + replies
        invariant whole == Continued(handled, replies, Converse(config, disk, r.data))
        decreases |r.data|
      {
        ghost var before, input := disk, r.data;
        var d := Decode(r);
        if !d.Frame? || d.length == 0 {
          LastTurn(config, disk, input);
          NothingMore(handled, replies, disk, [], !d.Failed?);
          return handled, !d.Failed?;
        }
        if Known(d.kind) {
          var n := Min(d.length, |r.data|);
          var payload := r.data[..n];
          r.data := r.data[n..];
          ok := HandleOne(d.kind, payload, w, piece);
          Turn(config, before, input);
          ghost var o := Handled(config, before, d.kind, payload);
          assert w.data == sent + (replies + o.reply);
          if !ok {
            NothingMore(handled, replies, disk, o.reply, false);
            return;
          }
          Regroup(handled, (d.kind, payload), replies, o.reply, Converse(config, disk, r.data));
          handled, replies := handled + [(d.kind, payload)], replies + o.reply;
        } else {
          SkippedTurn(config, disk, input);
        }
      }
    }
  }

  /** A session whose beginning is already known. */
  function Continued(handled: seq<Request>, replies: seq<byte>, s: Session): (r: Session) {
    Session(handled + s.handled, s.disk, replies + s.replies, s.ok)
  }

  lemma NothingBefore(s: Session)
    ensures s == Continued([], [], s)
  {
  }

  lemma NothingMore(handled: seq<Request>, replies: seq<byte>, disk: Disk, reply: seq<byte>, ok: bool)
    ensures Continued(handled, replies, Session([], disk, reply, ok)) == Session(handled, disk, replies + reply, ok)
    ensures replies + [] == replies
  {
    assert handled + [] == handled;
  }

  lemma Regroup(handled: seq<Request>, d: Request, replies: seq<byte>, reply: seq<byte>, s: Session)
    ensures Continued(handled, replies, Continued([d], reply, s)) == Continued(handled + [d], replies + reply, s)
  {
    assert handled + ([d] + s.handled) == (handled + [d]) + s.handled;
    assert replies + (reply + s.replies) == (replies + reply) + s.replies;
  }

  /** One turn of the loop: the end of the session, a skipped message, or a handled one. */
  lemma LastTurn(s: Config, disk: Disk, input: seq<byte>)
    requires var d := DecodeHeader(input); !d.Frame? || d.length == 0
    ensures Converse(s, disk, input) == Session([], disk, [], !DecodeHeader(input).Failed?)
  {
  }

  lemma SkippedTurn(s: Config, disk: Disk, input: seq<byte>)
    requires var d := DecodeHeader(input); d.Frame? && d.length > 0 && !Known(d.kind)
    ensures Converse(s, disk, input) == Converse(s, disk, DecodeHeader(input).rest)
  {
  }

  lemma Turn(s: Config, disk: Disk, input: seq<byte>)
    requires var d := DecodeHeader(input); d.Frame? && d.length > 0 && Known(d.kind)
    ensures var d := DecodeHeader(input);
            var n := Min(d.length, |d.rest|);
            var o := Handled(s, disk, d.kind, d.rest[..n]);
            Converse(s, disk, input) ==
            if !o.ok then Session([], o.disk, o.reply, false)
            else Continued([(d.kind, d.rest[..n])], o.reply, Converse(s, o.disk, d.rest[n..]))
  {
    hide Handled, DecodeHeader;
  }

  lemma EchoKeepsDisk(disk: Disk, payload: seq<byte>)
    ensures Echoed(disk, payload).disk == disk
  {
  }

  lemma ReadKeepsDisk(s: Config, disk: Disk, payload: seq<byte>)
    ensures Served(s, disk, payload).disk == disk
  {
  }

  // ---- What a session does ----

  /** When a request is served: a write whose chunk hashes to the id it came with, a read of a file
      that is there and fits a message, any ping. */
  predicate Accepts(s: Config, disk: Disk, d: Request) {
    if d.0 == TYPE_WRITE then
      && SplitWrite(d.1).Some? && s.decodeId(SplitWrite(d.1).value.0).Some?
      && s.hash(SplitWrite(d.1).value.1) == s.decodeId(SplitWrite(d.1).value.0).value
    else if d.0 == TYPE_READ then
      var path := FinalPath(Text(d.1), s.depth);
      path in disk && |disk[path]| % TWO_TO_32 <= MAX_PAYLOAD
    else true
  }

  /** The disk after a sequence of requests, each of them handled. */
  function DiskAfter(s: Config, disk: Disk, ds: seq<Request>): (r: Disk)
    decreases |ds|
  {
    if ds == [] || !Known(ds[0].0) then disk
    else DiskAfter(s, Handled(s, disk, ds[0].0, ds[0].1).disk, ds[1..])
  }

  lemma SucceedsIffAccepted(s: Config, disk: Disk, d: Request)
    requires Known(d.0) && |d.1| <= MAX_PAYLOAD
    ensures Handled(s, disk, d.0, d.1).ok <==> Accepts(s, disk, d)
  {
    hide TempPath, FinalPath, Text, SplitWrite;
  }

  /** The first message of a session, and what is left for the rest of it. */
  lemma FirstRequest(s: Config, disk: Disk, m: Message, tail: seq<byte>)
    requires Sendable(m) && Known(m.kind) && m.length > 0
    ensures var d := Delivered(m);
            var o := Handled(s, disk, d.0, d.1);
            Converse(s, disk, EncodeMessage(m).written + tail) ==
            if !o.ok then Session([], o.disk, o.reply, false)
            else Continued([d], o.reply, Converse(s, o.disk, tail))
  {
    var payload := m.payload.value[..m.length];
    hide Handled, Converse, DecodeHeader, Header;
    EncodedSplits(m, tail);
    HeaderRoundTrip(m.kind, m.length, payload + tail);
    assert (payload + tail)[..m.length] == payload && (payload + tail)[m.length..] == tail;
    Turn(s, disk, EncodeMessage(m).written + tail);
  }

  lemma EmptyRequestEnds(s: Config, disk: Disk, m: Message, tail: seq<byte>)
    requires Sendable(m) && m.length == 0
    ensures Converse(s, disk, EncodeMessage(m).written + tail) == Session([], disk, [], true)
  {
    HeaderRoundTrip(m.kind, 0, tail);
  }

  /** Each handled message was accepted by the disk its predecessors left; the first one that was not
      handled has no payload or was refused. */
  predicate StopsRight(s: Config, disk: Disk, ms: seq<Message>, r: Session)
    requires forall i :: 0 <= i < |ms| ==> Sendable(ms[i])
  {
    var n := |r.handled|;
    && n <= |ms|
    && (forall i :: 0 <= i < n ==> ms[i].length > 0 && r.handled[i] == Delivered(ms[i]))
    && (forall i :: 0 <= i < n ==> Accepts(s, DiskAfter(s, disk, r.handled[..i]), r.handled[i]))
    && (n < |ms| ==> ms[n].length == 0 || !Accepts(s, DiskAfter(s, disk, r.handled), Delivered(ms[n])))
    && (r.ok <==> n == |ms| || ms[n].length == 0)
    && (r.ok ==> r.disk == DiskAfter(s, disk, r.handled))
  }

  lemma DiskAfterFirst(s: Config, disk: Disk, d: Request, ds: seq<Request>)
    requires Known(d.0)
    ensures DiskAfter(s, disk, [d] + ds) == DiskAfter(s, Handled(s, disk, d.0, d.1).disk, ds)
  {
    hide Handled;
    assert ([d] + ds)[1..] == ds;
  }

  /** Request i of a session whose first request is d. */
  lemma LaterRequest(s: Config, disk: Disk, d: Request, ds: seq<Request>, i: nat)
    requires Known(d.0) && 1 <= i <= |ds|
    ensures DiskAfter(s, disk, ([d] + ds)[..i]) == DiskAfter(s, Handled(s, disk, d.0, d.1).disk, ds[..i - 1])
    ensures ([d] + ds)[i] == ds[i - 1]
  {
    assert ([d] + ds)[..i] == [d] + ds[..i - 1];
    DiskAfterFirst(s, disk, d, ds[..i - 1]);
  }

  lemma StopsLater(s: Config, disk: Disk, ms: seq<Message>, more: Session, reply: seq<byte>)
    requires ms != [] && forall i :: 0 <= i < |ms| ==> Sendable(ms[i]) && Known(ms[i].kind)
    requires ms[0].length > 0 && Accepts(s, disk, Delivered(ms[0]))
    requires StopsRight(s, Handled(s, disk, Delivered(ms[0]).0, Delivered(ms[0]).1).disk, ms[1..], more)
    ensures StopsRight(s, disk, ms, Continued([Delivered(ms[0])], reply, more))
  {
    var d := Delivered(ms[0]);
    var r := Continued([d], reply, more);
    var n := |r.handled|;
    hide Accepts, Handled, DiskAfter, Delivered;
    DiskAfterFirst(s, disk, d, more.handled);
    assert DiskAfter(s, disk, r.handled[..0]) == disk by {
      NoRequests(s, disk);
      assert r.handled[..0] == [];
    }
    forall i | 1 <= i < n
      ensures ms[i].length > 0 && r.handled[i] == Delivered(ms[i])
      ensures Accepts(s, DiskAfter(s, disk, r.handled[..i]), r.handled[i])
    {
      LaterRequest(s, disk, d, more.handled, i);
      assert ms[i] == ms[1..][i - 1];
    }
    assert n < |ms| ==> ms[n] == ms[1..][n - 1];
  }

  lemma NoRequests(s: Config, disk: Disk)
    ensures DiskAfter(s, disk, []) == disk
  {
  }

  /** A session over messages of known types handles, in order, exactly those before the first one that
      is empty or refused, each on the disk the earlier ones left; it ends without an error exactly
      when none was refused. */
  lemma {:induction false} SessionHandlesInOrder(s: Config, disk: Disk, ms: seq<Message>)
    requires forall i :: 0 <= i < |ms| ==> Sendable(ms[i]) && Known(ms[i].kind)
    ensures StopsRight(s, disk, ms, Converse(s, disk, EncodeAll(ms)))
    decreases |ms|
  {
    hide Accepts, Handled, StopsRight;
    if ms == [] {
      NothingSent(s, disk);
    } else if ms[0].length == 0 {
      EmptyRequestEnds(s, disk, ms[0], EncodeAll(ms[1..]));
      StopsAtOnce(s, disk, ms, Converse(s, disk, EncodeAll(ms)));
    } else {
      var d := Delivered(ms[0]);
      FirstRequest(s, disk, ms[0], EncodeAll(ms[1..]));
      SucceedsIffAccepted(s, disk, d);
      var o := Handled(s, disk, d.0, d.1);
      if o.ok {
        SessionHandlesInOrder(s, o.disk, ms[1..]);
        StopsLater(s, disk, ms, Converse(s, o.disk, EncodeAll(ms[1..])), o.reply);
      } else {
        StopsAtOnce(s, disk, ms, Converse(s, disk, EncodeAll(ms)));
      }
    }
  }

  lemma NothingSent(s: Config, disk: Disk)
    ensures StopsRight(s, disk, [], Converse(s, disk, EncodeAll([])))
  {
  }

  lemma StopsAtOnce(s: Config, disk: Disk, ms: seq<Message>, r: Session)
    requires ms != [] && forall i :: 0 <= i < |ms| ==> Sendable(ms[i])
    requires r.handled == [] && (r.ok <==> ms[0].length == 0) && (r.ok ==> r.disk == disk)
    requires ms[0].length == 0 || !Accepts(s, disk, Delivered(ms[0]))
    ensures StopsRight(s, disk, ms, r)
  {
    hide Accepts;
  }

  /** A ping cut short by the end of the stream is answered with what arrived of it. */
  lemma CutPingIsAnswered(s: Config, disk: Disk, length: nat, got: seq<byte>)
    requires |got| < length <= MAX_PAYLOAD
    ensures Converse(s, disk, Header(TYPE_PING, length) + got) ==
            Session([(TYPE_PING, got)], disk,
                    EncodeMessage(Message(TYPE_PING_RESPONSE, |got|, Some(got))).written, true)
  {
    var input, answer := Header(TYPE_PING, length) + got, Message(TYPE_PING_RESPONSE, |got|, Some(got));
    assert got[..|got|] == got && got[|got|..] == [];
    PingAnswered(s, disk, got);
    EndOfInput(s, disk);
    hide Header, DecodeHeader, Converse, EncodeMessage, Handled;
    HeaderRoundTrip(TYPE_PING, length, got);
    Turn(s, disk, input);
    assert EncodeMessage(answer).written + [] == EncodeMessage(answer).written;
  }

  lemma PingAnswered(s: Config, disk: Disk, got: seq<byte>)
    requires |got| <= MAX_PAYLOAD
    ensures Handled(s, disk, TYPE_PING, got) ==
            Outcome(disk, EncodeMessage(Message(TYPE_PING_RESPONSE, |got|, Some(got))).written, true)
  {
    hide Header;
  }

  lemma EndOfInput(s: Config, disk: Disk)
    ensures Converse(s, disk, []) == Session([], disk, [], true)
  {
  }

  /** After a message of unknown type the loop reads that message's payload as headers. */
  lemma UnknownTypeMisaligns(s: Config, disk: Disk, m: Message, rest: seq<byte>)
    requires Sendable(m) && m.length > 0 && !Known(m.kind)
    ensures Converse(s, disk, EncodeMessage(m).written + rest) ==
            Converse(s, disk, m.payload.value[..m.length] + rest)
  {
    EncodedSplits(m, rest);
    HeaderRoundTrip(m.kind, m.length, m.payload.value[..m.length] + rest);
  }

  // ---- What the disk holds ----

  /** Whatever lies at a key's final path hashes to the key. */
  ghost predicate Verified(s: Config, disk: Disk) {
    forall key :: Storable(key) && FinalPath(key, s.depth) in disk ==> s.hash(disk[FinalPath(key, s.depth)]) == key
  }

  lemma HandlerKeepsVerified(s: Config, disk: Disk, kind: byte, payload: seq<byte>)
    requires Known(kind) && Verified(s, disk)
    ensures Verified(s, Handled(s, disk, kind, payload).disk)
  {
    hide FinalPath, TempPath, Storable, SplitWrite, Text;
    var disk' := Handled(s, disk, kind, payload).disk;
    if disk' != disk {
      var (meta, chunk) := SplitWrite(payload).value;
      var key := s.decodeId(meta).value;
      forall k | Storable(k) && FinalPath(k, s.depth) in disk' ensures s.hash(disk'[FinalPath(k, s.depth)]) == k {
        TempIsNeverFinal(key, k, s.depth);
        if k != key {
          PathsAreInjective(key, k, s.depth);
        }
      }
    }
  }

  /** What a read of a key is served. */
  function ReadKey(s: Config, disk: Disk, key: string): (r: Option<seq<byte>>) {
    var path := FinalPath(key, s.depth);
    if path in disk then Some(disk[path]) else None
  }

  ghost predicate SameReads(s: Config, disk: Disk, disk': Disk) {
    forall key :: Storable(key) ==> ReadKey(s, disk', key) == ReadKey(s, disk, key)
  }

  /** What one handler does to reads: a write that is accepted makes its key name its chunk; nothing else
      changes what any key names, and a refused request changes it for none. */
  lemma HandledReads(s: Config, disk: Disk, d: Request, key: string)
    requires Known(d.0) && Storable(key)
    ensures var o := Handled(s, disk, d.0, d.1);
            ReadKey(s, o.disk, key) ==
            if d.0 == TYPE_WRITE && o.ok && KeyOf(s, d.1) == Some(key) then Some(SplitWrite(d.1).value.1)
            else ReadKey(s, disk, key)
  {
    hide FinalPath, TempPath, SplitWrite, Text;
    if d.0 == TYPE_WRITE && KeyOf(s, d.1).Some? {
      var k := KeyOf(s, d.1).value;
      TempIsNeverFinal(k, key, s.depth);
      if k != key {
        PathsAreInjective(k, key, s.depth);
      }
    }
  }

  lemma RefusedKeepsReads(s: Config, disk: Disk, d: Request)
    requires Known(d.0) && !Handled(s, disk, d.0, d.1).ok
    ensures SameReads(s, disk, Handled(s, disk, d.0, d.1).disk)
  {
    hide Handled, ReadKey, Storable;
    forall key | Storable(key)
      ensures ReadKey(s, Handled(s, disk, d.0, d.1).disk, key) == ReadKey(s, disk, key)
    {
      HandledReads(s, disk, d, key);
    }
  }

  /** The last chunk that a sequence of handled requests wrote under a key. */
  function LastWritten(s: Config, ds: seq<Request>, key: string): (r: Option<seq<byte>>) {
    if ds == [] then None
    else
      var d := ds[|ds| - 1];
      if d.0 == TYPE_WRITE && KeyOf(s, d.1) == Some(key) then Some(SplitWrite(d.1).value.1)
      else LastWritten(s, ds[..|ds| - 1], key)
  }

  lemma {:induction false} LastWrittenFront(s: Config, d: Request, ds: seq<Request>, key: string)
    ensures LastWritten(s, [d] + ds, key) ==
            if LastWritten(s, ds, key).Some? then LastWritten(s, ds, key) else LastWritten(s, [d], key)
    decreases |ds|
  {
    hide KeyOf, SplitWrite;
    if ds == [] {
      assert [d] + ds == [d];
    } else {
      assert ([d] + ds)[..|ds|] == [d] + ds[..|ds| - 1];
      LastWrittenFront(s, d, ds[..|ds| - 1], key);
    }
  }

  /** After any bytes on a connection, a key names the last chunk that the handled requests wrote under it,
      and what it named before if there was none; whether or not the session ended with a refusal. */
  lemma {:induction false} SessionServesLastWrites(s: Config, disk: Disk, input: seq<byte>, key: string)
    requires Storable(key)
    ensures var r := Converse(s, disk, input);
            ReadKey(s, r.disk, key) ==
            if LastWritten(s, r.handled, key).Some? then LastWritten(s, r.handled, key) else ReadKey(s, disk, key)
    decreases |input|
  {
    hide Handled, ReadKey, KeyOf, SplitWrite, DecodeHeader, Converse, Storable;
    var d := DecodeHeader(input);
    if !d.Frame? || d.length == 0 {
      LastTurn(s, disk, input);
    } else if !Known(d.kind) {
      SkippedTurn(s, disk, input);
      SessionServesLastWrites(s, disk, d.rest, key);
    } else {
      Turn(s, disk, input);
      var n := Min(d.length, |d.rest|);
      var o := Handled(s, disk, d.kind, d.rest[..n]);
      HandledReads(s, disk, (d.kind, d.rest[..n]), key);
      if o.ok {
        SessionServesLastWrites(s, o.disk, d.rest[n..], key);
        LastWrittenFront(s, (d.kind, d.rest[..n]), Converse(s, o.disk, d.rest[n..]).handled, key);
        OneWritten(s, (d.kind, d.rest[..n]), key);
      }
    }
  }

  lemma OneWritten(s: Config, d: Request, key: string)
    ensures LastWritten(s, [d], key) ==
            if d.0 == TYPE_WRITE && KeyOf(s, d.1) == Some(key) then Some(SplitWrite(d.1).value.1) else None
  {
    hide KeyOf, SplitWrite;
    assert [d][..0] == [];
  }

  /** Whatever bytes arrive on a connection, every published chunk stays verified. */
  lemma {:induction false} SessionKeepsVerified(s: Config, disk: Disk, input: seq<byte>)
    requires Verified(s, disk)
    ensures Verified(s, Converse(s, disk, input).disk)
    decreases |input|
  {
    hide Verified, Handled;
    var d := DecodeHeader(input);
    if d.Frame? && d.length > 0 {
      if Known(d.kind) {
        var n := Min(d.length, |d.rest|);
        var o := Handled(s, disk, d.kind, d.rest[..n]);
        HandlerKeepsVerified(s, disk, d.kind, d.rest[..n]);
        SessionKeepsVerified(s, o.disk, d.rest[n..]);
      } else {
        SessionKeepsVerified(s, disk, d.rest);
      }
    }
  }

  /** A chunk stored under its hash is what that hash names; other keys name what they did before. */
  lemma StoredChunkIsReadBack(s: Config, disk: Disk, meta: seq<byte>, chunk: seq<byte>, other: string)
    requires 4 + |chunk| + |meta| < TWO_TO_32 && s.decodeId(meta) == Some(s.hash(chunk))
    requires Storable(other) && other != s.hash(chunk)
    ensures var o := Handled(s, disk, TYPE_WRITE, WritePayload(meta, chunk));
            var path := FinalPath(other, s.depth);
            && o.ok && FinalPath(s.hash(chunk), s.depth) in o.disk
            && o.disk[FinalPath(s.hash(chunk), s.depth)] == chunk
            && (path in o.disk <==> path in disk) && (path in disk ==> o.disk[path] == disk[path])
  {
    WriteRoundTrip(meta, chunk);
    hide FinalPath, TempPath, SplitWrite, WritePayload, Storable;
    PathsAreInjective(s.hash(chunk), other, s.depth);
    TempIsNeverFinal(s.hash(chunk), other, s.depth);
  }

  /** From client to chunk server and back: writing a chunk and then reading its hash over the same
      connection sends back one message, whose payload is the chunk. */
  lemma WriteThenRead(s: Config, disk: Disk, meta: seq<byte>, chunk: seq<byte>, name: seq<byte>)
    requires 4 + |chunk| + |meta| <= MAX_PAYLOAD && s.decodeId(meta) == Some(s.hash(chunk))
    requires 0 < |name| <= MAX_PAYLOAD && Text(name) == s.hash(chunk)
    ensures var read := Message(TYPE_READ, |name|, Some(name));
            var r := Converse(s, disk, EncodeAll([WriteMessage(meta, chunk), read]));
            r.ok && DecodeAll(r.replies) == Some([(TYPE_READ_RESPONSE, chunk)])
  {
    var write, read := WriteMessage(meta, chunk), Message(TYPE_READ, |name|, Some(name));
    assert name[..|name|] == name;
    assert [write, read][1..] == [read] && [read][1..] == [];
    hide Handled, Converse, DecodeAll, SplitWrite, EncodeMessage, Text;
    WriteIsDelivered(meta, chunk);
    StoredAndServed(s, disk, meta, chunk, name);
    FirstRequest(s, disk, write, EncodeAll([read]));
    var o := Handled(s, disk, TYPE_WRITE, WritePayload(meta, chunk));
    FirstRequest(s, o.disk, read, EncodeAll([]));
    LastTurn(s, o.disk, EncodeAll([]));
    OneReply(Message(TYPE_READ_RESPONSE, |chunk|, Some(chunk)), chunk);
  }

  lemma WriteIsDelivered(meta: seq<byte>, chunk: seq<byte>)
    requires 4 + |chunk| + |meta| <= MAX_PAYLOAD
    ensures Sendable(WriteMessage(meta, chunk))
    ensures Delivered(WriteMessage(meta, chunk)) == (TYPE_WRITE, WritePayload(meta, chunk))
  {
    WriteRoundTrip(meta, chunk);
    hide WritePayload;
    var p := WritePayload(meta, chunk);
    assert p[..|p|] == p;
  }

  lemma StoredAndServed(s: Config, disk: Disk, meta: seq<byte>, chunk: seq<byte>, name: seq<byte>)
    requires 4 + |chunk| + |meta| <= MAX_PAYLOAD && s.decodeId(meta) == Some(s.hash(chunk))
    requires Text(name) == s.hash(chunk)
    ensures var o := Handled(s, disk, TYPE_WRITE, WritePayload(meta, chunk));
            var answer := Message(TYPE_READ_RESPONSE, |chunk|, Some(chunk));
            && o.ok && o.reply == []
            && Handled(s, o.disk, TYPE_READ, name) == Outcome(o.disk, EncodeMessage(answer).written, true)
  {
    WriteRoundTrip(meta, chunk);
    hide FinalPath, TempPath, SplitWrite, WritePayload, Text, EncodeMessage;
    var o := Handled(s, disk, TYPE_WRITE, WritePayload(meta, chunk));
    assert o.disk == (disk - {TempPath(s.hash(chunk), s.depth)})[FinalPath(s.hash(chunk), s.depth) := chunk];
    FitsMessage(chunk);
  }

  lemma FitsMessage(chunk: seq<byte>)
    requires |chunk| <= MAX_PAYLOAD
    ensures |chunk| % TWO_TO_32 == |chunk|
    ensures EncodeMessage(Message(TYPE_READ_RESPONSE, |chunk|, Some(chunk))).error.None?
  {
    hide Header;
  }

  lemma OneReply(m: Message, payload: seq<byte>)
    requires Sendable(m) && m.payload == Some(payload) && m.length == |payload|
    ensures DecodeAll(EncodeMessage(m).written + []) == Some([(m.kind, payload)])
    ensures [] + (EncodeMessage(m).written + []) == EncodeMessage(m).written + []
  {
    StreamRoundTrip([m]);
    assert [m][1..] == [];
    assert payload[..|payload|] == payload;
    assert DecodeAll(EncodeAll([m])).value == [Delivered(m)];
  }
}
