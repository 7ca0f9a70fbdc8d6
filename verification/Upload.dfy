/** A file from end to end: cut into chunks, sent over connections in any order, verified and published by
    the chunk server, read back by id and put together again. */
module Upload {
  import opened Results
  import opened Bytes
  import opened StoragePath
  import opened MessageProtocol
  import opened Chunking
  import opened ChunkServer
  import opened Reassembly

  /** Each chunk's encoded metadata names its id, its message fits the cap, and the id is not itself the
      name of a temporary file. */
  predicate Packed(s: ChunkServer.Config, chunks: seq<Chunk>, metas: seq<seq<byte>>) {
    && |metas| == |chunks|
    && forall i :: 0 <= i < |chunks| ==>
         && 4 + |chunks[i].data| + |metas[i]| <= MAX_PAYLOAD
         && s.decodeId(metas[i]) == Some(chunks[i].id) && Storable(chunks[i].id)
  }

  /** What the client puts on the connection for a chunk. */
  function Parcel(chunk: Chunk, meta: seq<byte>): (input: seq<byte>) {
    EncodeMessage(WriteMessage(meta, chunk.data)).written
  }

  /** A chunk as it was cut is accepted by every server with the same hash. */
  lemma CutChunkIsAccepted(f: seq<byte>, k: nat, s: ChunkServer.Config, disk: Disk, chunks: seq<Chunk>,
                           metas: seq<seq<byte>>, i: nat)
    requires k > 0 && IsChunking(f, k, s.hash, chunks) && Packed(s, chunks, metas) && i < |chunks|
    ensures Accepts(s, disk, (TYPE_WRITE, WritePayload(metas[i], chunks[i].data)))
    ensures KeyOf(s, WritePayload(metas[i], chunks[i].data)) == Some(chunks[i].id)
  {
    WriteRoundTrip(metas[i], chunks[i].data);
    hide SplitWrite, WritePayload;
  }

  /** Its connection is one handled request. */
  lemma ParcelIsHandled(f: seq<byte>, k: nat, s: ChunkServer.Config, disk: Disk, chunks: seq<Chunk>,
                        metas: seq<seq<byte>>, i: nat)
    requires k > 0 && IsChunking(f, k, s.hash, chunks) && Packed(s, chunks, metas) && i < |chunks|
    ensures var r := Converse(s, disk, Parcel(chunks[i], metas[i]));
            r.ok && r.handled == [(TYPE_WRITE, WritePayload(metas[i], chunks[i].data))]
  {
    var m := WriteMessage(metas[i], chunks[i].data);
    CutChunkIsAccepted(f, k, s, disk, chunks, metas, i);
    WriteIsDelivered(metas[i], chunks[i].data);
    hide Accepts, WritePayload, EncodeMessage, Converse, Handled, IsChunking;
    assert EncodeMessage(m).written + [] == EncodeMessage(m).written;
    FirstRequest(s, disk, m, []);
    PayloadFits(metas[i], chunks[i].data);
    SucceedsIffAccepted(s, disk, Delivered(m));
    EndOfInput(s, Handled(s, disk, TYPE_WRITE, WritePayload(metas[i], chunks[i].data)).disk);
  }

  lemma PayloadFits(meta: seq<byte>, chunk: seq<byte>)
    requires 4 + |chunk| + |meta| <= MAX_PAYLOAD
    ensures |WritePayload(meta, chunk)| <= MAX_PAYLOAD && WriteMessage(meta, chunk).length > 0
  {
  }

  // ---- One connection after the other ----

  /** The disk after all connections, and the requests they handled. */
  function AfterAll(s: ChunkServer.Config, disk: Disk, inputs: seq<seq<byte>>): (r: Disk) {
    if inputs == [] then disk
    else Converse(s, AfterAll(s, disk, inputs[..|inputs| - 1]), inputs[|inputs| - 1]).disk
  }

  function AllHandled(s: ChunkServer.Config, disk: Disk, inputs: seq<seq<byte>>): (ds: seq<Request>) {
    if inputs == [] then []
    else
      var front := inputs[..|inputs| - 1];
      AllHandled(s, disk, front) + Converse(s, AfterAll(s, disk, front), inputs[|inputs| - 1]).handled
  }

  lemma {:induction false} LastWrittenConcat(s: ChunkServer.Config, a: seq<Request>, b: seq<Request>, key: string)
    ensures LastWritten(s, a + b, key) ==
            if LastWritten(s, b, key).Some? then LastWritten(s, b, key) else LastWritten(s, a, key)
    decreases |b|
  {
    hide KeyOf, SplitWrite;
    if b == [] {
      assert a + b == a;
    } else {
      assert (a + b)[..|a + b| - 1] == a + b[..|b| - 1];
      LastWrittenConcat(s, a, b[..|b| - 1], key);
    }
  }

  /** After any number of connections, whatever arrives on them, a key names what was last written under
      it, or what it named before. */
  lemma {:induction false} ConnectionsServeLastWrites(s: ChunkServer.Config, disk: Disk, inputs: seq<seq<byte>>,
                                                      key: string)
    requires Storable(key)
    ensures var last := LastWritten(s, AllHandled(s, disk, inputs), key);
            ReadKey(s, AfterAll(s, disk, inputs), key) == if last.Some? then last else ReadKey(s, disk, key)
  {
    hide ReadKey, LastWritten, Converse, Storable;
    if inputs == [] {
      NothingWritten(s, key);
    } else {
      var front := inputs[..|inputs| - 1];
      ConnectionsServeLastWrites(s, disk, front, key);
      SessionServesLastWrites(s, AfterAll(s, disk, front), inputs[|inputs| - 1], key);
      LastWrittenConcat(s, AllHandled(s, disk, front),
                        Converse(s, AfterAll(s, disk, front), inputs[|inputs| - 1]).handled, key);
    }
  }

  lemma NothingWritten(s: ChunkServer.Config, key: string)
    ensures LastWritten(s, [], key) == None
  {
  }

  /** A handled write carries a chunk that hashes to its key. */
  predicate CheckedWrite(s: ChunkServer.Config, d: Request) {
    d.0 == TYPE_WRITE ==> KeyOf(s, d.1).Some? && s.hash(SplitWrite(d.1).value.1) == KeyOf(s, d.1).value
  }

  predicate AllChecked(s: ChunkServer.Config, ds: seq<Request>) {
    forall i :: 0 <= i < |ds| ==> CheckedWrite(s, ds[i])
  }

  lemma HandledIsChecked(s: ChunkServer.Config, disk: Disk, d: Request)
    requires Known(d.0) && Handled(s, disk, d.0, d.1).ok
    ensures CheckedWrite(s, d)
  {
    hide FinalPath, TempPath, SplitWrite, Text;
  }

  lemma {:induction false} SessionIsChecked(s: ChunkServer.Config, disk: Disk, input: seq<byte>)
    ensures AllChecked(s, Converse(s, disk, input).handled)
    decreases |input|
  {
    hide Handled, DecodeHeader, CheckedWrite, Converse;
    var d := DecodeHeader(input);
    if !d.Frame? || d.length == 0 {
      LastTurn(s, disk, input);
    } else if !Known(d.kind) {
      SkippedTurn(s, disk, input);
      SessionIsChecked(s, disk, d.rest);
    } else {
      Turn(s, disk, input);
      var n := Min(d.length, |d.rest|);
      var o := Handled(s, disk, d.kind, d.rest[..n]);
      if o.ok {
        HandledIsChecked(s, disk, (d.kind, d.rest[..n]));
        SessionIsChecked(s, o.disk, d.rest[n..]);
      }
    }
  }

  lemma {:induction false} ConnectionsAreChecked(s: ChunkServer.Config, disk: Disk, inputs: seq<seq<byte>>)
    ensures AllChecked(s, AllHandled(s, disk, inputs))
  {
    hide CheckedWrite, Converse;
    if inputs != [] {
      var front := inputs[..|inputs| - 1];
      ConnectionsAreChecked(s, disk, front);
      SessionIsChecked(s, AfterAll(s, disk, front), inputs[|inputs| - 1]);
    }
  }

  lemma {:induction false} InSomeConnection(s: ChunkServer.Config, disk: Disk, inputs: seq<seq<byte>>, j: nat)
    requires j < |inputs|
    ensures forall d :: d in Converse(s, AfterAll(s, disk, inputs[..j]), inputs[j]).handled ==>
              d in AllHandled(s, disk, inputs)
  {
    hide Converse;
    if j < |inputs| - 1 {
      var front := inputs[..|inputs| - 1];
      assert front[..j] == inputs[..j];
      InSomeConnection(s, disk, front, j);
    }
  }

  /** What was last written under a key is the chunk of one of the requests, and there is one if any request
      writes under the key. */
  lemma {:induction false} LastWrittenIsSome(s: ChunkServer.Config, ds: seq<Request>, d: Request, key: string)
    requires d in ds && d.0 == TYPE_WRITE && KeyOf(s, d.1) == Some(key)
    ensures LastWritten(s, ds, key).Some?
    ensures exists i :: 0 <= i < |ds| && WritesUnder(s, ds[i], key) &&
                        SplitWrite(ds[i].1).value.1 == LastWritten(s, ds, key).value
  {
    hide SplitWrite;
    var last := ds[|ds| - 1];
    if WritesUnder(s, last, key) {
      assert SplitWrite(ds[|ds| - 1].1).value.1 == LastWritten(s, ds, key).value;
    } else {
      var front := ds[..|ds| - 1];
      assert ds == front + [last];
      LastWrittenIsSome(s, front, d, key);
      var i :| 0 <= i < |front| && WritesUnder(s, front[i], key) &&
               SplitWrite(front[i].1).value.1 == LastWritten(s, front, key).value;
      assert ds[i] == front[i];
    }
  }

  predicate WritesUnder(s: ChunkServer.Config, d: Request, key: string) {
    d.0 == TYPE_WRITE && SplitWrite(d.1).Some? && KeyOf(s, d.1) == Some(key)
  }

  // ---- The upload ----

  /** Among what was written, no other bytes have the hash of a chunk. */
  ghost predicate CollisionFree(s: ChunkServer.Config, chunks: seq<Chunk>, ds: seq<Request>) {
    forall d, i :: d in ds && 0 <= i < |chunks| && WritesUnder(s, d, chunks[i].id) ==>
                     SplitWrite(d.1).value.1 == chunks[i].data
  }

  /** Every chunk went out on some connection; before, between and after them anything may have arrived. */
  predicate AllSent(chunks: seq<Chunk>, metas: seq<seq<byte>>, inputs: seq<seq<byte>>)
    requires |metas| == |chunks|
  {
    forall i :: 0 <= i < |chunks| ==> Parcel(chunks[i], metas[i]) in inputs
  }

  /** After the upload the server holds every chunk of the file under its id. */
  lemma UploadStores(f: seq<byte>, k: nat, s: ChunkServer.Config, disk: Disk, chunks: seq<Chunk>,
                     metas: seq<seq<byte>>, inputs: seq<seq<byte>>, i: nat)
    requires k > 0 && IsChunking(f, k, s.hash, chunks) && Packed(s, chunks, metas) && AllSent(chunks, metas, inputs)
    requires CollisionFree(s, chunks, AllHandled(s, disk, inputs)) && i < |chunks|
    ensures ReadKey(s, AfterAll(s, disk, inputs), chunks[i].id) == Some(chunks[i].data)
  {
    hide IsChunking, Parcel, ReadKey, LastWritten, Converse, AllHandled, AfterAll, KeyOf, SplitWrite, WritePayload;
    var key, ds := chunks[i].id, AllHandled(s, disk, inputs);
    var j :| 0 <= j < |inputs| && inputs[j] == Parcel(chunks[i], metas[i]);
    var before := AfterAll(s, disk, inputs[..j]);
    var d := (TYPE_WRITE, WritePayload(metas[i], chunks[i].data));
    ParcelIsHandled(f, k, s, before, chunks, metas, i);
    CutChunkIsAccepted(f, k, s, before, chunks, metas, i);
    InSomeConnection(s, disk, inputs, j);
    assert d in Converse(s, before, inputs[j]).handled;
    LastWrittenIsSome(s, ds, d, key);
    var n :| 0 <= n < |ds| && WritesUnder(s, ds[n], key) &&
             SplitWrite(ds[n].1).value.1 == LastWritten(s, ds, key).value;
    assert ds[n] in ds;
    ConnectionsServeLastWrites(s, disk, inputs, key);
  }

  /** Only what hashes to a chunk's id is ever written under it, so the hash decides. */
  lemma HashDecides(s: ChunkServer.Config, disk: Disk, chunks: seq<Chunk>, inputs: seq<seq<byte>>)
    requires forall d, i :: d in AllHandled(s, disk, inputs) && 0 <= i < |chunks| && SplitWrite(d.1).Some? &&
                            s.hash(SplitWrite(d.1).value.1) == chunks[i].id ==>
                              SplitWrite(d.1).value.1 == chunks[i].data
    ensures CollisionFree(s, chunks, AllHandled(s, disk, inputs))
  {
    hide SplitWrite, AllHandled, KeyOf;
    var ds := AllHandled(s, disk, inputs);
    ConnectionsAreChecked(s, disk, inputs);
    forall d, i | d in ds && 0 <= i < |chunks| && WritesUnder(s, d, chunks[i].id)
      ensures SplitWrite(d.1).value.1 == chunks[i].data
    {
      var n :| 0 <= n < |ds| && ds[n] == d;
      assert CheckedWrite(s, ds[n]);
    }
  }

  // ---- The download ----

  /** What the server sends for the ids of a reply. */
  function ServedFrom(s: ChunkServer.Config, disk: Disk, info: Info): (served: map<string, seq<byte>>) {
    map id | id in info && ReadKey(s, disk, id).Some? :: ReadKey(s, disk, id).value
  }

  /** And it does send it: a read of a key over a connection is answered with one message holding the file. */
  lemma ReadIsAnswered(s: ChunkServer.Config, disk: Disk, name: seq<byte>)
    requires 0 < |name| <= MAX_PAYLOAD && ReadKey(s, disk, Text(name)).Some?
    requires |ReadKey(s, disk, Text(name)).value| <= MAX_PAYLOAD
    ensures var r := Converse(s, disk, EncodeMessage(Message(TYPE_READ, |name|, Some(name))).written);
            r.ok && r.disk == disk &&
            DecodeAll(r.replies) == Some([(TYPE_READ_RESPONSE, ReadKey(s, disk, Text(name)).value)])
  {
    var read, chunk := Message(TYPE_READ, |name|, Some(name)), ReadKey(s, disk, Text(name)).value;
    assert name[..|name|] == name;
    FileIsServed(s, disk, name);
    hide Handled, Converse, DecodeAll, EncodeMessage, Text, ReadKey;
    assert EncodeMessage(read).written + [] == EncodeMessage(read).written;
    FirstRequest(s, disk, read, []);
    EndOfInput(s, disk);
    OneReply(Message(TYPE_READ_RESPONSE, |chunk|, Some(chunk)), chunk);
  }

  lemma FileIsServed(s: ChunkServer.Config, disk: Disk, name: seq<byte>)
    requires ReadKey(s, disk, Text(name)).Some? && |ReadKey(s, disk, Text(name)).value| <= MAX_PAYLOAD
    ensures var chunk := ReadKey(s, disk, Text(name)).value;
            Handled(s, disk, TYPE_READ, name) ==
            Outcome(disk, EncodeMessage(Message(TYPE_READ_RESPONSE, |chunk|, Some(chunk))).written, true)
  {
    hide FinalPath, Text, EncodeMessage;
    FitsMessage(ReadKey(s, disk, Text(name)).value);
  }

  lemma {:induction false} EveryIdIsRegistered(chunks: seq<Chunk>, i: nat)
    requires i < |chunks|
    ensures chunks[i].id in InfoOf(chunks)
  {
    if i < |chunks| - 1 {
      EveryIdIsRegistered(chunks[..|chunks| - 1], i);
    }
  }

  /** So after the upload the chunk server holds the file, as the download asks of it. */
  lemma UploadHolds(f: seq<byte>, k: nat, s: ChunkServer.Config, disk: Disk, chunks: seq<Chunk>,
                    metas: seq<seq<byte>>, inputs: seq<seq<byte>>, info: Info)
    requires k > 0 && IsChunking(f, k, s.hash, chunks) && Packed(s, chunks, metas) && AllSent(chunks, metas, inputs)
    requires CollisionFree(s, chunks, AllHandled(s, disk, inputs)) && SamePlaces(info, InfoOf(chunks))
    ensures Holds(ServedFrom(s, AfterAll(s, disk, inputs), info), chunks)
  {
    hide IsChunking, Packed, AllSent, CollisionFree, ReadKey, AfterAll, AllHandled, InfoOf;
    var served := ServedFrom(s, AfterAll(s, disk, inputs), info);
    forall i | 0 <= i < |chunks| ensures chunks[i].id in served && served[chunks[i].id] == chunks[i].data {
      UploadStores(f, k, s, disk, chunks, metas, inputs, i);
      EveryIdIsRegistered(chunks, i);
      assert chunks[i].id in info.Keys;
    }
  }

  /** From end to end: cut, uploaded over any connections and downloaded in any order, a file comes back
      exactly if every chunk of it that occurs again later is all zeros. */
  lemma FileComesBackIff(f: seq<byte>, k: nat, s: ChunkServer.Config, disk: Disk, chunks: seq<Chunk>,
                         metas: seq<seq<byte>>, inputs: seq<seq<byte>>, info: Info, evs: seq<Reassembly.Event>)
    requires k > 0 && IsChunking(f, k, s.hash, chunks) && Packed(s, chunks, metas) && AllSent(chunks, metas, inputs)
    requires CollisionFree(s, chunks, AllHandled(s, disk, inputs)) && SamePlaces(info, InfoOf(chunks))
    requires var served := ServedFrom(s, AfterAll(s, disk, inputs), info);
             Run(info, served, evs).Some? && AllDone(Run(info, served, evs).value)
    ensures Run(info, ServedFrom(s, AfterAll(s, disk, inputs), info), evs).value.file == f <==>
            forall i :: 0 <= i < |chunks| ==> LastWithId(chunks, i) || AllZero(chunks[i].data)
  {
    hide *;
    UploadHolds(f, k, s, disk, chunks, metas, inputs, info);
    RoundTripIff(f, k, s.hash, chunks, info, ServedFrom(s, AfterAll(s, disk, inputs), info), evs);
  }

  /** And from wherever the download stands it can be brought to its end. */
  lemma UploadCanBeFetched(f: seq<byte>, k: nat, s: ChunkServer.Config, disk: Disk, chunks: seq<Chunk>,
                           metas: seq<seq<byte>>, inputs: seq<seq<byte>>, info: Info, evs: seq<Reassembly.Event>)
    requires k > 0 && IsChunking(f, k, s.hash, chunks) && Packed(s, chunks, metas) && AllSent(chunks, metas, inputs)
    requires CollisionFree(s, chunks, AllHandled(s, disk, inputs)) && SamePlaces(info, InfoOf(chunks))
    requires Run(info, ServedFrom(s, AfterAll(s, disk, inputs), info), evs).Some?
    ensures exists more ::
              var r := Run(info, ServedFrom(s, AfterAll(s, disk, inputs), info), evs + more);
              r.Some? && AllDone(r.value)
  {
    hide IsChunking, Packed, AllSent, CollisionFree, ServedFrom, AfterAll, AllHandled, InfoOf, Run, AllDone, Holds;
    var served := ServedFrom(s, AfterAll(s, disk, inputs), info);
    UploadHolds(f, k, s, disk, chunks, metas, inputs, info);
    ChunksServe(f, k, s.hash, chunks, served);
    forall id | id in info ensures id in served && info[id].offset >= 0 && info[id].size <= |served[id]| {
      assert id in InfoOf(chunks).Keys;
    }
    DownloadCanCompleteIff(info, served, evs);
    var more :| Run(info, served, evs + more).Some? && AllDone(Run(info, served, evs + more).value);
  }
}
