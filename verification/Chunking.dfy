/** Cutting a file into chunks, the metadata keyed by chunk id, and the writer reassembly uses. */
module Chunking {
  import opened Results
  import opened Bytes
  import opened History

  /** The client's ChunkSize. */
  const CHUNK_SIZE: nat := 64 * 0x10_0000

  /** A chunk as prepared for sending: its content-derived id, its place in the file and its bytes. */
  datatype Chunk = Chunk(id: string, info: ChunkInfo, data: seq<byte>)

  type Hash = seq<byte> -> string

  function Min(a: nat, b: nat): (m: nat) {
    if a < b then a else b
  }

  function Count(size: nat, k: nat): (n: nat)
    requires k > 0
  {
    size / k + if size % k != 0 then 1 else 0
  }

  /** Chunk i covers the bytes from Start(i) up to Start(i + 1), or to the end of the file. */
  function Start(k: nat, i: nat): (off: nat) {
    i * k
  }

  function Data(f: seq<byte>, k: nat, i: nat): (data: seq<byte>)
    requires Start(k, i) <= |f|
  {
    f[Start(k, i)..Min(Start(k, i) + k, |f|)]
  }

  function ChunkAt(f: seq<byte>, k: nat, hash: Hash, i: nat): (c: Chunk)
    requires Start(k, i) <= |f|
  {
    var data := Data(f, k, i);
    Chunk(hash(data), ChunkInfo(|data|, Start(k, i), ""), data)
  }

  lemma StartNext(k: nat, i: nat)
    ensures Start(k, i + 1) == Start(k, i) + k
  {
    assert (i + 1) * k == i * k + k;
  }

  lemma {:induction false} StartMonotone(k: nat, i: nat, j: nat)
    requires i <= j
    ensures Start(k, i) <= Start(k, j)
    ensures i < j ==> Start(k, i) + k <= Start(k, j)
    decreases j - i
  {
    if i < j {
      StartNext(k, i);
      StartMonotone(k, i + 1, j);
    }
  }

  /** Every chunk starts inside the file and the last one reaches its end. */
  lemma CountCovers(size: nat, k: nat)
    requires k > 0
    ensures size <= Start(k, Count(size, k))
    ensures forall i :: 0 <= i < Count(size, k) ==> Start(k, i) < size
  {
    var q, r := size / k, size % k;
    assert size == k * q + r;
    assert Start(k, q) == k * q;
    StartNext(k, q);
    forall i | 0 <= i < Count(size, k) ensures Start(k, i) < size {
      StartMonotone(k, i, q);
    }
  }

  predicate IsChunking(f: seq<byte>, k: nat, hash: Hash, chunks: seq<Chunk>)
    requires k > 0
  {
    |chunks| == Count(|f|, k) &&
    forall i :: 0 <= i < |chunks| ==> Start(k, i) < |f| && chunks[i] == ChunkAt(f, k, hash, i)
  }

  /** Chunk i in plain terms: its section of the file under the hash of that section. */
  predicate CutAt(f: seq<byte>, k: nat, hash: Hash, chunk: Chunk, i: nat) {
    && i * k < |f| && chunk.data == f[i * k..Min((i + 1) * k, |f|)]
    && chunk.id == hash(chunk.data) && chunk.info == ChunkInfo(|chunk.data|, i * k, "")
  }

  lemma ChunkParts(f: seq<byte>, k: nat, hash: Hash, chunks: seq<Chunk>, i: nat)
    requires k > 0 && IsChunking(f, k, hash, chunks) && i < |chunks|
    ensures CutAt(f, k, hash, chunks[i], i)
  {
    StartNext(k, i);
  }

  function Joined(chunks: seq<Chunk>): (f: seq<byte>) {
    if chunks == [] then [] else Joined(chunks[..|chunks| - 1]) + chunks[|chunks| - 1].data
  }

  /** Chunks laid end to end are the file: nothing is skipped, repeated or reordered. */
  lemma ChunksJoinToFile(f: seq<byte>, k: nat, hash: Hash, chunks: seq<Chunk>)
    requires k > 0 && IsChunking(f, k, hash, chunks)
    ensures Joined(chunks) == f
  {
    CountCovers(|f|, k);
    JoinedPrefix(f, k, hash, chunks, |chunks|);
    assert chunks[..|chunks|] == chunks;
    assert f[..|f|] == f;
  }

  lemma {:induction false} JoinedPrefix(f: seq<byte>, k: nat, hash: Hash, chunks: seq<Chunk>, n: nat)
    requires k > 0 && IsChunking(f, k, hash, chunks) && n <= |chunks|
    ensures Joined(chunks[..n]) == f[..Min(Start(k, n), |f|)]
  {
    if n > 0 {
      JoinedPrefix(f, k, hash, chunks, n - 1);
      assert chunks[..n][..n - 1] == chunks[..n - 1];
      StartNext(k, n - 1);
    }
  }

  /** chunkFiles: one section of the file after the other, with what remains counted down. */
  method ChunkFiles(f: seq<byte>, k: nat, hash: Hash) returns (chunks: seq<Chunk>)
    requires k > 0
    ensures IsChunking(f, k, hash, chunks)
    ensures forall i :: 0 <= i < |chunks| ==> CutAt(f, k, hash, chunks[i], i)
  {
    var size := |f|;
    var chunkCount := size / k;
    var remain := size;
    if size % k != 0 {
      chunkCount := chunkCount + 1;
    }
    CountCovers(size, k);
    chunks := [];
    var i := 0;
    while i < chunkCount
      invariant 0 <= i <= chunkCount == Count(size, k)
      invariant remain == size - Min(Start(k, i), size)
      invariant |chunks| == i
      invariant forall j :: 0 <= j < i ==> Start(k, j) < size && chunks[j] == ChunkAt(f, k, hash, j)
    {
      var n := Min(remain, k);
      var off := i * k;
      assert off == Start(k, i) < size;
      var section := f[off..off + n];
      assert section == Data(f, k, i);
      chunks := chunks + [Chunk(hash(section), ChunkInfo(n, off, ""), section)];
      remain := remain - n;
      StartNext(k, i);
      i := i + 1;
    }
    ghost var cut := chunks;
    hide ChunkAt, Start, Data, Count;
    forall i | 0 <= i < |cut| ensures CutAt(f, k, hash, cut[i], i) {
      ChunkParts(f, k, hash, cut, i);
    }
  }

  // ---- Metadata keyed by chunk id ----

  function InfoOf(chunks: seq<Chunk>): (m: map<string, ChunkInfo>) {
    if chunks == [] then map[]
    else InfoOf(chunks[..|chunks| - 1])[chunks[|chunks| - 1].id := chunks[|chunks| - 1].info]
  }

  method BuildFileMetadata(chunks: seq<Chunk>, size: nat, name: string) returns (meta: FileMetadata)
    ensures meta == FileMetadata(size, name, InfoOf(chunks))
  {
    var chunkInfo: map<string, ChunkInfo> := map[];
    var i := 0;
    while i < |chunks|
      invariant 0 <= i <= |chunks|
      invariant chunkInfo == InfoOf(chunks[..i])
    {
      assert chunks[..i + 1][..i] == chunks[..i];
      chunkInfo := chunkInfo[chunks[i].id := chunks[i].info];
      i := i + 1;
    }
    assert chunks[..|chunks|] == chunks;
    meta := FileMetadata(size, name, chunkInfo);
  }

  /** No later chunk has the same id. */
  predicate LastWithId(chunks: seq<Chunk>, i: nat)
    requires i < |chunks|
  {
    forall j :: i < j < |chunks| ==> chunks[j].id != chunks[i].id
  }

  /** Identical chunks share one entry, and it is the last one's. */
  lemma {:induction false} InfoIsLast(chunks: seq<Chunk>, i: nat)
    requires i < |chunks| && LastWithId(chunks, i)
    ensures chunks[i].id in InfoOf(chunks) && InfoOf(chunks)[chunks[i].id] == chunks[i].info
  {
    if i < |chunks| - 1 {
      InfoIsLast(chunks[..|chunks| - 1], i);
    }
  }

  lemma {:induction false} InfoComesFromLast(chunks: seq<Chunk>, id: string) returns (i: nat)
    requires id in InfoOf(chunks)
    ensures i < |chunks| && chunks[i].id == id && LastWithId(chunks, i)
  {
    if chunks[|chunks| - 1].id == id {
      i := |chunks| - 1;
    } else {
      i := InfoComesFromLast(chunks[..|chunks| - 1], id);
    }
  }

  /** The same entries up to the addresses, which the server fills in. */
  predicate SamePlaces(a: map<string, ChunkInfo>, b: map<string, ChunkInfo>) {
    a.Keys == b.Keys && forall id :: id in a ==> id in b && a[id].size == b[id].size && a[id].offset == b[id].offset
  }

  /** updateChunkInfo: every chunk takes the entry of its id from the server's reply, a nil one if the
      reply has none. From a reply that adds addresses to what was registered, the last chunk of an id
      keeps its own place, and earlier identical chunks take that place as well. */
  method UpdateChunkInfo(meta: FileMetadata, chunks: seq<Chunk>) returns (infos: seq<Option<ChunkInfo>>)
    ensures |infos| == |chunks|
    ensures forall i :: 0 <= i < |chunks| ==>
              infos[i] == if chunks[i].id in meta.chunkInfo then Some(meta.chunkInfo[chunks[i].id]) else None
    ensures SamePlaces(meta.chunkInfo, InfoOf(chunks)) ==>
              forall i, j :: 0 <= i <= j < |chunks| && chunks[i].id == chunks[j].id && LastWithId(chunks, j) ==>
                               && infos[i].Some?
                               && infos[i].value.size == chunks[j].info.size
                               && infos[i].value.offset == chunks[j].info.offset
  {
    infos := [];
    var i := 0;
    while i < |chunks|
      invariant 0 <= i <= |chunks| && |infos| == i
      invariant forall j :: 0 <= j < i ==>
                  infos[j] == if chunks[j].id in meta.chunkInfo then Some(meta.chunkInfo[chunks[j].id]) else None
    {
      var id := chunks[i].id;
      infos := infos + [if id in meta.chunkInfo then Some(meta.chunkInfo[id]) else None];
      i := i + 1;
    }
    forall j | 0 <= j < |chunks| && LastWithId(chunks, j)
      ensures chunks[j].id in InfoOf(chunks) && InfoOf(chunks)[chunks[j].id] == chunks[j].info
    {
      InfoIsLast(chunks, j);
    }
  }

  // ---- Positioned writing ----

  function Zeros(n: nat): (z: seq<byte>)
    ensures |z| == n && forall i :: 0 <= i < n ==> z[i] == 0
  {
    seq(n, i => 0)
  }

  /** os.File.WriteAt: a write past the end leaves a hole of zero bytes. */
  function WriteAt(f: seq<byte>, off: nat, p: seq<byte>): (r: seq<byte>) {
    if p == [] then f
    else
      var g := if |f| < off then f + Zeros(off - |f|) else f;
      g[..off] + p + if off + |p| < |g| then g[off + |p|..] else []
  }

  lemma WriteAtBytes(f: seq<byte>, off: nat, p: seq<byte>)
    requires p != []
    ensures |WriteAt(f, off, p)| == if |f| > off + |p| then |f| else off + |p|
    ensures forall b :: 0 <= b < |WriteAt(f, off, p)| ==>
              WriteAt(f, off, p)[b] == if off <= b < off + |p| then p[b - off] else if b < |f| then f[b] else 0
  {
  }

  lemma AdjoiningWrites(f: seq<byte>, off: nat, p: seq<byte>, q: seq<byte>)
    requires p != [] && q != []
    ensures WriteAt(WriteAt(f, off, p), off + |p|, q) == WriteAt(f, off, p + q)
  {
    hide WriteAt;
    var g := WriteAt(f, off, p);
    var twice, once := WriteAt(g, off + |p|, q), WriteAt(f, off, p + q);
    WriteAtBytes(f, off, p);
    WriteAtBytes(g, off + |p|, q);
    WriteAtBytes(f, off, p + q);
    assert |twice| == |once|;
    forall b | 0 <= b < |once| ensures twice[b] == once[b] {
      assert b < |g| || off + |p| <= b;
    }
  }

  /** Two adjoining writes are one. */
  lemma WriteAtConcat(f: seq<byte>, off: nat, p: seq<byte>, q: seq<byte>)
    ensures WriteAt(WriteAt(f, off, p), off + |p|, q) == WriteAt(f, off, p + q)
  {
    if p == [] {
      assert p + q == q;
    } else if q == [] {
      assert p + q == p;
    } else {
      hide WriteAt;
      AdjoiningWrites(f, off, p, q);
    }
  }

  /** What was taken of the next piece continues the write. */
  lemma NextPiece(f: seq<byte>, off: nat, payload: seq<byte>, n: nat, m: nat, taken: nat)
    requires n + m <= |payload| && taken <= m
    ensures WriteAt(WriteAt(f, off, payload[..n]), off + n, payload[n..n + m][..taken]) ==
            WriteAt(f, off, payload[..n + taken])
  {
    hide WriteAt;
    assert payload[n..n + m][..taken] == payload[n..n + taken];
    assert payload[..n + taken] == payload[..n] + payload[n..n + taken];
    WriteAtConcat(f, off, payload[..n], payload[n..n + taken]);
  }

  class RandomAccessFile {
    var data: seq<byte>

    constructor ()
      ensures data == []
    {
      data := [];
    }
  }

  /** WriterAtAdapter: a stream writer whose offset moves on with every write. */
  class WriterAtAdapter {
    const w: RandomAccessFile
    var off: nat

    constructor (w: RandomAccessFile, off: nat)
      ensures this.w == w && this.off == off
    {
      this.w, this.off := w, off;
    }

    /** The underlying writer takes up to `room` bytes before it fails; the offset moves by what was
        taken. */
    method Write(p: seq<byte>, room: nat) returns (n: nat, ok: bool)
      modifies this, w
      ensures n == Min(|p|, room) && off == old(off) + n && (ok <==> |p| <= room)
      ensures w.data == WriteAt(old(w.data), old(off), p[..n])
    {
      n := Min(|p|, room);
      w.data := WriteAt(w.data, off, p[..n]);
      off := off + n;
      ok := n == |p|;
    }
  }

  /** readChunk's copy, in pieces of whatever size arrives, onto a file that takes up to `room` bytes:
      all the pieces together are one write of the chunk at its offset, as far as it got. */
  method CopyChunk(file: RandomAccessFile, offset: nat, payload: seq<byte>, size: nat, piece: nat, room: nat)
    returns (ok: bool)
    requires piece > 0
    modifies file
    ensures ok <==> size <= |payload| && size <= room
    ensures file.data == WriteAt(old(file.data), offset, payload[..Min(Min(size, |payload|), room)])
  {
    hide WriteAt;
    var writer := new WriterAtAdapter(file, offset);
    var n, all := 0, Min(size, |payload|);
    NothingWritten(file.data, offset, payload[..0]);
    while n < all
      invariant 0 <= n <= Min(all, room)
      invariant writer.w == file && fresh(writer) && writer.off == offset + n
      invariant file.data == WriteAt(old(file.data), offset, payload[..n])
    {
      var m := Min(piece, all - n);
      var taken, whole := writer.Write(payload[n..n + m], room - n);
      NextPiece(old(file.data), offset, payload, n, m, taken);
      n := n + taken;
      if !whole {
        return false;
      }
    }
    ok := n == size;
  }

  lemma NothingWritten(f: seq<byte>, off: nat, p: seq<byte>)
    requires p == []
    ensures WriteAt(f, off, p) == f
  {
  }
}
