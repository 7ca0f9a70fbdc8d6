/** Downloading a file: one job per metadata entry, all writing into one file at their own offsets, in
    any order, in pieces that interleave, with failed attempts started over. */
module Reassembly {
  import opened Results
  import opened Bytes
  import opened History
  import opened Chunking

  /** A job's current attempt has written `at` bytes; the most any attempt wrote is `reached`. */
  datatype Progress = Progress(at: nat, reached: nat, done: bool)

  datatype Download = Download(file: seq<byte>, jobs: map<string, Progress>)

  datatype Event = Piece(id: string, n: nat) | Retry(id: string) | Complete(id: string)

  type Info = map<string, ChunkInfo>

  function Begin(info: Info): (d: Download) {
    Download([], map id | id in info :: Progress(0, 0, false))
  }

  function Larger(a: nat, b: nat): (m: nat) {
    if a < b then b else a
  }

  function Next(info: Info, served: map<string, seq<byte>>, d: Download, ev: Event): (r: Option<Download>) {
    if ev.id !in info || ev.id !in d.jobs || ev.id !in served || d.jobs[ev.id].done || info[ev.id].offset < 0 then None
    else
      var job := d.jobs[ev.id];
      match ev
      case Piece(id, n) =>
        if job.at + n > info[id].size || job.at + n > |served[id]| then None
        else
          Some(Download(WriteAt(d.file, info[id].offset + job.at, served[id][job.at..job.at + n]),
                        d.jobs[id := Progress(job.at + n, Larger(job.reached, job.at + n), false)]))
      case Retry(id) => Some(d.(jobs := d.jobs[id := job.(at := 0)]))
      case Complete(id) => if job.at == info[id].size then Some(d.(jobs := d.jobs[id := job.(done := true)])) else None
  }

  function Run(info: Info, served: map<string, seq<byte>>, evs: seq<Event>): (r: Option<Download>) {
    if evs == [] then Some(Begin(info))
    else
      match Run(info, served, evs[..|evs| - 1])
      case None => None
      case Some(d) => Next(info, served, d, evs[|evs| - 1])
  }

  /** Every entry's chunk is served with the bytes of the source at the entry's place. */
  predicate Serves(src: seq<byte>, info: Info, served: map<string, seq<byte>>) {
    forall id :: id in info ==>
      && id in served && 0 <= info[id].offset && info[id].offset + info[id].size <= |src|
      && info[id].size <= |served[id]|
      && served[id][..info[id].size] == src[info[id].offset..info[id].offset + info[id].size]
  }

  predicate In(off: int, len: nat, b: nat) {
    off <= b < off + len
  }

  /** Some attempt of some job has written byte b. */
  predicate Covered(info: Info, jobs: map<string, Progress>, b: nat) {
    exists id :: id in jobs && id in info && In(info[id].offset, jobs[id].reached, b)
  }

  predicate GoodBytes(src: seq<byte>, info: Info, d: Download) {
    |d.file| <= |src| &&
    forall b :: 0 <= b < |d.file| ==> d.file[b] == if Covered(info, d.jobs, b) then src[b] else 0
  }

  predicate GoodJobs(info: Info, d: Download) {
    d.jobs.Keys == info.Keys &&
    forall id :: id in d.jobs ==>
      && d.jobs[id].at <= d.jobs[id].reached <= info[id].size
      && (d.jobs[id].done ==> d.jobs[id].reached == info[id].size)
      && (d.jobs[id].reached > 0 ==> info[id].offset + d.jobs[id].reached <= |d.file|)
  }

  lemma SliceOfSlice(s: seq<byte>, lo: nat, hi: nat, a: nat, b: nat)
    requires lo <= hi <= |s| && a <= b <= hi - lo
    ensures s[lo..hi][a..b] == s[lo + a..lo + b]
  {
    var t := s[lo..hi];
    forall i | 0 <= i < b - a ensures t[a..b][i] == s[lo + a..lo + b][i] {
      assert t[a..b][i] == t[a + i] == s[lo + a + i];
    }
  }

  lemma PieceIsSource(src: seq<byte>, info: Info, served: map<string, seq<byte>>, id: string, at: nat, n: nat)
    requires Serves(src, info, served) && id in info && at + n <= info[id].size
    ensures served[id][at..at + n] == src[info[id].offset + at..info[id].offset + at + n]
  {
    var off, size := info[id].offset, info[id].size;
    SliceOfSlice(served[id], 0, size, at, at + n);
    SliceOfSlice(src, off, off + size, at, at + n);
    assert served[id][0..size] == served[id][..size];
  }

  /** Byte b of the file after a piece p of the source was written at `at`. */
  lemma PieceByte(src: seq<byte>, info: Info, d: Download, id: string, n: nat, jobs': map<string, Progress>,
                  file': seq<byte>, at: nat, p: seq<byte>, b: nat)
    requires GoodJobs(info, d) && GoodBytes(src, info, d) && id in d.jobs
    requires jobs' == d.jobs[id := Progress(d.jobs[id].at + n, Larger(d.jobs[id].reached, d.jobs[id].at + n), false)]
    requires at == info[id].offset + d.jobs[id].at && |p| == n && at + n <= |src| && p == src[at..at + n]
    requires file' == WriteAt(d.file, at, p) && b < |file'|
    ensures b < |src| && file'[b] == if Covered(info, jobs', b) then src[b] else 0
  {
    if n > 0 {
      WriteAtBytes(d.file, at, p);
    }
    hide WriteAt;
    PieceCovers(info, d, id, n, jobs', b);
    if b >= |d.file| {
      UncoveredPastEnd(info, d, b);
    }
    hide Covered;
  }

  lemma PieceKeepsBytes(src: seq<byte>, info: Info, served: map<string, seq<byte>>, d: Download, id: string, n: nat,
                        d': Download)
    requires Serves(src, info, served) && GoodJobs(info, d) && GoodBytes(src, info, d)
    requires Next(info, served, d, Piece(id, n)) == Some(d')
    ensures GoodBytes(src, info, d')
  {
    var job, at := d.jobs[id], info[id].offset + d.jobs[id].at;
    var p := served[id][job.at..job.at + n];
    PieceParts(src, info, served, d, id, n, d');
    hide WriteAt, Covered, Serves, Next, GoodJobs, Larger;
    forall b | 0 <= b < |d'.file| ensures b < |src| && d'.file[b] == if Covered(info, d'.jobs, b) then src[b] else 0 {
      PieceByte(src, info, d, id, n, d'.jobs, d'.file, at, p, b);
    }
    assert |d'.file| > |src| ==> 0 <= |src| < |d'.file|;
  }

  lemma PieceParts(src: seq<byte>, info: Info, served: map<string, seq<byte>>, d: Download, id: string, n: nat,
                   d': Download)
    requires Serves(src, info, served) && GoodJobs(info, d)
    requires Next(info, served, d, Piece(id, n)) == Some(d')
    ensures id in d.jobs && id in info && id in served && 0 <= info[id].offset
    ensures var job, at := d.jobs[id], info[id].offset + d.jobs[id].at;
            && job.at + n <= |served[id]| && at + n <= |src| && served[id][job.at..job.at + n] == src[at..at + n]
            && d'.file == WriteAt(d.file, at, served[id][job.at..job.at + n])
            && d'.jobs == d.jobs[id := Progress(job.at + n, Larger(job.reached, job.at + n), false)]
  {
    hide WriteAt, Larger;
    PieceIsSource(src, info, served, id, d.jobs[id].at, n);
  }

  lemma PieceCovers(info: Info, d: Download, id: string, n: nat, jobs': map<string, Progress>, b: nat)
    requires GoodJobs(info, d) && id in d.jobs
    requires jobs' == d.jobs[id := Progress(d.jobs[id].at + n, Larger(d.jobs[id].reached, d.jobs[id].at + n), false)]
    ensures Covered(info, jobs', b) <==> Covered(info, d.jobs, b) || In(info[id].offset + d.jobs[id].at, n, b)
  {
    if Covered(info, d.jobs, b) {
      var x :| x in d.jobs && x in info && In(info[x].offset, d.jobs[x].reached, b);
      assert x in jobs' && In(info[x].offset, jobs'[x].reached, b);
    }
    if In(info[id].offset + d.jobs[id].at, n, b) {
      assert In(info[id].offset, jobs'[id].reached, b);
    }
  }

  lemma UncoveredPastEnd(info: Info, d: Download, b: nat)
    requires GoodJobs(info, d) && b >= |d.file|
    ensures !Covered(info, d.jobs, b)
  {
  }

  lemma SameReachSameBytes(src: seq<byte>, info: Info, d: Download, d': Download)
    requires GoodBytes(src, info, d) && d'.file == d.file && d'.jobs.Keys == d.jobs.Keys
    requires forall id :: id in d.jobs ==> d'.jobs[id].reached == d.jobs[id].reached
    ensures GoodBytes(src, info, d')
  {
    forall b | 0 <= b < |d.file| ensures Covered(info, d'.jobs, b) == Covered(info, d.jobs, b) {
    }
  }

  lemma StepIsGood(src: seq<byte>, info: Info, served: map<string, seq<byte>>, d: Download, ev: Event, d': Download)
    requires Serves(src, info, served) && GoodJobs(info, d) && GoodBytes(src, info, d)
    requires Next(info, served, d, ev) == Some(d')
    ensures GoodJobs(info, d') && GoodBytes(src, info, d')
  {
    if ev.Piece? {
      PieceKeepsBytes(src, info, served, d, ev.id, ev.n, d');
      WriteGrows(d.file, info[ev.id].offset + d.jobs[ev.id].at,
                 served[ev.id][d.jobs[ev.id].at..d.jobs[ev.id].at + ev.n]);
      hide GoodBytes, WriteAt, Covered, Serves;
    } else {
      SameReachSameBytes(src, info, d, d');
    }
  }

  lemma WriteGrows(f: seq<byte>, off: nat, p: seq<byte>)
    ensures |WriteAt(f, off, p)| >= |f| && (p != [] ==> |WriteAt(f, off, p)| >= off + |p|)
  {
  }

  lemma {:induction false} RunsAreGood(src: seq<byte>, info: Info, served: map<string, seq<byte>>, evs: seq<Event>)
    requires Serves(src, info, served) && Run(info, served, evs).Some?
    ensures GoodJobs(info, Run(info, served, evs).value) && GoodBytes(src, info, Run(info, served, evs).value)
  {
    if evs != [] {
      hide GoodJobs, GoodBytes, Next, Serves;
      RunsAreGood(src, info, served, evs[..|evs| - 1]);
      var d, d' := Run(info, served, evs[..|evs| - 1]).value, Run(info, served, evs).value;
      StepIsGood(src, info, served, d, evs[|evs| - 1], d');
    }
  }

  // ---- The rebuilt file ----

  predicate AllDone(d: Download) {
    forall id :: id in d.jobs ==> d.jobs[id].done
  }

  /** The chunk servers hold every chunk under its id: no two different chunks share one. */
  predicate Holds(served: map<string, seq<byte>>, chunks: seq<Chunk>) {
    forall i :: 0 <= i < |chunks| ==> chunks[i].id in served && served[chunks[i].id] == chunks[i].data
  }

  predicate AllZero(data: seq<byte>) {
    forall b :: 0 <= b < |data| ==> data[b] == 0
  }

  lemma ChunksServe(src: seq<byte>, k: nat, hash: Hash, chunks: seq<Chunk>, served: map<string, seq<byte>>)
    requires k > 0 && IsChunking(src, k, hash, chunks) && Holds(served, chunks)
    ensures Serves(src, InfoOf(chunks), served)
  {
    var info := InfoOf(chunks);
    forall id | id in info
      ensures
        && id in served && 0 <= info[id].offset && info[id].offset + info[id].size <= |src|
        && info[id].size <= |served[id]|
        && served[id][..info[id].size] == src[info[id].offset..info[id].offset + info[id].size]
    {
      var i := InfoComesFromLast(chunks, id);
      InfoIsLast(chunks, i);
      assert served[id] == Data(src, k, i);
    }
  }

  lemma LastChunkByte(src: seq<byte>, k: nat, hash: Hash, chunks: seq<Chunk>, d: Download, i: nat, b: nat)
    requires k > 0 && IsChunking(src, k, hash, chunks) && i < |chunks| && LastWithId(chunks, i)
    requires GoodJobs(InfoOf(chunks), d) && AllDone(d)
    requires Start(k, i) <= b < Start(k, i) + |chunks[i].data|
    ensures Covered(InfoOf(chunks), d.jobs, b)
  {
    InfoIsLast(chunks, i);
    assert In(InfoOf(chunks)[chunks[i].id].offset, d.jobs[chunks[i].id].reached, b);
  }

  /** Only the last chunk of an id is written, so no byte of an earlier one is. */
  lemma EarlierChunkByte(src: seq<byte>, k: nat, hash: Hash, chunks: seq<Chunk>, d: Download, i: nat, b: nat)
    requires k > 0 && IsChunking(src, k, hash, chunks) && i < |chunks|
    requires GoodJobs(InfoOf(chunks), d) && Covered(InfoOf(chunks), d.jobs, b)
    requires Start(k, i) <= b < Start(k, i) + |chunks[i].data|
    ensures LastWithId(chunks, i)
  {
    var info := InfoOf(chunks);
    var id :| id in d.jobs && id in info && In(info[id].offset, d.jobs[id].reached, b);
    var j := InfoComesFromLast(chunks, id);
    InfoIsLast(chunks, j);
    hide InfoOf, Covered;
    StartMonotone(k, if i < j then i else j, if i < j then j else i);
  }

  lemma SameSection(f: seq<byte>, off: nat, data: seq<byte>)
    requires off + |data| <= |f| && forall b :: off <= b < off + |data| ==> f[b] == data[b - off]
    ensures f[off..off + |data|] == data
  {
  }

  /** Byte b of a completed download, at the place of chunk i. */
  lemma ChunkByte(src: seq<byte>, k: nat, hash: Hash, chunks: seq<Chunk>, d: Download, i: nat, b: nat)
    requires k > 0 && IsChunking(src, k, hash, chunks) && i < |chunks|
    requires GoodJobs(InfoOf(chunks), d) && GoodBytes(src, InfoOf(chunks), d) && AllDone(d) && |d.file| == |src|
    requires Start(k, i) <= b < Start(k, i) + |chunks[i].data|
    ensures b < |src| && d.file[b] == if LastWithId(chunks, i) then chunks[i].data[b - Start(k, i)] else 0
  {
    hide Covered, InfoOf, GoodJobs, AllDone, LastWithId;
    if LastWithId(chunks, i) {
      LastChunkByte(src, k, hash, chunks, d, i, b);
    } else if Covered(InfoOf(chunks), d.jobs, b) {
      EarlierChunkByte(src, k, hash, chunks, d, i, b);
    }
  }

  lemma ChunkFitsSource(src: seq<byte>, k: nat, hash: Hash, chunks: seq<Chunk>, i: nat)
    requires k > 0 && IsChunking(src, k, hash, chunks) && i < |chunks|
    ensures Start(k, i) + |chunks[i].data| <= |src|
  {
  }

  /** What a completed download holds at the place of chunk i. */
  lemma ChunkOutcome(src: seq<byte>, k: nat, hash: Hash, chunks: seq<Chunk>, d: Download, i: nat)
    requires k > 0 && IsChunking(src, k, hash, chunks) && i < |chunks|
    requires GoodJobs(InfoOf(chunks), d) && GoodBytes(src, InfoOf(chunks), d) && AllDone(d) && |d.file| == |src|
    ensures Start(k, i) + |chunks[i].data| <= |src|
    ensures d.file[Start(k, i)..Start(k, i) + |chunks[i].data|] ==
            if LastWithId(chunks, i) then chunks[i].data else Zeros(|chunks[i].data|)
  {
    hide IsChunking, InfoOf, GoodJobs, GoodBytes, AllDone, LastWithId, Start;
    ChunkFitsSource(src, k, hash, chunks, i);
    var data := if LastWithId(chunks, i) then chunks[i].data else Zeros(|chunks[i].data|);
    forall b | Start(k, i) <= b < Start(k, i) + |data| ensures d.file[b] == data[b - Start(k, i)] {
      ChunkByte(src, k, hash, chunks, d, i, b);
    }
    SameSection(d.file, Start(k, i), data);
  }

  lemma CompleteLength(src: seq<byte>, k: nat, hash: Hash, chunks: seq<Chunk>, d: Download)
    requires k > 0 && IsChunking(src, k, hash, chunks)
    requires GoodJobs(InfoOf(chunks), d) && GoodBytes(src, InfoOf(chunks), d) && AllDone(d)
    ensures |d.file| == |src|
  {
    CountCovers(|src|, k);
    if src != [] {
      var last := |chunks| - 1;
      InfoIsLast(chunks, last);
      StartNext(k, last);
      assert chunks[last].id in d.jobs;
    }
  }

  lemma RegisteredOutcome(src: seq<byte>, k: nat, hash: Hash, chunks: seq<Chunk>, served: map<string, seq<byte>>,
                          evs: seq<Event>, i: nat)
    requires k > 0 && IsChunking(src, k, hash, chunks) && Holds(served, chunks)
    requires Run(InfoOf(chunks), served, evs).Some? && AllDone(Run(InfoOf(chunks), served, evs).value)
    ensures var file := Run(InfoOf(chunks), served, evs).value.file;
            && |file| == |src|
            && (i < |chunks| ==>
                 && Start(k, i) + |chunks[i].data| <= |src|
                 && file[Start(k, i)..Start(k, i) + |chunks[i].data|] ==
                    if LastWithId(chunks, i) then chunks[i].data else Zeros(|chunks[i].data|))
  {
    hide IsChunking, Run, GoodJobs, GoodBytes, AllDone, Holds, Serves, LastWithId, Zeros;
    ChunksServe(src, k, hash, chunks, served);
    RunsAreGood(src, InfoOf(chunks), served, evs);
    CompleteLength(src, k, hash, chunks, Run(InfoOf(chunks), served, evs).value);
    if i < |chunks| {
      ChunkOutcome(src, k, hash, chunks, Run(InfoOf(chunks), served, evs).value, i);
    }
  }

  lemma GluedSection(file: seq<byte>, src: seq<byte>, a: nat, b: nat)
    requires a <= b <= |src| == |file| && file[..a] == src[..a] && file[a..b] == src[a..b]
    ensures file[..b] == src[..b]
  {
    assert file[..b] == file[..a] + file[a..b] && src[..b] == src[..a] + src[a..b];
  }

  lemma ChunkIsSection(src: seq<byte>, k: nat, hash: Hash, chunks: seq<Chunk>, i: nat)
    requires k > 0 && IsChunking(src, k, hash, chunks) && i < |chunks|
    ensures Start(k, i) <= Min(Start(k, i + 1), |src|) == Start(k, i) + |chunks[i].data|
    ensures chunks[i].data == src[Start(k, i)..Min(Start(k, i + 1), |src|)]
    ensures Min(Start(k, i), |src|) == Start(k, i)
  {
    StartNext(k, i);
  }

  lemma {:induction false} SameChunksSameFile(src: seq<byte>, file: seq<byte>, k: nat, hash: Hash, chunks: seq<Chunk>,
                                              n: nat)
    requires k > 0 && IsChunking(src, k, hash, chunks) && |file| == |src| && n <= |chunks|
    requires forall i :: 0 <= i < n ==>
               && Start(k, i) + |chunks[i].data| <= |src|
               && file[Start(k, i)..Start(k, i) + |chunks[i].data|] == chunks[i].data
    ensures file[..Min(Start(k, n), |src|)] == src[..Min(Start(k, n), |src|)]
  {
    if n > 0 {
      hide IsChunking, Start;
      SameChunksSameFile(src, file, k, hash, chunks, n - 1);
      ChunkIsSection(src, k, hash, chunks, n - 1);
      var a, b := Start(k, n - 1), Min(Start(k, n), |src|);
      assert file[a..a + |chunks[n - 1].data|] == chunks[n - 1].data;
      hide Min;
      GluedSection(file, src, a, b);
    }
  }

  lemma RegisteredRoundTrip(src: seq<byte>, k: nat, hash: Hash, chunks: seq<Chunk>, served: map<string, seq<byte>>,
                            evs: seq<Event>)
    requires k > 0 && IsChunking(src, k, hash, chunks) && Holds(served, chunks)
    requires Run(InfoOf(chunks), served, evs).Some? && AllDone(Run(InfoOf(chunks), served, evs).value)
    ensures Run(InfoOf(chunks), served, evs).value.file == src <==>
            forall i :: 0 <= i < |chunks| ==> LastWithId(chunks, i) || AllZero(chunks[i].data)
  {
    var file := Run(InfoOf(chunks), served, evs).value.file;
    forall i | 0 <= i < |chunks|
      ensures Start(k, i) + |chunks[i].data| <= |src| &&
              chunks[i].data == src[Start(k, i)..Start(k, i) + |chunks[i].data|]
      ensures |file| == |src|
      ensures file[Start(k, i)..Start(k, i) + |chunks[i].data|] ==
              if LastWithId(chunks, i) then chunks[i].data else Zeros(|chunks[i].data|)
    {
      RegisteredOutcome(src, k, hash, chunks, served, evs, i);
    }
    RegisteredOutcome(src, k, hash, chunks, served, evs, |chunks|);
    if file == src {
      forall i | 0 <= i < |chunks| && !LastWithId(chunks, i) ensures AllZero(chunks[i].data) {
        assert chunks[i].data == Zeros(|chunks[i].data|);
      }
    }
    if forall i :: 0 <= i < |chunks| ==> LastWithId(chunks, i) || AllZero(chunks[i].data) {
      forall i | 0 <= i < |chunks|
        ensures file[Start(k, i)..Start(k, i) + |chunks[i].data|] == chunks[i].data
      {
        if !LastWithId(chunks, i) {
          assert AllZero(chunks[i].data);
          assert chunks[i].data == Zeros(|chunks[i].data|);
        }
      }
      SameChunksSameFile(src, file, k, hash, chunks, |chunks|);
      CountCovers(|src|, k);
      assert file[..|src|] == file && src[..|src|] == src;
    }
  }

  // ---- With the addresses the server fills in ----

  lemma SamePlacesStep(info: Info, info': Info, served: map<string, seq<byte>>, d: Download, ev: Event)
    requires SamePlaces(info, info')
    ensures Next(info, served, d, ev) == Next(info', served, d, ev)
  {
    hide WriteAt;
    assert ev.id in info.Keys <==> ev.id in info'.Keys;
  }

  /** A download depends on where the chunks belong, and not on where they come from. */
  lemma {:induction false} SamePlacesRun(info: Info, info': Info, served: map<string, seq<byte>>, evs: seq<Event>)
    requires SamePlaces(info, info')
    ensures Run(info, served, evs) == Run(info', served, evs)
  {
    if evs == [] {
      assert Begin(info).jobs.Keys == info.Keys && Begin(info').jobs.Keys == info'.Keys;
      assert Begin(info).jobs == Begin(info').jobs;
    } else {
      hide Next, SamePlaces;
      var front := evs[..|evs| - 1];
      SamePlacesRun(info, info', served, front);
      if Run(info, served, front).Some? {
        SamePlacesStep(info, info', served, Run(info, served, front).value, evs[|evs| - 1]);
      }
    }
  }

  /** The chunk round trip, with no assumption that chunks differ: whatever the order, the interleaving
      and the retries, a completed download has the source's length, equals it on every chunk that is
      the last with its id, and is all zeros on the earlier identical ones. */
  lemma DownloadOutcome(src: seq<byte>, k: nat, hash: Hash, chunks: seq<Chunk>, info: Info,
                        served: map<string, seq<byte>>, evs: seq<Event>, i: nat)
    requires k > 0 && IsChunking(src, k, hash, chunks) && Holds(served, chunks) && SamePlaces(info, InfoOf(chunks))
    requires Run(info, served, evs).Some? && AllDone(Run(info, served, evs).value)
    ensures var file := Run(info, served, evs).value.file;
            && |file| == |src|
            && (i < |chunks| ==>
                 && Start(k, i) + |chunks[i].data| <= |src|
                 && file[Start(k, i)..Start(k, i) + |chunks[i].data|] ==
                    if LastWithId(chunks, i) then chunks[i].data else Zeros(|chunks[i].data|))
  {
    hide *;
    SamePlacesRun(info, InfoOf(chunks), served, evs);
    RegisteredOutcome(src, k, hash, chunks, served, evs, i);
  }

  /** A completed download equals the source exactly when every chunk that occurs again later in the
      file consists of zero bytes; in particular whenever all chunk ids differ. */
  lemma RoundTripIff(src: seq<byte>, k: nat, hash: Hash, chunks: seq<Chunk>, info: Info,
                     served: map<string, seq<byte>>, evs: seq<Event>)
    requires k > 0 && IsChunking(src, k, hash, chunks) && Holds(served, chunks) && SamePlaces(info, InfoOf(chunks))
    requires Run(info, served, evs).Some? && AllDone(Run(info, served, evs).value)
    ensures Run(info, served, evs).value.file == src <==>
            forall i :: 0 <= i < |chunks| ==> LastWithId(chunks, i) || AllZero(chunks[i].data)
  {
    hide *;
    SamePlacesRun(info, InfoOf(chunks), served, evs);
    RegisteredRoundTrip(src, k, hash, chunks, served, evs);
  }

  // ---- That a download can be completed ----

  /** Every entry has a place, and its chunk is served at least as long as the entry says. */
  predicate Servable(info: Info, served: map<string, seq<byte>>) {
    forall id :: id in info ==> id in served && info[id].offset >= 0 && info[id].size <= |served[id]|
  }

  /** How many bytes of a chunk its last attempt has written. */
  function Attempt(evs: seq<Event>, id: string): (n: nat) {
    if evs == [] then 0
    else
      var before := Attempt(evs[..|evs| - 1], id);
      match evs[|evs| - 1]
      case Piece(i, n) => if i == id then before + n else before
      case Retry(i) => if i == id then 0 else before
      case Complete(_) => before
  }

  predicate JobsFollow(info: Info, served: map<string, seq<byte>>, evs: seq<Event>, d: Download) {
    && d.jobs.Keys == info.Keys
    && forall id :: id in d.jobs ==>
         && d.jobs[id].at == Attempt(evs, id) && d.jobs[id].at <= info[id].size
         && (d.jobs[id].done ==>
              d.jobs[id].at == info[id].size && id in served && info[id].offset >= 0 && info[id].size <= |served[id]|)
         && (d.jobs[id].at > 0 ==> id in served && d.jobs[id].at <= |served[id]|)
  }

  lemma JobsFollowStep(info: Info, served: map<string, seq<byte>>, evs: seq<Event>, d: Download, ev: Event,
                       d': Download)
    requires JobsFollow(info, served, evs, d) && Next(info, served, d, ev) == Some(d')
    ensures JobsFollow(info, served, evs + [ev], d')
  {
    hide WriteAt;
    assert (evs + [ev])[..|evs|] == evs;
    forall id | id in d'.jobs
      ensures Attempt(evs + [ev], id) ==
              match ev
              case Piece(i, n) => if i == id then Attempt(evs, id) + n else Attempt(evs, id)
              case Retry(i) => if i == id then 0 else Attempt(evs, id)
              case Complete(_) => Attempt(evs, id)
    {
    }
    hide Attempt;
  }

  /** In every run a job has written exactly what its last attempt wrote, from the start of the chunk, and a
      job that is done has written the whole of it in one attempt. */
  lemma {:induction false} LastAttemptIsWhole(info: Info, served: map<string, seq<byte>>, evs: seq<Event>)
    requires Run(info, served, evs).Some?
    ensures JobsFollow(info, served, evs, Run(info, served, evs).value)
  {
    if evs != [] {
      hide Next, JobsFollow;
      var front := evs[..|evs| - 1];
      LastAttemptIsWhole(info, served, front);
      JobsFollowStep(info, served, front, Run(info, served, front).value, evs[|evs| - 1],
                     Run(info, served, evs).value);
      assert front + [evs[|evs| - 1]] == evs;
    }
  }

  lemma RunTwoMore(info: Info, served: map<string, seq<byte>>, evs: seq<Event>, a: Event, b: Event)
    requires Run(info, served, evs).Some?
    ensures Run(info, served, evs + [a, b]) ==
            match Next(info, served, Run(info, served, evs).value, a)
            case None => None
            case Some(d) => Next(info, served, d, b)
  {
    hide Next;
    var all := evs + [a, b];
    assert all[..|all| - 1] == evs + [a] && (evs + [a])[..|evs|] == evs;
  }

  /** One attempt finishes a job from wherever it stands. */
  lemma JobCanFinish(info: Info, served: map<string, seq<byte>>, evs: seq<Event>, id: string)
    returns (more: seq<Event>)
    requires Run(info, served, evs).Some? && Servable(info, served) && id in info
    ensures |more| <= 2 && Run(info, served, evs + more).Some?
    ensures var d, d' := Run(info, served, evs).value, Run(info, served, evs + more).value;
            && d'.jobs.Keys == info.Keys && d'.jobs[id].done
            && forall x :: x in d.jobs && d.jobs[x].done ==> x in d'.jobs && d'.jobs[x].done
  {
    hide WriteAt;
    LastAttemptIsWhole(info, served, evs);
    var d := Run(info, served, evs).value;
    if d.jobs[id].done {
      more := [];
      assert evs + more == evs;
    } else {
      more := [Piece(id, info[id].size - d.jobs[id].at), Complete(id)];
      RunTwoMore(info, served, evs, more[0], more[1]);
    }
  }

  lemma {:induction false} JobsCanFinish(info: Info, served: map<string, seq<byte>>, evs: seq<Event>,
                                         left: set<string>) returns (more: seq<Event>)
    requires Run(info, served, evs).Some? && Servable(info, served) && left <= info.Keys
    requires forall id :: id in Run(info, served, evs).value.jobs && !Run(info, served, evs).value.jobs[id].done ==>
               id in left
    ensures |more| <= 2 * |left| && Run(info, served, evs + more).Some?
    ensures AllDone(Run(info, served, evs + more).value)
    decreases |left|
  {
    hide Run, Servable;
    if left == {} {
      more := [];
      assert evs + more == evs;
    } else {
      var id :| id in left;
      var first := JobCanFinish(info, served, evs, id);
      LastAttemptIsWhole(info, served, evs);
      var rest := JobsCanFinish(info, served, evs + first, left - {id});
      more := first + rest;
      assert evs + more == evs + first + rest;
    }
  }

  /** From wherever a download stands it can be completed, by at most two events for each entry, if and only
      if every chunk is served in full. */
  lemma DownloadCanCompleteIff(info: Info, served: map<string, seq<byte>>, evs: seq<Event>)
    requires Run(info, served, evs).Some?
    ensures Servable(info, served) <==>
            exists more :: Run(info, served, evs + more).Some? && AllDone(Run(info, served, evs + more).value)
    ensures Servable(info, served) ==>
              exists more: seq<Event> :: |more| <= 2 * |info.Keys| && Run(info, served, evs + more).Some? &&
                                         AllDone(Run(info, served, evs + more).value)
  {
    hide Run;
    if Servable(info, served) {
      LastAttemptIsWhole(info, served, evs);
      var more := JobsCanFinish(info, served, evs, info.Keys);
    }
    if more :| Run(info, served, evs + more).Some? && AllDone(Run(info, served, evs + more).value) {
      LastAttemptIsWhole(info, served, evs + more);
      assert Run(info, served, evs + more).value.jobs.Keys == info.Keys;
    }
  }
}
