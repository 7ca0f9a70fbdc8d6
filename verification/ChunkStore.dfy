/** The chunk server's disk while writes overlap: chunks arrive in a temporary file, are hashed while
    they are written, and are renamed to their final name only if the hash is the key. */
module ChunkStore {
  import opened Results
  import opened Bytes
  import opened StoragePath
  import opened Chunking

  /** One write in progress: the file its descriptor is open on and what it has hashed so far, which
      is also how far its offset has come; verified once the hash was compared. */
  datatype Writer = Writer(key: string, file: nat, content: seq<byte>, verified: bool)

  /** names is the directory: it says which of the files a path stands for. A descriptor stays on its
      file when the path is renamed. */
  datatype Server = Server(names: map<string, nat>, files: seq<seq<byte>>, writers: map<nat, Writer>)

  datatype Event =
    | Open(id: nat, key: string)
    | Write(id: nat, part: seq<byte>)
    | Verify(id: nat)
    | Rename(id: nat)
    | Crash

  const EMPTY_DISK: Server := Server(map[], [], map[])

  /** Opening truncates the file the temporary path stands for, or makes a new one. */
  function DoOpen(depth: nat, st: Server, id: nat, key: string): (r: Option<Server>) {
    var tmp := TempPath(key, depth);
    if id in st.writers || !Storable(key) then None
    else if tmp in st.names && st.names[tmp] < |st.files| then
      Some(st.(files := st.files[st.names[tmp] := []],
               writers := st.writers[id := Writer(key, st.names[tmp], [], false)]))
    else
      Some(Server(st.names[tmp := |st.files|], st.files + [[]],
                  st.writers[id := Writer(key, |st.files|, [], false)]))
  }

  /** Each writer writes at its own offset. */
  function DoWrite(st: Server, id: nat, part: seq<byte>): (r: Option<Server>) {
    if id !in st.writers || st.writers[id].verified || st.writers[id].file >= |st.files| then None
    else
      var w := st.writers[id];
      Some(st.(files := st.files[w.file := WriteAt(st.files[w.file], |w.content|, part)],
               writers := st.writers[id := w.(content := w.content + part)]))
  }

  function DoVerify(hash: Hash, st: Server, id: nat): (r: Option<Server>) {
    if id !in st.writers || st.writers[id].verified then None
    else if hash(st.writers[id].content) == st.writers[id].key
    then Some(st.(writers := st.writers[id := st.writers[id].(verified := true)]))
    else Some(st.(writers := st.writers - {id}))
  }

  /** Rename fails if the temporary path is gone. */
  function DoRename(depth: nat, st: Server, id: nat): (r: Option<Server>) {
    if id !in st.writers || !st.writers[id].verified then None
    else
      var tmp := TempPath(st.writers[id].key, depth);
      if tmp !in st.names then Some(st.(writers := st.writers - {id}))
      else
        Some(st.(names := (st.names - {tmp})[RenameTarget(tmp) := st.names[tmp]],
                 writers := st.writers - {id}))
  }

  function Next(hash: Hash, depth: nat, st: Server, ev: Event): (r: Option<Server>) {
    match ev
    case Open(id, key) => DoOpen(depth, st, id, key)
    case Write(id, part) => DoWrite(st, id, part)
    case Verify(id) => DoVerify(hash, st, id)
    case Rename(id) => DoRename(depth, st, id)
    case Crash => Some(st.(writers := map[]))
  }

  function Run(hash: Hash, depth: nat, evs: seq<Event>): (r: Option<Server>) {
    if evs == [] then Some(EMPTY_DISK)
    else
      match Run(hash, depth, evs[..|evs| - 1])
      case None => None
      case Some(st) => Next(hash, depth, st, evs[|evs| - 1])
  }

  predicate Writing(st: Server, key: string) {
    exists id :: id in st.writers && st.writers[id].key == key
  }

  /** Writers of the same key do not overlap. */
  predicate Exclusive(hash: Hash, depth: nat, evs: seq<Event>)
    requires Run(hash, depth, evs).Some?
  {
    evs == [] ||
    (Exclusive(hash, depth, evs[..|evs| - 1]) &&
     (evs[|evs| - 1].Open? ==> !Writing(Run(hash, depth, evs[..|evs| - 1]).value, evs[|evs| - 1].key)))
  }

  /** What a read of a key is served. */
  function Read(depth: nat, st: Server, key: string): (r: Option<seq<byte>>) {
    var path := FinalPath(key, depth);
    if path in st.names && st.names[path] < |st.files| then Some(st.files[st.names[path]]) else None
  }

  ghost predicate Published(hash: Hash, depth: nat, st: Server) {
    forall key :: Storable(key) && Read(depth, st, key).Some? ==> hash(Read(depth, st, key).value) == key
  }

  /** Every path stands for a file of its own. */
  ghost predicate NamesOk(st: Server) {
    (forall p :: p in st.names ==> st.names[p] < |st.files|) &&
    (forall p, q :: p in st.names && q in st.names && p != q ==> st.names[p] != st.names[q])
  }

  /** Each writer is on the file of its temporary path, which is what it hashed, and it is the only one
      on it. */
  ghost predicate WritersOk(hash: Hash, depth: nat, st: Server) {
    && (forall id :: id in st.writers ==> WriterOk(hash, depth, st, st.writers[id]))
    && (forall i, j :: i in st.writers && j in st.writers && i != j ==> st.writers[i].key != st.writers[j].key)
  }

  ghost predicate WriterOk(hash: Hash, depth: nat, st: Server, w: Writer) {
    && Storable(w.key)
    && TempPath(w.key, depth) in st.names && st.names[TempPath(w.key, depth)] == w.file
    && w.file < |st.files| && st.files[w.file] == w.content
    && (w.verified ==> hash(w.content) == w.key)
  }

  ghost predicate Good(hash: Hash, depth: nat, st: Server) {
    NamesOk(st) && WritersOk(hash, depth, st) && Published(hash, depth, st)
  }

  // ---- Steps ----

  /** A change to the file of one key's temporary path is seen by no reader and no writer of another. */
  lemma OthersUntouched(hash: Hash, depth: nat, st: Server, key: string, st': Server)
    requires Good(hash, depth, st) && NamesOk(st') && |st.files| <= |st'.files|
    requires forall p :: p in st'.names && p != TempPath(key, depth) ==>
               p in st.names && st'.names[p] == st.names[p] && st'.files[st.names[p]] == st.files[st.names[p]]
    requires forall p :: p in st.names ==> p in st'.names && st'.names[p] == st.names[p]
    ensures Published(hash, depth, st')
    ensures forall w: Writer :: w.key != key && WriterOk(hash, depth, st, w) ==> WriterOk(hash, depth, st', w)
  {
    hide TempPath, FinalPath, Storable;
    forall k | Storable(k) && Read(depth, st', k).Some? ensures hash(Read(depth, st', k).value) == k {
      TempIsNeverFinal(key, k, depth);
      assert Read(depth, st', k) == Read(depth, st, k);
    }
    forall w: Writer | w.key != key && WriterOk(hash, depth, st, w) ensures WriterOk(hash, depth, st', w) {
      PathsAreInjective(key, w.key, depth);
    }
  }

  lemma OpenNames(hash: Hash, depth: nat, st: Server, id: nat, key: string, st': Server)
    requires NamesOk(st) && DoOpen(depth, st, id, key) == Some(st')
    ensures NamesOk(st') && |st.files| <= |st'.files| && Storable(key)
    ensures forall p :: p in st'.names && p != TempPath(key, depth) ==>
              p in st.names && st'.names[p] == st.names[p] && st'.files[st.names[p]] == st.files[st.names[p]]
    ensures forall p :: p in st.names ==> p in st'.names && st'.names[p] == st.names[p]
    ensures st'.writers.Keys == st.writers.Keys + {id} && id !in st.writers
    ensures forall i :: i in st.writers ==> st'.writers[i] == st.writers[i]
    ensures WriterOk(hash, depth, st', st'.writers[id]) && st'.writers[id].key == key
  {
    hide TempPath, Storable;
  }

  lemma OpenStep(hash: Hash, depth: nat, st: Server, id: nat, key: string, st': Server)
    requires Good(hash, depth, st) && !Writing(st, key) && DoOpen(depth, st, id, key) == Some(st')
    ensures Good(hash, depth, st')
  {
    OpenNames(hash, depth, st, id, key, st');
    hide TempPath, FinalPath, Storable, Published, DoOpen, WriterOk, NamesOk;
    OthersUntouched(hash, depth, st, key, st');
    forall i | i in st'.writers
      ensures WriterOk(hash, depth, st', st'.writers[i]) && (i != id ==> st'.writers[i].key != key)
    {
      if i != id {
        assert st.writers[i].key != key;
      }
    }
  }

  lemma AtEnd(f: seq<byte>, part: seq<byte>)
    ensures WriteAt(f, |f|, part) == f + part
  {
    assert f[..|f|] == f;
  }

  lemma WriteStep(hash: Hash, depth: nat, st: Server, id: nat, part: seq<byte>, st': Server)
    requires Good(hash, depth, st) && DoWrite(st, id, part) == Some(st')
    ensures Good(hash, depth, st')
  {
    hide TempPath, FinalPath, Storable, Published, WriteAt;
    var w := st.writers[id];
    assert WriterOk(hash, depth, st, w);
    AtEnd(w.content, part);
    OthersUntouched(hash, depth, st, w.key, st');
    forall i | i in st'.writers ensures WriterOk(hash, depth, st', st'.writers[i]) {
      assert WriterOk(hash, depth, st, st.writers[i]);
    }
  }

  lemma RenamedReads(hash: Hash, depth: nat, st: Server, id: nat, st': Server, k: string)
    requires Good(hash, depth, st) && DoRename(depth, st, id) == Some(st') && Storable(k)
    ensures Read(depth, st', k) ==
            if k == st.writers[id].key then Some(st.writers[id].content) else Read(depth, st, k)
  {
    var key := st.writers[id].key;
    assert WriterOk(hash, depth, st, st.writers[id]);
    hide TempPath, FinalPath, RenameTarget, Storable, Published;
    RenamedIsReadPath(key, depth);
    TempIsNeverFinal(key, k, depth);
    if k != key {
      PathsAreInjective(k, key, depth);
    }
  }

  lemma RenameStep(hash: Hash, depth: nat, st: Server, id: nat, st': Server)
    requires Good(hash, depth, st) && DoRename(depth, st, id) == Some(st')
    ensures Good(hash, depth, st')
  {
    hide TempPath, FinalPath, RenameTarget, Storable;
    var key := st.writers[id].key;
    assert WriterOk(hash, depth, st, st.writers[id]);
    forall k | Storable(k) && Read(depth, st', k).Some? ensures hash(Read(depth, st', k).value) == k {
      RenamedReads(hash, depth, st, id, st', k);
    }
    hide Read;
    RenamedIsReadPath(key, depth);
    forall i | i in st'.writers ensures WriterOk(hash, depth, st', st'.writers[i]) {
      assert WriterOk(hash, depth, st, st.writers[i]);
      PathsAreInjective(key, st.writers[i].key, depth);
      TempIsNeverFinal(st.writers[i].key, key, depth);
    }
  }

  lemma VerifyStep(hash: Hash, depth: nat, st: Server, id: nat, st': Server)
    requires Good(hash, depth, st) && DoVerify(hash, st, id) == Some(st')
    ensures Good(hash, depth, st')
  {
    hide TempPath, FinalPath, Storable;
    SameNamesSameReads(hash, depth, st, st');
    hide Published;
    forall i | i in st'.writers ensures WriterOk(hash, depth, st', st'.writers[i]) {
      assert WriterOk(hash, depth, st, st.writers[i]);
    }
  }

  lemma SameNamesSameReads(hash: Hash, depth: nat, st: Server, st': Server)
    requires Published(hash, depth, st) && st'.names == st.names && st'.files == st.files
    ensures Published(hash, depth, st')
  {
    hide FinalPath, Storable;
    assert forall k :: Read(depth, st', k) == Read(depth, st, k);
  }

  lemma StepIsGood(hash: Hash, depth: nat, st: Server, ev: Event, st': Server)
    requires Good(hash, depth, st) && Next(hash, depth, st, ev) == Some(st')
    requires ev.Open? ==> !Writing(st, ev.key)
    ensures Good(hash, depth, st')
  {
    if ev.Crash? {
      SameNamesSameReads(hash, depth, st, st');
      hide Published;
    } else {
      hide Good, DoOpen, DoWrite, DoVerify, DoRename, Writing;
      match ev
      case Open(id, key) => OpenStep(hash, depth, st, id, key, st');
      case Write(id, part) => WriteStep(hash, depth, st, id, part, st');
      case Verify(id) => VerifyStep(hash, depth, st, id, st');
      case Rename(id) => RenameStep(hash, depth, st, id, st');
    }
  }

  lemma {:induction false} RunsAreGood(hash: Hash, depth: nat, evs: seq<Event>)
    requires Run(hash, depth, evs).Some? && Exclusive(hash, depth, evs)
    ensures Good(hash, depth, Run(hash, depth, evs).value)
  {
    if evs != [] {
      hide Good, Next, Writing;
      var front := evs[..|evs| - 1];
      RunsAreGood(hash, depth, front);
      StepIsGood(hash, depth, Run(hash, depth, front).value, evs[|evs| - 1], Run(hash, depth, evs).value);
    }
  }

  /** In every run of writes and crashes in which writers of one key do not overlap, whatever is read
      under a key hashes to that key. */
  lemma PublishedChunksAreVerified(hash: Hash, depth: nat, evs: seq<Event>, key: string)
    requires Run(hash, depth, evs).Some? && Exclusive(hash, depth, evs) && Storable(key)
    requires Read(depth, Run(hash, depth, evs).value, key).Some?
    ensures hash(Read(depth, Run(hash, depth, evs).value, key).value) == key
  {
    RunsAreGood(hash, depth, evs);
  }

  // ---- Overlapping writers ----

  /** Every writer's file still is what the writer has hashed. */
  predicate ContentKept(st: Server, st': Server) {
    forall i :: i in st.writers && st.writers[i].file < |st'.files| ==>
                  st'.files[st.writers[i].file] == st.writers[i].content
  }

  /** Exactly when opening a key's temporary file leaves every writer with what it hashed: when no writer
      of that key has written anything yet. */
  lemma OpenKeepsWritersIff(hash: Hash, depth: nat, st: Server, id: nat, key: string, st': Server)
    requires Good(hash, depth, st) && DoOpen(depth, st, id, key) == Some(st')
    ensures ContentKept(st, st') <==>
            forall i :: i in st.writers && st.writers[i].key == key ==> st.writers[i].content == []
  {
    hide TempPath, Storable, Published;
    forall i | i in st.writers
      ensures st.writers[i].file < |st'.files|
      ensures st'.files[st.writers[i].file] == if st.writers[i].key == key then [] else st.writers[i].content
    {
      assert WriterOk(hash, depth, st, st.writers[i]);
      if st.writers[i].key != key {
        PathsAreInjective(key, st.writers[i].key, depth);
      }
    }
  }

  // ---- Every run, whoever overlaps ----

  /** What holds without any condition: paths stand for files of their own, and writers have storable
      keys and files that exist. */
  ghost predicate Tidy(st: Server) {
    NamesOk(st) &&
    forall i :: i in st.writers ==> Storable(st.writers[i].key) && st.writers[i].file < |st.files|
  }

  lemma TidyStep(hash: Hash, depth: nat, st: Server, ev: Event, st': Server)
    requires Tidy(st) && Next(hash, depth, st, ev) == Some(st')
    ensures Tidy(st')
  {
    hide TempPath, FinalPath, RenameTarget, Storable, WriteAt;
  }

  lemma {:induction false} RunsAreTidy(hash: Hash, depth: nat, evs: seq<Event>)
    requires Run(hash, depth, evs).Some?
    ensures Tidy(Run(hash, depth, evs).value)
  {
    if evs != [] {
      hide Tidy, Next;
      var front := evs[..|evs| - 1];
      RunsAreTidy(hash, depth, front);
      TidyStep(hash, depth, Run(hash, depth, front).value, evs[|evs| - 1], Run(hash, depth, evs).value);
    }
  }

  /** What a rename does to reads, whatever is behind the temporary path. */
  lemma ReadsAfterRename(depth: nat, st: Server, id: nat, st': Server, k: string)
    requires Tidy(st) && DoRename(depth, st, id) == Some(st') && Storable(k)
    ensures var key, tmp := st.writers[id].key, TempPath(st.writers[id].key, depth);
            Read(depth, st', k) ==
            if tmp in st.names && k == key then Some(st.files[st.names[tmp]]) else Read(depth, st, k)
  {
    var key := st.writers[id].key;
    hide TempPath, FinalPath, RenameTarget, Storable;
    RenamedIsReadPath(key, depth);
    TempIsNeverFinal(key, k, depth);
    if k != key {
      PathsAreInjective(k, key, depth);
    }
  }

  /** In every run, overlapping writers or not: a rename keeps what is published verified exactly when the
      file behind the temporary path hashes to the key. */
  lemma RenameKeepsPublishedIff(hash: Hash, depth: nat, st: Server, id: nat, st': Server)
    requires Tidy(st) && Published(hash, depth, st) && DoRename(depth, st, id) == Some(st')
    ensures var key, tmp := st.writers[id].key, TempPath(st.writers[id].key, depth);
            Published(hash, depth, st') <==> (tmp in st.names ==> hash(st.files[st.names[tmp]]) == key)
  {
    var key, tmp := st.writers[id].key, TempPath(st.writers[id].key, depth);
    hide TempPath, DoRename, Storable, Read;
    KeyIsStorable(st, depth, id, st');
    forall k | Storable(k)
      ensures Read(depth, st', k) ==
              if tmp in st.names && k == key then Some(st.files[st.names[tmp]]) else Read(depth, st, k)
    {
      ReadsAfterRename(depth, st, id, st', k);
    }
    assert tmp in st.names ==> Read(depth, st', key) == Some(st.files[st.names[tmp]]);
  }

  lemma KeyIsStorable(st: Server, depth: nat, id: nat, st': Server)
    requires Tidy(st) && DoRename(depth, st, id) == Some(st')
    ensures id in st.writers && Storable(st.writers[id].key)
  {
  }

  /** A write keeps it verified exactly when the file it writes into is no published one, or one that
      hashes to its key with the bytes written. */
  lemma WriteKeepsPublishedIff(hash: Hash, depth: nat, st: Server, id: nat, part: seq<byte>, st': Server)
    requires Tidy(st) && Published(hash, depth, st) && DoWrite(st, id, part) == Some(st')
    ensures var w := st.writers[id];
            Published(hash, depth, st') <==>
            forall k :: Storable(k) && FinalPath(k, depth) in st.names && st.names[FinalPath(k, depth)] == w.file ==>
                          hash(WriteAt(st.files[w.file], |w.content|, part)) == k
  {
    var w := st.writers[id];
    hide TempPath, FinalPath, Storable, WriteAt;
    forall k
      ensures Read(depth, st', k) ==
              if FinalPath(k, depth) in st.names && st.names[FinalPath(k, depth)] == w.file
              then Some(WriteAt(st.files[w.file], |w.content|, part)) else Read(depth, st, k)
    {
    }
    hide Read;
    assert forall k :: FinalPath(k, depth) in st.names && st.names[FinalPath(k, depth)] == w.file ==>
                         Read(depth, st', k).Some?;
  }

  /** Nothing else can publish or spoil anything. */
  lemma OthersKeepPublished(hash: Hash, depth: nat, st: Server, ev: Event, st': Server)
    requires Tidy(st) && Published(hash, depth, st) && Next(hash, depth, st, ev) == Some(st')
    requires ev.Open? || ev.Verify? || ev.Crash?
    ensures Published(hash, depth, st')
  {
    if ev.Open? {
      hide TempPath, FinalPath, Storable;
      forall k | Storable(k) && Read(depth, st', k).Some? ensures hash(Read(depth, st', k).value) == k {
        TempIsNeverFinal(ev.key, k, depth);
        assert Read(depth, st', k) == Read(depth, st, k);
      }
    } else {
      SameNamesSameReads(hash, depth, st, st');
    }
  }

  /** No event but a new Open brings a writer into being. */
  lemma OnlyOpenAdds(hash: Hash, depth: nat, st: Server, ev: Event, st': Server, id: nat)
    requires Next(hash, depth, st, ev) == Some(st') && id !in st.writers && !(ev.Open? && ev.id == id)
    ensures id !in st'.writers
  {
    hide TempPath, RenameTarget, WriteAt;
  }

  /** A writer whose content does not hash to its key ends with the check: unless it is opened anew, nothing
      it ever writes or renames again. */
  lemma {:induction false} RefusedWriterIsGone(hash: Hash, depth: nat, evs: seq<Event>, id: nat, more: seq<Event>)
    requires Run(hash, depth, evs).Some? && id in Run(hash, depth, evs).value.writers
    requires var w := Run(hash, depth, evs).value.writers[id]; !w.verified && hash(w.content) != w.key
    requires Run(hash, depth, evs + [Verify(id)] + more).Some?
    requires forall i :: 0 <= i < |more| ==> !(more[i].Open? && more[i].id == id)
    ensures id !in Run(hash, depth, evs + [Verify(id)] + more).value.writers
    decreases |more|
  {
    var all := evs + [Verify(id)] + more;
    if more == [] {
      assert all == evs + [Verify(id)] && all[..|all| - 1] == evs;
    } else {
      hide Next;
      var front := more[..|more| - 1];
      assert all[..|all| - 1] == evs + [Verify(id)] + front && all[|all| - 1] == more[|more| - 1];
      RefusedWriterIsGone(hash, depth, evs, id, front);
      OnlyOpenAdds(hash, depth, Run(hash, depth, evs + [Verify(id)] + front).value, more[|more| - 1],
                   Run(hash, depth, all).value, id);
    }
  }

  // ---- Losing runs ----

  function OverlapRun(key: string, content: seq<byte>): (evs: seq<Event>) {
    [Open(0, key), Write(0, content), Verify(0), Open(1, key), Rename(0)]
  }

  /** The state after the first n of those events. */
  function OverlapStage(depth: nat, key: string, content: seq<byte>, n: nat): (st: Server)
    requires n <= 5
  {
    var tmp := map[TempPath(key, depth) := 0];
    match n
    case 0 => EMPTY_DISK
    case 1 => Server(tmp, [[]], map[0 := Writer(key, 0, [], false)])
    case 2 => Server(tmp, [content], map[0 := Writer(key, 0, content, false)])
    case 3 => Server(tmp, [content], map[0 := Writer(key, 0, content, true)])
    case 4 => Server(tmp, [[]], map[0 := Writer(key, 0, content, true), 1 := Writer(key, 0, [], false)])
    case 5 => Server(map[FinalPath(key, depth) := 0], [[]], map[1 := Writer(key, 0, [], false)])
  }

  lemma OverlapStep(hash: Hash, depth: nat, content: seq<byte>, n: nat)
    requires content != [] && Storable(hash(content)) && n < 5
    ensures var key := hash(content);
            Next(hash, depth, OverlapStage(depth, key, content, n), OverlapRun(key, content)[n])
            == Some(OverlapStage(depth, key, content, n + 1))
  {
    var key := hash(content);
    hide TempPath, FinalPath, RenameTarget, Storable, WriteAt;
    RenamedIsReadPath(key, depth);
    AtEnd([], content);
    assert [] + content == content;
    var st, st' := OverlapStage(depth, key, content, n), OverlapStage(depth, key, content, n + 1);
    assert OverlapRun(key, content)[n] ==
           match n
           case 0 => Open(0, key)
           case 1 => Write(0, content)
           case 2 => Verify(0)
           case 3 => Open(1, key)
           case _ => Rename(0);
    var r := Next(hash, depth, st, OverlapRun(key, content)[n]);
    assert r.Some?;
    assert r.value.names == st'.names;
    assert r.value.files == st'.files;
    assert r.value.writers == st'.writers;
  }

  lemma {:induction false} OverlapReaches(hash: Hash, depth: nat, content: seq<byte>, n: nat)
    requires content != [] && Storable(hash(content)) && n <= 5
    ensures var key := hash(content);
            Run(hash, depth, OverlapRun(key, content)[..n]) == Some(OverlapStage(depth, key, content, n))
  {
    if n > 0 {
      hide Next;
      var evs := OverlapRun(hash(content), content);
      OverlapReaches(hash, depth, content, n - 1);
      OverlapStep(hash, depth, content, n - 1);
      assert evs[..n][..n - 1] == evs[..n - 1];
    }
  }

  /** The condition is needed: if a second writer of the key opens the temporary file between the
      first one's check and its rename, an empty file is published under the key; and as its
      descriptor follows the file, whatever it writes from then on is served as well. */
  lemma OverlapPublishesUnverified(hash: Hash, depth: nat, content: seq<byte>, later: seq<byte>)
    requires content != [] && Storable(hash(content)) && hash([]) != hash(content)
    ensures var key := hash(content);
            var evs := OverlapRun(key, content);
            && Run(hash, depth, evs).Some? && Read(depth, Run(hash, depth, evs).value, key) == Some([])
            && hash([]) != key
            && Run(hash, depth, evs + [Write(1, later)]).Some?
            && Read(depth, Run(hash, depth, evs + [Write(1, later)]).value, key) == Some(later)
  {
    var key := hash(content);
    var evs := OverlapRun(key, content);
    OverlapReaches(hash, depth, content, 5);
    assert evs[..5] == evs;
    var more := evs + [Write(1, later)];
    assert more[..|more| - 1] == evs;
    hide TempPath, FinalPath, Storable, WriteAt;
    AtEnd([], later);
    assert [] + later == later;
    assert Run(hash, depth, more) == DoWrite(OverlapStage(depth, key, content, 5), 1, later);
  }

  function EarlyOverlap(key: string, p: seq<byte>, q: seq<byte>): (evs: seq<Event>) {
    [Open(0, key), Write(0, p), Open(1, key), Write(0, q), Verify(0), Rename(0)]
  }

  /** The state after the first n of those events. */
  function EarlyStage(depth: nat, key: string, p: seq<byte>, q: seq<byte>, n: nat): (st: Server)
    requires n <= 6
  {
    var tmp := map[TempPath(key, depth) := 0];
    var other := Writer(key, 0, [], false);
    match n
    case 0 => EMPTY_DISK
    case 1 => Server(tmp, [[]], map[0 := Writer(key, 0, [], false)])
    case 2 => Server(tmp, [p], map[0 := Writer(key, 0, p, false)])
    case 3 => Server(tmp, [[]], map[0 := Writer(key, 0, p, false), 1 := other])
    case 4 => Server(tmp, [Zeros(|p|) + q], map[0 := Writer(key, 0, p + q, false), 1 := other])
    case 5 => Server(tmp, [Zeros(|p|) + q], map[0 := Writer(key, 0, p + q, true), 1 := other])
    case 6 => Server(map[FinalPath(key, depth) := 0], [Zeros(|p|) + q], map[1 := other])
  }

  lemma AfterHole(n: nat, q: seq<byte>)
    requires q != []
    ensures WriteAt([], n, q) == Zeros(n) + q
  {
    var z := Zeros(n);
    var f: seq<byte> := [];
    hide Zeros;
    assert f + z == z && z[..n] == z;
    assert n == 0 ==> z == [] && f[..n] + q == q;
    assert z + q + [] == z + q;
  }

  lemma EarlyStep(hash: Hash, depth: nat, p: seq<byte>, q: seq<byte>, n: nat)
    requires q != [] && Storable(hash(p + q)) && n < 6
    ensures var key := hash(p + q);
            Next(hash, depth, EarlyStage(depth, key, p, q, n), EarlyOverlap(key, p, q)[n])
            == Some(EarlyStage(depth, key, p, q, n + 1))
  {
    var key := hash(p + q);
    hide TempPath, FinalPath, RenameTarget, Storable, WriteAt, Zeros;
    RenamedIsReadPath(key, depth);
    AtEnd([], p);
    AfterHole(|p|, q);
    assert [] + p == p;
    var st, st' := EarlyStage(depth, key, p, q, n), EarlyStage(depth, key, p, q, n + 1);
    assert EarlyOverlap(key, p, q)[n] ==
           match n
           case 0 => Open(0, key)
           case 1 => Write(0, p)
           case 2 => Open(1, key)
           case 3 => Write(0, q)
           case 4 => Verify(0)
           case _ => Rename(0);
    var r := Next(hash, depth, st, EarlyOverlap(key, p, q)[n]);
    assert r.Some?;
    assert r.value.names == st'.names;
    assert r.value.files == st'.files;
    assert r.value.writers == st'.writers;
  }

  lemma {:induction false} EarlyReaches(hash: Hash, depth: nat, p: seq<byte>, q: seq<byte>, n: nat)
    requires q != [] && Storable(hash(p + q)) && n <= 6
    ensures var key := hash(p + q);
            Run(hash, depth, EarlyOverlap(key, p, q)[..n]) == Some(EarlyStage(depth, key, p, q, n))
  {
    if n > 0 {
      hide Next;
      var evs := EarlyOverlap(hash(p + q), p, q);
      EarlyReaches(hash, depth, p, q, n - 1);
      EarlyStep(hash, depth, p, q, n - 1);
      assert evs[..n][..n - 1] == evs[..n - 1];
    }
  }

  /** Nothing needs to be verified before the overlap: a second writer that opens in the middle of the
      first one's writing leaves a hole in the published chunk. */
  lemma EarlyOverlapLeavesHole(hash: Hash, depth: nat, p: seq<byte>, q: seq<byte>)
    requires q != [] && Storable(hash(p + q))
    ensures var key := hash(p + q);
            var evs := EarlyOverlap(key, p, q);
            Run(hash, depth, evs).Some? && Read(depth, Run(hash, depth, evs).value, key) == Some(Zeros(|p|) + q)
  {
    var key := hash(p + q);
    EarlyReaches(hash, depth, p, q, 6);
    assert EarlyOverlap(key, p, q)[..6] == EarlyOverlap(key, p, q);
    hide TempPath, FinalPath, Zeros;
  }
}
