/** Where the chunk server keeps the file of a key. */
module StoragePath {
  import opened Results

  datatype FullPath = FullPath(basePath: string, fileName: string)

  function GetFilePath(p: FullPath): (s: string) {
    p.basePath + "/" + p.fileName
  }

  lemma OneCutLess(n: nat, split: nat)
    requires n > 0
    ensures n * split == (n - 1) * split + split && (n - 1) * split >= 0
  {
  }

  /** The directory names of the last n cuts: equal ones, the last one taking what is left. */
  function Pieces(key: string, split: nat, n: nat): (s: string)
    requires n > 0 && n * split <= |key|
    decreases n
  {
    OneCutLess(n, split);
    if n == 1 then key else key[..split] + "/" + Pieces(key[split..], split, n - 1)
  }

  lemma CutsFit(len: nat, depth: nat)
    requires depth > 0
    ensures depth * (len / depth) <= len
  {
  }

  function PathOf(key: string, depth: int): (r: Result<FullPath>) {
    if depth == 0 then Ok(FullPath(".", key))
    else if depth < 0 then Err
    else
      CutsFit(|key|, depth);
      Ok(FullPath(Pieces(key, |key| / depth, depth), key))
  }

  /** DefaultPathTransform, piece by piece. */
  method DefaultPathTransform(key: string, depth: int) returns (r: Result<FullPath>)
    ensures r == PathOf(key, depth)
  {
    if depth == 0 {
      return Ok(FullPath(".", key));
    }
    if depth < 0 {
      return Err;
    }
    var basePath := "";
    var split := |key| / depth;
    var start := 0;
    var i := 0;
    CutsFit(|key|, depth);
    ghost var whole := Pieces(key, split, depth);
    assert key[0..] == key;
    while i < depth
      invariant 0 <= i <= depth && 0 <= start <= |key|
      invariant i < depth ==> (depth - i) * split <= |key| - start
      invariant i < depth ==> basePath + Pieces(key[start..], split, depth - i) == whole
      invariant i == depth ==> basePath == whole
    {
      OneCutLess(depth - i, split);
      if i == depth - 1 {
        basePath := basePath + key[start..];
      } else {
        assert key[start..][..split] == key[start..start + split];
        assert key[start..][split..] == key[start + split..];
        ghost var rest := Pieces(key[start + split..], split, depth - i - 1);
        assert basePath + (key[start..start + split] + "/" + rest) ==
               (basePath + (key[start..start + split] + "/")) + rest;
        basePath := basePath + (key[start..start + split] + "/");
        start := start + split;
      }
      i := i + 1;
    }
    r := Ok(FullPath(basePath, key));
  }

  function Without(s: string, c: char): (r: string) {
    if s == "" then "" else (if s[0] == c then "" else [s[0]]) + Without(s[1..], c)
  }

  lemma {:induction false} WithoutConcat(s: string, t: string, c: char)
    ensures Without(s + t, c) == Without(s, c) + Without(t, c)
  {
    if s == "" {
      assert s + t == t;
    } else {
      WithoutConcat(s[1..], t, c);
      assert (s + t)[1..] == s[1..] + t;
    }
  }

  /** The directory names spell the key: nothing of it is lost, repeated or reordered. */
  lemma {:induction false} PiecesSpellKey(key: string, split: nat, n: nat)
    requires n > 0 && n * split <= |key|
    ensures Without(Pieces(key, split, n), '/') == Without(key, '/')
    decreases n
  {
    if n > 1 {
      OneCutLess(n, split);
      var piece, rest := key[..split], Pieces(key[split..], split, n - 1);
      PiecesSpellKey(key[split..], split, n - 1);
      WithoutConcat(piece + "/", rest, '/');
      WithoutConcat(piece, "/", '/');
      WithoutConcat(piece, key[split..], '/');
      assert key == piece + key[split..];
    }
  }

  /** The path transform fails exactly for a negative depth, and otherwise keeps the key whole, as the
      file name and spelled by the directories. */
  lemma TransformSpellsKey(key: string, depth: int)
    ensures PathOf(key, depth).Ok? <==> depth >= 0
    ensures depth > 0 ==> Without(PathOf(key, depth).value.basePath, '/') == Without(key, '/')
    ensures depth >= 0 ==> PathOf(key, depth).value.fileName == key
  {
    if depth > 0 {
      CutsFit(|key|, depth);
      PiecesSpellKey(key, |key| / depth, depth);
    }
  }

  /** A path taken apart at its slashes. */
  function Parts(s: string): (r: seq<string>)
    ensures |r| >= 1
  {
    if s == "" then [""]
    else if s[0] == '/' then [""] + Parts(s[1..])
    else
      var rest := Parts(s[1..]);
      [[s[0]] + rest[0]] + rest[1..]
  }

  lemma {:induction false} OnePart(s: string)
    requires '/' !in s
    ensures Parts(s) == [s]
  {
    if s != "" {
      OnePart(s[1..]);
      assert [s[0]] + s[1..] == s;
    }
  }

  lemma {:induction false} FirstPart(s: string, rest: string)
    requires '/' !in s
    ensures Parts(s + "/" + rest) == [s] + Parts(rest)
  {
    var all := s + "/" + rest;
    if s == "" {
      assert all[0] == '/' && all[1..] == rest;
    } else {
      FirstPart(s[1..], rest);
      assert all[1..] == s[1..] + "/" + rest;
      assert [s[0]] + s[1..] == s;
    }
  }

  /** Where directory i begins in the key. */
  function CutAt(split: nat, i: nat): (at: nat) {
    i * split
  }

  function Slice(s: string, from: nat, to: nat): (r: string) {
    if from <= to <= |s| then s[from..to] else ""
  }

  /** Directory i of n: the next `split` characters of the key, for the last one all that is left. */
  function Directory(key: string, split: nat, n: nat, i: nat): (r: string) {
    Slice(key, CutAt(split, i), if i + 1 == n then |key| else CutAt(split, i + 1))
  }

  lemma CutNext(split: nat, i: nat)
    ensures CutAt(split, i + 1) == CutAt(split, i) + split && CutAt(split, 0) == 0
  {
    assert (i + 1) * split == i * split + split;
  }

  lemma {:induction false} CutsRise(split: nat, i: nat, n: nat)
    requires i <= n
    ensures CutAt(split, i) <= CutAt(split, n)
    decreases n
  {
    hide CutAt;
    if i < n {
      CutsRise(split, i, n - 1);
      CutNext(split, n - 1);
    }
  }

  /** Directory i + 1 of the key is directory i of what follows the first cut. */
  lemma DirectoryLater(key: string, split: nat, n: nat, i: nat)
    requires i + 1 < n && CutAt(split, n) <= |key| && split <= |key|
    ensures Directory(key, split, n, i + 1) == Directory(key[split..], split, n - 1, i)
  {
    hide CutAt;
    CutNext(split, i);
    CutNext(split, i + 1);
    CutsRise(split, i + 2, n);
  }

  lemma {:induction false} PiecesAreCuts(key: string, split: nat, n: nat)
    requires n > 0 && n * split <= |key| && '/' !in key
    ensures |Parts(Pieces(key, split, n))| == n
    ensures forall i :: 0 <= i < n ==> Parts(Pieces(key, split, n))[i] == Directory(key, split, n, i)
    decreases n
  {
    CutNext(split, 0);
    if n == 1 {
      OnePart(key);
      assert key[0..|key|] == key;
    } else {
      OneCutLess(n, split);
      assert n * split == CutAt(split, n);
      FirstDirectory(key, split, n);
    }
  }

  lemma FirstDirectory(key: string, split: nat, n: nat)
    requires n > 1 && CutAt(split, n) == n * split <= |key| && '/' !in key && split <= |key|
    requires (n - 1) * split <= |key| - split
    ensures |Parts(Pieces(key, split, n))| == n
    ensures forall i :: 0 <= i < n ==> Parts(Pieces(key, split, n))[i] == Directory(key, split, n, i)
    decreases n, 0
  {
    var rest := key[split..];
    PiecesAreCuts(rest, split, n - 1);
    FirstPart(key[..split], Pieces(rest, split, n - 1));
    CutNext(split, 0);
    hide CutAt, Directory, Parts;
    var parts, later := Parts(Pieces(key, split, n)), Parts(Pieces(rest, split, n - 1));
    assert parts == [key[..split]] + later;
    forall i | 0 < i < n ensures parts[i] == Directory(key, split, n, i) {
      DirectoryLater(key, split, n, i - 1);
    }
    FirstCut(key, split, n);
  }

  lemma FirstCut(key: string, split: nat, n: nat)
    requires n > 1 && split <= |key|
    ensures Directory(key, split, n, 0) == key[..split]
  {
  }

  /** An even share of the key. */
  function Share(key: string, depth: nat): (n: nat)
    requires depth > 0
  {
    |key| / depth
  }

  /** So the path transform of a key without slashes has as many directories as the depth says, each but
      the last holding the next |key| / depth characters. */
  lemma DirectoriesAreCuts(key: string, depth: nat)
    requires depth > 0 && '/' !in key
    ensures var parts := Parts(PathOf(key, depth).value.basePath);
            |parts| == depth && forall i :: 0 <= i < depth ==> parts[i] == Directory(key, Share(key, depth), depth, i)
  {
    PathHasPieces(key, depth);
    hide Parts, Pieces, Directory, PathOf, Share;
    PiecesAreCuts(key, Share(key, depth), depth);
  }

  lemma PathHasPieces(key: string, depth: nat)
    requires depth > 0
    ensures depth * Share(key, depth) <= |key|
    ensures PathOf(key, depth).value.basePath == Pieces(key, Share(key, depth), depth)
  {
    CutsFit(|key|, depth);
  }

  /** An MD5 id of 32 characters, at the depth of five the server uses. */
  lemma DirectoriesOfAnId(key: string)
    requires |key| == 32 && '/' !in key
    ensures Parts(PathOf(key, 5).value.basePath) == [key[..6], key[6..12], key[12..18], key[18..24], key[24..]]
  {
    DirectoriesAreCuts(key, 5);
    hide Parts, Pieces;
    var parts := Parts(PathOf(key, 5).value.basePath);
    assert parts == [parts[0], parts[1], parts[2], parts[3], parts[4]];
    assert key[0..6] == key[..6] && key[24..32] == key[24..];
  }

  /** Keys that are not themselves the name of a temporary file. */
  predicate Storable(key: string) {
    |key| < 4 || key[|key| - 4..] != ".tmp"
  }

  function FinalPath(key: string, depth: nat): (s: string) {
    GetFilePath(FullPath("./test-write/" + PathOf(key, depth).value.basePath, key))
  }

  function TempPath(key: string, depth: nat): (s: string) {
    GetFilePath(FullPath("./test-write/" + PathOf(key, depth).value.basePath, key + ".tmp"))
  }

  function LastIndex(s: string, c: char): (i: int)
    ensures -1 <= i < |s|
    ensures i >= 0 ==> s[i] == c
    ensures forall j :: i < j < |s| ==> s[j] != c
  {
    if s == "" then -1
    else if s[|s| - 1] == c then |s| - 1
    else LastIndex(s[..|s| - 1], c)
  }

  /** RenameFile's target. */
  function RenameTarget(path: string): (s: string) {
    if LastIndex(path, '.') < 0 then path else path[..LastIndex(path, '.')]
  }

  /** The name a finished file is renamed to is the one a read of its key opens, whatever the key. */
  lemma RenamedIsReadPath(key: string, depth: nat)
    ensures RenameTarget(TempPath(key, depth)) == FinalPath(key, depth)
  {
    var t, f := TempPath(key, depth), FinalPath(key, depth);
    assert t == f + ".tmp";
    assert t[|f|] == '.';
    assert t[|f| + 1] == 't' && t[|f| + 2] == 'm' && t[|f| + 3] == 'p';
    assert LastIndex(t, '.') == |f|;
  }

  lemma EndsWithKey(key: string, depth: nat)
    ensures var f := FinalPath(key, depth);
            |f| > |key| && f[|f| - |key|..] == key && f[|f| - |key| - 1] == '/'
  {
  }

  /** No temporary file has the name of a final one. */
  lemma TempIsNeverFinal(a: string, b: string, depth: nat)
    requires Storable(b)
    ensures TempPath(a, depth) != FinalPath(b, depth)
  {
    var t, f := TempPath(a, depth), FinalPath(b, depth);
    var n := |t| - 4;
    assert t == FinalPath(a, depth) + ".tmp";
    assert t[n] == '.' && t[n + 1] == 't' && t[n + 2] == 'm' && t[n + 3] == 'p';
    EndsWithKey(b, depth);
    assert t[n..] == ".tmp";
    assert |b| >= 4 ==> f[|f| - 4..] == b[|b| - 4..];
  }

  /** Without directories the condition is exact: a final path is some key's temporary path exactly
      when its own key is not storable. */
  lemma TempIsFinalIff(b: string)
    ensures (exists a :: TempPath(a, 0) == FinalPath(b, 0)) <==> !Storable(b)
  {
    if !Storable(b) {
      var a := b[..|b| - 4];
      assert b == a + ".tmp";
      assert TempPath(a, 0) == FinalPath(b, 0);
    }
    if a :| TempPath(a, 0) == FinalPath(b, 0) && Storable(b) {
      TempIsNeverFinal(a, b, 0);
    }
  }

  lemma {:induction false} PiecesLength(key: string, split: nat, n: nat)
    requires n > 0 && n * split <= |key|
    ensures |Pieces(key, split, n)| == |key| + n - 1
    decreases n
  {
    if n > 1 {
      OneCutLess(n, split);
      PiecesLength(key[split..], split, n - 1);
    }
  }

  /** A longer key has a longer path. */
  lemma FinalPathLength(key: string, depth: nat)
    ensures |FinalPath(key, depth)| == |"./test-write/"| + (if depth == 0 then |key| + 2 else 2 * |key| + depth)
  {
    if depth > 0 {
      CutsFit(|key|, depth);
      PiecesLength(key, |key| / depth, depth);
    }
  }

  /** Different keys have different final files and different temporary files. */
  lemma PathsAreInjective(a: string, b: string, depth: nat)
    requires a != b
    ensures FinalPath(a, depth) != FinalPath(b, depth) && TempPath(a, depth) != TempPath(b, depth)
  {
    FinalPathLength(a, depth);
    FinalPathLength(b, depth);
    EndsWithKey(a, depth);
    EndsWithKey(b, depth);
    RenamedIsReadPath(a, depth);
    RenamedIsReadPath(b, depth);
  }
}
