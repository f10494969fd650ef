/**
 * What a running download will total: the blobs on disk name the files llama.cpp chose, and the repo tree
 * prices them, or no total is given.
 */
module DownloadTotal {
  import opened Text

  datatype RepoFile = RepoFile(path: string, size: Option<nat>, oid: string, lfsOid: string)

  datatype Attribution = Attribution(total: Option<nat>, unattributed: seq<string>)

  const PARTIAL_BLOB_SUFFIXES := [".downloadInProgress", ".incomplete", ".part", ".tmp"]

  predicate EndsWith(s: string, suffix: string) {
    |suffix| <= |s| && s[|s| - |suffix|..] == suffix
  }

  /** The name without the first of the suffixes it ends with. */
  function Stripped(name: string, suffixes: seq<string>): string {
    if suffixes == [] then name
    else if EndsWith(name, suffixes[0]) then name[..|name| - |suffixes[0]|]
    else Stripped(name, suffixes[1..])
  }

  method StripPartialSuffix(name: string) returns (key: string)
    ensures key == Stripped(name, PARTIAL_BLOB_SUFFIXES)
  {
    for i := 0 to |PARTIAL_BLOB_SUFFIXES|
      invariant Stripped(name, PARTIAL_BLOB_SUFFIXES) == Stripped(name, PARTIAL_BLOB_SUFFIXES[i..])
    {
      var suffix := PARTIAL_BLOB_SUFFIXES[i];
      if EndsWith(name, suffix) {
        return name[..|name| - |suffix|];
      }
    }
    key := name;
  }

  // ----- which file a blob is -----

  /** The last file of the tree that `which` finds, as a map filled in tree order answers. */
  function LastWith(tree: seq<RepoFile>, which: RepoFile -> bool): (f: Option<RepoFile>)
    ensures f.Some? ==> f.value in tree && which(f.value)
    ensures f.None? ==> forall x :: x in tree ==> !which(x)
  {
    if tree == [] then None
    else
      var n := |tree| - 1;
      assert tree == tree[..n] + [tree[n]];
      if which(tree[n]) then Some(tree[n]) else LastWith(tree[..n], which)
  }

  function ByLfsOid(tree: seq<RepoFile>, key: string): Option<RepoFile> {
    LastWith(tree, (f: RepoFile) => f.lfsOid != "" && f.lfsOid == key)
  }

  function ByOid(tree: seq<RepoFile>, key: string): Option<RepoFile> {
    LastWith(tree, (f: RepoFile) => f.oid != "" && f.oid == key)
  }

  function ByPath(tree: seq<RepoFile>, path: string): (f: Option<RepoFile>)
    ensures f.Some? ==> f.value in tree && f.value.path == path
    ensures f.None? ==> forall x :: x in tree ==> x.path != path
  {
    LastWith(tree, (f: RepoFile) => f.path == path)
  }

  function FileOf(tree: seq<RepoFile>, name: string): (f: Option<RepoFile>)
    ensures f.Some? ==> f.value in tree
  {
    var key := Stripped(name, PARTIAL_BLOB_SUFFIXES);
    if ByLfsOid(tree, key).Some? then ByLfsOid(tree, key) else ByOid(tree, key)
  }

  // ----- the files counted and what they add up to -----

  /** The seeded files the tree knows and the file of every observed blob. */
  function Counted(blobs: set<string>, tree: seq<RepoFile>, seeds: set<string>): (paths: set<string>)
    ensures forall p :: p in paths ==> ByPath(tree, p).Some?
  {
    (set s | s in seeds && ByPath(tree, s).Some? :: s)
    + (set b | b in blobs && FileOf(tree, b).Some? :: FileOf(tree, b).value.path)
  }

  predicate DistinctPaths(tree: seq<RepoFile>) {
    forall i, j :: 0 <= i < j < |tree| ==> tree[i].path != tree[j].path
  }

  predicate Sized(tree: seq<RepoFile>, paths: set<string>) {
    forall f :: f in tree && f.path in paths ==> f.size.Some?
  }

  function SizeOf(f: RepoFile): nat {
    if f.size.Some? then f.size.value else 0
  }

  function Sum(tree: seq<RepoFile>, paths: set<string>): nat {
    if tree == [] then 0
    else
      var f := tree[|tree| - 1];
      Sum(tree[..|tree| - 1], paths) + if f.path in paths then SizeOf(f) else 0
  }

  /** The total as a function of the set of blobs and the set of seeds alone. */
  function Total(blobs: set<string>, tree: seq<RepoFile>, seeds: set<string>): Option<nat> {
    var paths := Counted(blobs, tree, seeds);
    if (exists b :: b in blobs && FileOf(tree, b).None?) || !Sized(tree, paths) || paths == {} then None
    else Some(Sum(tree, paths))
  }

  /** No file of the tree carries the blob's name, partial suffix aside, as a content id. */
  predicate Unknown(tree: seq<RepoFile>, name: string) {
    var key := Stripped(name, PARTIAL_BLOB_SUFFIXES);
    forall f :: f in tree ==> !(f.lfsOid != "" && f.lfsOid == key) && !(f.oid != "" && f.oid == key)
  }

  /** The file is seeded, or is what one of the blobs is part of. */
  predicate IsCounted(f: RepoFile, blobs: seq<string>, tree: seq<RepoFile>, seeds: seq<string>) {
    f.path in seeds || exists b :: b in blobs && FileOf(tree, b) == Some(f)
  }

  function Unnamed(blobs: seq<string>, tree: seq<RepoFile>): (names: seq<string>)
    ensures names == [] <==> forall b :: b in blobs ==> FileOf(tree, b).Some?
  {
    if blobs == [] then []
    else
      var n := |blobs| - 1;
      assert blobs == blobs[..n] + [blobs[n]];
      Unnamed(blobs[..n], tree) + if FileOf(tree, blobs[n]).None? then [blobs[n]] else []
  }

  function Members(s: seq<string>): set<string> {
    set x | x in s
  }

  // ----- the loops -----

  /** A map as the source iterates it: its keys in the order they were first set. */
  datatype Matched = Matched(order: seq<string>, sizes: map<string, Option<nat>>)

  predicate Matches(m: Matched, tree: seq<RepoFile>, paths: set<string>) {
    && m.sizes.Keys == paths && Members(m.order) == paths
    && (forall i, j :: 0 <= i < j < |m.order| ==> m.order[i] != m.order[j])
    && (forall p :: p in paths ==> ByPath(tree, p).Some? && m.sizes[p] == ByPath(tree, p).value.size)
  }

  method Match(m: Matched, f: RepoFile, ghost tree: seq<RepoFile>, ghost paths: set<string>) returns (r: Matched)
    requires DistinctPaths(tree) && f in tree && Matches(m, tree, paths)
    ensures Matches(r, tree, paths + {f.path})
  {
    hide DistinctPaths, ByPath;
    var order := if f.path in m.sizes then m.order else m.order + [f.path];
    OnePath(tree, f);
    r := Matched(order, m.sizes[f.path := f.size]);
  }

  lemma OnePath(tree: seq<RepoFile>, f: RepoFile)
    requires DistinctPaths(tree) && f in tree
    ensures ByPath(tree, f.path) == Some(f)
  {
    hide ByPath;
    var g := ByPath(tree, f.path).value;
    var i :| 0 <= i < |tree| && tree[i] == f;
    var j :| 0 <= j < |tree| && tree[j] == g;
  }

  method AttributeBlobs(blobs: seq<string>, tree: seq<RepoFile>, seeds: seq<string>) returns (r: Attribution)
    requires DistinctPaths(tree)
    ensures r.unattributed == Unnamed(blobs, tree)
    ensures r.total == Total(Members(blobs), tree, Members(seeds))
    ensures r.total.None? <==>
      || (exists b :: b in blobs && Unknown(tree, b))
      || (exists f :: f in tree && IsCounted(f, blobs, tree, seeds) && f.size.None?)
      || (forall f :: f in tree ==> !IsCounted(f, blobs, tree, seeds))
  {
    hide Matches, DistinctPaths, ByPath, FileOf, Counted, Sum, Sized, Members;
    var matched := Matched([], map[]);
    assert Members([]) == {} && Matches(matched, tree, {}) by { NothingMatched(tree); }
    ghost var paths: set<string> := {};
    assert paths == Counted(Members(blobs[..0]), tree, Members(seeds[..0])) by { NothingCounted(tree); }
    for i := 0 to |seeds|
      invariant Matches(matched, tree, paths) && paths == Counted(Members([]), tree, Members(seeds[..i]))
    {
      CountedSeed([], seeds, tree, i);
      var file := ByPath(tree, seeds[i]);
      if file.Some? {
        matched := Match(matched, file.value, tree, paths);
        paths := paths + {file.value.path};
      }
    }
    assert seeds[..|seeds|] == seeds && blobs[..0] == [];
    var unattributed: seq<string> := [];
    for i := 0 to |blobs|
      invariant Matches(matched, tree, paths) && paths == Counted(Members(blobs[..i]), tree, Members(seeds))
      invariant unattributed == Unnamed(blobs[..i], tree)
    {
      assert blobs[..i + 1][..i] == blobs[..i];
      CountedBlob(blobs, Members(seeds), tree, i);
      var file := FileOf(tree, blobs[i]);
      if file.None? {
        unattributed := unattributed + [blobs[i]];
      } else {
        matched := Match(matched, file.value, tree, paths);
        paths := paths + {file.value.path};
      }
    }
    assert blobs[..|blobs|] == blobs;
    MembersOf(blobs);
    WithheldWhen(blobs, tree, seeds);
    if |unattributed| > 0 {
      return Attribution(None, unattributed);
    }
    var total := AddUp(matched, tree, paths);
    r := Attribution(total, []);
  }

  lemma UnknownHasNoFile(tree: seq<RepoFile>, name: string)
    ensures FileOf(tree, name).None? <==> Unknown(tree, name)
  {
    var key := Stripped(name, PARTIAL_BLOB_SUFFIXES);
    var lfs, oid := ByLfsOid(tree, key), ByOid(tree, key);
  }

  lemma CountedPaths(f: RepoFile, blobs: seq<string>, tree: seq<RepoFile>, seeds: seq<string>)
    requires DistinctPaths(tree) && f in tree
    ensures f.path in Counted(Members(blobs), tree, Members(seeds)) <==> IsCounted(f, blobs, tree, seeds)
  {
    hide ByPath, FileOf, DistinctPaths;
    OnePath(tree, f);
    if b :| b in blobs && FileOf(tree, b).Some? && FileOf(tree, b).value.path == f.path {
      OnePath(tree, FileOf(tree, b).value);
    }
  }

  /** The conditions under which no total is given, in terms of the tree's files. */
  lemma WithheldWhen(blobs: seq<string>, tree: seq<RepoFile>, seeds: seq<string>)
    requires DistinctPaths(tree)
    ensures Total(Members(blobs), tree, Members(seeds)).None? <==>
      || (exists b :: b in blobs && Unknown(tree, b))
      || (exists f :: f in tree && IsCounted(f, blobs, tree, seeds) && f.size.None?)
      || (forall f :: f in tree ==> !IsCounted(f, blobs, tree, seeds))
  {
    hide ByPath, FileOf, DistinctPaths, Sum, Unknown, IsCounted, Counted;
    var paths := Counted(Members(blobs), tree, Members(seeds));
    forall b ensures FileOf(tree, b).None? <==> Unknown(tree, b) {
      UnknownHasNoFile(tree, b);
    }
    forall f | f in tree ensures f.path in paths <==> IsCounted(f, blobs, tree, seeds) {
      CountedPaths(f, blobs, tree, seeds);
    }
    if p :| p in paths {
      var f := ByPath(tree, p).value;
      assert f in tree && f.path in paths;
    }
  }

  lemma NothingMatched(tree: seq<RepoFile>)
    ensures Members([]) == {} && Matches(Matched([], map[]), tree, {})
  {
  }

  lemma NothingCounted(tree: seq<RepoFile>)
    ensures Counted(Members([]), tree, Members([])) == {}
  {
  }

  lemma MembersOf(s: seq<string>)
    ensures forall x :: x in Members(s) <==> x in s
  {
  }

  lemma CountedSeed(blobs: seq<string>, seeds: seq<string>, tree: seq<RepoFile>, i: nat)
    requires i < |seeds|
    ensures Counted(Members(blobs), tree, Members(seeds[..i + 1])) ==
      Counted(Members(blobs), tree, Members(seeds[..i]))
      + if ByPath(tree, seeds[i]).Some? then {ByPath(tree, seeds[i]).value.path} else {}
  {
    hide ByPath, FileOf;
    assert seeds[..i + 1] == seeds[..i] + [seeds[i]];
  }

  lemma CountedBlob(blobs: seq<string>, seeds: set<string>, tree: seq<RepoFile>, i: nat)
    requires i < |blobs|
    ensures Counted(Members(blobs[..i + 1]), tree, seeds) ==
      Counted(Members(blobs[..i]), tree, seeds)
      + if FileOf(tree, blobs[i]).Some? then {FileOf(tree, blobs[i]).value.path} else {}
  {
    hide ByPath, FileOf;
    assert blobs[..i + 1] == blobs[..i] + [blobs[i]];
  }

  /** The sum over the matched files in the order they were met, or nothing when one has no size. */
  method AddUp(m: Matched, ghost tree: seq<RepoFile>, ghost paths: set<string>) returns (total: Option<nat>)
    requires DistinctPaths(tree) && Matches(m, tree, paths)
    ensures total == if Sized(tree, paths) && paths != {} then Some(Sum(tree, paths)) else None
  {
    hide ByPath, DistinctPaths, Sum, Sized;
    var totalBytes := 0;
    SumOfNothing(tree);
    assert Members(m.order[..0]) == {};
    for i := 0 to |m.order|
      invariant totalBytes == Sum(tree, Members(m.order[..i]))
      invariant forall k :: 0 <= k < i ==> m.sizes[m.order[k]].Some?
    {
      var p := m.order[i];
      assert p in Members(m.order);
      if m.sizes[p].None? {
        NotSized(tree, paths, ByPath(tree, p).value);
        return None;
      }
      assert m.order[..i + 1] == m.order[..i] + [p] && p !in m.order[..i];
      assert Members(m.order[..i + 1]) == Members(m.order[..i]) + {p};
      SumOneMore(tree, Members(m.order[..i]), ByPath(tree, p).value);
      totalBytes := totalBytes + m.sizes[p].value;
    }
    assert m.order[..|m.order|] == m.order;
    AllSized(m, tree, paths);
    total := if |m.sizes| > 0 then Some(totalBytes) else None;
  }

  lemma NotSized(tree: seq<RepoFile>, paths: set<string>, f: RepoFile)
    requires f in tree && f.path in paths && f.size.None?
    ensures !Sized(tree, paths)
  {
  }

  lemma AllSized(m: Matched, tree: seq<RepoFile>, paths: set<string>)
    requires DistinctPaths(tree) && Matches(m, tree, paths)
    requires forall k :: 0 <= k < |m.order| ==> m.sizes[m.order[k]].Some?
    ensures Sized(tree, paths)
  {
    hide ByPath, DistinctPaths;
    forall f | f in tree && f.path in paths ensures f.size.Some? {
      OnePath(tree, f);
      assert f.path in Members(m.order);
      var k :| 0 <= k < |m.order| && m.order[k] == f.path;
    }
  }

  lemma {:induction false} SumOfNothing(tree: seq<RepoFile>)
    ensures Sum(tree, {}) == 0
  {
    if tree != [] {
      SumOfNothing(tree[..|tree| - 1]);
    }
  }

  lemma {:induction false} SumElsewhere(tree: seq<RepoFile>, paths: set<string>, p: string)
    requires forall f :: f in tree ==> f.path != p
    ensures Sum(tree, paths + {p}) == Sum(tree, paths)
  {
    if tree != [] {
      assert tree == tree[..|tree| - 1] + [tree[|tree| - 1]];
      SumElsewhere(tree[..|tree| - 1], paths, p);
    }
  }

  lemma {:induction false} SumOneMore(tree: seq<RepoFile>, paths: set<string>, f: RepoFile)
    requires DistinctPaths(tree) && f in tree && f.path !in paths
    ensures Sum(tree, paths + {f.path}) == Sum(tree, paths) + SizeOf(f)
    decreases |tree|
  {
    var n := |tree| - 1;
    var k :| 0 <= k < |tree| && tree[k] == f;
    if k == n {
      assert forall x :: x in tree[..n] ==> x.path != f.path;
      SumElsewhere(tree[..n], paths, f.path);
    } else {
      assert tree[..n][k] == f && tree[n].path != f.path;
      SumOneMore(tree[..n], paths, f);
    }
  }

  // ----- what the total means -----

  /** The blobs' order, and naming one twice, change nothing. */
  lemma OrderDoesNotMatter(a: seq<string>, b: seq<string>, tree: seq<RepoFile>, seeds: seq<string>)
    requires forall x :: x in a <==> x in b
    ensures Total(Members(a), tree, Members(seeds)) == Total(Members(b), tree, Members(seeds))
  {
    assert Members(a) == Members(b);
  }

  lemma {:induction false} SumMonotone(tree: seq<RepoFile>, a: set<string>, b: set<string>)
    requires a <= b
    ensures Sum(tree, a) <= Sum(tree, b)
  {
    if tree != [] {
      SumMonotone(tree[..|tree| - 1], a, b);
    }
  }

  /** Seeing more blobs never lowers the total. */
  lemma TotalGrows(a: set<string>, b: set<string>, tree: seq<RepoFile>, seeds: set<string>)
    requires a <= b && Total(a, tree, seeds).Some? && Total(b, tree, seeds).Some?
    ensures Total(a, tree, seeds).value <= Total(b, tree, seeds).value
  {
    hide FileOf, Sum, ByPath, Sized;
    assert Counted(a, tree, seeds) <= Counted(b, tree, seeds);
    SumMonotone(tree, Counted(a, tree, seeds), Counted(b, tree, seeds));
  }

  datatype Blob = Blob(name: string, bytes: nat)

  function Downloaded(blobs: seq<Blob>): nat {
    if blobs == [] then 0 else Downloaded(blobs[..|blobs| - 1]) + blobs[|blobs| - 1].bytes
  }

  function NamesOf(blobs: seq<Blob>): set<string> {
    set b | b in blobs :: b.name
  }

  /** Each blob is part of a file of its own and no larger than it. */
  predicate PartsOfFiles(blobs: seq<Blob>, tree: seq<RepoFile>) {
    && (forall i :: 0 <= i < |blobs| ==> FileOf(tree, blobs[i].name).Some?
                                         && blobs[i].bytes <= SizeOf(FileOf(tree, blobs[i].name).value))
    && (forall i, j :: 0 <= i < j < |blobs| ==>
         FileOf(tree, blobs[i].name).value.path != FileOf(tree, blobs[j].name).value.path)
  }

  predicate Complete(f: RepoFile, blobs: seq<Blob>, tree: seq<RepoFile>) {
    SizeOf(f) == 0 || exists b :: b in blobs && FileOf(tree, b.name) == Some(f) && b.bytes == SizeOf(f)
  }

  ghost function PathsOf(blobs: seq<Blob>, tree: seq<RepoFile>): set<string> {
    set i | 0 <= i < |blobs| && FileOf(tree, blobs[i].name).Some? :: FileOf(tree, blobs[i].name).value.path
  }

  /** Blob by blob, what is on disk stays within the files it is part of, and a shortfall shows in the sum. */
  lemma {:induction false} WithinFiles(blobs: seq<Blob>, tree: seq<RepoFile>)
    requires DistinctPaths(tree) && PartsOfFiles(blobs, tree)
    ensures Downloaded(blobs) <= Sum(tree, PathsOf(blobs, tree))
    ensures Downloaded(blobs) == Sum(tree, PathsOf(blobs, tree))
      <==> forall i :: 0 <= i < |blobs| ==> blobs[i].bytes == SizeOf(FileOf(tree, blobs[i].name).value)
    decreases |blobs|
  {
    hide FileOf, DistinctPaths, Sum;
    if blobs == [] {
      assert PathsOf(blobs, tree) == {};
      SumOfNothing(tree);
    } else {
      var n := |blobs| - 1;
      var rest, f := blobs[..n], FileOf(tree, blobs[n].name).value;
      WithinFiles(rest, tree);
      PathsOfMore(blobs, tree);
      SumOneMore(tree, PathsOf(rest, tree), f);
    }
  }

  lemma PathsOfMore(blobs: seq<Blob>, tree: seq<RepoFile>)
    requires blobs != [] && PartsOfFiles(blobs, tree)
    ensures var n := |blobs| - 1; var path := FileOf(tree, blobs[n].name).value.path;
      PathsOf(blobs, tree) == PathsOf(blobs[..n], tree) + {path} && path !in PathsOf(blobs[..n], tree)
      && PartsOfFiles(blobs[..n], tree)
  {
    hide FileOf;
    var n := |blobs| - 1;
    var path := FileOf(tree, blobs[n].name).value.path;
    forall p ensures p in PathsOf(blobs, tree) <==> p in PathsOf(blobs[..n], tree) + {path} {
      if p in PathsOf(blobs, tree) && p != path {
        var i :| 0 <= i < |blobs| && FileOf(tree, blobs[i].name).Some? && p == FileOf(tree, blobs[i].name).value.path;
        assert blobs[..n][i] == blobs[i];
      }
      if p in PathsOf(blobs[..n], tree) {
        var i :| 0 <= i < n && p == FileOf(tree, blobs[..n][i].name).value.path;
        assert blobs[i] == blobs[..n][i];
      }
    }
  }

  /** Never more downloaded than the total, and as much exactly when every counted file is there in full. */
  lemma FullIffComplete(blobs: seq<Blob>, tree: seq<RepoFile>, seeds: set<string>)
    requires DistinctPaths(tree) && PartsOfFiles(blobs, tree) && Total(NamesOf(blobs), tree, seeds).Some?
    ensures var total := Total(NamesOf(blobs), tree, seeds).value;
      && Downloaded(blobs) <= total
      && (Downloaded(blobs) == total <==>
           forall f :: f in tree && f.path in Counted(NamesOf(blobs), tree, seeds) ==> Complete(f, blobs, tree))
  {
    hide FileOf, Sum, ByPath, Sized, DistinctPaths, Complete, PartsOfFiles;
    FullMeansComplete(blobs, tree, seeds);
    if forall f :: f in tree && f.path in Counted(NamesOf(blobs), tree, seeds) ==> Complete(f, blobs, tree) {
      CompleteMeansFull(blobs, tree, seeds);
    }
  }

  lemma FullMeansComplete(blobs: seq<Blob>, tree: seq<RepoFile>, seeds: set<string>)
    requires DistinctPaths(tree) && PartsOfFiles(blobs, tree) && Total(NamesOf(blobs), tree, seeds).Some?
    ensures var total := Total(NamesOf(blobs), tree, seeds).value;
      && Downloaded(blobs) <= total
      && (Downloaded(blobs) == total ==>
           forall f :: f in tree && f.path in Counted(NamesOf(blobs), tree, seeds) ==> Complete(f, blobs, tree))
  {
    hide FileOf, Sum, ByPath, Sized, DistinctPaths, Complete;
    var counted, seen := Counted(NamesOf(blobs), tree, seeds), PathsOf(blobs, tree);
    WithinFiles(blobs, tree);
    SeenAreCounted(blobs, tree, seeds);
    SumMonotone(tree, seen, counted);
    if Downloaded(blobs) == Total(NamesOf(blobs), tree, seeds).value {
      forall f | f in tree && f.path in counted ensures Complete(f, blobs, tree) {
        if f.path in seen {
          SeenComplete(blobs, tree, f);
        } else {
          SumMonotone(tree, seen + {f.path}, counted);
          SumOneMore(tree, seen, f);
          NothingToDownload(f, blobs, tree);
        }
      }
    }
  }

  lemma CompleteMeansFull(blobs: seq<Blob>, tree: seq<RepoFile>, seeds: set<string>)
    requires DistinctPaths(tree) && PartsOfFiles(blobs, tree) && Total(NamesOf(blobs), tree, seeds).Some?
    requires forall f :: f in tree && f.path in Counted(NamesOf(blobs), tree, seeds) ==> Complete(f, blobs, tree)
    ensures Downloaded(blobs) == Total(NamesOf(blobs), tree, seeds).value
  {
    hide FileOf, Sum, ByPath, Sized, DistinctPaths, Complete, PartsOfFiles;
    var counted, seen := Counted(NamesOf(blobs), tree, seeds), PathsOf(blobs, tree);
    WithinFiles(blobs, tree);
    SeenAreCounted(blobs, tree, seeds);
    forall i | 0 <= i < |blobs|
      ensures FileOf(tree, blobs[i].name).Some? && blobs[i].bytes == SizeOf(FileOf(tree, blobs[i].name).value)
    {
      BlobIsWhole(blobs, tree, counted, i);
    }
    forall f | f in tree && f.path in counted && f.path !in seen ensures SizeOf(f) == 0 {
      UnseenIsEmpty(blobs, tree, f);
    }
    SumOfTheRest(tree, seen, counted);
  }

  lemma BlobIsWhole(blobs: seq<Blob>, tree: seq<RepoFile>, counted: set<string>, i: nat)
    requires PartsOfFiles(blobs, tree) && PathsOf(blobs, tree) <= counted && i < |blobs|
    requires forall f :: f in tree && f.path in counted ==> Complete(f, blobs, tree)
    ensures FileOf(tree, blobs[i].name).Some? && blobs[i].bytes == SizeOf(FileOf(tree, blobs[i].name).value)
  {
    hide FileOf;
    var f := FileOf(tree, blobs[i].name).value;
    assert f.path in PathsOf(blobs, tree);
    assert Complete(f, blobs, tree);
    if SizeOf(f) != 0 {
      var b :| b in blobs && FileOf(tree, b.name) == Some(f) && b.bytes == SizeOf(f);
      var j :| 0 <= j < |blobs| && blobs[j] == b;
      assert !(i < j) && !(j < i);
    }
  }

  lemma UnseenIsEmpty(blobs: seq<Blob>, tree: seq<RepoFile>, f: RepoFile)
    requires Complete(f, blobs, tree) && f.path !in PathsOf(blobs, tree)
    ensures SizeOf(f) == 0
  {
    hide FileOf;
    forall b | b in blobs ensures FileOf(tree, b.name) != Some(f) {
      var j :| 0 <= j < |blobs| && blobs[j] == b;
      assert FileOf(tree, b.name).Some? ==> FileOf(tree, b.name).value.path in PathsOf(blobs, tree);
    }
  }

  lemma {:induction false} SumOfTheRest(tree: seq<RepoFile>, a: set<string>, b: set<string>)
    requires a <= b && forall f :: f in tree && f.path in b && f.path !in a ==> SizeOf(f) == 0
    ensures Sum(tree, a) == Sum(tree, b)
  {
    if tree != [] {
      assert tree[|tree| - 1] in tree;
      SumOfTheRest(tree[..|tree| - 1], a, b);
    }
  }

  lemma NothingToDownload(f: RepoFile, blobs: seq<Blob>, tree: seq<RepoFile>)
    requires SizeOf(f) == 0
    ensures Complete(f, blobs, tree)
  {
  }

  lemma SeenAreCounted(blobs: seq<Blob>, tree: seq<RepoFile>, seeds: set<string>)
    ensures PathsOf(blobs, tree) <= Counted(NamesOf(blobs), tree, seeds)
  {
    hide FileOf, ByPath;
    forall p | p in PathsOf(blobs, tree) ensures p in Counted(NamesOf(blobs), tree, seeds) {
      var i :| 0 <= i < |blobs| && FileOf(tree, blobs[i].name).Some? && p == FileOf(tree, blobs[i].name).value.path;
      assert blobs[i] in blobs && blobs[i].name in NamesOf(blobs);
    }
  }

  lemma SeenComplete(blobs: seq<Blob>, tree: seq<RepoFile>, f: RepoFile)
    requires DistinctPaths(tree) && f in tree && f.path in PathsOf(blobs, tree)
    requires forall i :: 0 <= i < |blobs| && FileOf(tree, blobs[i].name).Some? ==>
      blobs[i].bytes == SizeOf(FileOf(tree, blobs[i].name).value)
    ensures Complete(f, blobs, tree)
  {
    hide FileOf, ByPath, DistinctPaths;
    var i :| 0 <= i < |blobs| && FileOf(tree, blobs[i].name).Some? && f.path == FileOf(tree, blobs[i].name).value.path;
    OnePath(tree, f);
    OnePath(tree, FileOf(tree, blobs[i].name).value);
    assert blobs[i] in blobs;
  }

  // ----- the numbers themselves -----

  /** A partial blob is named like the whole one with one of the suffixes behind it. */
  lemma SuffixIsDropped(key: string, suffix: string)
    requires suffix in PARTIAL_BLOB_SUFFIXES
    ensures Stripped(key + suffix, PARTIAL_BLOB_SUFFIXES) == key
  {
    var name := key + suffix;
    var s := PARTIAL_BLOB_SUFFIXES;
    assert name[..|name| - |suffix|] == key && name[|name| - |suffix|..] == suffix;
    forall other | other in s && other != suffix ensures !EndsWith(name, other) {
      LastDiffers(name, suffix, other);
    }
    StripsThe(name, suffix, s);
  }

  lemma LastDiffers(name: string, suffix: string, other: string)
    requires suffix in PARTIAL_BLOB_SUFFIXES && other in PARTIAL_BLOB_SUFFIXES && other != suffix
    requires EndsWith(name, suffix)
    ensures !EndsWith(name, other)
  {
    LastTwo(name, suffix);
    LastTwo(name, other);
  }

  lemma LastTwo(name: string, suffix: string)
    requires |suffix| >= 2
    ensures EndsWith(name, suffix) ==>
      |name| >= 2 && name[|name| - 1] == suffix[|suffix| - 1] && name[|name| - 2] == suffix[|suffix| - 2]
  {
    if |suffix| <= |name| {
      var end := name[|name| - |suffix|..];
      assert end[|suffix| - 1] == name[|name| - 1] && end[|suffix| - 2] == name[|name| - 2];
    }
  }

  lemma {:induction false} StripsThe(name: string, suffix: string, suffixes: seq<string>)
    requires suffix in suffixes && EndsWith(name, suffix)
    requires forall other :: other in suffixes && other != suffix ==> !EndsWith(name, other)
    ensures Stripped(name, suffixes) == name[..|name| - |suffix|]
  {
    if suffixes[0] != suffix {
      assert suffix in suffixes[1..];
      StripsThe(name, suffix, suffixes[1..]);
    }
  }

  lemma {:induction false} OtherNamesStay(name: string, suffixes: seq<string>)
    requires forall suffix :: suffix in suffixes ==> !EndsWith(name, suffix)
    ensures Stripped(name, suffixes) == name
  {
    if suffixes != [] {
      OtherNamesStay(name, suffixes[1..]);
    }
  }

  /** The file a blob is part of: the one with that LFS id, else the one with that id, where each names one file. */
  lemma FileIs(tree: seq<RepoFile>, name: string, f: RepoFile)
    requires f in tree && DistinctPaths(tree)
    requires var key := Stripped(name, PARTIAL_BLOB_SUFFIXES);
      key != "" && ((f.lfsOid == key && forall g :: g in tree && g.lfsOid == key ==> g == f)
                    || (f.oid == key && forall g :: g in tree && (g.lfsOid == key || g.oid == key) ==> g == f))
    ensures FileOf(tree, name) == Some(f)
  {
    hide Stripped, LastWith;
  }

  function SizesOf(files: seq<RepoFile>): nat {
    if files == [] then 0 else SizeOf(files[0]) + SizesOf(files[1..])
  }

  function PathSet(files: seq<RepoFile>): set<string> {
    set i | 0 <= i < |files| :: files[i].path
  }

  /** The total is the sizes of the files that count, each once, in whatever order they are listed. */
  lemma TotalIsTheSizes(blobs: set<string>, tree: seq<RepoFile>, seeds: set<string>, files: seq<RepoFile>)
    requires DistinctPaths(tree) && DistinctPaths(files) && (forall f :: f in files ==> f in tree)
    requires PathSet(files) == Counted(blobs, tree, seeds) && Total(blobs, tree, seeds).Some?
    ensures Total(blobs, tree, seeds) == Some(SizesOf(files))
  {
    hide FileOf, ByPath, Sized, Sum, Counted, DistinctPaths;
    SumIsTheSizes(tree, files);
  }

  lemma {:induction false} SumIsTheSizes(tree: seq<RepoFile>, files: seq<RepoFile>)
    requires DistinctPaths(tree) && DistinctPaths(files) && (forall f :: f in files ==> f in tree)
    ensures Sum(tree, PathSet(files)) == SizesOf(files)
  {
    hide Sum;
    if files == [] {
      assert PathSet(files) == {};
      SumOfNothing(tree);
    } else {
      var rest := files[1..];
      assert forall i :: 0 <= i < |rest| ==> rest[i] == files[i + 1];
      SumIsTheSizes(tree, rest);
      assert files[0].path !in PathSet(rest);
      PathSetCons(files);
      SumOneMore(tree, PathSet(rest), files[0]);
    }
  }

  lemma PathSetCons(files: seq<RepoFile>)
    requires files != []
    ensures PathSet(files) == PathSet(files[1..]) + {files[0].path}
  {
    var rest := files[1..];
    assert forall i :: 0 <= i < |rest| ==> rest[i] == files[i + 1];
    forall p ensures p in PathSet(files) <==> p in PathSet(rest) || p == files[0].path {
      if i :| 0 <= i < |files| && files[i].path == p { assert i > 0 ==> rest[i - 1].path == p; }
      if i :| 0 <= i < |rest| && rest[i].path == p { assert files[i + 1].path == p; }
    }
  }
}
