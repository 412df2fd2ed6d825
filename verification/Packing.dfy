/** zipDirectory: a directory tree packed into an archive. */
module Packing {
  import opened Paths
  import opened Wrappers
  import opened ArchiveNames
  import opened Copying
  import opened Archive
  import opened Sorting
  import opened Staging
  import opened Extraction

  /** What a file system guarantees of a directory: real names, directories on the way
      to everything, and file sizes that fit. */
  ghost predicate RealTree(tree: Tree) {
    && [] in tree && tree[[]].Dir?
    && (forall p :: p in tree ==> AllOrdinary(p))
    && (forall p, q: Path :: p in tree && q < p ==> q in tree && tree[q].Dir?)
    && (forall p :: p in tree && tree[p].File? ==> |tree[p].data| < UINT64_LIMIT)
  }

  /** The regular files of a tree. */
  ghost function FilesOf(tree: Tree): map<Path, Bytes> {
    map p | p in tree && tree[p].File? :: tree[p].data
  }

  ghost predicate OnlyRegular(tree: Tree) {
    forall p :: p in tree && p != [] ==> !tree[p].Link?
  }

  /** The record of a regular file with these permissions. */
  function RecordOf(path: Path, data: Bytes, perm: Perm): ZipFile
    requires |data| < UINT64_LIMIT
  {
    ZipFile(Join(path), true, Regular, perm, |data|, Source(data, []))
  }

  /** The header and body zipDirectory writes for one file. */
  function Packed(path: Path, data: Bytes): ZipFile
    requires |data| < UINT64_LIMIT
  {
    RecordOf(path, data, MODE_0644)
  }

  predicate ByName(a: ZipFile, b: ZipFile) {
    Less(a.name, b.name)
  }

  ghost predicate Packs(file: ZipFile, files: map<Path, Bytes>, path: Path) {
    path in files && |files[path]| < UINT64_LIMIT && file == Packed(path, files[path])
  }

  ghost predicate PacksSome(file: ZipFile, files: map<Path, Bytes>) {
    exists path :: Packs(file, files, path)
  }

  ghost predicate PackedIn(archive: seq<ZipFile>, files: map<Path, Bytes>, path: Path) {
    exists i :: 0 <= i < |archive| && Packs(archive[i], files, path)
  }

  /** One record per file, in name order, and nothing else. */
  ghost predicate IsArchiveOf(archive: seq<ZipFile>, files: map<Path, Bytes>) {
    && Sorted(archive, ByName)
    && (forall i {:trigger PacksSome(archive[i], files)} :: 0 <= i < |archive| ==> PacksSome(archive[i], files))
    && (forall path {:trigger PackedIn(archive, files, path)} :: path in files ==> PackedIn(archive, files, path))
  }

  // ---- zipDirectory ----------------------------------------------------------

  /** The nodes of a tree, each once, in the order a walk meets them. */
  ghost predicate IsWalk(walk: seq<Path>, tree: Tree) {
    && (forall i :: 0 <= i < |walk| ==> walk[i] in tree)
    && (forall p :: p in tree ==> p in walk)
    && (forall i, j :: 0 <= i < j < |walk| ==> walk[i] != walk[j])
  }

  ghost predicate NamesFile(name: string, visited: seq<Path>, tree: Tree) {
    exists p :: p in visited && p in tree && tree[p].File? && name == Join(p)
  }

  /** Names gathered so far: the files among the nodes visited so far. */
  ghost predicate Gathered(names: seq<string>, visited: seq<Path>, tree: Tree) {
    && (forall i :: 0 <= i < |names| ==> NamesFile(names[i], visited, tree))
    && (forall p :: p in visited && p in tree && tree[p].File? ==> Join(p) in names)
    && (forall i, j :: 0 <= i < j < |names| ==> names[i] != names[j])
  }

  /** The walk; `fails(k)` is whether it reports an error at its k-th node. */
  method CollectNames(tree: Tree, walk: seq<Path>, fails: nat -> bool) returns (r: Option<seq<string>>)
    requires RealTree(tree) && IsWalk(walk, tree)
    ensures r.Some? <==> OnlyRegular(tree) && forall k :: 0 <= k < |walk| ==> !fails(k)
    ensures r.Some? ==> Gathered(r.value, walk, tree)
  {
    var names: seq<string> := [];
    for k := 0 to |walk|
      invariant Gathered(names, walk[..k], tree)
      invariant forall i :: 0 <= i < k ==> !fails(i) && (walk[i] != [] ==> !tree[walk[i]].Link?)
    {
      if fails(k) {
        return None;
      }
      var path := walk[k];
      assert walk[..k + 1] == walk[..k] + [path];
      if path == [] || tree[path].Dir? {
        GatheredSkip(names, walk[..k], path, tree);
      } else if tree[path].Link? {
        return None;
      } else {
        GatheredStep(names, walk[..k], path, tree);
        names := names + [Join(path)];
      }
    }
    assert walk[..|walk|] == walk;
    return Some(names);
  }

  lemma NamesFileGrows(name: string, visited: seq<Path>, path: Path, tree: Tree)
    requires NamesFile(name, visited, tree)
    ensures NamesFile(name, visited + [path], tree)
  {
  }

  lemma GatheredSkip(names: seq<string>, visited: seq<Path>, path: Path, tree: Tree)
    requires Gathered(names, visited, tree) && path in tree && !tree[path].File?
    ensures Gathered(names, visited + [path], tree)
  {
  }

  lemma GatheredStep(names: seq<string>, visited: seq<Path>, path: Path, tree: Tree)
    requires Gathered(names, visited, tree) && RealTree(tree)
    requires path in tree && tree[path].File? && path !in visited
    ensures Gathered(names + [Join(path)], visited + [path], tree)
  {
    var more, seen := names + [Join(path)], visited + [path];
    forall i | 0 <= i < |more| ensures NamesFile(more[i], seen, tree) {
      if i < |names| {
        NamesFileGrows(names[i], visited, path, tree);
      } else {
        assert path in seen;
      }
    }
    forall p | p in seen && p in tree && tree[p].File? ensures Join(p) in more {
      if p in visited {
        assert Join(p) in names;
      } else {
        assert more[|names|] == Join(p);
      }
    }
    forall i | 0 <= i < |names| ensures names[i] != Join(path) {
      FreshName(names[i], visited, path, tree);
    }
  }

  lemma FreshName(name: string, visited: seq<Path>, path: Path, tree: Tree)
    requires RealTree(tree) && NamesFile(name, visited, tree)
    requires path in tree && tree[path].File? && path !in visited
    ensures name != Join(path)
  {
    var p :| p in visited && p in tree && tree[p].File? && name == Join(p);
    if name == Join(path) {
      JoinInjective(p, path);
      assert false;
    }
  }

  /** The names of the files, sorted. */
  ghost predicate NamesAll(names: seq<string>, walk: seq<Path>, tree: Tree) {
    && Sorted(names, Less)
    && (forall i :: 0 <= i < |names| ==> NamesFile(names[i], walk, tree))
    && (forall p :: p in walk && p in tree && tree[p].File? ==> Join(p) in names)
  }

  method SortNames(names: seq<string>, ghost walk: seq<Path>, ghost tree: Tree) returns (sorted: seq<string>)
    requires Gathered(names, walk, tree)
    ensures NamesAll(sorted, walk, tree)
  {
    SortedNames(names, walk, tree);
    return Sort(names, Less);
  }

  /** The record is the one of this name. */
  ghost predicate Records(file: ZipFile, name: string, tree: Tree) {
    file.name == name && PacksName(file, tree)
  }

  ghost predicate RecordsAll(archive: seq<ZipFile>, names: seq<string>, tree: Tree) {
    |archive| == |names| && forall i :: 0 <= i < |names| ==> Records(archive[i], names[i], tree)
  }

  lemma RecordsMore(archive: seq<ZipFile>, names: seq<string>, k: nat, tree: Tree, file: ZipFile)
    requires k < |names| && RecordsAll(archive, names[..k], tree) && Records(file, names[k], tree)
    ensures RecordsAll(archive + [file], names[..k + 1], tree)
  {
    forall i | 0 <= i <= k ensures Records((archive + [file])[i], names[..k + 1][i], tree) {
      if i < k {
        assert Records(archive[i], names[..k][i], tree);
      }
    }
  }

  method PackFile(name: string, ghost walk: seq<Path>, tree: Tree) returns (file: ZipFile)
    requires RealTree(tree) && NamesFile(name, walk, tree)
    ensures Records(file, name, tree)
  {
    PathOfName(name, walk, tree);
    var path := Split(name);
    return Packed(path, tree[path].data);
  }

  method PackFiles(names: seq<string>, ghost walk: seq<Path>, tree: Tree, fails: nat -> bool)
    returns (r: Option<seq<ZipFile>>)
    requires RealTree(tree) && NamesAll(names, walk, tree)
    ensures r.Some? ==> RecordsAll(r.value, names, tree)
    ensures (forall k :: !fails(k)) ==> r.Some?
  {
    var archive: seq<ZipFile> := [];
    for k := 0 to |names|
      invariant RecordsAll(archive, names[..k], tree)
    {
      if fails(k) {
        return None;
      }
      var file := PackFile(names[k], walk, tree);
      RecordsMore(archive, names, k, tree, file);
      archive := archive + [file];
    }
    assert names[..|names|] == names;
    return if fails(|names|) then None else Some(archive);
  }

  /** zipDirectory. `walkFails` and `writeFails` are the steps of the walk and of the
      writing that fail; the archive depends on the files alone, and nothing but a
      non-regular file refuses it. */
  method ZipDirectory(tree: Tree, walk: seq<Path>, walkFails: nat -> bool, writeFails: nat -> bool)
    returns (r: Option<seq<ZipFile>>)
    requires RealTree(tree) && IsWalk(walk, tree)
    ensures r.Some? ==> OnlyRegular(tree) && IsArchiveOf(r.value, FilesOf(tree))
    ensures OnlyRegular(tree) && (forall k :: !walkFails(k) && !writeFails(k)) ==> r.Some?
  {
    var names := CollectNames(tree, walk, walkFails);
    if names.None? {
      return None;
    }
    var sorted := SortNames(names.value, walk, tree);
    r := PackFiles(sorted, walk, tree, writeFails);
    if r.Some? {
      ArchiveFromNames(r.value, sorted, walk, tree);
    }
  }

  ghost predicate PacksName(file: ZipFile, tree: Tree) {
    Packs(file, FilesOf(tree), Split(file.name))
  }

  lemma LessIsStrict()
    ensures Transitive(Less) && Irreflexive(Less)
  {
    forall x, y, z | Less(x, y) && Less(y, z) ensures Less(x, z) { LessTransitive(x, y, z); }
    forall x ensures !Less(x, x) { LessIrreflexive(x); }
  }

  lemma SortedNames(names: seq<string>, walk: seq<Path>, tree: Tree)
    requires Gathered(names, walk, tree)
    ensures NamesAll(Sort(names, Less), walk, tree)
  {
    LessIsStrict();
    forall i, j | 0 <= i < j < |names| ensures Less(names[i], names[j]) || Less(names[j], names[i]) {
      LessTotal(names[i], names[j]);
    }
    SortSorted(names, Less);
    SameMembers(names, Sort(names, Less));
    var sorted := Sort(names, Less);
    forall i | 0 <= i < |sorted| ensures NamesFile(sorted[i], walk, tree) {
      assert sorted[i] in names;
    }
  }

  lemma PathOfName(name: string, walk: seq<Path>, tree: Tree)
    requires RealTree(tree) && NamesFile(name, walk, tree)
    ensures Split(name) in tree && tree[Split(name)].File? && Join(Split(name)) == name
  {
    var p :| p in walk && p in tree && tree[p].File? && name == Join(p);
    SplitJoin(p);
  }

  lemma ArchiveFromNames(archive: seq<ZipFile>, names: seq<string>, walk: seq<Path>, tree: Tree)
    requires RealTree(tree) && IsWalk(walk, tree) && NamesAll(names, walk, tree) && RecordsAll(archive, names, tree)
    ensures IsArchiveOf(archive, FilesOf(tree))
  {
    var files := FilesOf(tree);
    forall i, j | 0 <= i < j < |archive| ensures ByName(archive[i], archive[j]) {
      assert Records(archive[i], names[i], tree) && Records(archive[j], names[j], tree);
      assert Less(names[i], names[j]);
    }
    forall i | 0 <= i < |archive| ensures PacksSome(archive[i], files) {
      assert Records(archive[i], names[i], tree);
    }
    forall path | path in files ensures PackedIn(archive, files, path) {
      FoundByName(archive, names, walk, tree, path);
    }
  }

  lemma FoundByName(archive: seq<ZipFile>, names: seq<string>, walk: seq<Path>, tree: Tree, path: Path)
    requires RealTree(tree) && IsWalk(walk, tree) && NamesAll(names, walk, tree) && RecordsAll(archive, names, tree)
    requires path in FilesOf(tree)
    ensures PackedIn(archive, FilesOf(tree), path)
  {
    assert path in walk;
    var i :| 0 <= i < |names| && names[i] == Join(path);
    SplitJoin(path);
    assert Records(archive[i], names[i], tree);
  }

  // ---- the archive depends on the files alone --------------------------------

  lemma ByNameIsStrict()
    ensures Transitive(ByName) && Irreflexive(ByName)
  {
    forall x, y, z | ByName(x, y) && ByName(y, z) ensures ByName(x, z) { LessTransitive(x.name, y.name, z.name); }
    forall x ensures !ByName(x, x) { LessIrreflexive(x.name); }
  }

  lemma {:induction false} SortedSameElements<T(!new)>(a: seq<T>, b: seq<T>, before: (T, T) -> bool)
    requires Transitive(before) && Irreflexive(before)
    requires Sorted(a, before) && Sorted(b, before)
    requires forall x :: x in a <==> x in b
    ensures a == b
  {
    BothEmpty(a, b);
    if a == [] {
    } else {
      assert a[0] in b;
      var i :| 0 <= i < |b| && b[i] == a[0];
      assert b[0] in a;
      var j :| 0 <= j < |a| && a[j] == b[0];
      assert a[0] == b[0] by {
        if i > 0 && j > 0 {
          assert false;
        }
      }
      forall x ensures x in a[1..] <==> x in b[1..] {
        InTail(a, before, x);
        InTail(b, before, x);
      }
      SortedSameElements(a[1..], b[1..], before);
      assert a == [a[0]] + a[1..] && b == [b[0]] + b[1..];
    }
  }

  lemma BothEmpty<T>(a: seq<T>, b: seq<T>)
    requires forall x :: x in a <==> x in b
    ensures a == [] <==> b == []
  {
    assert a != [] ==> a[0] in a;
    assert b != [] ==> b[0] in b;
  }

  lemma InTail<T(!new)>(s: seq<T>, before: (T, T) -> bool, x: T)
    requires s != [] && Irreflexive(before) && Sorted(s, before)
    ensures x in s[1..] <==> x in s && x != s[0]
  {
  }

  /** Two archives of the same files are the same, whatever order the walks took. */
  lemma WalkOrderIrrelevant(a: seq<ZipFile>, b: seq<ZipFile>, files: map<Path, Bytes>)
    requires IsArchiveOf(a, files) && IsArchiveOf(b, files)
    ensures a == b
  {
    ByNameIsStrict();
    forall x ensures x in a <==> x in b {
      Shared(a, b, files, x);
      Shared(b, a, files, x);
    }
    SortedSameElements(a, b, ByName);
  }

  lemma Shared(a: seq<ZipFile>, b: seq<ZipFile>, files: map<Path, Bytes>, x: ZipFile)
    requires IsArchiveOf(a, files) && IsArchiveOf(b, files)
    ensures x in a ==> x in b
  {
    if x in a {
      var i :| 0 <= i < |a| && a[i] == x;
      assert PacksSome(a[i], files);
      var path :| Packs(a[i], files, path);
      assert PackedIn(b, files, path);
      var j :| 0 <= j < |b| && Packs(b[j], files, path);
      assert b[j] == x;
    }
  }

  // ---- what the archive means to the extractor -------------------------------

  ghost predicate AllFilesPortable(files: map<Path, Bytes>) {
    forall p :: p in files ==> AllPortable(p)
  }

  ghost predicate FoldDistinct(files: map<Path, Bytes>, fold: string -> string) {
    forall p, q :: p in files && q in files && p != q ==> fold(Join(p)) != fold(Join(q))
  }

  /** The files can be told apart after folding, and every name is portable. */
  ghost predicate Portables(files: map<Path, Bytes>, fold: string -> string) {
    AllFilesPortable(files) && FoldDistinct(files, fold)
  }

  function TotalSize(archive: seq<ZipFile>): nat {
    if archive == [] then 0 else archive[0].size + TotalSize(archive[1..])
  }

  function EntryOf(path: Path, data: Bytes, perm: Perm): Entry
    requires |data| < UINT64_LIMIT
  {
    Entry(Join(path), path, false, perm, |data|, Source(data, []))
  }

  function PackedEntry(path: Path, data: Bytes): Entry
    requires |data| < UINT64_LIMIT
  {
    EntryOf(path, data, MODE_0644)
  }

  lemma SafePacked(path: Path)
    requires |path| >= 1 && AllOrdinary(path)
    ensures SafeArchiveName(Join(path), true) == if AllPortable(path) then Some(Join(path)) else None
  {
    if AllPortable(path) {
      PortableIsAccepted(path, false);
      assert Join(path) + "" == Join(path);
    } else if SafeArchiveName(Join(path), true).Some? {
      NotPortableIsRefused(path);
    }
  }

  lemma NotPortableIsRefused(path: Path)
    requires |path| >= 1 && AllOrdinary(path) && SafeArchiveName(Join(path), true).Some?
    ensures AllPortable(path)
  {
    AcceptedIsPortable(Join(path), true);
    JoinLastNotSlash(path);
    SplitJoin(path);
  }

  lemma ParseAsNamed(file: ZipFile)
    requires file.kind.Regular? && file.name != "" && file.name[|file.name| - 1] != '/'
    ensures ParseAs(file, Some(file.name)) ==
            Some(Entry(file.name, Split(file.name), false, file.perm, file.size, file.body))
  {
  }

  lemma ParseAsRecord(path: Path, data: Bytes, perm: Perm)
    requires |path| >= 1 && AllOrdinary(path) && |data| < UINT64_LIMIT
    ensures ParseAs(RecordOf(path, data, perm), Some(Join(path))) == Some(EntryOf(path, data, perm))
  {
    JoinLastNotSlash(path);
    SplitJoin(path);
    ParseAsNamed(RecordOf(path, data, perm));
  }

  /** The record of a file parses exactly when its path is portable, and to that file. */
  lemma ParseRecord(path: Path, data: Bytes, perm: Perm)
    requires |path| >= 1 && AllOrdinary(path) && |data| < UINT64_LIMIT
    ensures Parse(RecordOf(path, data, perm)) == if AllPortable(path) then Some(EntryOf(path, data, perm)) else None
  {
    SafePacked(path);
    ParseAsRecord(path, data, perm);
  }

  /** So does the one zipDirectory writes. */
  lemma ParsePacked(path: Path, data: Bytes)
    requires |path| >= 1 && AllOrdinary(path) && |data| < UINT64_LIMIT
    ensures Parse(Packed(path, data)) == if AllPortable(path) then Some(PackedEntry(path, data)) else None
  {
    ParseRecord(path, data, MODE_0644);
  }
}
