/** Packing a directory and expanding the archive gives back the same files. */
module RoundTrip {
  import opened Paths
  import opened Wrappers
  import opened ArchiveNames
  import opened Copying
  import opened Archive
  import opened Staging
  import opened Extraction
  import opened Packing

  /** The record packs the file its name leads to. */
  ghost predicate Matches(file: ZipFile, files: map<Path, Bytes>, parse: ZipFile -> Option<Entry>) {
    var path := Split(file.name);
    && |path| >= 1 && Join(path) == file.name
    && Packs(file, files, path)
    && parse(file) == if AllPortable(path) then Some(PackedEntry(path, files[path])) else None
  }

  /** All that the rest needs to know of an archive of a tree. */
  ghost predicate Listing(archive: seq<ZipFile>, files: map<Path, Bytes>, parse: ZipFile -> Option<Entry>) {
    && Readable(files) && Leaves(files)
    && (forall i :: 0 <= i < |archive| ==> Matches(archive[i], files, parse))
    && (forall i, j :: 0 <= i < j < |archive| ==> archive[i].name != archive[j].name)
    && (forall path {:trigger PackedIn(archive, files, path)} :: path in files ==> PackedIn(archive, files, path))
  }

  /** Joining the components of a file's path loses nothing. */
  ghost predicate Readable(files: map<Path, Bytes>) {
    forall p :: p in files ==> |p| >= 1 && Split(Join(p)) == p
  }

  /** No file lies below another. */
  ghost predicate Leaves(files: map<Path, Bytes>) {
    forall p, q :: p in files && q in files ==> !(p < q)
  }

  lemma RealFiles(tree: Tree)
    requires RealTree(tree)
    ensures Readable(FilesOf(tree)) && Leaves(FilesOf(tree))
  {
    forall p | p in FilesOf(tree) ensures |p| >= 1 && Split(Join(p)) == p {
      SplitJoin(p);
    }
  }

  lemma RecordMatches(tree: Tree, file: ZipFile)
    requires RealTree(tree) && PacksSome(file, FilesOf(tree))
    ensures Matches(file, FilesOf(tree), Parse)
  {
    var files := FilesOf(tree);
    var path :| Packs(file, files, path);
    SplitJoin(path);
    ParsePacked(path, files[path]);
  }

  lemma ArchiveLists(tree: Tree, archive: seq<ZipFile>)
    requires RealTree(tree) && IsArchiveOf(archive, FilesOf(tree))
    ensures Listing(archive, FilesOf(tree), Parse)
  {
    RealFiles(tree);
    forall i | 0 <= i < |archive| ensures Matches(archive[i], FilesOf(tree), Parse) {
      assert PacksSome(archive[i], FilesOf(tree));
      RecordMatches(tree, archive[i]);
    }
    forall i, j | 0 <= i < j < |archive| ensures archive[i].name != archive[j].name {
      assert ByName(archive[i], archive[j]);
      LessIrreflexive(archive[i].name);
    }
  }

  lemma ListingParses(archive: seq<ZipFile>, files: map<Path, Bytes>, parse: ZipFile -> Option<Entry>)
    requires Listing(archive, files, parse)
    ensures AllParse(archive, parse) <==> AllFilesPortable(files)
  {
    if AllParse(archive, parse) {
      forall p | p in files ensures AllPortable(p) {
        var i := IndexOf(archive, files, parse, p);
      }
    }
    if AllFilesPortable(files) {
      forall i | 0 <= i < |archive| ensures parse(archive[i]).Some? {
        assert Matches(archive[i], files, parse);
      }
    }
  }

  lemma IndexOf(archive: seq<ZipFile>, files: map<Path, Bytes>, parse: ZipFile -> Option<Entry>, path: Path)
    returns (i: nat)
    requires Listing(archive, files, parse) && path in files
    ensures i < |archive| && Matches(archive[i], files, parse) && Split(archive[i].name) == path
    ensures archive[i].name == Join(path)
  {
    assert PackedIn(archive, files, path);
    i :| 0 <= i < |archive| && Packs(archive[i], files, path);
    assert Matches(archive[i], files, parse);
  }

  lemma EntryFor(archive: seq<ZipFile>, files: map<Path, Bytes>, parse: ZipFile -> Option<Entry>, path: Path)
    returns (i: nat)
    requires Listing(archive, files, parse) && AllParse(archive, parse) && path in files
    ensures i < |archive| && Entries(archive, parse)[i].name == Join(path) && Entries(archive, parse)[i].path == path
  {
    i := IndexOf(archive, files, parse, path);
  }

  lemma NamesApart(entries: seq<Entry>, fold: string -> string, i: nat, j: nat)
    requires NoCollisions(entries, fold) && i < |entries| && j < |entries| && i != j
    ensures fold(entries[i].name) != fold(entries[j].name)
  {
  }

  lemma ListingFolds(archive: seq<ZipFile>, files: map<Path, Bytes>, parse: ZipFile -> Option<Entry>,
                     fold: string -> string, p: Path, q: Path)
    requires Listing(archive, files, parse) && AllParse(archive, parse)
    requires NoCollisions(Entries(archive, parse), fold)
    requires p in files && q in files && p != q
    ensures fold(Join(p)) != fold(Join(q))
  {
    var i := EntryFor(archive, files, parse, p);
    var j := EntryFor(archive, files, parse, q);
    assert i != j;
    NamesApart(Entries(archive, parse), fold, i, j);
  }

  lemma ListingPair(archive: seq<ZipFile>, files: map<Path, Bytes>, parse: ZipFile -> Option<Entry>,
                    fold: string -> string, i: int, j: int)
    requires Listing(archive, files, parse) && AllParse(archive, parse)
    requires 0 <= i < |archive| && 0 <= j < |archive|
    ensures !Shadows(Entries(archive, parse)[i], Entries(archive, parse)[j])
    ensures FoldDistinct(files, fold) && i < j ==>
              fold(Entries(archive, parse)[i].name) != fold(Entries(archive, parse)[j].name)
  {
    assert Matches(archive[i], files, parse) && Matches(archive[j], files, parse);
  }

  lemma ListingSound(archive: seq<ZipFile>, files: map<Path, Bytes>, parse: ZipFile -> Option<Entry>,
                     fold: string -> string)
    requires Listing(archive, files, parse) && AllParse(archive, parse)
    ensures NoCollisions(Entries(archive, parse), fold) <==> FoldDistinct(files, fold)
    ensures NoFileParents(Entries(archive, parse))
  {
    var entries := Entries(archive, parse);
    if NoCollisions(entries, fold) {
      forall p, q | p in files && q in files && p != q ensures fold(Join(p)) != fold(Join(q)) {
        ListingFolds(archive, files, parse, fold, p, q);
      }
    }
    forall i, j | 0 <= i < |entries| && 0 <= j < |entries|
      ensures !Shadows(entries[i], entries[j])
      ensures FoldDistinct(files, fold) && i < j ==> fold(entries[i].name) != fold(entries[j].name)
    {
      ListingPair(archive, files, parse, fold, i, j);
    }
  }

  // ---- counting the files ----------------------------------------------------

  /** The bytes of all the files. */
  ghost function FilesTotal(files: map<Path, Bytes>): nat
    decreases |files|
  {
    if files == map[] then 0
    else
      var p :| p in files;
      |files[p]| + FilesTotal(files - {p})
  }

  lemma {:induction false} TotalWithout(files: map<Path, Bytes>, p: Path)
    requires p in files
    ensures FilesTotal(files) == |files[p]| + FilesTotal(files - {p})
    decreases |files|
  {
    var q :| q in files && FilesTotal(files) == |files[q]| + FilesTotal(files - {q});
    if q == p {
    } else {
      TotalWithout(files - {q}, p);
      TotalWithout(files - {p}, q);
      assert files - {q} - {p} == files - {p} - {q};
    }
  }

  /** The paths, each once, with the sizes of their files. */
  ghost predicate Lists(paths: seq<Path>, archive: seq<ZipFile>, files: map<Path, Bytes>) {
    && |paths| == |archive|
    && (forall i :: 0 <= i < |paths| ==> paths[i] in files && archive[i].size == |files[paths[i]]|)
    && (forall i, j :: 0 <= i < j < |paths| ==> paths[i] != paths[j])
    && (forall p :: p in files ==> p in paths)
  }

  lemma {:induction false} ListedTotals(paths: seq<Path>, archive: seq<ZipFile>, files: map<Path, Bytes>)
    requires Lists(paths, archive, files)
    ensures |archive| == |files| && TotalSize(archive) == FilesTotal(files)
  {
    if archive == [] {
      assert files == map[];
    } else {
      var p := paths[0];
      var others := files - {p};
      ListsTail(paths, archive, files);
      ListedTotals(paths[1..], archive[1..], others);
      TotalWithout(files, p);
      assert files.Keys == others.Keys + {p};
    }
  }

  lemma ListsTail(paths: seq<Path>, archive: seq<ZipFile>, files: map<Path, Bytes>)
    requires Lists(paths, archive, files) && archive != []
    ensures Lists(paths[1..], archive[1..], files - {paths[0]})
  {
  }

  lemma ListingLists(archive: seq<ZipFile>, files: map<Path, Bytes>, parse: ZipFile -> Option<Entry>)
    requires Listing(archive, files, parse)
    ensures |archive| == |files| && TotalSize(archive) == FilesTotal(files)
  {
    var paths := seq(|archive|, i requires 0 <= i < |archive| => Split(archive[i].name));
    forall i | 0 <= i < |archive| ensures paths[i] in files && archive[i].size == |files[paths[i]]| {
      assert Matches(archive[i], files, parse);
    }
    forall i, j | 0 <= i < j < |archive| ensures paths[i] != paths[j] {
      assert Matches(archive[i], files, parse) && Matches(archive[j], files, parse);
    }
    forall p | p in files ensures p in paths {
      var i := IndexOf(archive, files, parse, p);
      assert paths[i] == p;
    }
    ListedTotals(paths, archive, files);
  }

  lemma {:induction false} ListingTotal(archive: seq<ZipFile>, parse: ZipFile -> Option<Entry>)
    requires AllParse(archive, parse)
    requires forall i :: 0 <= i < |archive| ==> DataSize(parse(archive[i]).value) == archive[i].size
    ensures Expanded(Entries(archive, parse)) == TotalSize(archive)
  {
    if archive == [] {
    } else {
      ListingTotal(archive[1..], parse);
      assert Entries(archive, parse)[1..] == Entries(archive[1..], parse);
    }
  }

  /** The parts of acceptance, read off the files. */
  ghost predicate Judged(archive: seq<ZipFile>, files: map<Path, Bytes>, parse: ZipFile -> Option<Entry>,
                         fold: string -> string)
  {
    && |archive| == |files|
    && (AllParse(archive, parse) <==> AllFilesPortable(files))
    && (AllParse(archive, parse) ==>
          && (SoundEntries(Entries(archive, parse), fold) <==> FoldDistinct(files, fold))
          && Expanded(Entries(archive, parse)) == FilesTotal(files))
  }

  lemma ListingJudged(archive: seq<ZipFile>, files: map<Path, Bytes>, parse: ZipFile -> Option<Entry>,
                      fold: string -> string)
    requires Listing(archive, files, parse)
    ensures Judged(archive, files, parse, fold)
  {
    ListingParses(archive, files, parse);
    ListingLists(archive, files, parse);
    if AllParse(archive, parse) {
      ListingSound(archive, files, parse, fold);
      forall i | 0 <= i < |archive| ensures DataSize(parse(archive[i]).value) == archive[i].size {
        assert Matches(archive[i], files, parse);
      }
      ListingTotal(archive, parse);
    }
  }

  lemma JudgedAcceptable(archive: seq<ZipFile>, files: map<Path, Bytes>, parse: ZipFile -> Option<Entry>,
                         limits: Limits, fold: string -> string)
    requires Judged(archive, files, parse, fold)
    ensures Acceptable(archive, parse, limits, fold) <==>
            (|files| <= limits.maxEntries && Portables(files, fold) && FilesTotal(files) <= limits.maxExpandedBytes)
  {
  }

  lemma ListingAcceptable(archive: seq<ZipFile>, files: map<Path, Bytes>, parse: ZipFile -> Option<Entry>,
                          limits: Limits, fold: string -> string)
    requires Listing(archive, files, parse)
    ensures Acceptable(archive, parse, limits, fold) <==>
            (|files| <= limits.maxEntries && Portables(files, fold) && FilesTotal(files) <= limits.maxExpandedBytes)
  {
    ListingJudged(archive, files, parse, fold);
    JudgedAcceptable(archive, files, parse, limits, fold);
  }

  /** The archive of a directory is accepted exactly when its files number and add up
      within the limits and every name is portable and fold-distinct. */
  lemma PackedIsAcceptable(tree: Tree, archive: seq<ZipFile>, limits: Limits, fold: string -> string)
    requires RealTree(tree) && IsArchiveOf(archive, FilesOf(tree))
    ensures Acceptable(archive, Parse, limits, fold) <==>
            (&& |FilesOf(tree)| <= limits.maxEntries
             && Portables(FilesOf(tree), fold)
             && FilesTotal(FilesOf(tree)) <= limits.maxExpandedBytes)
  {
    ArchiveLists(tree, archive);
    ListingAcceptable(archive, FilesOf(tree), Parse, limits, fold);
  }

  // ---- what expanding it leaves ----------------------------------------------

  /** The same files, every one with mode 0644, in directories of mode 0755 that are
      there only because a file is below them. */
  ghost predicate Restored(tree: Tree, files: map<Path, Bytes>) {
    && FilesOf(tree) == files
    && (forall p :: p in tree && tree[p].File? ==> tree[p].mode == MODE_0644)
    && (forall p: Path :: p in tree && p != [] && !tree[p].File? ==> tree[p] == Dir(MODE_0755) && LeadsToFile(p, files))
  }

  ghost predicate LeadsToFile(p: Path, files: map<Path, Bytes>) {
    exists q :: q in files && p < q
  }

  ghost predicate PlainFiles(entries: seq<Entry>, files: map<Path, Bytes>) {
    && (forall i :: 0 <= i < |entries| ==> PlainFile(entries[i], files))
    && (forall p :: p in files ==> exists i :: 0 <= i < |entries| && entries[i].path == p)
  }

  ghost predicate PlainFile(entry: Entry, files: map<Path, Bytes>) {
    && entry.path in files && !entry.isDirectory && RegularFileMode(entry.perm) == MODE_0644
    && entry.body == Source(files[entry.path], []) && entry.size == |files[entry.path]|
  }

  lemma ListingPlain(archive: seq<ZipFile>, files: map<Path, Bytes>, parse: ZipFile -> Option<Entry>)
    requires Listing(archive, files, parse) && AllParse(archive, parse)
    ensures PlainFiles(Entries(archive, parse), files)
  {
    var entries := Entries(archive, parse);
    forall i | 0 <= i < |entries| ensures PlainFile(entries[i], files) {
      assert Matches(archive[i], files, parse);
    }
    forall p | p in files ensures exists i :: 0 <= i < |entries| && entries[i].path == p {
      var i := IndexOf(archive, files, parse, p);
      assert entries[i].path == p;
    }
  }

  lemma PlainPermutes(a: seq<Entry>, b: seq<Entry>, files: map<Path, Bytes>)
    requires PlainFiles(a, files) && multiset(a) == multiset(b)
    ensures PlainFiles(b, files)
  {
    SameMembers(a, b);
    forall i | 0 <= i < |b| ensures PlainFile(b[i], files) {
      assert b[i] in a;
    }
    forall p | p in files ensures exists i :: 0 <= i < |b| && b[i].path == p {
      var i :| 0 <= i < |a| && a[i].path == p;
      assert a[i] in b;
    }
  }

  lemma ModesKept()
    ensures RegularFileMode(MODE_0644) == MODE_0644
  {
  }

  ghost predicate NodeRestored(tree: Tree, files: map<Path, Bytes>, p: Path) {
    if p in files then p in tree && tree[p] == File(MODE_0644, files[p])
    else p in tree ==> tree[p].Dir? && (p != [] ==> tree[p].mode == MODE_0755 && LeadsToFile(p, files))
  }

  lemma PlainNode(tree: Tree, entries: seq<Entry>, files: map<Path, Bytes>, p: Path)
    requires PlainFiles(entries, files) && Plantable(entries) && Holds(tree, entries, MODE_0700)
    requires [] !in files
    ensures NodeRestored(tree, files, p)
  {
    ModesKept();
    if p in files {
      var i :| 0 <= i < |entries| && entries[i].path == p;
      HoldsReads(tree, entries, MODE_0700);
      assert PlainFile(entries[i], files);
    } else if p in tree && p != [] {
      var i := FirstCover(entries, p);
      assert PlainFile(entries[i], files);
      assert p < entries[i].path;
    }
  }

  lemma NodesRestored(tree: Tree, files: map<Path, Bytes>)
    requires forall p: Path :: NodeRestored(tree, files, p)
    ensures Restored(tree, files)
  {
    assert FilesOf(tree) == files by {
      forall p: Path
        ensures p in files <==> p in FilesOf(tree)
        ensures p in files ==> FilesOf(tree)[p] == files[p]
      {
        assert NodeRestored(tree, files, p);
      }
    }
    forall p: Path | p in tree && tree[p].File? ensures tree[p].mode == MODE_0644 {
      assert NodeRestored(tree, files, p);
    }
    forall p: Path | p in tree
      ensures p != [] && !tree[p].File? ==> tree[p] == Dir(MODE_0755) && LeadsToFile(p, files)
    {
      assert NodeRestored(tree, files, p);
    }
  }

  lemma PlainRestored(tree: Tree, entries: seq<Entry>, files: map<Path, Bytes>)
    requires PlainFiles(entries, files) && Plantable(entries) && Holds(tree, entries, MODE_0700)
    requires [] !in files
    ensures Restored(tree, files)
  {
    forall p: Path ensures NodeRestored(tree, files, p) {
      PlainNode(tree, entries, files, p);
    }
    NodesRestored(tree, files);
  }

  lemma PlainExpands(entries: seq<Entry>, files: map<Path, Bytes>)
    requires PlainFiles(entries, files)
    ensures BodiesSmooth(entries) && SizesTrue(entries)
  {
  }

  lemma ListingRestored(archive: seq<ZipFile>, files: map<Path, Bytes>, parse: ZipFile -> Option<Entry>,
                        fold: string -> string, tree: Tree)
    requires Listing(archive, files, parse) && ParsesNamed(parse) && SoundArchive(archive, parse, fold)
    requires Holds(tree, SortEntries(Entries(archive, parse)), MODE_0700)
    ensures Restored(tree, files)
  {
    var entries := Entries(archive, parse);
    ListingPlain(archive, files, parse);
    assert AllNamed(entries);
    SortedRestored(entries, files, fold, tree);
  }

  lemma SortedRestored(entries: seq<Entry>, files: map<Path, Bytes>, fold: string -> string, tree: Tree)
    requires PlainFiles(entries, files) && [] !in files && AllNamed(entries) && SoundEntries(entries, fold)
    requires Holds(tree, SortEntries(entries), MODE_0700)
    ensures Restored(tree, files)
  {
    SortedIsPlantable(entries, fold);
    SortedEntries(entries, fold);
    PlainPermutes(entries, SortEntries(entries), files);
    PlainRestored(tree, SortEntries(entries), files);
  }

  /** zipDirectory followed by ExtractZIP. Success means that the destination has
      exactly the files of the tree, and with nothing failing success is certain for
      every tree of regular files whose names are portable and fold-distinct and that
      keeps within the limits. */
  method PackAndExtract(tree: Tree, walk: seq<Path>, walkFails: nat -> bool, writeFails: nat -> bool,
                        workspace: Workspace, destination: string, requested: Limits, temp: string,
                        fold: string -> string)
    returns (r: bool)
    requires RealTree(tree) && IsWalk(walk, tree)
    requires temp !in workspace.children && temp != destination
    modifies workspace
    ensures SameBut(old(workspace.children), workspace.children, {temp, destination})
    ensures r ==>
              && OnlyRegular(tree) && Portables(FilesOf(tree), fold) && WithinLimits(FilesOf(tree), requested)
              && destination in workspace.children && workspace.children[destination].Folder?
              && Restored(workspace.children[destination].tree, FilesOf(tree))
    ensures (&& (forall k :: !walkFails(k) && !writeFails(k)) && workspace.Calm()
             && old(Vacant(workspace.children, destination)) && !Blank(destination)
             && OnlyRegular(tree) && Portables(FilesOf(tree), fold)
             && WithinLimits(FilesOf(tree), requested)) ==> r
  {
    var packed := ZipDirectory(tree, walk, walkFails, writeFails);
    if packed.None? {
      return false;
    }
    var extracted := workspace.ExtractZIP(packed, destination, requested, temp, fold);
    PackedSettles(tree, packed.value, requested, fold);
    if extracted.Err? {
      return false;
    }
    PackedRestores(tree, packed.value, fold, workspace.children[destination].tree);
    return true;
  }

  ghost predicate WithinLimits(files: map<Path, Bytes>, requested: Limits) {
    && NormalizeLimits(requested).Ok?
    && |files| <= NormalizeLimits(requested).value.maxEntries
    && FilesTotal(files) <= NormalizeLimits(requested).value.maxExpandedBytes
  }

  lemma PackedSettles(tree: Tree, archive: seq<ZipFile>, requested: Limits, fold: string -> string)
    requires RealTree(tree) && IsArchiveOf(archive, FilesOf(tree))
    ensures WithinLimits(FilesOf(tree), requested) && Portables(FilesOf(tree), fold) <==>
            Expandable(Some(archive), Parse, requested, fold)
    ensures NormalizeLimits(requested).Ok? && Acceptable(archive, Parse, NormalizeLimits(requested).value, fold) ==>
              Expandable(Some(archive), Parse, requested, fold)
  {
    ArchiveLists(tree, archive);
    if NormalizeLimits(requested).Ok? {
      ListingAcceptable(archive, FilesOf(tree), Parse, NormalizeLimits(requested).value, fold);
      if AllParse(archive, Parse) {
        ListingPlain(archive, FilesOf(tree), Parse);
        PlainExpands(Entries(archive, Parse), FilesOf(tree));
      }
    }
  }

  lemma PackedRestores(tree: Tree, archive: seq<ZipFile>, fold: string -> string, extracted: Tree)
    requires RealTree(tree) && IsArchiveOf(archive, FilesOf(tree)) && SoundArchive(archive, Parse, fold)
    requires Holds(extracted, SortEntries(Entries(archive, Parse)), MODE_0700)
    ensures Restored(extracted, FilesOf(tree))
  {
    ArchiveLists(tree, archive);
    ParseNames();
    ListingRestored(archive, FilesOf(tree), Parse, fold, extracted);
  }
}
