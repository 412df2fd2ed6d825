/** From a tarball to a source tree: what repack writes, ExtractZIP reads. */
module Fetching {
  import opened Paths
  import opened Wrappers
  import opened ArchiveNames
  import opened Copying
  import opened Archive
  import opened Staging
  import opened Extraction
  import opened Packing
  import opened RoundTrip
  import Repack

  /** What a header without a mode means to a reader. */
  const MODE_0666: Perm := 0x1B6

  type File = Repack.Repacked

  function PathOf(file: File): Path {
    Split(file.name)
  }

  /** What repack leaves: cleaned relative names, and sizes that fit. */
  ghost predicate AreClean(files: seq<File>) {
    forall i :: 0 <= i < |files| ==> IsClean(files[i])
  }

  ghost predicate IsClean(file: File) {
    AllOrdinary(PathOf(file)) && Join(PathOf(file)) == file.name && |file.data| < UINT64_LIMIT
  }

  lemma OutputIsClean(items: seq<Repack.Item>)
    requires forall i :: 0 <= i < |items| && items[i].Member? ==> |items[i].data| < UINT64_LIMIT
    ensures AreClean(Repack.Output(items, Repack.Strip))
  {
    var files := Repack.Output(items, Repack.Strip);
    forall i | 0 <= i < |files| ensures IsClean(files[i]) {
      assert files[i] in files;
      Repack.OutputExactly(items, Repack.Strip, files[i]);
      var k :|
        && 0 <= k < |items| && Repack.IsKept(items[k], Repack.Strip)
        && Repack.Rewritten(items[k], Repack.Strip) == files[i];
      Repack.StrippedIsSafe(items[k].name);
      JoinSplit(files[i].name);
    }
  }

  // ---- the archive -----------------------------------------------------------

  function Zipped(file: File): ZipFile
    requires |file.data| < UINT64_LIMIT
  {
    ZipFile(file.name, true, Regular, MODE_0666, |file.data|, Source(file.data, []))
  }

  ghost function Archived(files: seq<File>): (archive: seq<ZipFile>)
    requires AreClean(files)
    ensures |archive| == |files| && forall i :: 0 <= i < |files| ==> IsClean(files[i]) && archive[i] == Zipped(files[i])
  {
    seq(|files|, i requires 0 <= i < |files| => assert IsClean(files[i]); Zipped(files[i]))
  }

  /** The record reads as its file, if its name is portable. */
  ghost predicate ReadsAs(record: ZipFile, file: File, parse: ZipFile -> Option<Entry>) {
    && |file.data| < UINT64_LIMIT && record.size == |file.data|
    && parse(record) ==
       if AllPortable(PathOf(file)) then Some(EntryOf(PathOf(file), file.data, MODE_0666)) else None
  }

  ghost predicate ReadAs(archive: seq<ZipFile>, files: seq<File>, parse: ZipFile -> Option<Entry>) {
    |archive| == |files| && forall i :: 0 <= i < |files| ==> ReadsAs(archive[i], files[i], parse)
  }

  lemma ArchiveReads(files: seq<File>)
    requires AreClean(files)
    ensures ReadAs(Archived(files), files, Parse)
  {
    forall i | 0 <= i < |files| ensures ReadsAs(Archived(files)[i], files[i], Parse) {
      assert IsClean(files[i]);
      RecordReads(files[i]);
    }
  }

  lemma RecordReads(file: File)
    requires IsClean(file)
    ensures ReadsAs(Zipped(file), file, Parse)
  {
    assert Zipped(file) == RecordOf(PathOf(file), file.data, MODE_0666);
    ParseRecord(PathOf(file), file.data, MODE_0666);
  }

  // ---- when it is accepted ---------------------------------------------------

  ghost predicate AllNamesPortable(files: seq<File>) {
    forall i :: 0 <= i < |files| ==> AllPortable(PathOf(files[i]))
  }

  ghost predicate NamesFoldApart(files: seq<File>, fold: string -> string) {
    forall i, j :: 0 <= i < j < |files| ==> fold(Join(PathOf(files[i]))) != fold(Join(PathOf(files[j])))
  }

  ghost predicate NoneBelow(files: seq<File>) {
    forall i, j :: 0 <= i < |files| && 0 <= j < |files| ==> !(PathOf(files[i]) < PathOf(files[j]))
  }

  /** Every name is portable, no two fold together, and no file lies below another. */
  ghost predicate Unpackable(files: seq<File>, fold: string -> string) {
    AllNamesPortable(files) && NamesFoldApart(files, fold) && NoneBelow(files)
  }

  lemma ReadParses(archive: seq<ZipFile>, files: seq<File>, parse: ZipFile -> Option<Entry>)
    requires ReadAs(archive, files, parse)
    ensures AllParse(archive, parse) <==> AllNamesPortable(files)
  {
    forall i | 0 <= i < |files| ensures parse(archive[i]).Some? <==> AllPortable(PathOf(files[i])) {
      assert ReadsAs(archive[i], files[i], parse);
    }
  }

  lemma ReadEntry(archive: seq<ZipFile>, files: seq<File>, parse: ZipFile -> Option<Entry>, i: nat)
    requires ReadAs(archive, files, parse) && AllParse(archive, parse) && i < |files|
    ensures |files[i].data| < UINT64_LIMIT && archive[i].size == |files[i].data|
    ensures Entries(archive, parse)[i] == EntryOf(PathOf(files[i]), files[i].data, MODE_0666)
  {
    assert ReadsAs(archive[i], files[i], parse);
  }

  lemma ReadSound(archive: seq<ZipFile>, files: seq<File>, parse: ZipFile -> Option<Entry>, fold: string -> string)
    requires ReadAs(archive, files, parse) && AllParse(archive, parse)
    ensures SoundEntries(Entries(archive, parse), fold) <==> NamesFoldApart(files, fold) && NoneBelow(files)
  {
    var entries := Entries(archive, parse);
    forall i | 0 <= i < |files|
      ensures entries[i].name == Join(PathOf(files[i])) && entries[i].path == PathOf(files[i])
              && !entries[i].isDirectory
    {
      ReadEntry(archive, files, parse, i);
    }
    SoundByFiles(entries, files, fold);
  }

  lemma SoundByFiles(entries: seq<Entry>, files: seq<File>, fold: string -> string)
    requires |entries| == |files|
    requires forall i :: 0 <= i < |files| ==>
      entries[i].name == Join(PathOf(files[i])) && entries[i].path == PathOf(files[i]) && !entries[i].isDirectory
    ensures SoundEntries(entries, fold) <==> NamesFoldApart(files, fold) && NoneBelow(files)
  {
    assert NoCollisions(entries, fold) <==> NamesFoldApart(files, fold);
    forall i, j | 0 <= i < |files| && 0 <= j < |files|
      ensures Shadows(entries[i], entries[j]) <==> PathOf(files[i]) < PathOf(files[j])
    {
    }
  }

  lemma {:induction false} VolumeIsTotal(archive: seq<ZipFile>, files: seq<File>)
    requires |archive| == |files| && forall i :: 0 <= i < |files| ==> archive[i].size == |files[i].data|
    ensures TotalSize(archive) == Repack.Volume(files)
  {
    if files == [] {
      assert archive == [];
    } else {
      var n := |files| - 1;
      VolumeIsTotal(archive[..n], files[..n]);
      assert archive == archive[..n] + [archive[n]];
      TotalAppend(archive[..n], archive[n]);
    }
  }

  lemma {:induction false} TotalAppend(archive: seq<ZipFile>, record: ZipFile)
    ensures TotalSize(archive + [record]) == TotalSize(archive) + record.size
  {
    if archive == [] {
      assert archive + [record] == [record];
    } else {
      TotalAppend(archive[1..], record);
      assert (archive + [record])[1..] == archive[1..] + [record];
    }
  }

  lemma ReadTotal(archive: seq<ZipFile>, files: seq<File>, parse: ZipFile -> Option<Entry>)
    requires ReadAs(archive, files, parse) && AllParse(archive, parse)
    ensures Expanded(Entries(archive, parse)) == Repack.Volume(files)
  {
    forall i | 0 <= i < |files|
      ensures DataSize(parse(archive[i]).value) == archive[i].size && archive[i].size == |files[i].data|
    {
      ReadEntry(archive, files, parse, i);
    }
    ListingTotal(archive, parse);
    VolumeIsTotal(archive, files);
  }

  lemma ReadAcceptable(archive: seq<ZipFile>, files: seq<File>, parse: ZipFile -> Option<Entry>, limits: Limits,
                       fold: string -> string)
    requires ReadAs(archive, files, parse)
    ensures Acceptable(archive, parse, limits, fold) <==>
            |files| <= limits.maxEntries && Unpackable(files, fold) && Repack.Volume(files) <= limits.maxExpandedBytes
  {
    ReadParses(archive, files, parse);
    if AllParse(archive, parse) {
      ReadSound(archive, files, parse, fold);
      ReadTotal(archive, files, parse);
    }
  }

  /** The ZIP of a tarball is accepted exactly when its files number and add up within the
      limits, their names are portable and fold apart, and none lies below another. */
  lemma FetchedIsAcceptable(files: seq<File>, limits: Limits, fold: string -> string)
    requires AreClean(files)
    ensures Acceptable(Archived(files), Parse, limits, fold) <==>
            |files| <= limits.maxEntries && Unpackable(files, fold) && Repack.Volume(files) <= limits.maxExpandedBytes
  {
    ArchiveReads(files);
    ReadAcceptable(Archived(files), files, Parse, limits, fold);
  }

  // ---- what it expands to ----------------------------------------------------

  /** Data by path, the last for a path that comes twice. */
  ghost function Gather(paths: seq<Path>, data: seq<Bytes>): map<Path, Bytes>
    requires |paths| == |data|
  {
    if paths == [] then map[]
    else
      var n := |paths| - 1;
      Gather(paths[..n], data[..n])[paths[n] := data[n]]
  }

  lemma {:induction false} GatherExactly(paths: seq<Path>, data: seq<Bytes>)
    requires |paths| == |data| && forall i, j :: 0 <= i < j < |paths| ==> paths[i] != paths[j]
    ensures forall i :: 0 <= i < |paths| ==> paths[i] in Gather(paths, data) && Gather(paths, data)[paths[i]] == data[i]
    ensures forall p :: p in Gather(paths, data) ==> p in paths
  {
    if paths == [] {
    } else {
      var n := |paths| - 1;
      GatherExactly(paths[..n], data[..n]);
      forall i | 0 <= i < |paths| ensures paths[i] in Gather(paths, data) && Gather(paths, data)[paths[i]] == data[i] {
        if i < n {
          assert paths[..n][i] == paths[i] && data[..n][i] == data[i];
        }
      }
    }
  }

  ghost function PathsOf(files: seq<File>): seq<Path> {
    seq(|files|, i requires 0 <= i < |files| => PathOf(files[i]))
  }

  ghost function DataOf(files: seq<File>): seq<Bytes> {
    seq(|files|, i requires 0 <= i < |files| => files[i].data)
  }

  /** The files by path. */
  ghost function Contents(files: seq<File>): map<Path, Bytes> {
    Gather(PathsOf(files), DataOf(files))
  }

  lemma ContentsExactly(files: seq<File>, fold: string -> string)
    requires NamesFoldApart(files, fold)
    ensures forall i :: 0 <= i < |files| ==> HasFile(Contents(files), files[i])
    ensures forall p :: p in Contents(files) ==> exists i :: 0 <= i < |files| && PathOf(files[i]) == p
  {
    var paths, data := PathsOf(files), DataOf(files);
    forall i, j | 0 <= i < j < |paths| ensures paths[i] != paths[j] {
      assert fold(Join(PathOf(files[i]))) != fold(Join(PathOf(files[j])));
    }
    GatherExactly(paths, data);
    forall i | 0 <= i < |files| ensures HasFile(Contents(files), files[i]) {
      assert paths[i] == PathOf(files[i]) && data[i] == files[i].data;
    }
    forall p | p in Contents(files) ensures exists i :: 0 <= i < |files| && PathOf(files[i]) == p {
      var i :| 0 <= i < |paths| && paths[i] == p;
      assert PathOf(files[i]) == p;
    }
  }

  ghost predicate HasFile(contents: map<Path, Bytes>, file: File) {
    PathOf(file) in contents && contents[PathOf(file)] == file.data
  }

  lemma WrittenMode()
    ensures RegularFileMode(MODE_0666) == MODE_0644
  {
  }

  lemma ReadPlain(archive: seq<ZipFile>, files: seq<File>, parse: ZipFile -> Option<Entry>, fold: string -> string)
    requires ReadAs(archive, files, parse) && AllParse(archive, parse) && NamesFoldApart(files, fold)
    ensures PlainFiles(Entries(archive, parse), Contents(files))
  {
    var entries := Entries(archive, parse);
    ContentsExactly(files, fold);
    WrittenMode();
    forall i | 0 <= i < |entries|
      ensures PlainFile(entries[i], Contents(files)) && entries[i].path == PathOf(files[i])
    {
      ReadEntry(archive, files, parse, i);
      assert HasFile(Contents(files), files[i]);
    }
    forall p | p in Contents(files) ensures exists i :: 0 <= i < |entries| && entries[i].path == p {
      var i :| 0 <= i < |files| && PathOf(files[i]) == p;
      assert entries[i].path == p;
    }
  }

  lemma NoEmptyPath(files: seq<File>, fold: string -> string)
    requires NamesFoldApart(files, fold)
    ensures [] !in Contents(files)
  {
    ContentsExactly(files, fold);
  }

  lemma EntriesNamed(archive: seq<ZipFile>, parse: ZipFile -> Option<Entry>)
    requires ParsesNamed(parse) && AllParse(archive, parse)
    ensures AllNamed(Entries(archive, parse))
  {
  }

  lemma ReadRestored(archive: seq<ZipFile>, files: seq<File>, parse: ZipFile -> Option<Entry>, fold: string -> string,
                     tree: Tree)
    requires ReadAs(archive, files, parse) && ParsesNamed(parse) && SoundArchive(archive, parse, fold)
    requires Holds(tree, SortEntries(Entries(archive, parse)), MODE_0700)
    ensures Restored(tree, Contents(files))
  {
    ReadSound(archive, files, parse, fold);
    ReadPlain(archive, files, parse, fold);
    NoEmptyPath(files, fold);
    EntriesNamed(archive, parse);
    SortedRestored(Entries(archive, parse), Contents(files), fold, tree);
  }

  // ---- the two in a row ------------------------------------------------------

  ghost predicate WithinBounds(files: seq<File>, requested: Limits) {
    && NormalizeLimits(requested).Ok?
    && |files| <= NormalizeLimits(requested).value.maxEntries
    && Repack.Volume(files) <= NormalizeLimits(requested).value.maxExpandedBytes
  }

  lemma FetchedSettles(files: seq<File>, requested: Limits, fold: string -> string)
    requires AreClean(files)
    ensures Expandable(Some(Archived(files)), Parse, requested, fold) <==>
            WithinBounds(files, requested) && Unpackable(files, fold)
    ensures (&& NormalizeLimits(requested).Ok?
             && Acceptable(Archived(files), Parse, NormalizeLimits(requested).value, fold)) ==>
              WithinBounds(files, requested) && Unpackable(files, fold)
  {
    if NormalizeLimits(requested).Ok? {
      var limits := NormalizeLimits(requested).value;
      FetchedIsAcceptable(files, limits, fold);
      if Acceptable(Archived(files), Parse, limits, fold) {
        ArchiveReads(files);
        ReadPlain(Archived(files), files, Parse, fold);
        PlainExpands(Entries(Archived(files), Parse), Contents(files));
      }
    }
  }

  lemma FetchedRestores(files: seq<File>, fold: string -> string, tree: Tree)
    requires AreClean(files) && SoundArchive(Archived(files), Parse, fold)
    requires Holds(tree, SortEntries(Entries(Archived(files), Parse)), MODE_0700)
    ensures Restored(tree, Contents(files))
  {
    ArchiveReads(files);
    ParseNames();
    ReadRestored(Archived(files), files, Parse, fold, tree);
  }

  method ZipFiles(files: seq<File>) returns (archive: seq<ZipFile>)
    requires AreClean(files)
    ensures archive == Archived(files)
  {
    archive := [];
    for k := 0 to |files|
      invariant |archive| == k && forall i :: 0 <= i < k ==> archive[i] == Archived(files)[i]
    {
      assert IsClean(files[k]);
      archive := archive + [Zipped(files[k])];
    }
  }

  /** repack followed by ExtractZIP, as a deployment fetches its source. Success means that
      the destination has exactly the kept members of the tarball under their stripped
      names, with mode 0644; and with nothing failing success is certain for every tarball
      that reads to its end, keeps within both limits, and whose stripped names are portable
      and fold apart, none below another. */
  method FetchAndExtract(items: seq<Repack.Item>, maxEntries: int, maxBytes: int, fails: nat -> bool,
                         workspace: Workspace, destination: string, requested: Limits, temp: string,
                         fold: string -> string)
    returns (r: bool)
    requires maxEntries > 0 && maxBytes > 0
    requires forall i :: 0 <= i < |items| && items[i].Member? ==> |items[i].data| < UINT64_LIMIT
    requires temp !in workspace.children && temp != destination
    modifies workspace
    ensures SameBut(old(workspace.children), workspace.children, {temp, destination})
    ensures r ==> Fetched(items, maxEntries, maxBytes, requested, fold)
                  && destination in workspace.children && workspace.children[destination].Folder?
                  && Restored(workspace.children[destination].tree, Contents(Repack.Output(items, Repack.Strip)))
    ensures (&& (forall k :: !fails(k)) && workspace.Calm()
             && old(Vacant(workspace.children, destination)) && !Blank(destination)
             && Fetched(items, maxEntries, maxBytes, requested, fold)) ==> r
  {
    OutputIsClean(items);
    var repacked, _ := Repack.Repackage(items, maxEntries, maxBytes, fails);
    if repacked.Err? {
      return false;
    }
    var archive := ZipFiles(repacked.value);
    FetchedSettles(repacked.value, requested, fold);
    var extracted := workspace.ExtractZIP(Some(archive), destination, requested, temp, fold);
    if extracted.Err? {
      return false;
    }
    FetchedRestores(repacked.value, fold, workspace.children[destination].tree);
    return true;
  }

  /** A tarball with nothing wrong about it. */
  ghost predicate Fetched(items: seq<Repack.Item>, maxEntries: int, maxBytes: int, requested: Limits,
                          fold: string -> string)
  {
    && Repack.Sound(items, Repack.Strip) && Repack.Fits(items, Repack.Strip, maxEntries, maxBytes)
    && WithinBounds(Repack.Output(items, Repack.Strip), requested)
    && Unpackable(Repack.Output(items, Repack.Strip), fold)
  }
}
