/** The staging tree: what the directories-first loop of an extraction builds. */
module Staging {
  import opened Paths
  import opened Wrappers
  import opened Copying
  import opened Archive
  import opened Sorting

  type Path = seq<string>

  datatype Node = Dir(mode: Perm) | File(mode: Perm, data: Bytes) | Link

  /** A directory's contents by path relative to it; the directory itself is []. */
  type Tree = map<Path, Node>

  const MODE_0700: Perm := 0x1C0
  const MODE_0600: Perm := 0x180
  const MODE_0755: Perm := 0x1ED
  const MODE_0644: Perm := 0x1A4

  function DirectoryMode(perm: Perm): Perm {
    (perm & MODE_0755) | MODE_0700
  }

  function RegularFileMode(perm: Perm): Perm {
    (perm & MODE_0755) | MODE_0600
  }

  /** os.MkdirAll: None is the error for a non-directory in the way. */
  function MkdirAll(tree: Tree, path: Path, mode: Perm): Option<Tree>
    decreases |path|
  {
    if path in tree then (if tree[path].Dir? then Some(tree) else None)
    else if path == [] then None
    else match MkdirAll(tree, path[..|path| - 1], mode)
      case None => None
      case Some(above) => Some(above[path := Dir(mode)])
  }

  /** os.OpenFile with O_CREATE|O_EXCL, then the contents. */
  function CreateFile(tree: Tree, path: Path, mode: Perm, data: Bytes): Option<Tree> {
    if path in tree then None else Some(tree[path := File(mode, data)])
  }

  /** One turn of the extraction loop when nothing fails from outside. */
  function Place(tree: Tree, entry: Entry): Option<Tree>
    requires |entry.path| >= 1
  {
    if entry.isDirectory then MkdirAll(tree, entry.path, DirectoryMode(entry.perm))
    else match MkdirAll(tree, entry.path[..|entry.path| - 1], MODE_0755)
      case None => None
      case Some(above) => CreateFile(above, entry.path, RegularFileMode(entry.perm), entry.body.content)
  }

  // ---- what the tree should hold ---------------------------------------------

  /** The node an entry makes at a prefix of its path: itself at the end, and on the
      way directories with the mode it passes to MkdirAll. */
  function NodeOf(entry: Entry, path: Path): Node {
    if path != entry.path then Dir(if entry.isDirectory then DirectoryMode(entry.perm) else MODE_0755)
    else if entry.isDirectory then Dir(DirectoryMode(entry.perm))
    else File(RegularFileMode(entry.perm), entry.body.content)
  }

  /** The index of the first entry at or below a path, or |entries| for none. */
  function FirstCover(entries: seq<Entry>, path: Path): (i: nat)
    ensures i <= |entries|
    ensures i < |entries| ==> path <= entries[i].path
    ensures forall j :: 0 <= j < i ==> !(path <= entries[j].path)
  {
    if entries == [] then 0
    else if path <= entries[0].path then 0
    else 1 + FirstCover(entries[1..], path)
  }

  /** The tree holds exactly the entries and their ancestors, each made by the first
      entry that needs it, under a root directory of the given mode. */
  ghost predicate Holds(tree: Tree, entries: seq<Entry>, rootMode: Perm) {
    && [] in tree && tree[[]] == Dir(rootMode)
    && (forall p: Path :: p != [] ==> (p in tree <==> FirstCover(entries, p) < |entries|))
    && (forall p: Path :: p != [] && p in tree ==> tree[p] == NodeOf(entries[FirstCover(entries, p)], p))
  }

  /** An order in which entries can be put down one after the other: every entry
      comes before what lies below it, and no file has anything below it. */
  ghost predicate Plantable(entries: seq<Entry>) {
    && (forall i :: 0 <= i < |entries| ==> |entries[i].path| >= 1)
    && (forall i, j :: 0 <= i < j < |entries| ==> !(entries[j].path <= entries[i].path))
    && NoFileParents(entries)
  }

  lemma FirstCoverUnique(entries: seq<Entry>, path: Path, i: nat)
    requires i < |entries| && path <= entries[i].path
    requires forall j :: 0 <= j < i ==> !(path <= entries[j].path)
    ensures FirstCover(entries, path) == i
  {
  }

  lemma FirstCoverAppend(entries: seq<Entry>, entry: Entry, path: Path)
    ensures FirstCover(entries + [entry], path) ==
            if FirstCover(entries, path) < |entries| then FirstCover(entries, path)
            else if path <= entry.path then |entries| else |entries| + 1
  {
    var more := entries + [entry];
    var i := FirstCover(entries, path);
    var k := FirstCover(more, path);
    assert forall j :: 0 <= j < |entries| ==> more[j] == entries[j];
    assert more[|entries|] == entry;
    if i < |entries| {
      FirstCoverUnique(more, path, i);
    } else if path <= entry.path {
      FirstCoverUnique(more, path, |entries|);
    } else if k < |more| {
      assert false;
    }
  }

  /** Prefixes of what is in the tree are in the tree. */
  ghost predicate Closed(tree: Tree) {
    forall p: Path, q: Path :: p in tree && q <= p ==> q in tree
  }

  /** No file stands on the way to a path. */
  ghost predicate WayOpen(tree: Tree, path: Path) {
    forall q: Path :: q in tree && q <= path ==> tree[q].Dir?
  }

  /** What MkdirAll does when no file is in the way: it adds the missing prefixes. */
  ghost predicate Opened(tree: Tree, path: Path, mode: Perm, after: Tree) {
    && (forall q: Path :: q in after <==> q in tree || q <= path)
    && (forall q: Path :: q in tree ==> after[q] == tree[q])
    && (forall q: Path :: q in after && q !in tree ==> after[q] == Dir(mode))
  }

  lemma PrefixOfInit(q: Path, path: Path)
    requires path != []
    ensures q <= path <==> q <= path[..|path| - 1] || q == path
  {
  }

  lemma {:induction false} MkdirAllOpens(tree: Tree, path: Path, mode: Perm)
    requires [] in tree && Closed(tree) && WayOpen(tree, path)
    ensures MkdirAll(tree, path, mode).Some?
    ensures Opened(tree, path, mode, MkdirAll(tree, path, mode).value)
    decreases |path|
  {
    if path in tree {
    } else {
      var init := path[..|path| - 1];
      MkdirAllOpens(tree, init, mode);
      var above := MkdirAll(tree, init, mode).value;
      forall q: Path ensures q in above[path := Dir(mode)] <==> q in tree || q <= path {
        PrefixOfInit(q, path);
      }
    }
  }

  lemma ReadyToPlace(tree: Tree, entries: seq<Entry>, k: int, rootMode: Perm)
    requires Plantable(entries) && 0 <= k < |entries|
    requires Holds(tree, entries[..k], rootMode)
    ensures |entries[k].path| >= 1 && entries[k].path !in tree
    ensures [] in tree && Closed(tree) && WayOpen(tree, entries[k].path)
  {
  }

  lemma PlacedHolds(tree: Tree, before: seq<Entry>, entry: Entry, rootMode: Perm)
    requires Holds(tree, before, rootMode) && |entry.path| >= 1 && entry.path !in tree
    requires [] in tree && Closed(tree) && WayOpen(tree, entry.path)
    ensures Place(tree, entry).Some? && Holds(Place(tree, entry).value, before + [entry], rootMode)
  {
    var after := Placed(tree, entry);
    HoldsAfter(tree, before, entry, rootMode, after);
  }

  /** One turn of the loop: it cannot meet an existing file or a file where it needs a
      directory, and it adds exactly the entry and its missing ancestors. */
  lemma PlaceStep(tree: Tree, entries: seq<Entry>, k: int, rootMode: Perm)
    requires Plantable(entries) && 0 <= k < |entries|
    requires Holds(tree, entries[..k], rootMode)
    ensures Place(tree, entries[k]).Some?
    ensures Holds(Place(tree, entries[k]).value, entries[..k + 1], rootMode)
  {
    ReadyToPlace(tree, entries, k, rootMode);
    PlacedHolds(tree, entries[..k], entries[k], rootMode);
    assert entries[..k + 1] == entries[..k] + [entries[k]];
  }

  /** The tree gains exactly the entry and its missing ancestors. */
  ghost predicate Adds(tree: Tree, entry: Entry, after: Tree) {
    && (forall q: Path :: q in after <==> q in tree || q <= entry.path)
    && (forall q: Path :: q in tree ==> after[q] == tree[q])
    && (forall q: Path :: q in after && q !in tree ==> after[q] == NodeOf(entry, q))
  }

  lemma Placed(tree: Tree, entry: Entry) returns (after: Tree)
    requires |entry.path| >= 1 && entry.path !in tree
    requires [] in tree && Closed(tree) && WayOpen(tree, entry.path)
    ensures Place(tree, entry) == Some(after) && Adds(tree, entry, after)
  {
    if entry.isDirectory {
      MkdirAllOpens(tree, entry.path, DirectoryMode(entry.perm));
      after := MkdirAll(tree, entry.path, DirectoryMode(entry.perm)).value;
    } else {
      var init := entry.path[..|entry.path| - 1];
      MkdirAllOpens(tree, init, MODE_0755);
      var above := MkdirAll(tree, init, MODE_0755).value;
      assert entry.path !in above;
      after := above[entry.path := File(RegularFileMode(entry.perm), entry.body.content)];
      forall q: Path ensures q in after <==> q in tree || q <= entry.path {
        PrefixOfInit(q, entry.path);
      }
    }
  }

  lemma HoldsAfter(tree: Tree, entries: seq<Entry>, entry: Entry, rootMode: Perm, after: Tree)
    requires Holds(tree, entries, rootMode) && Adds(tree, entry, after)
    ensures Holds(after, entries + [entry], rootMode)
  {
    var more := entries + [entry];
    forall p: Path | p != []
      ensures p in after <==> FirstCover(more, p) < |more|
      ensures p in after ==> after[p] == NodeOf(more[FirstCover(more, p)], p)
    {
      FirstCoverAppend(entries, entry, p);
      if p in tree {
        assert more[FirstCover(entries, p)] == entries[FirstCover(entries, p)];
      }
    }
  }

  // ---- the whole loop --------------------------------------------------------

  /** The loop over entries in order, when nothing fails from outside. */
  function Populate(tree: Tree, entries: seq<Entry>): Option<Tree>
    requires forall i :: 0 <= i < |entries| ==> |entries[i].path| >= 1
  {
    if entries == [] then Some(tree)
    else
      var n := |entries| - 1;
      match Populate(tree, entries[..n])
      case None => None
      case Some(before) => Place(before, entries[n])
  }

  lemma {:induction false} PopulateHolds(entries: seq<Entry>, rootMode: Perm)
    requires Plantable(entries)
    ensures Populate(map[[] := Dir(rootMode)], entries).Some?
    ensures Holds(Populate(map[[] := Dir(rootMode)], entries).value, entries, rootMode)
  {
    var root: Tree := map[[] := Dir(rootMode)];
    if entries == [] {
    } else {
      var n := |entries| - 1;
      PlantablePrefix(entries, n);
      PopulateHolds(entries[..n], rootMode);
      PlaceStep(Populate(root, entries[..n]).value, entries, n, rootMode);
      assert entries[..n + 1] == entries;
    }
  }

  lemma PlantablePrefix(entries: seq<Entry>, n: int)
    requires Plantable(entries) && 0 <= n <= |entries|
    ensures Plantable(entries[..n])
  {
  }

  /** Two trees that hold the same entries are the same tree. */
  lemma HoldsUnique(a: Tree, b: Tree, entries: seq<Entry>, rootMode: Perm)
    requires Holds(a, entries, rootMode) && Holds(b, entries, rootMode)
    ensures a == b
  {
  }

  /** Read off the tree: it is the entries plus their ancestors and nothing else,
      every entry keeps its own mode and contents, and the rest are directories. */
  lemma HoldsReads(tree: Tree, entries: seq<Entry>, rootMode: Perm)
    requires Plantable(entries) && Holds(tree, entries, rootMode)
    ensures forall p: Path :: p in tree <==> p == [] || exists i :: 0 <= i < |entries| && p <= entries[i].path
    ensures forall i :: 0 <= i < |entries| ==>
                          entries[i].path in tree && tree[entries[i].path] == NodeOf(entries[i], entries[i].path)
    ensures forall p: Path :: p in tree && (forall i :: 0 <= i < |entries| ==> p != entries[i].path) ==> tree[p].Dir?
  {
    forall p: Path ensures p in tree <==> p == [] || exists i :: 0 <= i < |entries| && p <= entries[i].path {
      var k := FirstCover(entries, p);
      if p != [] && p in tree {
        assert p <= entries[k].path;
      }
    }
    forall i | 0 <= i < |entries|
      ensures entries[i].path in tree && tree[entries[i].path] == NodeOf(entries[i], entries[i].path)
    {
      FirstCoverUnique(entries, entries[i].path, i);
    }
    forall p: Path | p in tree && (forall i :: 0 <= i < |entries| ==> p != entries[i].path) ensures tree[p].Dir? {
      if p != [] {
        assert tree[p] == NodeOf(entries[FirstCover(entries, p)], p);
      }
    }
  }

  /** The owner can read and write, nobody else can write, and the other bits are the
      record's: the executable ones in particular. */
  predicate FileBits(mode: Perm, perm: Perm) {
    mode & 0x180 == 0x180 && mode & 0x12 == 0 && mode & 0x6D == perm & 0x6D
  }

  /** The owner can do everything, nobody else can write, and the other bits are the
      record's. */
  predicate DirectoryBits(mode: Perm, perm: Perm) {
    mode & 0x1C0 == 0x1C0 && mode & 0x12 == 0 && mode & 0x2D == perm & 0x2D
  }

  lemma ModesExactly(perm: Perm, mode: Perm)
    ensures FileBits(mode, perm) <==> mode == RegularFileMode(perm)
    ensures DirectoryBits(mode, perm) <==> mode == DirectoryMode(perm)
  {
  }

  /** The node of an entry is its own: a file with its contents, or a directory. */
  lemma EntryNodes(tree: Tree, entries: seq<Entry>, rootMode: Perm, i: nat)
    requires Plantable(entries) && Holds(tree, entries, rootMode) && i < |entries|
    ensures entries[i].path in tree
    ensures var node := tree[entries[i].path];
            if entries[i].isDirectory then node.Dir? && DirectoryBits(node.mode, entries[i].perm)
            else node.File? && node.data == entries[i].body.content && FileBits(node.mode, entries[i].perm)
  {
    HoldsReads(tree, entries, rootMode);
    ModesExactly(entries[i].perm, RegularFileMode(entries[i].perm));
    ModesExactly(entries[i].perm, DirectoryMode(entries[i].perm));
  }

  // ---- the sort --------------------------------------------------------------

  /** The order of the extraction: directories first, then by name. */
  predicate Before(a: Entry, b: Entry) {
    if a.isDirectory != b.isDirectory then a.isDirectory else Less(a.name, b.name)
  }

  function SortEntries(entries: seq<Entry>): seq<Entry> {
    Sort(entries, Before)
  }

  lemma BeforeIsStrict()
    ensures Transitive(Before) && Irreflexive(Before)
  {
    forall x, y, z | Before(x, y) && Before(y, z) ensures Before(x, z) {
      if x.isDirectory == y.isDirectory && y.isDirectory == z.isDirectory {
        LessTransitive(x.name, y.name, z.name);
      }
    }
    forall x ensures !Before(x, x) {
      LessIrreflexive(x.name);
    }
  }

  lemma DistinctAreComparable(entries: seq<Entry>, fold: string -> string)
    requires NoCollisions(entries, fold)
    ensures Comparable(entries, Before)
  {
    forall i, j | 0 <= i < j < |entries| ensures Before(entries[i], entries[j]) || Before(entries[j], entries[i]) {
      assert fold(entries[i].name) != fold(entries[j].name);
      LessTotal(entries[i].name, entries[j].name);
    }
  }

  lemma SortedEntries(entries: seq<Entry>, fold: string -> string)
    requires NoCollisions(entries, fold)
    ensures Sorted(SortEntries(entries), Before)
    ensures multiset(SortEntries(entries)) == multiset(entries)
  {
    BeforeIsStrict();
    DistinctAreComparable(entries, fold);
    SortSorted(entries, Before);
  }

  lemma LaterIsNotAbove(a: Entry, b: Entry)
    requires Named(a) && Named(b) && Before(a, b) && a.name != b.name
    requires !Shadows(b, a)
    ensures !(b.path <= a.path)
  {
    assert b.path <= a.path && |b.path| == |a.path| ==> b.path == a.path;
    if b.path < a.path {
      AncestorSortsFirst(b.path, a.path);
      if Less(a.name, b.name) {
        LessAsymmetric(a.name, b.name);
      }
    }
  }

  /** Sorting makes the entries of an accepted archive plantable: a path sorts before
      everything below it. */
  lemma SortedIsPlantable(entries: seq<Entry>, fold: string -> string)
    requires AllNamed(entries) && SoundEntries(entries, fold)
    ensures Plantable(SortEntries(entries))
    ensures AllNamed(SortEntries(entries)) && SoundEntries(SortEntries(entries), fold)
  {
    var sorted := SortEntries(entries);
    SortedEntries(entries, fold);
    SoundPermutes(entries, sorted, fold);
    forall i | 0 <= i < |sorted| ensures Named(sorted[i]) {
      var j := InMultiset(sorted, entries, i);
    }
    forall i, j | 0 <= i < j < |sorted| ensures !(sorted[j].path <= sorted[i].path) {
      assert !Shadows(sorted[j], sorted[i]);
      assert fold(sorted[i].name) != fold(sorted[j].name);
      LaterIsNotAbove(sorted[i], sorted[j]);
    }
  }

  /** The tree an archive's entries expand to. */
  ghost function ExtractedTree(entries: seq<Entry>): Tree
    requires forall i :: 0 <= i < |SortEntries(entries)| ==> |SortEntries(entries)[i].path| >= 1
    requires Populate(map[[] := Dir(MODE_0700)], SortEntries(entries)).Some?
  {
    Populate(map[[] := Dir(MODE_0700)], SortEntries(entries)).value
  }

  /** For every accepted archive the sorted loop runs through and the tree it leaves is
      the entries plus their ancestor directories. */
  lemma ExtractionSucceeds(entries: seq<Entry>, fold: string -> string)
    requires AllNamed(entries) && SoundEntries(entries, fold)
    ensures Plantable(SortEntries(entries))
    ensures Populate(map[[] := Dir(MODE_0700)], SortEntries(entries)).Some?
    ensures Holds(ExtractedTree(entries), SortEntries(entries), MODE_0700)
  {
    SortedIsPlantable(entries, fold);
    PopulateHolds(SortEntries(entries), MODE_0700);
  }

  /** The central directory's order does not show in the tree. */
  lemma ExtractionPermutes(a: seq<Entry>, b: seq<Entry>, fold: string -> string)
    requires multiset(a) == multiset(b)
    requires NoCollisions(a, fold) && NoCollisions(b, fold)
    ensures SortEntries(a) == SortEntries(b)
  {
    BeforeIsStrict();
    SortedEntries(a, fold);
    SortedEntries(b, fold);
    SortedUnique(SortEntries(a), SortEntries(b), Before);
  }
}
