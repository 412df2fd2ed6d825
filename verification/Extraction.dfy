/** ExtractZIP: validate everything, build the whole tree aside, commit by one rename. */
module Extraction {
  import opened Paths
  import opened Wrappers
  import opened Copying
  import opened Archive
  import opened Staging
  import Text

  datatype Child = Folder(tree: Tree) | Plain | SymbolicLink

  datatype ExtractError =
    NotZip | Refused(error: ArchiveError) | BadDestination | IoFailed | CopyFailed(cause: CopyError)

  datatype ExtractStats = ExtractStats(files: nat, directories: nat, expandedBytes: nat)

  /** An empty directory or nothing at all. */
  ghost predicate Vacant(children: map<string, Child>, name: string) {
    name in children ==> children[name].Folder? && IsEmpty(children[name].tree)
  }

  predicate IsEmpty(tree: Tree) {
    tree.Keys <= {[]}
  }

  ghost predicate SameBut(before: map<string, Child>, after: map<string, Child>, names: set<string>) {
    forall c :: c !in names ==> (c in before <==> c in after) && (c in before ==> before[c] == after[c])
  }

  /** The declared size of every file is the size of what it holds. */
  ghost predicate SizesTrue(entries: seq<Entry>) {
    forall i :: 0 <= i < |entries| && !entries[i].isDirectory ==> |entries[i].body.content| == entries[i].size
  }

  ghost predicate BodiesSmooth(entries: seq<Entry>) {
    forall i :: 0 <= i < |entries| && !entries[i].isDirectory ==> Smooth(entries[i].body)
  }

  const FRESH_STAGING: Tree := map[[] := Dir(MODE_0700)]

  /** The copy of one member to a new file. */
  method CopyMember(body: Source, remaining: nat, plan: seq<WriteResponse>) returns (copied: Copied, data: Bytes)
    ensures |data| == copied.size <= remaining && copied.error != Some(NegativeLimit)
    ensures copied.error.None? ==> data == body.content
    ensures Smooth(body) && Reliable(plan) && |body.content| <= remaining ==> copied.error.None?
  {
    var source := new Reader(body);
    var target := new Sink(plan);
    copied := CopyAndHash(target, source, remaining, k => false, data => "");
    data := target.data;
    PrefixLanded(body.content, data, copied.size);
  }

  lemma PrefixLanded(content: Bytes, data: Bytes, n: nat)
    requires n <= |content| && data == [] + content[..n]
    ensures |data| == n && (n == |content| ==> data == content)
  {
  }

  /** The directory an archive is expanded in. Every operation on it first asks whether
      this is a step the operating system fails. */
  class Workspace {
    var children: map<string, Child>
    var clock: nat
    const fails: nat -> bool

    constructor (children: map<string, Child>, fails: nat -> bool)
      ensures this.children == children && this.fails == fails
    {
      this.children, this.fails, this.clock := children, fails, 0;
    }

    ghost predicate Calm() {
      forall k :: !fails(k)
    }

    method Step() returns (bad: bool)
      modifies this`clock
      ensures clock == old(clock) + 1 && bad == fails(old(clock))
    {
      bad := fails(clock);
      clock := clock + 1;
    }

    /** The step taken last is one that failed. */
    ghost predicate LastFailed()
      reads this
    {
      clock > 0 && fails(clock - 1)
    }

    ghost predicate Staged(temp: string)
      reads this
    {
      temp in children && children[temp].Folder?
    }

    /** os.MkdirAll below the staging directory. A failure may leave any part of the
        way made. */
    method MakeDirectories(temp: string, path: Path, mode: Perm) returns (ok: bool)
      requires Staged(temp)
      modifies this
      ensures Staged(temp) && SameBut(old(children), children, {temp})
      ensures ok ==> MkdirAll(old(children[temp].tree), path, mode) == Some(children[temp].tree)
      ensures Calm() && MkdirAll(old(children[temp].tree), path, mode).Some? ==> ok
    {
      var tree := children[temp].tree;
      var bad := Step();
      if bad {
        var k: nat :| k <= |path|;
        var partial := MkdirAll(tree, path[..k], mode);
        if partial.Some? {
          children := children[temp := Folder(partial.value)];
        }
        return false;
      }
      var made := MkdirAll(tree, path, mode);
      if made.None? {
        return false;
      }
      children := children[temp := Folder(made.value)];
      return true;
    }

    /** Opens the member and the target, copies, closes both and compares the size. */
    method WriteFile(temp: string, entry: Entry, remaining: int, mode: Perm) returns (r: Result<nat, ExtractError>)
      requires Staged(temp) && remaining >= 0
      modifies this
      ensures Staged(temp) && SameBut(old(children), children, {temp})
      ensures entry.path !in old(children[temp].tree) && entry.path in children[temp].tree ==>
                children[temp].tree[entry.path].File? && |children[temp].tree[entry.path].data| <= remaining
      ensures r.Ok? ==>
                && r.value == |entry.body.content| == entry.size <= remaining
                && Some(children[temp].tree) ==
                   CreateFile(old(children[temp].tree), entry.path, mode, entry.body.content)
      ensures (&& Calm() && Smooth(entry.body)
               && |entry.body.content| == entry.size <= remaining
               && entry.path !in old(children[temp].tree)) ==> r.Ok?
    {
      var tree := children[temp].tree;
      var bad := Step();
      if bad {
        return Err(IoFailed);
      }
      bad := Step();
      if bad || entry.path in tree {
        return Err(IoFailed);
      }
      var plan: seq<WriteResponse> := [];
      bad := Step();
      if bad {
        plan := *;
      }
      var copied, data := CopyMember(entry.body, remaining, plan);
      children := children[temp := Folder(tree[entry.path := File(mode, data)])];
      if copied.error.Some? {
        return Err(if copied.error.value == LimitExceeded then Refused(TooLarge) else CopyFailed(copied.error.value));
      }
      var badTarget := Step();
      var badSource := Step();
      if badTarget || badSource {
        return Err(IoFailed);
      }
      if copied.size != entry.size {
        return Err(Refused(Unsafe));
      }
      return Ok(copied.size);
    }

    /** One turn of the extraction loop; the result is the bytes it wrote. */
    method ExtractEntry(temp: string, entry: Entry, remaining: int) returns (r: Result<nat, ExtractError>)
      requires Staged(temp) && remaining >= 0 && |entry.path| >= 1
      modifies this
      ensures Staged(temp) && SameBut(old(children), children, {temp})
      ensures r.Ok? ==>
                && r.value == DataSize(entry)
                && (!entry.isDirectory ==> |entry.body.content| == entry.size)
                && Place(old(children[temp].tree), entry) == Some(children[temp].tree)
      ensures (&& Calm() && Place(old(children[temp].tree), entry).Some?
               && (!entry.isDirectory ==> Smooth(entry.body) && |entry.body.content| == entry.size <= remaining))
              ==> r.Ok?
    {
      if entry.isDirectory {
        var ok := MakeDirectories(temp, entry.path, DirectoryMode(entry.perm));
        return if ok then Ok(0) else Err(IoFailed);
      }
      var ok := MakeDirectories(temp, entry.path[..|entry.path| - 1], MODE_0755);
      if !ok {
        return Err(IoFailed);
      }
      r := WriteFile(temp, entry, remaining, RegularFileMode(entry.perm));
    }

    /** The extraction loop over sorted entries. The budget left for the next file is
        never negative, and a full run leaves exactly the tree of the entries. */
    method FillStaging(temp: string, entries: seq<Entry>, maxBytes: nat) returns (r: Result<nat, ExtractError>)
      requires Staged(temp) && children[temp].tree == FRESH_STAGING
      requires Plantable(entries) && Expanded(entries) <= maxBytes
      modifies this
      ensures Staged(temp) && SameBut(old(children), children, {temp})
      ensures r.Ok? ==> Holds(children[temp].tree, entries, MODE_0700)
      ensures r.Ok? ==> SizesTrue(entries) && r.value == Expanded(entries)
      ensures Calm() && BodiesSmooth(entries) && SizesTrue(entries) ==> r.Ok?
    {
      var expanded: nat := 0;
      HoldsFresh();
      assert entries[..0] == [];
      for k := 0 to |entries|
        invariant Staged(temp) && SameBut(old(children), children, {temp})
        invariant Holds(children[temp].tree, entries[..k], MODE_0700)
        invariant SizesTrue(entries[..k]) && expanded == Expanded(entries[..k])
      {
        PlaceStep(children[temp].tree, entries, k, MODE_0700);
        BudgetLeft(entries, k, maxBytes);
        var written := ExtractEntry(temp, entries[k], maxBytes - expanded);
        if written.Err? {
          return Err(written.error);
        }
        expanded := expanded + written.value;
        SizesTrueStep(entries, k);
      }
      assert entries[..|entries|] == entries;
      return Ok(expanded);
    }

    /** requireMissingOrEmptyDirectory */
    method RequireVacant(name: string) returns (r: Option<ExtractError>)
      modifies this`clock
      ensures r.None? ==> Vacant(children, name)
      ensures Calm() && Vacant(children, name) ==> r.None?
    {
      var bad := Step();
      if bad {
        return Some(IoFailed);
      }
      if name !in children {
        return None;
      }
      if !children[name].Folder? {
        return Some(Refused(Unsafe));
      }
      bad := Step();
      if bad {
        return Some(IoFailed);
      }
      return if IsEmpty(children[name].tree) then None else Some(Refused(Unsafe));
    }

    /** commitStaging, whatever the destination has become by then. The destination
        ends up as the staged tree, as it was, or vacant where it was vacant. */
    method CommitStaging(temp: string, destination: string) returns (r: Option<ExtractError>)
      requires Staged(temp) && temp != destination
      modifies this
      ensures SameBut(old(children), children, {temp, destination})
      ensures r.None? ==>
                && old(Vacant(children, destination))
                && temp !in children
                && destination in children && children[destination] == old(children[temp])
      ensures r.Some? ==>
                && temp in children && children[temp] == old(children[temp])
                && (SameBut(old(children), children, {})
                    || (old(Vacant(children, destination)) && Vacant(children, destination)))
      ensures Calm() && old(Vacant(children, destination)) ==> r.None?
    {
      r := RequireVacant(destination);
      if r.Some? {
        return;
      }
      if destination in children {
        var bad := Step();
        if bad {
          return Some(IoFailed);
        }
        children := children - {destination};
      }
      var bad := Step();
      if bad {
        var unmade := Step();
        if !unmade {
          children := children[destination := Folder(map[[] := Dir(MODE_0755)])];
        }
        return Some(IoFailed);
      }
      children := (children - {temp})[destination := children[temp]];
    }

    /** os.RemoveAll of the staging directory, whose own failure is ignored and may
        leave any part of it behind. */
    method Discard(temp: string)
      modifies this
      ensures SameBut(old(children), children, {temp})
      ensures clock == old(clock) + 1 && (!fails(old(clock)) ==> temp !in children)
    {
      var bad := Step();
      if bad && temp in children {
        var left: Child := *;
        children := children[temp := left];
      } else {
        children := children - {temp};
      }
    }

    /** Fills a fresh staging directory and commits it. The re-check of the total
        cannot fail: every file's size was already compared with its declared one. */
    method FillAndCommit(entries: seq<Entry>, expectedBytes: nat, maxBytes: nat, destination: string, temp: string)
      returns (r: Result<nat, ExtractError>)
      requires Plantable(entries) && Expanded(entries) == expectedBytes <= maxBytes
      requires Staged(temp) && children[temp].tree == FRESH_STAGING && temp != destination
      modifies this
      ensures SameBut(old(children), children, {temp, destination})
      ensures r.Ok? ==> temp !in children && Expansion(entries, children, destination, r.value)
      ensures r.Err? ==>
                || SameBut(old(children), children, {temp})
                || (old(Vacant(children, destination)) && Vacant(children, destination))
      ensures (&& Calm() && old(Vacant(children, destination))
               && BodiesSmooth(entries) && SizesTrue(entries)) ==> r.Ok?
    {
      var filled := FillStaging(temp, entries, maxBytes);
      if filled.Err? {
        return Err(filled.error);
      }
      if filled.value != expectedBytes {
        assert false;
      }
      var refused := CommitStaging(temp, destination);
      if refused.Some? {
        return Err(refused.value);
      }
      return Ok(filled.value);
    }

    /** The part of ExtractZIP that touches the file system: stage, fill, commit, and
        discard the staging directory unless committed. */
    method Expand(entries: seq<Entry>, expectedBytes: nat, maxBytes: nat, destination: string, temp: string)
      returns (r: Result<nat, ExtractError>)
      requires Plantable(entries) && Expanded(entries) == expectedBytes <= maxBytes
      requires temp !in children && temp != destination
      modifies this
      ensures SameBut(old(children), children, {temp, destination})
      ensures r.Ok? ==> temp !in children && Expansion(entries, children, destination, r.value)
      ensures r.Err? ==>
                || SameBut(old(children), children, {temp})
                || (old(Vacant(children, destination)) && Vacant(children, destination))
      ensures temp in children ==> LastFailed()
      ensures (&& Calm() && old(Vacant(children, destination))
               && BodiesSmooth(entries) && SizesTrue(entries)) ==> r.Ok?
    {
      var bad := Step();
      if bad {
        return Err(IoFailed);
      }
      children := children[temp := Folder(FRESH_STAGING)];
      r := FillAndCommit(entries, expectedBytes, maxBytes, destination, temp);
      if r.Err? {
        Discard(temp);
      }
    }

    /** ExtractZIP for any per-record checks. */
    method ExtractWith(files: Option<seq<ZipFile>>, parse: ZipFile -> Option<Entry>, destination: string,
                       requested: Limits, temp: string, fold: string -> string)
      returns (r: Result<ExtractStats, ExtractError>)
      requires ParsesNamed(parse)
      requires temp !in children && temp != destination
      modifies this
      ensures SameBut(old(children), children, {temp, destination})
      ensures r.Ok? ==> temp !in children && Committed(files, parse, requested, fold, children, destination, r.value)
      ensures r.Err? ==>
                || SameBut(old(children), children, {temp})
                || (old(Vacant(children, destination)) && Vacant(children, destination))
      ensures temp in children ==> LastFailed()
      ensures r.Ok? ==> !Blank(destination)
      ensures (&& Calm() && old(Vacant(children, destination))
               && !Blank(destination) && Expandable(files, parse, requested, fold)) ==> r.Ok?
    {
      var normalized := NormalizeLimits(requested);
      if normalized.Err? {
        return Err(Refused(normalized.error));
      }
      if files.None? {
        return Err(NotZip);
      }
      var limits := normalized.value;
      var inspected := InspectWith(files.value, parse, limits, fold);
      if inspected.Err? {
        return Err(Refused(inspected.error));
      }
      if Blank(destination) {
        return Err(BadDestination);
      }
      var bad := Step();
      if bad {
        return Err(IoFailed);
      }
      var taken := RequireVacant(destination);
      if taken.Some? {
        return Err(taken.value);
      }
      var entries := SortEntries(inspected.value.entries);
      SortedForExtraction(inspected.value.entries, fold);
      var expanded := Expand(entries, inspected.value.expectedBytes, limits.maxExpandedBytes, destination, temp);
      if expanded.Err? {
        return Err(expanded.error);
      }
      return Ok(ExtractStats(inspected.value.stats.files, inspected.value.stats.directories, expanded.value));
    }

    /** ExtractZIP into the child `destination`. `files` is None when the archive cannot
        be read, and `temp` is the name os.MkdirTemp comes up with.

        Whichever step fails, the destination is left as it was, or vacant where it was
        vacant; success leaves the complete tree and no staging directory; and with
        nothing failing every sound archive succeeds. */
    method ExtractZIP(files: Option<seq<ZipFile>>, destination: string, requested: Limits, temp: string,
                      fold: string -> string)
      returns (r: Result<ExtractStats, ExtractError>)
      requires temp !in children && temp != destination
      modifies this
      ensures SameBut(old(children), children, {temp, destination})
      ensures r.Ok? ==> temp !in children && Committed(files, Parse, requested, fold, children, destination, r.value)
      ensures r.Err? ==>
                || SameBut(old(children), children, {temp})
                || (old(Vacant(children, destination)) && Vacant(children, destination))
      ensures temp in children ==> LastFailed()
      ensures (&& Calm() && old(Vacant(children, destination))
               && !Blank(destination) && Expandable(files, Parse, requested, fold)) ==> r.Ok?
      ensures r.Ok? ==> !Blank(destination) && Unfolded(files, requested, fold, children, destination, r.value)
      ensures (&& Calm() && old(Vacant(children, destination))
               && !Blank(destination) && Flawless(files, requested, fold)) ==> r.Ok?
    {
      ParseNames();
      r := ExtractWith(files, Parse, destination, requested, temp, fold);
      if r.Ok? {
        CommittedMeans(files, requested, fold, children, destination, r.value);
      }
      FlawlessExpands(files, requested, fold);
    }
  }

  predicate Blank(destination: string) {
    Text.TrimSpace(destination) == ""
  }

  /** The destination is the complete tree of the sorted entries, their declared sizes
      are true, and their sum is the number of bytes written. */
  ghost predicate Expansion(entries: seq<Entry>, children: map<string, Child>, destination: string, bytes: nat) {
    && SizesTrue(entries)
    && destination in children && children[destination].Folder?
    && Holds(children[destination].tree, entries, MODE_0700)
    && bytes == Expanded(entries)
  }

  /** What success means: the archive was acceptable, it was expanded completely, and
      the counts are its counts. */
  ghost predicate Committed(files: Option<seq<ZipFile>>, parse: ZipFile -> Option<Entry>, requested: Limits,
                            fold: string -> string, children: map<string, Child>, destination: string,
                            stats: ExtractStats)
  {
    && files.Some? && NormalizeLimits(requested).Ok?
    && Acceptable(files.value, parse, NormalizeLimits(requested).value, fold)
    && var entries := Entries(files.value, parse);
    && Expansion(SortEntries(entries), children, destination, stats.expandedBytes)
    && stats.directories == CountDirectories(entries)
    && stats.files + stats.directories == |entries|
  }

  /** An archive with nothing wrong about it. */
  ghost predicate Expandable(files: Option<seq<ZipFile>>, parse: ZipFile -> Option<Entry>, requested: Limits,
                             fold: string -> string)
  {
    && files.Some? && NormalizeLimits(requested).Ok?
    && Acceptable(files.value, parse, NormalizeLimits(requested).value, fold)
    && BodiesSmooth(Entries(files.value, parse)) && SizesTrue(Entries(files.value, parse))
  }

  /** The same by what the records stand for: the destination is the tree of the entries
      the archive unfolds to, within the limits asked for. */
  ghost predicate UnfoldedTo(files: seq<ZipFile>, entries: seq<Entry>, requested: Limits, fold: string -> string,
                             children: map<string, Child>, destination: string, stats: ExtractStats)
  {
    && Unfolds(files, entries, fold) && Asked(requested, |files|, stats.expandedBytes)
    && Expansion(SortEntries(entries), children, destination, stats.expandedBytes)
    && stats.directories == |DirectoriesOf(entries)|
    && stats.files + stats.directories == |entries|
  }

  ghost predicate Unfolded(files: Option<seq<ZipFile>>, requested: Limits, fold: string -> string,
                           children: map<string, Child>, destination: string, stats: ExtractStats)
  {
    files.Some? && exists entries :: UnfoldedTo(files.value, entries, requested, fold, children, destination, stats)
  }

  /** Nothing is wrong with the archive, by what its records stand for. */
  ghost predicate Flawless(files: Option<seq<ZipFile>>, requested: Limits, fold: string -> string) {
    && files.Some?
    && exists entries ::
      && Unfolds(files.value, entries, fold) && Asked(requested, |files.value|, Expanded(entries))
      && BodiesSmooth(entries) && SizesTrue(entries)
  }

  lemma CommittedMeans(files: Option<seq<ZipFile>>, requested: Limits, fold: string -> string,
                       children: map<string, Child>, destination: string, stats: ExtractStats)
    requires Committed(files, Parse, requested, fold, children, destination, stats)
    ensures Unfolded(files, requested, fold, children, destination, stats)
  {
    var entries := Entries(files.value, Parse);
    UnfoldsExactly(files.value, entries, fold);
    DirectoriesCounted(entries);
    SortedEntries(entries, fold);
    ExpandedPermutes(entries, SortEntries(entries));
    LimitsExactly(requested, |files.value|, stats.expandedBytes);
    assert UnfoldedTo(files.value, entries, requested, fold, children, destination, stats);
  }

  lemma FlawlessExpands(files: Option<seq<ZipFile>>, requested: Limits, fold: string -> string)
    ensures Flawless(files, requested, fold) ==> Expandable(files, Parse, requested, fold)
  {
    if Flawless(files, requested, fold) {
      var entries :|
        && Unfolds(files.value, entries, fold) && Asked(requested, |files.value|, Expanded(entries))
        && BodiesSmooth(entries) && SizesTrue(entries);
      UnfoldsExactly(files.value, entries, fold);
      LimitsExactly(requested, |files.value|, Expanded(entries));
    }
  }

  lemma HoldsFresh()
    ensures Holds(FRESH_STAGING, [], MODE_0700)
  {
  }

  lemma ExpandedTake(entries: seq<Entry>, k: int)
    requires 0 <= k <= |entries|
    ensures Expanded(entries[..k]) <= Expanded(entries)
  {
    assert entries[..k] + entries[k..] == entries;
    ExpandedSplit(entries[..k], entries[k..]);
  }

  lemma BudgetLeft(entries: seq<Entry>, k: int, maxBytes: nat)
    requires 0 <= k < |entries| && Expanded(entries) <= maxBytes
    ensures Expanded(entries[..k + 1]) == Expanded(entries[..k]) + DataSize(entries[k]) <= maxBytes
  {
    ExpandedTake(entries, k + 1);
    ExpandedAppend(entries[..k], entries[k]);
    TakeOneMore(entries, k);
  }

  lemma TakeOneMore(entries: seq<Entry>, k: int)
    requires 0 <= k < |entries|
    ensures entries[..k] + [entries[k]] == entries[..k + 1]
  {
  }

  lemma SizesTrueStep(entries: seq<Entry>, k: int)
    requires 0 <= k < |entries| && SizesTrue(entries[..k])
    requires !entries[k].isDirectory ==> |entries[k].body.content| == entries[k].size
    ensures SizesTrue(entries[..k + 1])
  {
  }

  /** Sorting keeps what the loop needs to know about the entries. */
  lemma SortedForExtraction(entries: seq<Entry>, fold: string -> string)
    requires AllNamed(entries) && SoundEntries(entries, fold)
    ensures Plantable(SortEntries(entries))
    ensures Expanded(SortEntries(entries)) == Expanded(entries)
    ensures SizesTrue(SortEntries(entries)) <==> SizesTrue(entries)
    ensures BodiesSmooth(entries) ==> BodiesSmooth(SortEntries(entries))
  {
    var sorted := SortEntries(entries);
    SortedEntries(entries, fold);
    SortedIsPlantable(entries, fold);
    ExpandedPermutes(entries, sorted);
    SizesTruePermutes(entries, sorted);
    SizesTruePermutes(sorted, entries);
    SameMembers(entries, sorted);
    if BodiesSmooth(entries) {
      forall i | 0 <= i < |sorted| && !sorted[i].isDirectory ensures Smooth(sorted[i].body) {
        assert sorted[i] in entries;
      }
    }
  }

  lemma SizesTruePermutes(a: seq<Entry>, b: seq<Entry>)
    requires multiset(a) == multiset(b)
    ensures SizesTrue(a) ==> SizesTrue(b)
  {
    SameMembers(a, b);
    if SizesTrue(a) {
      forall i | 0 <= i < |b| && !b[i].isDirectory ensures |b[i].body.content| == b[i].size {
        assert b[i] in a;
      }
    }
  }
}
