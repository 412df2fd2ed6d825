/** Validation of a whole central directory before anything is written. */
module Archive {
  import opened Paths
  import opened Wrappers
  import opened ArchiveNames
  import opened Copying

  const UINT64_LIMIT: nat := 0x1_0000_0000_0000_0000
  const DEFAULT_MAX_ENTRIES: int := 1_000
  const DEFAULT_MAX_EXPANDED_BYTES: int := 268_435_456

  type uint64 = n: int | 0 <= n < UINT64_LIMIT
  type int64 = n: int | -0x8000_0000_0000_0000 <= n < 0x8000_0000_0000_0000
  type Perm = bv9

  datatype Kind = Regular | Directory | Symlink | Special

  /** One central-directory record: the raw name and whether its bytes are UTF-8,
      the type and permission bits of its mode, the declared size, and what reading
      the member yields. */
  datatype ZipFile = ZipFile(name: string, utf8: bool, kind: Kind, perm: Perm, size: uint64, body: Source)

  datatype Limits = Limits(maxEntries: int64, maxExpandedBytes: int64)

  datatype ArchiveError = NegativeLimits | TooManyEntries | TooLarge | Unsafe

  /** An accepted record. `path` is the name's components. */
  datatype Entry = Entry(name: string, path: seq<string>, isDirectory: bool, perm: Perm, size: uint64, body: Source)

  datatype Stats = Stats(files: nat, directories: nat)

  datatype Inspected = Inspected(entries: seq<Entry>, expectedBytes: uint64, stats: Stats)

  /** normalizeArchiveLimits */
  function NormalizeLimits(limits: Limits): Result<Limits, ArchiveError> {
    if limits.maxEntries < 0 || limits.maxExpandedBytes < 0 then Err(NegativeLimits)
    else Ok(Limits(
              if limits.maxEntries == 0 then DEFAULT_MAX_ENTRIES else limits.maxEntries,
              if limits.maxExpandedBytes == 0 then DEFAULT_MAX_EXPANDED_BYTES else limits.maxExpandedBytes))
  }

  predicate IsDirectory(file: ZipFile) {
    file.kind.Directory? || (file.name != "" && file.name[|file.name| - 1] == '/')
  }

  /** The checks inspectArchive makes of one record on its own. */
  function Parse(file: ZipFile): Option<Entry> {
    ParseAs(file, SafeArchiveName(file.name, file.utf8))
  }

  function ParseAs(file: ZipFile, safe: Option<string>): Option<Entry> {
    match safe
    case None => None
    case Some(name) =>
      if file.kind.Symlink? then None
      else if IsDirectory(file) && file.size != 0 then None
      else if !IsDirectory(file) && !file.kind.Regular? then None
      else Some(Entry(name, Split(name), IsDirectory(file), file.perm, file.size, file.body))
  }

  predicate Named(entry: Entry) {
    |entry.path| >= 1 && AllOrdinary(entry.path) && entry.name == Join(entry.path)
  }

  predicate AllNamed(entries: seq<Entry>) {
    forall i :: 0 <= i < |entries| ==> Named(entries[i])
  }

  lemma ParsedIsNamed(file: ZipFile)
    requires Parse(file).Some?
    ensures Named(Parse(file).value)
    ensures Parse(file).value.isDirectory ==> Parse(file).value.size == 0
  {
    AcceptedIsPortable(file.name, file.utf8);
    var name := SafeArchiveName(file.name, file.utf8).value;
    JoinSplit(name);
    var cs := Split(name);
    forall i | 0 <= i < |cs| ensures Ordinary(cs[i]) { assert Portable(cs[i]); }
  }

  // ---- what a record means ---------------------------------------------------

  predicate EndsInSlash(name: string) {
    name != "" && name[|name| - 1] == '/'
  }

  /** The entry a record stands for: a portable name, a closing slash taken off; a
      directory by its kind or by that slash, without data; otherwise a regular file; and
      the permissions, size and contents of the record. Links stand for nothing. */
  ghost predicate StandsFor(file: ZipFile, entry: Entry) {
    && file.utf8 && AllPortable(entry.path) && entry.name == Join(entry.path)
    && file.name == (if EndsInSlash(file.name) then entry.name + "/" else entry.name)
    && !file.kind.Symlink?
    && (entry.isDirectory <==> file.kind.Directory? || EndsInSlash(file.name))
    && (if entry.isDirectory then file.size == 0 else file.kind.Regular?)
    && entry.perm == file.perm && entry.size == file.size && entry.body == file.body
  }

  lemma PortableOrdinary(path: seq<string>)
    requires AllPortable(path)
    ensures AllOrdinary(path)
  {
    forall i | 0 <= i < |path| ensures Ordinary(path[i]) {
      assert Portable(path[i]);
    }
  }

  lemma StandsForName(file: ZipFile, entry: Entry)
    requires StandsFor(file, entry)
    ensures SafeArchiveName(file.name, file.utf8) == Some(entry.name) && Split(entry.name) == entry.path
  {
    PortableOrdinary(entry.path);
    SplitJoin(entry.path);
    PortableIsAccepted(entry.path, EndsInSlash(file.name));
    assert entry.name + "" == entry.name;
  }

  lemma ParsedName(file: ZipFile)
    requires SafeArchiveName(file.name, file.utf8).Some?
    ensures var name := SafeArchiveName(file.name, file.utf8).value;
            && file.utf8 && AllPortable(Split(name)) && name == Join(Split(name))
            && file.name == (if EndsInSlash(file.name) then name + "/" else name)
  {
    AcceptedIsPortable(file.name, file.utf8);
    var name := SafeArchiveName(file.name, file.utf8).value;
    JoinSplit(name);
    PortableOrdinary(Split(name));
    JoinLastNotSlash(Split(name));
  }

  /** The checks pass exactly the records that stand for something, and read them so. */
  lemma ParseExactly(file: ZipFile, entry: Entry)
    ensures Parse(file) == Some(entry) <==> StandsFor(file, entry)
  {
    if StandsFor(file, entry) {
      StandsForName(file, entry);
      ParseAsExactly(file, entry.name);
    }
    if Parse(file) == Some(entry) {
      ParsedName(file);
      ParseAsExactly(file, SafeArchiveName(file.name, file.utf8).value);
    }
  }

  lemma ParseAsExactly(file: ZipFile, name: string)
    ensures var directory := file.kind.Directory? || EndsInSlash(file.name);
            ParseAs(file, Some(name)) ==
            if file.kind.Symlink? || (if directory then file.size != 0 else !file.kind.Regular?) then None
            else Some(Entry(name, Split(name), directory, file.perm, file.size, file.body))
  {
  }

  ghost predicate AllStandFor(files: seq<ZipFile>, entries: seq<Entry>) {
    |files| == |entries| && forall i :: 0 <= i < |files| ==> StandsFor(files[i], entries[i])
  }

  /** No link, and nothing special but what its name makes a directory. */
  ghost predicate NoLinks(files: seq<ZipFile>) {
    forall i :: 0 <= i < |files| ==>
      !files[i].kind.Symlink? && (files[i].kind.Special? ==> EndsInSlash(files[i].name))
  }

  lemma StandingHaveNoLinks(files: seq<ZipFile>, entries: seq<Entry>)
    requires AllStandFor(files, entries)
    ensures NoLinks(files)
  {
    forall i | 0 <= i < |files|
      ensures !files[i].kind.Symlink? && (files[i].kind.Special? ==> EndsInSlash(files[i].name))
    {
      assert StandsFor(files[i], entries[i]);
    }
  }

  lemma EntriesExactly(files: seq<ZipFile>, entries: seq<Entry>)
    ensures AllStandFor(files, entries) <==> AllParse(files, Parse) && entries == Entries(files, Parse)
  {
    forall i | 0 <= i < |files| && i < |entries|
      ensures Parse(files[i]) == Some(entries[i]) <==> StandsFor(files[i], entries[i])
    {
      ParseExactly(files[i], entries[i]);
    }
    StandingByIndex(files, entries, Parse);
  }

  lemma StandingByIndex(files: seq<ZipFile>, entries: seq<Entry>, parse: ZipFile -> Option<Entry>)
    requires forall i :: 0 <= i < |files| && i < |entries| ==>
               (parse(files[i]) == Some(entries[i]) <==> StandsFor(files[i], entries[i]))
    ensures AllStandFor(files, entries) <==> AllParse(files, parse) && entries == Entries(files, parse)
  {
    if AllStandFor(files, entries) {
      forall i | 0 <= i < |files| ensures parse(files[i]) == Some(entries[i]) {
        assert StandsFor(files[i], entries[i]);
      }
    }
    if AllParse(files, parse) && entries == Entries(files, parse) {
      forall i | 0 <= i < |files| ensures StandsFor(files[i], entries[i]) {
        assert parse(files[i]) == Some(entries[i]);
      }
    }
  }

  // ---- what acceptance means, without regard to order ------------------------

  ghost predicate NoCollisions(entries: seq<Entry>, fold: string -> string) {
    forall i, j :: 0 <= i < j < |entries| ==> fold(entries[i].name) != fold(entries[j].name)
  }

  /** The regular file `parent` stands where `child` needs a directory. */
  predicate Shadows(parent: Entry, child: Entry) {
    !parent.isDirectory && parent.path < child.path
  }

  ghost predicate NoFileParents(entries: seq<Entry>) {
    forall i, j :: 0 <= i < |entries| && 0 <= j < |entries| ==> !Shadows(entries[i], entries[j])
  }

  function DataSize(entry: Entry): nat {
    if entry.isDirectory then 0 else entry.size
  }

  /** The true integer sum of the declared sizes. */
  function Expanded(entries: seq<Entry>): nat {
    if entries == [] then 0 else DataSize(entries[0]) + Expanded(entries[1..])
  }

  ghost predicate SoundEntries(entries: seq<Entry>, fold: string -> string) {
    NoCollisions(entries, fold) && NoFileParents(entries)
  }

  // The per-record checks are a parameter of what follows: the loop over the
  // directory treats them the same whatever they are. inspectArchive uses Parse.

  ghost predicate AllParse(files: seq<ZipFile>, parse: ZipFile -> Option<Entry>) {
    forall i :: 0 <= i < |files| ==> parse(files[i]).Some?
  }

  ghost function Entries(files: seq<ZipFile>, parse: ZipFile -> Option<Entry>): (entries: seq<Entry>)
    requires AllParse(files, parse)
    ensures |entries| == |files|
    ensures forall i :: 0 <= i < |files| ==> parse(files[i]) == Some(entries[i])
  {
    seq(|files|, i requires 0 <= i < |files| => parse(files[i]).value)
  }

  ghost predicate SoundArchive(files: seq<ZipFile>, parse: ZipFile -> Option<Entry>, fold: string -> string) {
    AllParse(files, parse) && SoundEntries(Entries(files, parse), fold)
  }

  /** `fold` stands for strings.ToLower. */
  ghost predicate Acceptable(files: seq<ZipFile>, parse: ZipFile -> Option<Entry>, limits: Limits,
                             fold: string -> string)
  {
    && |files| <= limits.maxEntries
    && SoundArchive(files, parse, fold)
    && Expanded(Entries(files, parse)) <= limits.maxExpandedBytes
  }

  function CountDirectories(entries: seq<Entry>): nat {
    if entries == [] then 0 else (if entries[0].isDirectory then 1 else 0) + CountDirectories(entries[1..])
  }

  // ---- the byte budget -------------------------------------------------------

  function WrapSub(a: uint64, b: uint64): uint64 {
    (a - b) % UINT64_LIMIT
  }

  function WrapAdd(a: uint64, b: uint64): uint64 {
    (a + b) % UINT64_LIMIT
  }

  predicate OverBudget(size: uint64, expected: uint64, max: uint64) {
    size > max || expected > WrapSub(max, size)
  }

  /** The subtraction-form guard refuses exactly when the true sum would pass the
      limit, and when it does not refuse neither operation wraps. */
  lemma BudgetGuardExact(size: uint64, expected: uint64, max: int64)
    requires 0 <= expected <= max
    ensures OverBudget(size, expected, max) <==> expected + size > max
    ensures !OverBudget(size, expected, max) ==> WrapAdd(expected, size) == expected + size <= max
  {
  }

  lemma {:induction false} ExpandedSplit(a: seq<Entry>, b: seq<Entry>)
    ensures Expanded(a + b) == Expanded(a) + Expanded(b)
    ensures CountDirectories(a + b) == CountDirectories(a) + CountDirectories(b)
  {
    if a == [] {
      assert a + b == b;
    } else {
      ExpandedSplit(a[1..], b);
      assert (a + b)[1..] == a[1..] + b;
    }
  }

  lemma ExpandedAppend(entries: seq<Entry>, entry: Entry)
    ensures Expanded(entries + [entry]) == Expanded(entries) + DataSize(entry)
    ensures CountDirectories(entries + [entry]) == CountDirectories(entries) + (if entry.isDirectory then 1 else 0)
  {
    ExpandedSplit(entries, [entry]);
    assert [entry][1..] == [];
  }

  lemma ExpandedPrefix(prefix: seq<Entry>, entries: seq<Entry>)
    requires prefix <= entries
    ensures Expanded(prefix) <= Expanded(entries)
  {
  }

  // ---- the ancestor walk -----------------------------------------------------

  predicate FileAt(types: map<string, bool>, name: string) {
    name in types && !types[name]
  }

  /** One step of the walk. */
  method ParentOf(name: string, ghost cs: seq<string>, ghost k: nat) returns (parent: string)
    requires 1 <= k <= |cs| && AllOrdinary(cs) && name == Join(cs[..k])
    ensures parent == if k == 1 then "." else Join(cs[..k - 1])
  {
    if k == 1 {
      assert cs[..1] == [cs[0]];
      DirOfSingle(cs[0]);
    } else {
      assert cs[..k] == cs[..k - 1] + [cs[k - 1]];
      DirDropsLast(cs[..k - 1], cs[k - 1]);
    }
    return Dir(name);
  }

  lemma PrefixesNotDot(cs: seq<string>)
    requires AllOrdinary(cs)
    ensures forall k :: 1 <= k <= |cs| ==> Join(cs[..k]) != "."
  {
  }

  /** The path.Dir walk of one name: it terminates at "." having looked at exactly
      the proper prefixes of the name. */
  method HasFileAncestor(name: string, ghost cs: seq<string>, types: map<string, bool>) returns (found: bool)
    requires |cs| >= 1 && AllOrdinary(cs) && name == Join(cs)
    ensures found <==> HasFileAbove(cs, types)
  {
    PrefixesNotDot(cs);
    ghost var k := |cs| - 1;
    assert cs[..|cs|] == cs;
    var parent := ParentOf(name, cs, |cs|);
    while parent != "."
      invariant 0 <= k < |cs|
      invariant parent == if k == 0 then "." else Join(cs[..k])
      invariant forall j :: k < j < |cs| ==> !FileAt(types, Join(cs[..j]))
      decreases k
    {
      if FileAt(types, parent) {
        return true;
      }
      parent := ParentOf(parent, cs, k);
      k := k - 1;
    }
    return false;
  }

  /** A map from accepted names to "is a directory", as inspectArchive builds it. */
  ghost predicate TypesOf(types: map<string, bool>, entries: seq<Entry>) {
    && (forall i :: 0 <= i < |entries| ==> entries[i].name in types && types[entries[i].name] == entries[i].isDirectory)
    && (forall name :: name in types ==> exists i :: 0 <= i < |entries| && entries[i].name == name)
  }

  lemma NameOfPrefix(parent: Entry, child: Entry, k: int)
    requires Named(parent) && Named(child) && 1 <= k <= |child.path|
    ensures parent.name == Join(child.path[..k]) <==> parent.path == child.path[..k]
  {
    if parent.name == Join(child.path[..k]) {
      JoinInjective(parent.path, child.path[..k]);
    }
  }

  ghost predicate HasFileAbove(path: seq<string>, types: map<string, bool>) {
    exists k :: 1 <= k < |path| && FileAt(types, Join(path[..k]))
  }

  lemma FoundIsShadow(entries: seq<Entry>, types: map<string, bool>, j: int)
    requires AllNamed(entries) && TypesOf(types, entries) && 0 <= j < |entries|
    requires HasFileAbove(entries[j].path, types)
    ensures !NoFileParents(entries)
  {
    var k :| 1 <= k < |entries[j].path| && FileAt(types, Join(entries[j].path[..k]));
    var i :| 0 <= i < |entries| && entries[i].name == Join(entries[j].path[..k]);
    NameOfPrefix(entries[i], entries[j], k);
    assert Shadows(entries[i], entries[j]);
  }

  lemma ShadowIsAncestor(entries: seq<Entry>, types: map<string, bool>, i: int, j: int)
    requires AllNamed(entries) && TypesOf(types, entries) && 0 <= i < |entries| && 0 <= j < |entries|
    requires Shadows(entries[i], entries[j])
    ensures HasFileAbove(entries[j].path, types)
  {
    var k := |entries[i].path|;
    NameOfPrefix(entries[i], entries[j], k);
    assert FileAt(types, Join(entries[j].path[..k]));
  }

  ghost predicate Unshadowed(entries: seq<Entry>, child: Entry) {
    forall i :: 0 <= i < |entries| ==> !Shadows(entries[i], child)
  }

  method NoneShadowed(entries: seq<Entry>, types: map<string, bool>) returns (ok: bool)
    requires AllNamed(entries) && TypesOf(types, entries)
    ensures ok <==> NoFileParents(entries)
  {
    var pending := types.Keys;
    while pending != {}
      invariant pending <= types.Keys
      invariant forall j :: 0 <= j < |entries| && entries[j].name !in pending ==> Unshadowed(entries, entries[j])
      decreases pending
    {
      var name :| name in pending;
      ghost var j :| 0 <= j < |entries| && entries[j].name == name;
      var found := HasFileAncestor(name, entries[j].path, types);
      if found {
        FoundIsShadow(entries, types, j);
        return false;
      }
      NotFoundIsUnshadowed(entries, types, j);
      pending := pending - {name};
    }
    return true;
  }

  lemma NotFoundIsUnshadowed(entries: seq<Entry>, types: map<string, bool>, j: int)
    requires AllNamed(entries) && TypesOf(types, entries) && 0 <= j < |entries|
    requires !HasFileAbove(entries[j].path, types)
    ensures forall j' :: 0 <= j' < |entries| && entries[j'].name == entries[j].name ==> Unshadowed(entries, entries[j'])
  {
    forall j' | 0 <= j' < |entries| && entries[j'].name == entries[j].name
      ensures Unshadowed(entries, entries[j'])
    {
      JoinInjective(entries[j'].path, entries[j].path);
      forall i | 0 <= i < |entries| ensures !Shadows(entries[i], entries[j']) {
        if Shadows(entries[i], entries[j]) {
          ShadowIsAncestor(entries, types, i, j);
          assert false;
        }
      }
    }
  }

  // ---- inspectArchive --------------------------------------------------------

  ghost predicate FoldedTo(entries: seq<Entry>, fold: string -> string, folded: string) {
    exists i :: 0 <= i < |entries| && fold(entries[i].name) == folded
  }

  /** What the inspection loop carries. */
  datatype Ledger = Ledger(entries: seq<Entry>, caseFolded: map<string, string>, types: map<string, bool>,
                           expected: uint64, stats: Stats)

  /** No two names fold together, and the fold index holds exactly their folds. */
  ghost predicate Indexed(entries: seq<Entry>, fold: string -> string, caseFolded: map<string, string>) {
    && NoCollisions(entries, fold)
    && (forall i :: 0 <= i < |entries| ==> fold(entries[i].name) in caseFolded)
    && (forall f :: f in caseFolded ==> FoldedTo(entries, fold, f))
  }

  ghost predicate Totalled(entries: seq<Entry>, expected: nat, stats: Stats) {
    && expected == Expanded(entries)
    && stats.directories == CountDirectories(entries)
    && stats.files + stats.directories == |entries|
  }

  ghost predicate Progress(ledger: Ledger, fold: string -> string) {
    && Indexed(ledger.entries, fold, ledger.caseFolded)
    && TypesOf(ledger.types, ledger.entries)
    && Totalled(ledger.entries, ledger.expected, ledger.stats)
  }

  function Noted(ledger: Ledger, entry: Entry, folded: string, expected: uint64): Ledger {
    Ledger(ledger.entries + [entry], ledger.caseFolded[folded := entry.name],
           ledger.types[entry.name := entry.isDirectory], expected,
           Stats(ledger.stats.files + (if entry.isDirectory then 0 else 1),
                 ledger.stats.directories + (if entry.isDirectory then 1 else 0)))
  }

  lemma ProgressStep(ledger: Ledger, entry: Entry, fold: string -> string, expected: uint64)
    requires Progress(ledger, fold)
    requires fold(entry.name) !in ledger.caseFolded
    requires expected == ledger.expected + DataSize(entry)
    ensures Progress(Noted(ledger, entry, fold(entry.name), expected), fold)
  {
    var noted := Noted(ledger, entry, fold(entry.name), expected);
    assert Indexed(noted.entries, fold, noted.caseFolded) by {
      IndexedStep(ledger.entries, entry, fold, ledger.caseFolded);
    }
    assert TypesOf(noted.types, noted.entries) by {
      IndexedStep(ledger.entries, entry, fold, ledger.caseFolded);
      TypesStep(ledger.entries, entry, ledger.types, fold);
    }
    assert Totalled(noted.entries, noted.expected, noted.stats) by {
      ExpandedAppend(ledger.entries, entry);
    }
  }

  /** The loop body after the per-record checks: the collision check, then the
      budget. */
  method Admit(ledger: Ledger, entry: Entry, max: int64, fold: string -> string)
    returns (r: Result<Ledger, ArchiveError>)
    requires Progress(ledger, fold) && ledger.expected <= max
    ensures r.Ok? ==> r.value.entries == ledger.entries + [entry] && Progress(r.value, fold) && r.value.expected <= max
    ensures r.Err? ==> r.error == Unsafe || r.error == TooLarge
    ensures r == Err(Unsafe) ==> FoldedTo(ledger.entries, fold, fold(entry.name))
    ensures r == Err(TooLarge) ==> Expanded(ledger.entries) + DataSize(entry) > max
  {
    var folded := fold(entry.name);
    if folded in ledger.caseFolded {
      return Err(Unsafe);
    }
    var expected: uint64 := ledger.expected;
    if !entry.isDirectory {
      BudgetGuardExact(entry.size, expected, max);
      if OverBudget(entry.size, expected, max) {
        return Err(TooLarge);
      }
      expected := WrapAdd(expected, entry.size);
    }
    ProgressStep(ledger, entry, fold, expected);
    return Ok(Noted(ledger, entry, folded, expected));
  }

  lemma IndexedStep(entries: seq<Entry>, entry: Entry, fold: string -> string, caseFolded: map<string, string>)
    requires Indexed(entries, fold, caseFolded) && fold(entry.name) !in caseFolded
    ensures Indexed(entries + [entry], fold, caseFolded[fold(entry.name) := entry.name])
    ensures forall i :: 0 <= i < |entries| ==> fold(entries[i].name) != fold(entry.name)
  {
    var more := entries + [entry];
    forall i, j | 0 <= i < j < |more| ensures fold(more[i].name) != fold(more[j].name) {
      assert more[i] == entries[i];
      assert fold(entries[i].name) in caseFolded;
      if j < |entries| {
        assert more[j] == entries[j];
      }
    }
    forall f | f in caseFolded[fold(entry.name) := entry.name]
      ensures FoldedTo(more, fold, f)
    {
      if f == fold(entry.name) {
        assert more[|entries|] == entry;
      } else {
        var i :| 0 <= i < |entries| && fold(entries[i].name) == f;
        assert more[i] == entries[i];
      }
    }
  }

  lemma TypesStep(entries: seq<Entry>, entry: Entry, types: map<string, bool>, fold: string -> string)
    requires TypesOf(types, entries)
    requires forall i :: 0 <= i < |entries| ==> fold(entries[i].name) != fold(entry.name)
    ensures TypesOf(types[entry.name := entry.isDirectory], entries + [entry])
  {
    var more := entries + [entry];
    var types' := types[entry.name := entry.isDirectory];
    forall i | 0 <= i < |more|
      ensures more[i].name in types' && types'[more[i].name] == more[i].isDirectory
    {
      if i < |entries| {
        assert fold(entries[i].name) != fold(entry.name);
      }
    }
    forall name | name in types' ensures exists i :: 0 <= i < |more| && more[i].name == name {
      if name == entry.name {
        assert more[|entries|] == entry;
      } else {
        var i :| 0 <= i < |entries| && entries[i].name == name;
        assert more[i] == entries[i];
      }
    }
  }

  ghost predicate ParsesNamed(parse: ZipFile -> Option<Entry>) {
    forall file :: parse(file).Some? ==> Named(parse(file).value)
  }

  /** The first `|entries|` records, parsed. */
  ghost predicate ParsedPrefix(files: seq<ZipFile>, parse: ZipFile -> Option<Entry>, entries: seq<Entry>) {
    |entries| <= |files| && forall i :: 0 <= i < |entries| ==> parse(files[i]) == Some(entries[i])
  }

  /** What the inspection's answer says. It accepts exactly the acceptable archives; an
      accepted one comes back as its entries in the archive's own order with the true
      sum of the sizes; and each refusal names a reason that really holds. */
  ghost predicate Verdict(files: seq<ZipFile>, parse: ZipFile -> Option<Entry>, limits: Limits,
                          fold: string -> string, r: Result<Inspected, ArchiveError>)
  {
    && (r.Ok? <==> Acceptable(files, parse, limits, fold))
    && (r.Ok? ==>
          && r.value.entries == Entries(files, parse)
          && AllNamed(r.value.entries)
          && r.value.expectedBytes == Expanded(r.value.entries)
          && r.value.stats.directories == CountDirectories(r.value.entries)
          && r.value.stats.files + r.value.stats.directories == |files|)
    && (r == Err(TooManyEntries) <==> |files| > limits.maxEntries)
    && (r == Err(Unsafe) ==> !SoundArchive(files, parse, fold))
    && (r == Err(TooLarge) ==>
          !AllParse(files, parse) || Expanded(Entries(files, parse)) > limits.maxExpandedBytes)
    && r != Err(NegativeLimits)
  }

  /** The inspection loop. */
  method InspectWith(files: seq<ZipFile>, parse: ZipFile -> Option<Entry>, limits: Limits, fold: string -> string)
    returns (r: Result<Inspected, ArchiveError>)
    requires limits.maxEntries >= 0 && limits.maxExpandedBytes >= 0
    requires ParsesNamed(parse)
    ensures Verdict(files, parse, limits, fold, r)
  {
    if |files| > limits.maxEntries {
      return Err(TooManyEntries);
    }
    var ledger := Ledger([], map[], map[], 0, Stats(0, 0));
    for k := 0 to |files|
      invariant |ledger.entries| == k && ParsedPrefix(files, parse, ledger.entries)
      invariant Progress(ledger, fold)
      invariant ledger.expected <= limits.maxExpandedBytes
    {
      var parsed := parse(files[k]);
      if parsed.None? {
        VerdictUnparsed(files, parse, limits, fold, k);
        return Err(Unsafe);
      }
      var admitted := Admit(ledger, parsed.value, limits.maxExpandedBytes, fold);
      if admitted.Err? {
        VerdictRefused(files, parse, ledger.entries, parsed.value, limits, fold, admitted.error);
        return Err(admitted.error);
      }
      ParsedStep(files, parse, ledger.entries, parsed.value);
      ledger := admitted.value;
    }
    ParsedAreNamed(files, parse, ledger.entries);
    var ok := NoneShadowed(ledger.entries, ledger.types);
    VerdictAtEnd(files, parse, limits, fold, ledger, ok);
    return if ok then Ok(Inspected(ledger.entries, ledger.expected, ledger.stats)) else Err(Unsafe);
  }

  lemma ParsedAreNamed(files: seq<ZipFile>, parse: ZipFile -> Option<Entry>, entries: seq<Entry>)
    requires ParsesNamed(parse) && ParsedPrefix(files, parse, entries)
    ensures AllNamed(entries)
  {
  }

  lemma ParsedStep(files: seq<ZipFile>, parse: ZipFile -> Option<Entry>, entries: seq<Entry>, entry: Entry)
    requires ParsedPrefix(files, parse, entries)
    requires |entries| < |files| && parse(files[|entries|]) == Some(entry)
    ensures ParsedPrefix(files, parse, entries + [entry])
  {
  }

  lemma VerdictUnparsed(files: seq<ZipFile>, parse: ZipFile -> Option<Entry>, limits: Limits,
                        fold: string -> string, k: int)
    requires |files| <= limits.maxEntries
    requires 0 <= k < |files| && parse(files[k]).None?
    ensures Verdict(files, parse, limits, fold, Err(Unsafe))
  {
  }

  lemma VerdictRefused(files: seq<ZipFile>, parse: ZipFile -> Option<Entry>, entries: seq<Entry>, entry: Entry,
                       limits: Limits, fold: string -> string, error: ArchiveError)
    requires |files| <= limits.maxEntries && ParsedPrefix(files, parse, entries)
    requires |entries| < |files| && parse(files[|entries|]) == Some(entry)
    requires error == Unsafe || error == TooLarge
    requires error == Unsafe ==> FoldedTo(entries, fold, fold(entry.name))
    requires error == TooLarge ==> Expanded(entries) + DataSize(entry) > limits.maxExpandedBytes
    ensures Verdict(files, parse, limits, fold, Err(error))
  {
    if error == Unsafe {
      CollisionFound(files, parse, entries, entry, fold);
    } else {
      OverrunFound(files, parse, entries, entry);
    }
  }

  lemma VerdictAtEnd(files: seq<ZipFile>, parse: ZipFile -> Option<Entry>, limits: Limits, fold: string -> string,
                     ledger: Ledger, ok: bool)
    requires |files| <= limits.maxEntries && ParsedPrefix(files, parse, ledger.entries)
    requires |ledger.entries| == |files|
    requires Progress(ledger, fold) && ledger.expected <= limits.maxExpandedBytes && AllNamed(ledger.entries)
    requires ok <==> NoFileParents(ledger.entries)
    ensures Verdict(files, parse, limits, fold,
                    if ok then Ok(Inspected(ledger.entries, ledger.expected, ledger.stats)) else Err(Unsafe))
  {
    assert AllParse(files, parse);
    assert ledger.entries == Entries(files, parse);
  }

  /** The archive stands for these entries, which do not get in each other's way. */
  ghost predicate Unfolds(files: seq<ZipFile>, entries: seq<Entry>, fold: string -> string) {
    AllStandFor(files, entries) && NoLinks(files) && SoundEntries(entries, fold)
  }

  ghost predicate UnfoldsWithin(files: seq<ZipFile>, fold: string -> string, limits: Limits) {
    && |files| <= limits.maxEntries
    && exists entries :: Unfolds(files, entries, fold) && Expanded(entries) <= limits.maxExpandedBytes
  }

  lemma UnfoldsExactly(files: seq<ZipFile>, entries: seq<Entry>, fold: string -> string)
    ensures Unfolds(files, entries, fold) <==> SoundArchive(files, Parse, fold) && entries == Entries(files, Parse)
  {
    EntriesExactly(files, entries);
    if AllStandFor(files, entries) {
      StandingHaveNoLinks(files, entries);
    }
  }

  lemma AcceptableExactly(files: seq<ZipFile>, limits: Limits, fold: string -> string)
    ensures Acceptable(files, Parse, limits, fold) <==> UnfoldsWithin(files, fold, limits)
  {
    if Acceptable(files, Parse, limits, fold) {
      UnfoldsExactly(files, Entries(files, Parse), fold);
    }
    if UnfoldsWithin(files, fold, limits) {
      var entries :| Unfolds(files, entries, fold) && Expanded(entries) <= limits.maxExpandedBytes;
      UnfoldsExactly(files, entries, fold);
    }
  }

  /** inspectArchive */
  method InspectArchive(files: seq<ZipFile>, limits: Limits, fold: string -> string)
    returns (r: Result<Inspected, ArchiveError>)
    requires limits.maxEntries >= 0 && limits.maxExpandedBytes >= 0
    ensures Verdict(files, Parse, limits, fold, r)
    ensures r.Ok? <==> UnfoldsWithin(files, fold, limits)
    ensures r.Ok? ==> Unfolds(files, r.value.entries, fold)
  {
    ParseNames();
    r := InspectWith(files, Parse, limits, fold);
    AcceptableExactly(files, limits, fold);
    if r.Ok? {
      UnfoldsExactly(files, r.value.entries, fold);
    }
  }

  ghost function DirectoriesOf(entries: seq<Entry>): set<int> {
    set i | 0 <= i < |entries| && entries[i].isDirectory
  }

  /** The number of directories is the number of entries that are directories. */
  lemma {:induction false} DirectoriesCounted(entries: seq<Entry>)
    ensures CountDirectories(entries) == |DirectoriesOf(entries)|
  {
    if entries == [] {
      assert DirectoriesOf(entries) == {};
    } else {
      var n := |entries| - 1;
      var before := DirectoriesOf(entries[..n]);
      DirectoriesCounted(entries[..n]);
      assert entries == entries[..n] + [entries[n]];
      ExpandedAppend(entries[..n], entries[n]);
      assert DirectoriesOf(entries) == if entries[n].isDirectory then before + {n} else before;
    }
  }

  /** Limits as a caller means them: none negative, and zero for the default. */
  predicate Asked(requested: Limits, count: nat, bytes: nat) {
    && requested.maxEntries >= 0 && requested.maxExpandedBytes >= 0
    && count <= (if requested.maxEntries == 0 then 1_000 else requested.maxEntries)
    && bytes <= (if requested.maxExpandedBytes == 0 then 268_435_456 else requested.maxExpandedBytes)
  }

  lemma LimitsExactly(requested: Limits, count: nat, bytes: nat)
    ensures Asked(requested, count, bytes) <==>
            && NormalizeLimits(requested).Ok?
            && count <= NormalizeLimits(requested).value.maxEntries
            && bytes <= NormalizeLimits(requested).value.maxExpandedBytes
  {
  }

  lemma ParseNames()
    ensures ParsesNamed(Parse)
  {
    forall file | Parse(file).Some? ensures Named(Parse(file).value) {
      ParsedIsNamed(file);
    }
  }

  lemma CollisionFound(files: seq<ZipFile>, parse: ZipFile -> Option<Entry>, entries: seq<Entry>, entry: Entry,
                       fold: string -> string)
    requires ParsedPrefix(files, parse, entries)
    requires |entries| < |files| && parse(files[|entries|]) == Some(entry)
    requires FoldedTo(entries, fold, fold(entry.name))
    ensures !SoundArchive(files, parse, fold)
  {
  }

  lemma OverrunFound(files: seq<ZipFile>, parse: ZipFile -> Option<Entry>, entries: seq<Entry>, entry: Entry)
    requires ParsedPrefix(files, parse, entries)
    requires |entries| < |files| && parse(files[|entries|]) == Some(entry)
    ensures AllParse(files, parse) ==> Expanded(Entries(files, parse)) >= Expanded(entries) + DataSize(entry)
  {
    if AllParse(files, parse) {
      var all := Entries(files, parse);
      assert entries + [entry] <= all;
      ExpandedAppend(entries, entry);
      ExpandedPrefix(entries + [entry], all);
    }
  }

  // ---- order does not matter -------------------------------------------------

  lemma SameMembers<T>(a: seq<T>, b: seq<T>)
    requires multiset(a) == multiset(b)
    ensures |a| == |b|
    ensures forall x :: x in a <==> x in b
  {
    assert |multiset(a)| == |a| && |multiset(b)| == |b|;
    forall x ensures x in a <==> x in b {
      assert x in a <==> x in multiset(a);
      assert x in b <==> x in multiset(b);
    }
  }

  /** Two equal elements at different places count twice. */
  lemma TwicePresent<T>(s: seq<T>, i: int, j: int)
    requires 0 <= i < j < |s| && s[i] == s[j]
    ensures multiset(s)[s[i]] >= 2
  {
    assert s == s[..j] + s[j..];
    assert s[..j][i] == s[i];
    assert s[j..][0] == s[j];
    assert s[i] in multiset(s[..j]) && s[j] in multiset(s[j..]);
    assert multiset(s) == multiset(s[..j]) + multiset(s[j..]);
  }

  lemma CountedTwice<T>(s: seq<T>, x: T) returns (i: int, j: int)
    requires multiset(s)[x] >= 2
    ensures 0 <= i < j < |s| && s[i] == x && s[j] == x
  {
    assert x in multiset(s);
    i :| 0 <= i < |s| && s[i] == x;
    var rest := s[..i] + s[i + 1..];
    assert s == s[..i] + [x] + s[i + 1..];
    assert multiset(s) == multiset(rest) + multiset{x};
    assert x in multiset(rest);
    var k :| 0 <= k < |rest| && rest[k] == x;
    j := if k < i then k else k + 1;
    assert s[j] == x;
    if j < i {
      i, j := j, i;
    }
  }

  /** The same elements with the first of `a` taken out of both. */
  lemma TakeOut<T>(a: seq<T>, b: seq<T>) returns (i: int)
    requires multiset(a) == multiset(b) && a != []
    ensures 0 <= i < |b| && b[i] == a[0]
    ensures multiset(a[1..]) == multiset(b[..i] + b[i + 1..])
    ensures b == b[..i] + [a[0]] + b[i + 1..]
  {
    SameMembers(a, b);
    assert a[0] in b;
    i :| 0 <= i < |b| && b[i] == a[0];
    assert b == b[..i] + [a[0]] + b[i + 1..];
    assert a == [a[0]] + a[1..];
    assert multiset(a) == multiset{a[0]} + multiset(a[1..]);
    assert multiset(b) == multiset(b[..i]) + multiset{a[0]} + multiset(b[i + 1..]);
    assert multiset(b[..i] + b[i + 1..]) == multiset(b[..i]) + multiset(b[i + 1..]);
    assert multiset(a[1..]) == multiset(a) - multiset{a[0]};
  }

  lemma NoTwins(a: seq<Entry>, fold: string -> string, x: Entry)
    requires NoCollisions(a, fold)
    ensures multiset(a)[x] <= 1
  {
    if multiset(a)[x] >= 2 {
      var u, v := CountedTwice(a, x);
      assert false;
    }
  }

  lemma CollisionsPermute(a: seq<Entry>, b: seq<Entry>, fold: string -> string)
    requires multiset(a) == multiset(b) && NoCollisions(a, fold)
    ensures NoCollisions(b, fold)
  {
    SameMembers(a, b);
    forall i, j | 0 <= i < j < |b| ensures fold(b[i].name) != fold(b[j].name) {
      assert b[i] in a && b[j] in a;
      var x :| 0 <= x < |a| && a[x] == b[i];
      var y :| 0 <= y < |a| && a[y] == b[j];
      if x == y {
        TwicePresent(b, i, j);
        NoTwins(a, fold, b[i]);
        assert false;
      }
      assert x < y ==> fold(a[x].name) != fold(a[y].name);
      assert y < x ==> fold(a[y].name) != fold(a[x].name);
    }
  }

  lemma {:induction false} ExpandedPermutes(a: seq<Entry>, b: seq<Entry>)
    requires multiset(a) == multiset(b)
    ensures Expanded(a) == Expanded(b)
  {
    if a == [] {
      SameMembers(a, b);
    } else {
      var i := TakeOut(a, b);
      ExpandedPermutes(a[1..], b[..i] + b[i + 1..]);
      ExpandedSplit(b[..i] + [a[0]], b[i + 1..]);
      ExpandedAppend(b[..i], a[0]);
      ExpandedSplit(b[..i], b[i + 1..]);
    }
  }

  lemma SoundPermutes(a: seq<Entry>, b: seq<Entry>, fold: string -> string)
    requires multiset(a) == multiset(b) && SoundEntries(a, fold)
    ensures SoundEntries(b, fold)
  {
    SameMembers(a, b);
    CollisionsPermute(a, b, fold);
    forall i, j | 0 <= i < |b| && 0 <= j < |b| ensures !Shadows(b[i], b[j]) {
      assert b[i] in a && b[j] in a;
      var x :| 0 <= x < |a| && a[x] == b[i];
      var y :| 0 <= y < |a| && a[y] == b[j];
      assert !Shadows(a[x], a[y]);
    }
  }

  lemma AllParsePermutes(a: seq<ZipFile>, b: seq<ZipFile>, parse: ZipFile -> Option<Entry>)
    requires multiset(a) == multiset(b) && AllParse(a, parse)
    ensures AllParse(b, parse)
  {
    SameMembers(a, b);
    forall i | 0 <= i < |b| ensures parse(b[i]).Some? {
      assert b[i] in a;
    }
  }

  lemma EntriesWithout(files: seq<ZipFile>, i: int, parse: ZipFile -> Option<Entry>)
    requires AllParse(files, parse) && 0 <= i < |files|
    requires AllParse(files[..i] + files[i + 1..], parse)
    ensures var all := Entries(files, parse);
            && Entries(files[..i] + files[i + 1..], parse) == all[..i] + all[i + 1..]
            && multiset(all) == multiset(all[..i] + all[i + 1..]) + multiset{all[i]}
  {
    var all := Entries(files, parse);
    var rest := files[..i] + files[i + 1..];
    assert forall k :: 0 <= k < i ==> rest[k] == files[k];
    assert forall k :: i <= k < |rest| ==> rest[k] == files[k + 1];
    assert all == all[..i] + [all[i]] + all[i + 1..];
  }

  lemma {:induction false} EntriesPermute(a: seq<ZipFile>, b: seq<ZipFile>, parse: ZipFile -> Option<Entry>)
    requires multiset(a) == multiset(b) && AllParse(a, parse) && AllParse(b, parse)
    ensures multiset(Entries(a, parse)) == multiset(Entries(b, parse))
  {
    if a == [] {
      SameMembers(a, b);
    } else {
      var i := TakeOut(a, b);
      var rest := b[..i] + b[i + 1..];
      EntriesPermute(a[1..], rest, parse);
      var ea, eb := Entries(a, parse), Entries(b, parse);
      assert ea == [ea[0]] + Entries(a[1..], parse);
      EntriesWithout(b, i, parse);
      assert multiset(eb) == multiset(eb[..i] + eb[i + 1..]) + multiset{ea[0]};
    }
  }

  /** Reordering the central directory never changes whether it is accepted. */
  lemma AcceptancePermutes(a: seq<ZipFile>, b: seq<ZipFile>, limits: Limits, fold: string -> string)
    requires multiset(a) == multiset(b) && Acceptable(a, Parse, limits, fold)
    ensures Acceptable(b, Parse, limits, fold)
    ensures multiset(Entries(a, Parse)) == multiset(Entries(b, Parse))
  {
    SameMembers(a, b);
    AllParsePermutes(a, b, Parse);
    EntriesPermute(a, b, Parse);
    ExpandedPermutes(Entries(a, Parse), Entries(b, Parse));
    SoundPermutes(Entries(a, Parse), Entries(b, Parse), fold);
  }
}
