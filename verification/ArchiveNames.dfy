/** Which archive entry names are accepted, and where an accepted name can land. */
module ArchiveNames {
  import opened Paths
  import opened Wrappers
  import DeviceNames

  /** unicode.IsControl */
  predicate IsControl(ch: char) {
    ch < ' ' || '\U{7F}' <= ch <= '\U{9F}'
  }

  predicate Forbidden(ch: char) {
    ch == '\\' || ch == '\0' || ch == ':' || IsControl(ch)
  }

  /** strings.TrimRight(c, ". ") */
  function TrimRightDots(c: string): string {
    if c != "" && (c[|c| - 1] == '.' || c[|c| - 1] == ' ') then TrimRightDots(c[..|c| - 1])
    else c
  }

  /** strings.TrimSuffix(raw, "/") */
  function TrimSlash(raw: string): string {
    if raw != "" && raw[|raw| - 1] == '/' then raw[..|raw| - 1] else raw
  }

  predicate RefusedComponent(c: string) {
    || c == "" || c == "." || c == ".."
    || c != TrimRightDots(c)
    || DeviceNames.IsWindowsDeviceName(c)
  }

  /** The re-check of the cleaned name at the end of safeArchiveName. */
  predicate CleanGuardFires(name: string) {
    var cleaned := Clean(name);
    cleaned != name || IsAbs(cleaned) || cleaned == ".." || "../" <= cleaned
  }

  /** safeArchiveName: None is ErrUnsafeArchive. `utf8` says whether the raw bytes
      of the name are valid UTF-8. */
  function SafeArchiveName(raw: string, utf8: bool): Option<string> {
    if raw == "" || !utf8 then None
    else if raw[0] == '/' || exists i :: 0 <= i < |raw| && (raw[i] == '\\' || raw[i] == '\0' || raw[i] == ':') then None
    else if exists i :: 0 <= i < |raw| && IsControl(raw[i]) then None
    else
      var name := TrimSlash(raw);
      if name == "" then None
      else
        var components := Split(name);
        if exists i :: 0 <= i < |components| && RefusedComponent(components[i]) then None
        else if CleanGuardFires(name) then None
        else Some(Clean(name))
  }

  // ---- what the checks amount to -------------------------------------------

  /** A component of a portable name, said without reference to the checks. */
  ghost predicate Portable(c: string) {
    && Ordinary(c)
    && c[|c| - 1] != '.' && c[|c| - 1] != ' '
    && !DeviceNames.IsWindowsDeviceName(c)
    && (forall k :: 0 <= k < |c| ==> !Forbidden(c[k]))
  }

  ghost predicate AllPortable(cs: seq<string>) {
    |cs| >= 1 && forall i :: 0 <= i < |cs| ==> Portable(cs[i])
  }

  lemma TrimRightDotsShort(c: string)
    ensures |TrimRightDots(c)| <= |c|
  {
  }

  lemma TrimRightDotsFixed(c: string)
    requires c != ""
    ensures c == TrimRightDots(c) <==> c[|c| - 1] != '.' && c[|c| - 1] != ' '
  {
    if c[|c| - 1] == '.' || c[|c| - 1] == ' ' {
      TrimRightDotsShort(c[..|c| - 1]);
    }
  }

  /** The component checks alone already make path.Clean the identity, so the guard
      that re-checks the cleaned name never fires. */
  lemma CleanGuardNeverFires(name: string)
    requires forall i :: 0 <= i < |Split(name)| ==> !RefusedComponent(Split(name)[i])
    ensures !CleanGuardFires(name)
  {
    var cs := Split(name);
    JoinSplit(name);
    forall i | 0 <= i < |cs| ensures Ordinary(cs[i]) {
      assert !RefusedComponent(cs[i]);
      assert SlashFree(cs[i]);
    }
    CleanFixesOrdinary(cs);
    JoinHead(cs);
    assert '/' !in cs[0];
    if "../" <= name || name == ".." {
      FirstComponentDots(name);
      assert false;
    }
  }

  lemma FirstComponentDots(name: string)
    requires "../" <= name || name == ".."
    ensures Split(name)[0] == ".."
  {
    if name == ".." {
      SplitSlashFree(name);
    } else {
      assert name == ".." + "/" + name[3..];
      SplitConcat("..", name[3..]);
      SplitSlashFree("..");
    }
  }

  lemma {:induction false} CharOfComponent(cs: seq<string>, i: int, k: int)
    requires 0 <= i < |cs| && 0 <= k < |cs[i]|
    ensures cs[i][k] in Join(cs)
  {
    if |cs| == 1 {
    } else {
      var s := cs[0] + "/" + Join(cs[1..]);
      if i == 0 {
        assert s[k] == cs[0][k];
      } else {
        CharOfComponent(cs[1..], i - 1, k);
        var j :| 0 <= j < |Join(cs[1..])| && Join(cs[1..])[j] == cs[i][k];
        assert s[|cs[0]| + 1 + j] == cs[i][k];
      }
    }
  }

  lemma {:induction false} CharsOfJoin(cs: seq<string>, j: int)
    requires 0 <= j < |Join(cs)|
    ensures Join(cs)[j] == '/' || exists i, k :: 0 <= i < |cs| && 0 <= k < |cs[i]| && cs[i][k] == Join(cs)[j]
  {
    if |cs| == 1 {
      assert cs[0][j] == Join(cs)[j];
    } else {
      if j < |cs[0]| {
        assert cs[0][j] == Join(cs)[j];
      } else if j > |cs[0]| {
        CharsOfJoin(cs[1..], j - |cs[0]| - 1);
        var ch := Join(cs)[j];
        if ch != '/' {
          var i, k :| 0 <= i < |cs[1..]| && 0 <= k < |cs[1..][i]| && cs[1..][i][k] == ch;
          assert cs[i + 1][k] == ch;
        }
      }
    }
  }

  /** Accepted names are sequences of portable components. */
  lemma AcceptedIsPortable(raw: string, utf8: bool)
    requires SafeArchiveName(raw, utf8).Some?
    ensures utf8
    ensures AllPortable(Split(SafeArchiveName(raw, utf8).value))
    ensures raw == SafeArchiveName(raw, utf8).value || raw == SafeArchiveName(raw, utf8).value + "/"
  {
    var name := TrimSlash(raw);
    assert SafeArchiveName(raw, utf8).value == name;
    var cs := Split(name);
    JoinSplit(name);
    forall i | 0 <= i < |cs| ensures Portable(cs[i]) {
      assert !RefusedComponent(cs[i]);
      assert SlashFree(cs[i]);
      TrimRightDotsFixed(cs[i]);
      forall k | 0 <= k < |cs[i]| ensures !Forbidden(cs[i][k]) {
        CharOfComponent(cs, i, k);
        var j :| 0 <= j < |name| && name[j] == cs[i][k];
        assert raw[j] == name[j];
      }
    }
  }

  lemma PortableTextAllowed(cs: seq<string>)
    requires AllPortable(cs)
    ensures forall j :: 0 <= j < |Join(cs)| ==> !Forbidden(Join(cs)[j])
  {
  }

  lemma PortableParts(cs: seq<string>)
    requires AllPortable(cs)
    ensures Split(Join(cs)) == cs && Join(cs) != "" && Join(cs)[0] != '/' && !CleanGuardFires(Join(cs))
            && Clean(Join(cs)) == Join(cs)
    ensures forall i :: 0 <= i < |cs| ==> !RefusedComponent(cs[i])
  {
    SplitJoin(cs);
    assert Portable(cs[0]);
    JoinHead(cs);
    assert cs[0][0] in cs[0];
    forall i | 0 <= i < |cs| ensures !RefusedComponent(cs[i]) {
      assert Portable(cs[i]);
      TrimRightDotsFixed(cs[i]);
    }
    CleanGuardNeverFires(Join(cs));
  }

  lemma PortableRaw(cs: seq<string>, slash: bool)
    requires AllPortable(cs)
    ensures var raw := Join(cs) + (if slash then "/" else "");
            TrimSlash(raw) == Join(cs) && forall j :: 0 <= j < |raw| ==> !Forbidden(raw[j])
  {
    PortableTextAllowed(cs);
    forall i | 0 <= i < |cs| ensures Ordinary(cs[i]) {
      assert Portable(cs[i]);
    }
    JoinLastNotSlash(cs);
  }

  lemma PassesChecks(raw: string, name: string)
    requires raw != "" && raw[0] != '/' && TrimSlash(raw) == name && name != "" && !CleanGuardFires(name)
             && Clean(name) == name
    requires forall j :: 0 <= j < |raw| ==> !Forbidden(raw[j])
    requires forall i :: 0 <= i < |Split(name)| ==> !RefusedComponent(Split(name)[i])
    ensures SafeArchiveName(raw, true) == Some(name)
  {
  }

  /** Every sequence of portable components is accepted, with or without the
      trailing slash that marks a directory. */
  lemma PortableIsAccepted(cs: seq<string>, slash: bool)
    requires AllPortable(cs)
    ensures SafeArchiveName(Join(cs) + (if slash then "/" else ""), true) == Some(Join(cs))
  {
    PortableParts(cs);
    PortableRaw(cs, slash);
    PassesChecks(Join(cs) + (if slash then "/" else ""), Join(cs));
  }

  lemma {:induction false} JoinLastNotSlash(cs: seq<string>)
    requires |cs| >= 1 && AllOrdinary(cs)
    ensures Join(cs) != "" && Join(cs)[|Join(cs)| - 1] != '/'
  {
    if |cs| == 1 {
      assert cs[0][|cs[0]| - 1] in cs[0];
    } else {
      JoinLastNotSlash(cs[1..]);
    }
  }

  /** safeArchiveName accepts exactly the names of portable components. */
  lemma SafeArchiveNameIff(raw: string, utf8: bool)
    ensures SafeArchiveName(raw, utf8).Some? <==>
            utf8 && exists cs :: AllPortable(cs) && (raw == Join(cs) || raw == Join(cs) + "/")
  {
    if SafeArchiveName(raw, utf8).Some? {
      AcceptedIsPortable(raw, utf8);
      var name := SafeArchiveName(raw, utf8).value;
      JoinSplit(name);
      assert AllPortable(Split(name));
    }
    if utf8 && exists cs :: AllPortable(cs) && (raw == Join(cs) || raw == Join(cs) + "/") {
      var cs :| AllPortable(cs) && (raw == Join(cs) || raw == Join(cs) + "/");
      PortableIsAccepted(cs, raw != Join(cs));
      assert raw == Join(cs) ==> raw + "" == raw;
    }
  }

  /** What is refused, said of the raw name. */
  ghost predicate HasFlaw(raw: string, utf8: bool) {
    || !utf8 || raw == "" || raw == "/" || raw[0] == '/'
    || (exists i :: 0 <= i < |raw| &&
          (raw[i] == '\\' || raw[i] == ':' || raw[i] < ' ' || '\U{7F}' <= raw[i] <= '\U{9F}'))
    || (exists i :: 0 <= i < |Split(TrimSlash(raw))| && IsAmbiguous(Split(TrimSlash(raw))[i]))
  }

  predicate IsAmbiguous(c: string) {
    || c == "" || c == "." || c == ".." || c[|c| - 1] == '.' || c[|c| - 1] == ' '
    || DeviceNames.IsWindowsDeviceName(c)
  }

  lemma AmbiguousExactly(c: string)
    ensures RefusedComponent(c) <==> IsAmbiguous(c)
  {
    if c != "" {
      TrimRightDotsFixed(c);
    }
  }

  /** A name is refused exactly for one of those flaws. */
  lemma RefusedExactly(raw: string, utf8: bool)
    ensures SafeArchiveName(raw, utf8).None? <==> HasFlaw(raw, utf8)
  {
    forall c ensures RefusedComponent(c) <==> IsAmbiguous(c) {
      AmbiguousExactly(c);
    }
    if (&& raw != "" && TrimSlash(raw) != ""
        && forall i :: 0 <= i < |Split(TrimSlash(raw))| ==> !RefusedComponent(Split(TrimSlash(raw))[i])) {
      CleanGuardNeverFires(TrimSlash(raw));
    }
  }

  // ---- pathWithin ----------------------------------------------------------

  function Parts(s: string): seq<string> {
    Resolve(Split(s), IsAbs(s), [])
  }

  function Ups(n: nat): seq<string> {
    seq(n, _ => "..")
  }

  function RelParts(base: seq<string>, target: seq<string>): Option<seq<string>> {
    if base == [] then Some(target)
    else if target != [] && base[0] == target[0] then RelParts(base[1..], target[1..])
    else if base[0] == ".." then None
    else Some(Ups(|base|) + target)
  }

  /** filepath.Rel on slash paths: None is the error result. */
  function Rel(base: string, target: string): Option<string> {
    if IsAbs(base) != IsAbs(target) then None
    else match RelParts(Parts(base), Parts(target))
      case None => None
      case Some(parts) => Some(Render(false, parts))
  }

  predicate PathWithin(root: string, candidate: string) {
    match Rel(root, candidate)
    case None => false
    case Some(relative) => relative != ".." && !("../" <= relative) && !IsAbs(relative)
  }

  /** filepath.Join(staging, name) */
  function Target(staging: string, name: string): string {
    Clean(staging + "/" + name)
  }

  lemma {:induction false} RootedPartsOrdinary(cs: seq<string>, kept: seq<string>)
    requires forall i :: 0 <= i < |cs| ==> SlashFree(cs[i])
    requires AllOrdinary(kept)
    ensures AllOrdinary(Resolve(cs, true, kept))
    decreases |cs|
  {
    if cs == [] {
    } else {
      if cs[0] == "" || cs[0] == "." {
        RootedPartsOrdinary(cs[1..], kept);
      } else if cs[0] == ".." {
        RootedPartsOrdinary(cs[1..], if kept != [] then kept[..|kept| - 1] else kept);
      } else {
        RootedPartsOrdinary(cs[1..], kept + [cs[0]]);
      }
    }
  }

  lemma PartsOfRooted(parts: seq<string>)
    requires |parts| >= 1 && AllOrdinary(parts)
    ensures Parts("/" + Join(parts)) == parts
  {
    var s := "/" + Join(parts);
    assert s == "" + "/" + Join(parts);
    SplitConcat("", Join(parts));
    SplitJoin(parts);
    assert Split("") == [""];
    ResolveConcat([""], parts, true, []);
    assert [""][1..] == [];
    assert Resolve([""], true, []) == [];
    ResolveOrdinary(parts, true, []);
    assert [] + parts == parts;
  }

  lemma {:induction false} RelOfPrefix(base: seq<string>, below: seq<string>)
    ensures RelParts(base, base + below) == Some(below)
  {
    if base == [] {
      assert base + below == below;
    } else {
      RelOfPrefix(base[1..], below);
      assert (base + below)[1..] == base[1..] + below;
    }
  }

  lemma PartsBelow(staging: string, cs: seq<string>)
    requires IsAbs(staging) && |cs| >= 1 && AllOrdinary(cs)
    ensures Parts(staging + "/" + Join(cs)) == Parts(staging) + cs
    ensures IsAbs(staging + "/" + Join(cs))
  {
    SplitConcat(staging, Join(cs));
    SplitJoin(cs);
    ResolveConcat(Split(staging), cs, true, []);
    ResolveOrdinary(cs, true, Parts(staging));
  }

  lemma TargetParts(staging: string, cs: seq<string>)
    requires IsAbs(staging) && |cs| >= 1 && AllOrdinary(cs)
    ensures Parts(Target(staging, Join(cs))) == Parts(staging) + cs
    ensures IsAbs(Target(staging, Join(cs)))
  {
    PartsBelow(staging, cs);
    RootedPartsOrdinary(Split(staging), []);
    PartsOfRooted(Parts(staging) + cs);
  }

  /** The pathWithin guard of the extraction loop can never fire: an accepted name
      joined to any absolute staging directory stays below it, and relative to it
      is the name itself. */
  lemma AcceptedNameStaysWithin(staging: string, raw: string, utf8: bool)
    requires IsAbs(staging)
    requires SafeArchiveName(raw, utf8).Some?
    ensures var name := SafeArchiveName(raw, utf8).value;
            Rel(staging, Target(staging, name)) == Some(name) && PathWithin(staging, Target(staging, name))
  {
    AcceptedIsPortable(raw, utf8);
    var name := SafeArchiveName(raw, utf8).value;
    var cs := Split(name);
    JoinSplit(name);
    forall i | 0 <= i < |cs| ensures Ordinary(cs[i]) { assert Portable(cs[i]); }
    TargetParts(staging, cs);
    RelOfPrefix(Parts(staging), cs);
    assert Render(false, cs) == name;
    CleanFixesOrdinary(cs);
    JoinHead(cs);
    assert cs[0][0] in cs[0];
    if "../" <= name || name == ".." {
      FirstComponentDots(name);
      assert false;
    }
  }

  lemma {:induction false} RelClimbsExactly(base: seq<string>, target: seq<string>)
    requires AllOrdinary(base) && AllOrdinary(target)
    ensures RelParts(base, target).Some?
    ensures base <= target ==> AllOrdinary(RelParts(base, target).value)
    ensures !(base <= target) ==> |RelParts(base, target).value| >= 1 && RelParts(base, target).value[0] == ".."
  {
    if base == [] {
    } else if target != [] && base[0] == target[0] {
      RelClimbsExactly(base[1..], target[1..]);
      assert base <= target <==> base[1..] <= target[1..];
    } else {
      assert !(base <= target);
    }
  }

  lemma RenderClimbs(parts: seq<string>)
    requires |parts| >= 1 && parts[0] == ".."
    ensures Render(false, parts) == ".." || "../" <= Render(false, parts)
  {
    if |parts| == 1 {
    } else {
      assert Join(parts) == ".." + "/" + Join(parts[1..]);
      assert Join(parts)[..3] == "../";
    }
  }

  lemma RenderStays(parts: seq<string>)
    requires AllOrdinary(parts)
    ensures var s := Render(false, parts);
            s != ".." && !("../" <= s) && !IsAbs(s)
  {
    if parts == [] {
    } else {
      SplitJoin(parts);
      JoinHead(parts);
      assert parts[0][0] in parts[0];
      if "../" <= Join(parts) || Join(parts) == ".." {
        FirstComponentDots(Join(parts));
        assert false;
      }
    }
  }

  /** The guard passes exactly what lies at or below the root. */
  lemma PathWithinExactly(root: string, candidate: string)
    requires IsAbs(root) && IsAbs(candidate)
    ensures PathWithin(root, candidate) <==> Parts(root) <= Parts(candidate)
  {
    RootedPartsOrdinary(Split(root), []);
    RootedPartsOrdinary(Split(candidate), []);
    RelClimbsExactly(Parts(root), Parts(candidate));
    var parts := RelParts(Parts(root), Parts(candidate)).value;
    if Parts(root) <= Parts(candidate) {
      RenderStays(parts);
    } else {
      RenderClimbs(parts);
    }
  }
}
