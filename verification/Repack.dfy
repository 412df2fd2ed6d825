/** repack and strip: a tarball streamed into a ZIP without its wrapper directory. */
module Repack {
  import opened Paths
  import opened Wrappers
  import opened Copying

  /** strings.Cut at the first slash. */
  function Cut(s: string): Option<(string, string)> {
    if s == "" then None
    else if s[0] == '/' then Some(("", s[1..]))
    else match Cut(s[1..])
      case None => None
      case Some(halves) => Some(([s[0]] + halves.0, halves.1))
  }

  function Slashed(name: string): (r: string)
    ensures |r| == |name|
    ensures forall i :: 0 <= i < |name| ==> r[i] == if name[i] == '\\' then '/' else name[i]
  {
    seq(|name|, i requires 0 <= i < |name| => if name[i] == '\\' then '/' else name[i])
  }

  function Cleaned(name: string): string {
    Clean(Slashed(name))
  }

  /** strip */
  function Strip(name: string): Option<string> {
    match Cut(Cleaned(name))
    case None => None
    case Some((_, rest)) =>
      if rest == "" then None
      else if Climbs(rest) || IsAbs(rest) then None
      else Some(rest)
  }

  /** The directory strip takes off; "" when the cleaned name is absolute. */
  function Wrapper(name: string): string {
    match Cut(Cleaned(name))
    case None => ""
    case Some((wrapper, _)) => wrapper
  }

  // ---- the shape of a cleaned name -------------------------------------------

  /** What lexical cleaning leaves: ".." only in front, and never under a root. */
  ghost predicate Canonical(kept: seq<string>, rooted: bool) {
    && (forall i :: 0 <= i < |kept| ==> kept[i] == ".." || Ordinary(kept[i]))
    && (forall i :: 0 <= i < |kept| && kept[i] == ".." ==> !rooted && (forall j :: 0 <= j < i ==> kept[j] == ".."))
  }

  lemma {:induction false} ResolveCanonical(cs: seq<string>, rooted: bool, kept: seq<string>)
    requires forall i :: 0 <= i < |cs| ==> SlashFree(cs[i])
    requires Canonical(kept, rooted)
    ensures Canonical(Resolve(cs, rooted, kept), rooted)
    decreases |cs|
  {
    if cs == [] {
    } else {
      var n := |kept|;
      if cs[0] == "" || cs[0] == "." {
        ResolveCanonical(cs[1..], rooted, kept);
      } else if cs[0] != ".." {
        ResolveCanonical(cs[1..], rooted, kept + [cs[0]]);
      } else if n > 0 && kept[n - 1] != ".." {
        ResolveCanonical(cs[1..], rooted, kept[..n - 1]);
      } else if rooted {
        ResolveCanonical(cs[1..], rooted, kept);
      } else {
        ResolveCanonical(cs[1..], rooted, kept + [".."]);
      }
    }
  }

  /** The components of a cleaned name. */
  function Kept(name: string): seq<string> {
    Resolve(Split(Slashed(name)), Rooted(name), [])
  }

  predicate Rooted(name: string) {
    IsAbs(Slashed(name))
  }

  lemma KeptCanonical(name: string)
    ensures Canonical(Kept(name), Rooted(name))
  {
    ResolveCanonical(Split(Slashed(name)), Rooted(name), []);
  }

  lemma CleanedRenders(name: string)
    ensures Cleaned(name) == Render(Rooted(name), Kept(name))
  {
  }

  lemma {:induction false} CutAtSlash(a: string, b: string)
    requires SlashFree(a)
    ensures Cut(a + "/" + b) == Some((a, b))
  {
    var s := a + "/" + b;
    if a == "" {
      assert s[1..] == b;
    } else {
      CutAtSlash(a[1..], b);
      assert s[1..] == a[1..] + "/" + b;
      assert [a[0]] + a[1..] == a;
    }
  }

  lemma {:induction false} CutSlashFree(a: string)
    requires SlashFree(a)
    ensures Cut(a) == None
  {
    if a == "" {
    } else {
      CutSlashFree(a[1..]);
    }
  }

  lemma JoinPeel(cs: seq<string>)
    requires |cs| >= 2
    ensures Join(cs) == cs[0] + "/" + Join(cs[1..])
  {
  }

  /** What is left of a cleaned name after the first slash, as components. */
  function Beyond(rooted: bool, kept: seq<string>): seq<string> {
    if rooted then kept else if kept == [] then [] else kept[1..]
  }

  lemma CutOfRender(rooted: bool, kept: seq<string>)
    requires Canonical(kept, rooted)
    ensures var rest := Beyond(rooted, kept);
            Cut(Render(rooted, kept)) ==
            if rooted then Some(("", Join(kept)))
            else if rest == [] then None
            else Some((kept[0], Join(rest)))
  {
    if rooted {
      CutAtSlash("", Join(kept));
      assert "" + "/" + Join(kept) == "/" + Join(kept);
    } else if kept == [] {
      CutSlashFree(".");
    } else if |kept| == 1 {
      CutSlashFree(kept[0]);
    } else {
      JoinPeel(kept);
      CutAtSlash(kept[0], Join(kept[1..]));
    }
  }

  predicate Climbs(s: string) {
    "../" <= s || s == ".."
  }

  lemma ClimbsAfterSlash(head: string, tail: string)
    requires SlashFree(head)
    ensures Climbs(head + "/" + tail) <==> head == ".."
  {
    var s := head + "/" + tail;
    CutAtSlash(head, tail);
    if "../" <= s {
      CutAtSlash("..", s[3..]);
      assert s == ".." + "/" + s[3..];
    }
    CutSlashFree("..");
  }

  lemma ClimbsSlashFree(s: string)
    requires SlashFree(s)
    ensures Climbs(s) <==> s == ".."
  {
    assert "../"[2] == '/';
  }

  /** The "../" and ".." tests look at the first component, and the absolute-path test
      never fires. */
  lemma DotDotTest(rest: seq<string>)
    requires |rest| >= 1 && rest[0] != "" && SlashFree(rest[0])
    ensures Join(rest) != "" && !IsAbs(Join(rest))
    ensures Climbs(Join(rest)) <==> rest[0] == ".."
  {
    JoinHead(rest);
    if |rest| >= 2 {
      JoinPeel(rest);
      ClimbsAfterSlash(rest[0], Join(rest[1..]));
    } else {
      ClimbsSlashFree(rest[0]);
    }
  }

  /** strip in terms of components: the first goes, and what remains is refused only
      when there is nothing or it still climbs. */
  lemma StripExact(name: string)
    ensures var rest := Beyond(Rooted(name), Kept(name));
            Strip(name) == if rest == [] || rest[0] == ".." then None else Some(Join(rest))
    ensures Strip(name).Some? ==> Wrapper(name) == if Rooted(name) then "" else Kept(name)[0]
  {
    var rooted, kept := Rooted(name), Kept(name);
    KeptCanonical(name);
    CleanedRenders(name);
    CutOfRender(rooted, kept);
    var rest := Beyond(rooted, kept);
    if rest != [] {
      DotDotTest(rest);
    }
  }

  lemma RestOrdinary(name: string)
    requires Strip(name).Some?
    ensures var rest := Beyond(Rooted(name), Kept(name));
            |rest| >= 1 && AllOrdinary(rest) && Strip(name) == Some(Join(rest))
  {
    StripExact(name);
    KeptCanonical(name);
    var rooted, kept := Rooted(name), Kept(name);
    var rest := Beyond(rooted, kept);
    forall i | 0 <= i < |rest| ensures Ordinary(rest[i]) {
      if !rooted {
        assert rest[i] == kept[i + 1];
      }
    }
  }

  /** Every accepted name is a non-empty relative name with no "..", "." or empty
      component, and so already clean. */
  lemma StrippedIsSafe(name: string)
    requires Strip(name).Some?
    ensures var stripped := Strip(name).value;
            && stripped != "" && !IsAbs(stripped)
            && AllOrdinary(Split(stripped))
            && Clean(stripped) == stripped
  {
    RestOrdinary(name);
    var rest := Beyond(Rooted(name), Kept(name));
    SplitJoin(rest);
    CleanFixesOrdinary(rest);
    JoinHead(rest);
  }

  lemma RenderOf(rooted: bool, kept: seq<string>, wrapper: string)
    requires Beyond(rooted, kept) != [] && wrapper == (if rooted then "" else kept[0])
    ensures Render(rooted, kept) == wrapper + "/" + Join(Beyond(rooted, kept))
  {
    if rooted {
      assert "" + "/" == "/";
    } else {
      JoinPeel(kept);
    }
  }

  /** A name that is accepted cleans to its wrapper, a slash and what strip leaves. */
  lemma CleanedIsWrapped(name: string)
    requires Strip(name).Some?
    ensures Cleaned(name) == Wrapper(name) + "/" + Strip(name).value
  {
    StripExact(name);
    CleanedRenders(name);
    RenderOf(Rooted(name), Kept(name), Wrapper(name));
  }

  /** Under one wrapper, names that clean differently are stripped differently. */
  lemma StripInjective(a: string, b: string)
    requires Strip(a).Some? && Strip(b).Some? && Wrapper(a) == Wrapper(b)
    requires Strip(a) == Strip(b)
    ensures Cleaned(a) == Cleaned(b)
  {
    CleanedIsWrapped(a);
    CleanedIsWrapped(b);
  }

  lemma SlashedFixes(s: string)
    requires '\\' !in s
    ensures Slashed(s) == s
  {
  }

  lemma KeptWhole(cs: seq<string>)
    requires |cs| >= 1 && cs[0] != "" && (forall i :: 0 <= i < |cs| ==> SlashFree(cs[i]))
    requires '\\' !in Join(cs) && Resolve(cs, false, []) == cs
    ensures !Rooted(Join(cs)) && Kept(Join(cs)) == cs
  {
    SlashedFixes(Join(cs));
    SplitJoin(cs);
    JoinHead(cs);
  }

  /** Every safe name comes back from under any wrapper directory. */
  lemma WrapThenStrip(wrapper: string, path: seq<string>)
    requires Ordinary(wrapper) && |path| >= 1 && AllOrdinary(path)
    requires '\\' !in wrapper && '\\' !in Join(path)
    ensures Strip(wrapper + "/" + Join(path)) == Some(Join(path))
    ensures Wrapper(wrapper + "/" + Join(path)) == wrapper
  {
    var cs := [wrapper] + path;
    assert cs[1..] == path;
    JoinPeel(cs);
    ResolveOrdinary(cs, false, []);
    assert [] + cs == cs;
    KeptWhole(cs);
    StripExact(wrapper + "/" + Join(path));
  }

  // ---- names that escape -----------------------------------------------------

  /** The components of a name as it stands, without leading empty and "." ones. */
  function Lead(cs: seq<string>): (r: seq<string>)
    ensures |r| <= |cs| && (r != [] ==> r[0] != "" && r[0] != ".")
    ensures forall i :: 0 <= i < |r| ==> r[i] in cs
  {
    if cs != [] && (cs[0] == "" || cs[0] == ".") then Lead(cs[1..]) else cs
  }

  function RawParts(name: string): seq<string> {
    Lead(Split(Slashed(name)))
  }

  /** Where the part after the first component leads, seen from inside the directory that
      component names. */
  function Inside(name: string): seq<string> {
    if RawParts(name) == [] then [] else Resolve(RawParts(name)[1..], false, [])
  }

  predicate ClimbsOut(parts: seq<string>) {
    parts != [] && parts[0] == ".."
  }

  /** The name leads out of its wrapper directory: it is absolute, its wrapper is the
      parent directory, or what follows the wrapper climbs. */
  predicate Escapes(name: string) {
    Rooted(name) || ClimbsOut(RawParts(name)) || ClimbsOut(Inside(name))
  }

  /** How many ".." a cleaned sequence starts with. */
  function Ups(parts: seq<string>): nat {
    if ClimbsOut(parts) then 1 + Ups(parts[1..]) else 0
  }

  /** A relative sequence seen from the directory above `head`. */
  function Under(head: string, parts: seq<string>): seq<string> {
    if ClimbsOut(parts) && head != ".." then parts[1..] else [head] + parts
  }

  lemma {:induction false} ResolveLead(cs: seq<string>)
    ensures Resolve(cs, false, []) == Resolve(Lead(cs), false, [])
  {
    if cs == [] {
    } else if cs[0] == "" || cs[0] == "." {
      ResolveLead(cs[1..]);
    }
  }

  lemma UnderGrows(head: string, kept: seq<string>, c: string)
    requires Canonical(kept, false) && (c != ".." || (kept != [] && kept[|kept| - 1] == ".."))
    ensures Under(head, kept + [c]) == Under(head, kept) + [c]
  {
  }

  lemma UnderShrinks(head: string, kept: seq<string>)
    requires Canonical(kept, false) && kept != [] && kept[|kept| - 1] != ".."
    ensures var under := Under(head, kept);
            under != [] && under[|under| - 1] == kept[|kept| - 1]
            && Under(head, kept[..|kept| - 1]) == under[..|under| - 1]
  {
  }

  /** Cleaning below a directory and cleaning the whole agree. */
  lemma {:induction false} ResolveUnder(head: string, cs: seq<string>, kept: seq<string>)
    requires head == ".." || Ordinary(head)
    requires Canonical(kept, false) && forall i :: 0 <= i < |cs| ==> SlashFree(cs[i])
    ensures Resolve(cs, false, Under(head, kept)) == Under(head, Resolve(cs, false, kept))
    decreases |cs|
  {
    if cs == [] {
    } else {
      var n := |kept|;
      if cs[0] == "" || cs[0] == "." {
        ResolveUnder(head, cs[1..], kept);
      } else if cs[0] != ".." {
        UnderGrows(head, kept, cs[0]);
        ResolveUnder(head, cs[1..], kept + [cs[0]]);
      } else if n > 0 && kept[n - 1] != ".." {
        UnderShrinks(head, kept);
        ResolveUnder(head, cs[1..], kept[..n - 1]);
      } else {
        UnderClimbs(head, kept);
        ResolveUnder(head, cs[1..], kept + [".."]);
      }
    }
  }

  lemma UnderClimbs(head: string, kept: seq<string>)
    requires head == ".." || Ordinary(head)
    requires Canonical(kept, false) && (kept == [] || kept[|kept| - 1] == "..")
    ensures var under := Under(head, kept);
            Under(head, kept + [".."]) ==
            if under != [] && under[|under| - 1] != ".." then under[..|under| - 1] else under + [".."]
  {
    if kept == [] {
      assert [head] + [] == [head];
    }
  }

  lemma KeptUnder(name: string)
    requires !Rooted(name) && RawParts(name) != []
    ensures Kept(name) == Under(RawParts(name)[0], Inside(name))
    ensures Canonical(Inside(name), false)
  {
    var parts := RawParts(name);
    ResolveLead(Split(Slashed(name)));
    var tail := parts[1..];
    assert forall i :: 0 <= i < |tail| ==> tail[i] == parts[i + 1] && SlashFree(tail[i]);
    assert SlashFree(parts[0]);
    ResolveUnder(parts[0], tail, []);
    ResolveCanonical(tail, false, []);
    assert Under(parts[0], []) == [parts[0]];
    assert [] + [parts[0]] == [parts[0]];
  }

  lemma KeptNothing(name: string)
    requires !Rooted(name) && RawParts(name) == []
    ensures Kept(name) == []
  {
    ResolveLead(Split(Slashed(name)));
  }

  /** A name that stays inside its wrapper keeps all that follows the wrapper, and is
      refused only when nothing does. */
  lemma InsideIsKept(name: string)
    requires !Escapes(name)
    ensures Strip(name) == if Inside(name) == [] then None else Some(Join(Inside(name)))
  {
    StripExact(name);
    if RawParts(name) == [] {
      KeptNothing(name);
    } else {
      KeptUnder(name);
      assert ([RawParts(name)[0]] + Inside(name))[1..] == Inside(name);
    }
  }

  /** When strip does refuse a name that escapes: an absolute one that names nothing; one
      that climbs at once and has no name next; and one that leaves an ordinary wrapper
      once and names at most one component then, twice and names none, or three times. */
  predicate EscapeRefused(name: string) {
    if Rooted(name) then Kept(name) == []
    else if ClimbsOut(RawParts(name)) then Inside(name) == [] || ClimbsOut(Inside(name))
    else
      var ups := Ups(Inside(name));
      ups >= 3 || (ups == 2 && |Inside(name)| == 2) || (ups == 1 && |Inside(name)| <= 2)
  }

  lemma UpsOf(parts: seq<string>)
    ensures (Ups(parts) >= 1 <==> ClimbsOut(parts)) && (Ups(parts) >= 2 <==> ClimbsOut(parts) && ClimbsOut(parts[1..]))
    ensures Ups(parts) >= 3 <==> ClimbsOut(parts) && ClimbsOut(parts[1..]) && ClimbsOut(parts[2..])
  {
    if ClimbsOut(parts) && ClimbsOut(parts[1..]) {
      assert parts[1..][1..] == parts[2..];
    }
  }

  lemma LeavesWrapper(name: string)
    requires !Rooted(name) && RawParts(name) != [] && RawParts(name)[0] != ".." && ClimbsOut(Inside(name))
    ensures Strip(name).None? <==> EscapeRefused(name)
  {
    var inside := Inside(name);
    StripExact(name);
    KeptUnder(name);
    UpsOf(inside);
    assert Kept(name) == inside[1..];
    if |inside| >= 2 {
      assert inside[1..][1..] == inside[2..];
    }
  }

  /** Of the names that escape, strip refuses exactly those. */
  lemma EscapeRefusedExactly(name: string)
    requires Escapes(name)
    ensures Strip(name).None? <==> EscapeRefused(name)
  {
    StripExact(name);
    if Rooted(name) {
      KeptCanonical(name);
    } else if ClimbsOut(RawParts(name)) {
      KeptUnder(name);
      assert ([".."] + Inside(name))[1..] == Inside(name);
    } else {
      LeavesWrapper(name);
    }
  }

  /** The name the components spell has these components. */
  lemma PartsOf(cs: seq<string>)
    requires |cs| >= 1 && cs[0] != "" && cs[0] != "." && (forall i :: 0 <= i < |cs| ==> SlashFree(cs[i]))
    requires '\\' !in Join(cs)
    ensures !Rooted(Join(cs)) && RawParts(Join(cs)) == cs
    ensures Kept(Join(cs)) == Resolve(cs, false, []) && Inside(Join(cs)) == Resolve(cs[1..], false, [])
  {
    SlashedFixes(Join(cs));
    SplitJoin(cs);
    JoinHead(cs);
  }

  /** An absolute name loses nothing but its slash. */
  lemma AbsoluteIsStripped(path: seq<string>)
    requires |path| >= 1 && AllOrdinary(path) && '\\' !in Join(path)
    ensures Escapes("/" + Join(path)) && Strip("/" + Join(path)) == Some(Join(path))
  {
    var name := "/" + Join(path);
    SlashedFixes(name);
    SplitConcat("", Join(path));
    assert "" + "/" + Join(path) == name;
    SplitJoin(path);
    assert [""] + path == Split(name) && (([""] + path)[1..]) == path;
    ResolveOrdinary(path, true, []);
    assert [] + path == path;
    StripExact(name);
  }

  /** A name that leaves its wrapper for a directory beside it loses that directory. */
  lemma SidewaysIsStripped(wrapper: string, beside: string, path: seq<string>)
    requires Ordinary(wrapper) && Ordinary(beside) && |path| >= 1 && AllOrdinary(path)
    requires '\\' !in Join([wrapper, ".."] + ([beside] + path))
    ensures Escapes(Join([wrapper, ".."] + ([beside] + path)))
    ensures Strip(Join([wrapper, ".."] + ([beside] + path))) == Some(Join(path))
  {
    var rest := [beside] + path;
    assert rest[1..] == path;
    Sideways(wrapper, rest);
    SidewaysParts([wrapper, ".."] + rest, rest);
    StripsFirst(Join([wrapper, ".."] + rest));
  }

  lemma StripsFirst(name: string)
    requires !Rooted(name) && |Kept(name)| >= 2 && Kept(name)[1] != ".."
    ensures Strip(name) == Some(Join(Kept(name)[1..]))
  {
    StripExact(name);
  }

  lemma SidewaysParts(cs: seq<string>, rest: seq<string>)
    requires |cs| >= 1 && Ordinary(cs[0]) && (forall i :: 0 <= i < |cs| ==> SlashFree(cs[i]))
    requires '\\' !in Join(cs) && Resolve(cs, false, []) == rest && ClimbsOut(Resolve(cs[1..], false, []))
    ensures !Rooted(Join(cs)) && Kept(Join(cs)) == rest && ClimbsOut(Inside(Join(cs)))
  {
    PartsOf(cs);
  }

  lemma Sideways(wrapper: string, rest: seq<string>)
    requires Ordinary(wrapper) && AllOrdinary(rest)
    ensures Resolve([wrapper, ".."] + rest, false, []) == rest
    ensures ClimbsOut(Resolve(([wrapper, ".."] + rest)[1..], false, []))
    ensures forall i :: 0 <= i < |rest| + 2 ==> SlashFree(([wrapper, ".."] + rest)[i])
  {
    var cs := [wrapper, ".."] + rest;
    assert cs[1..] == [".."] + rest && cs[1..][1..] == rest;
    assert [] + [wrapper] == [wrapper];
    ResolveOrdinary(rest, false, []);
    assert [] + rest == rest;
    ClimbStays([".."], rest);
  }

  /** Names that only climb, and then name a path. */
  lemma ClimbingOnceIsStripped(ups: seq<string>, path: seq<string>)
    requires |ups| >= 1 && forall i :: 0 <= i < |ups| ==> ups[i] == ".."
    requires |path| >= 1 && AllOrdinary(path) && '\\' !in Join(path)
    ensures Escapes(Join(ups + path))
    ensures Strip(Join(ups + path)) == if |ups| == 1 then Some(Join(path)) else None
  {
    Climb(ups, path);
    ClimbClean(ups, path);
    PartsOf(ups + path);
    StripExact(Join(ups + path));
    assert |ups| == 1 ==> (ups + path)[1..] == path;
  }

  /** Three names that escape and are accepted. */
  lemma EscapesAreAccepted()
    ensures Escapes("/a") && Strip("/a") == Some("a")
    ensures Escapes("../a") && Strip("../a") == Some("a")
    ensures Escapes("w/../v/a") && Strip("w/../v/a") == Some("a")
  {
    assert Join(["a"]) == "a";
    AbsoluteIsStripped(["a"]);
    assert "/a" == "/" + Join(["a"]);
    var up := [".."] + ["a"];
    assert up[1..] == ["a"];
    assert Join(up) == "../a";
    ClimbingOnceIsStripped([".."], ["a"]);
    SidewaysName();
    SidewaysIsStripped("w", "v", ["a"]);
  }

  lemma SidewaysName()
    ensures Join(["w", ".."] + (["v"] + ["a"])) == "w/../v/a"
  {
    var va := ["v"] + ["a"];
    assert va[1..] == ["a"];
    assert Join(va) == "v/a";
    var up := [".."] + va;
    assert up[1..] == va;
    assert Join(up) == "../v/a";
    var side := ["w", ".."] + va;
    assert side[1..] == up;
  }

  lemma {:induction false} ClimbKept(ups: seq<string>, path: seq<string>, kept: seq<string>)
    requires forall i :: 0 <= i < |ups| ==> ups[i] == ".."
    requires forall i :: 0 <= i < |kept| ==> kept[i] == ".."
    requires AllOrdinary(path)
    ensures Resolve(ups + path, false, kept) == kept + ups + path
    decreases |ups|
  {
    if ups == [] {
      assert ups + path == path && kept + ups + path == kept + path;
      ResolveOrdinary(path, false, kept);
    } else {
      assert (ups + path)[1..] == ups[1..] + path;
      ClimbKept(ups[1..], path, kept + [".."]);
      assert kept + [".."] + ups[1..] + path == kept + ups + path;
    }
  }

  lemma ClimbClean(ups: seq<string>, path: seq<string>)
    requires |ups| >= 1 && forall i :: 0 <= i < |ups| ==> ups[i] == ".."
    requires |path| >= 1 && '\\' !in Join(path)
    ensures '\\' !in Join(ups + path)
  {
    JoinConcat(ups, path);
    NoBackslash(ups);
  }

  lemma Climb(ups: seq<string>, path: seq<string>)
    requires |ups| >= 1 && forall i :: 0 <= i < |ups| ==> ups[i] == ".."
    requires |path| >= 1 && AllOrdinary(path) && '\\' !in Join(path)
    ensures !Rooted(Join(ups + path)) && Kept(Join(ups + path)) == ups + path
  {
    ClimbClean(ups, path);
    ClimbStays(ups, path);
    KeptWhole(ups + path);
  }

  lemma ClimbStays(ups: seq<string>, path: seq<string>)
    requires forall i :: 0 <= i < |ups| ==> ups[i] == ".."
    requires AllOrdinary(path)
    ensures Resolve(ups + path, false, []) == ups + path
  {
    ClimbKept(ups, path, []);
    assert [] + ups == ups;
  }

  lemma {:induction false} NoBackslash(ups: seq<string>)
    requires forall i :: 0 <= i < |ups| ==> ups[i] == ".."
    ensures '\\' !in Join(ups)
  {
    if |ups| <= 1 {
    } else {
      NoBackslash(ups[1..]);
    }
  }

  // ---- repack ----------------------------------------------------------------

  /** One tar member, or the point where reading the tarball breaks. The contents are
      `size` bytes unless the tarball breaks inside them. */
  datatype Item = Member(regular: bool, name: string, data: Bytes, whole: bool) | Broken

  datatype RepackError = Unreadable | Unwritable | TooBig

  datatype Repacked = Repacked(name: string, data: Bytes)

  predicate IsKept(item: Item, strip: string -> Option<string>) {
    item.Member? && item.regular && strip(item.name).Some?
  }

  function Rewritten(item: Item, strip: string -> Option<string>): Repacked
    requires IsKept(item, strip)
  {
    Repacked(strip(item.name).value, item.data)
  }

  /** The regular members with an acceptable name, in order, under that name. */
  function Output(items: seq<Item>, strip: string -> Option<string>): seq<Repacked> {
    if items == [] then []
    else
      var n := |items| - 1;
      if IsKept(items[n], strip) then Output(items[..n], strip) + [Rewritten(items[n], strip)]
      else Output(items[..n], strip)
  }

  function Volume(files: seq<Repacked>): nat {
    if files == [] then 0 else Volume(files[..|files| - 1]) + |files[|files| - 1].data|
  }

  /** The tarball reads to its end, and so does every member that is kept. */
  ghost predicate Sound(items: seq<Item>, strip: string -> Option<string>) {
    forall i :: 0 <= i < |items| ==> Readable(items[i], strip)
  }

  predicate Readable(item: Item, strip: string -> Option<string>) {
    item.Member? && (IsKept(item, strip) ==> item.whole)
  }

  /** Where the loop stands after k members. */
  ghost predicate Tally(items: seq<Item>, strip: string -> Option<string>, k: nat, files: seq<Repacked>, written: nat)
  {
    k <= |items| && files == Output(items[..k], strip) && written == Volume(files)
  }

  lemma TallyStep(items: seq<Item>, strip: string -> Option<string>, k: nat, files: seq<Repacked>, written: nat)
    requires k < |items| && Tally(items, strip, k, files, written)
    ensures IsKept(items[k], strip) ==>
              Tally(items, strip, k + 1, files + [Rewritten(items[k], strip)], written + |items[k].data|)
    ensures !IsKept(items[k], strip) ==> Tally(items, strip, k + 1, files, written)
  {
    OutputStep(items, strip, k);
  }

  lemma TallyFits(items: seq<Item>, strip: string -> Option<string>, k: nat, files: seq<Repacked>, written: nat,
                  maxEntries: int, maxBytes: int)
    requires Tally(items, strip, k, files, written)
    ensures Fits(items, strip, maxEntries, maxBytes) ==> |files| <= maxEntries && written <= maxBytes
    ensures k == |items| ==> files == Output(items, strip)
  {
    if Fits(items, strip, maxEntries, maxBytes) {
      FitsPrefix(items, strip, k, maxEntries, maxBytes);
    }
    if k == |items| {
      assert items[..k] == items;
    }
  }

  predicate Fits(items: seq<Item>, strip: string -> Option<string>, maxEntries: int, maxBytes: int) {
    |Output(items, strip)| <= maxEntries && Volume(Output(items, strip)) <= maxBytes
  }

  lemma OutputStep(items: seq<Item>, strip: string -> Option<string>, k: int)
    requires 0 <= k < |items|
    ensures Output(items[..k + 1], strip) ==
            if IsKept(items[k], strip) then Output(items[..k], strip) + [Rewritten(items[k], strip)]
            else Output(items[..k], strip)
    ensures IsKept(items[k], strip) ==>
              Volume(Output(items[..k + 1], strip)) == Volume(Output(items[..k], strip)) + |items[k].data|
  {
    assert items[..k + 1][..k] == items[..k];
    if IsKept(items[k], strip) {
      var files := Output(items[..k], strip);
      assert (files + [Rewritten(items[k], strip)])[..|files|] == files;
    }
  }

  lemma {:induction false} FitsPrefix(items: seq<Item>, strip: string -> Option<string>, k: int, maxEntries: int,
                                      maxBytes: int)
    requires 0 <= k <= |items| && Fits(items, strip, maxEntries, maxBytes)
    ensures Fits(items[..k], strip, maxEntries, maxBytes)
    decreases |items| - k
  {
    if k == |items| {
      assert items[..k] == items;
    } else {
      FitsPrefix(items, strip, k + 1, maxEntries, maxBytes);
      OutputStep(items, strip, k);
    }
  }

  /** What the flaw of a tarball is with one more member. */
  function FlawWith(before: Option<RepackError>, last: Item, kept: bool, fits: bool): Option<RepackError> {
    if before.Some? then before
    else if last.Broken? then Some(Unreadable)
    else if !kept then None
    else if !fits then Some(TooBig)
    else if !last.whole then Some(Unwritable)
    else None
  }

  /** What is wrong with the first member that is wrong, if one is: it cannot be read, it
      goes over a limit, or its contents break off. */
  function Flaw(items: seq<Item>, strip: string -> Option<string>, maxEntries: int, maxBytes: int): Option<RepackError>
  {
    if items == [] then None
    else
      var n := |items| - 1;
      FlawWith(Flaw(items[..n], strip, maxEntries, maxBytes), items[n], IsKept(items[n], strip),
               Fits(items, strip, maxEntries, maxBytes))
  }

  lemma {:induction false} FlawStays(items: seq<Item>, strip: string -> Option<string>, maxEntries: int, maxBytes: int,
                                     k: nat)
    requires k <= |items| && Flaw(items[..k], strip, maxEntries, maxBytes).Some?
    ensures Flaw(items, strip, maxEntries, maxBytes) == Flaw(items[..k], strip, maxEntries, maxBytes)
    decreases |items| - k
  {
    if k == |items| {
      assert items[..k] == items;
    } else {
      assert items[..k + 1][..k] == items[..k];
      FlawStays(items, strip, maxEntries, maxBytes, k + 1);
    }
  }

  lemma FlawFound(items: seq<Item>, strip: string -> Option<string>, maxEntries: int, maxBytes: int, k: nat)
    requires k < |items| && Flaw(items[..k], strip, maxEntries, maxBytes).None?
    ensures Flaw(items[..k + 1], strip, maxEntries, maxBytes) ==
            if items[k].Broken? then Some(Unreadable)
            else if !IsKept(items[k], strip) then None
            else if !Fits(items[..k + 1], strip, maxEntries, maxBytes) then Some(TooBig)
            else if !items[k].whole then Some(Unwritable)
            else None
    ensures Flaw(items[..k + 1], strip, maxEntries, maxBytes).Some? ==>
              Flaw(items, strip, maxEntries, maxBytes) == Flaw(items[..k + 1], strip, maxEntries, maxBytes)
  {
    assert items[..k + 1][..k] == items[..k];
    if Flaw(items[..k + 1], strip, maxEntries, maxBytes).Some? {
      FlawStays(items, strip, maxEntries, maxBytes, k + 1);
    }
  }

  /** Files come in the order of their members. */
  lemma {:induction false} OutputInOrder(a: seq<Item>, b: seq<Item>, strip: string -> Option<string>)
    ensures Output(a + b, strip) == Output(a, strip) + Output(b, strip)
  {
    if b == [] {
      assert a + b == a;
    } else {
      var n := |b| - 1;
      assert (a + b)[..|a| + n] == a + b[..n];
      OutputInOrder(a, b[..n], strip);
    }
  }

  /** repack for any treatment of names. `fails(k)` is whether the k-th write fails. */
  method RepackWith(items: seq<Item>, strip: string -> Option<string>, maxEntries: int, maxBytes: int,
                    fails: nat -> bool)
    returns (r: Result<seq<Repacked>, RepackError>, written: nat)
    requires maxEntries > 0 && maxBytes > 0
    ensures r.Ok? ==>
              && Sound(items, strip) && Fits(items, strip, maxEntries, maxBytes)
              && r.value == Output(items, strip) && written == Volume(r.value)
    ensures r.Err? ==> written == 0
    ensures r == Err(TooBig) ==> !Fits(items, strip, maxEntries, maxBytes)
    ensures (forall k :: !fails(k)) && Sound(items, strip) ==>
              if Fits(items, strip, maxEntries, maxBytes) then r.Ok? else r == Err(TooBig)
    ensures (forall k :: !fails(k)) ==>
              match Flaw(items, strip, maxEntries, maxBytes)
              case None => r.Ok?
              case Some(error) => r == Err(error)
  {
    var files: seq<Repacked> := [];
    written := 0;
    for k := 0 to |items|
      invariant Tally(items, strip, k, files, written) && |files| <= maxEntries && written <= maxBytes
      invariant forall i :: 0 <= i < k ==> Readable(items[i], strip)
      invariant Flaw(items[..k], strip, maxEntries, maxBytes).None?
    {
      var item := items[k];
      FlawFound(items, strip, maxEntries, maxBytes, k);
      TallyStep(items, strip, k, files, written);
      if item.Broken? {
        return Err(Unreadable), 0;
      }
      if !item.regular {
        continue;
      }
      var name := strip(item.name);
      if name.None? {
        continue;
      }
      files := files + [Repacked(name.value, item.data)];
      written := written + |item.data|;
      TallyFits(items, strip, k + 1, files, written, maxEntries, maxBytes);
      if |files| > maxEntries || written > maxBytes {
        return Err(TooBig), 0;
      }
      if fails(2 * k) || !item.whole || fails(2 * k + 1) {
        return Err(Unwritable), 0;
      }
    }
    TallyFits(items, strip, |items|, files, written, maxEntries, maxBytes);
    assert items[..|items|] == items;
    if fails(2 * |items|) {
      return Err(Unwritable), 0;
    }
    return Ok(files), written;
  }

  /** Every member can be read, and every one that is written can be to its end. */
  ghost predicate ReadsThrough(items: seq<Item>) {
    forall i :: 0 <= i < |items| ==>
      items[i].Member? && (items[i].regular && Strip(items[i].name).Some? ==> items[i].whole)
  }

  lemma SoundReadsThrough(items: seq<Item>)
    ensures Sound(items, Strip) <==> ReadsThrough(items)
  {
    forall i | 0 <= i < |items|
      ensures Readable(items[i], Strip) <==>
              items[i].Member? && (items[i].regular && Strip(items[i].name).Some? ==> items[i].whole)
    {
    }
    SoundByItem(items, Strip);
  }

  lemma SoundByItem(items: seq<Item>, strip: string -> Option<string>)
    ensures Sound(items, strip) <==>
            forall i :: 0 <= i < |items| ==>
              items[i].Member? && (items[i].regular && strip(items[i].name).Some? ==> items[i].whole)
  {
  }

  /** repack */
  method Repackage(items: seq<Item>, maxEntries: int, maxBytes: int, fails: nat -> bool)
    returns (r: Result<seq<Repacked>, RepackError>, written: nat)
    requires maxEntries > 0 && maxBytes > 0
    ensures r.Ok? ==>
              && Sound(items, Strip) && Fits(items, Strip, maxEntries, maxBytes)
              && r.value == Output(items, Strip) && written == Volume(r.value)
    ensures r.Err? ==> written == 0
    ensures r == Err(TooBig) ==> !Fits(items, Strip, maxEntries, maxBytes)
    ensures (forall k :: !fails(k)) && Sound(items, Strip) ==>
              if Fits(items, Strip, maxEntries, maxBytes) then r.Ok? else r == Err(TooBig)
    ensures (forall k :: !fails(k)) ==>
              match Flaw(items, Strip, maxEntries, maxBytes)
              case None => r.Ok?
              case Some(error) => r == Err(error)
    ensures r.Ok? ==> ReadsThrough(items) && |r.value| <= maxEntries && Volume(r.value) <= maxBytes
  {
    r, written := RepackWith(items, Strip, maxEntries, maxBytes, fails);
    SoundReadsThrough(items);
  }

  /** The ZIP has the kept members and nothing else. */
  lemma {:induction false} OutputExactly(items: seq<Item>, strip: string -> Option<string>, file: Repacked)
    ensures file in Output(items, strip) <==>
            exists i :: 0 <= i < |items| && IsKept(items[i], strip) && Rewritten(items[i], strip) == file
  {
    if items == [] {
    } else {
      var n := |items| - 1;
      var before := items[..n];
      OutputExactly(before, strip, file);
      if file in Output(before, strip) {
        var i :| 0 <= i < n && IsKept(before[i], strip) && Rewritten(before[i], strip) == file;
        assert IsKept(items[i], strip) && Rewritten(items[i], strip) == file;
      }
      if i :| 0 <= i < |items| && IsKept(items[i], strip) && Rewritten(items[i], strip) == file {
        assert i < n ==> before[i] == items[i];
      }
    }
  }

  /** A file is in the ZIP exactly when a regular member has its contents and is stripped to
      its name. */
  lemma WrittenExactly(items: seq<Item>, name: string, data: Bytes)
    ensures Repacked(name, data) in Output(items, Strip) <==>
            exists i :: 0 <= i < |items| && IsSource(items[i], name, data)
  {
    OutputExactly(items, Strip, Repacked(name, data));
    if i :| 0 <= i < |items| && IsKept(items[i], Strip) && Rewritten(items[i], Strip) == Repacked(name, data) {
      assert IsSource(items[i], name, data);
    }
    if i :| 0 <= i < |items| && IsSource(items[i], name, data) {
      assert IsKept(items[i], Strip) && Rewritten(items[i], Strip) == Repacked(name, data);
    }
  }

  predicate IsSource(item: Item, name: string, data: Bytes) {
    item.Member? && item.regular && Strip(item.name) == Some(name) && item.data == data
  }

  /** The tarball without its directories, links and the like. */
  function RegularOnly(items: seq<Item>): seq<Item> {
    if items == [] then []
    else
      var n := |items| - 1;
      if items[n].Member? && !items[n].regular then RegularOnly(items[..n]) else RegularOnly(items[..n]) + [items[n]]
  }

  lemma {:induction false} OthersDoNotShow(items: seq<Item>, strip: string -> Option<string>)
    ensures Output(RegularOnly(items), strip) == Output(items, strip)
    ensures Sound(RegularOnly(items), strip) <==> Sound(items, strip)
  {
    if items == [] {
    } else {
      var n := |items| - 1;
      var before, last := items[..n], items[n];
      OthersDoNotShow(before, strip);
      assert items == before + [last];
      SoundAppend(before, last, strip);
      if last.Member? && !last.regular {
      } else {
        var rest := RegularOnly(before);
        assert (rest + [last])[..|rest|] == rest;
        SoundAppend(rest, last, strip);
      }
    }
  }

  lemma SoundAppend(items: seq<Item>, item: Item, strip: string -> Option<string>)
    ensures Sound(items + [item], strip) <==> Sound(items, strip) && Readable(item, strip)
  {
    var more := items + [item];
    assert forall i :: 0 <= i < |items| ==> more[i] == items[i];
    assert more[|items|] == item;
  }

  lemma FlawAppend(items: seq<Item>, last: Item, strip: string -> Option<string>, maxEntries: int, maxBytes: int)
    ensures Flaw(items + [last], strip, maxEntries, maxBytes) ==
            FlawWith(Flaw(items, strip, maxEntries, maxBytes), last, IsKept(last, strip),
                     Fits(items + [last], strip, maxEntries, maxBytes))
  {
    assert (items + [last])[..|items|] == items;
  }

  lemma RegularAppend(items: seq<Item>, last: Item)
    ensures RegularOnly(items + [last]) ==
            if last.Member? && !last.regular then RegularOnly(items) else RegularOnly(items) + [last]
  {
    assert (items + [last])[..|items|] == items;
  }

  lemma OthersFit(items: seq<Item>, strip: string -> Option<string>, maxEntries: int, maxBytes: int)
    ensures Fits(RegularOnly(items), strip, maxEntries, maxBytes) <==> Fits(items, strip, maxEntries, maxBytes)
  {
    OthersDoNotShow(items, strip);
  }

  lemma {:induction false} OthersHaveNoFlaw(items: seq<Item>, strip: string -> Option<string>, maxEntries: int,
                                            maxBytes: int)
    ensures Flaw(RegularOnly(items), strip, maxEntries, maxBytes) == Flaw(items, strip, maxEntries, maxBytes)
  {
    if items == [] {
    } else {
      var n := |items| - 1;
      var before, last := items[..n], items[n];
      assert items == before + [last];
      OthersHaveNoFlaw(before, strip, maxEntries, maxBytes);
      OthersFit(items, strip, maxEntries, maxBytes);
      RegularAppend(before, last);
      FlawAppend(before, last, strip, maxEntries, maxBytes);
      FlawAppend(RegularOnly(before), last, strip, maxEntries, maxBytes);
    }
  }

  /** With nothing failing, members that are not regular change neither the ZIP, nor the
      total, nor whether there is one. */
  method RepackageTwice(items: seq<Item>, maxEntries: int, maxBytes: int)
    returns (r: Result<seq<Repacked>, RepackError>, written: nat, again: Result<seq<Repacked>, RepackError>, total: nat)
    requires maxEntries > 0 && maxBytes > 0
    ensures again == r && total == written
  {
    r, written := Repackage(items, maxEntries, maxBytes, k => false);
    again, total := Repackage(RegularOnly(items), maxEntries, maxBytes, k => false);
    OthersDoNotShow(items, Strip);
    OthersHaveNoFlaw(items, Strip, maxEntries, maxBytes);
  }

  /** Members under one wrapper whose names clean to different names. */
  ghost predicate OneWrapper(items: seq<Item>) {
    forall i, j :: 0 <= i < j < |items| && IsKept(items[i], Strip) && IsKept(items[j], Strip) ==>
      Wrapper(items[i].name) == Wrapper(items[j].name) && Cleaned(items[i].name) != Cleaned(items[j].name)
  }

  /** From distinct members under one wrapper, no two files of the ZIP share a name. */
  lemma {:induction false} NoDuplicates(items: seq<Item>)
    requires OneWrapper(items)
    ensures forall i, j :: 0 <= i < j < |Output(items, Strip)| ==>
              Output(items, Strip)[i].name != Output(items, Strip)[j].name
  {
    if items == [] {
    } else {
      var n := |items| - 1;
      var before, last := items[..n], items[n];
      assert OneWrapper(before);
      NoDuplicates(before);
      if IsKept(last, Strip) {
        forall file | file in Output(before, Strip) ensures file.name != Rewritten(last, Strip).name {
          OutputExactly(before, Strip, file);
          var i :| 0 <= i < n && IsKept(before[i], Strip) && Rewritten(before[i], Strip) == file;
          DistinctUnderWrapper(items, i, n);
        }
        forall i | 0 <= i < |Output(before, Strip)|
          ensures Output(before, Strip)[i].name != Rewritten(last, Strip).name
        {
          assert Output(before, Strip)[i] in Output(before, Strip);
        }
      }
    }
  }

  lemma DistinctUnderWrapper(items: seq<Item>, i: int, j: int)
    requires OneWrapper(items) && 0 <= i < j < |items| && IsKept(items[i], Strip) && IsKept(items[j], Strip)
    ensures Strip(items[i].name) != Strip(items[j].name)
  {
    if Strip(items[i].name) == Strip(items[j].name) {
      StripInjective(items[i].name, items[j].name);
      assert false;
    }
  }
}
