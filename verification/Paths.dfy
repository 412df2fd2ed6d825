/** Slash-separated names as Go's `strings`, `path` and `filepath` packages treat
    them: splitting, joining, lexical cleaning, the parent of a name, and the
    byte order names are sorted in (for valid UTF-8, code-point order). */
module Paths {

  predicate SlashFree(c: string) {
    '/' !in c
  }

  /** A path component that lexical cleaning leaves alone. */
  predicate Ordinary(c: string) {
    c != "" && c != "." && c != ".." && SlashFree(c)
  }

  predicate AllOrdinary(cs: seq<string>) {
    forall i :: 0 <= i < |cs| ==> Ordinary(cs[i])
  }

  /** Puts one more character in front of text that is already split. */
  function SplitStep(head: char, rest: seq<string>): seq<string>
    requires |rest| >= 1
  {
    if head == '/' then [""] + rest else [[head] + rest[0]] + rest[1..]
  }

  lemma SplitStepConcat(head: char, rest: seq<string>, more: seq<string>)
    requires |rest| >= 1
    ensures SplitStep(head, rest + more) == SplitStep(head, rest) + more
  {
    if head == '/' {
      assert [""] + (rest + more) == [""] + rest + more;
    } else {
      assert (rest + more)[1..] == rest[1..] + more;
      assert [[head] + rest[0]] + (rest[1..] + more) == [[head] + rest[0]] + rest[1..] + more;
    }
  }

  /** strings.Split(s, "/") */
  function Split(s: string): (parts: seq<string>)
    ensures |parts| >= 1
    ensures forall i :: 0 <= i < |parts| ==> SlashFree(parts[i])
  {
    if s == "" then [""] else SplitStep(s[0], Split(s[1..]))
  }

  /** strings.Join(cs, "/") */
  function Join(cs: seq<string>): string {
    if |cs| == 0 then ""
    else if |cs| == 1 then cs[0]
    else cs[0] + "/" + Join(cs[1..])
  }

  lemma {:induction false} JoinSplit(s: string)
    ensures Join(Split(s)) == s
  {
    if s == "" {
    } else {
      JoinSplit(s[1..]);
      var rest := Split(s[1..]);
      if s[0] == '/' {
        assert ([""] + rest)[1..] == rest;
      } else {
        var parts := [[s[0]] + rest[0]] + rest[1..];
        assert parts[1..] == rest[1..];
      }
      assert s == [s[0]] + s[1..];
    }
  }

  lemma {:induction false} SplitSlashFree(c: string)
    requires SlashFree(c)
    ensures Split(c) == [c]
  {
    if c == "" {
    } else {
      SplitSlashFree(c[1..]);
      assert c == [c[0]] + c[1..];
      assert [c[1..]][1..] == [];
    }
  }

  lemma {:induction false} SplitConcat(a: string, b: string)
    ensures Split(a + "/" + b) == Split(a) + Split(b)
  {
    var s := a + "/" + b;
    if a == "" {
      assert s[1..] == b;
    } else {
      SplitConcat(a[1..], b);
      assert s[0] == a[0] && s[1..] == a[1..] + "/" + b;
      SplitStepConcat(a[0], Split(a[1..]), Split(b));
    }
  }

  lemma SplitJoinStep(head: string, rest: seq<string>)
    requires SlashFree(head) && Split(Join(rest)) == rest
    ensures Split(head + "/" + Join(rest)) == [head] + rest
  {
    SplitSlashFree(head);
    SplitConcat(head, Join(rest));
  }

  lemma {:induction false} SplitJoin(cs: seq<string>)
    requires |cs| >= 1
    requires forall i :: 0 <= i < |cs| ==> SlashFree(cs[i])
    ensures Split(Join(cs)) == cs
  {
    if |cs| == 1 {
      SplitSlashFree(cs[0]);
      assert cs == [cs[0]];
    } else {
      SplitJoin(cs[1..]);
      SplitJoinStep(cs[0], cs[1..]);
      assert cs == [cs[0]] + cs[1..];
    }
  }

  lemma {:induction false} JoinConcat(a: seq<string>, b: seq<string>)
    requires |a| >= 1 && |b| >= 1
    ensures Join(a + b) == Join(a) + "/" + Join(b)
  {
    if |a| == 1 {
      assert (a + b)[1..] == b;
    } else {
      JoinConcat(a[1..], b);
      assert (a + b)[1..] == a[1..] + b;
    }
  }

  lemma JoinInjective(a: seq<string>, b: seq<string>)
    requires |a| >= 1 && |b| >= 1
    requires forall i :: 0 <= i < |a| ==> SlashFree(a[i])
    requires forall i :: 0 <= i < |b| ==> SlashFree(b[i])
    requires Join(a) == Join(b)
    ensures a == b
  {
    SplitJoin(a);
    SplitJoin(b);
  }

  // ---- path.Clean ----------------------------------------------------------

  /** One pass over the components: empty and "." components vanish, ".." eats the
      component before it, is dropped at a root, and piles up otherwise. */
  function Resolve(cs: seq<string>, rooted: bool, kept: seq<string>): seq<string>
    decreases |cs|
  {
    if cs == [] then kept
    else if cs[0] == "" || cs[0] == "." then Resolve(cs[1..], rooted, kept)
    else if cs[0] == ".." then
      if kept != [] && kept[|kept| - 1] != ".." then
        Resolve(cs[1..], rooted, kept[..|kept| - 1])
      else if rooted then Resolve(cs[1..], rooted, kept)
      else Resolve(cs[1..], rooted, kept + [".."])
    else Resolve(cs[1..], rooted, kept + [cs[0]])
  }

  predicate IsAbs(s: string) {
    s != "" && s[0] == '/'
  }

  function Render(rooted: bool, kept: seq<string>): string {
    if rooted then "/" + Join(kept)
    else if kept == [] then "."
    else Join(kept)
  }

  /** path.Clean */
  function Clean(s: string): string {
    Render(IsAbs(s), Resolve(Split(s), IsAbs(s), []))
  }

  lemma {:induction false} ResolveOrdinary(cs: seq<string>, rooted: bool, kept: seq<string>)
    requires AllOrdinary(cs)
    ensures Resolve(cs, rooted, kept) == kept + cs
    decreases |cs|
  {
    if cs == [] {
    } else {
      ResolveOrdinary(cs[1..], rooted, kept + [cs[0]]);
      assert kept + [cs[0]] + cs[1..] == kept + cs;
    }
  }

  lemma {:induction false} ResolveConcat(a: seq<string>, b: seq<string>, rooted: bool, kept: seq<string>)
    ensures Resolve(a + b, rooted, kept) == Resolve(b, rooted, Resolve(a, rooted, kept))
    decreases |a|
  {
    if a == [] {
      assert a + b == b;
    } else {
      assert (a + b)[1..] == a[1..] + b;
      if a[0] == "" || a[0] == "." {
        ResolveConcat(a[1..], b, rooted, kept);
      } else if a[0] == ".." {
        if kept != [] && kept[|kept| - 1] != ".." {
          ResolveConcat(a[1..], b, rooted, kept[..|kept| - 1]);
        } else if rooted {
          ResolveConcat(a[1..], b, rooted, kept);
        } else {
          ResolveConcat(a[1..], b, rooted, kept + [".."]);
        }
      } else {
        ResolveConcat(a[1..], b, rooted, kept + [a[0]]);
      }
    }
  }

  lemma JoinHead(cs: seq<string>)
    requires |cs| >= 1 && cs[0] != ""
    ensures Join(cs) != "" && Join(cs)[0] == cs[0][0]
  {
  }

  /** A name made of ordinary components is already clean. */
  lemma CleanFixesOrdinary(cs: seq<string>)
    requires |cs| >= 1 && AllOrdinary(cs)
    ensures Clean(Join(cs)) == Join(cs)
  {
    SplitJoin(cs);
    JoinHead(cs);
    ResolveOrdinary(cs, false, []);
    assert [] + cs == cs;
  }

  // ---- path.Dir ------------------------------------------------------------

  /** Everything up to and including the last slash. */
  function DirPart(s: string): string {
    if s == "" then ""
    else if s[|s| - 1] == '/' then s
    else DirPart(s[..|s| - 1])
  }

  /** path.Dir */
  function Dir(s: string): string {
    Clean(DirPart(s))
  }

  lemma {:induction false} DirPartSlashFree(c: string)
    requires SlashFree(c)
    ensures DirPart(c) == ""
  {
    if c == "" {
    } else {
      DirPartSlashFree(c[..|c| - 1]);
    }
  }

  lemma {:induction false} DirPartAfterSlash(a: string, c: string)
    requires SlashFree(c)
    ensures DirPart(a + "/" + c) == a + "/"
  {
    var s := a + "/" + c;
    if c == "" {
      assert s == a + "/";
    } else {
      DirPartAfterSlash(a, c[..|c| - 1]);
      assert s[..|s| - 1] == a + "/" + c[..|c| - 1];
    }
  }

  lemma CleanEmpty()
    ensures Clean("") == "."
  {
  }

  lemma CleanDropsSlash(cs: seq<string>)
    requires |cs| >= 1 && AllOrdinary(cs)
    ensures Clean(Join(cs) + "/") == Join(cs)
  {
    var s := Join(cs) + "/";
    assert s == Join(cs) + "/" + "";
    SplitConcat(Join(cs), "");
    SplitJoin(cs);
    JoinHead(cs);
    ResolveConcat(cs, [""], false, []);
    ResolveOrdinary(cs, false, []);
    assert [] + cs == cs;
    assert Resolve([""], false, cs) == cs by {
      assert [""][1..] == [];
    }
  }

  /** The parent of an ordinary name is the name without its last component. */
  lemma DirDropsLast(init: seq<string>, last: string)
    requires |init| >= 1 && AllOrdinary(init) && Ordinary(last)
    ensures Dir(Join(init + [last])) == Join(init)
  {
    JoinConcat(init, [last]);
    DirPartAfterSlash(Join(init), last);
    CleanDropsSlash(init);
  }

  /** A name of one component has "." for a parent. */
  lemma DirOfSingle(c: string)
    requires Ordinary(c)
    ensures Dir(Join([c])) == "."
  {
    DirPartSlashFree(c);
    CleanEmpty();
  }

  // ---- string order --------------------------------------------------------

  /** The order of Go's `<` on strings. */
  predicate Less(a: string, b: string) {
    b != "" && (a == "" || a[0] < b[0] || (a[0] == b[0] && Less(a[1..], b[1..])))
  }

  lemma {:induction false} LessIrreflexive(a: string)
    ensures !Less(a, a)
  {
    if a == "" {
    } else {
      LessIrreflexive(a[1..]);
    }
  }

  lemma {:induction false} LessTransitive(a: string, b: string, c: string)
    requires Less(a, b) && Less(b, c)
    ensures Less(a, c)
  {
    if a == "" {
    } else if a[0] == b[0] == c[0] {
      LessTransitive(a[1..], b[1..], c[1..]);
    }
  }

  lemma {:induction false} LessTotal(a: string, b: string)
    ensures a == b || Less(a, b) || Less(b, a)
  {
    if a == "" || b == "" {
    } else if a[0] == b[0] {
      LessTotal(a[1..], b[1..]);
      assert a == [a[0]] + a[1..] && b == [b[0]] + b[1..];
    }
  }

  lemma LessAsymmetric(a: string, b: string)
    requires Less(a, b)
    ensures !Less(b, a)
  {
  }

  lemma {:induction false} PrefixLess(a: string, tail: string)
    requires tail != ""
    ensures Less(a, a + tail)
  {
    if a == "" {
    } else {
      PrefixLess(a[1..], tail);
      assert (a + tail)[1..] == a[1..] + tail;
    }
  }

  /** A directory's name sorts before the name of everything inside it. */
  lemma AncestorSortsFirst(dir: seq<string>, cs: seq<string>)
    requires |dir| >= 1 && dir < cs
    ensures Less(Join(dir), Join(cs))
  {
    var below := cs[|dir|..];
    assert cs == dir + below;
    JoinBelow(dir, below);
    PrefixLess(Join(dir), "/" + Join(below));
  }

  lemma JoinBelow(dir: seq<string>, below: seq<string>)
    requires |dir| >= 1 && |below| >= 1
    ensures Join(dir + below) == Join(dir) + ("/" + Join(below))
  {
    JoinConcat(dir, below);
    assert Join(dir) + "/" + Join(below) == Join(dir) + ("/" + Join(below));
  }
}
