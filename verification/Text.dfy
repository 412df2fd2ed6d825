/** White space as Go's `strings` package sees it. */
module Text {

  /** unicode.IsSpace */
  predicate IsSpace(ch: char) {
    || '\t' <= ch <= '\r' || ch == ' '
    || ch == '\U{85}' || ch == '\U{A0}' || ch == '\U{1680}'
    || '\U{2000}' <= ch <= '\U{200A}'
    || ch == '\U{2028}' || ch == '\U{2029}' || ch == '\U{202F}' || ch == '\U{205F}' || ch == '\U{3000}'
  }

  function TrimLeft(s: string): (r: string)
    ensures |r| <= |s|
    ensures r == s[|s| - |r|..]
    ensures r != "" ==> !IsSpace(r[0])
  {
    if s != "" && IsSpace(s[0]) then TrimLeft(s[1..]) else s
  }

  function TrimRight(s: string): (r: string)
    ensures r <= s
    ensures r != "" ==> !IsSpace(r[|r| - 1])
  {
    if s != "" && IsSpace(s[|s| - 1]) then TrimRight(s[..|s| - 1]) else s
  }

  /** strings.TrimSpace */
  function TrimSpace(s: string): (r: string)
    ensures |r| <= |s|
    ensures r != "" ==> !IsSpace(r[0]) && !IsSpace(r[|r| - 1])
  {
    TrimRight(TrimLeft(s))
  }

  predicate Trimmed(s: string) {
    s != "" ==> !IsSpace(s[0]) && !IsSpace(s[|s| - 1])
  }

  lemma TrimSpaceKeeps(s: string)
    requires Trimmed(s)
    ensures TrimSpace(s) == s
  {
  }

  lemma {:induction false} TrimRightSolid(s: string)
    requires s != "" && !IsSpace(s[0])
    ensures TrimRight(s) != ""
  {
    if |s| == 1 {
    } else if IsSpace(s[|s| - 1]) {
      TrimRightSolid(s[..|s| - 1]);
    }
  }

  /** Text that starts with something visible does not trim away. */
  lemma TrimSpaceSolid(s: string)
    requires s != "" && !IsSpace(s[0])
    ensures TrimSpace(s) != ""
  {
    TrimRightSolid(s);
  }

  predicate IsBlank(s: string) {
    forall i :: 0 <= i < |s| ==> IsSpace(s[i])
  }

  lemma {:induction false} TrimLeftBlank(s: string)
    ensures IsBlank(s[..|s| - |TrimLeft(s)|])
  {
    if s == "" || !IsSpace(s[0]) {
    } else {
      TrimLeftBlank(s[1..]);
      var n := |s[1..]| - |TrimLeft(s[1..])|;
      assert s[..n + 1] == [s[0]] + s[1..][..n];
    }
  }

  lemma {:induction false} TrimRightBlank(s: string)
    ensures IsBlank(s[|TrimRight(s)|..])
  {
    if s == "" || !IsSpace(s[|s| - 1]) {
    } else {
      var init := s[..|s| - 1];
      TrimRightBlank(init);
      var n := |TrimRight(init)|;
      assert s[n..] == init[n..] + [s[|s| - 1]];
    }
  }

  lemma LeftSplit(s: string)
    ensures s == s[..|s| - |TrimLeft(s)|] + TrimLeft(s)
  {
  }

  lemma RightSplit(s: string)
    ensures s == TrimRight(s) + s[|TrimRight(s)|..]
  {
  }

  lemma Assembled(s: string, left: string, mid: string, core: string, right: string)
    requires s == left + mid && mid == core + right
    ensures s == left + core + right
  {
  }

  /** Trimming takes off white space only. */
  lemma TrimSpaceExactly(s: string) returns (left: string, right: string)
    ensures s == left + TrimSpace(s) + right && IsBlank(left) && IsBlank(right)
  {
    var mid := TrimLeft(s);
    left, right := s[..|s| - |mid|], mid[|TrimRight(mid)|..];
    TrimLeftBlank(s);
    TrimRightBlank(mid);
    LeftSplit(s);
    RightSplit(mid);
    Assembled(s, left, mid, TrimRight(mid), right);
  }
}
