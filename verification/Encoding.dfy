/** Which logs the database takes: text columns refuse bytes that are not UTF-8, and NUL,
    and both bounds on logs cut by bytes. */
module Encoding {
  import opened Copying

  predicate IsContinuation(b: byte) {
    0x80 <= b < 0xC0
  }

  predicate Continues(text: Bytes, n: nat) {
    n <= |text| && forall i :: 1 <= i < n ==> IsContinuation(text[i])
  }

  /** The bytes of the first character, as section 4 of RFC 3629 has them, or 0. */
  function CharLength(text: Bytes): (n: nat)
    ensures n <= |text| && (n > 0 ==> !IsContinuation(text[0]) && Continues(text, n))
  {
    if text == [] then 0
    else if text[0] < 0x80 then 1
    else if 0xC2 <= text[0] <= 0xDF && Continues(text, 2) then 2
    else if 0xE0 <= text[0] <= 0xEF && Continues(text, 3) && SecondFits(text[0], text[1]) then 3
    else if 0xF0 <= text[0] <= 0xF4 && Continues(text, 4) && SecondFits(text[0], text[1]) then 4
    else 0
  }

  /** No overlong forms, no surrogates, nothing past the last code point. */
  predicate SecondFits(first: byte, second: byte) {
    && (first == 0xE0 ==> second >= 0xA0) && (first == 0xED ==> second < 0xA0)
    && (first == 0xF0 ==> second >= 0x90) && (first == 0xF4 ==> second < 0x90)
  }

  predicate IsUtf8(text: Bytes)
    decreases |text|
  {
    text == [] || (CharLength(text) > 0 && IsUtf8(text[CharLength(text)..]))
  }

  /** The database takes it. */
  predicate Storable(text: Bytes) {
    IsUtf8(text) && 0 !in text
  }

  /** A place between characters of UTF-8 text. */
  predicate IsBoundary(text: Bytes, k: nat)
    requires k <= |text|
  {
    k == |text| || !IsContinuation(text[k])
  }

  // ---- cutting ---------------------------------------------------------------

  lemma CharLengthKept(a: Bytes, b: Bytes)
    requires CharLength(a) > 0
    ensures CharLength(a + b) == CharLength(a)
  {
  }

  lemma CharLengthCut(text: Bytes, k: nat)
    requires 0 < k < CharLength(text)
    ensures CharLength(text[..k]) == 0
  {
  }

  lemma {:induction false} Utf8Concat(a: Bytes, b: Bytes)
    requires IsUtf8(a)
    ensures IsUtf8(a + b) <==> IsUtf8(b)
    decreases |a|
  {
    if a == [] {
      assert a + b == b;
    } else {
      var n := CharLength(a);
      CharLengthKept(a, b);
      assert (a + b)[n..] == a[n..] + b;
      Utf8Concat(a[n..], b);
    }
  }

  /** The head of UTF-8 text is UTF-8 exactly when the cut falls between characters. */
  lemma {:induction false} HeadExactly(text: Bytes, k: nat)
    requires IsUtf8(text) && k <= |text|
    ensures IsUtf8(text[..k]) <==> IsBoundary(text, k)
    decreases |text|
  {
    if k == 0 {
    } else {
      var n := CharLength(text);
      if k < n {
        CharLengthCut(text, k);
        assert Continues(text, n);
      } else {
        var rest := text[n..];
        HeadExactly(rest, k - n);
        assert text[..k] == text[..n] + rest[..k - n];
        FirstAlone(text);
        Utf8Concat(text[..n], rest[..k - n]);
        assert k < |text| ==> rest[k - n] == text[k];
      }
    }
  }

  lemma FirstAlone(text: Bytes)
    requires CharLength(text) > 0
    ensures IsUtf8(text[..CharLength(text)])
  {
    var first := text[..CharLength(text)];
    assert CharLength(first) == CharLength(text);
    assert first[CharLength(first)..] == [];
  }

  /** So is its tail. */
  lemma TailExactly(text: Bytes, k: nat)
    requires IsUtf8(text) && k <= |text|
    ensures IsUtf8(text[k..]) <==> IsBoundary(text, k)
  {
    HeadExactly(text, k);
    if IsBoundary(text, k) {
      assert text == text[..k] + text[k..];
      Utf8Concat(text[..k], text[k..]);
    }
  }

  // ---- what is shown ---------------------------------------------------------

  /** The bytes of the first character if it is white space, or 0. */
  function SpaceLength(text: Bytes): (n: nat)
    ensures n > 0 ==> n == CharLength(text) && 0 !in text[..n]
  {
    if text != [] && (0x09 <= text[0] <= 0x0D || text[0] == 0x20) then 1
    else if [0xC2, 0x85] <= text || [0xC2, 0xA0] <= text then 2
    else if [0xE1, 0x9A, 0x80] <= text || [0xE2, 0x81, 0x9F] <= text || [0xE3, 0x80, 0x80] <= text then 3
    else if [0xE2, 0x80] <= text && |text| >= 3 && IsWideSpace(text[2]) then 3
    else 0
  }

  /** The last byte of U+2000 to U+200A, U+2028, U+2029 and U+202F. */
  predicate IsWideSpace(b: byte) {
    0x80 <= b <= 0x8A || b == 0xA8 || b == 0xA9 || b == 0xAF
  }

  predicate IsBlank(text: Bytes)
    decreases |text|
  {
    text == [] || (SpaceLength(text) > 0 && IsBlank(text[SpaceLength(text)..]))
  }

  lemma {:induction false} BlankIsStorable(text: Bytes)
    requires IsBlank(text)
    ensures Storable(text)
    decreases |text|
  {
    if text == [] {
    } else {
      var n := SpaceLength(text);
      BlankIsStorable(text[n..]);
      assert text == text[..n] + text[n..];
    }
  }

  /** Trimming takes white space off both ends. */
  predicate TrimsTo(text: Bytes, left: Bytes, trimmed: Bytes, right: Bytes) {
    text == left + trimmed + right && IsBlank(left) && IsBlank(right)
  }

  /** What follows UTF-8 text that starts a character leaves it as it is. */
  lemma BeforeStart(a: Bytes, b: Bytes)
    requires IsUtf8(b) && b != []
    ensures IsUtf8(a + b) <==> IsUtf8(a)
  {
    if IsUtf8(a) {
      Utf8Concat(a, b);
    }
    if IsUtf8(a + b) {
      HeadExactly(a + b, |a|);
      assert (a + b)[..|a|] == a;
    }
  }

  lemma TrimStorable(text: Bytes, left: Bytes, trimmed: Bytes, right: Bytes)
    requires TrimsTo(text, left, trimmed, right)
    ensures Storable(trimmed) <==> Storable(text)
  {
    BlankIsStorable(left);
    BlankIsStorable(right);
    assert text == left + (trimmed + right);
    Utf8Concat(left, trimmed + right);
    if right == [] {
      assert trimmed + right == trimmed;
    } else {
      BeforeStart(trimmed, right);
    }
  }

  /** A newline and "[logs truncated]". */
  const MARKER: Bytes := [10, 91, 108, 111, 103, 115, 32, 116, 114, 117, 110, 99, 97, 116, 101, 100, 93]

  predicate IsAscii(text: Bytes) {
    forall i :: 0 <= i < |text| ==> 0 < text[i] < 0x80
  }

  lemma MarkerIsAscii()
    ensures IsAscii(MARKER) && |MARKER| == 17
  {
  }

  lemma {:induction false} AsciiIsStorable(text: Bytes)
    requires IsAscii(text)
    ensures Storable(text)
  {
    if text == [] {
    } else {
      AsciiIsStorable(text[1..]);
    }
  }

  /** What is shown of a buffer that trims to `trimmed`. */
  function Shown(trimmed: Bytes, truncated: bool): Bytes {
    if !truncated then trimmed else if trimmed == [] then MARKER[1..] else trimmed + MARKER
  }

  lemma AsciiWithTail(text: Bytes)
    requires IsAscii(text) && text != []
    ensures Storable(text) && Storable(text[1..])
  {
    AsciiIsStorable(text);
    AsciiIsStorable(text[1..]);
  }

  lemma EndedStorable(text: Bytes, end: Bytes)
    requires Storable(end) && end != []
    ensures Storable(text + end) <==> Storable(text)
  {
    BeforeStart(text, end);
  }

  lemma ShownStorable(trimmed: Bytes, truncated: bool)
    ensures Storable(Shown(trimmed, truncated)) <==> Storable(trimmed)
  {
    MarkerIsAscii();
    AsciiWithTail(MARKER);
    EndedStorable(trimmed, MARKER);
  }

  function Head(text: Bytes, maximum: nat): Bytes {
    if |text| > maximum then text[..maximum] else text
  }

  /** The database takes what is shown of any output exactly when it takes the head of it. */
  lemma ShownLikeHead(seen: Bytes, maximum: nat, left: Bytes, trimmed: Bytes, right: Bytes)
    requires TrimsTo(Head(seen, maximum), left, trimmed, right)
    ensures Storable(Shown(trimmed, |seen| > maximum)) <==> Storable(Head(seen, maximum))
  {
    TrimStorable(Head(seen, maximum), left, trimmed, right);
    ShownStorable(trimmed, |seen| > maximum);
  }

  /** Of UTF-8 output the row of an execution takes what is shown exactly when the cap does
      not fall inside a character and no NUL comes before it. */
  lemma HeadTakenExactly(seen: Bytes, maximum: nat, left: Bytes, trimmed: Bytes, right: Bytes)
    requires IsUtf8(seen) && TrimsTo(Head(seen, maximum), left, trimmed, right)
    ensures Storable(Shown(trimmed, |seen| > maximum)) <==>
            (|seen| > maximum ==> IsBoundary(seen, maximum)) && 0 !in Head(seen, maximum)
  {
    ShownLikeHead(seen, maximum, left, trimmed, right);
    if |seen| > maximum {
      HeadExactly(seen, maximum);
    }
  }

  function Tail(text: Bytes, maximum: nat): Bytes {
    if |text| > maximum then text[|text| - maximum..] else text
  }

  /** Of UTF-8 output the row of a deployment takes the tail exactly when the cut does not
      fall inside a character and no NUL comes after it. */
  lemma TailTakenExactly(printed: Bytes, maximum: nat)
    requires IsUtf8(printed)
    ensures Storable(Tail(printed, maximum)) <==>
            && (|printed| > maximum ==> IsBoundary(printed, |printed| - maximum))
            && 0 !in Tail(printed, maximum)
  {
    if |printed| > maximum {
      var k := |printed| - maximum;
      TailExactly(printed, k);
      assert Tail(printed, maximum) == printed[k..];
    } else {
      assert Tail(printed, maximum) == printed;
    }
  }

  /** A two-byte character across either bound is enough. */
  lemma SplitIsRefused(text: Bytes, maximum: nat)
    requires IsUtf8(text) && |text| + 1 == maximum
    ensures IsUtf8(text + [0xC3, 0xA9]) && !Storable(Head(text + [0xC3, 0xA9], maximum))
    ensures IsUtf8([0xC3, 0xA9] + text) && !Storable(Tail([0xC3, 0xA9] + text, maximum))
  {
    var e: Bytes := [0xC3, 0xA9];
    assert e[2..] == [] && CharLength(e) == 2;
    Utf8Concat(text, e);
    HeadExactly(text + e, maximum);
    Utf8Concat(e, text);
    TailExactly(e + text, 1);
  }
}
