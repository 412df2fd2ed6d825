/** Identifiers: a timestamp and random bytes as 26 base-32 digits behind a prefix. */
module Ids {
  import opened Wrappers
  import opened Paths
  import opened Copying
  import opened DeviceNames
  import Text

  const CROCKFORD: string := "0123456789ABCDEFGHJKMNPQRSTVWXYZ"
  const DIGITS: nat := 26
  const RANDOM_BYTES: nat := 10
  const MAX_ID_BYTES: nat := 255

  /** Crockford's alphabet: digits and capitals without I, L, O and U. */
  function Digit(d: nat): char
    requires d < 32
  {
    if d < 10 then '0' + d as char
    else if d < 18 then 'A' + (d - 10) as char
    else if d < 20 then 'J' + (d - 18) as char
    else if d < 22 then 'M' + (d - 20) as char
    else if d < 27 then 'P' + (d - 22) as char
    else 'V' + (d - 27) as char
  }

  lemma DigitIsCrockford(d: nat)
    requires d < |CROCKFORD|
    ensures |CROCKFORD| == 32 && CROCKFORD[d] == Digit(d)
  {
  }

  lemma DigitsOrdered(a: nat, b: nat)
    requires a < b < 32
    ensures Digit(a) < Digit(b)
  {
  }

  /** The last n base-32 digits of a number, most significant first. */
  function Encode(value: nat, n: nat): (s: string)
    ensures |s| == n
  {
    if n == 0 then "" else Encode(value / 32, n - 1) + [Digit(value % 32)]
  }

  function Pow32(n: nat): nat {
    if n == 0 then 1 else 32 * Pow32(n - 1)
  }

  // ---- order -----------------------------------------------------------------

  lemma {:induction false} LessExtends(a: string, b: string, x: string, y: string)
    requires |a| == |b| && Less(a, b)
    ensures Less(a + x, b + y)
  {
    assert (a + x)[1..] == a[1..] + x && (b + y)[1..] == b[1..] + y;
    if a[0] < b[0] {
    } else {
      LessExtends(a[1..], b[1..], x, y);
    }
  }

  lemma {:induction false} LessBehind(prefix: string, a: string, b: string)
    ensures Less(prefix + a, prefix + b) <==> Less(a, b)
  {
    if prefix == "" {
      assert prefix + a == a && prefix + b == b;
    } else {
      assert (prefix + a)[1..] == prefix[1..] + a && (prefix + b)[1..] == prefix[1..] + b;
      LessBehind(prefix[1..], a, b);
    }
  }

  lemma {:induction false} EncodeIncreases(a: nat, b: nat, n: nat)
    requires a < b < Pow32(n)
    ensures Less(Encode(a, n), Encode(b, n))
  {
    if a / 32 < b / 32 {
      EncodeIncreases(a / 32, b / 32, n - 1);
      LessExtends(Encode(a / 32, n - 1), Encode(b / 32, n - 1), [Digit(a % 32)], [Digit(b % 32)]);
    } else {
      DigitsOrdered(a % 32, b % 32);
      LessBehind(Encode(a / 32, n - 1), [Digit(a % 32)], [Digit(b % 32)]);
    }
  }

  /** String order is numeric order, and different numbers have different encodings. */
  lemma EncodeOrders(a: nat, b: nat, n: nat)
    requires a < Pow32(n) && b < Pow32(n)
    ensures Less(Encode(a, n), Encode(b, n)) <==> a < b
    ensures Encode(a, n) == Encode(b, n) <==> a == b
  {
    LessIrreflexive(Encode(a, n));
    if a < b {
      EncodeIncreases(a, b, n);
    } else if b < a {
      EncodeIncreases(b, a, n);
      LessAsymmetric(Encode(b, n), Encode(a, n));
    }
  }

  lemma {:induction false} PowSplit(m: nat, n: nat)
    ensures Pow32(m + n) == Pow32(m) * Pow32(n)
  {
    if m == 0 {
    } else {
      PowSplit(m - 1, n);
    }
  }

  const TWO_48: nat := 0x1_0000_0000_0000
  const TWO_80: nat := 0x1_0000_0000_0000_0000_0000
  const TWO_128: nat := 0x1_0000_0000_0000_0000_0000_0000_0000_0000

  /** 26 digits are 130 bits, enough for 128. */
  lemma DigitsSuffice()
    ensures Pow32(DIGITS) == 4 * TWO_128
  {
    assert Pow32(2) == 0x400;
    PowSplit(2, 2);
    assert Pow32(4) == 0x10_0000;
    PowSplit(4, 4);
    assert Pow32(8) == 0x100_0000_0000;
    PowSplit(8, 8);
    assert Pow32(16) == 0x1_0000_0000_0000_0000_0000;
    PowSplit(16, 8);
    PowSplit(24, 2);
  }

  // ---- New -------------------------------------------------------------------

  predicate ValidPrefix(prefix: string) {
    1 <= |prefix| <= 8 && forall i :: 0 <= i < |prefix| ==> 'a' <= prefix[i] <= 'z'
  }

  /** The number a big-endian byte string spells. */
  function BigEndian(bytes: Bytes): nat {
    if bytes == [] then 0 else 256 * BigEndian(bytes[..|bytes| - 1]) + bytes[|bytes| - 1] as nat
  }

  function Pow256(n: nat): nat {
    if n == 0 then 1 else 256 * Pow256(n - 1)
  }

  lemma {:induction false} BigEndianBound(bytes: Bytes)
    ensures BigEndian(bytes) < Pow256(|bytes|)
  {
    if bytes == [] {
    } else {
      BigEndianBound(bytes[..|bytes| - 1]);
    }
  }

  lemma {:induction false} BigEndianConcat(a: Bytes, b: Bytes)
    ensures BigEndian(a + b) == BigEndian(a) * Pow256(|b|) + BigEndian(b)
  {
    if b == [] {
      assert a + b == a;
    } else {
      var init := b[..|b| - 1];
      BigEndianConcat(a, init);
      assert (a + b)[..|a + b| - 1] == a + init;
      Shifted(BigEndian(a), Pow256(|init|), BigEndian(init), b[|b| - 1] as nat);
    }
  }

  lemma Shifted(a: nat, power: nat, init: nat, last: nat)
    ensures 256 * (a * power + init) + last == a * (256 * power) + (256 * init + last)
  {
  }

  lemma PowersOf256()
    ensures Pow256(6) == TWO_48 && Pow256(10) == TWO_80
  {
  }

  /** The number an id stands for: 48 bits of time over 80 of chance. */
  function Stamp(millis: nat, random: Bytes): nat {
    (millis % TWO_48) * TWO_80 + BigEndian(random)
  }

  function ByteAt(millis: nat, place: nat): byte
    requires place > 0
  {
    ((millis / place) % 256) as byte
  }

  function TimeBytes(millis: nat): Bytes {
    [ByteAt(millis, 0x100_0000_0000), ByteAt(millis, 0x1_0000_0000), ByteAt(millis, 0x100_0000),
     ByteAt(millis, 0x1_0000), ByteAt(millis, 0x100), ByteAt(millis, 1)]
  }

  lemma {:induction false} SixBytes(b: Bytes)
    requires |b| == 6
    ensures BigEndian(b) ==
            ((((b[0] as nat * 256 + b[1] as nat) * 256 + b[2] as nat) * 256 + b[3] as nat) * 256
             + b[4] as nat) * 256 + b[5] as nat
  {
    assert b[..5][..4] == b[..4] && b[..4][..3] == b[..3] && b[..3][..2] == b[..2] && b[..2][..1] == b[..1];
    assert b[..1][..0] == [];
    assert BigEndian(b[..1]) == b[0] as nat;
    assert BigEndian(b[..2]) == 256 * BigEndian(b[..1]) + b[1] as nat;
    assert BigEndian(b[..3]) == 256 * BigEndian(b[..2]) + b[2] as nat;
    assert BigEndian(b[..4]) == 256 * BigEndian(b[..3]) + b[3] as nat;
    assert BigEndian(b[..5]) == 256 * BigEndian(b[..4]) + b[4] as nat;
  }

  /** Dividing by 256 once more each time is dividing by the place. */
  lemma Places(m: nat)
    ensures m / 0x1_0000 == m / 0x100 / 256
    ensures m / 0x100_0000 == m / 0x1_0000 / 256
    ensures m / 0x1_0000_0000 == m / 0x100_0000 / 256
    ensures m / 0x100_0000_0000 == m / 0x1_0000_0000 / 256
    ensures m / TWO_48 == m / 0x100_0000_0000 / 256
  {
  }

  /** The six time bytes spell the time, as far as 48 bits go. */
  lemma TimeBytesSpell(millis: nat)
    ensures BigEndian(TimeBytes(millis)) == millis % TWO_48
  {
    SixBytes(TimeBytes(millis));
    Places(millis);
  }

  /** The number in an id fits its digits. */
  lemma StampBound(millis: nat, random: Bytes)
    requires |random| == RANDOM_BYTES
    ensures Stamp(millis, random) < TWO_128 < Pow32(DIGITS)
  {
    PowersOf256();
    BigEndianBound(random);
    DigitsSuffice();
  }

  lemma RawSpells(millis: nat, random: Bytes)
    requires |random| == RANDOM_BYTES
    ensures BigEndian(TimeBytes(millis) + random) == Stamp(millis, random)
  {
    BigEndianConcat(TimeBytes(millis), random);
    TimeBytesSpell(millis);
    PowersOf256();
  }

  /** The digit loop. Dividing the number away digit by digit leaves nothing over. */
  method EncodeDigits(number: nat) returns (encoded: array<char>, rest: nat)
    requires number < Pow32(DIGITS)
    ensures fresh(encoded) && encoded.Length == DIGITS
    ensures encoded[..] == Encode(number, DIGITS) && rest == 0
  {
    encoded := new char[DIGITS];
    rest := number;
    var index := DIGITS;
    assert encoded[DIGITS..] == [];
    assert Encode(number, DIGITS) + [] == Encode(number, DIGITS);
    while index > 0
      invariant 0 <= index <= DIGITS && rest < Pow32(index)
      invariant Encode(number, DIGITS) == Encode(rest, index) + encoded[index..]
    {
      index := index - 1;
      var remainder := rest % 32;
      DigitIsCrockford(remainder);
      ghost var done := encoded[index + 1..];
      encoded[index] := CROCKFORD[remainder];
      assert encoded[index..] == [Digit(remainder)] + done;
      assert Encode(rest, index + 1) + done == Encode(rest / 32, index) + encoded[index..];
      rest := rest / 32;
    }
    assert encoded[0..] == encoded[..];
    assert Encode(rest, 0) + encoded[0..] == encoded[0..];
  }

  /** New, at a time and with ten bytes of chance, if there are any to be had. */
  method New(prefix: string, millis: nat, random: Option<Bytes>) returns (r: Option<string>)
    requires random.Some? ==> |random.value| == RANDOM_BYTES
    ensures r == if ValidPrefix(prefix) && random.Some? then Some(IdOf(prefix, millis, random.value)) else None
  {
    if prefix == "" || |prefix| > 8 {
      return None;
    }
    for i := 0 to |prefix|
      invariant forall j :: 0 <= j < i ==> 'a' <= prefix[j] <= 'z'
    {
      if prefix[i] < 'a' || prefix[i] > 'z' {
        return None;
      }
    }
    if random.None? {
      return None;
    }
    var raw := TimeBytes(millis) + random.value;
    RawSpells(millis, random.value);
    StampBound(millis, random.value);
    var encoded, _ := EncodeDigits(BigEndian(raw));
    return Some(prefix + "_" + encoded[..]);
  }

  lemma DivideTwice(a: nat, p: nat)
    requires p > 0
    ensures a / 32 / p == a / (32 * p)
  {
    var q, r := a / 32, a % 32;
    var t, u := q / p, q % p;
    assert a == 32 * (p * t + u) + r;
    assert a == (32 * p) * t + (32 * u + r);
    assert 32 * u + r < 32 * p;
    QuotientIs(a, 32 * p, t, 32 * u + r);
  }

  lemma QuotientIs(a: nat, d: nat, t: nat, r: nat)
    requires d > 0 && a == d * t + r && r < d
    ensures a / d == t
  {
    var q, m := a / d, a % d;
    assert a == d * q + m;
    Distribute(d, q, t);
    OnlyZero(d, q - t);
  }

  lemma Distribute(d: int, q: int, t: int)
    ensures d * (q - t) == d * q - d * t
  {
  }

  lemma OnlyZero(d: int, k: int)
    requires -d < d * k < d
    ensures k == 0
  {
    if k > 0 {
      AtLeast(d, k);
    } else if k < 0 {
      Distribute(d, 0, k);
      AtLeast(d, 0 - k);
    }
  }

  lemma AtLeast(d: nat, k: nat)
    requires k > 0
    ensures d * k >= d
  {
    Distribute(d, k, 1);
    Product(d, k - 1);
  }

  lemma Product(a: nat, b: nat)
    ensures a * b >= 0
  {
  }

  lemma {:induction false} PowPositive(n: nat)
    ensures Pow32(n) > 0
  {
    if n == 0 {
    } else {
      PowPositive(n - 1);
    }
  }

  /** Every digit of an encoding is the alphabet's character of its place. */
  lemma {:induction false} EncodeAt(value: nat, n: nat, i: nat)
    requires i < n
    ensures Pow32(n - 1 - i) > 0 && |CROCKFORD| == 32
    ensures Encode(value, n)[i] == CROCKFORD[(value / Pow32(n - 1 - i)) % 32]
  {
    PowPositive(n - 1 - i);
    if i == n - 1 {
      DigitIsCrockford(value % 32);
    } else {
      PowPositive(n - 2 - i);
      EncodeAt(value / 32, n - 1, i);
      DivideTwice(value, Pow32(n - 2 - i));
    }
  }

  /** An id is its prefix, an underscore and the 26 digits of its number, the most
      significant first. */
  lemma IdIs(prefix: string, millis: nat, random: Bytes, i: nat)
    requires i < 26
    ensures Pow32(25 - i) > 0 && |CROCKFORD| == 32
    ensures var id := IdOf(prefix, millis, random);
            && |id| == |prefix| + 27 && id[..|prefix|] == prefix && id[|prefix|] == '_'
            && id[|prefix| + 1 + i] == CROCKFORD[(Stamp(millis, random) / Pow32(25 - i)) % 32]
  {
    EncodeAt(Stamp(millis, random), DIGITS, i);
  }

  function IdOf(prefix: string, millis: nat, random: Bytes): string {
    prefix + "_" + Encode(Stamp(millis, random), DIGITS)
  }

  /** Under one prefix ids sort as their numbers do and differ where they differ. */
  lemma IdsOrder(prefix: string, millis: nat, random: Bytes, millis': nat, random': Bytes)
    requires |random| == RANDOM_BYTES && |random'| == RANDOM_BYTES
    ensures Less(IdOf(prefix, millis, random), IdOf(prefix, millis', random')) <==>
            Stamp(millis, random) < Stamp(millis', random')
    ensures IdOf(prefix, millis, random) == IdOf(prefix, millis', random') <==>
            Stamp(millis, random) == Stamp(millis', random')
  {
    var a, b := Stamp(millis, random), Stamp(millis', random');
    StampBound(millis, random);
    StampBound(millis', random');
    EncodeOrders(a, b, DIGITS);
    LessBehind(prefix + "_", Encode(a, DIGITS), Encode(b, DIGITS));
    assert IdOf(prefix, millis, random)[|prefix| + 1..] == Encode(a, DIGITS);
    assert IdOf(prefix, millis', random')[|prefix| + 1..] == Encode(b, DIGITS);
  }

  /** The time and the chance can be read off the number, the time first. */
  lemma StampReads(millis: nat, random: Bytes)
    requires millis < TWO_48 && |random| == RANDOM_BYTES
    ensures Stamp(millis, random) / TWO_80 == millis && Stamp(millis, random) % TWO_80 == BigEndian(random)
  {
    PowersOf256();
    BigEndianBound(random);
    assert BigEndian(random) < TWO_80;
  }

  lemma QuotientOrders(a: nat, b: nat)
    requires a / TWO_80 < b / TWO_80
    ensures a < b
  {
  }

  /** An id made at a later millisecond sorts later, for every time below 2^48. */
  lemma LaterSortsLater(prefix: string, millis: nat, random: Bytes, millis': nat, random': Bytes)
    requires |random| == RANDOM_BYTES && |random'| == RANDOM_BYTES
    requires millis < millis' < TWO_48
    ensures Less(IdOf(prefix, millis, random), IdOf(prefix, millis', random'))
  {
    StampReads(millis, random);
    StampReads(millis', random');
    QuotientOrders(Stamp(millis, random), Stamp(millis', random'));
    IdsOrder(prefix, millis, random, millis', random');
  }

  lemma {:induction false} BigEndianInjective(a: Bytes, b: Bytes)
    requires |a| == |b| && BigEndian(a) == BigEndian(b)
    ensures a == b
  {
    if a == [] {
    } else {
      BigEndianInjective(a[..|a| - 1], b[..|b| - 1]);
      assert a == a[..|a| - 1] + [a[|a| - 1]] && b == b[..|b| - 1] + [b[|b| - 1]];
    }
  }

  /** Two ids are the same only for the same time and the same chance. */
  lemma IdsInjective(prefix: string, millis: nat, random: Bytes, millis': nat, random': Bytes)
    requires |random| == RANDOM_BYTES && |random'| == RANDOM_BYTES
    requires millis < TWO_48 && millis' < TWO_48
    requires IdOf(prefix, millis, random) == IdOf(prefix, millis', random')
    ensures millis == millis' && random == random'
  {
    IdsOrder(prefix, millis, random, millis', random');
    StampReads(millis, random);
    StampReads(millis', random');
    BigEndianInjective(random, random');
  }

  // ---- Validate --------------------------------------------------------------

  predicate Safe(ch: char) {
    'a' <= ch <= 'z' || 'A' <= ch <= 'Z' || '0' <= ch <= '9' || ch == '_' || ch == '-' || ch == '.'
  }

  /** Validate. Text that is not UTF-8 is refused before any character is looked at. */
  predicate Valid(value: string, utf8: bool) {
    ValidBut(value, utf8, IsWindowsDeviceName)
  }

  predicate ValidBut(value: string, utf8: bool, reserved: string -> bool) {
    && utf8 && Bounded(value) && value == Text.TrimSpace(value)
    && (forall i :: 0 <= i < |value| ==> Safe(value[i]))
    && !reserved(value)
  }

  predicate Bounded(value: string) {
    1 <= |value| <= MAX_ID_BYTES && value != "." && value != ".."
  }

  lemma {:induction false} EncodeSafe(value: nat, n: nat)
    ensures forall i :: 0 <= i < n ==> Safe(Encode(value, n)[i]) && Encode(value, n)[i] != '.'
  {
    if n == 0 {
    } else {
      EncodeSafe(value / 32, n - 1);
    }
  }

  ghost predicate Plain(s: string) {
    forall i :: 0 <= i < |s| ==> Safe(s[i]) && s[i] != '.'
  }

  lemma PrefixedIsPlain(prefix: string, digits: string)
    requires ValidPrefix(prefix) && Plain(digits)
    ensures Plain(prefix + "_" + digits)
  {
  }

  lemma PlainIsValid(id: string, reserved: string -> bool)
    requires Plain(id) && 4 < |id| <= MAX_ID_BYTES && !reserved(id)
    ensures ValidBut(id, true, reserved)
  {
  }

  /** Every id New returns passes Validate. */
  lemma NewIsValid(prefix: string, millis: nat, random: Bytes)
    requires ValidPrefix(prefix) && |random| == RANDOM_BYTES
    ensures Valid(IdOf(prefix, millis, random), true)
  {
    EncodeSafe(Stamp(millis, random), DIGITS);
    PrefixedIsPlain(prefix, Encode(Stamp(millis, random), DIGITS));
    LongNameIsNoDevice(IdOf(prefix, millis, random));
    PlainIsValid(IdOf(prefix, millis, random), IsWindowsDeviceName);
  }

  predicate AllSafe(value: string) {
    forall i :: 0 <= i < |value| ==>
      || 'a' <= value[i] <= 'z' || 'A' <= value[i] <= 'Z' || '0' <= value[i] <= '9'
      || value[i] == '_' || value[i] == '-' || value[i] == '.'
  }

  /** What Validate lets through is one ordinary path component, without blanks, colons or
      backslashes. */
  lemma SafeIsHarmless(value: string)
    requires value != "" && value != "." && value != ".." && AllSafe(value)
    ensures Ordinary(value)
    ensures forall i :: 0 <= i < |value| ==> !Text.IsSpace(value[i]) && value[i] !in {'/', '\\', ':', '\0'}
  {
  }

  lemma ValidButExactly(value: string, utf8: bool, reserved: string -> bool)
    ensures ValidBut(value, utf8, reserved) <==>
            utf8 && 1 <= |value| <= 255 && value != "." && value != ".." && AllSafe(value) && !reserved(value)
  {
    if value != "" && AllSafe(value) {
      Text.TrimSpaceKeeps(value);
    }
  }

  /** Validate refuses exactly what is not such a name. */
  lemma ValidExactly(value: string, utf8: bool)
    ensures Valid(value, utf8) <==>
            && utf8 && 1 <= |value| <= 255 && value != "." && value != ".."
            && AllSafe(value) && !IsWindowsDeviceName(value)
  {
    ValidButExactly(value, utf8, IsWindowsDeviceName);
  }
}
