/** The legacy DOS device names that both archive entries and identifiers refuse. */
module DeviceNames {

  /** ASCII upper-casing. Every character of a device name is upper-cased only from
      ASCII, so this decides the comparison exactly as strings.ToUpper does. */
  function Upper(ch: char): char {
    if 'a' <= ch <= 'z' then (ch as int - 32) as char else ch
  }

  function UpperAll(s: string): string {
    if s == "" then "" else [Upper(s[0])] + UpperAll(s[1..])
  }

  function BeforeDot(s: string): string {
    if s == "" || s[0] == '.' then "" else [s[0]] + BeforeDot(s[1..])
  }

  const DEVICES: set<string> := {
    "CON", "PRN", "AUX", "NUL",
    "COM1", "COM2", "COM3", "COM4", "COM5", "COM6", "COM7", "COM8", "COM9",
    "LPT1", "LPT2", "LPT3", "LPT4", "LPT5", "LPT6", "LPT7", "LPT8", "LPT9"
  }

  predicate IsWindowsDeviceName(component: string) {
    UpperAll(BeforeDot(component)) in DEVICES
  }

  lemma {:induction false} UpperAllLength(s: string)
    ensures |UpperAll(s)| == |s|
  {
    if s == "" {
    } else {
      UpperAllLength(s[1..]);
    }
  }

  lemma {:induction false} BeforeDotWhole(s: string)
    requires '.' !in s
    ensures BeforeDot(s) == s
  {
    if s == "" {
    } else {
      BeforeDotWhole(s[1..]);
      assert s == [s[0]] + s[1..];
    }
  }

  lemma {:induction false} UpperTwice(s: string)
    ensures UpperAll(UpperAll(s)) == UpperAll(s)
  {
    if s == "" {
    } else {
      UpperTwice(s[1..]);
      assert UpperAll(s)[1..] == UpperAll(s[1..]);
    }
  }

  lemma {:induction false} BeforeDotUpper(s: string)
    ensures BeforeDot(UpperAll(s)) == UpperAll(BeforeDot(s))
  {
    if s == "" || s[0] == '.' {
    } else {
      BeforeDotUpper(s[1..]);
      assert UpperAll(s)[1..] == UpperAll(s[1..]);
      assert ([s[0]] + BeforeDot(s[1..]))[1..] == BeforeDot(s[1..]);
    }
  }

  lemma {:induction false} BeforeDotOf(base: string, suffix: string)
    requires '.' !in base
    ensures BeforeDot(base + "." + suffix) == base
  {
    if base == "" {
      assert (base + "." + suffix)[0] == '.';
    } else {
      BeforeDotOf(base[1..], suffix);
      assert (base + "." + suffix)[1..] == base[1..] + "." + suffix;
      assert base == [base[0]] + base[1..];
    }
  }

  /** Neither case nor what follows the first dot matters. */
  lemma DeviceIgnores(base: string, suffix: string)
    requires '.' !in base
    ensures IsWindowsDeviceName(base + "." + suffix) <==> IsWindowsDeviceName(base)
    ensures IsWindowsDeviceName(UpperAll(base)) <==> IsWindowsDeviceName(base)
  {
    BeforeDotOf(base, suffix);
    BeforeDotWhole(base);
    BeforeDotUpper(base);
    UpperTwice(base);
  }

  predicate HasDeviceForm(s: string) {
    || s == "CON" || s == "PRN" || s == "AUX" || s == "NUL"
    || (|s| == 4 && (s[..3] == "COM" || s[..3] == "LPT") && '1' <= s[3] <= '9')
  }

  lemma DeviceHasForm(s: string)
    requires s in DEVICES
    ensures HasDeviceForm(s)
  {
    assert |s| == 4 ==> s[..3] == [s[0], s[1], s[2]];
    assert |s| == 4 ==> s[..3] == "COM" || s[..3] == "LPT";
  }

  lemma FormIsDevice(s: string)
    requires |s| == 4 && (s[..3] == "COM" || s[..3] == "LPT") && '1' <= s[3] <= '9'
    ensures s in DEVICES
  {
    var d := s[3];
    assert s == s[..3] + [d];
    assert d == '1' || d == '2' || d == '3' || d == '4' || d == '5' || d == '6' || d == '7' || d == '8' || d == '9';
    if s[..3] == "COM" {
      assert "COM" + ['1'] == "COM1";
      assert "COM" + ['2'] == "COM2";
      assert "COM" + ['3'] == "COM3";
      assert "COM" + ['4'] == "COM4";
      assert "COM" + ['5'] == "COM5";
      assert "COM" + ['6'] == "COM6";
      assert "COM" + ['7'] == "COM7";
      assert "COM" + ['8'] == "COM8";
      assert "COM" + ['9'] == "COM9";
    } else {
      assert "LPT" + ['1'] == "LPT1";
      assert "LPT" + ['2'] == "LPT2";
      assert "LPT" + ['3'] == "LPT3";
      assert "LPT" + ['4'] == "LPT4";
      assert "LPT" + ['5'] == "LPT5";
      assert "LPT" + ['6'] == "LPT6";
      assert "LPT" + ['7'] == "LPT7";
      assert "LPT" + ['8'] == "LPT8";
      assert "LPT" + ['9'] == "LPT9";
    }
  }

  /** The names themselves: four words, and two of three letters with a digit from 1 to 9. */
  lemma DevicesAre(s: string)
    requires '.' !in s && UpperAll(s) == s
    ensures IsWindowsDeviceName(s) <==> HasDeviceForm(s)
  {
    BeforeDotWhole(s);
    if s in DEVICES {
      DeviceHasForm(s);
    }
    if |s| == 4 && HasDeviceForm(s) {
      FormIsDevice(s);
    }
  }

  /** Every device name is three or four characters long. */
  lemma LongNameIsNoDevice(s: string)
    requires '.' !in s && |s| > 4
    ensures !IsWindowsDeviceName(s)
  {
    BeforeDotWhole(s);
    UpperAllLength(s);
  }
}
