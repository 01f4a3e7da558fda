/**
 * Python `datetime` values as the harness uses them: readings of the UTC clock, formatted
 * with `strftime` for manifests and file names and read back with `strptime`.
 */
module Timestamps {
  import opened Wrappers
  import opened Strings

  /** A naive UTC `datetime`, to the microsecond. */
  datatype DateTime = DateTime(year: nat, month: nat, day: nat, hour: nat, minute: nat, second: nat, micro: nat)

  predicate IsLeap(y: nat) {
    (y % 4 == 0 && y % 100 != 0) || y % 400 == 0
  }

  function DaysInMonth(y: nat, m: nat): nat
    requires 1 <= m <= 12
  {
    if m == 2 then (if IsLeap(y) then 29 else 28)
    else if m == 4 || m == 6 || m == 9 || m == 11 then 30
    else 31
  }

  /** The values `datetime` accepts. */
  predicate Valid(t: DateTime) {
    1 <= t.year <= 9999 && 1 <= t.month <= 12 && 1 <= t.day <= DaysInMonth(t.year, t.month)
    && t.hour < 24 && t.minute < 60 && t.second < 60 && t.micro < 1000000
  }

  /** Days since 1970-01-01 of a proleptic Gregorian date. */
  function DaysFromCivil(y: nat, m: nat, d: nat): int
    requires 1 <= m <= 12
  {
    var y' := if m <= 2 then y - 1 else y;
    var era := y' / 400;
    var yoe := y' - era * 400;
    var mp := if m > 2 then m - 3 else m + 9;
    var doy := (153 * mp + 2) / 5 + d - 1;
    var doe := yoe * 365 + yoe / 4 - yoe / 100 + doy;
    era * 146097 + doe - 719468
  }

  /** Microseconds since the epoch. */
  function Micros(t: DateTime): int
    requires Valid(t)
  {
    ((DaysFromCivil(t.year, t.month, t.day) * 24 + t.hour) * 60 + t.minute) * 60000000
    + t.second * 1000000 + t.micro
  }

  /** `(end - begin).total_seconds()`. */
  function SecondsBetween(begin: DateTime, end: DateTime): real
    requires Valid(begin) && Valid(end)
  {
    (Micros(end) - Micros(begin)) as real / 1000000.0
  }

  function Pow10(w: nat): nat {
    if w == 0 then 1 else 10 * Pow10(w - 1)
  }

  /** `n` in decimal, zero-padded to exactly `w` digits (the `%Y`, `%m`, … directives). */
  function Pad(n: nat, w: nat): (r: string)
    requires n < Pow10(w)
    ensures |r| == w
    ensures forall i :: 0 <= i < w ==> '0' <= r[i] <= '9'
  {
    if w == 0 then "" else Pad(n / 10, w - 1) + [DigitChar(n % 10)]
  }

  /** The value of a string of decimal digits. */
  function DigitsValue(s: string): nat {
    if |s| == 0 then 0
    else if '0' <= s[|s| - 1] <= '9' then 10 * DigitsValue(s[..|s| - 1]) + (s[|s| - 1] as int - '0' as int)
    else 10 * DigitsValue(s[..|s| - 1])
  }

  predicate AllDigits(s: string) {
    forall i :: 0 <= i < |s| ==> '0' <= s[i] <= '9'
  }

  /** Reading a padded number back gives the number. */
  lemma {:induction false} DigitsValuePad(n: nat, w: nat)
    requires n < Pow10(w)
    ensures DigitsValue(Pad(n, w)) == n
  {
    if w > 0 {
      DigitsValuePad(n / 10, w - 1);
      var r := Pad(n, w);
      assert r[..w - 1] == Pad(n / 10, w - 1);
    }
  }

  /** `strftime("%Y-%m-%dT%H:%M:%SZ")`: the manifest time format. */
  function FormatIso(t: DateTime): (r: string)
    requires Valid(t)
    ensures |r| == 20
  {
    Pad(t.year, 4) + "-" + Pad(t.month, 2) + "-" + Pad(t.day, 2) + "T"
    + Pad(t.hour, 2) + ":" + Pad(t.minute, 2) + ":" + Pad(t.second, 2) + "Z"
  }

  /** `strftime("%Y%m%dT%H%M%SZ")`: the result file-name format. */
  function FormatCompact(t: DateTime): (r: string)
    requires Valid(t)
    ensures |r| == 16
  {
    Pad(t.year, 4) + Pad(t.month, 2) + Pad(t.day, 2) + "T"
    + Pad(t.hour, 2) + Pad(t.minute, 2) + Pad(t.second, 2) + "Z"
  }

  /** `strftime("%Y%m%d%H%M%S")`. */
  function FormatDigits(t: DateTime): (r: string)
    requires Valid(t)
    ensures |r| == 14
  {
    Pad(t.year, 4) + Pad(t.month, 2) + Pad(t.day, 2) + Pad(t.hour, 2) + Pad(t.minute, 2) + Pad(t.second, 2)
  }

  /** `strftime("%Y-%m-%d %H:%M:%S")`: the time format of engine records. */
  function FormatSpaced(t: DateTime): (r: string)
    requires Valid(t)
    ensures |r| == 19
  {
    Pad(t.year, 4) + "-" + Pad(t.month, 2) + "-" + Pad(t.day, 2) + " "
    + Pad(t.hour, 2) + ":" + Pad(t.minute, 2) + ":" + Pad(t.second, 2)
  }

  /** The same instant with the sub-second part dropped. */
  function WholeSecond(t: DateTime): DateTime {
    t.(micro := 0)
  }

  /** `datetime.strptime(s, "%Y-%m-%dT%H:%M:%SZ")`, None where it raises `ValueError`. */
  function ParseIso(s: string): (r: Option<DateTime>)
    ensures r.Some? ==> Valid(r.value) && r.value.micro == 0
  {
    if |s| == 20 && AllDigits(s[0..4]) && s[4] == '-' && AllDigits(s[5..7]) && s[7] == '-'
      && AllDigits(s[8..10]) && s[10] == 'T' && AllDigits(s[11..13]) && s[13] == ':'
      && AllDigits(s[14..16]) && s[16] == ':' && AllDigits(s[17..19]) && s[19] == 'Z'
    then
      var t := DateTime(DigitsValue(s[0..4]), DigitsValue(s[5..7]), DigitsValue(s[8..10]),
                        DigitsValue(s[11..13]), DigitsValue(s[14..16]), DigitsValue(s[17..19]), 0);
      if Valid(t) then Some(t) else None
    else None
  }

  /** Writing a time to a manifest and reading it back keeps it to the whole second. */
  lemma ParseFormatIso(t: DateTime)
    requires Valid(t)
    ensures ParseIso(FormatIso(t)) == Some(WholeSecond(t))
  {
    var s := FormatIso(t);
    assert s[0..4] == Pad(t.year, 4);
    assert s[5..7] == Pad(t.month, 2);
    assert s[8..10] == Pad(t.day, 2);
    assert s[11..13] == Pad(t.hour, 2);
    assert s[14..16] == Pad(t.minute, 2);
    assert s[17..19] == Pad(t.second, 2);
    DigitsValuePad(t.year, 4);
    DigitsValuePad(t.month, 2);
    DigitsValuePad(t.day, 2);
    DigitsValuePad(t.hour, 2);
    DigitsValuePad(t.minute, 2);
    DigitsValuePad(t.second, 2);
  }

  /** Two times share a file name exactly when they fall in the same second. */
  lemma FormatCompactSameSecond(t: DateTime, u: DateTime)
    requires Valid(t) && Valid(u)
    ensures FormatCompact(t) == FormatCompact(u) <==> WholeSecond(t) == WholeSecond(u)
  {
    if FormatCompact(t) == FormatCompact(u) {
      var s, v := FormatCompact(t), FormatCompact(u);
      assert s[0..4] == Pad(t.year, 4) && v[0..4] == Pad(u.year, 4);
      assert s[4..6] == Pad(t.month, 2) && v[4..6] == Pad(u.month, 2);
      assert s[6..8] == Pad(t.day, 2) && v[6..8] == Pad(u.day, 2);
      assert s[9..11] == Pad(t.hour, 2) && v[9..11] == Pad(u.hour, 2);
      assert s[11..13] == Pad(t.minute, 2) && v[11..13] == Pad(u.minute, 2);
      assert s[13..15] == Pad(t.second, 2) && v[13..15] == Pad(u.second, 2);
      DigitsValuePad(t.year, 4); DigitsValuePad(u.year, 4);
      DigitsValuePad(t.month, 2); DigitsValuePad(u.month, 2);
      DigitsValuePad(t.day, 2); DigitsValuePad(u.day, 2);
      DigitsValuePad(t.hour, 2); DigitsValuePad(u.hour, 2);
      DigitsValuePad(t.minute, 2); DigitsValuePad(u.minute, 2);
      DigitsValuePad(t.second, 2); DigitsValuePad(u.second, 2);
    }
  }
}
