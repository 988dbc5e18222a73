/**
 The name of a recorded video file: the configured path and prefix followed by
 a zero-padded local timestamp `YYYYMMDD-HHMMSS` and the raw codec extension
 `.h264`, as Python's `"%04d%02d%02d-%02d%02d%02d.h264"` formats it.
 */
module FileNames {

  datatype Option<T> = None | Some(value: T)

  /** The fields of a `datetime` value that the name uses. */
  datatype DateTime = DateTime(year: nat, month: nat, day: nat, hour: nat, minute: nat, second: nat)

  /** The ranges Python's `datetime` keeps its fields in. */
  predicate ValidDateTime(t: DateTime)
  {
    1 <= t.year <= 9999 && 1 <= t.month <= 12 && 1 <= t.day <= 31 &&
    t.hour < 24 && t.minute < 60 && t.second < 60
  }

  predicate IsDigit(c: char)
  {
    '0' <= c <= '9'
  }

  predicate AllDigits(s: string)
  {
    forall i :: 0 <= i < |s| ==> IsDigit(s[i])
  }

  function DigitChar(d: nat): (c: char)
    requires d < 10
    ensures IsDigit(c)
  {
    ('0' as int + d) as char
  }

  function DigitValue(c: char): (d: nat)
    requires IsDigit(c)
    ensures d < 10 && DigitChar(d) == c
  {
    c as int - '0' as int
  }

  function Pow10(k: nat): (p: nat)
    ensures p >= 1
  {
    if k == 0 then 1 else 10 * Pow10(k - 1)
  }

  /** The decimal digits of `n`, without leading zeros ("0" for zero). */
  function Decimal(n: nat): (s: string)
    ensures |s| >= 1 && AllDigits(s)
  {
    if n < 10 then [DigitChar(n)] else Decimal(n / 10) + [DigitChar(n % 10)]
  }

  function Zeros(k: nat): (s: string)
    ensures |s| == k && forall i :: 0 <= i < k ==> s[i] == '0'
  {
    seq(k, _ => '0')
  }

  /** `%0<width>d` of a non-negative number: its decimal digits, left-padded with zeros to `width`. */
  function Padded(n: nat, width: nat): (s: string)
    ensures |s| >= width && AllDigits(s)
  {
    var d := Decimal(n);
    if |d| < width then Zeros(width - |d|) + d else d
  }

  /** The number a string of decimal digits denotes. */
  function Decode(s: string): nat
    requires AllDigits(s)
  {
    if s == [] then 0 else Decode(s[..|s| - 1]) * 10 + DigitValue(s[|s| - 1])
  }

  /** `YYYYMMDD-HHMMSS`. */
  function Timestamp(t: DateTime): string
  {
    Padded(t.year, 4) + Padded(t.month, 2) + Padded(t.day, 2) + "-" +
    Padded(t.hour, 2) + Padded(t.minute, 2) + Padded(t.second, 2)
  }

  /** The file a recording started at time `t` is written to. */
  function RecordingName(filepath: string, prefix: string, t: DateTime): string
  {
    filepath + prefix + Timestamp(t) + ".h264"
  }

  /** Reads a `YYYYMMDD-HHMMSS` timestamp back; `None` for anything of another shape. */
  function ParseTimestamp(s: string): (r: Option<DateTime>)
    ensures r.Some? ==> |s| == 15 && s[8] == '-'
  {
    if |s| == 15 && AllDigits(s[..8]) && s[8] == '-' && AllDigits(s[9..]) then
      Some(DateTime(Decode(s[0..4]), Decode(s[4..6]), Decode(s[6..8]),
                    Decode(s[9..11]), Decode(s[11..13]), Decode(s[13..15])))
    else None
  }

  /** Reads the timestamp back out of a file name made with `filepath` and `prefix`. */
  function ParseRecordingName(filepath: string, prefix: string, name: string): (r: Option<DateTime>)
  {
    var head := filepath + prefix;
    if |name| == |head| + 20 && name[..|head|] == head && name[|head| + 15..] == ".h264" then
      ParseTimestamp(name[|head|..|head| + 15])
    else None
  }

  lemma {:induction false} DecimalLength(n: nat, k: nat)
    requires 1 <= k && n < Pow10(k)
    ensures |Decimal(n)| <= k
  {
    if n >= 10 {
      assert Pow10(1) == 10;
      assert k >= 2;
      assert n / 10 < Pow10(k - 1);
      DecimalLength(n / 10, k - 1);
    }
  }

  /** A value below 10^width is printed in exactly `width` characters. */
  lemma PaddedLength(n: nat, width: nat)
    requires 1 <= width && n < Pow10(width)
    ensures |Padded(n, width)| == width
  {
    DecimalLength(n, width);
  }

  lemma {:induction false} DecodeZeros(k: nat)
    ensures Decode(Zeros(k)) == 0
  {
    if k > 0 {
      assert Zeros(k)[..k - 1] == Zeros(k - 1);
      DecodeZeros(k - 1);
    }
  }

  lemma {:induction false} DecodeAfterZeros(k: nat, s: string)
    requires AllDigits(s)
    ensures Decode(Zeros(k) + s) == Decode(s)
  {
    if s == [] {
      assert Zeros(k) + s == Zeros(k);
      DecodeZeros(k);
    } else {
      var z := Zeros(k) + s;
      assert z[..|z| - 1] == Zeros(k) + s[..|s| - 1];
      DecodeAfterZeros(k, s[..|s| - 1]);
    }
  }

  lemma {:induction false} DecodeDecimal(n: nat)
    ensures Decode(Decimal(n)) == n
  {
    if n >= 10 {
      var s := Decimal(n);
      assert s[..|s| - 1] == Decimal(n / 10);
      DecodeDecimal(n / 10);
    }
  }

  /** Zero padding never changes the value printed. */
  lemma DecodePadded(n: nat, width: nat)
    ensures Decode(Padded(n, width)) == n
  {
    var d := Decimal(n);
    DecodeDecimal(n);
    if |d| < width {
      DecodeAfterZeros(width - |d|, d);
    }
  }

  /** Every in-range date and time is written in exactly 15 characters with the dash at index 8. */
  lemma TimestampShape(t: DateTime)
    requires ValidDateTime(t)
    ensures |Timestamp(t)| == 15 && Timestamp(t)[8] == '-'
    ensures AllDigits(Timestamp(t)[..8]) && AllDigits(Timestamp(t)[9..])
  {
    assert Pow10(2) == 100 && Pow10(4) == 10000;
    PaddedLength(t.year, 4);
    PaddedLength(t.month, 2);
    PaddedLength(t.day, 2);
    PaddedLength(t.hour, 2);
    PaddedLength(t.minute, 2);
    PaddedLength(t.second, 2);
  }

  /** The timestamp of an in-range date and time reads back as that date and time. */
  lemma TimestampRoundTrip(t: DateTime)
    requires ValidDateTime(t)
    ensures ParseTimestamp(Timestamp(t)) == Some(t)
  {
    TimestampShape(t);
    var s := Timestamp(t);
    assert s[0..4] == Padded(t.year, 4);
    assert s[4..6] == Padded(t.month, 2);
    assert s[6..8] == Padded(t.day, 2);
    assert s[9..11] == Padded(t.hour, 2);
    assert s[11..13] == Padded(t.minute, 2);
    assert s[13..15] == Padded(t.second, 2);
    DecodePadded(t.year, 4);
    DecodePadded(t.month, 2);
    DecodePadded(t.day, 2);
    DecodePadded(t.hour, 2);
    DecodePadded(t.minute, 2);
    DecodePadded(t.second, 2);
  }

  /**
   A recording's file name is the path, the prefix, 15 timestamp characters and
   ".h264", 20 characters more than path and prefix, and the date and time it was
   started at can be read back out of it.
   */
  lemma RecordingNameRoundTrip(filepath: string, prefix: string, t: DateTime)
    requires ValidDateTime(t)
    ensures |RecordingName(filepath, prefix, t)| == |filepath| + |prefix| + 20
    ensures ParseRecordingName(filepath, prefix, RecordingName(filepath, prefix, t)) == Some(t)
  {
    TimestampRoundTrip(t);
    var head := filepath + prefix;
    var name := RecordingName(filepath, prefix, t);
    assert name == head + Timestamp(t) + ".h264";
    assert name[..|head|] == head;
    assert name[|head|..|head| + 15] == Timestamp(t);
    assert name[|head| + 15..] == ".h264";
  }

  /** Recordings started at different in-range times get different file names. */
  lemma RecordingNamesDistinct(filepath: string, prefix: string, t: DateTime, t': DateTime)
    requires ValidDateTime(t) && ValidDateTime(t') && t != t'
    ensures RecordingName(filepath, prefix, t) != RecordingName(filepath, prefix, t')
  {
    RecordingNameRoundTrip(filepath, prefix, t);
    RecordingNameRoundTrip(filepath, prefix, t');
  }
}
