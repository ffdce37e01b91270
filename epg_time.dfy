/**
 * Programme timestamps: the fixed pattern `%Y%m%d%H%M%S %z` the guide is
 * read with and written back in, the RFC 3339 rendering, and the instant a
 * zoned time denotes, which is what chrono compares.
 */
module EpgTime {
  import opened Wrappers
  import opened Strings

  /** A civil date and time plus the fixed UTC offset it was written with. */
  datatype DateTime = DateTime(year: int, month: int, day: int,
                               hour: int, minute: int, second: int,
                               offsetMinutes: int)

  predicate LeapYear(y: int)
  {
    y % 4 == 0 && (y % 100 != 0 || y % 400 == 0)
  }

  function DaysInMonth(y: int, m: int): int
  {
    if m == 2 then (if LeapYear(y) then 29 else 28)
    else if m == 4 || m == 6 || m == 9 || m == 11 then 30
    else 31
  }

  /**
   * What the pattern can denote: a four-digit year, a real calendar day, a
   * time of day without leap second, and an offset below 24 hours (chrono's
   * `FixedOffset` bound).
   */
  predicate Valid(t: DateTime)
  {
    && 0 <= t.year <= 9999 && 1 <= t.month <= 12 && 1 <= t.day <= DaysInMonth(t.year, t.month)
    && 0 <= t.hour < 24 && 0 <= t.minute < 60 && 0 <= t.second < 60
    && -1440 < t.offsetMinutes < 1440
  }

  // ---------------------------------------------------------------------------
  // Fixed-width decimal fields
  // ---------------------------------------------------------------------------

  function Digit(n: int): char
    requires 0 <= n < 10
  {
    ('0' as int + n) as char
  }

  function DigitValue(c: char): int
  {
    c as int - '0' as int
  }

  function Pad2(n: int): (r: string)
    requires 0 <= n < 100
    ensures |r| == 2 && AllDigits(r)
  {
    [Digit(n / 10), Digit(n % 10)]
  }

  function Pad4(n: int): (r: string)
    requires 0 <= n < 10000
    ensures |r| == 4 && AllDigits(r)
  {
    Pad2(n / 100) + Pad2(n % 100)
  }

  function Value2(s: string): int
    requires |s| == 2
  {
    DigitValue(s[0]) * 10 + DigitValue(s[1])
  }

  function Value4(s: string): int
    requires |s| == 4
  {
    Value2(s[..2]) * 100 + Value2(s[2..])
  }

  lemma Value2OfPad2(n: int)
    requires 0 <= n < 100
    ensures Value2(Pad2(n)) == n
  {
  }

  lemma Value4OfPad4(n: int)
    requires 0 <= n < 10000
    ensures Value4(Pad4(n)) == n
  {
    var p := Pad4(n);
    assert p[..2] == Pad2(n / 100) && p[2..] == Pad2(n % 100);
    Value2OfPad2(n / 100);
    Value2OfPad2(n % 100);
  }

  lemma Pad2OfValue2(s: string)
    requires |s| == 2 && AllDigits(s)
    ensures 0 <= Value2(s) < 100 && Pad2(Value2(s)) == s
  {
    var a, b := DigitValue(s[0]), DigitValue(s[1]);
    assert 0 <= a < 10 && 0 <= b < 10;
    assert (a * 10 + b) / 10 == a && (a * 10 + b) % 10 == b;
  }

  lemma Pad4OfValue4(s: string)
    requires |s| == 4 && AllDigits(s)
    ensures 0 <= Value4(s) < 10000 && Pad4(Value4(s)) == s
  {
    var hi, lo := s[..2], s[2..];
    Pad2OfValue2(hi);
    Pad2OfValue2(lo);
    var v := Value4(s);
    assert v / 100 == Value2(hi) && v % 100 == Value2(lo);
    assert s == hi + lo;
  }

  // ---------------------------------------------------------------------------
  // `%Y%m%d%H%M%S %z`
  // ---------------------------------------------------------------------------

  /**
   * `DateTime::parse_from_str(s, "%Y%m%d%H%M%S %z")` on the strict form of
   * the pattern: fourteen digits, one space, a sign and four offset digits.
   */
  function ParseTimestamp(s: string): (r: Option<DateTime>)
    ensures r.Some? ==> |s| == 20 && Valid(r.value)
  {
    if |s| != 20 || !AllDigits(s[..14]) || s[14] != ' ' || !(s[15] == '+' || s[15] == '-')
       || !AllDigits(s[16..])
    then None
    else
      var hours, minutes := Value2(s[16..18]), Value2(s[18..]);
      var magnitude := hours * 60 + minutes;
      var t := DateTime(Value4(s[..4]), Value2(s[4..6]), Value2(s[6..8]),
                        Value2(s[8..10]), Value2(s[10..12]), Value2(s[12..14]),
                        if s[15] == '-' then -magnitude else magnitude);
      if minutes < 60 && Valid(t) then Some(t) else None
  }

  function OffsetSign(t: DateTime): char
  {
    if t.offsetMinutes < 0 then '-' else '+'
  }

  function OffsetMagnitude(t: DateTime): nat
  {
    if t.offsetMinutes < 0 then -t.offsetMinutes else t.offsetMinutes
  }

  /** `format("%Y%m%d%H%M%S %z")`: `%z` writes `+hhmm`, with `+` for a zero offset. */
  function FormatTimestamp(t: DateTime): (r: string)
    requires Valid(t)
    ensures |r| == 20
  {
    var m := OffsetMagnitude(t);
    Pad4(t.year) + Pad2(t.month) + Pad2(t.day) + Pad2(t.hour) + Pad2(t.minute) + Pad2(t.second)
      + " " + [OffsetSign(t)] + Pad2(m / 60) + Pad2(m % 60)
  }

  /** Each field of the written form sits at its fixed position. */
  lemma FormatFields(t: DateTime)
    requires Valid(t)
    ensures var s := FormatTimestamp(t); var m := OffsetMagnitude(t);
      && s[..4] == Pad4(t.year) && s[4..6] == Pad2(t.month) && s[6..8] == Pad2(t.day)
      && s[8..10] == Pad2(t.hour) && s[10..12] == Pad2(t.minute) && s[12..14] == Pad2(t.second)
      && s[14] == ' ' && s[15] == OffsetSign(t) && s[16..18] == Pad2(m / 60) && s[18..] == Pad2(m % 60)
  {
  }

  /** Reading back what was written gives the same time, offset included. */
  lemma ParseFormatted(t: DateTime)
    requires Valid(t)
    ensures ParseTimestamp(FormatTimestamp(t)) == Some(t)
  {
    var s := FormatTimestamp(t);
    var m := OffsetMagnitude(t);
    FormatFields(t);
    Value4OfPad4(t.year);
    Value2OfPad2(t.month);
    Value2OfPad2(t.day);
    Value2OfPad2(t.hour);
    Value2OfPad2(t.minute);
    Value2OfPad2(t.second);
    Value2OfPad2(m / 60);
    Value2OfPad2(m % 60);
    assert AllDigits(s[..14]) by {
      assert s[..14] == s[..4] + s[4..6] + s[6..8] + s[8..10] + s[10..12] + s[12..14];
    }
    assert AllDigits(s[16..]) by {
      assert s[16..] == s[16..18] + s[18..];
    }
  }

  /**
   * Writing what was read reproduces the text, except that a negative zero
   * offset `-0000` comes back as `+0000`.
   */
  lemma FormatParsed(s: string)
    requires ParseTimestamp(s).Some?
    requires s[15..] != "-0000"
    ensures FormatTimestamp(ParseTimestamp(s).value) == s
  {
    var t := ParseTimestamp(s).value;
    FormatFields(t);
    DateFieldsRead(s);
    OffsetRead(s);
    FieldsDetermine(FormatTimestamp(t), s);
  }

  /** The date and clock fields are written back as they were read. */
  lemma DateFieldsRead(s: string)
    requires ParseTimestamp(s).Some?
    ensures var t := ParseTimestamp(s).value;
      && Pad4(t.year) == s[..4] && Pad2(t.month) == s[4..6] && Pad2(t.day) == s[6..8]
      && Pad2(t.hour) == s[8..10] && Pad2(t.minute) == s[10..12] && Pad2(t.second) == s[12..14]
  {
    assert AllDigits(s[..14]);
    SliceDigits(s, 14, 0, 4);
    SliceDigits(s, 14, 4, 6);
    SliceDigits(s, 14, 6, 8);
    SliceDigits(s, 14, 8, 10);
    SliceDigits(s, 14, 10, 12);
    SliceDigits(s, 14, 12, 14);
    Pad4OfValue4(s[..4]);
    Pad2OfValue2(s[4..6]);
    Pad2OfValue2(s[6..8]);
    Pad2OfValue2(s[8..10]);
    Pad2OfValue2(s[10..12]);
    Pad2OfValue2(s[12..14]);
  }

  /** A slice of an all-digit prefix is all digits. */
  lemma SliceDigits(s: string, n: nat, i: nat, j: nat)
    requires n <= |s| && AllDigits(s[..n]) && i <= j <= n
    ensures AllDigits(s[i..j])
  {
    assert forall k :: 0 <= k < j - i ==> s[i..j][k] == s[..n][i + k];
  }

  /** The offset is written back as it was read, unless it was `-0000`. */
  lemma OffsetRead(s: string)
    requires ParseTimestamp(s).Some?
    requires s[15..] != "-0000"
    ensures var t := ParseTimestamp(s).value; var m := OffsetMagnitude(t);
      && s[14] == ' ' && OffsetSign(t) == s[15] && Pad2(m / 60) == s[16..18] && Pad2(m % 60) == s[18..]
  {
    var t := ParseTimestamp(s).value;
    var m := OffsetMagnitude(t);
    assert s[16..] == s[16..18] + s[18..];
    Pad2OfValue2(s[16..18]);
    Pad2OfValue2(s[18..]);
    var hours, minutes := Value2(s[16..18]), Value2(s[18..]);
    assert m == hours * 60 + minutes;
    assert m / 60 == hours && m % 60 == minutes;
    if m == 0 {
      assert s[16..18] == Pad2(0) && s[18..] == Pad2(0);
      assert s[15..] == [s[15]] + s[16..18] + s[18..];
      assert s[15] != '-';
    }
  }

  /** Two timestamps that agree field by field are the same text. */
  lemma FieldsDetermine(s: string, u: string)
    requires |s| == 20 && |u| == 20
    requires s[..4] == u[..4] && s[4..6] == u[4..6] && s[6..8] == u[6..8] && s[8..10] == u[8..10]
    requires s[10..12] == u[10..12] && s[12..14] == u[12..14] && s[14] == u[14] && s[15] == u[15]
    requires s[16..18] == u[16..18] && s[18..] == u[18..]
    ensures s == u
  {
    forall i | 0 <= i < 20
      ensures s[i] == u[i]
    {
      if i < 4 {
        assert s[i] == s[..4][i] && u[i] == u[..4][i];
      } else if i < 6 {
        assert s[i] == s[4..6][i - 4] && u[i] == u[4..6][i - 4];
      } else if i < 8 {
        assert s[i] == s[6..8][i - 6] && u[i] == u[6..8][i - 6];
      } else if i < 10 {
        assert s[i] == s[8..10][i - 8] && u[i] == u[8..10][i - 8];
      } else if i < 12 {
        assert s[i] == s[10..12][i - 10] && u[i] == u[10..12][i - 10];
      } else if i < 14 {
        assert s[i] == s[12..14][i - 12] && u[i] == u[12..14][i - 12];
      } else if i >= 18 {
        assert s[i] == s[18..][i - 18] && u[i] == u[18..][i - 18];
      } else if i >= 16 {
        assert s[i] == s[16..18][i - 16] && u[i] == u[16..18][i - 16];
      }
    }
  }

  // ---------------------------------------------------------------------------
  // Instants
  // ---------------------------------------------------------------------------

  /** Days from 1970-01-01 to the given civil date (proleptic Gregorian). */
  function DaysFromCivil(y: int, m: int, d: int): int
  {
    var y1 := if m <= 2 then y - 1 else y;
    var mp := if m > 2 then m - 3 else m + 9;
    365 * y1 + y1 / 4 - y1 / 100 + y1 / 400 + (153 * mp + 2) / 5 + d - 1 - 719468
  }

  /** Seconds since the Unix epoch: the civil time read in its offset, moved to UTC. */
  function Instant(t: DateTime): (r: int)
    ensures t.year == 1970 && t.month == 1 && t.day == 1 && t.hour == 0 && t.minute == 0 && t.second == 0 ==>
      r == -t.offsetMinutes * 60
  {
    DaysFromCivil(t.year, t.month, t.day) * 86400 + t.hour * 3600 + t.minute * 60 + t.second
      - t.offsetMinutes * 60
  }

  /** On one date and offset, a later clock time is a later instant. */
  lemma InstantClockOrder(a: DateTime, b: DateTime)
    requires Valid(a) && Valid(b)
    requires a.year == b.year && a.month == b.month && a.day == b.day && a.offsetMinutes == b.offsetMinutes
    requires a.hour < b.hour || (a.hour == b.hour && (a.minute < b.minute || (a.minute == b.minute && a.second < b.second)))
    ensures Instant(a) < Instant(b)
  {
  }

  /** One hour later on the clock in an offset one hour further east is the same instant. */
  lemma InstantOffsetShift(t: DateTime)
    ensures Instant(t.(hour := t.hour + 1, offsetMinutes := t.offsetMinutes + 60)) == Instant(t)
  {
  }

  // ---------------------------------------------------------------------------
  // RFC 3339
  // ---------------------------------------------------------------------------

  /** `to_rfc3339` for a time without fractional seconds: the offset as `+hh:mm`. */
  function Rfc3339(t: DateTime): (r: string)
    requires Valid(t)
    ensures |r| == 25
  {
    var m := OffsetMagnitude(t);
    Pad4(t.year) + "-" + Pad2(t.month) + "-" + Pad2(t.day) + "T"
      + Pad2(t.hour) + ":" + Pad2(t.minute) + ":" + Pad2(t.second)
      + [OffsetSign(t)] + Pad2(m / 60) + ":" + Pad2(m % 60)
  }

  // ---------------------------------------------------------------------------
  // The programme-time unit test
  // ---------------------------------------------------------------------------

  const TestStart := DateTime(2024, 10, 17, 13, 9, 0, 60)
  const TestStop := DateTime(2024, 10, 17, 14, 0, 0, 60)

  lemma TestStartRfc3339()
    ensures Valid(TestStart) && Rfc3339(TestStart) == "2024-10-17T13:09:00+01:00"
  {
  }

  lemma TestStartWritten()
    ensures Valid(TestStart) && FormatTimestamp(TestStart) == "20241017130900 +0100"
  {
  }

  lemma TestStopRfc3339()
    ensures Valid(TestStop) && Rfc3339(TestStop) == "2024-10-17T14:00:00+01:00"
  {
  }

  lemma TestStopWritten()
    ensures Valid(TestStop) && FormatTimestamp(TestStop) == "20241017140000 +0100"
  {
  }

  /** The start attribute is read with its `+01:00` offset kept, not moved to UTC. */
  lemma TestStartParses()
    ensures ParseTimestamp("20241017130900 +0100") == Some(TestStart)
  {
    TestStartWritten();
    ParseFormatted(TestStart);
  }

  lemma TestStopParses()
    ensures ParseTimestamp("20241017140000 +0100") == Some(TestStop)
  {
    TestStopWritten();
    ParseFormatted(TestStop);
  }

  /** The offset shifts the instant: 13:09 at +01:00 is 12:09 UTC, and the programme lasts 51 minutes. */
  lemma TestInstants()
    ensures Instant(TestStart) == Instant(DateTime(2024, 10, 17, 12, 9, 0, 0))
    ensures Instant(TestStop) - Instant(TestStart) == 51 * 60
    ensures Instant(TestStart) == 1729166940
  {
  }
}
