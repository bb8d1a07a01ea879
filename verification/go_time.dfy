/** Go's `time.Parse` for the one layout the float records use,
    "2006010215:04:05", applied to the 16-byte time field of a record. */
module GoTime {
  import opened Wrappers
  import opened GoText

  /** A civil date and time of day, in UTC, to the second. */
  datatype DateTime = DateTime(year: int, month: int, day: int, hour: int, minute: int, second: int)

  /** Go's zero `time.Time`: January 1 of year 1, midnight. */
  const ZeroDateTime := DateTime(1, 1, 1, 0, 0, 0)

  predicate IsLeapYear(y: int)
  {
    y % 4 == 0 && (y % 100 != 0 || y % 400 == 0)
  }

  function DaysIn(month: int, year: int): int
    requires 1 <= month <= 12
  {
    if month == 2 then (if IsLeapYear(year) then 29 else 28)
    else if month == 4 || month == 6 || month == 9 || month == 11 then 30
    else 31
  }

  /** The range checks `time.Parse` applies: month 1-12, a day that exists in
      that month of that year, hour 0-23, minute and second 0-59. */
  predicate ValidDateTime(t: DateTime)
  {
    && 1 <= t.month <= 12
    && 1 <= t.day <= DaysIn(t.month, t.year)
    && 0 <= t.hour < 24
    && 0 <= t.minute < 60
    && 0 <= t.second < 60
  }

  datatype TimeError = BadLayout | OutOfRange

  /** The places of the 16-byte field that hold digits: all but 10 and 13. */
  predicate StampShaped(s: string)
    requires |s| == 16
  {
    && (forall i :: 0 <= i < 16 && i != 10 && i != 13 ==> IsDigit(s[i]))
    && s[10] == ':' && s[13] == ':'
  }

  /** A two-digit field, as `getnum` reads it. */
  function TwoDigits(hi: char, lo: char): nat
    requires IsDigit(hi) && IsDigit(lo)
  {
    10 * DigitValue(hi) + DigitValue(lo)
  }

  /** The date and time a well-shaped field spells, before any range check. */
  function StampFields(s: string): DateTime
    requires |s| == 16 && StampShaped(s)
  {
    DateTime(
      100 * TwoDigits(s[0], s[1]) + TwoDigits(s[2], s[3]),
      TwoDigits(s[4], s[5]), TwoDigits(s[6], s[7]), TwoDigits(s[8], s[9]),
      TwoDigits(s[11], s[12]), TwoDigits(s[14], s[15]))
  }

  /** `time.Parse("2006010215:04:05", s)` on a 16-byte field: four year digits,
      then two digits each for month, day and hour, a colon, two minute digits,
      a colon and two second digits, every field in range. (A one-digit hour
      would leave one byte of the 16 unparsed, which Go refuses as extra text,
      so every accepted field has the digits at these fixed places.) */
  function ParseStamp(s: string): (r: Result<DateTime, TimeError>)
    requires |s| == 16
    ensures r.Ok? ==> ValidDateTime(r.value) && 0 <= r.value.year <= 9999
  {
    if !StampShaped(s) then Err(BadLayout)
    else if ValidDateTime(StampFields(s)) then Ok(StampFields(s))
    else Err(OutOfRange)
  }

  /** The field as the data logger writes it: `YYYYMMDDHH:MM:SS`. */
  function FormatStamp(t: DateTime): (s: string)
    requires 0 <= t.year <= 9999 && ValidDateTime(t)
    ensures |s| == 16 && IsByteString(s)
  {
    Pow10Values();
    ZeroPadFixed(t.year, 4);
    ZeroPadFixed(t.month, 2);
    ZeroPadFixed(t.day, 2);
    ZeroPadFixed(t.hour, 2);
    ZeroPadFixed(t.minute, 2);
    ZeroPadFixed(t.second, 2);
    DigitsAreBytes(ZeroPad(t.year, 4) + ZeroPad(t.month, 2) + ZeroPad(t.day, 2) + ZeroPad(t.hour, 2));
    DigitsAreBytes(ZeroPad(t.minute, 2));
    DigitsAreBytes(ZeroPad(t.second, 2));
    ZeroPad(t.year, 4) + ZeroPad(t.month, 2) + ZeroPad(t.day, 2) + ZeroPad(t.hour, 2)
      + ":" + ZeroPad(t.minute, 2) + ":" + ZeroPad(t.second, 2)
  }

  /** Two digits read back as their value. */
  lemma TwoDigitsValue(z: string)
    requires |z| == 2 && AllDigits(z)
    ensures IsDigit(z[0]) && IsDigit(z[1]) && TwoDigits(z[0], z[1]) == DigitsValue(z)
  {
    assert DigitsValue(z[..1]) == DigitValue(z[0]) by {
      assert z[..1][..0] == [];
    }
  }

  /** Four digits read back as their value. */
  lemma FourDigitsValue(z: string)
    requires |z| == 4 && AllDigits(z)
    ensures IsDigit(z[0]) && IsDigit(z[1]) && IsDigit(z[2]) && IsDigit(z[3])
    ensures 100 * TwoDigits(z[0], z[1]) + TwoDigits(z[2], z[3]) == DigitsValue(z)
  {
    assert DigitsValue(z[..1]) == DigitValue(z[0]) by {
      assert z[..1][..0] == [];
    }
    assert z[..2][..1] == z[..1] && z[..3][..2] == z[..2];
    assert DigitsValue(z[..2]) == TwoDigits(z[0], z[1]);
    assert DigitsValue(z[..3]) == 10 * TwoDigits(z[0], z[1]) + DigitValue(z[2]);
  }

  /** The parts of a field laid out as `YYYYMMDDHH:MM:SS` sit at fixed places. */
  lemma StampSlices(s: string, y: string, mo: string, d: string, h: string, mi: string, se: string)
    requires |y| == 4 && |mo| == 2 && |d| == 2 && |h| == 2 && |mi| == 2 && |se| == 2
    requires s == y + mo + d + h + ":" + mi + ":" + se
    ensures |s| == 16 && s[..4] == y && s[4..6] == mo && s[6..8] == d && s[8..10] == h
    ensures s[10] == ':' && s[11..13] == mi && s[13] == ':' && s[14..] == se
  {
  }

  /** Four digits at the start of `s` read back as their value. */
  lemma YearAt(s: string, y: string)
    requires |y| == 4 && AllDigits(y) && 4 <= |s| && s[..4] == y
    ensures IsDigit(s[0]) && IsDigit(s[1]) && IsDigit(s[2]) && IsDigit(s[3])
    ensures 100 * TwoDigits(s[0], s[1]) + TwoDigits(s[2], s[3]) == DigitsValue(y)
  {
    FourDigitsValue(y);
    assert s[0] == y[0] && s[1] == y[1] && s[2] == y[2] && s[3] == y[3];
  }

  /** Two digits at place `k` of `s` read back as their value. */
  lemma FieldAt(s: string, k: nat, z: string)
    requires |z| == 2 && AllDigits(z) && k + 2 <= |s| && s[k..k + 2] == z
    ensures IsDigit(s[k]) && IsDigit(s[k + 1]) && TwoDigits(s[k], s[k + 1]) == DigitsValue(z)
  {
    TwoDigitsValue(z);
    assert s[k] == z[0] && s[k + 1] == z[1];
  }

  /** A field whose digit places hold the fields of a valid `t` parses as `t`. */
  lemma ParseAtPlaces(s: string, t: DateTime)
    requires |s| == 16 && StampShaped(s) && ValidDateTime(t)
    requires 100 * TwoDigits(s[0], s[1]) + TwoDigits(s[2], s[3]) == t.year
    requires TwoDigits(s[4], s[5]) == t.month
    requires TwoDigits(s[6], s[7]) == t.day
    requires TwoDigits(s[8], s[9]) == t.hour
    requires TwoDigits(s[11], s[12]) == t.minute
    requires TwoDigits(s[14], s[15]) == t.second
    ensures ParseStamp(s) == Ok(t)
  {
    assert StampFields(s) == t;
  }

  /** Digit strings of the fields of a valid `t`, laid out as `YYYYMMDDHH:MM:SS`,
      parse as `t`. */
  lemma ParseLaidOut(s: string, y: string, mo: string, d: string, h: string, mi: string, se: string, t: DateTime)
    requires |y| == 4 && |mo| == 2 && |d| == 2 && |h| == 2 && |mi| == 2 && |se| == 2
    requires AllDigits(y) && AllDigits(mo) && AllDigits(d) && AllDigits(h) && AllDigits(mi) && AllDigits(se)
    requires DigitsValue(y) == t.year
    requires DigitsValue(mo) == t.month
    requires DigitsValue(d) == t.day
    requires DigitsValue(h) == t.hour
    requires DigitsValue(mi) == t.minute
    requires DigitsValue(se) == t.second
    requires ValidDateTime(t)
    requires s == y + mo + d + h + ":" + mi + ":" + se
    ensures ParseStamp(s) == Ok(t)
  {
    StampSlices(s, y, mo, d, h, mi, se);
    YearAt(s, y);
    FieldAt(s, 4, mo);
    FieldAt(s, 6, d);
    FieldAt(s, 8, h);
    FieldAt(s, 11, mi);
    FieldAt(s, 14, se);
    assert StampShaped(s);
    ParseAtPlaces(s, t);
  }

  /** Every valid date and time written as `YYYYMMDDHH:MM:SS` parses back to itself. */
  lemma ParseFormatStamp(t: DateTime)
    requires 0 <= t.year <= 9999 && ValidDateTime(t)
    ensures ParseStamp(FormatStamp(t)) == Ok(t)
  {
    Pow10Values();
    ZeroPadFixed(t.year, 4);
    ZeroPadFixed(t.month, 2);
    ZeroPadFixed(t.day, 2);
    ZeroPadFixed(t.hour, 2);
    ZeroPadFixed(t.minute, 2);
    ZeroPadFixed(t.second, 2);
    ParseLaidOut(FormatStamp(t), ZeroPad(t.year, 4), ZeroPad(t.month, 2), ZeroPad(t.day, 2),
                 ZeroPad(t.hour, 2), ZeroPad(t.minute, 2), ZeroPad(t.second, 2), t);
  }
}
