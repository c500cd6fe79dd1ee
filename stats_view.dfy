/** The text helpers of the GTK statistics window: truncation of a session's
    body, and the conversion of a start timestamp to a calendar date and time. */
module StatsView {
  import opened Wrappers
  import opened Numeric
  import SessionStore
  import Decimal

  /** `truncate_str`: at most `maxChars` characters of `s`, marked with "..." when cut. */
  function TruncateStr(s: string, maxChars: nat): (r: string)
    ensures |s| <= maxChars ==> r == s
    ensures |s| > maxChars ==> r == s[..maxChars] + "..."
  {
    if |s| <= maxChars then s else s[..maxChars] + "..."
  }

  /** The result is three characters longer than the limit when cut, and always
      starts with as much of `s` as the limit allows. */
  lemma TruncateShape(s: string, maxChars: nat)
    ensures var r := TruncateStr(s, maxChars);
      && |r| == (if |s| <= maxChars then |s| else maxChars + 3)
      && |r| <= maxChars + 3
      && (var keep := if |s| <= maxChars then |s| else maxChars; r[..keep] == s[..keep])
  {
  }

  /** `s` comes back unchanged exactly when it fits, or when it already has the
      shape of a cut string: `maxChars` characters followed by "...". */
  lemma TruncateFixedPoint(s: string, maxChars: nat)
    ensures TruncateStr(s, maxChars) == s <==>
              |s| <= maxChars || (|s| == maxChars + 3 && s[maxChars..] == "...")
  {
    if |s| == maxChars + 3 && s[maxChars..] == "..." {
      assert s == s[..maxChars] + s[maxChars..];
    }
  }

  /** Truncating twice is truncating once. */
  lemma TruncateIdempotent(s: string, maxChars: nat)
    ensures TruncateStr(TruncateStr(s, maxChars), maxChars) == TruncateStr(s, maxChars)
  {
    var r := TruncateStr(s, maxChars);
    if |s| > maxChars {
      assert r[..maxChars] == s[..maxChars];
    }
  }

  /** The body line of one session in the history list. */
  function SessionBody(row: SessionStore.SessionRow): (body: string)
    ensures row.error.Some? ==> body == "Error: " + TruncateStr(row.error.value, 80)
    ensures row.error.None? ==> body == TruncateStr(row.transcription, 80)
  {
    match row.error
    case Some(err) => "Error: " + TruncateStr(err, 80)
    case None => TruncateStr(row.transcription, 80)
  }

  /** A body never exceeds 83 characters of text plus the 7-character error prefix. */
  lemma SessionBodyBounded(row: SessionStore.SessionRow)
    ensures row.error.None? ==> |SessionBody(row)| <= 83
    ensures row.error.Some? ==> |SessionBody(row)| <= 90 && SessionBody(row)[..7] == "Error: "
  {
    match row.error
    case Some(err) => TruncateShape(err, 80);
    case None => TruncateShape(row.transcription, 80);
  }

  // ---------------------------------------------------------------- calendar

  datatype Date = Date(year: int, month: int, day: int)

  predicate IsLeapYear(y: int) {
    y % 4 == 0 && (y % 100 != 0 || y % 400 == 0)
  }

  function DaysInMonth(y: int, m: int): int
    requires 1 <= m <= 12
  {
    if m == 2 then (if IsLeapYear(y) then 29 else 28)
    else if m == 4 || m == 6 || m == 9 || m == 11 then 30
    else 31
  }

  /** Days from the start of an era (1 March of a year divisible by 400) to the
      start of its year `yoe`. */
  function YearStart(yoe: int): int {
    365 * yoe + yoe / 4 - yoe / 100
  }

  /** Hinnant's estimate of the year within the era from the day within the era. */
  function YearOfEra(doe: nat): int {
    (doe - doe / 1460 + doe / 36524 - doe / 146096) / 365
  }

  /** The estimate is exact: `doe` falls in year `YearOfEra(doe)`, whose day 365
      exists only when the February it contains has 29 days. */
  lemma EraDecomposition(doe: nat)
    requires doe <= 146096
    ensures 0 <= YearOfEra(doe) <= 399
    ensures 0 <= doe - YearStart(YearOfEra(doe)) <= 365
    ensures doe - YearStart(YearOfEra(doe)) == 365 ==> IsLeapYear(YearOfEra(doe) + 1)
  {
    var c, g, j, k := EraParts(doe);
    YearOfEraParts(c, g, j, k);
    YearStartParts(c, g, j);
    if k == 365 {
      GroupEndIsLeap(c, g);
    }
  }

  lemma YearStartParts(c: int, g: int, j: int)
    requires 0 <= c <= 3 && 0 <= g <= 24 && 0 <= j <= 3
    ensures YearStart(100 * c + 4 * g + j) == 36524 * c + 1461 * g + 365 * j
  {
    var y := 100 * c + 4 * g + j;
    assert y / 4 == 25 * c + g;
    assert y / 100 == c;
  }

  /** The year after the last of a four-year group is a leap year, except after
      the last group of the first three centuries of an era. */
  lemma GroupEndIsLeap(c: int, g: int)
    requires 0 <= c <= 3 && 0 <= g <= 24 && (g < 24 || c == 3)
    ensures IsLeapYear(100 * c + 4 * g + 3 + 1)
  {
    var y := 100 * c + 4 * g + 4;
    assert y % 4 == 0;
    if g < 24 {
      assert y % 100 == 4 * g + 4;
    } else {
      assert y == 400;
    }
  }

  /** `doe = 36524 c + 1461 g + 365 j + k`: century `c`, four-year group `g`,
      year `j` of the group and day `k` of the year; day 365 exists only in the
      last year of a group that has a leap day. */
  lemma EraParts(doe: nat) returns (c: int, g: int, j: int, k: int)
    requires doe <= 146096
    ensures 0 <= c <= 3 && 0 <= g <= 24 && 0 <= j <= 3 && 0 <= k <= 365
    ensures doe == 36524 * c + 1461 * g + 365 * j + k
    ensures k == 365 ==> j == 3 && (g < 24 || c == 3)
  {
    c := if doe == 146096 then 3 else doe / 36524;
    var r := doe - 36524 * c;
    assert 0 <= r <= 36524;
    g := r / 1461;
    var r2 := r - 1461 * g;
    assert 0 <= g <= 24 && 0 <= r2 <= 1460;
    j := if r2 / 365 > 3 then 3 else r2 / 365;
    k := r2 - 365 * j;
  }

  /** Hinnant's estimate recovers the year from the decomposition. */
  lemma YearOfEraParts(c: int, g: int, j: int, k: int)
    requires 0 <= c <= 3 && 0 <= g <= 24 && 0 <= j <= 3 && 0 <= k <= 365
    requires k == 365 ==> j == 3 && (g < 24 || c == 3)
    ensures YearOfEra(36524 * c + 1461 * g + 365 * j + k) == 100 * c + 4 * g + j
  {
    var doe := 36524 * c + 1461 * g + 365 * j + k;
    var t := 24 * c + g + 365 * j + k;
    var ind := if t >= 1460 then 1 else 0;
    FourYearQuotient(doe, 25 * c + g, t);
    CenturyQuotients(doe, c, 1461 * g + 365 * j + k);
    var y := 100 * c + 4 * g + j;
    assert doe - doe / 1460 + doe / 36524 - doe / 146096 == 365 * y + (k - ind);
    YearQuotient(y, k - ind);
  }

  lemma FourYearQuotient(doe: int, a: int, t: int)
    requires doe == 1460 * a + t && 0 <= t < 2920
    ensures doe / 1460 == a + (if t >= 1460 then 1 else 0)
  {
  }

  lemma CenturyQuotients(doe: int, c: int, r: int)
    requires 0 <= c <= 3 && doe == 36524 * c + r && 0 <= r <= 36524
    requires r == 36524 ==> c == 3
    ensures doe / 36524 - doe / 146096 == c
  {
    if r == 36524 {
      assert doe == 146096;
    } else {
      assert doe / 36524 == c;
      assert doe / 146096 == 0;
    }
  }

  lemma YearQuotient(y: int, k: int)
    requires 0 <= k <= 364
    ensures (365 * y + k) / 365 == y
  {
  }

  /** Hinnant's month index (0 = March) and day of month from the day of a March-based year. */
  lemma MonthOfYear(doy: nat)
    requires doy <= 365
    ensures var mp := (5 * doy + 2) / 153;
      && 0 <= mp <= 11
      && (153 * mp + 2) / 5 <= doy
      && (var d := doy - (153 * mp + 2) / 5 + 1;
          && 1 <= d <= 31
          && (mp < 11 ==> d <= DaysInMonth(1, if mp < 10 then mp + 3 else mp - 9))
          && (mp == 11 ==> d <= 28 || doy == 365))
  {
    // the month starts at days 0, 31, 61, 92, 122, 153, 184, 214, 245, 275, 306, 337
    var mp := (5 * doy + 2) / 153;
    if doy < 31 { assert mp == 0; }
    else if doy < 61 { assert mp == 1; }
    else if doy < 92 { assert mp == 2; }
    else if doy < 122 { assert mp == 3; }
    else if doy < 153 { assert mp == 4; }
    else if doy < 184 { assert mp == 5; }
    else if doy < 214 { assert mp == 6; }
    else if doy < 245 { assert mp == 7; }
    else if doy < 275 { assert mp == 8; }
    else if doy < 306 { assert mp == 9; }
    else if doy < 337 { assert mp == 10; }
    else { assert mp == 11; }
  }

  /** Leap years repeat every 400 years. */
  lemma LeapYearPeriod(y: int, era: int)
    ensures IsLeapYear(y + era * 400) == IsLeapYear(y)
  {
    Mod4Period(y, 100 * era);
    Mod100Period(y, 4 * era);
    Mod400Period(y, era);
  }

  /** Adding whole periods keeps the remainder. */
  lemma Mod4Period(y: int, k: int)
    ensures (y + 4 * k) % 4 == y % 4
  {
  }

  lemma Mod100Period(y: int, k: int)
    ensures (y + 100 * k) % 100 == y % 100
  {
  }

  lemma Mod400Period(y: int, k: int)
    ensures (y + 400 * k) % 400 == y % 400
  {
  }

  /** The era division of `days_to_date`, truncating on an offset dividend, is the floor division. */
  lemma EraIsFloor(z: int)
    ensures RustDiv(if z >= 0 then z else z - 146096, 146097) == z / 146097
  {
  }

  /** `days_to_date`: Hinnant's `civil_from_days` (proleptic Gregorian calendar).
      The precondition is what keeps `days_since_epoch + 719468` inside i64. The
      `nat` local is the u64 value of the source: assigning it proves that the
      `as u64` cast keeps the value. */
  function DaysToDate(daysSinceEpoch: I64): (date: Date)
    requires daysSinceEpoch <= I64_MAX - 719468
    ensures 1 <= date.month <= 12
    ensures 1 <= date.day <= DaysInMonth(date.year, date.month) <= 31
  {
    var z := daysSinceEpoch + 719468;
    var era := RustDiv(if z >= 0 then z else z - 146096, 146097);
    EraIsFloor(z);
    var doe: nat := z - era * 146097;
    CivilFromDayOfEra(era, doe)
  }

  /** The second half of `days_to_date`, from the era and the day within it.
      The `nat` locals are u64 values of the source: assigning them proves that
      no u64 subtraction underflows. */
  function CivilFromDayOfEra(era: int, doe: nat): (date: Date)
    requires doe <= 146096
    ensures 1 <= date.month <= 12
    ensures 1 <= date.day <= DaysInMonth(date.year, date.month) <= 31
  {
    EraDecomposition(doe);
    var yoe: nat := (doe - doe / 1460 + doe / 36524 - doe / 146096) / 365;
    var y := yoe + era * 400;
    var doy: nat := doe - (365 * yoe + yoe / 4 - yoe / 100);
    MonthOfYear(doy);
    var mp: nat := (5 * doy + 2) / 153;
    var dayIndex: nat := doy - (153 * mp + 2) / 5;
    var d: nat := dayIndex + 1;
    var m: nat := if mp < 10 then mp + 3 else mp - 9;
    LeapYearPeriod(yoe + 1, era);
    Date(if m <= 2 then y + 1 else y, m, d)
  }

  /** Hinnant's `days_from_civil`, the inverse algorithm, used as the reference for DaysToDate. */
  function DaysFromCivil(date: Date): int
    requires 1 <= date.month <= 12
  {
    var y := if date.month <= 2 then date.year - 1 else date.year;
    var era := y / 400;
    var yoe := y - era * 400;
    var mp := if date.month > 2 then date.month - 3 else date.month + 9;
    var doy := (153 * mp + 2) / 5 + date.day - 1;
    var doe := YearStart(yoe) + doy;
    era * 146097 + doe - 719468
  }

  lemma CivilFromDayOfEraRoundTrip(era: int, doe: nat)
    requires doe <= 146096
    ensures DaysFromCivil(CivilFromDayOfEra(era, doe)) == era * 146097 + doe - 719468
  {
    EraDecomposition(doe);
    var yoe := YearOfEra(doe);
    var doy: nat := doe - YearStart(yoe);
    MonthOfYear(doy);
    var mp := (5 * doy + 2) / 153;
    var d := doy - (153 * mp + 2) / 5 + 1;
    var m := if mp < 10 then mp + 3 else mp - 9;
    var date := CivilFromDayOfEra(era, doe);
    assert date == Date(if m <= 2 then yoe + era * 400 + 1 else yoe + era * 400, m, d);
    var y' := if m <= 2 then date.year - 1 else date.year;
    assert y' == yoe + era * 400;
    assert y' / 400 == era;
    var mp' := if m > 2 then m - 3 else m + 9;
    assert mp' == mp;
  }

  /** No day is lost or duplicated: converting back gives the day count again. */
  lemma DaysToDateRoundTrip(days: I64)
    requires days <= I64_MAX - 719468
    ensures DaysFromCivil(DaysToDate(days)) == days
  {
    var z := days + 719468;
    assert DaysToDate(days) == CivilFromDayOfEra(z / 146097, z % 146097) by {
      EraIsFloor(z);
    }
    CivilFromDayOfEraRoundTrip(z / 146097, z % 146097);
    assert (z / 146097) * 146097 + z % 146097 == z;
  }

  /** 1970-01-01 is day zero. */
  lemma EpochIsDayZero()
    ensures DaysToDate(0) == Date(1970, 1, 1)
  {
    EraDecomposition(135080);
  }

  /** The day of `days_from_civil` on which the March-based year `y` begins. */
  function MarchStart(y: int): int {
    var era := y / 400;
    era * 146097 + YearStart(y - era * 400) - 719468
  }

  lemma YearStartStep(yoe: int)
    requires 0 <= yoe < 399
    ensures YearStart(yoe) < YearStart(yoe + 1)
  {
  }

  /** Each March-based year begins after the one before it. */
  lemma MarchStartStep(y: int)
    ensures MarchStart(y) < MarchStart(y + 1)
  {
    var era := y / 400;
    var yoe := y - era * 400;
    if yoe < 399 {
      assert (y + 1) / 400 == era;
      YearStartStep(yoe);
    } else {
      assert (y + 1) / 400 == era + 1;
      assert YearStart(399) == 145731;
    }
  }

  lemma {:induction false} MarchStartMonotone(a: int, b: int)
    ensures a <= b ==> MarchStart(a) <= MarchStart(b)
    decreases b - a
  {
    if a < b {
      MarchStartMonotone(a, b - 1);
      MarchStartStep(b - 1);
    }
  }

  /** A date whose day count lies from the epoch up to the last day of 9999 is
      in a year from 1970 to 9999. */
  lemma CivilYearBounds(date: Date)
    requires 1 <= date.month <= 12 && 1 <= date.day <= 31
    requires 0 <= DaysFromCivil(date) < DAYS_TO_YEAR_10000
    ensures 1970 <= date.year <= 9999
  {
    var y := if date.month <= 2 then date.year - 1 else date.year;
    var mp := if date.month > 2 then date.month - 3 else date.month + 9;
    assert DaysFromCivil(date) == MarchStart(y) + (153 * mp + 2) / 5 + date.day - 1;
    assert MarchStart(1968) == -671 && MarchStart(1969) == -306;
    assert MarchStart(9999) == 2932591 && MarchStart(10000) == 2932957;
    MarchStartMonotone(y, 1968);
    MarchStartMonotone(y, 1969);
    MarchStartMonotone(9999, y);
    MarchStartMonotone(10000, y);
  }

  /** 10000-01-01 as a day count and as a timestamp. */
  const DAYS_TO_YEAR_10000: int := 2932897
  const SECONDS_TO_YEAR_10000: int := DAYS_TO_YEAR_10000 * 86400

  lemma YearTenThousand()
    ensures DaysFromCivil(Date(10000, 1, 1)) == DAYS_TO_YEAR_10000
  {
  }

  /** The date and time fields of the timestamp text, each as the Rust integer it is printed from. */
  datatype DateTime = DateTime(date: Date, hours: int, minutes: int, seconds: int)

  /** The fields of `format_timestamp`, with Rust's truncating `/` and `%`: for a
      timestamp before 1970 the time fields are negative or zero and the day is
      rounded toward 1970. */
  function TimestampFields(ts: I64): (f: DateTime)
    ensures ts >= 0 ==> 0 <= f.seconds <= 59 && 0 <= f.minutes <= 59 && 0 <= f.hours <= 23
    ensures ts < 0 ==> -59 <= f.seconds <= 0 && -59 <= f.minutes <= 0 && -23 <= f.hours <= 0
    ensures 1 <= f.date.month <= 12 && 1 <= f.date.day <= 31
  {
    var secs := RustRem(ts, 60);
    var mins := RustRem(RustDiv(ts, 60), 60);
    var hours := RustRem(RustDiv(ts, 3600), 24);
    var days := RustDiv(ts, 86400);
    DateTime(DaysToDate(days), hours, mins, secs)
  }

  /** The fields determine the timestamp: day count, hours, minutes and seconds add back up to it. */
  lemma TimestampFieldsRoundTrip(ts: I64)
    ensures var f := TimestampFields(ts);
      DaysFromCivil(f.date) * 86400 + f.hours * 3600 + f.minutes * 60 + f.seconds == ts
  {
    var days := RustDiv(ts, 86400);
    DaysToDateRoundTrip(days);
    assert RustDiv(RustDiv(ts, 60), 60) == RustDiv(ts, 3600);
    assert RustDiv(RustDiv(ts, 3600), 24) == days;
  }

  /** `format_timestamp`: "YYYY-MM-DD HH:MM:SS", each field printed with Rust's
      zero-padded width 4 or 2. */
  function FormatTimestamp(ts: I64): (text: string)
    ensures |text| >= 19
  {
    FormatFields(TimestampFields(ts))
  }

  /** The `format!` call of `format_timestamp`, on its six integer fields. */
  function FormatFields(f: DateTime): (text: string)
    ensures |text| >= 19
  {
    Decimal.ZeroPad(f.date.year, 4) + "-" + Decimal.ZeroPad(f.date.month, 2) + "-"
      + Decimal.ZeroPad(f.date.day, 2) + " " + Decimal.ZeroPad(f.hours, 2) + ":"
      + Decimal.ZeroPad(f.minutes, 2) + ":" + Decimal.ZeroPad(f.seconds, 2)
  }

  /** A two-digit field of the timestamp text and the value it reads back as. */
  lemma TwoDigitField(n: int)
    requires 0 <= n < 100
    ensures |Decimal.ZeroPad(n, 2)| == 2
    ensures Decimal.AllDigits(Decimal.ZeroPad(n, 2))
    ensures Decimal.ParseSigned(Decimal.ZeroPad(n, 2)) == Some(n)
  {
    assert Decimal.Pow10(2) == 100;
    Decimal.ZeroPadExactWidth(n, 2);
    Decimal.ZeroPadRoundTrip(n, 2);
  }

  /** Where the pieces sit in the "YYYY-MM-DD HH:MM:SS" layout. */
  lemma Layout(y: string, mo: string, d: string, h: string, mi: string, sec: string)
    requires |y| == 4 && |mo| == 2 && |d| == 2 && |h| == 2 && |mi| == 2 && |sec| == 2
    ensures var text := y + "-" + mo + "-" + d + " " + h + ":" + mi + ":" + sec;
      && |text| == 19
      && text[4] == '-' && text[7] == '-' && text[10] == ' ' && text[13] == ':' && text[16] == ':'
      && text[0..4] == y && text[5..7] == mo && text[8..10] == d
      && text[11..13] == h && text[14..16] == mi && text[17..19] == sec
  {
    var text := y + "-" + mo + "-" + d + " " + h + ":" + mi + ":" + sec;
    assert text == y + "-" + mo + "-" + d + " " + h + ":" + mi + ":" + sec;
    assert text[0..4] == y;
    assert text[5..7] == mo;
    assert text[8..10] == d;
    assert text[11..13] == h;
    assert text[14..16] == mi;
    assert text[17..19] == sec;
  }

  /** With every field non-negative and a four-digit year the text is exactly
      19 characters with the separators in place, and every field reads back
      as the value it was printed from. */
  lemma FormatFieldsLayout(f: DateTime)
    requires 0 <= f.date.year <= 9999 && 0 <= f.date.month < 100 && 0 <= f.date.day < 100
    requires 0 <= f.hours < 100 && 0 <= f.minutes < 100 && 0 <= f.seconds < 100
    ensures var text := FormatFields(f);
      && |text| == 19
      && text[4] == '-' && text[7] == '-' && text[10] == ' ' && text[13] == ':' && text[16] == ':'
      && Decimal.ParseSigned(text[0..4]) == Some(f.date.year)
      && Decimal.ParseSigned(text[5..7]) == Some(f.date.month)
      && Decimal.ParseSigned(text[8..10]) == Some(f.date.day)
      && Decimal.ParseSigned(text[11..13]) == Some(f.hours)
      && Decimal.ParseSigned(text[14..16]) == Some(f.minutes)
      && Decimal.ParseSigned(text[17..19]) == Some(f.seconds)
  {
    assert Decimal.Pow10(4) == 10000;
    Decimal.ZeroPadExactWidth(f.date.year, 4);
    Decimal.ZeroPadRoundTrip(f.date.year, 4);
    TwoDigitField(f.date.month);
    TwoDigitField(f.date.day);
    TwoDigitField(f.hours);
    TwoDigitField(f.minutes);
    TwoDigitField(f.seconds);
    Layout(Decimal.ZeroPad(f.date.year, 4), Decimal.ZeroPad(f.date.month, 2),
           Decimal.ZeroPad(f.date.day, 2), Decimal.ZeroPad(f.hours, 2),
           Decimal.ZeroPad(f.minutes, 2), Decimal.ZeroPad(f.seconds, 2));
  }

  /** Every timestamp from 1970 up to the end of 9999 prints as
      "YYYY-MM-DD HH:MM:SS" with a four-digit year from 1970 on, and every field
      of the text reads back as the field of the timestamp. */
  lemma FormatTimestampLayout(ts: I64)
    requires 0 <= ts < SECONDS_TO_YEAR_10000
    ensures var f := TimestampFields(ts);
      var text := FormatTimestamp(ts);
      && 1970 <= f.date.year <= 9999
      && |text| == 19
      && text[4] == '-' && text[7] == '-' && text[10] == ' ' && text[13] == ':' && text[16] == ':'
      && Decimal.ParseSigned(text[0..4]) == Some(f.date.year)
      && Decimal.ParseSigned(text[5..7]) == Some(f.date.month)
      && Decimal.ParseSigned(text[8..10]) == Some(f.date.day)
      && Decimal.ParseSigned(text[11..13]) == Some(f.hours)
      && Decimal.ParseSigned(text[14..16]) == Some(f.minutes)
      && Decimal.ParseSigned(text[17..19]) == Some(f.seconds)
  {
    var days := RustDiv(ts, 86400);
    assert 0 <= days < DAYS_TO_YEAR_10000;
    DaysToDateRoundTrip(days);
    var f := TimestampFields(ts);
    assert f.date == DaysToDate(days);
    CivilYearBounds(f.date);
    FormatFieldsLayout(f);
  }

  /** From 1970 up to the end of 9999 two different timestamps never print the same text. */
  lemma FormatTimestampInjective(ts1: I64, ts2: I64)
    requires 0 <= ts1 < SECONDS_TO_YEAR_10000 && 0 <= ts2 < SECONDS_TO_YEAR_10000
    requires FormatTimestamp(ts1) == FormatTimestamp(ts2)
    ensures ts1 == ts2
  {
    var f1 := TimestampFields(ts1);
    var f2 := TimestampFields(ts2);
    FormatTimestampLayout(ts1);
    FormatTimestampLayout(ts2);
    TimestampFieldsRoundTrip(ts1);
    TimestampFieldsRoundTrip(ts2);
    assert f1.date == f2.date;
  }

  /** The last second of the first day after the epoch, field by field. */
  lemma LastSecondOfEpochDay()
    ensures TimestampFields(86399) == DateTime(Date(1970, 1, 1), 23, 59, 59)
  {
    EpochIsDayZero();
  }

  /** The padded fields of 1970-01-01 23:59:59. */
  lemma PaddedFieldsExample()
    ensures Decimal.ZeroPad(1970, 4) == "1970" && Decimal.ZeroPad(1, 2) == "01"
    ensures Decimal.ZeroPad(23, 2) == "23" && Decimal.ZeroPad(59, 2) == "59"
  {
    assert Decimal.Digits(19) == "19";
    assert Decimal.Digits(197) == "197";
    assert Decimal.Digits(1970) == "1970";
    assert Decimal.Repeat('0', 1) == "0";
    assert Decimal.Digits(23) == "23";
    assert Decimal.Digits(59) == "59";
  }

  lemma FormatFieldsExample()
    ensures FormatFields(DateTime(Date(1970, 1, 1), 23, 59, 59)) == "1970-01-01 23:59:59"
  {
    PaddedFieldsExample();
  }

  /** 86399 seconds after the epoch prints as the last second of 1970-01-01. */
  lemma FormatTimestampExample()
    ensures FormatTimestamp(86399) == "1970-01-01 23:59:59"
  {
    LastSecondOfEpochDay();
    FormatFieldsExample();
  }
}
