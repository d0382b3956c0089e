/** Input validation (src/utils/validation.ts): the `YYYY-MM-DD` date check,
    the day difference between two dates, and the accepted-string rules of the
    query schemas. */
module Validation {
  import opened Wrappers
  import opened Decimal
  import opened Calendar

  // ---------------------------------------------------------------------
  // Dates

  /** `^\d{4}-\d{2}-\d{2}$` */
  predicate IsDateShaped(s: string)
  {
    |s| == 10 && AllDigits(s[..4]) && s[4] == '-' && AllDigits(s[5..7]) && s[7] == '-' && AllDigits(s[8..])
  }

  /** The year, month and day a date-shaped string spells, read as numbers. */
  function FieldsOf(s: string): (dt: Date)
    requires IsDateShaped(s)
    ensures 0 <= dt.year < 10000 && 0 <= dt.month < 100 && 0 <= dt.day < 100
  {
    Date(ValueOf(s[..4]), ValueOf(s[5..7]), ValueOf(s[8..]))
  }

  /** The reference meaning of a valid date string: the right shape, naming a
      day that exists in the Gregorian calendar. */
  predicate IsValidDateString(s: string)
  {
    IsDateShaped(s) && IsCalendarDate(FieldsOf(s))
  }

  /** `new Date(s)` for a string of the form `dddd-dd-dd`: the day number of
      the UTC midnight it denotes. The ISO parser takes months 01..12 and days
      01..31 in any month, so a day past a month's end lands in the next
      month; every other string is modelled as an Invalid Date (None, time
      value NaN). */
  function ParseIsoDate(s: string): (t: Option<nat>)
    ensures t.Some? <==> IsDateShaped(s) && 1 <= FieldsOf(s).month <= 12 && 1 <= FieldsOf(s).day <= 31
  {
    if !IsDateShaped(s) then None
    else
      var f := FieldsOf(s);
      if 1 <= f.month <= 12 && 1 <= f.day <= 31 then
        DaysBeforeYearMonotone(0, f.year);
        Some(DayNumber(f.year, f.month, f.day))
      else None
  }

  /** A valid date string parses to the day whose calendar date it names. */
  lemma ParseValidDateString(s: string)
    requires IsValidDateString(s)
    ensures ParseIsoDate(s).Some? && CivilFromDays(ParseIsoDate(s).value) == FieldsOf(s)
  {
    CivilFromDayNumber(FieldsOf(s));
  }

  /** The year as `toISOString` writes it: four digits for years 0 to 9999,
      otherwise a sign and six digits. */
  function YearString(y: int): string
  {
    if 0 <= y <= 9999 then Pad(y, 4)
    else if y > 9999 then "+" + Pad(y, 6)
    else "-" + Pad(-y, 6)
  }

  /** The `YYYY-MM-DD` part of the ISO form of a date. */
  function DatePart(dt: Date): string
    requires IsCalendarDate(dt)
  {
    YearString(dt.year) + "-" + Pad(dt.month, 2) + "-" + Pad(dt.day, 2)
  }

  /** `toISOString()` of the UTC midnight of day number `t`: a midnight time,
      and for years 0 to 9999 ten date characters that spell the calendar date
      of `t`. */
  function ToIsoString(t: nat): (iso: string)
    ensures |iso| >= 24 && iso[|iso| - 14..] == "T00:00:00.000Z"
  {
    DatePart(CivilFromDays(t)) + "T00:00:00.000Z"
  }

  /** For years 0 to 9999 the ISO string is 24 characters whose first ten
      read back as the calendar date of the day. */
  lemma IsoStringReadsBack(t: nat)
    requires CivilFromDays(t).year <= 9999
    ensures |ToIsoString(t)| == 24 && IsDateShaped(ToIsoString(t)[..10])
    ensures FieldsOf(ToIsoString(t)[..10]) == CivilFromDays(t)
  {
    var dt := CivilFromDays(t);
    FieldsOfDatePart(dt);
    assert ToIsoString(t)[..10] == DatePart(dt);
  }

  /** `s.slice(0, n)` */
  function SliceTo(s: string, n: nat): string
  {
    if |s| <= n then s else s[..n]
  }

  /** The refinement shared by `dateSchema` and `validateDateFormat`: the
      string parses to a time value, and that time value's ISO form starts
      with the string. */
  predicate RoundTrips(s: string)
  {
    match ParseIsoDate(s)
    case None => false
    case Some(t) => SliceTo(ToIsoString(t), 10) == s
  }

  /** A date-shaped string is what `DatePart` writes for the fields it spells. */
  lemma DatePartOfFields(s: string)
    requires IsDateShaped(s) && IsCalendarDate(FieldsOf(s))
    ensures DatePart(FieldsOf(s)) == s
  {
    var f := FieldsOf(s);
    PadValueOf(s[..4]);
    PadValueOf(s[5..7]);
    PadValueOf(s[8..]);
    assert YearString(f.year) == s[..4];
    assert DatePart(f) == s[..4] + "-" + s[5..7] + "-" + s[8..];
    assert s == s[..4] + "-" + s[5..7] + "-" + s[8..];
  }

  /** The date part of a day in years 0 to 9999 is a date-shaped string that
      spells that day: `DatePart` and `FieldsOf` are inverse. */
  lemma FieldsOfDatePart(dt: Date)
    requires IsCalendarDate(dt) && 0 <= dt.year <= 9999
    ensures |DatePart(dt)| == 10 && IsDateShaped(DatePart(dt)) && FieldsOf(DatePart(dt)) == dt
  {
    var p := DatePart(dt);
    ValueOfPad(dt.year, 4);
    ValueOfPad(dt.month, 2);
    ValueOfPad(dt.day, 2);
    assert p[..4] == Pad(dt.year, 4);
    assert p[5..7] == Pad(dt.month, 2);
    assert p[8..] == Pad(dt.day, 2);
  }

  /** The ISO form of a day in years 0 to 9999 starts with its ten-character date part. */
  lemma IsoStringStartsWithDatePart(t: nat)
    requires CivilFromDays(t).year <= 9999
    ensures |DatePart(CivilFromDays(t))| == 10
    ensures SliceTo(ToIsoString(t), 10) == DatePart(CivilFromDays(t))
  {
  }

  /** A date-shaped string naming a real day survives the round trip. */
  lemma RoundTripOfCalendarDate(s: string)
    requires IsDateShaped(s) && IsCalendarDate(FieldsOf(s))
    ensures RoundTrips(s)
  {
    var f := FieldsOf(s);
    CivilFromDayNumber(f);
    IsoStringStartsWithDatePart(DayNumber(f.year, f.month, f.day));
    DatePartOfFields(s);
  }

  /** A day past its month's end (such as `2024-02-30`) parses to a day of
      the next month, whose ISO form differs in the month digits. */
  lemma NoRoundTripPastMonthEnd(s: string)
    requires IsDateShaped(s)
    requires 1 <= FieldsOf(s).month <= 12 && DaysInMonth(FieldsOf(s).year, FieldsOf(s).month) < FieldsOf(s).day <= 31
    ensures !RoundTrips(s)
  {
    var f := FieldsOf(s);
    var y, m, d := f.year, f.month, f.day;
    var g := Date(y, m + 1, d - DaysInMonth(y, m));
    DayNumberRollsOver(y, m, d);
    CivilFromDayNumber(g);
    var t := DayNumber(y, m, d);
    assert CivilFromDays(t) == g;
    IsoStringStartsWithDatePart(t);
    var iso := DatePart(g);
    assert iso[5..7] == Pad(m + 1, 2);
    ValueOfPad(m + 1, 2);
    assert iso[5..7] != s[5..7];
  }

  /** The round trip holds exactly for the date-shaped strings that name a
      real Gregorian day: a day past its month's end comes back as a day of
      the next month, and month 13 or day 32 do not parse at all. */
  lemma RoundTripsIffCalendar(s: string)
    requires IsDateShaped(s)
    ensures RoundTrips(s) <==> IsCalendarDate(FieldsOf(s))
  {
    var f := FieldsOf(s);
    if IsCalendarDate(f) {
      RoundTripOfCalendarDate(s);
    } else if 1 <= f.month <= 12 && 1 <= f.day <= 31 {
      NoRoundTripPastMonthEnd(s);
    }
  }

  /** `validateDateFormat(s)`: the regular expression, then the round trip.
      It accepts exactly the valid date strings. */
  function ValidateDateFormat(s: string): (ok: bool)
    ensures ok <==> IsValidDateString(s)
  {
    if !IsDateShaped(s) then false
    else
      RoundTripsIffCalendar(s);
      RoundTrips(s)
  }

  /** `dateSchema`: the same regular expression and the same round trip as a
      zod refinement; it accepts exactly what `validateDateFormat` accepts. */
  function DateSchema(s: string): (ok: bool)
    ensures ok <==> ValidateDateFormat(s)
  {
    IsDateShaped(s) && RoundTrips(s)
  }

  lemma ValueOfTwoDigits(t: string)
    requires |t| == 2 && AllDigits(t)
    ensures ValueOf(t) == 10 * DigitValue(t[0]) + DigitValue(t[1])
  {
    assert t[..1][..0] == [];
  }

  lemma ValueOfFourDigits(t: string)
    requires |t| == 4 && AllDigits(t)
    ensures ValueOf(t) == 1000 * DigitValue(t[0]) + 100 * DigitValue(t[1]) + 10 * DigitValue(t[2]) + DigitValue(t[3])
  {
    var p := t[..3];
    ValueOfTwoDigits(p[..2]);
    assert p[..2] == t[..2];
  }

  /** The fields of a date-shaped string, digit by digit. */
  lemma FieldsOfDigits(s: string)
    requires IsDateShaped(s)
    ensures FieldsOf(s) == Date(
      1000 * DigitValue(s[0]) + 100 * DigitValue(s[1]) + 10 * DigitValue(s[2]) + DigitValue(s[3]),
      10 * DigitValue(s[5]) + DigitValue(s[6]),
      10 * DigitValue(s[8]) + DigitValue(s[9]))
  {
    ValueOfFourDigits(s[..4]);
    ValueOfTwoDigits(s[5..7]);
    ValueOfTwoDigits(s[8..]);
  }

  /** A date string is valid exactly when its fields name a real day. */
  lemma ValidateDateFormatOfFields(s: string, y: int, m: int, d: int)
    requires IsDateShaped(s) && FieldsOf(s) == Date(y, m, d)
    ensures ValidateDateFormat(s) <==> IsCalendarDate(Date(y, m, d))
  {
  }

  /** 29 February exists in the leap year 2024. */
  lemma LeapDayAccepted()
    ensures ValidateDateFormat("2024-02-29")
  {
    var leap := "2024-02-29";
    assert leap[..4] == "2024";
    FieldsOfDigits(leap);
    ValidateDateFormatOfFields(leap, 2024, 2, 29);
  }

  /** 29 February does not exist in the common year 2023. */
  lemma CommonYearLeapDayRejected()
    ensures !ValidateDateFormat("2023-02-29")
  {
    var common := "2023-02-29";
    assert common[..4] == "2023";
    FieldsOfDigits(common);
    ValidateDateFormatOfFields(common, 2023, 2, 29);
  }

  /** A day past the month's end is rejected. */
  lemma DayPastMonthEndRejected()
    ensures !ValidateDateFormat("2024-02-30")
  {
    var feb30 := "2024-02-30";
    assert feb30[..4] == "2024";
    FieldsOfDigits(feb30);
    ValidateDateFormatOfFields(feb30, 2024, 2, 30);
  }

  /** A month past December is rejected. */
  lemma MonthPastDecemberRejected()
    ensures !ValidateDateFormat("2024-13-01")
  {
    var month13 := "2024-13-01";
    assert month13[..4] == "2024";
    FieldsOfDigits(month13);
    ValidateDateFormatOfFields(month13, 2024, 13, 1);
  }

  /** A string of the wrong shape is rejected. */
  lemma MalformedDateRejected()
    ensures !ValidateDateFormat("invalid-date")
  {
  }

  // ---------------------------------------------------------------------
  // Day difference

  /** Milliseconds in a day, `1000 * 60 * 60 * 24`. */
  const MsPerDay: nat := 86400000

  function Abs(x: int): nat
  {
    if x < 0 then -x else x
  }

  /** `Math.ceil(a / b)` for a non-negative `a` and a positive `b`. */
  function CeilDiv(a: nat, b: nat): nat
    requires b > 0
  {
    (a + b - 1) / b
  }

  /** A whole number of days, in milliseconds, divides back exactly. */
  lemma CeilOfWholeDays(k: nat)
    ensures CeilDiv(k * MsPerDay, MsPerDay) == k
  {
  }

  /** `getDaysDifference(startDate, endDate)`: the ceiling of the absolute
      difference of the two time values in days, None standing for NaN when
      either string is an Invalid Date. Both dates are UTC midnights, so the
      ceiling is exactly the difference of the day numbers. */
  function GetDaysDifference(startDate: string, endDate: string): (r: Option<nat>)
    ensures r.Some? <==> ParseIsoDate(startDate).Some? && ParseIsoDate(endDate).Some?
    ensures r.Some? ==> r.value == Abs(ParseIsoDate(endDate).value - ParseIsoDate(startDate).value)
  {
    match (ParseIsoDate(startDate), ParseIsoDate(endDate))
    case (Some(a), Some(b)) =>
      var diffTime := Abs(b * MsPerDay - a * MsPerDay);
      assert diffTime == Abs(b - a) * MsPerDay;
      CeilOfWholeDays(Abs(b - a));
      Some(CeilDiv(diffTime, MsPerDay))
    case _ => None
  }

  /** The difference does not depend on the order of the two dates. */
  lemma DaysDifferenceSymmetric(a: string, b: string)
    ensures GetDaysDifference(a, b) == GetDaysDifference(b, a)
  {
  }

  /** A valid date string parses to the day number of the date it names. */
  lemma ParseValidDate(s: string)
    requires IsValidDateString(s)
    ensures var f := FieldsOf(s); ParseIsoDate(s) == Some(DayNumber(f.year, f.month, f.day))
  {
    var f := FieldsOf(s);
    assert f.day <= 31;
  }

  /** For valid dates the difference is that of their calendar day numbers. */
  lemma DaysDifferenceOfValidDates(a: string, b: string)
    requires IsValidDateString(a) && IsValidDateString(b)
    ensures var fa, fb := FieldsOf(a), FieldsOf(b);
      GetDaysDifference(a, b) == Some(Abs(DayNumber(fb.year, fb.month, fb.day) - DayNumber(fa.year, fa.month, fa.day)))
  {
    ParseValidDate(a);
    ParseValidDate(b);
  }

  /** Two valid dates are zero days apart exactly when they are the same string. */
  lemma DaysDifferenceZeroIffSame(a: string, b: string)
    requires IsValidDateString(a) && IsValidDateString(b)
    ensures GetDaysDifference(a, b) == Some(0) <==> a == b
  {
    var fa, fb := FieldsOf(a), FieldsOf(b);
    DayNumberInjective(fa, fb);
    DatePartOfFields(a);
    DatePartOfFields(b);
  }

  /** A date-shaped string with a month 1..12 and a day 1..31 parses to the
      day number of its fields. */
  lemma ParseOfFields(s: string, y: nat, m: int, d: int)
    requires IsDateShaped(s) && FieldsOf(s) == Date(y, m, d) && 1 <= m <= 12 && 1 <= d <= 31
    ensures ParseIsoDate(s) == Some(DayNumber(y, m, d))
  {
  }

  /** 2020-01-01 and 2020-01-07 are six days apart. */
  lemma DaysDifferenceSixDays()
    ensures GetDaysDifference("2020-01-01", "2020-01-07") == Some(6)
  {
    var a, b := "2020-01-01", "2020-01-07";
    assert a[..4] == "2020" && b[..4] == "2020";
    FieldsOfDigits(a);
    ParseOfFields(a, 2020, 1, 1);
    FieldsOfDigits(b);
    ParseOfFields(b, 2020, 1, 7);
  }

  /** 2020-01-01 and 2020-01-20 are nineteen days apart. */
  lemma DaysDifferenceNineteenDays()
    ensures GetDaysDifference("2020-01-01", "2020-01-20") == Some(19)
  {
    var a, b := "2020-01-01", "2020-01-20";
    assert a[..4] == "2020" && b[..4] == "2020";
    FieldsOfDigits(a);
    ParseOfFields(a, 2020, 1, 1);
    FieldsOfDigits(b);
    ParseOfFields(b, 2020, 1, 20);
  }

  // ---------------------------------------------------------------------
  // Query schemas. A field the query leaves out is None (`undefined`); an
  // optional field accepts None or a value its rule accepts.

  /** `^\d+$`: one or more decimal digits. */
  predicate IsDigitString(s: string)
  {
    |s| >= 1 && AllDigits(s)
  }

  /** `^\d{4}$`: exactly four decimal digits. */
  predicate IsFourDigits(s: string)
  {
    |s| == 4 && AllDigits(s)
  }

  /** The camera names `marsRoverQuerySchema` accepts. */
  const Cameras: set<string> := {"FHAZ", "RHAZ", "MAST", "CHEMCAM", "MAHLI", "MARDI", "NAVCAM"}

  /** The media types `imageLibraryQuerySchema` accepts. */
  const MediaTypes: set<string> := {"image", "video", "audio"}

  datatype ApodQuery = ApodQuery(date: Option<string>)

  datatype NeoQuery = NeoQuery(start_date: Option<string>, end_date: Option<string>)

  datatype MarsRoverQuery = MarsRoverQuery(sol: Option<string>, earth_date: Option<string>, camera: Option<string>, page: Option<string>)

  datatype EpicQuery = EpicQuery(date: Option<string>)

  datatype ImageLibraryQuery = ImageLibraryQuery(
    q: Option<string>, media_type: Option<string>, page: Option<string>,
    page_size: Option<string>, year_start: Option<string>, year_end: Option<string>)

  /** `apodQuerySchema`: the date is optional, and a given date must name a
      real day. */
  predicate ApodQuerySchema(query: ApodQuery): (ok: bool)
    ensures ok <==> query.date.None? || IsValidDateString(query.date.value)
  {
    query.date.None? || DateSchema(query.date.value)
  }

  /** `neoQuerySchema`: both dates present and valid, and the refinement that
      their day difference is at most 7. */
  predicate NeoQuerySchema(query: NeoQuery): (ok: bool)
    ensures ok ==>
      && query.start_date.Some? && query.end_date.Some?
      && IsValidDateString(query.start_date.value) && IsValidDateString(query.end_date.value)
  {
    query.start_date.Some? && query.end_date.Some?
    && DateSchema(query.start_date.value) && DateSchema(query.end_date.value)
    && var diff := GetDaysDifference(query.start_date.value, query.end_date.value);
       diff.Some? && diff.value <= 7
  }

  /** `marsRoverQuerySchema`: every field optional; a given sol or page is a
      non-empty digit string, a given earth date names a real day, and a given
      camera is one of the seven names. */
  predicate MarsRoverQuerySchema(query: MarsRoverQuery): (ok: bool)
    ensures ok <==>
      (query.sol.None? || (query.sol.value != [] && AllDigits(query.sol.value)))
      && (query.earth_date.None? || IsValidDateString(query.earth_date.value))
      && (query.camera.None? || query.camera.value in Cameras)
      && (query.page.None? || (query.page.value != [] && AllDigits(query.page.value)))
  {
    (query.sol.None? || IsDigitString(query.sol.value))
    && (query.earth_date.None? || DateSchema(query.earth_date.value))
    && (query.camera.None? || query.camera.value in Cameras)
    && (query.page.None? || IsDigitString(query.page.value))
  }

  /** `epicQuerySchema`: the date is optional, and a given date must name a
      real day. */
  predicate EpicQuerySchema(query: EpicQuery): (ok: bool)
    ensures ok <==> query.date.None? || IsValidDateString(query.date.value)
  {
    query.date.None? || DateSchema(query.date.value)
  }

  /** `imageLibraryQuerySchema`: `q` is required and at least one character
      long before any trimming; a given media type is image, video or audio;
      a given page or page size is a non-empty digit string; a given year is
      exactly four digits. */
  predicate ImageLibraryQuerySchema(query: ImageLibraryQuery): (ok: bool)
    ensures ok <==>
      && query.q.Some? && query.q.value != []
      && (query.media_type.None? || query.media_type.value in {"image", "video", "audio"})
      && (query.page.None? || (query.page.value != [] && AllDigits(query.page.value)))
      && (query.page_size.None? || (query.page_size.value != [] && AllDigits(query.page_size.value)))
      && (query.year_start.None? || (|query.year_start.value| == 4 && AllDigits(query.year_start.value)))
      && (query.year_end.None? || (|query.year_end.value| == 4 && AllDigits(query.year_end.value)))
    ensures ok && query.year_start.Some? ==> ValueOf(query.year_start.value) < 10000
    ensures ok && query.year_end.Some? ==> ValueOf(query.year_end.value) < 10000
  {
    query.q.Some? && |query.q.value| >= 1
    && (query.media_type.None? || query.media_type.value in MediaTypes)
    && (query.page.None? || IsDigitString(query.page.value))
    && (query.page_size.None? || IsDigitString(query.page_size.value))
    && (query.year_start.None? || IsFourDigits(query.year_start.value))
    && (query.year_end.None? || IsFourDigits(query.year_end.value))
  }

  /** What `neoQuerySchema` accepts, in calendar terms: two real days at most
      seven days apart, in either order. */
  lemma NeoQuerySchemaMeaning(query: NeoQuery)
    ensures NeoQuerySchema(query) <==>
      query.start_date.Some? && query.end_date.Some?
      && IsValidDateString(query.start_date.value) && IsValidDateString(query.end_date.value)
      && var fs, fe := FieldsOf(query.start_date.value), FieldsOf(query.end_date.value);
         -7 <= DayNumber(fe.year, fe.month, fe.day) - DayNumber(fs.year, fs.month, fs.day) <= 7
  {
    if query.start_date.Some? && query.end_date.Some?
       && IsValidDateString(query.start_date.value) && IsValidDateString(query.end_date.value)
    {
      DaysDifferenceOfValidDates(query.start_date.value, query.end_date.value);
    }
  }

  /** 1 January 2020 is a valid date. */
  lemma NewYear2020Valid()
    ensures ValidateDateFormat("2020-01-01")
  {
    var a := "2020-01-01";
    assert a[..4] == "2020";
    FieldsOfDigits(a);
    ValidateDateFormatOfFields(a, 2020, 1, 1);
  }

  /** 7 January 2020 is a valid date. */
  lemma SeventhJanuary2020Valid()
    ensures ValidateDateFormat("2020-01-07")
  {
    var b := "2020-01-07";
    assert b[..4] == "2020";
    FieldsOfDigits(b);
    ValidateDateFormatOfFields(b, 2020, 1, 7);
  }

  /** 20 January 2020 is a valid date. */
  lemma TwentiethJanuary2020Valid()
    ensures ValidateDateFormat("2020-01-20")
  {
    var c := "2020-01-20";
    assert c[..4] == "2020";
    FieldsOfDigits(c);
    ValidateDateFormatOfFields(c, 2020, 1, 20);
  }

  /** A six-day range passes `neoQuerySchema`. */
  lemma NeoQuerySchemaAcceptsWeek()
    ensures NeoQuerySchema(NeoQuery(Some("2020-01-01"), Some("2020-01-07")))
  {
    NewYear2020Valid();
    SeventhJanuary2020Valid();
    DaysDifferenceSixDays();
  }

  /** A nineteen-day range fails `neoQuerySchema`, whatever the date checks say. */
  lemma NeoQuerySchemaRejectsNineteenDays()
    ensures !NeoQuerySchema(NeoQuery(Some("2020-01-01"), Some("2020-01-20")))
  {
    DaysDifferenceNineteenDays();
  }

  /** The camera enumeration is case-sensitive and closed. */
  lemma CameraExamples()
    ensures MarsRoverQuerySchema(MarsRoverQuery(None, None, Some("NAVCAM"), None))
    ensures !MarsRoverQuerySchema(MarsRoverQuery(None, None, Some("navcam"), None))
    ensures !MarsRoverQuerySchema(MarsRoverQuery(None, None, Some("PANCAM"), None))
  {
  }

  /** `sol` and `page` take digit strings only: no sign, no empty string. */
  lemma DigitStringExamples()
    ensures IsDigitString("0") && IsDigitString("1000")
    ensures !IsDigitString("") && !IsDigitString("-1") && !IsDigitString("1.5")
  {
    assert "1000"[1..] == "000";
    assert "-1"[0] == '-';
    assert "1.5"[1] == '.';
  }

  /** Years are exactly four digits. */
  lemma FourDigitExamples()
    ensures IsFourDigits("2020")
    ensures !IsFourDigits("202") && !IsFourDigits("20201") && !IsFourDigits("20a0")
  {
    assert "20a0"[2] == 'a';
  }

  /** A single space satisfies the minimum length of `q`. */
  lemma BlankQueryPassesSchema()
    ensures ImageLibraryQuerySchema(ImageLibraryQuery(Some(" "), None, None, None, None, None))
    ensures !ImageLibraryQuerySchema(ImageLibraryQuery(Some(""), None, None, None, None, None))
    ensures !ImageLibraryQuerySchema(ImageLibraryQuery(None, None, None, None, None, None))
  {
  }
}
