/**
 * The calendar-event route of klara-backend/app/routes/calendar_events.py.  The
 * request's `event_date` must read `YYYY-MM-DD`; a non-empty `event_time` is read as
 * `HH:MM:SS` when it holds exactly two colons and as `HH:MM` otherwise.  Both are
 * read before anything is created: a failure rolls the session back and answers 500,
 * a success adds one event and commits.
 *
 * The validators accept exactly the zero-padded forms named in the route's comments,
 * with the range checks the date and time constructors apply (month 1-12, a day that
 * exists in that month, hour 0-23, minute and second 0-59).
 */
module CalendarEventRoutes {
  import opened Wrappers
  import opened HttpErrors

  datatype Date = Date(year: nat, month: nat, day: nat)

  datatype TimeOfDay = TimeOfDay(hour: nat, minute: nat, second: nat)

  /** The two time formats the route chooses between: "%H:%M" and "%H:%M:%S". */
  datatype TimeFormat = HourMinute | HourMinuteSecond

  // ---------------------------------------------------------------- digits

  predicate IsDigit(c: char) {
    '0' <= c <= '9'
  }

  predicate AllDigits(s: string) {
    forall i :: 0 <= i < |s| ==> IsDigit(s[i])
  }

  function DigitChar(n: nat): (c: char)
    requires n < 10
    ensures IsDigit(c) && c as int - '0' as int == n
  {
    ('0' as int + n) as char
  }

  function Pow10(n: nat): nat {
    if n == 0 then 1 else 10 * Pow10(n - 1)
  }

  /** The number a string of decimal digits denotes. */
  function DecimalValue(s: string): nat
    requires AllDigits(s)
  {
    if s == [] then 0 else DecimalValue(s[..|s| - 1]) * 10 + (s[|s| - 1] as int - '0' as int)
  }

  /** `n` written with exactly `width` decimal digits, leading zeros included. */
  function Padded(n: nat, width: nat): (s: string)
    requires n < Pow10(width)
    ensures |s| == width && AllDigits(s)
  {
    if width == 0 then []
    else Padded(n / 10, width - 1) + [DigitChar(n % 10)]
  }

  lemma {:induction false} DecimalValueOfPadded(n: nat, width: nat)
    requires n < Pow10(width)
    ensures DecimalValue(Padded(n, width)) == n
  {
    if width > 0 {
      var s := Padded(n, width);
      assert s[..width - 1] == Padded(n / 10, width - 1);
      DecimalValueOfPadded(n / 10, width - 1);
    }
  }

  /** Appending digit `d` to the numeral of `x` gives a number whose quotient by ten is `x`
      and whose remainder is `d`. */
  lemma DivModDigit(x: nat, d: int)
    requires 0 <= d < 10
    ensures (x * 10 + d) / 10 == x && (x * 10 + d) % 10 == d
  {
  }

  lemma {:induction false} PaddedOfDecimalValue(s: string)
    requires AllDigits(s)
    ensures DecimalValue(s) < Pow10(|s|)
    ensures Padded(DecimalValue(s), |s|) == s
  {
    if s != [] {
      var front := s[..|s| - 1];
      var d := s[|s| - 1] as int - '0' as int;
      PaddedOfDecimalValue(front);
      var v := DecimalValue(s);
      assert v == DecimalValue(front) * 10 + d;
      DivModDigit(DecimalValue(front), d);
      assert s == front + [s[|s| - 1]];
    }
  }

  // ---------------------------------------------------------------- colons

  function ColonCount(s: string): nat {
    if s == [] then 0 else (if s[0] == ':' then 1 else 0) + ColonCount(s[1..])
  }

  lemma {:induction false} ColonCountAppend(a: string, b: string)
    ensures ColonCount(a + b) == ColonCount(a) + ColonCount(b)
  {
    if a == [] {
      assert a + b == b;
    } else {
      assert (a + b)[1..] == a[1..] + b;
      ColonCountAppend(a[1..], b);
    }
  }

  lemma {:induction false} DigitsHaveNoColon(s: string)
    requires AllDigits(s)
    ensures ColonCount(s) == 0
  {
    if s != [] {
      DigitsHaveNoColon(s[1..]);
    }
  }

  // ---------------------------------------------------------------- dates

  predicate IsLeapYear(year: nat) {
    year % 4 == 0 && (year % 100 != 0 || year % 400 == 0)
  }

  function DaysInMonth(year: nat, month: nat): nat
    requires 1 <= month <= 12
  {
    if month == 2 then (if IsLeapYear(year) then 29 else 28)
    else if month == 4 || month == 6 || month == 9 || month == 11 then 30
    else 31
  }

  /** A day that exists in the proleptic Gregorian calendar, years 1 to 9999. */
  predicate ValidDate(d: Date) {
    1 <= d.year <= 9999 && 1 <= d.month <= 12 && 1 <= d.day <= DaysInMonth(d.year, d.month)
  }

  function FormatDate(d: Date): (s: string)
    requires ValidDate(d)
    ensures |s| == 10
  {
    Padded(d.year, 4) + "-" + Padded(d.month, 2) + "-" + Padded(d.day, 2)
  }

  predicate DateShape(s: string) {
    |s| == 10 && AllDigits(s[..4]) && s[4] == '-' && AllDigits(s[5..7]) && s[7] == '-' && AllDigits(s[8..])
  }

  /** `strptime(s, "%Y-%m-%d").date()`, on the zero-padded form. */
  function ParseDate(s: string): (r: Option<Date>)
    ensures r.Some? ==> DateShape(s) && ValidDate(r.value)
    ensures !DateShape(s) ==> r.None?
  {
    if !DateShape(s) then None
    else
      var d := Date(DecimalValue(s[..4]), DecimalValue(s[5..7]), DecimalValue(s[8..]));
      if ValidDate(d) then Some(d) else None
  }

  /** Every valid date reads back from its `YYYY-MM-DD` form. */
  lemma DateRoundTrip(d: Date)
    requires ValidDate(d)
    ensures ParseDate(FormatDate(d)) == Some(d)
  {
    var y, m, dd := Padded(d.year, 4), Padded(d.month, 2), Padded(d.day, 2);
    var s := FormatDate(d);
    assert s == y + "-" + m + "-" + dd;
    assert s[..4] == y && s[4] == '-' && s[5..7] == m && s[7] == '-' && s[8..] == dd;
    assert DateShape(s);
    DecimalValueOfPadded(d.year, 4);
    DecimalValueOfPadded(d.month, 2);
    DecimalValueOfPadded(d.day, 2);
    assert Date(DecimalValue(s[..4]), DecimalValue(s[5..7]), DecimalValue(s[8..])) == d;
  }

  /** Only the `YYYY-MM-DD` form of a valid date is accepted. */
  lemma ParsedDateIsCanonical(s: string)
    requires ParseDate(s).Some?
    ensures ValidDate(ParseDate(s).value) && FormatDate(ParseDate(s).value) == s
  {
    PaddedOfDecimalValue(s[..4]);
    PaddedOfDecimalValue(s[5..7]);
    PaddedOfDecimalValue(s[8..]);
    assert s == s[..4] + "-" + s[5..7] + "-" + s[8..];
  }

  // ---------------------------------------------------------------- times

  predicate ValidTime(t: TimeOfDay) {
    t.hour <= 23 && t.minute <= 59 && t.second <= 59
  }

  function FormatTime(t: TimeOfDay, format: TimeFormat): string
    requires ValidTime(t)
  {
    Padded(t.hour, 2) + ":" + Padded(t.minute, 2)
      + (if format == HourMinuteSecond then ":" + Padded(t.second, 2) else "")
  }

  /** `strptime(s, format).time()`, on the zero-padded form; "%H:%M" sets no seconds. */
  function ParseTime(s: string, format: TimeFormat): (r: Option<TimeOfDay>)
    ensures r.Some? ==> ValidTime(r.value)
    ensures r.Some? && format == HourMinute ==> r.value.second == 0
  {
    match format
    case HourMinute =>
      if |s| == 5 && AllDigits(s[..2]) && s[2] == ':' && AllDigits(s[3..]) then
        var t := TimeOfDay(DecimalValue(s[..2]), DecimalValue(s[3..]), 0);
        if ValidTime(t) then Some(t) else None
      else None
    case HourMinuteSecond =>
      if |s| == 8 && AllDigits(s[..2]) && s[2] == ':' && AllDigits(s[3..5]) && s[5] == ':' && AllDigits(s[6..]) then
        var t := TimeOfDay(DecimalValue(s[..2]), DecimalValue(s[3..5]), DecimalValue(s[6..]));
        if ValidTime(t) then Some(t) else None
      else None
  }

  /** The format the route picks for a non-empty time string. */
  function FormatFor(s: string): (f: TimeFormat)
    ensures f == HourMinuteSecond <==> ColonCount(s) == 2
  {
    if ColonCount(s) == 2 then HourMinuteSecond else HourMinute
  }

  function FormatDirective(format: TimeFormat): string {
    match format
    case HourMinute => "%H:%M"
    case HourMinuteSecond => "%H:%M:%S"
  }

  function Mismatch(s: string, directive: string): string {
    "time data '" + s + "' does not match format '" + directive + "'"
  }

  /** The optional time of the request: absent or empty means no time. */
  function ParseEventTime(eventTime: Option<string>): (r: Result<Option<TimeOfDay>, string>)
    ensures (eventTime == None || eventTime == Some("")) ==> r == Success(None)
    ensures eventTime.Some? && eventTime.value != "" ==>
      (r.Success? <==> ParseTime(eventTime.value, FormatFor(eventTime.value)).Some?)
    ensures eventTime.Some? && eventTime.value != "" && r.Success? ==>
      r.value == ParseTime(eventTime.value, FormatFor(eventTime.value))
    ensures r.Success? && r.value.Some? ==> ValidTime(r.value.value)
  {
    match eventTime
    case None => Success(None)
    case Some(s) =>
      if s == "" then Success(None)
      else
        match ParseTime(s, FormatFor(s))
        case Some(t) => Success(Some(t))
        case None => Failure(Mismatch(s, FormatDirective(FormatFor(s))))
  }

  /** An accepted time string has one colon when read as `HH:MM` and two as `HH:MM:SS`. */
  lemma ParsedTimeColons(s: string, format: TimeFormat)
    requires ParseTime(s, format).Some?
    ensures ColonCount(s) == (if format == HourMinute then 1 else 2)
  {
    match format
    case HourMinute =>
      var hh, mm := s[..2], s[3..];
      assert s == hh + (":" + mm);
      ColonCountAppend(hh, ":" + mm);
      ColonCountAppend(":", mm);
      DigitsHaveNoColon(hh);
      DigitsHaveNoColon(mm);
    case HourMinuteSecond =>
      var hh, mm, ss := s[..2], s[3..5], s[6..];
      assert s == hh + (":" + (mm + (":" + ss)));
      ColonCountAppend(hh, ":" + (mm + (":" + ss)));
      ColonCountAppend(":", mm + (":" + ss));
      ColonCountAppend(mm, ":" + ss);
      ColonCountAppend(":", ss);
      DigitsHaveNoColon(hh);
      DigitsHaveNoColon(mm);
      DigitsHaveNoColon(ss);
  }

  /** Only the `HH:MM` or `HH:MM:SS` form of a valid time is accepted: an accepted string
      is exactly the form of the time it yields. */
  lemma ParsedTimeIsCanonical(s: string, format: TimeFormat)
    requires ParseTime(s, format).Some?
    ensures FormatTime(ParseTime(s, format).value, format) == s
  {
    match format
    case HourMinute =>
      PaddedOfDecimalValue(s[..2]);
      PaddedOfDecimalValue(s[3..]);
      assert s == s[..2] + ":" + s[3..];
    case HourMinuteSecond =>
      PaddedOfDecimalValue(s[..2]);
      PaddedOfDecimalValue(s[3..5]);
      PaddedOfDecimalValue(s[6..]);
      assert s == s[..2] + ":" + s[3..5] + ":" + s[6..];
  }

  /** A non-empty time string without exactly one or two colons is always rejected. */
  lemma OtherColonCountsRejected(s: string)
    requires s != "" && ColonCount(s) != 1 && ColonCount(s) != 2
    ensures ParseEventTime(Some(s)).Failure?
  {
    if ParseTime(s, FormatFor(s)).Some? {
      ParsedTimeColons(s, FormatFor(s));
    }
  }

  /** Every valid time reads back from both of its forms: `HH:MM:SS` fully, `HH:MM`
      with the seconds dropped. */
  lemma EventTimeRoundTrip(t: TimeOfDay, format: TimeFormat)
    requires ValidTime(t)
    ensures ParseEventTime(Some(FormatTime(t, format)))
      == Success(Some(if format == HourMinute then t.(second := 0) else t))
  {
    var s := FormatTime(t, format);
    var h, m, sec := Padded(t.hour, 2), Padded(t.minute, 2), Padded(t.second, 2);
    DecimalValueOfPadded(t.hour, 2);
    DecimalValueOfPadded(t.minute, 2);
    DecimalValueOfPadded(t.second, 2);
    match format
    case HourMinute =>
      assert s[..2] == h && s[3..] == m;
      assert ParseTime(s, HourMinute) == Some(t.(second := 0));
      ParsedTimeColons(s, HourMinute);
    case HourMinuteSecond =>
      assert s[..2] == h && s[3..5] == m && s[6..] == sec;
      assert ParseTime(s, HourMinuteSecond) == Some(t);
      ParsedTimeColons(s, HourMinuteSecond);
  }

  // ---------------------------------------------------------------- the route

  datatype CreateCalendarEventRequest = CreateCalendarEventRequest(
    userId: int, description: string, eventDate: string, eventTime: Option<string>, rawInput: string)

  /** The row handed to the session: the ORM object before its id and timestamp exist. */
  datatype CalendarEventRow = CalendarEventRow(
    userId: int, description: string, eventDate: Date, eventTime: Option<TimeOfDay>, rawInput: string)

  /** Both conversions of the route, date first. */
  function ParseRequest(request: CreateCalendarEventRequest): (r: Result<(Date, Option<TimeOfDay>), string>)
    ensures r.Success? ==> ParseDate(request.eventDate) == Some(r.value.0) && ValidDate(r.value.0)
    ensures r.Success? ==> ParseEventTime(request.eventTime) == Success(r.value.1)
    ensures r.Failure? <==> ParseDate(request.eventDate).None? || ParseEventTime(request.eventTime).Failure?
  {
    match ParseDate(request.eventDate)
    case None => Failure(Mismatch(request.eventDate, "%Y-%m-%d"))
    case Some(date) =>
      match ParseEventTime(request.eventTime)
      case Failure(message) => Failure(message)
      case Success(time) => Success((date, time))
  }

  function CreateFailed(message: string): HttpError {
    HttpError(InternalServerError, "Failed to create calendar event: " + message)
  }

  /** The request's database session: rows added since the last commit are pending. */
  class Session {
    var committed: seq<CalendarEventRow>
    var pending: seq<CalendarEventRow>

    constructor ()
      ensures committed == [] && pending == []
    {
      committed, pending := [], [];
    }

    method Add(row: CalendarEventRow)
      modifies this
      ensures pending == old(pending) + [row] && committed == old(committed)
    {
      pending := pending + [row];
    }

    method Commit()
      modifies this
      ensures committed == old(committed) + old(pending) && pending == []
    {
      committed, pending := committed + pending, [];
    }

    method Rollback()
      modifies this
      ensures committed == old(committed) && pending == []
    {
      pending := [];
    }
  }

  /**
   * `create_calendar_event`: a malformed date or time rolls back and answers 500
   * before anything is added; otherwise exactly one row with the request's user,
   * description and raw input is added and committed.
   */
  method CreateCalendarEvent(session: Session, request: CreateCalendarEventRequest)
    returns (r: Result<CalendarEventRow, HttpError>)
    modifies session
    ensures ParseRequest(request).Failure? ==>
      && r == Failure(CreateFailed(ParseRequest(request).error))
      && session.committed == old(session.committed) && session.pending == []
    ensures ParseRequest(request).Success? ==>
      && r == Success(CalendarEventRow(request.userId, request.description, ParseRequest(request).value.0,
                                       ParseRequest(request).value.1, request.rawInput))
      && session.committed == old(session.committed) + old(session.pending) + [r.value]
      && session.pending == []
  {
    var eventDate := ParseDate(request.eventDate);
    if eventDate.None? {
      session.Rollback();
      return Failure(CreateFailed(Mismatch(request.eventDate, "%Y-%m-%d")));
    }
    var eventTime := ParseEventTime(request.eventTime);
    if eventTime.Failure? {
      session.Rollback();
      return Failure(CreateFailed(eventTime.error));
    }
    var row := CalendarEventRow(request.userId, request.description, eventDate.value, eventTime.value,
                                request.rawInput);
    session.Add(row);
    session.Commit();
    r := Success(row);
  }
}
