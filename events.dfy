/** Airtable record to `Event` (python/events.py): the start time is read
    with the 12-hour format "%I:%M%p" and the date with "%Y-%m-%d", as
    `datetime.strptime` accepts them in the C locale; title and location
    are copied as they are. */
module Events {
  import opened Wrappers
  import opened Text
  import opened Digits

  datatype Date = Date(year: int, month: int, day: int)
  datatype Time = Time(hour: int, minute: int)

  /** Title and location are whatever `dict.get` returned, so possibly absent. */
  datatype Event = Event(title: Option<string>, date: Date, startTime: Option<Time>, location: Option<string>)

  predicate ValidTime(t: Time)
  {
    0 <= t.hour < 24 && 0 <= t.minute < 60
  }

  predicate IsLeapYear(y: int)
  {
    y % 4 == 0 && (y % 100 != 0 || y % 400 == 0)
  }

  function DaysInMonth(y: int, m: int): (n: int)
    requires 1 <= m <= 12
    ensures 28 <= n <= 31
  {
    if m == 2 then (if IsLeapYear(y) then 29 else 28)
    else if m == 4 || m == 6 || m == 9 || m == 11 then 30
    else 31
  }

  /** The dates `datetime.date` accepts. */
  predicate ValidDate(d: Date)
  {
    1 <= d.year <= 9999 && 1 <= d.month <= 12 && 1 <= d.day <= DaysInMonth(d.year, d.month)
  }

  /** Position of the first `c` in `s`. */
  function IndexOf(s: string, c: char): (r: Option<nat>)
    ensures r.None? <==> c !in s
    ensures r.Some? ==> r.value < |s| && s[r.value] == c && c !in s[..r.value]
  {
    if s == [] then None
    else if s[0] == c then Some(0)
    else match IndexOf(s[1..], c)
      case None => None
      case Some(i) =>
        assert s[..i + 1] == [s[0]] + s[1..][..i];
        Some(i + 1)
  }

  /** The first `c` is found wherever it is. */
  lemma IndexOfAt(s: string, c: char, i: nat)
    requires i < |s| && s[i] == c && c !in s[..i]
    ensures IndexOf(s, c) == Some(i)
  {
    var r := IndexOf(s, c);
    assert s[..i + 1][i] == c;
  }

  /** The pattern of `%I` and of `%m`: `1[0-2]|0[1-9]|[1-9]`. */
  predicate IsOneToTwelveText(h: string)
  {
    && AllDigits(h)
    && (   (|h| == 2 && h[0] == '1' && '0' <= h[1] <= '2')
       || (|h| == 2 && h[0] == '0' && '1' <= h[1] <= '9')
       || (|h| == 1 && '1' <= h[0] <= '9'))
  }

  /** The pattern of `%M`: `[0-5]\d|\d`. */
  predicate IsMinuteText(m: string)
  {
    && AllDigits(m)
    && ((|m| == 2 && '0' <= m[0] <= '5') || |m| == 1)
  }

  /** The pattern of `%d`: `3[01]|[12]\d|0[1-9]|[1-9]| [1-9]`. */
  predicate IsDayText(d: string)
  {
    || (|d| == 2 && d[0] == '3' && '0' <= d[1] <= '1')
    || (|d| == 2 && '1' <= d[0] <= '2' && IsDigit(d[1]))
    || (|d| == 2 && d[0] == '0' && '1' <= d[1] <= '9')
    || (|d| == 1 && '1' <= d[0] <= '9')
    || (|d| == 2 && d[0] == ' ' && '1' <= d[1] <= '9')
  }

  /** `int(text)` of a day; a leading blank is allowed. */
  function DayValue(d: string): nat
    requires IsDayText(d)
  {
    if d[0] == ' ' then DigitsValue(d[1..]) else DigitsValue(d)
  }

  /** `%p` in the C locale, matched ignoring case: `Some(true)` for PM. */
  function AmPm(p: string): Option<bool>
  {
    if |p| != 2 || LowerChar(p[1]) != 'm' then None
    else if LowerChar(p[0]) == 'a' then Some(false)
    else if LowerChar(p[0]) == 'p' then Some(true)
    else None
  }

  /** The hour on a 24-hour clock: 12 AM is midnight, 12 PM is noon. */
  function To24(hour12: nat, pm: bool): nat
  {
    if pm then (if hour12 == 12 then 12 else hour12 + 12)
    else (if hour12 == 12 then 0 else hour12)
  }

  /** The hour text and what follows the ':' of a "%I:%M%p" time: the last
      two characters are AM or PM, the minute is what lies between, and
      nothing else may follow. */
  function ReadTime12(hourText: string, rest: string): Option<Time>
  {
    if !IsOneToTwelveText(hourText) || |rest| < 2 then None
    else
      var minuteText := rest[..|rest| - 2];
      var amPm := AmPm(rest[|rest| - 2..]);
      if !IsMinuteText(minuteText) || amPm.None? then None
      else Some(Time(To24(DigitsValue(hourText), amPm.value), DigitsValue(minuteText)))
  }

  /** `datetime.strptime(s, "%I:%M%p").time()`: the hour runs up to the
      first ':'. */
  function ParseTime12(s: string): Option<Time>
  {
    match IndexOf(s, ':')
    case None => None
    case Some(colon) => ReadTime12(s[..colon], s[colon + 1..])
  }

  /** `datetime.strptime(s, "%Y-%m-%d").date()`: four digits of year, the
      month up to the next '-', the day after it, and a date that exists. */
  function ParseIsoDate(s: string): Option<Date>
  {
    if |s| < 5 || !AllDigits(s[..4]) || s[4] != '-' then None
    else
      var rest := s[5..];
      match IndexOf(rest, '-')
      case None => None
      case Some(dash) =>
        ReadDate(s[..4], rest[..dash], rest[dash + 1..])
  }

  /** The year, month and day texts of a "%Y-%m-%d" date. */
  function ReadDate(yearText: string, monthText: string, dayText: string): Option<Date>
    requires AllDigits(yearText)
  {
    if !IsOneToTwelveText(monthText) || !IsDayText(dayText) then None
    else
      var d := Date(DigitsValue(yearText), DigitsValue(monthText), DayValue(dayText));
      if ValidDate(d) then Some(d) else None
  }

  lemma OneToTwelveValue(h: string)
    requires IsOneToTwelveText(h)
    ensures AllDigits(h) && 1 <= DigitsValue(h) <= 12
  {
    if |h| == 2 {
      DigitsValueTwo(h);
    } else {
      DigitsValueOne(h);
    }
  }

  lemma MinuteValue(m: string)
    requires IsMinuteText(m)
    ensures AllDigits(m) && DigitsValue(m) < 60
  {
    if |m| == 2 {
      DigitsValueTwo(m);
    } else {
      DigitsValueOne(m);
    }
  }

  /** A parsed time is a time of day. */
  lemma ParseTime12Valid(s: string)
    ensures ParseTime12(s).Some? ==> ValidTime(ParseTime12(s).value)
  {
    match IndexOf(s, ':')
    case None =>
    case Some(colon) =>
      var hourText := s[..colon];
      var rest := s[colon + 1..];
      if IsOneToTwelveText(hourText) && |rest| >= 2 && IsMinuteText(rest[..|rest| - 2]) {
        OneToTwelveValue(hourText);
        MinuteValue(rest[..|rest| - 2]);
      }
  }

  /** The hour on a 12-hour clock; `To24` takes it back. */
  function Hour12(hour: int): (h: nat)
    requires 0 <= hour < 24
    ensures 1 <= h <= 12 && To24(h, hour >= 12) == hour
  {
    if hour == 0 || hour == 12 then 12 else if hour < 12 then hour else hour - 12
  }

  /** `time.strftime("%I:%M%p")` in the C locale: "09:05AM". */
  function FormatTime12(t: Time): (s: string)
    requires ValidTime(t)
    ensures |s| == 7
  {
    TwoDigits(Hour12(t.hour)) + ":" + TwoDigits(t.minute) + (if t.hour < 12 then "AM" else "PM")
  }

  /** A string made of an hour, ':', a minute and an AM/PM marker reads as
      that hour and minute. */
  lemma ParseTime12Parts(hourText: string, minuteText: string, marker: string)
    requires IsOneToTwelveText(hourText) && IsMinuteText(minuteText)
    requires |marker| == 2 && AmPm(marker).Some?
    ensures ParseTime12(hourText + ":" + minuteText + marker)
      == Some(Time(To24(DigitsValue(hourText), AmPm(marker).value), DigitsValue(minuteText)))
  {
    var s := hourText + ":" + minuteText + marker;
    var rest := minuteText + marker;
    assert s == hourText + ":" + rest;
    assert s[..|hourText|] == hourText;
    assert s[|hourText| + 1..] == rest;
    IndexOfAt(s, ':', |hourText|);
    assert rest[..|rest| - 2] == minuteText && rest[|rest| - 2..] == marker;
    assert ReadTime12(hourText, rest) == Some(Time(To24(DigitsValue(hourText), AmPm(marker).value), DigitsValue(minuteText)));
  }

  /** Reading back a formatted time gives the same time. */
  lemma ParseFormatTime12(t: Time)
    requires ValidTime(t)
    ensures ParseTime12(FormatTime12(t)) == Some(t)
  {
    var h12 := Hour12(t.hour);
    var marker := if t.hour < 12 then "AM" else "PM";
    assert AmPm(marker) == Some(t.hour >= 12);
    TwoDigitsValue(h12);
    TwoDigitsValue(t.minute);
    assert IsOneToTwelveText(TwoDigits(h12)) && IsMinuteText(TwoDigits(t.minute));
    ParseTime12Parts(TwoDigits(h12), TwoDigits(t.minute), marker);
  }

  /** Four decimal digits. */
  function FourDigits(n: nat): (s: string)
    requires n < 10000
    ensures |s| == 4 && AllDigits(s)
  {
    TwoDigits(n / 100) + TwoDigits(n % 100)
  }

  /** `date.isoformat()`: "2024-01-02". */
  function FormatIsoDate(d: Date): (s: string)
    requires ValidDate(d)
    ensures |s| == 10
  {
    FourDigits(d.year) + "-" + TwoDigits(d.month) + "-" + TwoDigits(d.day)
  }

  lemma FourDigitsValue(n: nat)
    requires n < 10000
    ensures DigitsValue(FourDigits(n)) == n
  {
    var s := FourDigits(n);
    assert s[..2] == TwoDigits(n / 100) && s[2..] == TwoDigits(n % 100);
    DigitsValueFour(s);
    TwoDigitsValue(n / 100);
    TwoDigitsValue(n % 100);
  }

  /** Two-digit day texts of real days match `%d`. */
  lemma TwoDigitDayText(day: nat)
    requires 1 <= day <= 31
    ensures IsDayText(TwoDigits(day))
  {
  }

  /** Four digits, '-', a month without '-', '-' and a day read as those
      three texts. */
  lemma ParseIsoDateParts(yearText: string, monthText: string, dayText: string)
    requires |yearText| == 4 && AllDigits(yearText) && '-' !in monthText
    ensures ParseIsoDate(yearText + "-" + monthText + "-" + dayText) == ReadDate(yearText, monthText, dayText)
  {
    var s := yearText + "-" + monthText + "-" + dayText;
    assert s[..4] == yearText;
    var rest := s[5..];
    assert rest == monthText + "-" + dayText;
    assert rest[..|monthText|] == monthText;
    IndexOfAt(rest, '-', |monthText|);
    assert rest[|monthText| + 1..] == dayText;
  }

  /** Reading back a formatted date gives the same date. */
  lemma ParseFormatIsoDate(d: Date)
    requires ValidDate(d)
    ensures ParseIsoDate(FormatIsoDate(d)) == Some(d)
  {
    FourDigitsValue(d.year);
    TwoDigitsValue(d.month);
    TwoDigitsValue(d.day);
    TwoDigitDayText(d.day);
    ParseIsoDateParts(FourDigits(d.year), TwoDigits(d.month), TwoDigits(d.day));
    assert ReadDate(FourDigits(d.year), TwoDigits(d.month), TwoDigits(d.day)) == Some(d);
  }

  /** A parsed date exists on the calendar. */
  lemma ParseIsoDateValid(s: string)
    ensures ParseIsoDate(s).Some? ==> ValidDate(ParseIsoDate(s).value)
  {
  }

  type Fields = map<string, string>

  /** `dict.get`. */
  function Get(fields: Fields, key: string): (r: Option<string>)
    ensures r.Some? <==> key in fields
    ensures r.Some? ==> r.value == fields[key]
  {
    if key in fields then Some(fields[key]) else None
  }

  /** Python truthiness of an optional string. */
  predicate Truthy(s: Option<string>)
  {
    s.Some? && s.value != ""
  }

  const MissingFieldsError := "KeyError: 'fields'"
  const TimeFormatError := "ValueError: time data does not match format '%I:%M%p'"
  const DateTypeError := "TypeError: strptime() argument 1 must be str, not None"
  const DateFormatError := "ValueError: time data does not match format '%Y-%m-%d'"

  /** `airtable_record_to_event`: the start time is parsed only when it is
      present and non-empty, then the date is parsed; either parse may
      raise, and so does a record without "fields" or a date. */
  function AirtableRecordToEvent(record: map<string, Fields>): Result<Event>
  {
    if "fields" !in record then Failure(MissingFieldsError)
    else
      var fields := record["fields"];
      var startTimeText := Get(fields, "Start Time");
      if Truthy(startTimeText) && ParseTime12(startTimeText.value).None? then Failure(TimeFormatError)
      else if "Date" !in fields then Failure(DateTypeError)
      else
        match ParseIsoDate(fields["Date"])
        case None => Failure(DateFormatError)
        case Some(date) =>
          var startTime := if Truthy(startTimeText) then ParseTime12(startTimeText.value) else None;
          Success(Event(Get(fields, "Title"), date, startTime, Get(fields, "Location")))
  }

  /** An event is built exactly when the record has fields, a well-formed
      start time or none, and a well-formed existing date. */
  lemma AirtableRecordToEventSucceeds(record: map<string, Fields>)
    ensures AirtableRecordToEvent(record).Success? <==>
      && "fields" in record
      && (var fields := record["fields"];
          && (Truthy(Get(fields, "Start Time")) ==> ParseTime12(fields["Start Time"]).Some?)
          && "Date" in fields
          && ParseIsoDate(fields["Date"]).Some?)
  {
  }

  /** The event carries the record's title and location verbatim, its
      parsed date, and a start time exactly when "Start Time" is present
      and non-empty, which is then a time of day. */
  lemma AirtableRecordToEventFields(record: map<string, Fields>)
    requires AirtableRecordToEvent(record).Success?
    ensures var e := AirtableRecordToEvent(record).value;
      var fields := record["fields"];
      && e.title == Get(fields, "Title")
      && e.location == Get(fields, "Location")
      && Some(e.date) == ParseIsoDate(fields["Date"])
      && ValidDate(e.date)
      && (e.startTime.None? <==> !Truthy(Get(fields, "Start Time")))
      && (e.startTime.Some? ==> ValidTime(e.startTime.value))
  {
    var fields := record["fields"];
    ParseIsoDateValid(fields["Date"]);
    if "Start Time" in fields {
      ParseTime12Valid(fields["Start Time"]);
    }
  }

  /** The Airtable fields of an event, its time and date written out. */
  function EventFields(e: Event): Fields
    requires ValidDate(e.date)
    requires e.startTime.Some? ==> ValidTime(e.startTime.value)
  {
    var withTitle := if e.title.Some? then map["Title" := e.title.value] else map[];
    var withLocation := if e.location.Some? then withTitle["Location" := e.location.value] else withTitle;
    var withTime := if e.startTime.Some? then withLocation["Start Time" := FormatTime12(e.startTime.value)] else withLocation;
    withTime["Date" := FormatIsoDate(e.date)]
  }

  /** Every event with a real date and time of day comes back unchanged
      from its own record. */
  lemma AirtableRecordToEventRoundTrip(e: Event)
    requires ValidDate(e.date)
    requires e.startTime.Some? ==> ValidTime(e.startTime.value)
    ensures AirtableRecordToEvent(map["fields" := EventFields(e)]) == Success(e)
  {
    var fields := EventFields(e);
    ParseFormatIsoDate(e.date);
    if e.startTime.Some? {
      ParseFormatTime12(e.startTime.value);
      assert Get(fields, "Start Time") == Some(FormatTime12(e.startTime.value));
    } else {
      assert "Start Time" !in fields;
    }
    assert Get(fields, "Title") == e.title;
    assert Get(fields, "Location") == e.location;
  }

  /** "9:00am" is nine in the morning. */
  lemma ParseTime12NineAm()
    ensures ParseTime12("9:00am") == Some(Time(9, 0))
  {
    assert "9" + ":" + "00" + "am" == "9:00am";
    DigitsValueOne("9");
    DigitsValueTwo("00");
    ParseTime12Parts("9", "00", "am");
  }

  /** "12:30am" is half past midnight. */
  lemma ParseTime12HalfPastMidnight()
    ensures ParseTime12("12:30am") == Some(Time(0, 30))
  {
    assert TwoDigits(12) + ":" + TwoDigits(30) + "am" == "12:30am";
    TwoDigitsValue(12);
    TwoDigitsValue(30);
    ParseTime12Parts(TwoDigits(12), TwoDigits(30), "am");
  }

  /** "12:05PM" is just after noon. */
  lemma ParseTime12AfterNoon()
    ensures ParseTime12("12:05PM") == Some(Time(12, 5))
  {
    assert TwoDigits(12) + ":" + TwoDigits(5) + "PM" == "12:05PM";
    TwoDigitsValue(12);
    TwoDigitsValue(5);
    ParseTime12Parts(TwoDigits(12), TwoDigits(5), "PM");
  }

  /** "13:00pm" has no 12-hour hour. */
  lemma ParseTime12RejectsThirteen()
    ensures ParseTime12("13:00pm") == None
  {
    var s := "13:00pm";
    IndexOfAt(s, ':', 2);
    assert s[..2] == "13";
  }

  /** "9:00" has no AM/PM marker. */
  lemma ParseTime12RejectsNoMarker()
    ensures ParseTime12("9:00") == None
  {
    var s := "9:00";
    IndexOfAt(s, ':', 1);
    var rest := s[2..];
    assert |rest| == 2 && rest[..0] == "";
  }

  /** "2024-01-02" is the second of January 2024. */
  lemma ParseIsoDateSecondOfJanuary()
    ensures ParseIsoDate("2024-01-02") == Some(Date(2024, 1, 2))
  {
    assert FormatIsoDate(Date(2024, 1, 2)) == "2024-01-02";
    ParseFormatIsoDate(Date(2024, 1, 2));
  }

  /** 29 February exists in 2024. */
  lemma ParseIsoDateLeapDay()
    ensures ParseIsoDate("2024-02-29") == Some(Date(2024, 2, 29))
  {
    assert FormatIsoDate(Date(2024, 2, 29)) == "2024-02-29";
    ParseFormatIsoDate(Date(2024, 2, 29));
  }

  /** 29 February does not exist in 2023. */
  lemma ParseIsoDateNoLeapDay()
    ensures ParseIsoDate("2023-02-29") == None
  {
    var s := FourDigits(2023) + "-" + TwoDigits(2) + "-" + TwoDigits(29);
    assert s == "2023-02-29";
    FourDigitsValue(2023);
    TwoDigitsValue(2);
    TwoDigitsValue(29);
    TwoDigitDayText(29);
    ParseIsoDateParts(FourDigits(2023), TwoDigits(2), TwoDigits(29));
    assert ReadDate(FourDigits(2023), TwoDigits(2), TwoDigits(29)) == None;
  }
}
