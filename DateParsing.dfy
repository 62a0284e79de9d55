/**
 * The importer's multi-format date reader: `datetime.strptime` tried over a
 * fixed, ordered list of formats, the first success re-rendered as
 * `YYYY-MM-DD HH:MM:SS` (dbm/wizard/wizard.py:79-104; the same list in the
 * project and helpdesk imports; a six-format copy for stock-lot warranties).
 *
 * What `strptime` accepts for each directive is written out: `%d`, `%m`,
 * `%H`, `%M`, `%S` take one or two digits (and `%d` also a space followed by
 * one non-zero digit), `%Y` takes exactly four digits, a blank in the format
 * takes one or more whitespace characters, and the whole string must be
 * consumed. The fields must then form a real calendar date and time.
 */
module DateParsing {
  import opened Common

  datatype DateTime = DateTime(year: int, month: int, day: int, hour: int, minute: int, second: int)

  predicate IsLeapYear(y: int) {
    y % 4 == 0 && (y % 100 != 0 || y % 400 == 0)
  }

  function DaysInMonth(y: int, m: int): (n: int)
    requires 1 <= m <= 12
    ensures 28 <= n <= 31
  {
    if m == 2 then (if IsLeapYear(y) then 29 else 28)
    else if m == 4 || m == 6 || m == 9 || m == 11 then 30
    else 31
  }

  /** What Python's `datetime` constructor accepts. */
  predicate ValidDateTime(t: DateTime) {
    && 1 <= t.year <= 9999
    && 1 <= t.month <= 12
    && 1 <= t.day <= DaysInMonth(t.year, t.month)
    && 0 <= t.hour <= 23
    && 0 <= t.minute <= 59
    && 0 <= t.second <= 59
  }

  // ---------------------------------------------------------------------
  // The formats

  datatype DateOrder = DayFirst | YearFirst
  datatype Clock = NoClock | HourMinute | HourMinuteSecond
  /** `%d<sep>%m<sep>%Y` or `%Y<sep>%m<sep>%d`, optionally followed by a
      blank and `%H:%M` or `%H:%M:%S`. */
  datatype DateFormat = DateFormat(order: DateOrder, sep: char, clock: Clock)

  /** The eight formats, in the order the importer tries them. */
  const Formats: seq<DateFormat> := [
    DateFormat(DayFirst, '/', HourMinute),         // %d/%m/%Y %H:%M
    DateFormat(DayFirst, '/', HourMinuteSecond),   // %d/%m/%Y %H:%M:%S
    DateFormat(DayFirst, '/', NoClock),            // %d/%m/%Y
    DateFormat(YearFirst, '-', HourMinuteSecond),  // %Y-%m-%d %H:%M:%S
    DateFormat(YearFirst, '-', HourMinute),        // %Y-%m-%d %H:%M
    DateFormat(YearFirst, '-', NoClock),           // %Y-%m-%d
    DateFormat(DayFirst, '-', HourMinute),         // %d-%m-%Y %H:%M
    DateFormat(DayFirst, '-', NoClock)             // %d-%m-%Y
  ]

  /** The stock-lot warranty fields use only the first six. */
  const WarrantyFormats: seq<DateFormat> := Formats[..6]

  // ---------------------------------------------------------------------
  // Directive readers: each returns the value read and the unread rest.

  /** `%m`, `%H`, `%M`, `%S` and the digit forms of `%d`: one or two digits.
      Every directive stands before a non-digit or at the end, so reading
      two digits when there are two is what the regular expression does. */
  function TwoDigits(s: string): (r: Option<(int, string)>)
    ensures r.Some? ==> 0 <= r.value.0 <= 99 && |r.value.1| < |s|
  {
    if |s| >= 2 && IsAsciiDigit(s[0]) && IsAsciiDigit(s[1]) then
      Some((10 * DigitValue(s[0]) + DigitValue(s[1]), s[2..]))
    else if |s| >= 1 && IsAsciiDigit(s[0]) then
      Some((DigitValue(s[0]), s[1..]))
    else None
  }

  /** `%d`: the digit forms, or a space and one digit 1..9. */
  function DayDigits(s: string): (r: Option<(int, string)>)
    ensures r.Some? ==> 0 <= r.value.0 <= 99
  {
    if |s| >= 2 && s[0] == ' ' && '1' <= s[1] <= '9' then Some((DigitValue(s[1]), s[2..]))
    else TwoDigits(s)
  }

  /** `%Y`: exactly four digits. */
  function FourDigits(s: string): (r: Option<(int, string)>)
    ensures r.Some? ==> 0 <= r.value.0 <= 9999
  {
    if |s| >= 4 && IsAsciiDigit(s[0]) && IsAsciiDigit(s[1]) && IsAsciiDigit(s[2]) && IsAsciiDigit(s[3]) then
      Some((1000 * DigitValue(s[0]) + 100 * DigitValue(s[1]) + 10 * DigitValue(s[2]) + DigitValue(s[3]), s[4..]))
    else None
  }

  /** A literal character of the format. */
  function Literal(s: string, c: char): Option<string> {
    if |s| >= 1 && s[0] == c then Some(s[1..]) else None
  }

  /** A blank of the format: one or more whitespace characters. */
  function Blanks(s: string): Option<string> {
    if |s| >= 1 && IsSpace(s[0]) then Some(TrimLeft(s)) else None
  }

  /** The date part, as (year, month, day) and the rest. */
  function ReadDate(order: DateOrder, sep: char, s: string): Option<(int, int, int, string)> {
    match order
    case DayFirst =>
      var d :- DayDigits(s);
      var r1 :- Literal(d.1, sep);
      var m :- TwoDigits(r1);
      var r2 :- Literal(m.1, sep);
      var y :- FourDigits(r2);
      Some((y.0, m.0, d.0, y.1))
    case YearFirst =>
      var y :- FourDigits(s);
      var r1 :- Literal(y.1, sep);
      var m :- TwoDigits(r1);
      var r2 :- Literal(m.1, sep);
      var d :- DayDigits(r2);
      Some((y.0, m.0, d.0, d.1))
  }

  /** The clock part, which must take the rest of the string. */
  function ReadClock(clock: Clock, s: string): (r: Option<(int, int, int)>)
    ensures r.Some? && clock == NoClock ==> r.value == (0, 0, 0)
    ensures r.Some? && clock == HourMinute ==> r.value.2 == 0
  {
    match clock
    case NoClock => if s == [] then Some((0, 0, 0)) else None
    case HourMinute =>
      var r0 :- Blanks(s);
      var h :- TwoDigits(r0);
      var r1 :- Literal(h.1, ':');
      var m :- TwoDigits(r1);
      if m.1 == [] then Some((h.0, m.0, 0)) else None
    case HourMinuteSecond =>
      var r0 :- Blanks(s);
      var h :- TwoDigits(r0);
      var r1 :- Literal(h.1, ':');
      var m :- TwoDigits(r1);
      var r2 :- Literal(m.1, ':');
      var sec :- TwoDigits(r2);
      if sec.1 == [] then Some((h.0, m.0, sec.0)) else None
  }

  /** `datetime.strptime(s, f)`: None where Python raises ValueError. */
  function ParseWith(f: DateFormat, s: string): (r: Option<DateTime>)
    ensures r.Some? ==> ValidDateTime(r.value)
    ensures r.Some? && f.clock == NoClock ==> r.value.hour == 0 && r.value.minute == 0 && r.value.second == 0
    ensures r.Some? && f.clock == HourMinute ==> r.value.second == 0
  {
    var date :- ReadDate(f.order, f.sep, s);
    var clock :- ReadClock(f.clock, date.3);
    var t := DateTime(date.0, date.1, date.2, clock.0, clock.1, clock.2);
    if ValidDateTime(t) then Some(t) else None
  }

  // ---------------------------------------------------------------------
  // First match over a list of formats

  /** The index of the first format, from `k` on, that accepts `s`. */
  function FirstMatchFrom(fmts: seq<DateFormat>, s: string, k: nat): (r: Option<nat>)
    requires k <= |fmts|
    ensures r.Some? ==> k <= r.value < |fmts| && ParseWith(fmts[r.value], s).Some?
    ensures r.Some? ==> forall j :: k <= j < r.value ==> ParseWith(fmts[j], s).None?
    ensures r.None? ==> forall j :: k <= j < |fmts| ==> ParseWith(fmts[j], s).None?
    decreases |fmts| - k
  {
    if k == |fmts| then None
    else if ParseWith(fmts[k], s).Some? then Some(k)
    else FirstMatchFrom(fmts, s, k + 1)
  }

  /** The loop over a format list: the first successful parse, or None. */
  function ParseFirst(fmts: seq<DateFormat>, s: string): (r: Option<DateTime>)
    ensures r.Some? <==> exists i :: 0 <= i < |fmts| && ParseWith(fmts[i], s).Some?
  {
    match FirstMatchFrom(fmts, s, 0)
    case Some(i) => ParseWith(fmts[i], s)
    case None => None
  }

  /** The loop returns the parse of the first format that accepts, and of no other. */
  lemma ParseFirstIsFirst(fmts: seq<DateFormat>, s: string, i: nat)
    requires i < |fmts| && ParseWith(fmts[i], s).Some?
    requires forall j :: 0 <= j < i ==> ParseWith(fmts[j], s).None?
    ensures ParseFirst(fmts, s) == ParseWith(fmts[i], s)
  {
    var k := FirstMatchFrom(fmts, s, 0);
    assert k.Some?;
  }

  // ---------------------------------------------------------------------
  // Rendering

  function Pad2(n: int): (r: string)
    requires 0 <= n <= 99
    ensures |r| == 2 && IsAsciiDigit(r[0]) && IsAsciiDigit(r[1])
  {
    [DigitChar(n / 10), DigitChar(n % 10)]
  }

  function Pad4(n: int): (r: string)
    requires 0 <= n <= 9999
    ensures |r| == 4 && forall i :: 0 <= i < 4 ==> IsAsciiDigit(r[i])
  {
    Pad2(n / 100) + Pad2(n % 100)
  }

  /** `strftime('%Y-%m-%d %H:%M:%S')`. */
  function Render(t: DateTime): (r: string)
    requires ValidDateTime(t)
    ensures |r| == 19
  {
    Pad4(t.year) + "-" + Pad2(t.month) + "-" + Pad2(t.day) + " " +
    Pad2(t.hour) + ":" + Pad2(t.minute) + ":" + Pad2(t.second)
  }

  /** `_test_date_parsing`: the canonical rendering of the first parse that succeeds. */
  function TestDateParsing(s: string): (r: Option<string>)
    ensures r.Some? <==> exists i :: 0 <= i < |Formats| && ParseWith(Formats[i], s).Some?
    ensures r.Some? ==> |r.value| == 19
  {
    match ParseFirst(Formats, s)
    case Some(t) => Some(Render(t))
    case None => None
  }

  /** The warranty-date reader of the stock-lot import. */
  function ParseWarrantyDate(s: string): (r: Option<string>)
    ensures r.Some? <==> exists i :: 0 <= i < |WarrantyFormats| && ParseWith(WarrantyFormats[i], s).Some?
    ensures r.Some? ==> |r.value| == 19
  {
    match ParseFirst(WarrantyFormats, s)
    case Some(t) => Some(Render(t))
    case None => None
  }

  /** The date part of `t` in format `f`, every field zero-padded. */
  function DatePart(f: DateFormat, t: DateTime): string
    requires ValidDateTime(t)
  {
    match f.order
    case DayFirst => Pad2(t.day) + [f.sep] + Pad2(t.month) + [f.sep] + Pad4(t.year)
    case YearFirst => Pad4(t.year) + [f.sep] + Pad2(t.month) + [f.sep] + Pad2(t.day)
  }

  /** The clock part of `t` for a clock layout, every field zero-padded. */
  function ClockPart(c: Clock, t: DateTime): string
    requires ValidDateTime(t)
  {
    match c
    case NoClock => ""
    case HourMinute => " " + Pad2(t.hour) + ":" + Pad2(t.minute)
    case HourMinuteSecond => " " + Pad2(t.hour) + ":" + Pad2(t.minute) + ":" + Pad2(t.second)
  }

  /** `t` written in format `f`. */
  function FormatIn(f: DateFormat, t: DateTime): string
    requires ValidDateTime(t)
  {
    DatePart(f, t) + ClockPart(f.clock, t)
  }

  /** A date-time fits a format when the format can express all of it. */
  predicate Fits(f: DateFormat, t: DateTime) {
    match f.clock
    case NoClock => t.hour == 0 && t.minute == 0 && t.second == 0
    case HourMinute => t.second == 0
    case HourMinuteSecond => true
  }

  // ---------------------------------------------------------------------
  // Lemmas

  lemma Pad2Reads(n: int, rest: string)
    requires 0 <= n <= 99
    ensures TwoDigits(Pad2(n) + rest) == Some((n, rest))
    ensures DayDigits(Pad2(n) + rest) == Some((n, rest))
  {
    var s := Pad2(n) + rest;
    assert s[2..] == rest;
  }

  lemma Pad4Reads(n: int, rest: string)
    requires 0 <= n <= 9999
    ensures FourDigits(Pad4(n) + rest) == Some((n, rest))
  {
    var s := Pad4(n) + rest;
    assert s[4..] == rest;
    assert DigitValue(s[0]) == n / 100 / 10;
    assert DigitValue(s[1]) == n / 100 % 10;
    assert DigitValue(s[2]) == n % 100 / 10;
    assert DigitValue(s[3]) == n % 100 % 10;
  }

  lemma ReadsLiteral(c: char, rest: string)
    ensures Literal([c] + rest, c) == Some(rest)
  {
    assert ([c] + rest)[1..] == rest;
  }

  lemma ReadsDate(f: DateFormat, t: DateTime, rest: string)
    requires ValidDateTime(t)
    ensures ReadDate(f.order, f.sep, DatePart(f, t) + rest) == Some((t.year, t.month, t.day, rest))
  {
    match f.order
    case DayFirst => ReadsDayFirst(f, t, rest);
    case YearFirst => ReadsYearFirst(f, t, rest);
  }

  lemma ReadsDayFirst(f: DateFormat, t: DateTime, rest: string)
    requires ValidDateTime(t) && f.order == DayFirst
    ensures ReadDate(DayFirst, f.sep, DatePart(f, t) + rest) == Some((t.year, t.month, t.day, rest))
  {
    var tail2 := Pad4(t.year) + rest;
    var tail1 := Pad2(t.month) + [f.sep] + tail2;
    assert DatePart(f, t) + rest == Pad2(t.day) + ([f.sep] + tail1);
    Pad2Reads(t.day, [f.sep] + tail1);
    ReadsLiteral(f.sep, tail1);
    assert tail1 == Pad2(t.month) + ([f.sep] + tail2);
    Pad2Reads(t.month, [f.sep] + tail2);
    ReadsLiteral(f.sep, tail2);
    Pad4Reads(t.year, rest);
  }

  lemma ReadsYearFirst(f: DateFormat, t: DateTime, rest: string)
    requires ValidDateTime(t) && f.order == YearFirst
    ensures ReadDate(YearFirst, f.sep, DatePart(f, t) + rest) == Some((t.year, t.month, t.day, rest))
  {
    var tail2 := Pad2(t.day) + rest;
    var tail1 := Pad2(t.month) + [f.sep] + tail2;
    assert DatePart(f, t) + rest == Pad4(t.year) + ([f.sep] + tail1);
    Pad4Reads(t.year, [f.sep] + tail1);
    ReadsLiteral(f.sep, tail1);
    assert tail1 == Pad2(t.month) + ([f.sep] + tail2);
    Pad2Reads(t.month, [f.sep] + tail2);
    ReadsLiteral(f.sep, tail2);
    Pad2Reads(t.day, rest);
  }

  lemma ReadsClock(c: Clock, t: DateTime)
    requires ValidDateTime(t) && Fits(DateFormat(DayFirst, '/', c), t)
    ensures ReadClock(c, ClockPart(c, t)) == Some((t.hour, t.minute, t.second))
  {
    match c
    case NoClock =>
    case HourMinute => ReadsHourMinute(t);
    case HourMinuteSecond => ReadsHourMinuteSecond(t);
  }

  lemma ReadsHourMinute(t: DateTime)
    requires ValidDateTime(t) && t.second == 0
    ensures ReadClock(HourMinute, ClockPart(HourMinute, t)) == Some((t.hour, t.minute, t.second))
  {
    var w := ClockPart(HourMinute, t);
    assert w[1] == Pad2(t.hour)[0] && !IsSpace(w[1]);
    assert w[1..][0] == w[1] && TrimLeft(w[1..]) == w[1..];
    assert Blanks(w) == Some(w[1..]);
    assert w[1..] == Pad2(t.hour) + ([':'] + Pad2(t.minute));
    Pad2Reads(t.hour, [':'] + Pad2(t.minute));
    ReadsLiteral(':', Pad2(t.minute));
    Pad2Reads(t.minute, "");
    assert Pad2(t.minute) + "" == Pad2(t.minute);
  }

  lemma ReadsHourMinuteSecond(t: DateTime)
    requires ValidDateTime(t)
    ensures ReadClock(HourMinuteSecond, ClockPart(HourMinuteSecond, t)) == Some((t.hour, t.minute, t.second))
  {
    var w := ClockPart(HourMinuteSecond, t);
    var tail := [':'] + Pad2(t.second);
    assert w[1] == Pad2(t.hour)[0] && !IsSpace(w[1]);
    assert w[1..][0] == w[1] && TrimLeft(w[1..]) == w[1..];
    assert Blanks(w) == Some(w[1..]);
    assert w[1..] == Pad2(t.hour) + ([':'] + (Pad2(t.minute) + tail));
    Pad2Reads(t.hour, [':'] + (Pad2(t.minute) + tail));
    ReadsLiteral(':', Pad2(t.minute) + tail);
    Pad2Reads(t.minute, tail);
    ReadsLiteral(':', Pad2(t.second));
    Pad2Reads(t.second, "");
    assert Pad2(t.second) + "" == Pad2(t.second);
  }

  /** Round trip: a date-time written in a format it fits reads back as itself. */
  lemma ParseFormatted(f: DateFormat, t: DateTime)
    requires ValidDateTime(t) && Fits(f, t)
    ensures ParseWith(f, FormatIn(f, t)) == Some(t)
  {
    ReadsDate(f, t, ClockPart(f.clock, t));
    ReadsClock(f.clock, t);
  }

  // ---------------------------------------------------------------------
  // Different formats never read the same zero-padded string

  /** The clock readers fail on the clock part of a different layout. */
  lemma ClockMismatch(g: Clock, c: Clock, t: DateTime)
    requires ValidDateTime(t) && g != c
    ensures ReadClock(g, ClockPart(c, t)).None?
  {
    var w := ClockPart(c, t);
    if c != NoClock {
      assert w[1] == Pad2(t.hour)[0] && !IsSpace(w[1]);
      assert w[1..][0] == w[1] && TrimLeft(w[1..]) == w[1..];
      assert Blanks(w) == Some(w[1..]);
      Pad2Reads(t.hour, w[3..]);
      assert w[1..] == Pad2(t.hour) + w[3..];
      assert w[3..][1..] == w[4..];
      Pad2Reads(t.minute, w[6..]);
      assert w[4..] == Pad2(t.minute) + w[6..];
      if c == HourMinuteSecond {
        assert w[6..][1..] == w[7..];
        assert w[7..] == Pad2(t.second);
      }
    }
  }

  /** A string written in one of the listed formats is accepted by that format alone. */
  lemma FormatUnique(g: DateFormat, f: DateFormat, t: DateTime)
    requires g.sep in {'/', '-'} && f.sep in {'/', '-'}
    requires ValidDateTime(t) && Fits(f, t)
    ensures ParseWith(g, FormatIn(f, t)).Some? ==> g == f
  {
    var s := FormatIn(f, t);
    var rest := ClockPart(f.clock, t);
    assert s == DatePart(f, t) + rest;
    if g.order == f.order && g.sep == f.sep {
      ReadsDate(f, t, rest);
      ReadsDate(g, t, rest);
      if g.clock != f.clock {
        ClockMismatch(g.clock, f.clock, t);
      }
    } else if g.order == DayFirst {
      assert !IsAsciiDigit(g.sep);
      match f.order
      case DayFirst =>
        Pad2Reads(t.day, s[2..]);
        assert s == Pad2(t.day) + s[2..];
        assert s[2] == f.sep;
      case YearFirst =>
        assert IsAsciiDigit(s[0]) && IsAsciiDigit(s[1]) && IsAsciiDigit(s[2]);
        assert DayDigits(s) == Some((10 * DigitValue(s[0]) + DigitValue(s[1]), s[2..]));
    } else {
      match f.order
      case DayFirst =>
        assert s[2] == f.sep && !IsAsciiDigit(s[2]);
      case YearFirst =>
        Pad4Reads(t.year, s[4..]);
        assert s == Pad4(t.year) + s[4..];
        assert s[4] == f.sep;
    }
  }

  /** Whichever of the eight formats a date-time is written in (zero-padded),
      the importer reads the same date-time and renders it canonically. */
  lemma TestDateParsingAnyFormat(i: nat, t: DateTime)
    requires i < |Formats| && ValidDateTime(t) && Fits(Formats[i], t)
    ensures TestDateParsing(FormatIn(Formats[i], t)) == Some(Render(t))
  {
    var s := FormatIn(Formats[i], t);
    ParseFormatted(Formats[i], t);
    forall j | 0 <= j < i
      ensures ParseWith(Formats[j], s).None?
    {
      FormatsDistinct(j, i);
      FormatUnique(Formats[j], Formats[i], t);
    }
    ParseFirstIsFirst(Formats, s, i);
    assert ParseFirst(Formats, s) == Some(t);
  }

  /** Two of the eight formats differ, and each separates its date with
      `/` or `-`; this is what `FormatUnique` needs of a pair. */
  lemma FormatsDistinct(i: nat, j: nat)
    requires i < j < |Formats|
    ensures Formats[i] != Formats[j]
    ensures Formats[i].sep in {'/', '-'} && Formats[j].sep in {'/', '-'}
  {
  }

  /** The canonical rendering reads back as itself. */
  lemma TestDateParsingCanonical(t: DateTime)
    requires ValidDateTime(t)
    ensures TestDateParsing(Render(t)) == Some(Render(t))
  {
    assert Render(t) == FormatIn(Formats[3], t);
    TestDateParsingAnyFormat(3, t);
  }

  /** The warranty reader agrees with the full reader whenever it succeeds. */
  lemma WarrantyAgrees(s: string)
    requires ParseWarrantyDate(s).Some?
    ensures ParseWarrantyDate(s) == TestDateParsing(s)
  {
    var i := FirstMatchFrom(WarrantyFormats, s, 0).value;
    forall j | 0 <= j < i
      ensures ParseWith(Formats[j], s).None?
    {
      assert Formats[j] == WarrantyFormats[j];
    }
    ParseFirstIsFirst(Formats, s, i);
  }

  /** Dates written day-first with dashes, which the other imports read,
      are dropped by the warranty reader. */
  lemma WarrantyDropsDashedDayFirst(i: nat, t: DateTime)
    requires 6 <= i < |Formats| && ValidDateTime(t) && Fits(Formats[i], t)
    ensures ParseWarrantyDate(FormatIn(Formats[i], t)) == None
    ensures TestDateParsing(FormatIn(Formats[i], t)) == Some(Render(t))
  {
    var s := FormatIn(Formats[i], t);
    forall j | 0 <= j < |WarrantyFormats|
      ensures ParseWith(WarrantyFormats[j], s).None?
    {
      FormatUnique(WarrantyFormats[j], Formats[i], t);
    }
    TestDateParsingAnyFormat(i, t);
  }

  /** A time without seconds after a day-first date: the first format fails
      on the trailing seconds and the second format reads it. */
  lemma ExampleWithSeconds()
    ensures TestDateParsing("31/03/2024 1:00:00") == Some("2024-03-31 01:00:00")
  {
    var s := "31/03/2024 1:00:00";
    ExampleFormats();
    forall j | 0 <= j < 1
      ensures ParseWith(Formats[j], s).None?
    {
      assert j == 0;
    }
    ParseFirstIsFirst(Formats, s, 1);
    ExampleRender();
  }

  lemma ExampleFormats()
    ensures ParseWith(Formats[0], "31/03/2024 1:00:00") == None
    ensures ParseWith(Formats[1], "31/03/2024 1:00:00") == Some(DateTime(2024, 3, 31, 1, 0, 0))
  {
    ExampleDate();
    ExampleClock();
    assert Formats[0] == DateFormat(DayFirst, '/', HourMinute);
    assert Formats[1] == DateFormat(DayFirst, '/', HourMinuteSecond);
    assert ValidDateTime(DateTime(2024, 3, 31, 1, 0, 0));
  }

  /** Proof step of `ExampleFormats`: the date part and the rest. */
  lemma ExampleDate()
    ensures ReadDate(DayFirst, '/', "31/03/2024 1:00:00") == Some((2024, 3, 31, " 1:00:00"))
  {
    var t := DateTime(2024, 3, 31, 1, 0, 0);
    var f := DateFormat(DayFirst, '/', NoClock);
    assert Pad4(2024) == "2024" && Pad2(3) == "03" && Pad2(31) == "31";
    assert DatePart(f, t) + " 1:00:00" == "31/03/2024 1:00:00";
    ReadsDayFirst(f, t, " 1:00:00");
  }

  /** Proof step of `ExampleFormats`: the clock with and without seconds. */
  lemma ExampleClock()
    ensures ReadClock(HourMinute, " 1:00:00") == None
    ensures ReadClock(HourMinuteSecond, " 1:00:00") == Some((1, 0, 0))
  {
    var c := " 1:00:00";
    assert Blanks(c) == Some(c[1..]);
    assert TwoDigits(c[1..]) == Some((1, c[2..]));
    assert c[2..][1..] == c[3..];
    assert TwoDigits(c[3..]) == Some((0, c[5..]));
    assert c[5..][1..] == c[6..];
    assert TwoDigits(c[6..]) == Some((0, []));
  }

  /** Proof step of `ExampleWithSeconds`: the rendering of the parsed value. */
  lemma ExampleRender()
    ensures Render(DateTime(2024, 3, 31, 1, 0, 0)) == "2024-03-31 01:00:00"
  {
    assert Pad4(2024) == "2024";
    assert Pad2(3) == "03" && Pad2(31) == "31" && Pad2(1) == "01" && Pad2(0) == "00";
  }

  /** An impossible calendar date is rejected by every format. */
  lemma ExampleInvalidDate()
    ensures TestDateParsing("31/02/2024") == None
  {
    var s := "31/02/2024";
    assert DayDigits(s) == Some((31, s[2..]));
    assert s[2..][1..] == s[3..];
    assert Literal(s[2..], '/') == Some(s[3..]);
    assert TwoDigits(s[3..]) == Some((2, s[5..]));
    assert s[5..][1..] == s[6..];
    assert Literal(s[5..], '/') == Some(s[6..]);
    assert FourDigits(s[6..]) == Some((2024, s[10..]));
    assert s[10..] == "";
    assert ReadDate(DayFirst, '/', s) == Some((2024, 2, 31, ""));
    assert ParseWith(Formats[2], s) == None;
    forall i | 0 <= i < |Formats|
      ensures ParseWith(Formats[i], s).None?
    {
    }
  }
}
