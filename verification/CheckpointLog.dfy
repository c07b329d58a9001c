/** Reading checkpoint times from a daemon log: when each checkpoint was saved,
    and the longest wait between two. */
module CheckpointLog {
  import opened Prelude
  import opened Text
  import opened CivilCalendar

  const TWO63: int := 0x8000_0000_0000_0000

  type i64 = n: int | -0x8000_0000_0000_0000 <= n < 0x8000_0000_0000_0000

  const MARK: string := "event=checkpoint status=saved"

  // ---- one timestamp ----

  function Field(s: string, from: nat, to: nat): (r: Option<i64>)
    requires from <= to
    ensures r.Some? ==> -Pow10(to - from) < r.value < Pow10(to - from)
  {
    var piece :- Piece(s, from, to);
    Pow10Monotone(|piece|, to - from);
    ParseSigned(piece, TWO63)
  }

  lemma {:induction false} Pow10Monotone(a: nat, b: nat)
    requires a <= b
    ensures Pow10(a) <= Pow10(b)
  {
    if a < b { Pow10Monotone(a, b - 1); }
  }

  datatype Clock = Clock(hour: int, minute: int, second: int, milli: int)

  function ParseDate(date: string): (r: Option<Date>)
    ensures r.Some? ==> Accepted(r.value) && -10_000 < r.value.year < 10_000
  {
    var year :- Field(date, 0, 4);
    var month :- Field(date, 5, 7);
    var day :- Field(date, 8, 10);
    if 1 <= month <= 12 && 1 <= day <= 31 then Some(Date(year, month, day)) else None
  }

  /** Only the upper ends of the ranges are checked. */
  function ParseClock(time: string): (r: Option<Clock>)
    ensures r.Some? ==> -360_000_000 < Millis(r.value) < 86_402_000
  {
    var hour :- Field(time, 0, 2);
    var minute :- Field(time, 3, 5);
    var second :- Field(time, 6, 8);
    var milli :- Field(time, 9, 12);
    if hour <= 23 && minute <= 59 && second <= 60 then Some(Clock(hour, minute, second, milli)) else None
  }

  function Millis(clock: Clock): int {
    clock.hour * 3_600_000 + clock.minute * 60_000 + clock.second * 1_000 + clock.milli
  }

  /** What to add for the written offset from UTC; shorter texts carry none. */
  function ParseOffset(time: string): (r: Option<int>)
    ensures r.Some? ==> -366_000_000 < r.value < 366_000_000
  {
    if ByteLength(time) < 18 then Some(0)
    else
      var sign :- Piece(time, 12, 13);
      var hours :- Field(time, 13, 15);
      var minutes :- Field(time, 16, 18);
      var offset := hours * 3_600_000 + minutes * 60_000;
      if sign == "+" then Some(-offset) else if sign == "-" then Some(offset) else None
  }

  /** No intermediate value leaves the range of a signed machine word. */
  function ParseStamp(dateText: string, time: string): Option<u64> {
    if ByteLength(dateText) != 10 || ByteLength(time) < 12 then None
    else
      var date :- ParseDate(dateText);
      var clock :- ParseClock(time);
      var offset :- ParseOffset(time);
      DayNumberBounded(date);
      var days: i64 := DayNumber(date);
      var local: i64 := days * 86_400_000 + Millis(clock);
      var ms: i64 := local + offset;
      if ms < 0 then None else Some(ms)
  }

  function ParseTimestamp(line: string): Option<u64> {
    var words := Words(line, IsWhitespace);
    if |words| < 3 then None else ParseStamp(words[1], words[2])
  }

  lemma DayNumberBounded(date: Date)
    requires Accepted(date) && -10_000 < date.year < 10_000
    ensures -5_000_000 < DayNumber(date) < 5_000_000
  {
    DayNumberIsClosed(date);
  }

  // ---- writing and reading back ----

  datatype Zone = Unwritten | Zulu | East(hours: nat, minutes: nat) | West(hours: nat, minutes: nat)

  datatype Moment = Moment(date: Date, clock: Clock, zone: Zone)

  /** Moments a log can write: years of four digits, days up to 31 in any month,
      and ordinary clock times. */
  predicate Writable(m: Moment) {
    && Accepted(m.date) && 0 <= m.date.year < 10_000
    && 0 <= m.clock.hour <= 23 && 0 <= m.clock.minute <= 59
    && 0 <= m.clock.second <= 60 && 0 <= m.clock.milli < 1_000
    && (m.zone.East? || m.zone.West? ==> m.zone.hours < 100 && m.zone.minutes < 100)
  }

  predicate Printable(s: string) {
    forall i :: 0 <= i < |s| ==> '!' <= s[i] <= '~'
  }

  lemma PrintableIsPlain(s: string)
    requires Printable(s)
    ensures Ascii(s) && NoBlank(s, IsWhitespace) && ByteLength(s) == |s|
  {
    AsciiLength(s);
  }

  function PrintDate(d: Date): (s: string)
    requires Accepted(d) && d.year >= 0
    ensures |s| == 10 && Printable(s)
  {
    Padded(d.year, 4) + "-" + Padded(d.month, 2) + "-" + Padded(d.day, 2)
  }

  function PrintClock(c: Clock): (s: string)
    requires c.hour >= 0 && c.minute >= 0 && c.second >= 0 && c.milli >= 0
    ensures |s| == 12 && Printable(s)
  {
    Padded(c.hour, 2) + ":" + Padded(c.minute, 2) + ":" + Padded(c.second, 2) + "." + Padded(c.milli, 3)
  }

  function PrintZone(z: Zone): (s: string)
    ensures Printable(s)
  {
    match z
    case Unwritten => ""
    case Zulu => "Z"
    case East(hours, minutes) => "+" + PrintOffset(hours, minutes)
    case West(hours, minutes) => "-" + PrintOffset(hours, minutes)
  }

  function ZoneMillis(z: Zone): int {
    match z
    case Unwritten => 0
    case Zulu => 0
    case East(hours, minutes) => hours * 3_600_000 + minutes * 60_000
    case West(hours, minutes) => -(hours * 3_600_000 + minutes * 60_000)
  }

  /** Milliseconds from the start of 1970 in UTC, for a date that many days later. */
  function Instant(m: Moment, days: int): int {
    (((days * 24 + m.clock.hour) * 60 + m.clock.minute) * 60 + m.clock.second) * 1_000 + m.clock.milli
    - ZoneMillis(m.zone)
  }

  function Reading(ms: int): Option<int> {
    if ms < 0 then None else Some(ms)
  }

  function PrintTime(m: Moment): (s: string)
    requires Writable(m)
    ensures Printable(s) && |s| >= 12
  {
    PrintClock(m.clock) + PrintZone(m.zone)
  }

  function PrintLine(tag: string, m: Moment, rest: string): string
    requires Writable(m)
  {
    tag + Spaced([PrintDate(m.date), PrintTime(m)]) + rest
  }

  predicate Taggable(tag: string, rest: string) {
    tag != "" && NoBlank(tag, IsWhitespace) && BlankFirst(rest, IsWhitespace)
  }

  lemma {:induction false} FieldReadsBack(s: string, from: nat, width: nat, n: nat)
    requires Ascii(s) && from + width <= |s| && s[from..from + width] == Padded(n, width)
    requires 0 < width && n < Pow10(width) && n < TWO63
    ensures Field(s, from, from + width) == Some(n)
  {
    AsciiPiece(s, from, from + width);
    PaddedReadsBack(n, width);
  }

  /** A date of any digits is read exactly when the month is one of twelve and the day
      one of 31. */
  lemma DateWrittenIff(s: string, year: nat, month: nat, day: nat)
    requires year < 10_000 && month < 100 && day < 100
    requires s == Padded(year, 4) + "-" + Padded(month, 2) + "-" + Padded(day, 2)
    ensures ParseDate(s) == if 1 <= month <= 12 && 1 <= day <= 31 then Some(Date(year, month, day)) else None
  {
    assert s[0..4] == Padded(year, 4);
    FieldReadsBack(s, 0, 4, year);
    assert s[5..7] == Padded(month, 2);
    FieldReadsBack(s, 5, 2, month);
    assert s[8..10] == Padded(day, 2);
    FieldReadsBack(s, 8, 2, day);
  }

  lemma DateReadsBack(d: Date)
    requires Accepted(d) && 0 <= d.year < 10_000
    ensures ParseDate(PrintDate(d)) == Some(d)
  {
    DateWrittenIff(PrintDate(d), d.year, d.month, d.day);
  }

  predicate OrdinaryClock(c: Clock) {
    0 <= c.hour <= 23 && 0 <= c.minute <= 59 && 0 <= c.second <= 60 && 0 <= c.milli < 1_000
  }

  lemma ClockSlices(s: string, hour: string, minute: string, second: string, milli: string, zone: string)
    requires |hour| == 2 && |minute| == 2 && |second| == 2 && |milli| == 3
    requires s == hour + ":" + minute + ":" + second + "." + milli + zone
    ensures |s| >= 12
    ensures s[0..2] == hour && s[3..5] == minute && s[6..8] == second && s[9..12] == milli
    ensures Ascii(hour) && Ascii(minute) && Ascii(second) && Ascii(milli) && Ascii(zone) ==> Ascii(s)
  {
  }

  lemma TwoDigits(s: string, from: nat, n: nat)
    requires Ascii(s) && from + 2 <= |s| && s[from..from + 2] == Padded(n, 2) && n < 100
    ensures Field(s, from, from + 2) == Some(n)
  {
    FieldReadsBack(s, from, 2, n);
  }

  lemma ThreeDigits(s: string, from: nat, n: nat)
    requires Ascii(s) && from + 3 <= |s| && s[from..from + 3] == Padded(n, 3) && n < 1_000
    ensures Field(s, from, from + 3) == Some(n)
  {
    FieldReadsBack(s, from, 3, n);
  }

  /** A clock of any digits is read exactly when it is one, a leap second included. */
  lemma ClockWrittenIff(s: string, hour: nat, minute: nat, second: nat, milli: nat, zone: string)
    requires hour < 100 && minute < 100 && second < 100 && milli < 1_000 && Printable(zone)
    requires s == Padded(hour, 2) + ":" + Padded(minute, 2) + ":" + Padded(second, 2) + "." + Padded(milli, 3) + zone
    ensures ParseClock(s) ==
      if hour <= 23 && minute <= 59 && second <= 60 then Some(Clock(hour, minute, second, milli)) else None
  {
    ClockSlices(s, Padded(hour, 2), Padded(minute, 2), Padded(second, 2), Padded(milli, 3), zone);
    TwoDigits(s, 0, hour);
    TwoDigits(s, 3, minute);
    TwoDigits(s, 6, second);
    ThreeDigits(s, 9, milli);
  }

  lemma ClockReadsBack(c: Clock, zone: string)
    requires OrdinaryClock(c) && Printable(zone)
    ensures ParseClock(PrintClock(c) + zone) == Some(c)
  {
    ClockWrittenIff(PrintClock(c) + zone, c.hour, c.minute, c.second, c.milli, zone);
  }

  function PrintOffset(hours: nat, minutes: nat): (s: string)
    ensures Printable(s) && |s| == 5 && s[0..2] == Padded(hours, 2) && s[3..5] == Padded(minutes, 2)
  {
    Padded(hours, 2) + ":" + Padded(minutes, 2)
  }

  lemma OffsetReadsBack(s: string, clock: string, sign: string, hours: nat, minutes: nat)
    requires Printable(s) && s == clock + sign + PrintOffset(hours, minutes)
    requires |clock| == 12 && |sign| == 1 && hours < 100 && minutes < 100
    ensures ByteLength(s) == 18 && Piece(s, 12, 13) == Some(sign)
    ensures Field(s, 13, 15) == Some(hours) && Field(s, 16, 18) == Some(minutes)
  {
    PrintableIsPlain(s);
    AsciiPiece(s, 12, 13);
    assert s[12..13] == sign;
    assert s[13..15] == PrintOffset(hours, minutes)[0..2];
    FieldReadsBack(s, 13, 2, hours);
    assert s[16..18] == PrintOffset(hours, minutes)[3..5];
    FieldReadsBack(s, 16, 2, minutes);
  }

  lemma OffsetDecides(s: string, sign: string, hours: nat, minutes: nat)
    requires ByteLength(s) == 18 && Piece(s, 12, 13) == Some(sign)
    requires Field(s, 13, 15) == Some(hours) && Field(s, 16, 18) == Some(minutes)
    ensures var offset := hours * 3_600_000 + minutes * 60_000;
      ParseOffset(s) == if sign == "+" then Some(-offset) else if sign == "-" then Some(offset) else None
  {
  }

  /** A written offset is taken from the time east of Greenwich and added west of it;
      behind any other character it is refused. */
  lemma WrittenOffset(s: string, clock: string, sign: string, hours: nat, minutes: nat)
    requires Printable(s) && s == clock + sign + PrintOffset(hours, minutes)
    requires |clock| == 12 && |sign| == 1 && hours < 100 && minutes < 100
    ensures var offset := hours * 3_600_000 + minutes * 60_000;
      ParseOffset(s) == if sign == "+" then Some(-offset) else if sign == "-" then Some(offset) else None
  {
    OffsetReadsBack(s, clock, sign, hours, minutes);
    OffsetDecides(s, sign, hours, minutes);
  }

  lemma NoOffset(s: string)
    requires Printable(s) && |s| < 18
    ensures ParseOffset(s) == Some(0)
  {
    PrintableIsPlain(s);
  }

  lemma {:induction false} SignedZone(clock: string, sign: string, hours: nat, minutes: nat)
    requires |clock| == 12 && Printable(clock) && hours < 100 && minutes < 100 && (sign == "+" || sign == "-")
    ensures var offset := hours * 3_600_000 + minutes * 60_000;
      ParseOffset(clock + (sign + PrintOffset(hours, minutes))) == Some(if sign == "+" then -offset else offset)
  {
    Reassociate(clock, sign, PrintOffset(hours, minutes));
    WrittenOffset(clock + sign + PrintOffset(hours, minutes), clock, sign, hours, minutes);
  }

  lemma {:induction false} ZoneReadsBack(clock: string, z: Zone)
    requires |clock| == 12 && Printable(clock)
    requires z.East? || z.West? ==> z.hours < 100 && z.minutes < 100
    ensures ParseOffset(clock + PrintZone(z)) == Some(-ZoneMillis(z))
  {
    match z
    case Unwritten => NoOffset(clock + "");
    case Zulu => NoOffset(clock + "Z");
    case East(hours, minutes) => SignedZone(clock, "+", hours, minutes);
    case West(hours, minutes) => SignedZone(clock, "-", hours, minutes);
  }

  lemma Reassociate(a: string, b: string, c: string)
    ensures (a + b) + c == a + (b + c)
  {
  }

  /** A written moment reads back as the milliseconds from the start of 1970 in
      UTC, or as nothing when it lies before that; whatever surrounds it. A day past
      the end of its month is read as the day of the next month it spills onto. */
  lemma MomentReadsBack(tag: string, m: Moment, rest: string, days: int)
    requires Writable(m) && Taggable(tag, rest) && Spilled(m.date) == DateOf(days)
    ensures ParseTimestamp(PrintLine(tag, m, rest)) == Reading(Instant(m, days))
  {
    DateOfHasNumber(days);
    SpillKeepsNumber(m.date);
    LineReadsBack(tag, m, rest, days);
  }

  /** A line dated 31 February reads exactly as the same line dated in March. */
  lemma FebruaryThirtyFirstReads(tag: string, m: Moment, rest: string)
    requires Writable(m) && Taggable(tag, rest) && m.date.month == 2 && m.date.day == 31
    ensures var march := m.(date := Date(m.date.year, 3, if Leap(m.date.year) then 2 else 3));
      Writable(march) && ParseTimestamp(PrintLine(tag, m, rest)) == ParseTimestamp(PrintLine(tag, march, rest))
  {
    var march := m.(date := Date(m.date.year, 3, if Leap(m.date.year) then 2 else 3));
    var days := DayNumber(m.date);
    FebruaryThirtyFirst(m.date.year);
    LineReadsBack(tag, m, rest, days);
    LineReadsBack(tag, march, rest, days);
    SameTimeOfDay(m, march, days);
  }

  lemma SameTimeOfDay(m: Moment, m': Moment, days: int)
    requires m.clock == m'.clock && m.zone == m'.zone
    ensures Instant(m, days) == Instant(m', days)
  {
  }

  lemma LineReadsBack(tag: string, m: Moment, rest: string, days: int)
    requires Writable(m) && Taggable(tag, rest) && DayNumber(m.date) == days
    ensures ParseTimestamp(PrintLine(tag, m, rest)) == Reading(Instant(m, days))
  {
    DateReadsBack(m.date);
    TimeHasClock(m);
    TimeHasZone(m);
    TextReads(tag, PrintDate(m.date), PrintTime(m), rest, m, days);
  }

  lemma TimeHasClock(m: Moment)
    requires Writable(m)
    ensures ParseClock(PrintTime(m)) == Some(m.clock)
  {
    ClockReadsBack(m.clock, PrintZone(m.zone));
  }

  lemma TimeHasZone(m: Moment)
    requires Writable(m)
    ensures ParseOffset(PrintTime(m)) == Some(-ZoneMillis(m.zone))
  {
    ZoneReadsBack(PrintClock(m.clock), m.zone);
  }

  lemma TextReads(
    tag: string, date: string, time: string, rest: string, m: Moment, days: int)
    requires Taggable(tag, rest) && DayNumber(m.date) == days
    requires Printable(date) && |date| == 10 && Printable(time) && |time| >= 12
    requires ParseDate(date) == Some(m.date) && ParseClock(time) == Some(m.clock)
    requires ParseOffset(time) == Some(-ZoneMillis(m.zone))
    ensures ParseTimestamp(tag + Spaced([date, time]) + rest) == Reading(Instant(m, days))
  {
    PrintableIsPlain(date);
    PrintableIsPlain(time);
    LineReads(tag, date, time, rest);
    StampDecides(date, time, m, days);
  }

  lemma {:induction false} StampDecides(date: string, time: string, m: Moment, days: int)
    requires DayNumber(m.date) == days
    requires ParseDate(date) == Some(m.date) && ParseClock(time) == Some(m.clock)
    requires ParseOffset(time) == Some(-ZoneMillis(m.zone)) && ByteLength(date) == 10 && ByteLength(time) >= 12
    ensures ParseStamp(date, time) == Reading(Instant(m, days))
  {
  }

  lemma LineReads(tag: string, date: string, time: string, rest: string)
    requires Taggable(tag, rest)
    requires date != "" && NoBlank(date, IsWhitespace) && time != "" && NoBlank(time, IsWhitespace)
    ensures ParseTimestamp(tag + Spaced([date, time]) + rest) == ParseStamp(date, time)
  {
    var tail := Spaced([date, time]) + rest;
    assert tag + Spaced([date, time]) + rest == tag + tail;
    assert BlankFirst(tail, IsWhitespace);
    FirstWord(tag, tail, IsWhitespace);
    WordsOfSpaced([date, time], rest, IsWhitespace);
  }

  /** A clock text whose hour is written as a minus sign and one digit. */
  predicate NegativeHourText(time: string, c: Clock, h: nat)
    requires OrdinaryClock(c) && h < 10
  {
    && Printable(time) && |time| == 12 && time[0] == '-' && time[1] == Digit(h)
    && time[3..5] == Padded(c.minute, 2) && time[6..8] == Padded(c.second, 2) && time[9..12] == Padded(c.milli, 3)
  }

  /** Negative clock fields are not refused: hour -h is read as h hours before
      the start of the day. */
  lemma NegativeHourAccepted(time: string, c: Clock, h: int)
    requires OrdinaryClock(c) && 0 <= h < 10 && NegativeHourText(time, c, h)
    ensures ParseClock(time) == Some(c.(hour := 0 - h))
  {
    PrintableIsPlain(time);
    NegativeFieldReads(time, h);
    FieldReadsBack(time, 3, 2, c.minute);
    FieldReadsBack(time, 6, 2, c.second);
    FieldReadsBack(time, 9, 3, c.milli);
  }

  /** A minus sign before something other than zero. */
  predicate BelowZero(text: string) {
    text != "" && text[0] == '-' && exists i :: 1 <= i < |text| && text[i] != '0'
  }

  /** An accepted clock is an ordinary time of day exactly when none of its four
      fields is written below zero. */
  lemma OrdinaryIff(time: string)
    requires ParseClock(time).Some?
    ensures Piece(time, 0, 2).Some? && Piece(time, 3, 5).Some? && Piece(time, 6, 8).Some? && Piece(time, 9, 12).Some?
    ensures OrdinaryClock(ParseClock(time).value) <==>
      !BelowZero(Piece(time, 0, 2).value) && !BelowZero(Piece(time, 3, 5).value)
      && !BelowZero(Piece(time, 6, 8).value) && !BelowZero(Piece(time, 9, 12).value)
  {
    FieldSign(time, 0, 2);
    FieldSign(time, 3, 5);
    FieldSign(time, 6, 8);
    FieldSign(time, 9, 12);
  }

  lemma FieldSign(s: string, from: nat, to: nat)
    requires from <= to && Field(s, from, to).Some?
    ensures Piece(s, from, to).Some? && (Field(s, from, to).value < 0 <==> BelowZero(Piece(s, from, to).value))
  {
    var text := Piece(s, from, to).value;
    if text != "" && text[0] == '-' {
      ZeroIff(text[1..]);
      assert forall i :: 1 <= i < |text| ==> text[i] == text[1..][i - 1];
    }
  }

  lemma {:induction false} ZeroIff(s: string)
    requires AllDigits(s)
    ensures Value(s) == 0 <==> forall i :: 0 <= i < |s| ==> s[i] == '0'
  {
    if s == "" {
    } else {
      var n := |s| - 1;
      ZeroIff(s[..n]);
      assert forall i :: 0 <= i < n ==> s[i] == s[..n][i];
    }
  }

  lemma NegativeFieldReads(time: string, h: int)
    requires 0 <= h < 10 && Ascii(time) && |time| == 12 && time[0] == '-' && time[1] == Digit(h)
    ensures Field(time, 0, 2) == Some(0 - h)
  {
    AsciiPiece(time, 0, 2);
    assert time[0..2][1..] == [Digit(h)];
    assert [Digit(h)][..0] == "";
  }

  /** Two lines that name one instant read alike, however each writes its offset. */
  lemma SameInstantReadsAlike(
    tag: string, m: Moment, days: int, rest: string, other: string, m': Moment, days': int, rest': string)
    requires Writable(m) && Taggable(tag, rest) && Spilled(m.date) == DateOf(days)
    requires Writable(m') && Taggable(other, rest') && Spilled(m'.date) == DateOf(days')
    requires Instant(m, days) == Instant(m', days')
    ensures ParseTimestamp(PrintLine(tag, m, rest)) == ParseTimestamp(PrintLine(other, m', rest'))
  {
    var line, line' := PrintLine(tag, m, rest), PrintLine(other, m', rest');
    MomentReadsBack(tag, m, rest, days);
    MomentReadsBack(other, m', rest', days');
  }

  // ---- the longest wait ----

  predicate MatchesAt(line: string, mark: string, i: nat)
    requires i + |mark| <= |line|
  {
    line[i..i + |mark|] == mark
  }

  predicate Contains(line: string, mark: string) {
    exists i :: 0 <= i <= |line| - |mark| && MatchesAt(line, mark, i)
  }

  predicate IsSaved(line: string) {
    Contains(line, MARK)
  }

  /** A line of fewer than three words, a date that is not ten bytes long and a time
      shorter than twelve are refused, whatever they hold. */
  lemma ShortTextsRefused(line: string)
    requires var words := Words(line, IsWhitespace);
      |words| < 3 || ByteLength(words[1]) != 10 || ByteLength(words[2]) < 12
    ensures ParseTimestamp(line) == None
  {
  }

  /** What was read from every line that reports a saved checkpoint. */
  function Readings(lines: seq<string>): (r: seq<Option<u64>>) {
    if lines == [] then []
    else
      var n := |lines| - 1;
      if IsSaved(lines[n]) then Readings(lines[..n]) + [ParseTimestamp(lines[n])] else Readings(lines[..n])
  }

  /** Logs are read line by line. */
  lemma {:induction false} ReadingsConcat(a: seq<string>, b: seq<string>)
    ensures Readings(a + b) == Readings(a) + Readings(b)
  {
    if b == [] {
      assert a + b == a;
    } else {
      var n := |b| - 1;
      assert (a + b)[..|a + b| - 1] == a + b[..n];
      ReadingsConcat(a, b[..n]);
    }
  }

  /** The lines that hold the mark. */
  ghost function Saved(lines: seq<string>): set<int> {
    set i | 0 <= i < |lines| && Contains(lines[i], "event=checkpoint status=saved")
  }

  lemma {:induction false} ReadingsCounted(lines: seq<string>)
    ensures |Readings(lines)| == |Saved(lines)|
  {
    if lines == [] {
      assert Saved(lines) == {};
    } else {
      var n := |lines| - 1;
      ReadingsCounted(lines[..n]);
      assert Saved(lines) == Saved(lines[..n]) + if IsSaved(lines[n]) then {n} else {};
    }
  }

  predicate AllRead(readings: seq<Option<u64>>) {
    forall i :: 0 <= i < |readings| ==> readings[i].Some?
  }

  function Times(readings: seq<Option<u64>>): (r: seq<u64>)
    requires AllRead(readings)
    ensures |r| == |readings|
    ensures forall i :: 0 <= i < |readings| ==> readings[i] == Some(r[i])
  {
    seq(|readings|, i requires 0 <= i < |readings| => readings[i].value)
  }

  /** How much later the i-th time is than the one before it; a clock set back
      counts as no wait. */
  function Gap(times: seq<u64>, i: nat): u64
    requires 0 < i < |times|
  {
    if times[i] >= times[i - 1] then times[i] - times[i - 1] else 0
  }

  predicate LongestGap(times: seq<u64>, gap: u64) {
    && (forall i :: 0 < i < |times| ==> Gap(times, i) <= gap)
    && (exists i :: 0 < i < |times| && Gap(times, i) == gap)
  }

  /** The count is exact; a gap is reported exactly when there are two saves and
      every one is readable, and it is then the longest. */
  predicate Extracted(lines: seq<string>, count: nat, gap: Option<u64>) {
    var readings := Readings(lines);
    && count == |readings|
    && (gap.Some? <==> |readings| >= 2 && AllRead(readings))
    && (gap.Some? ==> LongestGap(Times(readings), gap.value))
  }

  /** A log determines its answer. */
  lemma ExtractedUnique(
    lines: seq<string>, count: nat, gap: Option<u64>, count': nat, gap': Option<u64>)
    requires Extracted(lines, count, gap) && Extracted(lines, count', gap')
    ensures count == count' && gap == gap'
  {
    if gap.Some? { LongestGapUnique(Times(Readings(lines)), gap.value, gap'.value); }
  }

  method ExtractCheckpointGaps(lines: seq<string>) returns (count: nat, gap: Option<u64>)
    ensures Extracted(lines, count, gap)
  {
    var timestamps: seq<u64> := [];
    var unparsable := false;
    count := 0;
    for k := 0 to |lines|
      invariant count == |Readings(lines[..k])|
      invariant unparsable <==> !AllRead(Readings(lines[..k]))
      invariant !unparsable ==> timestamps == Times(Readings(lines[..k]))
    {
      ghost var before := Readings(lines[..k]);
      NextReading(lines, k);
      if IsSaved(lines[k]) {
        count := count + 1;
        var reading := ParseTimestamp(lines[k]);
        ReadingAppended(before, reading);
        if reading.Some? {
          timestamps := timestamps + [reading.value];
        } else {
          unparsable := true;
        }
      }
    }
    assert lines[..|lines|] == lines;
    if count == 0 || unparsable { return count, None; }
    gap := MaxGap(timestamps);
  }

  lemma NextReading(lines: seq<string>, k: nat)
    requires k < |lines|
    ensures Readings(lines[..k + 1]) ==
      if IsSaved(lines[k]) then Readings(lines[..k]) + [ParseTimestamp(lines[k])] else Readings(lines[..k])
  {
    assert lines[..k + 1][..k] == lines[..k];
  }

  lemma ReadingAppended(readings: seq<Option<u64>>, next: Option<u64>)
    ensures AllRead(readings + [next]) <==> AllRead(readings) && next.Some?
    ensures AllRead(readings + [next]) ==> Times(readings + [next]) == Times(readings) + [next.value]
  {
    var longer := readings + [next];
    assert longer[|readings|] == next;
    assert forall i :: 0 <= i < |readings| ==> longer[i] == readings[i];
  }

  method MaxGap(timestamps: seq<u64>) returns (gap: Option<u64>)
    requires |timestamps| > 0
    ensures gap.Some? <==> |timestamps| >= 2
    ensures gap.Some? ==> LongestGap(timestamps, gap.value)
  {
    gap := None;
    for i := 1 to |timestamps|
      invariant gap.Some? <==> i > 1
      invariant gap.Some? ==> LongestGap(timestamps[..i], gap.value)
    {
      var step := Gap(timestamps, i);
      LongestGapExtends(timestamps, i, gap);
      if gap.None? || step > gap.value {
        gap := Some(step);
      }
    }
    assert timestamps[..|timestamps|] == timestamps;
  }

  lemma LongestGapExtends(times: seq<u64>, i: nat, gap: Option<u64>)
    requires 1 <= i < |times| && (gap.Some? <==> i > 1)
    requires gap.Some? ==> LongestGap(times[..i], gap.value)
    ensures LongestGap(times[..i + 1], if gap.None? || Gap(times, i) > gap.value then Gap(times, i) else gap.value)
  {
    var longer := times[..i + 1];
    assert forall j :: 0 < j < i ==> Gap(times[..i], j) == Gap(longer, j);
    assert Gap(longer, i) == Gap(times, i);
  }

  predicate Chronological(times: seq<u64>) {
    forall i, j :: 0 <= i <= j < |times| ==> times[i] <= times[j]
  }

  /** The waits cover the whole log: count less one of the longest wait reaches
      from the first save to the last, even when the clock was set back. */
  lemma {:induction false} GapCoversSpan(times: seq<u64>, gap: u64, n: nat)
    requires |times| > 0 && n < |times| && forall i :: 0 < i < |times| ==> Gap(times, i) <= gap
    ensures times[n] <= times[0] + n * gap
  {
    if n == 0 {
    } else {
      GapCoversSpan(times, gap, n - 1);
      assert Gap(times, n) <= gap;
    }
  }

  /** In a chronological log the longest wait lies between an even share of the
      span and the whole of it. */
  lemma GapWithinSpan(times: seq<u64>, gap: u64)
    requires |times| >= 2 && Chronological(times) && LongestGap(times, gap)
    ensures gap <= times[|times| - 1] - times[0] <= (|times| - 1) * gap
  {
    GapCoversSpan(times, gap, |times| - 1);
  }

  /** No wait at all is reported exactly when the clock never moved forward. */
  lemma NoGapIff(times: seq<u64>, gap: u64)
    requires LongestGap(times, gap)
    ensures gap == 0 <==> forall i :: 0 < i < |times| ==> times[i] <= times[i - 1]
  {
    assert forall i :: 0 < i < |times| ==> (Gap(times, i) == 0 <==> times[i] <= times[i - 1]);
  }

  lemma LongestGapUnique(times: seq<u64>, a: u64, b: u64)
    requires LongestGap(times, a) && LongestGap(times, b)
    ensures a == b
  {
  }
}
