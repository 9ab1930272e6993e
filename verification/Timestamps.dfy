/**
 The reader of timestamps with a zone (section 5.6 of RFC 3339), against a printer: it accepts exactly what the printer
 can print, and gives the counted days in seconds minus the offset.
 */
module Timestamps {
  import opened Text
  import opened Calendar

  datatype Zone = Zulu(letter: char) | Offset(negative: bool, hours: int, minutes: int)

  /** A timestamp by its parts. `fraction` is empty or holds the digits after the point. */
  datatype Stamp = Stamp(date: Date, letter: char, hour: int, minute: int, second: int, fraction: string, zone: Zone)

  predicate ValidZone(z: Zone) {
    match z
    case Zulu(letter) => letter == 'Z' || letter == 'z'
    case Offset(_, hours, minutes) => 0 <= hours <= 23 && 0 <= minutes <= 59
  }

  predicate ValidStamp(s: Stamp) {
    && ValidDate(s.date) && 1970 <= s.date.year <= 9999 && (s.letter == 'T' || s.letter == 't')
    && 0 <= s.hour <= 23 && 0 <= s.minute <= 59 && 0 <= s.second <= 59
    && AllDigits(s.fraction) && ValidZone(s.zone)
  }

  function OffsetSeconds(z: Zone): int {
    match z
    case Zulu(_) => 0
    case Offset(negative, hours, minutes) => (hours * 3600 + minutes * 60) * if negative then -1 else 1
  }

  /** Seconds since the epoch: the days counted one by one, the time of day, the offset. The fraction does not count. */
  ghost predicate Means(s: Stamp, seconds: int) {
    exists days: nat :: DateAfter(days) == s.date &&
        seconds == days * 86400 + s.hour * 3600 + s.minute * 60 + s.second - OffsetSeconds(s.zone)
  }

  // ---- printing ------------------------------------------------------------------------------

  function Two(n: int): (s: string)
    requires 0 <= n < 100
    ensures |s| == 2
  {
    [DigitChar(n / 10), DigitChar(n % 10)]
  }

  datatype Time = Time(hour: int, minute: int, second: int)

  /** Four digits and twice two; three times two. */
  predicate SizedDate(d: Date) { 0 <= d.year < 10000 && 0 <= d.month < 100 && 0 <= d.day < 100 }

  predicate SizedTime(c: Time) { 0 <= c.hour < 100 && 0 <= c.minute < 100 && 0 <= c.second < 100 }

  function DateText(d: Date): (t: string)
    requires SizedDate(d)
    ensures |t| == 10
  {
    Two(d.year / 100) + Two(d.year % 100) + "-" + Two(d.month) + "-" + Two(d.day)
  }

  function TimeText(c: Time): (t: string)
    requires SizedTime(c)
    ensures |t| == 8
  {
    Two(c.hour) + ":" + Two(c.minute) + ":" + Two(c.second)
  }

  lemma StampIsSized(s: Stamp)
    requires ValidStamp(s)
    ensures SizedDate(s.date) && SizedTime(TimeOf(s))
  {
  }

  function TimeOf(s: Stamp): Time { Time(s.hour, s.minute, s.second) }

  function Point(fraction: string): string { if fraction == "" then "" else "." + fraction }

  function ZoneText(z: Zone): (t: string)
    requires ValidZone(z)
    ensures t != ""
  {
    match z
    case Zulu(letter) => [letter]
    case Offset(negative, hours, minutes) => [if negative then '-' else '+'] + Two(hours) + ":" + Two(minutes)
  }

  function Print(s: Stamp): string
    requires ValidStamp(s)
  {
    StampIsSized(s);
    DateText(s.date) + ([s.letter] + (TimeText(TimeOf(s)) + (Point(s.fraction) + ZoneText(s.zone))))
  }

  // ---- reading -------------------------------------------------------------------------------

  function Digit(c: char): int { c as int - '0' as int }

  /** The loop over a fixed number of digits. */
  function Number(t: string, at: nat, count: nat): (n: Option<nat>)
    requires at + count <= |t|
  {
    if count == 0 then Some(0)
    else
      var n := Number(t, at, count - 1);
      if n.None? || !IsDigit(t[at + count - 1]) then None else Some(n.value * 10 + Digit(t[at + count - 1]))
  }

  /** The number of digits at the start. */
  function Run(t: string): (n: nat)
    ensures n <= |t|
  {
    if t != "" && IsDigit(t[0]) then 1 + Run(t[1..]) else 0
  }

  datatype Split = Split(fraction: string, rest: string)

  /** The fraction, if there is one; a point without digits is an error. */
  function ReadFraction(t: string): (r: Option<Split>)
  {
    if t == "" || t[0] != '.' then Some(Split("", t))
    else if Run(t[1..]) == 0 then None
    else Some(Split(t[1..][..Run(t[1..])], t[1..][Run(t[1..])..]))
  }

  function ReadZone(t: string): (z: Option<Zone>)
    ensures z.Some? ==> ValidZone(z.value)
  {
    if t == "" then None
    else if t[0] == 'Z' || t[0] == 'z' then if |t| == 1 then Some(Zulu(t[0])) else None
    else if |t| == 6 && (t[0] == '+' || t[0] == '-') && t[3] == ':' then
      var hours, minutes := Number(t, 1, 2), Number(t, 4, 2);
      if hours.None? || minutes.None? || hours.value > 23 || minutes.value > 59 then None
      else Some(Offset(t[0] == '-', hours.value, minutes.value))
    else None
  }

  function ReadDate(t: string): (d: Option<Date>)
    requires |t| == 10
  {
    if t[4] != '-' || t[7] != '-' then None
    else
      var year, month, day := Number(t, 0, 4), Number(t, 5, 2), Number(t, 8, 2);
      if year.None? || month.None? || day.None? then None else Some(Date(year.value, month.value, day.value))
  }

  function ReadTime(t: string): (c: Option<Time>)
    requires |t| == 8
  {
    if t[2] != ':' || t[5] != ':' then None
    else
      var hour, minute, second := Number(t, 0, 2), Number(t, 3, 2), Number(t, 6, 2);
      if hour.None? || minute.None? || second.None? then None else Some(Time(hour.value, minute.value, second.value))
  }

  predicate InRange(d: Date, c: Time) {
    && d.year >= 1970 && 1 <= d.month <= 12 && 1 <= d.day <= MonthDays(d.year, d.month)
    && c.hour <= 23 && c.minute <= 59 && c.second <= 59
  }

  function Seconds(d: Date, c: Time, z: Zone): int {
    DaysFromCivil(d) * 86400 + c.hour * 3600 + c.minute * 60 + c.second - OffsetSeconds(z)
  }

  /** What follows the seconds. */
  function ReadTail(t: string): Option<Zone> {
    var f := ReadFraction(t);
    if f.None? then None else ReadZone(f.value.rest)
  }

  /** `parse_utc_offset_timestamp`. */
  function ReadTimestamp(t: string): Option<int> {
    if |t| < 20 || |t| > 40 || (t[10] != 'T' && t[10] != 't') then None
    else
      var d, c := ReadDate(t[..10]), ReadTime(t[11..19]);
      if d.None? || c.None? || !InRange(d.value, c.value) then None
      else
        var z := ReadTail(t[19..]);
        if z.None? then None else Some(Seconds(d.value, c.value, z.value))
  }

  // ---- digits --------------------------------------------------------------------------------

  lemma NumberTwo(t: string, at: nat)
    requires at + 2 <= |t|
    ensures Number(t, at, 2) == if IsDigit(t[at]) && IsDigit(t[at + 1]) then Some(Digit(t[at]) * 10 + Digit(t[at + 1]))
            else None
  {
    assert Number(t, at, 1) == if IsDigit(t[at]) then Some(Digit(t[at])) else None;
  }

  lemma NumberFour(t: string, at: nat)
    requires at + 4 <= |t|
    ensures var high, low := Number(t, at, 2), Number(t, at + 2, 2);
            Number(t, at, 4) == if high.None? || low.None? then None else Some(high.value * 100 + low.value)
  {
    NumberTwo(t, at + 2);
    assert Number(t, at, 3) == if Number(t, at, 2).None? || !IsDigit(t[at + 2]) then None
        else Some(Number(t, at, 2).value * 10 + Digit(t[at + 2]));
  }

  lemma TwoPrints(t: string, at: nat, n: int)
    requires at + 2 <= |t| && 0 <= n < 100 && t[at] == Two(n)[0] && t[at + 1] == Two(n)[1]
    ensures Number(t, at, 2) == Some(n)
  {
    NumberTwo(t, at);
  }

  lemma TwoReads(t: string, at: nat)
    requires at + 2 <= |t| && Number(t, at, 2).Some?
    ensures 0 <= Number(t, at, 2).value < 100 && Two(Number(t, at, 2).value) == t[at..at + 2]
  {
    NumberTwo(t, at);
  }

  // ---- what is printed is read ---------------------------------------------------------------

  lemma DateReads(d: Date)
    requires SizedDate(d)
    ensures ReadDate(DateText(d)) == Some(d)
  {
    var t := DateText(d);
    NumberFour(t, 0);
    TwoPrints(t, 0, d.year / 100);
    TwoPrints(t, 2, d.year % 100);
    TwoPrints(t, 5, d.month);
    TwoPrints(t, 8, d.day);
  }

  lemma TimeReads(c: Time)
    requires SizedTime(c)
    ensures ReadTime(TimeText(c)) == Some(c)
  {
    var t := TimeText(c);
    TwoPrints(t, 0, c.hour);
    TwoPrints(t, 3, c.minute);
    TwoPrints(t, 6, c.second);
  }

  lemma {:induction false} RunOf(d: string, rest: string)
    requires AllDigits(d) && (rest == "" || !IsDigit(rest[0]))
    ensures Run(d + rest) == |d|
  {
    if d == "" {
      assert d + rest == rest;
    } else {
      assert (d + rest)[0] == d[0] && (d + rest)[1..] == d[1..] + rest;
      RunOf(d[1..], rest);
    }
  }

  lemma ZoneReads(z: Zone)
    requires ValidZone(z)
    ensures ReadZone(ZoneText(z)) == Some(z) && !IsDigit(ZoneText(z)[0]) && ZoneText(z)[0] != '.'
  {
    if z.Offset? {
      var t := ZoneText(z);
      TwoPrints(t, 1, z.hours);
      TwoPrints(t, 4, z.minutes);
    }
  }

  lemma FractionReads(fraction: string, rest: string)
    requires AllDigits(fraction) && rest != "" && !IsDigit(rest[0]) && rest[0] != '.'
    ensures ReadFraction(Point(fraction) + rest) == Some(Split(fraction, rest))
  {
    var t := Point(fraction) + rest;
    if fraction == "" {
      assert t == rest;
    } else {
      assert t[1..] == fraction + rest;
      RunOf(fraction, rest);
      assert (fraction + rest)[..|fraction|] == fraction && (fraction + rest)[|fraction|..] == rest;
    }
  }

  lemma FourParts(a: string, letter: char, b: string, c: string)
    requires |a| == 10 && |b| == 8
    ensures var t := a + ([letter] + (b + c)); t[..10] == a && t[10] == letter && t[11..19] == b && t[19..] == c
  {
  }

  /** Everything printable within the length limit is accepted, with its meaning. */
  lemma PrintedIsRead(s: Stamp)
    requires ValidStamp(s) && |Print(s)| <= 40
    ensures ReadTimestamp(Print(s)).Some? && Means(s, ReadTimestamp(Print(s)).value)
  {
    StampIsSized(s);
    FourParts(DateText(s.date), s.letter, TimeText(TimeOf(s)), Point(s.fraction) + ZoneText(s.zone));
    DateReads(s.date);
    TimeReads(TimeOf(s));
    ZoneReads(s.zone);
    FractionReads(s.fraction, ZoneText(s.zone));
    SecondsMean(s);
  }

  lemma SecondsMean(s: Stamp)
    requires ValidStamp(s)
    ensures Means(s, Seconds(s.date, TimeOf(s), s.zone))
  {
    EveryDateIsCounted(s.date);
    assert DateAfter(DaysFromCivil(s.date)) == s.date;
  }

  // ---- what is read is printed ---------------------------------------------------------------

  lemma DateIsPrinted(t: string)
    requires |t| == 10 && ReadDate(t).Some?
    ensures var d := ReadDate(t).value; SizedDate(d) && DateText(d) == t
  {
    NumberFour(t, 0);
    TwoReads(t, 0);
    TwoReads(t, 2);
    TwoReads(t, 5);
    TwoReads(t, 8);
    YearParts(Number(t, 0, 2).value, Number(t, 2, 2).value);
    TenCharacters(t);
  }

  lemma YearParts(high: int, low: int)
    requires 0 <= high < 100 && 0 <= low < 100
    ensures var year := high * 100 + low; year / 100 == high && year % 100 == low && 0 <= year < 10000
  {
  }

  lemma TenCharacters(t: string)
    requires |t| == 10
    ensures t == t[0..2] + t[2..4] + [t[4]] + t[5..7] + [t[7]] + t[8..10]
  {
  }

  lemma TimeIsPrinted(t: string)
    requires |t| == 8 && ReadTime(t).Some?
    ensures var c := ReadTime(t).value; SizedTime(c) && TimeText(c) == t
  {
    TwoReads(t, 0);
    TwoReads(t, 3);
    TwoReads(t, 6);
    assert t == t[0..2] + [t[2]] + t[3..5] + [t[5]] + t[6..8];
  }

  lemma {:induction false} RunIsDigits(t: string)
    ensures AllDigits(t[..Run(t)])
    decreases |t|
  {
    if t != "" && IsDigit(t[0]) {
      RunIsDigits(t[1..]);
      assert t[..Run(t)] == [t[0]] + t[1..][..Run(t[1..])];
    }
  }

  lemma FractionIsPrinted(t: string)
    requires ReadFraction(t).Some?
    ensures var f := ReadFraction(t).value; AllDigits(f.fraction) && Point(f.fraction) + f.rest == t
  {
    if t != "" && t[0] == '.' {
      RunIsDigits(t[1..]);
      var n := Run(t[1..]);
      assert t == "." + (t[1..][..n] + t[1..][n..]);
      assert t == "." + t[1..][..n] + t[1..][n..];
    }
  }

  lemma ZoneIsPrinted(t: string)
    requires ReadZone(t).Some?
    ensures ZoneText(ReadZone(t).value) == t
  {
    if t[0] == 'Z' || t[0] == 'z' {
      assert t == [t[0]];
    } else {
      TwoReads(t, 1);
      TwoReads(t, 4);
      assert t == [t[0]] + t[1..3] + [t[3]] + t[4..6];
    }
  }

  /**
   Nothing else is accepted: every accepted text is the printed form of a valid timestamp, and is read with its meaning.
   */
  lemma ReadIsPrinted(t: string)
    requires ReadTimestamp(t).Some?
    ensures exists s: Stamp :: ValidStamp(s) && Print(s) == t && Means(s, ReadTimestamp(t).value)
  {
    var d, c, f := ReadDate(t[..10]).value, ReadTime(t[11..19]).value, ReadFraction(t[19..]).value;
    var z := ReadZone(f.rest).value;
    FractionIsPrinted(t[19..]);
    ZoneIsPrinted(f.rest);
    DateIsPrinted(t[..10]);
    TimeIsPrinted(t[11..19]);
    var s := Stamp(d, t[10], c.hour, c.minute, c.second, f.fraction, z);
    assert TimeOf(s) == c;
    Rejoin(t);
    SecondsMean(s);
    assert ValidStamp(s) && Print(s) == t;
  }

  lemma Rejoin(t: string)
    requires |t| >= 19
    ensures t[..10] + ([t[10]] + (t[11..19] + t[19..])) == t
  {
  }
}
