/**
 * The ordering key of a slot: `convert_to_datetime` in src/website_handler.py
 * parses a day label with the format "%d/%b/%Y" and, when a slot label is
 * given, the text before its first space with "%H:%M". Instants are encoded as
 * integers (yyyymmdd for a day, yyyymmddhhmm for a slot) so that integer order
 * is chronological order. A label strptime would reject has no key: callers
 * must only pass labels for which `DayParses` / `SlotParses` hold.
 */
module Dates {
  import opened Wrappers
  import opened Text

  const MonthAbbreviations: seq<string> :=
    ["Jan", "Feb", "Mar", "Apr", "May", "Jun", "Jul", "Aug", "Sep", "Oct", "Nov", "Dec"]

  predicate IsDigit(c: char) { '0' <= c <= '9' }

  predicate AllDigits(s: string)
  {
    s == [] || (AllDigits(s[..|s| - 1]) && IsDigit(s[|s| - 1]))
  }

  /** The decimal value of a string of digits. */
  function DecimalValue(s: string): (n: nat)
    requires AllDigits(s)
    ensures |s| == 1 ==> n <= 9
    ensures |s| == 2 ==> n <= 99
  {
    if s == [] then 0
    else DecimalValue(s[..|s| - 1]) * 10 + (s[|s| - 1] as int - '0' as int)
  }

  /** The 1-based number of a month abbreviation found at or after position `i`; 0 when there is none. */
  function MonthFrom(mon: string, i: nat): (m: int)
    requires i <= |MonthAbbreviations|
    ensures m == 0 || (i < m <= |MonthAbbreviations| && MonthAbbreviations[m - 1] == mon)
    ensures m == 0 <==> mon !in MonthAbbreviations[i..]
    decreases |MonthAbbreviations| - i
  {
    if i == |MonthAbbreviations| then 0
    else if MonthAbbreviations[i] == mon then i + 1
    else MonthFrom(mon, i + 1)
  }

  /** The number of a month abbreviation (1 for "Jan"), or 0 for anything strptime's %b rejects. */
  function MonthNumber(mon: string): (m: int)
    ensures 0 <= m <= 12
    ensures m == 0 <==> mon !in MonthAbbreviations
    ensures m != 0 ==> MonthAbbreviations[m - 1] == mon
  {
    assert MonthAbbreviations[0..] == MonthAbbreviations;
    MonthFrom(mon, 0)
  }

  predicate IsLeapYear(y: int) { y % 4 == 0 && (y % 100 != 0 || y % 400 == 0) }

  function DaysInMonth(y: int, m: int): (n: int)
    requires 1 <= m <= 12
    ensures 28 <= n <= 31
  {
    if m == 2 then (if IsLeapYear(y) then 29 else 28)
    else if m == 4 || m == 6 || m == 9 || m == 11 then 30
    else 31
  }

  /** A one- or two-digit field, as strptime's %d, %H and %M accept it. */
  predicate IsShortNumber(s: string) { 1 <= |s| <= 2 && AllDigits(s) }

  /** A calendar date as strptime reads it: year, month 1..12, day of month. */
  datatype Date = Date(year: int, month: int, day: int)

  /**
   * The fields of a label shaped like "%d/%b/%Y": a one- or two-digit day, a
   * month abbreviation and a four-digit year, separated by '/'.
   */
  function DayFields(s: string): (r: Option<Date>)
    ensures r.Some? ==> 1 <= r.value.month <= 12 && 0 <= r.value.day <= 99 && 0 <= r.value.year
  {
    var parts := Split(s, '/');
    if |parts| != 3 || !IsShortNumber(parts[0]) || |parts[2]| != 4 || !AllDigits(parts[2]) then None
    else
      var m := MonthNumber(parts[1]);
      if m == 0 then None else Some(Date(DecimalValue(parts[2]), m, DecimalValue(parts[0])))
  }

  /** A date strptime accepts: year from 1, day within its month. */
  predicate IsCalendarDate(dt: Date)
  {
    1 <= dt.month <= 12 && 1 <= dt.year && 1 <= dt.day <= DaysInMonth(dt.year, dt.month)
  }

  /** A date as yyyymmdd, so that integer order is date order. */
  function Ordinal(dt: Date): int { dt.year * 10000 + dt.month * 100 + dt.day }

  /**
   * strptime(s, "%d/%b/%Y") as yyyymmdd; None where strptime raises ValueError
   * (wrong shape, unknown month, day 0 or past the end of the month, year 0).
   */
  function ParseDay(s: string): (r: Option<int>)
    ensures r.Some? ==> 10101 <= r.value
  {
    match DayFields(s)
    case None => None
    case Some(dt) => if IsCalendarDate(dt) then Some(Ordinal(dt)) else None
  }

  /** strptime(s, "%H:%M") as hhmm; None where strptime raises ValueError. */
  function ParseClock(s: string): (r: Option<int>)
    ensures r.Some? ==> 0 <= r.value <= 2359
  {
    var parts := Split(s, ':');
    if |parts| != 2 || !IsShortNumber(parts[0]) || !IsShortNumber(parts[1]) then None
    else
      var h, mi := DecimalValue(parts[0]), DecimalValue(parts[1]);
      if h <= 23 && mi <= 59 then Some(h * 100 + mi) else None
  }

  predicate DayParses(day: string) { ParseDay(day).Some? }

  /**
   * A slot label is usable as a key when it is empty (the source then parses the
   * day alone) or when the text before its first space is a clock time.
   */
  predicate SlotParses(slot: string) { slot == "" || ParseClock(BeforeFirstSpace(slot)).Some? }

  /** Every label of `days` is one strptime accepts as a day. */
  predicate AllDaysParse(days: seq<string>)
  {
    days == [] || (DayParses(days[0]) && AllDaysParse(days[1..]))
  }

  /** Every label of `slots` is one convert_to_datetime accepts as a slot. */
  predicate AllSlotsParse(slots: seq<string>)
  {
    slots == [] || (SlotParses(slots[0]) && AllSlotsParse(slots[1..]))
  }

  lemma {:induction false} AllDaysParseMembers(days: seq<string>)
    ensures AllDaysParse(days) <==> forall d :: d in days ==> DayParses(d)
  {
    if days != [] {
      AllDaysParseMembers(days[1..]);
      assert days == [days[0]] + days[1..];
    }
  }

  lemma {:induction false} AllSlotsParseMembers(slots: seq<string>)
    ensures AllSlotsParse(slots) <==> forall t :: t in slots ==> SlotParses(t)
  {
    if slots != [] {
      AllSlotsParseMembers(slots[1..]);
      assert slots == [slots[0]] + slots[1..];
    }
  }

  /**
   * `convert_to_datetime(day)`: the day's key. It is read off the label's
   * fields alone; whether strptime would accept the label is `DayParses`.
   */
  function DayKey(day: string): int
  {
    match DayFields(day)
    case None => 0
    case Some(dt) => Ordinal(dt)
  }

  /** On a label strptime accepts, the key is what the parse yields. */
  lemma DayKeyParsed(day: string)
    requires DayParses(day)
    ensures ParseDay(day) == Some(DayKey(day)) && 10101 <= DayKey(day)
  {
  }

  /** Earlier dates have smaller keys: the key orders by year, then month, then day. */
  lemma OrdinalOrder(a: Date, b: Date)
    requires IsCalendarDate(a) && IsCalendarDate(b)
    ensures Ordinal(a) < Ordinal(b) <==>
            a.year < b.year || (a.year == b.year && (a.month < b.month || (a.month == b.month && a.day < b.day)))
    ensures Ordinal(a) == Ordinal(b) <==> a == b
  {
    if a.year < b.year {
      assert Ordinal(a) <= a.year * 10000 + 1231;
      assert (a.year + 1) * 10000 <= b.year * 10000;
    } else if b.year < a.year {
      assert Ordinal(b) <= b.year * 10000 + 1231;
      assert (b.year + 1) * 10000 <= a.year * 10000;
    }
  }

  /** The start time of a slot label, in hhmm; 0 (midnight) for an empty label. */
  function StartTime(slot: string): (t: int)
    ensures 0 <= t <= 2359
  {
    if slot == "" then 0 else ParseClock(BeforeFirstSpace(slot)).GetOr(0)
  }

  /** `convert_to_datetime(day, slot)`: the instant a (day, slot) pair is sorted by. */
  function SlotKey(day: string, slot: string): int
  {
    DayKey(day) * 10000 + StartTime(slot)
  }

  /** Slot keys order by day first, then by start time alone. */
  lemma SlotKeyOrder(d1: string, t1: string, d2: string, t2: string)
    ensures SlotKey(d1, t1) <= SlotKey(d2, t2) <==>
            DayKey(d1) < DayKey(d2) || (DayKey(d1) == DayKey(d2) && StartTime(t1) <= StartTime(t2))
  {
    var a, b := DayKey(d1), DayKey(d2);
    if a < b {
      assert a * 10000 + 10000 <= b * 10000;
    } else if b < a {
      assert b * 10000 + 10000 <= a * 10000;
    }
  }

  lemma {:induction false} BeforeFirstSpaceOfJoin(start: string, rest: string)
    requires ' ' !in start
    requires rest != [] && rest[0] == ' '
    ensures BeforeFirstSpace(start + rest) == start
    decreases |start|
  {
    if start != [] {
      assert (start + rest)[1..] == start[1..] + rest;
      BeforeFirstSpaceOfJoin(start[1..], rest);
    } else {
      assert start + rest == rest;
    }
  }

  /**
   * Only the text before the first space of a slot label matters: "09:00 - 10:00"
   * sorts as 09:00 whatever its end time.
   */
  lemma EndTimeIgnored(day: string, start: string, end: string)
    requires start != [] && ' ' !in start
    ensures SlotKey(day, start + " - " + end) == SlotKey(day, start)
    ensures SlotParses(start + " - " + end) <==> SlotParses(start)
  {
    BeforeFirstSpaceOfJoin(start, " - " + end);
    assert start + " - " + end == start + (" - " + end);
    assert BeforeFirstSpace(start) == start by {
      BeforeFirstSpaceNoSpace(start);
    }
  }

  lemma {:induction false} BeforeFirstSpaceNoSpace(s: string)
    requires ' ' !in s
    ensures BeforeFirstSpace(s) == s
  {
    if s != [] {
      BeforeFirstSpaceNoSpace(s[1..]);
    }
  }
}
