/** ISO 8601 week-numbering (ISO 8601:2004, section 4.1.4) over day numbers, and
    the `<weekYear>-W<ww>` key that names a weekly note and its cache entry. */
module IsoWeek {
  import opened Strings

  /** A calendar date as a day number in the proleptic Gregorian calendar:
      0 is 1970-01-01, which was a Thursday. */
  type Day = int

  predicate IsLeapYear(y: int) {
    y % 4 == 0 && (y % 100 != 0 || y % 400 == 0)
  }

  function DaysInYear(y: int): int {
    if IsLeapYear(y) then 366 else 365
  }

  /** Day number of 1 January of year `y`: 1970 starts at day 0, and each year
      starts where the one before it ends. */
  function YearStart(y: int): Day
    decreases if y >= 1970 then y - 1970 else 1970 - y
  {
    if y == 1970 then 0
    else if y > 1970 then YearStart(y - 1) + DaysInYear(y - 1)
    else YearStart(y + 1) - DaysInYear(y)
  }

  lemma YearLength(y: int)
    ensures YearStart(y + 1) - YearStart(y) == DaysInYear(y)
  {
    if y >= 1970 {
      assert YearStart(y + 1) == YearStart(y) + DaysInYear(y);
    } else {
      assert YearStart(y) == YearStart(y + 1) - DaysInYear(y);
    }
  }

  /** Leap years in 1 ..= y - 1 of the proleptic Gregorian calendar, counted
      from the divisibility rules (the count can be negative for y <= 0). */
  function LeapYearsBefore(y: int): int {
    (y - 1) / 4 - (y - 1) / 100 + (y - 1) / 400
  }

  lemma QuarterStep(y: int)
    ensures y / 4 - (y - 1) / 4 == if y % 4 == 0 then 1 else 0
  {
  }

  lemma CenturyStep(y: int)
    ensures y / 100 - (y - 1) / 100 == if y % 100 == 0 then 1 else 0
  {
  }

  lemma QuadCenturyStep(y: int)
    ensures y / 400 - (y - 1) / 400 == if y % 400 == 0 then 1 else 0
  {
  }

  /** Moving one year on adds one to the count exactly when the year left
      behind is a leap year. */
  lemma LeapYearStep(y: int)
    ensures LeapYearsBefore(y + 1) - LeapYearsBefore(y) == if IsLeapYear(y) then 1 else 0
  {
    QuarterStep(y);
    CenturyStep(y);
    QuadCenturyStep(y);
  }

  /** The closed form: 365 days a year since 1970 plus one per leap year
      (477 leap years precede 1970). */
  lemma {:induction false} YearStartClosed(y: int)
    ensures YearStart(y) == 365 * (y - 1970) + LeapYearsBefore(y) - 477
    decreases if y >= 1970 then y - 1970 else 1970 - y
  {
    if y > 1970 {
      YearStartClosed(y - 1);
      LeapYearStep(y - 1);
    } else if y < 1970 {
      YearStartClosed(y + 1);
      LeapYearStep(y);
    }
  }

  lemma {:induction false} YearStartGrows(a: int, b: int)
    requires a <= b
    ensures YearStart(a) + 365 * (b - a) <= YearStart(b)
    decreases b - a
  {
    if a < b {
      YearStartGrows(a, b - 1);
      YearLength(b - 1);
    }
  }

  function YearUp(d: Day, y: int): (r: int)
    requires YearStart(y) <= d
    ensures YearStart(r) <= d < YearStart(r + 1)
    decreases d - YearStart(y)
  {
    YearLength(y);
    if d < YearStart(y + 1) then y else YearUp(d, y + 1)
  }

  function YearDown(d: Day, y: int): (r: int)
    requires d < YearStart(y + 1)
    ensures YearStart(r) <= d < YearStart(r + 1)
    decreases YearStart(y + 1) - d
  {
    YearLength(y);
    if YearStart(y) <= d then y else YearDown(d, y - 1)
  }

  /** The calendar year that contains day `d`. */
  function YearOf(d: Day): (y: int)
    ensures YearStart(y) <= d < YearStart(y + 1)
  {
    if d >= YearStart(1970) then YearUp(d, 1970) else YearDown(d, 1969)
  }

  lemma YearOfIs(d: Day, y: int)
    requires YearStart(y) <= d < YearStart(y + 1)
    ensures YearOf(d) == y
  {
    var r := YearOf(d);
    if r < y {
      YearStartGrows(r + 1, y);
    } else if r > y {
      YearStartGrows(y + 1, r);
    }
  }

  /** ISO weekday: 1 is Monday, 7 is Sunday. */
  function IsoWeekday(d: Day): int {
    (d + 3) % 7 + 1
  }

  /** Which Monday-to-Sunday week holds `d`: week 0 runs from 1969-12-29 to 1970-01-04. */
  function WeekIndex(d: Day): int {
    (d + 3) / 7
  }

  /** The Thursday of week `w`, whose calendar year is the week's week-numbering year. */
  function Thursday(w: int): Day {
    7 * w
  }

  /** The ISO rule: the Thursday of the week of `d` is `d` moved to weekday 4. */
  lemma ThursdayRule(d: Day)
    ensures Thursday(WeekIndex(d)) == d - IsoWeekday(d) + 4
  {
  }

  function YearOfWeek(w: int): int {
    YearOf(Thursday(w))
  }

  /** A week is in week 1 of its year if its Thursday falls among the year's first seven days. */
  function NumberOfWeek(w: int): (n: int)
    ensures 1 <= n <= 53
  {
    var t := Thursday(w);
    YearLength(YearOf(t));
    (t - YearStart(YearOf(t))) / 7 + 1
  }

  /** Luxon's `weekYear`. */
  function WeekYear(d: Day): int {
    YearOfWeek(WeekIndex(d))
  }

  /** Luxon's `weekNumber`. */
  function WeekNumber(d: Day): (n: int)
    ensures 1 <= n <= 53
  {
    NumberOfWeek(WeekIndex(d))
  }

  /** The number of ISO weeks of year `y`: the week number of its 28 December. */
  function WeeksInYear(y: int): int {
    WeekNumber(YearStart(y + 1) - 4)
  }

  /** `getWeekKey`: `<weekYear>-W<ww>`, the week number left-padded with `0` to two digits. */
  function FormatKey(year: int, week: nat): string {
    IntToString(year) + "-W" + PadStart2(NatToString(week))
  }

  function KeyOfWeek(w: int): string {
    FormatKey(YearOfWeek(w), NumberOfWeek(w))
  }

  function WeekKey(d: Day): string {
    KeyOfWeek(WeekIndex(d))
  }

  /** Reads a key back into its week-numbering year and week. */
  function ParseKey(key: string): Option<(int, nat)> {
    if |key| >= 5 && key[|key| - 4] == '-' && key[|key| - 3] == 'W' && AllDigits(key[|key| - 2..]) then
      match ParseInt(key[..|key| - 4])
      case Some(y) => Some((y, DigitsValue(key[|key| - 2..])))
      case None => None
    else None
  }

  lemma ParseKeyOf(ys: string, ws: string, y: int)
    requires ParseInt(ys) == Some(y) && |ws| == 2 && AllDigits(ws)
    ensures ParseKey(ys + "-W" + ws) == Some((y, DigitsValue(ws)))
  {
    var key := ys + "-W" + ws;
    assert key[..|key| - 4] == ys;
    assert key[|key| - 2..] == ws;
  }

  lemma PaddedWeek(w: nat)
    requires w < 100
    ensures var ws := PadStart2(NatToString(w)); |ws| == 2 && AllDigits(ws) && DigitsValue(ws) == w
  {
    var ws := PadStart2(NatToString(w));
    NatToStringDigits(w);
    if w >= 10 {
      assert NatToString(w / 10) == [DigitChar(w / 10)];
    }
    assert ws == [DigitChar(w / 10), DigitChar(w % 10)];
    assert ws[..1] == [DigitChar(w / 10)];
    assert ws[..1][..0] == [];
    assert DigitsValue(ws[..1]) == w / 10;
  }

  /** The key names its week unambiguously: year and week can be read back from it. */
  lemma KeyRoundTrip(year: int, week: nat)
    requires 1 <= week <= 53
    ensures ParseKey(FormatKey(year, week)) == Some((year, week))
  {
    PaddedWeek(week);
    IntToStringRoundTrip(year);
    ParseKeyOf(IntToString(year), PadStart2(NatToString(week)), year);
  }

  lemma SameQuotient(a: int, b: int, y: int)
    requires (7 * a - y) / 7 == (7 * b - y) / 7
    ensures a == b
  {
  }

  /** Two weeks have the same key only if they are the same week. */
  lemma KeyOfWeekInjective(w1: int, w2: int)
    requires KeyOfWeek(w1) == KeyOfWeek(w2)
    ensures w1 == w2
  {
    SameKeySameNumbers(w1, w2);
    SameNumbersSameWeek(w1, w2);
  }

  lemma SameKeySameNumbers(w1: int, w2: int)
    requires KeyOfWeek(w1) == KeyOfWeek(w2)
    ensures YearOfWeek(w1) == YearOfWeek(w2) && NumberOfWeek(w1) == NumberOfWeek(w2)
  {
    KeyRoundTrip(YearOfWeek(w1), NumberOfWeek(w1));
    KeyRoundTrip(YearOfWeek(w2), NumberOfWeek(w2));
  }

  lemma SameNumbersSameWeek(w1: int, w2: int)
    requires YearOfWeek(w1) == YearOfWeek(w2) && NumberOfWeek(w1) == NumberOfWeek(w2)
    ensures w1 == w2
  {
    SameQuotient(w1, w2, YearStart(YearOfWeek(w1)));
  }

  /** Two days get the same key exactly when they lie in the same Monday-to-Sunday week. */
  lemma WeekKeyIdentifiesWeek(d1: Day, d2: Day)
    ensures WeekKey(d1) == WeekKey(d2) <==> WeekIndex(d1) == WeekIndex(d2)
  {
    if WeekKey(d1) == WeekKey(d2) {
      KeyOfWeekInjective(WeekIndex(d1), WeekIndex(d2));
    }
  }

  /** Every day of a week, Monday (`k` = 0) to Sunday (`k` = 6), has the same key. */
  lemma SameWeekSameKey(d: Day, k: int)
    requires 0 <= k < 7
    ensures WeekKey(d - IsoWeekday(d) + 1 + k) == WeekKey(d)
  {
    DaysOfTheWeek(d, k);
  }

  lemma DaysOfTheWeek(d: Day, k: int)
    requires 0 <= k < 7
    ensures WeekIndex(d - IsoWeekday(d) + 1 + k) == WeekIndex(d)
  {
    var m := d - IsoWeekday(d) + 1 + k;
    assert m + 3 == 7 * WeekIndex(d) + k;
  }

  lemma WeekBeforeSameYear(w: int)
    requires NumberOfWeek(w) > 1
    ensures YearOfWeek(w - 1) == YearOfWeek(w) && NumberOfWeek(w - 1) == NumberOfWeek(w) - 1
  {
    var t := Thursday(w);
    var y := YearOf(t);
    assert t - 7 >= YearStart(y);
    YearOfIs(t - 7, y);
    assert Thursday(w - 1) == t - 7;
  }

  lemma WeekBeforeNewYear(w: int)
    requires NumberOfWeek(w) == 1
    ensures YearOfWeek(w - 1) == YearOfWeek(w) - 1 && NumberOfWeek(w - 1) == WeeksInYear(YearOfWeek(w) - 1)
  {
    YearBeforeWeekOne(w);
    WeekOfDecember28th(w);
  }

  lemma YearBeforeWeekOne(w: int)
    requires NumberOfWeek(w) == 1
    ensures YearOfWeek(w - 1) == YearOfWeek(w) - 1
  {
    var t := Thursday(w);
    var y := YearOf(t);
    assert t - 7 < YearStart(y);
    YearLength(y - 1);
    YearOfIs(t - 7, y - 1);
    assert Thursday(w - 1) == t - 7;
  }

  /** The 28 December before week 1 of a year is in the week before it. */
  lemma WeekOfDecember28th(w: int)
    requires NumberOfWeek(w) == 1
    ensures WeekIndex(YearStart(YearOfWeek(w)) - 4) == w - 1
  {
    var t := Thursday(w);
    assert YearStart(YearOf(t)) <= t < YearStart(YearOf(t)) + 7;
    DayBeforeWeek(w, YearStart(YearOf(t)));
  }

  lemma DayBeforeWeek(w: int, s: Day)
    requires 7 * w - 7 < s <= 7 * w
    ensures WeekIndex(s - 4) == w - 1
  {
  }

  /** The week before week `w`: the same year's previous week, or the last week
      of the previous week-numbering year when `w` is week 1. */
  lemma WeekBefore(w: int)
    ensures NumberOfWeek(w) > 1 ==> YearOfWeek(w - 1) == YearOfWeek(w) && NumberOfWeek(w - 1) == NumberOfWeek(w) - 1
    ensures NumberOfWeek(w) == 1 ==> YearOfWeek(w - 1) == YearOfWeek(w) - 1 && NumberOfWeek(w - 1) == WeeksInYear(YearOfWeek(w) - 1)
  {
    if NumberOfWeek(w) > 1 {
      WeekBeforeSameYear(w);
    } else {
      WeekBeforeNewYear(w);
    }
  }

  /** `date.minus({ weeks: 1 })` lands in the previous week. */
  lemma PreviousWeek(d: Day)
    ensures WeekIndex(d - 7) == WeekIndex(d) - 1
    ensures WeekNumber(d) > 1 ==> WeekYear(d - 7) == WeekYear(d) && WeekNumber(d - 7) == WeekNumber(d) - 1
    ensures WeekNumber(d) == 1 ==> WeekYear(d - 7) == WeekYear(d) - 1 && WeekNumber(d - 7) == WeeksInYear(WeekYear(d) - 1)
  {
    var w := WeekIndex(d);
    assert WeekIndex(d - 7) == w - 1;
    WeekBefore(w);
    assert WeekYear(d - 7) == YearOfWeek(w - 1) && WeekNumber(d - 7) == NumberOfWeek(w - 1);
    assert WeekYear(d) == YearOfWeek(w) && WeekNumber(d) == NumberOfWeek(w);
  }

  /** A character of a week key. */
  predicate IsKeyChar(c: char) {
    IsDigit(c) || c == '-' || c == 'W'
  }

  lemma FormatKeyIsPlain(year: int, week: nat)
    ensures forall k :: 0 <= k < |FormatKey(year, week)| ==> IsKeyChar(FormatKey(year, week)[k])
  {
    var ys := IntToString(year);
    var ns := NatToString(week);
    var ws := PadStart2(ns);
    IntToStringChars(year);
    NatToStringDigits(week);
    PadStart2Zeros(ns);
    assert AllDigits(ws) by {
      forall k | 0 <= k < |ws| ensures IsDigit(ws[k]) {
        if k < |ws| - |ns| { assert ws[k] == '0'; } else { assert ws[k] == ns[k - (|ws| - |ns|)]; }
      }
    }
    KeyCharsConcat(ys, "-W", ws);
  }

  lemma KeyCharsConcat(a: string, b: string, c: string)
    requires forall k :: 0 <= k < |a| ==> IsDigit(a[k]) || a[k] == '-'
    requires b == "-W" && AllDigits(c)
    ensures forall k :: 0 <= k < |a + b + c| ==> IsKeyChar((a + b + c)[k])
  {
  }

  /** The key has only digits, `-` and `W`: it is a plain file name and holds no line break. */
  lemma WeekKeyIsPlain(d: Day)
    ensures NoLineTerminator(WeekKey(d)) && '\n' !in WeekKey(d)
  {
    var w := WeekIndex(d);
    FormatKeyIsPlain(YearOfWeek(w), NumberOfWeek(w));
    assert forall k :: 0 <= k < |WeekKey(d)| ==> IsKeyChar(WeekKey(d)[k]);
  }

  /** A key, given the text of its year and of its padded week number. */
  lemma KeyText(year: int, week: nat, ys: string, ws: string, key: string)
    requires IntToString(year) == ys && PadStart2(NatToString(week)) == ws
    requires ys + "-W" + ws == key
    ensures FormatKey(year, week) == key
  {
  }

  /** 1970-01-01, day 0, is in the first week of 1970. */
  lemma KeyOfEpoch()
    ensures WeekKey(0) == "1970-W01"
  {
    WeekOfEpoch();
    assert "1970" + "-W" + "01" == "1970-W01";
    KeyText(1970, 1, "1970", "01", "1970-W01");
  }

  lemma WeekOfEpoch()
    ensures WeekIndex(0) == 0 && YearOfWeek(0) == 1970 && NumberOfWeek(0) == 1
  {
    YearOfIs(0, 1970);
  }

  /** 1969-12-28, a Sunday, is in the 52nd and last week of 1969. */
  lemma KeyOfDecember28th1969()
    ensures WeekKey(-4) == "1969-W52"
  {
    WeekOfDecember28th1969();
    KeyOf1969W52();
  }

  lemma WeekOfDecember28th1969()
    ensures WeekIndex(-4) == -1 && YearOfWeek(-1) == 1969 && NumberOfWeek(-1) == 52
  {
    YearOfIs(-7, 1969);
  }

  lemma KeyOf1969W52()
    ensures FormatKey(1969, 52) == "1969-W52"
  {
    assert "1969" + "-W" + "52" == "1969-W52";
    KeyText(1969, 52, "1969", "52", "1969-W52");
  }

  /** 2021-01-03, a Sunday, is in the 53rd week of 2020. */
  lemma KeyOfJanuaryThird2021()
    ensures WeekKey(18630) == "2020-W53"
  {
    WeekOfJanuaryThird2021();
    KeyOf2020W53();
  }

  lemma WeekOfJanuaryThird2021()
    ensures WeekIndex(18630) == 2661 && YearOfWeek(2661) == 2020 && NumberOfWeek(2661) == 53
  {
    YearStartClosed(2020);
    YearStartClosed(2021);
    YearOfIs(18627, 2020);
  }

  lemma KeyOf2020W53()
    ensures FormatKey(2020, 53) == "2020-W53"
  {
    assert "2020" + "-W" + "53" == "2020-W53";
    KeyText(2020, 53, "2020", "53", "2020-W53");
  }
}
