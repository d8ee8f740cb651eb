/** The build stamp's date: civil-from-days over the proleptic Gregorian calendar. */
module Calendar {
  import opened Arith

  datatype Date = Date(year: int, month: int, day: int)

  datatype Stamp = Stamp(date: Date, hour: int, minute: int)

  // ---------- the calendar ----------

  predicate Leap(year: int) {
    year % 4 == 0 && (year % 100 != 0 || year % 400 == 0)
  }

  function DaysIn(year: int, month: int): int {
    if month == 2 then (if Leap(year) then 29 else 28)
    else if month in {4, 6, 9, 11} then 30
    else 31
  }

  predicate Valid(date: Date) {
    1 <= date.month <= 12 && 1 <= date.day <= DaysIn(date.year, date.month)
  }

  /** The day after. */
  function Next(date: Date): Date {
    if date.day < DaysIn(date.year, date.month) then date.(day := date.day + 1)
    else if date.month < 12 then Date(date.year, date.month + 1, 1)
    else Date(date.year + 1, 1, 1)
  }

  // ---------- what the program computes ----------

  const ERA := 146_097

  function YearOfEra(doe: nat): nat {
    (doe - doe / 1460 + doe / 36_524 - doe / 146_096) / 365
  }

  /** Days of an era's years before this one; years begin in March. */
  function YearStart(yoe: nat): nat {
    365 * yoe + yoe / 4 - yoe / 100
  }

  function FromMarch(year: int, doy: int): Date {
    var mp := (5 * doy + 2) / 153;
    var d := doy - (153 * mp + 2) / 5 + 1;
    var m := if mp < 10 then mp + 3 else mp - 9;
    Date(if m <= 2 then year + 1 else year, m, d)
  }

  /** The date of a day counted from 1970-01-01. */
  function Civil(days: int): Date {
    var z := days + 719_468;
    var era, doe := z / ERA, z % ERA;
    var yoe := YearOfEra(doe);
    FromMarch(yoe + era * 400, doe - YearStart(yoe))
  }

  function IsoMinuteUtc(epoch: int): Stamp {
    var secs := epoch % 86_400;
    Stamp(Civil(epoch / 86_400), secs / 3600, secs % 3600 / 60)
  }

  // ---------- the year of a day ----------

  function YearLength(yoe: nat): nat {
    if yoe % 4 == 3 && (yoe % 100 != 99 || yoe == 399) then 366 else 365
  }

  /** Day `doy` of year `yoe`, split into centuries, leap cycles and years. */
  predicate Split(yoe: nat, h: nat, k: nat, j: nat) {
    h < 4 && k < 25 && j < 4 && yoe == 100 * h + 4 * k + j
  }

  lemma SplitYear(yoe: nat) returns (h: nat, k: nat, j: nat)
    requires yoe < 400
    ensures Split(yoe, h, k, j)
  {
    h, k, j := yoe / 100, yoe % 100 / 4, yoe % 4;
  }

  lemma StartOfSplit(yoe: nat, h: nat, k: nat, j: nat)
    requires Split(yoe, h, k, j)
    ensures YearStart(yoe) == 36_524 * h + 1461 * k + 365 * j
    ensures YearLength(yoe) == if j == 3 && (k < 24 || h == 3) then 366 else 365
  {
    Quotient(yoe, 4, 25 * h + k, j);
    Quotient(yoe, 100, h, 4 * k + j);
  }

  lemma YearParts(yoe: nat, doy: nat, doe: nat) returns (h: nat, k: nat, j: nat)
    requires yoe < 400 && doy < YearLength(yoe) && doe == YearStart(yoe) + doy
    ensures Split(yoe, h, k, j) && doe == 36_524 * h + 1461 * k + 365 * j + doy
    ensures doy < if j == 3 && (k < 24 || h == 3) then 366 else 365
  {
    h, k, j := SplitYear(yoe);
    StartOfSplit(yoe, h, k, j);
  }

  lemma Centuries(h: nat, k: nat, j: nat, doy: nat, doe: nat)
    requires h < 4 && k < 25 && j < 4 && doy < if j == 3 && (k < 24 || h == 3) then 366 else 365
    requires doe == 36_524 * h + 1461 * k + 365 * j + doy
    ensures doe / 36_524 - doe / 146_096 == h && doe < ERA
  {
    var r := 1461 * k + 365 * j + doy;
    if r < 36_524 {
      Quotient(doe, 36_524, h, r);
      Quotient(doe, 146_096, 0, doe);
    } else {
      assert doe == 146_096;
    }
  }

  lemma Cycles(h: nat, k: nat, j: nat, doy: nat, doe: nat) returns (e: nat)
    requires h < 4 && k < 25 && j < 4 && doy < 366 && doe == 36_524 * h + 1461 * k + 365 * j + doy
    requires doy == 365 ==> j == 3
    ensures doe / 1460 == 25 * h + k + e && e <= doy < e + 365
  {
    var r := 24 * h + k + 365 * j + doy;
    e := if r < 1460 then 0 else 1;
    Quotient(doe, 1460, 25 * h + k + e, r - 1460 * e);
  }

  lemma Parts(yoe: nat, h: nat, k: nat, j: nat, doy: nat, doe: nat, e: nat, a: int, b: int, c: int)
    requires Split(yoe, h, k, j) && doe == 36_524 * h + 1461 * k + 365 * j + doy
    requires a == 25 * h + k + e && b - c == h
    ensures doe - a + b - c == 365 * yoe + doy - e
  {
  }

  lemma SplitFound(yoe: nat, h: nat, k: nat, j: nat, doy: nat, doe: nat)
    requires Split(yoe, h, k, j) && doy < if j == 3 && (k < 24 || h == 3) then 366 else 365
    requires doe == 36_524 * h + 1461 * k + 365 * j + doy
    ensures YearOfEra(doe) == yoe && doe < ERA
  {
    Centuries(h, k, j, doy, doe);
    var e := Cycles(h, k, j, doy, doe);
    Parts(yoe, h, k, j, doy, doe, e, doe / 1460, doe / 36_524, doe / 146_096);
    FromParts(doe, doe / 1460, doe / 36_524, doe / 146_096, yoe, doy - e);
  }

  /** The program's formula finds the year of every day. */
  lemma YearFound(yoe: nat, doy: nat, doe: nat)
    requires yoe < 400 && doy < YearLength(yoe) && doe == YearStart(yoe) + doy
    ensures YearOfEra(doe) == yoe && doe < ERA
  {
    var h, k, j := YearParts(yoe, doy, doe);
    SplitFound(yoe, h, k, j, doy, doe);
  }

  lemma FromParts(doe: nat, a: nat, b: nat, c: nat, yoe: nat, r: nat)
    requires a == doe / 1460 && b == doe / 36_524 && c == doe / 146_096
    requires r < 365 && doe - a + b - c == 365 * yoe + r
    ensures YearOfEra(doe) == yoe
  {
    Quotient(doe - a + b - c, 365, yoe, r);
  }

  /** Every day of an era lies in one of its years. */
  lemma YearExists(doe: nat) returns (yoe: nat, doy: nat)
    requires doe < ERA
    ensures yoe < 400 && doy < YearLength(yoe) && doe == YearStart(yoe) + doy
  {
    var h := if doe < 146_096 then doe / 36_524 else 3;
    var r := doe - 36_524 * h;
    var k := if r < 36_524 then r / 1461 else 24;
    var s := r - 1461 * k;
    var j := if s < 1460 then s / 365 else 3;
    yoe, doy := 100 * h + 4 * k + j, s - 365 * j;
    StartOfSplit(yoe, h, k, j);
  }

  lemma CivilIs(days: int, era: int, doe: nat, yoe: nat)
    requires era == (days + 719_468) / ERA && doe == (days + 719_468) % ERA && yoe == YearOfEra(doe)
    ensures Civil(days) == FromMarch(yoe + era * 400, doe - YearStart(yoe))
  {
  }

  lemma CivilOfPlace(days: int, era: int, yoe: nat, doy: nat)
    requires yoe < 400 && doy < YearLength(yoe) && days + 719_468 == ERA * era + YearStart(yoe) + doy
    ensures Civil(days) == FromMarch(yoe + era * 400, doy)
  {
    var doe := YearStart(yoe) + doy;
    YearFound(yoe, doy, doe);
    Quotient(days + 719_468, ERA, era, doe);
    CivilIs(days, era, doe, yoe);
  }

  /** The year and day of the year a day falls in, uniquely. */
  lemma Place(days: int) returns (era: int, yoe: nat, doy: nat)
    ensures yoe < 400 && doy < YearLength(yoe) && days + 719_468 == ERA * era + YearStart(yoe) + doy
    ensures Civil(days) == FromMarch(yoe + era * 400, doy)
  {
    era := (days + 719_468) / ERA;
    yoe, doy := YearExists((days + 719_468) % ERA);
    CivilOfPlace(days, era, yoe, doy);
  }

  // ---------- the day of a year ----------

  /** The month, counted from March, a day of the year falls in. */
  function MonthOf(doy: int): int {
    (5 * doy + 2) / 153
  }

  /** Days of a year, from March, before a month. */
  function MonthStart(mp: int): int {
    (153 * mp + 2) / 5
  }

  lemma MonthFound(doy: nat) returns (mp: nat)
    requires doy < 366
    ensures mp == MonthOf(doy) < 12 && MonthStart(mp) <= doy && (mp < 11 ==> doy < MonthStart(mp + 1))
  {
    mp := MonthOf(doy);
  }

  lemma MonthLengths(year: int, mp: nat)
    requires mp < 11
    ensures var m := if mp < 10 then mp + 3 else mp - 9;
      MonthStart(mp + 1) - MonthStart(mp) == DaysIn(year, m)
  {
    if mp < 6 {
      if mp < 3 {
      }
    } else if mp < 9 {
    }
  }

  lemma LeapYears(era: int, yoe: nat)
    requires yoe < 400
    ensures YearLength(yoe) == if Leap(yoe + era * 400 + 1) then 366 else 365
  {
    var y, n := yoe + era * 400 + 1, yoe + 1;
    Quotient(y, 4, 100 * era + n / 4, n % 4);
    Quotient(y, 100, 4 * era + n / 100, n % 100);
    if n < 400 {
      Quotient(y, 400, era, n);
    } else {
      Quotient(y, 400, era + 1, 0);
    }
    LastYears(yoe, n);
  }

  lemma LastYears(yoe: nat, n: nat)
    requires n == yoe + 1 <= 400
    ensures (yoe % 4 == 3 <==> n % 4 == 0) && (yoe % 100 == 99 <==> n % 100 == 0)
  {
    Carry(yoe, 4);
    Carry(yoe, 100);
  }

  lemma Carry(n: nat, p: nat)
    requires p > 0
    ensures n % p == p - 1 <==> (n + 1) % p == 0
  {
    if n % p == p - 1 {
      Quotient(n + 1, p, n / p + 1, 0);
    } else {
      Quotient(n + 1, p, n / p, n % p + 1);
    }
  }

  /** Every day gets a date of the calendar. */
  lemma FromMarchValid(year: int, doy: nat)
    requires doy < if Leap(year + 1) then 366 else 365
    ensures Valid(FromMarch(year, doy))
  {
    var mp := MonthFound(doy);
    if mp < 11 {
      MonthLengths(if mp < 10 then year else year + 1, mp);
    }
  }

  /** A day's place in its month. */
  lemma FromMarchIs(year: int, doy: nat) returns (mp: nat, date: Date)
    requires doy < 366
    ensures mp == MonthOf(doy) < 12 && MonthStart(mp) <= doy && (mp < 11 ==> doy < MonthStart(mp + 1))
    ensures date == FromMarch(year, doy) && date.day == doy - MonthStart(mp) + 1
    ensures date.month == (if mp < 10 then mp + 3 else mp - 9) && date.year == (if mp < 10 then year else year + 1)
  {
    mp := MonthFound(doy);
    date := FromMarch(year, doy);
  }

  lemma MonthAfter(doy: nat, mp: nat, mp': nat)
    requires mp == MonthOf(doy) && mp' == MonthOf(doy + 1) && mp < 11 && doy + 1 < 366
    requires MonthStart(mp) <= doy < MonthStart(mp + 1)
    ensures mp' == if doy + 1 < MonthStart(mp + 1) then mp else mp + 1
  {
  }

  /** Within a year, the next day is the calendar's next. */
  lemma FromMarchNext(year: int, doy: nat)
    requires doy + 1 < if Leap(year + 1) then 366 else 365
    ensures FromMarch(year, doy + 1) == Next(FromMarch(year, doy))
  {
    var mp, date := FromMarchIs(year, doy);
    var mp', date' := FromMarchIs(year, doy + 1);
    if mp < 11 {
      MonthLengths(date.year, mp);
      MonthAfter(doy, mp, mp');
    }
  }

  lemma LastOfFebruary(year: int)
    ensures Next(FromMarch(year, if Leap(year + 1) then 365 else 364)) == FromMarch(year + 1, 0)
  {
  }

  // ---------- all days ----------

  /** Every integer day number gets a valid date. */
  lemma CivilValid(days: int)
    ensures Valid(Civil(days))
  {
    var era, yoe, doy := Place(days);
    LeapYears(era, yoe);
    FromMarchValid(yoe + era * 400, doy);
  }

  lemma NextYear(yoe: nat)
    requires yoe < 399
    ensures YearStart(yoe + 1) == YearStart(yoe) + YearLength(yoe)
  {
    var h, k, j := SplitYear(yoe);
    StartOfSplit(yoe, h, k, j);
    if j < 3 {
      StartOfSplit(yoe + 1, h, k, j + 1);
    } else if k < 24 {
      StartOfSplit(yoe + 1, h, k + 1, 0);
    } else {
      StartOfSplit(yoe + 1, h + 1, 0, 0);
    }
  }

  /** Where the next day falls. */
  lemma NextPlace(era: int, yoe: nat, doy: nat) returns (era': int, yoe': nat, doy': nat)
    requires yoe < 400 && doy < YearLength(yoe)
    ensures yoe' < 400 && doy' < YearLength(yoe')
    ensures ERA * era' + YearStart(yoe') + doy' == ERA * era + YearStart(yoe) + doy + 1
    ensures if doy + 1 < YearLength(yoe) then era' == era && yoe' == yoe && doy' == doy + 1
      else yoe' + era' * 400 == yoe + era * 400 + 1 && doy' == 0
  {
    if doy + 1 < YearLength(yoe) {
      era', yoe', doy' := era, yoe, doy + 1;
    } else if yoe < 399 {
      NextYear(yoe);
      era', yoe', doy' := era, yoe + 1, 0;
    } else {
      era', yoe', doy' := era + 1, 0, 0;
    }
  }

  lemma FromMarchStep(era: int, yoe: nat, doy: nat, era': int, yoe': nat, doy': nat)
    requires yoe < 400 && doy < YearLength(yoe)
    requires if doy + 1 < YearLength(yoe) then era' == era && yoe' == yoe && doy' == doy + 1
      else yoe' + era' * 400 == yoe + era * 400 + 1 && doy' == 0
    ensures FromMarch(yoe' + era' * 400, doy') == Next(FromMarch(yoe + era * 400, doy))
  {
    var year := yoe + era * 400;
    LeapYears(era, yoe);
    if doy + 1 < YearLength(yoe) {
      FromMarchNext(year, doy);
    } else {
      assert yoe' + era' * 400 == year + 1 && doy == if Leap(year + 1) then 365 else 364;
      LastOfFebruary(year);
    }
  }

  /** One day later is the calendar's next day, across months, years and eras. */
  lemma CivilNext(days: int)
    ensures Civil(days + 1) == Next(Civil(days))
  {
    var era, yoe, doy := Place(days);
    var era', yoe', doy' := NextPlace(era, yoe, doy);
    CivilOfPlace(days + 1, era', yoe', doy');
    FromMarchStep(era, yoe, doy, era', yoe', doy');
  }

  /** The day number of a date, counted the other way: whole years, then months, then days. */
  function DayNumber(date: Date): int {
    var year := if date.month <= 2 then date.year - 1 else date.year;
    var mp := if date.month <= 2 then date.month + 9 else date.month - 3;
    365 * year + year / 4 - year / 100 + year / 400 + MonthStart(mp) + date.day - 1 - 719_468
  }

  lemma DaysOfYears(era: int, yoe: nat)
    requires yoe < 400
    ensures var year := yoe + era * 400;
      365 * year + year / 4 - year / 100 + year / 400 == ERA * era + YearStart(yoe)
  {
    var year := yoe + era * 400;
    Quotient(year, 400, era, yoe);
    Quotient(year, 4, 100 * era + yoe / 4, yoe % 4);
    Quotient(year, 100, 4 * era + yoe / 100, yoe % 100);
  }

  lemma DayNumberFromMarch(year: int, doy: nat)
    requires doy < 366
    ensures DayNumber(FromMarch(year, doy)) == 365 * year + year / 4 - year / 100 + year / 400 + doy - 719_468
  {
    var mp := MonthFound(doy);
  }

  /** A date's day number is the day it was computed from. */
  lemma DayNumberOfCivil(days: int)
    ensures DayNumber(Civil(days)) == days
  {
    var era, yoe, doy := Place(days);
    DayNumberFromMarch(yoe + era * 400, doy);
    DaysOfYears(era, yoe);
  }

  /** Counted from the epoch, the dates are the calendar's days one after the other: this and
      `CivilNext` leave no other function. */
  lemma EpochDate()
    ensures Civil(0) == Date(1970, 1, 1)
  {
    CivilOfPlace(0, 4, 369, 306);
  }

  /** A day of seconds later the stamp has the next date and the same time. */
  lemma NextDayStamp(epoch: int)
    ensures var s, t := IsoMinuteUtc(epoch), IsoMinuteUtc(epoch + 86_400);
      t.date == Next(s.date) && t.hour == s.hour && t.minute == s.minute
    ensures Valid(IsoMinuteUtc(epoch).date) && 0 <= IsoMinuteUtc(epoch).hour < 24 && 0 <= IsoMinuteUtc(epoch).minute < 60
  {
    var days, secs := epoch / 86_400, epoch % 86_400;
    Quotient(epoch + 86_400, 86_400, days + 1, secs);
    StampIs(epoch, days, secs);
    StampIs(epoch + 86_400, days + 1, secs);
    CivilNext(days);
    CivilValid(days);
  }

  lemma StampIs(epoch: int, days: int, secs: nat)
    requires days == epoch / 86_400 && secs == epoch % 86_400
    ensures IsoMinuteUtc(epoch) == Stamp(Civil(days), secs / 3600, secs % 3600 / 60)
    ensures 0 <= secs / 3600 < 24 && 0 <= secs % 3600 / 60 < 60
  {
  }

  lemma MinutesOf(secs: nat)
    requires secs < 86_400
    ensures secs / 3600 * 3600 + secs % 3600 / 60 * 60 == secs - secs % 60
  {
    Quotient(secs, 60, secs / 3600 * 60 + secs % 3600 / 60, secs % 3600 % 60);
  }

  /** The stamp is the epoch to the minute. */
  lemma StampIsEpoch(epoch: int)
    ensures var s := IsoMinuteUtc(epoch);
      DayNumber(s.date) * 86_400 + s.hour * 3600 + s.minute * 60 == epoch - epoch % 60
  {
    var secs := epoch % 86_400;
    DayNumberOfCivil(epoch / 86_400);
    MinutesOf(secs);
    Quotient(epoch, 60, epoch / 86_400 * 1440 + secs / 60, secs % 60);
  }
}
