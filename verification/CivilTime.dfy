/** The UTC times the test timings are recorded under: seconds since the epoch
    written as a civil date and time, by the arithmetic the source uses, against a
    calendar that goes day by day. */
module CivilTime {
  import opened Wrappers
  import opened Decimal

  datatype Date = Date(year: nat, month: nat, day: nat)

  // ---- The source's arithmetic ----

  function YearOfEra(doe: nat): nat
    requires doe < 146_097
  {
    (doe - doe / 1460 + doe / 36_524 - doe / 146_096) / 365
  }

  function DayOfYear(doe: nat): int
    requires doe < 146_097
  {
    var yoe := YearOfEra(doe);
    doe - (365 * yoe + yoe / 4 - yoe / 100)
  }

  /** The date `days` after 1970-01-01. */
  function Civil(days: nat): Date {
    var z := days + 719_468;
    var era := z / 146_097;
    var doe := z % 146_097;
    YearDayIs(doe);
    var yoe := YearOfEra(doe);
    var doy := DayOfYear(doe);
    FromMarch(yoe + era * 400, doy)
  }

  /** The date `doy` days after 1 March of `year`. */
  function FromMarch(year: nat, doy: nat): Date
    requires doy < 366
  {
    var mp := (5 * doy + 2) / 153;
    MonthIs(doy);
    var day := doy - (153 * mp + 2) / 5 + 1;
    var month := if mp < 10 then mp + 3 else mp - 9;
    Date(year + (if month <= 2 then 1 else 0), month, day)
  }

  function Utc(secs: nat): string {
    var days, rest := secs / 86_400, secs % 86_400;
    var d := Civil(days);
    Padded(d.year, 4) + "-" + Padded(d.month, 2) + "-" + Padded(d.day, 2) + "T"
    + Padded(rest / 3600, 2) + ":" + Padded(rest % 3600 / 60, 2) + ":" + Padded(rest % 60, 2) + "+00:00"
  }

  // ---- The calendar, day by day ----

  predicate IsLeap(year: nat) {
    year % 4 == 0 && (year % 100 != 0 || year % 400 == 0)
  }

  function MonthLength(year: nat, month: nat): nat {
    if month == 2 then (if IsLeap(year) then 29 else 28)
    else if month == 4 || month == 6 || month == 9 || month == 11 then 30
    else 31
  }

  predicate Valid(d: Date) {
    1 <= d.month <= 12 && 1 <= d.day <= MonthLength(d.year, d.month)
  }

  function NextDay(d: Date): Date {
    if d.day < MonthLength(d.year, d.month) then d.(day := d.day + 1)
    else if d.month < 12 then Date(d.year, d.month + 1, 1)
    else Date(d.year + 1, 1, 1)
  }

  const EPOCH := Date(1970, 1, 1)

  function Calendar(days: nat): Date {
    if days == 0 then EPOCH else NextDay(Calendar(days - 1))
  }

  // ---- Years within an era of 400, each from March ----

  /** The days before year `y` of an era. */
  function YearStart(y: nat): nat {
    365 * y + y / 4 - y / 100 + y / 400
  }

  lemma Divide4(n: nat, q: int, r: int)
    requires n == 4 * q + r && 0 <= r < 4
    ensures n / 4 == q && n % 4 == r
  {
  }

  lemma Divide100(n: nat, q: int, r: int)
    requires n == 100 * q + r && 0 <= r < 100
    ensures n / 100 == q && n % 100 == r
  {
  }

  lemma Divide400(n: nat, q: int, r: int)
    requires n == 400 * q + r && 0 <= r < 400
    ensures n / 400 == q && n % 400 == r
  {
  }

  lemma Divide146097(n: nat, q: int, r: int)
    requires n == 146_097 * q + r && 0 <= r < 146_097
    ensures n / 146_097 == q && n % 146_097 == r
  {
  }

  /** One year on, each quotient grows by one at its multiples. */
  lemma Quotients(y: nat)
    ensures (y + 1) / 4 == y / 4 + if (y + 1) % 4 == 0 then 1 else 0
    ensures (y + 1) / 100 == y / 100 + if (y + 1) % 100 == 0 then 1 else 0
    ensures (y + 1) / 400 == y / 400 + if (y + 1) % 400 == 0 then 1 else 0
  {
    var q, r := y / 4, y % 4;
    if r < 3 { Divide4(y + 1, q, r + 1); } else { Divide4(y + 1, q + 1, 0); }
    var s, t := y / 100, y % 100;
    if t < 99 { Divide100(y + 1, s, t + 1); } else { Divide100(y + 1, s + 1, 0); }
    var u, v := y / 400, y % 400;
    if v < 399 { Divide400(y + 1, u, v + 1); } else { Divide400(y + 1, u + 1, 0); }
  }

  lemma Multiples(y: nat)
    ensures y % 400 == 0 ==> y % 100 == 0
    ensures y % 100 == 0 ==> y % 4 == 0
  {
    if y % 400 == 0 { Divide100(y, 4 * (y / 400), 0); }
    if y % 100 == 0 { Divide4(y, 25 * (y / 100), 0); }
  }

  /** A year from March has a day more when it ends in a leap February. */
  lemma YearLength(y: nat)
    ensures YearStart(y + 1) == YearStart(y) + if IsLeap(y + 1) then 366 else 365
  {
    Quotients(y);
    Multiples(y + 1);
  }

  /** Cutting a day of the era into centuries, fours and years by their days. */
  lemma Cut(doe: nat) returns (a: nat, b: nat, r: nat, d: nat)
    requires doe < 146_097
    ensures a <= 3 && b <= 24 && r <= 3 && d <= 365
    ensures doe == 36_524 * a + 1461 * b + 365 * r + d
    ensures d == 365 ==> r == 3 && (b == 24 ==> a == 3)
  {
    a := if doe / 36_524 < 4 then doe / 36_524 else 3;
    var inCentury := doe - 36_524 * a;
    b := inCentury / 1461;
    var inFour := inCentury - 1461 * b;
    r := if inFour / 365 < 4 then inFour / 365 else 3;
    d := inFour - 365 * r;
  }

  lemma FormulaIs(a: nat, b: nat, r: nat, d: nat)
    requires a <= 3 && b <= 24 && r <= 3 && d <= 365
    requires d == 365 ==> r == 3 && (b == 24 ==> a == 3)
    ensures var doe := 36_524 * a + 1461 * b + 365 * r + d;
            doe < 146_097 && YearOfEra(doe) == 100 * a + 4 * b + r && DayOfYear(doe) == d
  {
    var doe := 36_524 * a + 1461 * b + 365 * r + d;
    var rest := 24 * a + b + 365 * r + d;
    var x := if rest >= 1460 then 1 else 0;
    hide YearOfEra, DayOfYear;
    Divide1460(doe, 25 * a + b + x, rest - 1460 * x);
    CenturyIs(a, 1461 * b + 365 * r + d);
    YearFrom(doe, 25 * a + b + x, a, 100 * a + 4 * b + r, d - x);
    DayFrom(doe, 100 * a + 4 * b + r, 25 * a + b, a, r, 4 * b + r);
  }

  lemma YearFrom(doe: nat, leaps: nat, centuries: nat, y: nat, e: int)
    requires doe < 146_097 && doe / 1460 == leaps && doe / 36_524 - doe / 146_096 == centuries
    requires doe - leaps + centuries == 365 * y + e && 0 <= e < 365
    ensures YearOfEra(doe) == y
  {
    Divide365(doe - leaps + centuries, y, e);
  }

  lemma DayFrom(doe: nat, y: nat, q: nat, c: nat, r: nat, t: nat)
    requires doe < 146_097 && YearOfEra(doe) == y
    requires y == 4 * q + r == 100 * c + t && r < 4 && t < 100
    ensures DayOfYear(doe) == doe - (365 * y + q - c)
  {
    hide YearOfEra;
    Divide4(y, q, r);
    Divide100(y, c, t);
  }

  lemma Divide1460(n: nat, q: int, r: int)
    requires n == 1460 * q + r && 0 <= r < 1460
    ensures n / 1460 == q
  {
  }

  lemma Divide365(n: nat, q: int, r: int)
    requires n == 365 * q + r && 0 <= r < 365
    ensures n / 365 == q
  {
  }

  /** Whole centuries of days, the day over at the end of the era apart. */
  lemma CenturyIs(a: nat, rest: nat)
    requires a <= 3 && rest <= 36_524 && (rest == 36_524 ==> a == 3)
    ensures (36_524 * a + rest) / 36_524 - (36_524 * a + rest) / 146_096 == a
  {
  }

  /** The formula finds the year of the era, and the day of it from March. */
  lemma YearDayIs(doe: nat)
    requires doe < 146_097
    ensures var y, d := YearOfEra(doe), DayOfYear(doe);
            && y <= 399 && 0 <= d < 366 && doe == YearStart(y) + d && (d == 365 ==> IsLeap(y + 1))
  {
    var a, b, r, d := Cut(doe);
    FormulaIs(a, b, r, d);
    hide YearOfEra, DayOfYear;
    var y := 100 * a + 4 * b + r;
    Divide4(y, 25 * a + b, r);
    Divide100(y, a, 4 * b + r);
    Divide400(y, 0, y);
    if d == 365 {
      Divide4(y + 1, 25 * a + b + 1, 0);
      if b < 24 { Divide100(y + 1, a, 4 * b + 4); } else { Divide400(y + 1, 1, 0); }
    }
  }

  /** No other year of the era and day of that year would do. */
  lemma YearDayOnly(doe: nat, y: nat, d: nat)
    requires doe < 146_097 && doe == YearStart(y) + d && YearStart(y) + d < YearStart(y + 1)
    ensures YearOfEra(doe) == y && DayOfYear(doe) == d
  {
    YearDayIs(doe);
    var z := YearOfEra(doe);
    YearLength(z);
    StartsRise(z + 1, y);
    StartsRise(y + 1, z);
  }

  lemma StartsRise(y: nat, z: nat)
    ensures y <= z ==> YearStart(y) <= YearStart(z)
  {
  }

  // ---- Months from March ----

  lemma MonthIs(doy: nat)
    requires doy < 366
    ensures var mp := (5 * doy + 2) / 153;
            mp <= 11 && (153 * mp + 2) / 5 <= doy < (153 * (mp + 1) + 2) / 5
  {
  }

  lemma FromMarchValid(year: nat, doy: nat)
    requires doy < 366 && (doy == 365 ==> IsLeap(year + 1))
    ensures Valid(FromMarch(year, doy))
  {
    MonthIs(doy);
  }

  /** A day later within the year from March. */
  lemma NextInYear(year: nat, doy: nat)
    requires doy + 1 < 366 && (doy + 1 == 365 ==> IsLeap(year + 1))
    ensures FromMarch(year, doy + 1) == NextDay(FromMarch(year, doy))
  {
    MonthIs(doy);
    MonthIs(doy + 1);
  }

  /** The last day of February, and 1 March after it. */
  lemma NextYear(year: nat)
    ensures FromMarch(year + 1, 0) == NextDay(FromMarch(year, if IsLeap(year + 1) then 365 else 364))
  {
  }

  // ---- The date of every day ----

  lemma EraYears(era: nat, y: nat)
    ensures IsLeap(y + era * 400) == IsLeap(y)
  {
    Divide400(y + era * 400, y / 400 + era, y % 400);
    Divide100(y + era * 400, y / 100 + 4 * era, y % 100);
    Divide4(y + era * 400, y / 4 + 100 * era, y % 4);
  }

  lemma CivilIs(days: nat, era: nat, y: nat, d: nat)
    requires days + 719_468 == 146_097 * era + YearStart(y) + d
    requires y <= 399 && YearStart(y) + d < YearStart(y + 1)
    ensures d < 366 && Civil(days) == FromMarch(y + era * 400, d)
  {
    YearLength(y);
    StartsRise(y + 1, 400);
    assert YearStart(400) == 146_097;
    Divide146097(days + 719_468, era, YearStart(y) + d);
    hide YearStart, FromMarch, YearOfEra, DayOfYear;
    YearDayOnly(YearStart(y) + d, y, d);
  }

  /** Where a day lies: its era, the year of it from March, the day of that. */
  lemma Position(days: nat) returns (era: nat, y: nat, d: nat)
    ensures days + 719_468 == 146_097 * era + YearStart(y) + d
    ensures y <= 399 && d < YearStart(y + 1) - YearStart(y) && d < 366 && (d == 365 ==> IsLeap(y + 1))
    ensures Civil(days) == FromMarch(y + era * 400, d)
  {
    hide YearStart, FromMarch, YearOfEra, IsLeap, DayOfYear;
    var z := days + 719_468;
    era := z / 146_097;
    var doe := z % 146_097;
    YearDayIs(doe);
    y, d := YearOfEra(doe), DayOfYear(doe);
    StartOf(doe, y, d);
  }

  lemma CivilSteps(days: nat)
    ensures Civil(days + 1) == NextDay(Civil(days)) && Valid(Civil(days))
  {
    hide YearStart, FromMarch, YearOfEra, DayOfYear, Civil, NextDay, IsLeap, Valid;
    var era, y, d := Position(days);
    EraYears(era, y + 1);
    YearLength(y);
    FromMarchValid(y + era * 400, d);
    Starts();
    if d + 1 < YearStart(y + 1) - YearStart(y) {
      CivilIs(days + 1, era, y, d + 1);
      NextInYear(y + era * 400, d);
    } else {
      NextYear(y + era * 400);
      if y < 399 {
        YearLength(y + 1);
        CivilIs(days + 1, era, y + 1, 0);
      } else {
        CivilIs(days + 1, era + 1, 0, 0);
      }
    }
  }

  lemma Starts()
    ensures YearStart(400) == 146_097 && YearStart(0) == 0 && YearStart(1) == 365
  {
  }

  lemma StartOf(doe: nat, y: nat, d: nat)
    requires doe < 146_097 && d < 366 && (d == 365 ==> IsLeap(y + 1))
    ensures d < YearStart(y + 1) - YearStart(y)
  {
    YearLength(y);
  }

  /** The arithmetic is the calendar: for every count of days, the date that many
      days after 1970-01-01, counted one at a time. */
  lemma {:induction false} CivilIsCalendar(days: nat)
    ensures Civil(days) == Calendar(days) && Valid(Civil(days)) && Civil(days).year >= 1970
  {
    hide Civil, Valid;
    CivilSteps(days);
    if days == 0 {
      FirstDay();
    } else {
      CivilIsCalendar(days - 1);
      CivilSteps(days - 1);
    }
  }

  /** 719,468 days before it, from 1 March of the year 0: four eras, 369 years and
      306 days, of years from March. */
  lemma FirstDay()
    ensures Civil(0) == EPOCH
  {
    assert 719_468 == 146_097 * 4 + YearStart(369) + 306;
    assert YearStart(370) == YearStart(369) + 365;
    CivilIs(0, 4, 369, 306);
    hide Civil;
  }

  // ---- Counting back ----

  function DaysBeforeMonth(year: nat, month: nat): nat {
    if month <= 1 then 0 else DaysBeforeMonth(year, month - 1) + MonthLength(year, month - 1)
  }

  function DaysBeforeYear(year: nat): nat {
    if year <= 1970 then 0 else DaysBeforeYear(year - 1) + DaysBeforeMonth(year - 1, 13)
  }

  /** The days from 1970-01-01 to a date, month by month and year by year. */
  function DayNumber(d: Date): nat {
    DaysBeforeYear(d.year) + DaysBeforeMonth(d.year, d.month) + (if d.day > 0 then d.day - 1 else 0)
  }

  lemma DayNumberOfNext(d: Date)
    requires Valid(d) && d.year >= 1970
    ensures DayNumber(NextDay(d)) == DayNumber(d) + 1
  {
    if d.month == 12 && d.day == 31 {
      assert DaysBeforeMonth(d.year, 13) == DaysBeforeMonth(d.year, 12) + 31;
    }
    hide IsLeap;
  }

  /** The date of every day counts back to that day. */
  lemma {:induction false} DayNumberOfCivil(days: nat)
    ensures DayNumber(Civil(days)) == days
  {
    hide Civil, NextDay, Valid;
    CivilIsCalendar(days);
    if days > 0 {
      DayNumberOfCivil(days - 1);
      CivilIsCalendar(days - 1);
      hide DayNumber;
      DayNumberOfNext(Civil(days - 1));
    } else {
      assert DayNumber(EPOCH) == 0;
    }
  }

  // ---- The text ----

  /** The month, day, hour, minute and second of a time, as written after its
      year: the date and time fields of section 5.6 of RFC 3339, at offset zero. */
  function ReadTail(t: string): Option<seq<nat>>
    requires |t| == 21
  {
    if AllDigits(t[1..3]) && AllDigits(t[4..6]) && AllDigits(t[7..9]) && AllDigits(t[10..12]) && AllDigits(t[13..15])
       && t[0] == '-' && t[3] == '-' && t[6] == 'T' && t[9] == ':' && t[12] == ':' && t[15..] == "+00:00"
    then Some([Value(t[1..3]), Value(t[4..6]), Value(t[7..9]), Value(t[10..12]), Value(t[13..15])])
    else None
  }

  function Seconds(date: Date, hour: nat, minute: nat, second: nat): nat {
    DayNumber(date) * 86_400 + hour * 3600 + minute * 60 + second
  }

  /** Reads a time written as `Utc` writes it. */
  function ReadUtc(text: string): Option<nat> {
    var n := |text|;
    if n < 22 || !AllDigits(text[..n - 21]) then None
    else
      match ReadTail(text[n - 21..])
      case None => None
      case Some(f) => if |f| == 5 then Some(Seconds(Date(Value(text[..n - 21]), f[0], f[1]), f[2], f[3], f[4])) else None
  }

  /** Reads a date and time as section 5.6 of RFC 3339 has it, at offset zero: a
      year of four digits, and each field in its range. */
  function ReadRfc3339(text: string): Option<nat> {
    if |text| != 25 || !AllDigits(text[..4]) then None
    else
      match ReadTail(text[4..])
      case None => None
      case Some(f) =>
        if |f| == 5 && Valid(Date(Value(text[..4]), f[0], f[1])) && f[2] <= 23 && f[3] <= 59 && f[4] <= 60
        then Some(Seconds(Date(Value(text[..4]), f[0], f[1]), f[2], f[3], f[4]))
        else None
  }

  function Joined(y: string, mo: string, d: string, h: string, mi: string, s: string): string {
    y + "-" + mo + "-" + d + "T" + h + ":" + mi + ":" + s + "+00:00"
  }

  function Tail(mo: string, d: string, h: string, mi: string, s: string): string {
    "-" + mo + "-" + d + "T" + h + ":" + mi + ":" + s + "+00:00"
  }

  lemma TailReads(mo: string, d: string, h: string, mi: string, s: string)
    requires |mo| == |d| == |h| == |mi| == |s| == 2
    ensures var t := Tail(mo, d, h, mi, s);
            && |t| == 21 && t[1..3] == mo && t[4..6] == d && t[7..9] == h && t[10..12] == mi && t[13..15] == s
            && t[0] == '-' && t[3] == '-' && t[6] == 'T' && t[9] == ':' && t[12] == ':' && t[15..] == "+00:00"
  {
    var t := Tail(mo, d, h, mi, s);
    assert t == ['-', mo[0], mo[1], '-', d[0], d[1], 'T', h[0], h[1], ':', mi[0], mi[1], ':', s[0], s[1]] + "+00:00";
    hide Tail;
  }

  lemma JoinedIs(y: string, mo: string, d: string, h: string, mi: string, s: string)
    ensures Joined(y, mo, d, h, mi, s) == y + Tail(mo, d, h, mi, s)
  {
  }

  lemma TailRead(mo: string, d: string, h: string, mi: string, s: string)
    requires |mo| == |d| == |h| == |mi| == |s| == 2
    requires AllDigits(mo) && AllDigits(d) && AllDigits(h) && AllDigits(mi) && AllDigits(s)
    ensures |Tail(mo, d, h, mi, s)| == 21
    ensures ReadTail(Tail(mo, d, h, mi, s)) == Some([Value(mo), Value(d), Value(h), Value(mi), Value(s)])
  {
    TailReads(mo, d, h, mi, s);
    hide Tail, AllDigits, Value;
  }

  lemma JoinedReads(y: string, mo: string, d: string, h: string, mi: string, s: string)
    requires |mo| == |d| == |h| == |mi| == |s| == 2 && |y| > 0
    requires AllDigits(y) && AllDigits(mo) && AllDigits(d) && AllDigits(h) && AllDigits(mi) && AllDigits(s)
    ensures ReadUtc(Joined(y, mo, d, h, mi, s)) ==
            Some(Seconds(Date(Value(y), Value(mo), Value(d)), Value(h), Value(mi), Value(s)))
    ensures |Joined(y, mo, d, h, mi, s)| == |y| + 21
  {
    hide AllDigits, Value, Seconds, Tail, Joined, ReadTail;
    JoinedIs(y, mo, d, h, mi, s);
    TailRead(mo, d, h, mi, s);
    var text, tail := Joined(y, mo, d, h, mi, s), Tail(mo, d, h, mi, s);
    assert text[..|y|] == y && text[|y|..] == tail;
  }

  lemma Sexagesimal(secs: nat)
    ensures var rest := secs % 86_400;
            && rest / 3600 < 24 && rest % 3600 / 60 < 60 && rest % 60 < 60
            && secs == secs / 86_400 * 86_400 + rest / 3600 * 3600 + rest % 3600 / 60 * 60 + rest % 60
  {
    var rest := secs % 86_400;
    var q, r := rest / 3600, rest % 3600;
    var m, t := r / 60, r % 60;
    assert rest == 60 * (60 * q + m) + t;
    SixtyIs(rest, 60 * q + m, t);
  }

  lemma SixtyIs(n: nat, q: int, r: int)
    requires n == 60 * q + r && 0 <= r < 60
    ensures n % 60 == r
  {
  }

  /** Every time is read back exactly, so no two are written alike. The text has
      at least four digits of year, and is as long as they make it. */
  lemma UtcReadsBack(secs: nat)
    ensures ReadUtc(Utc(secs)) == Some(secs)
    ensures |Utc(secs)| == |Padded(Civil(secs / 86_400).year, 4)| + 21 >= 25
  {
    hide Civil, DayNumber, Valid, Padded, ReadUtc, Value, AllDigits;
    var d := FieldsAre(secs);
    var rest := secs % 86_400;
    JoinedReads(Padded(d.year, 4), Padded(d.month, 2), Padded(d.day, 2), Padded(rest / 3600, 2),
                Padded(rest % 3600 / 60, 2), Padded(rest % 60, 2));
  }

  /** What each field of the text says. */
  lemma FieldsAre(secs: nat) returns (d: Date)
    ensures d == Civil(secs / 86_400) && Valid(d) && Value(Padded(d.year, 4)) == d.year
    ensures var rest := secs % 86_400;
            && |Padded(d.month, 2)| == 2 && Value(Padded(d.month, 2)) == d.month
            && |Padded(d.day, 2)| == 2 && Value(Padded(d.day, 2)) == d.day
            && rest / 3600 < 24 && rest % 3600 / 60 < 60 && rest % 60 < 60
            && |Padded(rest / 3600, 2)| == 2 && Value(Padded(rest / 3600, 2)) == rest / 3600
            && |Padded(rest % 3600 / 60, 2)| == 2 && Value(Padded(rest % 3600 / 60, 2)) == rest % 3600 / 60
            && |Padded(rest % 60, 2)| == 2 && Value(Padded(rest % 60, 2)) == rest % 60
            && Seconds(Date(d.year, d.month, d.day), rest / 3600, rest % 3600 / 60, rest % 60) == secs
            && Utc(secs) == Joined(Padded(d.year, 4), Padded(d.month, 2), Padded(d.day, 2), Padded(rest / 3600, 2),
                                   Padded(rest % 3600 / 60, 2), Padded(rest % 60, 2))
  {
    hide Civil, DayNumber, Valid, Padded, Value, AllDigits;
    var days, rest := secs / 86_400, secs % 86_400;
    d := Civil(days);
    DayNumberOfCivil(days);
    CivilIsCalendar(days);
    DateSmall(d);
    Sexagesimal(secs);
    ValueOfPadded(d.year, 4);
    TwoDigitsRead(d.month);
    TwoDigitsRead(d.day);
    TwoDigitsRead(rest / 3600);
    TwoDigitsRead(rest % 3600 / 60);
    TwoDigitsRead(rest % 60);
    assert Date(d.year, d.month, d.day) == d;
  }

  /** The first second of the year 10000. */
  const YEAR_10000 := 253_402_300_800

  /** The text is a date and time of section 5.6 of RFC 3339, every field in its
      range, and says the very second, exactly until the year 9999 is over; from
      then on its year is too long. */
  lemma Rfc3339Exactly(secs: nat)
    ensures ReadRfc3339(Utc(secs)) == if secs < YEAR_10000 then Some(secs) else None
    ensures |Utc(secs)| == 25 <==> secs < YEAR_10000
  {
    hide Civil, DayNumber, Valid, Padded, Value, AllDigits, Seconds, ReadTail, Joined, Utc;
    var d := FieldsAre(secs);
    var rest := secs % 86_400;
    var y, mo, da := Padded(d.year, 4), Padded(d.month, 2), Padded(d.day, 2);
    var h, mi, se := Padded(rest / 3600, 2), Padded(rest % 3600 / 60, 2), Padded(rest % 60, 2);
    YearIsShort(secs / 86_400);
    DaysUpTo(secs);
    FourDigits(d.year);
    JoinedReads(y, mo, da, h, mi, se);
    hide ReadUtc;
    if secs < YEAR_10000 {
      JoinedIs(y, mo, da, h, mi, se);
      TailRead(mo, da, h, mi, se);
      hide Tail;
      var text := Utc(secs);
      assert text[..4] == y && text[4..] == Tail(mo, da, h, mi, se);
    }
  }

  lemma DaysUpTo(secs: nat)
    ensures secs < YEAR_10000 <==> secs / 86_400 < 2_932_897
  {
  }

  /** The last day with a year of four digits. */
  lemma YearIsShort(days: nat)
    ensures Civil(days).year < 10_000 <==> days < 2_932_897
  {
    hide Civil;
    assert 2_932_897 + 719_468 == 146_097 * 24 + YearStart(399) + 306;
    assert YearStart(400) == YearStart(399) + 366;
    CivilIs(2_932_897, 24, 399, 306);
    assert FromMarch(9999, 306) == Date(10_000, 1, 1);
    hide YearStart, FromMarch;
    if days < 2_932_897 {
      CivilSteps(2_932_896);
      YearsRise(days, 2_932_896);
    } else {
      YearsRise(2_932_897, days);
    }
  }

  lemma {:induction false} YearsRise(a: nat, b: nat)
    requires a <= b
    ensures Civil(a).year <= Civil(b).year
    decreases b
  {
    hide Civil;
    if a < b {
      CivilSteps(b - 1);
      YearsRise(a, b - 1);
    }
  }

  lemma DateSmall(d: Date)
    requires Valid(d)
    ensures d.month < 100 && d.day < 100
  {
  }

  lemma TwoDigitsRead(n: nat)
    requires n < 100
    ensures |Padded(n, 2)| == 2 && Value(Padded(n, 2)) == n
  {
    TwoDigits(n);
    ValueOfPadded(n, 2);
  }
}
