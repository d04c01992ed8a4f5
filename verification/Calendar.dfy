/** `civil_from_days` and `current_month` (gateway.rs), against the proleptic Gregorian calendar
    defined from scratch. Machine integers are newtypes, so every subtraction and every cast in
    the algorithm is shown not to wrap or truncate. */
module Calendar {
  import opened Text

  newtype i64 = x: int | -0x8000_0000_0000_0000 <= x < 0x8000_0000_0000_0000
  newtype u64 = x: int | 0 <= x < 0x1_0000_0000_0000_0000
  newtype u32 = x: int | 0 <= x < 0x1_0000_0000

  /** Largest day number whose shift by 719468 stays inside `i64`. */
  const MAX_DAY: int := 0x7FFF_FFFF_FFFF_FFFF - 719_468

  // ---- the algorithm -------------------------------------------------------------------

  /** Division of a signed machine integer truncates toward zero. */
  function TruncDiv(a: int, b: int): int
    requires b > 0
  {
    if a >= 0 then a / b else -(-a / b)
  }

  function Era(z: i64): (era: i64)
    requires z >= -0x8000_0000_0000_0000 + 146_096
    ensures era as int * 146_097 <= z as int < era as int * 146_097 + 146_097
  {
    TruncDiv((if z >= 0 then z else z - 146_096) as int, 146_097) as i64
  }

  function YearOfEra(doe: u64): (yoe: u64)
    requires doe < 146_097
    ensures yoe < 400
  {
    (doe - doe / 1460 + doe / 36_524 - doe / 146_096) / 365
  }

  function CivilFromDays(day: i64): (date: (i64, u32, u32))
    requires day as int <= MAX_DAY
  {
    var z := day + 719_468;
    var era := Era(z);
    var doe := (z - era * 146_097) as u64;
    var yoe := YearOfEra(doe);
    var y := yoe as i64 + era * 400;
    DayOfYear(doe as int);
    DateInYear(y, doe - (365 * yoe + yoe / 4 - yoe / 100))
  }

  /** The date of a day of the year that starts on 1 March. */
  function DateInYear(y: i64, doy: u64): (date: (i64, u32, u32))
    requires doy <= 365 && y < 0x7FFF_FFFF_FFFF_FFFF
  {
    var mp := (5 * doy + 2) / 153;
    var d := (doy - (153 * mp + 2) / 5 + 1) as u32;
    var m := (if mp < 10 then mp + 3 else mp - 9) as u32;
    (if m <= 2 then y + 1 else y, m, d)
  }

  /** Days of a 400-year era before its year `y`, counted from 1 March. */
  function EraDays(y: int): int {
    365 * y + y / 4 - y / 100
  }

  /** Day `s` of four-year cycle `k` of century `c` of an era lies in year `100c + 4k + j`. */
  lemma YearOfEraAt(c: int, k: int, s: int, j: int)
    requires 0 <= c < 4 && 0 <= k < 25 && 0 <= s < 1461 && 1461 * k + s < 36_524
    requires 0 <= j < 4 && 365 * j <= s && (s < 365 * (j + 1) || (s == 1460 && j == 3))
    ensures YearOfEra((36_524 * c + 1461 * k + s) as u64) as int == 100 * c + 4 * k + j
  {
    var doe := 36_524 * c + 1461 * k + s;
    assert doe / 36_524 == c && doe / 146_096 == 0;
    var e := (24 * c + k + s) / 1460;
    assert doe / 1460 == 25 * c + k + e;
    assert 365 * (100 * c + 4 * k + j) <= doe - doe / 1460 + c < 365 * (100 * c + 4 * k + j + 1);
  }

  lemma EraDaysAt(c: int, k: int, j: int)
    requires 0 <= c < 4 && 0 <= k < 25 && 0 <= j < 4
    ensures EraDays(100 * c + 4 * k + j) == 36_524 * c + 1461 * k + 365 * j
    ensures EraDays(100 * c + 4 * k + j + 1) == 36_524 * c + 1461 * k + 365 * (j + 1) + if j == 3 && k < 24 then 1 else 0
  {
    assert (100 * c + 4 * k + j) / 100 == c;
    assert (100 * c + 4 * k + j) / 4 == 25 * c + k;
  }

  lemma YearOfEraBounds(doe: int)
    requires 0 <= doe < 146_097
    ensures var yoe := YearOfEra(doe as u64) as int;
      EraDays(yoe) <= doe && (doe < EraDays(yoe + 1) || (yoe == 399 && doe == 146_096))
  {
    if doe < 146_096 {
      var c, k, s := CycleOf(doe);
      var j := YearOfCycle(s);
      YearOfEraAt(c, k, s, j);
      EraDaysAt(c, k, j);
    }
  }

  /** The century, four-year cycle and day of the cycle. */
  lemma CycleOf(doe: int) returns (c: int, k: int, s: int)
    requires 0 <= doe < 146_096
    ensures 0 <= c < 4 && 0 <= k < 25 && 0 <= s < 1461 && 1461 * k + s < 36_524 && doe == 36_524 * c + 1461 * k + s
  {
    c := doe / 36_524;
    var r := doe - 36_524 * c;
    assert 0 <= r < 36_524;
    k, s := r / 1461, r % 1461;
  }

  lemma YearOfCycle(s: int) returns (j: int)
    requires 0 <= s < 1461
    ensures 0 <= j < 4 && 365 * j <= s && (s < 365 * (j + 1) || (s == 1460 && j == 3))
  {
    j := if s == 1460 then 3 else s / 365;
  }

  // ---- the calendar --------------------------------------------------------------------

  datatype Date = Date(year: int, month: int, day: int)

  predicate IsLeap(y: int) {
    y % 4 == 0 && (y % 100 != 0 || y % 400 == 0)
  }

  function DaysInMonth(y: int, m: int): int {
    if m == 2 then (if IsLeap(y) then 29 else 28)
    else if m == 4 || m == 6 || m == 9 || m == 11 then 30
    else 31
  }

  predicate IsDate(t: Date) {
    1 <= t.month <= 12 && 1 <= t.day <= DaysInMonth(t.year, t.month)
  }

  function NextDay(t: Date): Date {
    if t.day < DaysInMonth(t.year, t.month) then Date(t.year, t.month, t.day + 1)
    else if t.month < 12 then Date(t.year, t.month + 1, 1)
    else Date(t.year + 1, 1, 1)
  }

  /** Order of dates in time. */
  predicate Before(s: Date, t: Date) {
    s.year < t.year || (s.year == t.year && (s.month < t.month || (s.month == t.month && s.day < t.day)))
  }

  function DaysBeforeMonth(y: int, m: nat): int {
    if m <= 1 then 0 else DaysBeforeMonth(y, m - 1) + DaysInMonth(y, m - 1)
  }

  /** Days from 1 January of year 1 to 1 January of year `y`. */
  function DaysBeforeYear(y: int): int {
    365 * (y - 1) + (y - 1) / 4 - (y - 1) / 100 + (y - 1) / 400
  }

  /** Days from the Unix epoch to a date; 1 January 1970 is day 719162 of the era of year 1. */
  function DaysFromCivil(t: Date): int
    requires IsDate(t)
  {
    DaysBeforeYear(t.year) + DaysBeforeMonth(t.year, t.month) + t.day - 1 - 719_162
  }

  function CivilDate(day: i64): Date
    requires day as int <= MAX_DAY
  {
    var (y, m, d) := CivilFromDays(day);
    Date(y as int, m as int, d as int)
  }

  // ---- facts about the calendar --------------------------------------------------------

  lemma YearLength(y: int)
    ensures DaysBeforeYear(y + 1) == DaysBeforeYear(y) + if IsLeap(y) then 366 else 365
  {
    FloorStep(y, 4);
    FloorStep(y, 100);
    FloorStep(y, 400);
    Centuries(y);
  }

  lemma Centuries(y: int)
    ensures y % 100 == 0 ==> y % 4 == 0
    ensures y % 400 == 0 ==> y % 100 == 0
  {
    if y % 100 == 0 {
      QuotientIs(y, 4, 25 * (y / 100), 0);
    }
    if y % 400 == 0 {
      QuotientIs(y, 100, 4 * (y / 400), 0);
    }
  }

  lemma FloorStep(y: int, n: int)
    requires n > 0
    ensures y / n == (y - 1) / n + if y % n == 0 then 1 else 0
  {
    var q, r := y / n, y % n;
    assert y == n * q + r;
    if r == 0 {
      assert y - 1 == n * (q - 1) + (n - 1);
      QuotientIs(y - 1, n, q - 1, n - 1);
    } else {
      QuotientIs(y - 1, n, q, r - 1);
    }
  }

  lemma QuotientIs(a: int, n: int, q: int, r: int)
    requires n > 0 && a == n * q + r && 0 <= r < n
    ensures a / n == q
  {
    var p, s := a / n, a % n;
    assert n * (p - q) == r - s;
    Multiples(n, p - q);
  }

  lemma Multiples(n: int, x: int)
    requires n > 0
    ensures x >= 1 ==> n * x >= n
    ensures x <= -1 ==> n * x <= -n
  {
  }

  lemma MonthTable(y: int)
    ensures var l := if IsLeap(y) then 1 else 0;
      && DaysBeforeMonth(y, 1) == 0 && DaysBeforeMonth(y, 2) == 31 && DaysBeforeMonth(y, 3) == 59 + l
      && DaysBeforeMonth(y, 4) == 90 + l && DaysBeforeMonth(y, 5) == 120 + l && DaysBeforeMonth(y, 6) == 151 + l
      && DaysBeforeMonth(y, 7) == 181 + l && DaysBeforeMonth(y, 8) == 212 + l && DaysBeforeMonth(y, 9) == 243 + l
      && DaysBeforeMonth(y, 10) == 273 + l && DaysBeforeMonth(y, 11) == 304 + l && DaysBeforeMonth(y, 12) == 334 + l
  {
  }

  /** The calendar successor is one day later. */
  lemma NextDayIsOneLater(t: Date)
    requires IsDate(t)
    ensures IsDate(NextDay(t)) && DaysFromCivil(NextDay(t)) == DaysFromCivil(t) + 1
  {
    MonthTable(t.year);
    YearLength(t.year);
  }

  lemma {:induction false} YearsGrow(a: int, b: int)
    requires a <= b
    ensures DaysBeforeYear(a) + 365 * (b - a) <= DaysBeforeYear(b)
    decreases b - a
  {
    if a < b {
      YearsGrow(a, b - 1);
      YearLength(b - 1);
    }
  }

  /** Later dates have larger day numbers. */
  lemma DaysFromCivilMonotone(s: Date, t: Date)
    requires IsDate(s) && IsDate(t) && Before(s, t)
    ensures DaysFromCivil(s) < DaysFromCivil(t)
  {
    if s.year < t.year {
      WithinYear(s);
      WithinYear(t);
      YearLength(s.year);
      YearsGrow(s.year + 1, t.year);
    } else {
      MonthTable(s.year);
    }
  }

  lemma WithinYear(t: Date)
    requires IsDate(t)
    ensures 0 <= DaysBeforeMonth(t.year, t.month) + t.day - 1 < if IsLeap(t.year) then 366 else 365
  {
    MonthTable(t.year);
  }

  lemma SameDaySameDate(s: Date, t: Date)
    requires IsDate(s) && IsDate(t) && DaysFromCivil(s) == DaysFromCivil(t)
    ensures s == t
  {
    if Before(s, t) {
      DaysFromCivilMonotone(s, t);
    } else if Before(t, s) {
      DaysFromCivilMonotone(t, s);
    }
  }

  // ---- the algorithm is the calendar ---------------------------------------------------

  /** Years are counted from 1 March: `y` is the calendar year, one less in January and February. */
  lemma EraOfYear(era: int, yoe: int)
    requires 0 <= yoe < 400
    ensures DaysBeforeYear(400 * era + yoe + 1) == 146_097 * era + EraDays(yoe)
    ensures IsLeap(400 * era + yoe + 1) <==> IsLeap(yoe + 1)
  {
    QuotientIs(400 * era + yoe, 400, era, yoe);
    QuotientIs(400 * era + yoe, 100, 4 * era + yoe / 100, yoe % 100);
    QuotientIs(400 * era + yoe, 4, 100 * era + yoe / 4, yoe % 4);
    LeapInEra(era, yoe + 1);
  }

  lemma LeapInEra(era: int, x: int)
    ensures IsLeap(400 * era + x) <==> IsLeap(x)
  {
    QuotientIs(400 * era + x, 400, era + x / 400, x % 400);
    QuotientIs(400 * era + x, 100, 4 * era + x / 100, x % 100);
    QuotientIs(400 * era + x, 4, 100 * era + x / 4, x % 4);
  }

  /** Day `doy` of the year that starts on 1 March of calendar year `y`. */
  function MarchDate(y: int, doy: int): Date {
    var mp := (5 * doy + 2) / 153;
    var d := doy - (153 * mp + 2) / 5 + 1;
    if mp < 10 then Date(y, mp + 3, d) else Date(y + 1, mp - 9, d)
  }

  lemma SpringDay(y: int, mp: int, doy: int)
    requires 0 <= mp < 10 && mp == (5 * doy + 2) / 153 && 0 <= doy
    ensures var t := Date(y, mp + 3, doy - (153 * mp + 2) / 5 + 1);
      IsDate(t) && DaysBeforeMonth(t.year, t.month) + t.day - 1 == DaysBeforeMonth(y, 3) + doy
  {
    MonthTable(y);
    assert mp in {0, 1, 2, 3, 4, 5, 6, 7, 8, 9};
  }

  lemma WinterDay(y: int, mp: int, doy: int)
    requires 10 <= mp && mp == (5 * doy + 2) / 153 && doy <= 365 && (doy == 365 ==> IsLeap(y))
    ensures var t := Date(y, mp - 9, doy - (153 * mp + 2) / 5 + 1);
      IsDate(t) && DaysBeforeMonth(t.year, t.month) + t.day - 1 == doy - 306
  {
    MonthTable(y);
    assert mp in {10, 11};
  }

  lemma MonthAndDay(y: int, doy: int)
    requires 0 <= doy <= 365 && (doy == 365 ==> IsLeap(y + 1))
    ensures IsDate(MarchDate(y, doy))
    ensures DaysFromCivil(MarchDate(y, doy)) == DaysBeforeYear(y + 1) + doy - 719_468
  {
    var mp := (5 * doy + 2) / 153;
    YearLength(y);
    if mp < 10 {
      SpringDay(y, mp, doy);
      MonthTable(y);
    } else {
      WinterDay(y + 1, mp, doy);
    }
  }

  /** The day of the March year; the 366th exists only when the coming February is long. */
  lemma DayOfYear(doe: int)
    requires 0 <= doe < 146_097
    ensures var yoe := YearOfEra(doe as u64) as int;
      var doy := doe - EraDays(yoe);
      0 <= doy <= 365 && (doy == 365 ==> IsLeap(yoe + 1))
  {
    YearOfEraBounds(doe);
    DayWithinYear(YearOfEra(doe as u64) as int, doe);
  }

  lemma DayWithinYear(yoe: int, doe: int)
    requires 0 <= yoe < 400 && EraDays(yoe) <= doe && (doe < EraDays(yoe + 1) || (yoe == 399 && doe == 146_096))
    ensures doe - EraDays(yoe) <= 365 && (doe - EraDays(yoe) == 365 ==> IsLeap(yoe + 1))
  {
    FloorStep(yoe + 1, 4);
    FloorStep(yoe + 1, 100);
    assert yoe + 1 == 400 || (yoe + 1) % 400 != 0;
  }

  lemma DateInYearIs(y: i64, doy: u64)
    requires doy <= 365 && y < 0x7FFF_FFFF_FFFF_FFFF
    ensures var (year, m, d) := DateInYear(y, doy); Date(year as int, m as int, d as int) == MarchDate(y as int, doy as int)
  {
  }

  /** The computed date in terms of the era, the year of the era and the day of the year. */
  lemma Decomposed(day: i64) returns (era: int, yoe: int, doy: int)
    requires day as int <= MAX_DAY
    ensures 0 <= yoe < 400 && 0 <= doy <= 365 && (doy == 365 ==> IsLeap(yoe + 1))
    ensures day as int + 719_468 == 146_097 * era + EraDays(yoe) + doy
    ensures CivilDate(day) == MarchDate(400 * era + yoe, doy)
  {
    var e := Era(day + 719_468);
    var doe := (day + 719_468 - e * 146_097) as u64;
    YearOfEraBounds(doe as int);
    DayOfYear(doe as int);
    era, yoe := e as int, YearOfEra(doe) as int;
    doy := doe as int - EraDays(yoe);
    DateInYearIs(YearOfEra(doe) as i64 + e * 400, doy as u64);
  }

  /** The date computed for a day number is a calendar date, and it is that many days from the
      epoch. */
  lemma CivilIsDate(day: i64)
    requires day as int <= MAX_DAY
    ensures IsDate(CivilDate(day)) && DaysFromCivil(CivilDate(day)) == day as int
  {
    var era, yoe, doy := Decomposed(day);
    MarchDateIs(era, yoe, doy);
  }

  lemma MarchDateIs(era: int, yoe: int, doy: int)
    requires 0 <= yoe < 400 && 0 <= doy <= 365 && (doy == 365 ==> IsLeap(yoe + 1))
    ensures var t := MarchDate(400 * era + yoe, doy);
      IsDate(t) && DaysFromCivil(t) == 146_097 * era + EraDays(yoe) + doy - 719_468
  {
    EraOfYear(era, yoe);
    MonthAndDay(400 * era + yoe, doy);
  }

  /** Day 0 is the Unix epoch. */
  lemma EpochDay()
    ensures CivilFromDays(0) == (1970, 1, 1)
  {
    CivilIsDate(0);
    MonthTable(1970);
    SameDaySameDate(CivilDate(0), Date(1970, 1, 1));
  }

  /** Each day's date is the calendar successor of the day before. */
  lemma CivilSuccessor(day: i64)
    requires day as int < MAX_DAY
    ensures CivilDate(day + 1) == NextDay(CivilDate(day))
  {
    CivilIsDate(day);
    CivilIsDate(day + 1);
    SuccessorIs(CivilDate(day), CivilDate(day + 1));
  }

  lemma SuccessorIs(s: Date, t: Date)
    requires IsDate(s) && IsDate(t) && DaysFromCivil(t) == DaysFromCivil(s) + 1
    ensures t == NextDay(s)
  {
    NextDayIsOneLater(s);
    SameDaySameDate(t, NextDay(s));
  }

  /** Dates and day numbers are inverse to each other. */
  lemma CivilInverse(t: Date)
    requires IsDate(t) && -0x8000_0000_0000_0000 <= DaysFromCivil(t) <= MAX_DAY
    ensures CivilDate(DaysFromCivil(t) as i64) == t
  {
    var day := DaysFromCivil(t) as i64;
    CivilIsDate(day);
    SameDaySameDate(CivilDate(day), t);
  }

  // ---- current_month -------------------------------------------------------------------

  const SECS_PER_DAY: u64 := 86_400

  /** Decimal digits padded with zeros on the left, as `{n:0width$}`. */
  function Padded(n: nat, width: nat): string {
    var s := Decimal(n);
    if |s| >= width then s else seq(width - |s|, _ => '0') + s
  }

  /** The date in UTC at a Unix time, which is never before the epoch. */
  function DateAt(secs: u64): Date {
    CivilDate((secs / SECS_PER_DAY) as i64)
  }

  function MonthText(year: nat, month: nat): string {
    Padded(year, 4) + "-" + Padded(month, 2)
  }

  /** UTC `YYYY-MM` at a Unix time. */
  function CurrentMonth(secs: u64): string {
    EpochOrLater(secs);
    var t := DateAt(secs);
    MonthText(t.year, t.month)
  }

  lemma EpochOrLater(secs: u64)
    ensures DateAt(secs).year >= 1970 && IsDate(DateAt(secs))
  {
    var day := (secs / SECS_PER_DAY) as i64;
    CivilIsDate(day);
    if DateAt(secs).year < 1970 {
      DaysFromCivilMonotone(DateAt(secs), Date(1970, 1, 1));
    }
  }

  /** The month never goes back as time passes. */
  lemma MonthNeverDecreases(earlier: u64, later: u64)
    requires earlier <= later
    ensures var s, t := DateAt(earlier), DateAt(later);
      s.year < t.year || (s.year == t.year && s.month <= t.month)
  {
    var a, b := (earlier / SECS_PER_DAY) as i64, (later / SECS_PER_DAY) as i64;
    assert a <= b;
    CivilIsDate(a);
    CivilIsDate(b);
    if Before(DateAt(later), DateAt(earlier)) {
      DaysFromCivilMonotone(DateAt(later), DateAt(earlier));
    }
  }

  /** The number a string of decimal digits denotes. */
  function DigitsValue(s: string): int {
    if s == "" then 0 else 10 * DigitsValue(s[..|s| - 1]) + (s[|s| - 1] as int - '0' as int)
  }

  lemma {:induction false} DecimalValue(n: nat)
    ensures DigitsValue(Decimal(n)) == n
  {
    assert DIGITS[n % 10] as int - '0' as int == n % 10;
    var s := Decimal(n);
    if n >= 10 {
      DecimalValue(n / 10);
      assert s[..|s| - 1] == Decimal(n / 10);
    } else {
      assert s[..0] == "";
    }
  }

  lemma {:induction false} LeadingZeros(zeros: string, s: string)
    requires forall i | 0 <= i < |zeros| :: zeros[i] == '0'
    ensures DigitsValue(zeros + s) == DigitsValue(s)
    decreases |zeros| + |s|
  {
    if s != "" {
      assert (zeros + s)[..|zeros + s| - 1] == zeros + s[..|s| - 1];
      LeadingZeros(zeros, s[..|s| - 1]);
    } else if zeros != "" {
      assert zeros + s == zeros;
      assert zeros[..|zeros| - 1] + "" == zeros[..|zeros| - 1];
      LeadingZeros(zeros[..|zeros| - 1], "");
    }
  }

  lemma PaddedValue(n: nat, width: nat)
    ensures DigitsValue(Padded(n, width)) == n
  {
    DecimalValue(n);
    var s := Decimal(n);
    if |s| < width {
      LeadingZeros(seq(width - |s|, _ => '0'), s);
    }
  }

  /** Two times share a usage period exactly when they fall in the same month. */
  lemma CurrentMonthIff(a: u64, b: u64)
    ensures CurrentMonth(a) == CurrentMonth(b)
       <==> DateAt(a).year == DateAt(b).year && DateAt(a).month == DateAt(b).month
  {
    EpochOrLater(a);
    EpochOrLater(b);
    var s, t := DateAt(a), DateAt(b);
    if CurrentMonth(a) == CurrentMonth(b) {
      MonthTextInjective(s.year, s.month, t.year, t.month);
    }
  }

  lemma TwoDigits(month: nat)
    requires month <= 12
    ensures |Padded(month, 2)| == 2
  {
    if month >= 10 {
      assert Decimal(month) == Decimal(1) + [DIGITS[month % 10]];
      assert |Decimal(1)| == 1;
    }
  }

  lemma MonthTextInjective(y: nat, m: nat, y': nat, m': nat)
    requires m <= 12 && m' <= 12 && MonthText(y, m) == MonthText(y', m')
    ensures y == y' && m == m'
  {
    PaddedValue(y, 4);
    PaddedValue(y', 4);
    PaddedValue(m, 2);
    PaddedValue(m', 2);
    TwoDigits(m);
    TwoDigits(m');
    SplitMonth(Padded(y, 4), Padded(m, 2));
    SplitMonth(Padded(y', 4), Padded(m', 2));
  }

  lemma SplitMonth(y: string, m: string)
    requires |m| == 2
    ensures var s := y + "-" + m;
      s[..|s| - 3] == y && s[|s| - 2..] == m
  {
  }

  predicate IsDigit(c: char) {
    '0' <= c <= '9'
  }

  predicate AllDigits(s: string) {
    forall i | 0 <= i < |s| :: IsDigit(s[i])
  }

  /** What a period text is: the year in at least four digits, a dash and the month in two, for the UTC
      date of the day of 86,400 seconds the time falls in. */
  lemma PeriodIs(secs: u64)
    ensures var s, t := CurrentMonth(secs), DateAt(secs);
      && |s| >= 7 && s[|s| - 3] == '-' && (|s| == 7 <==> t.year <= 9999)
      && AllDigits(s[..|s| - 3]) && DigitsValue(s[..|s| - 3]) == t.year
      && AllDigits(s[|s| - 2..]) && DigitsValue(s[|s| - 2..]) == t.month
    ensures IsDate(DateAt(secs)) && 86_400 * DaysFromCivil(DateAt(secs)) <= secs as int < 86_400 * (DaysFromCivil(DateAt(secs)) + 1)
  {
    EpochOrLater(secs);
    CivilIsDate((secs / SECS_PER_DAY) as i64);
    var t := DateAt(secs);
    PaddedDigits(t.year, 4);
    PaddedDigits(t.month, 2);
    TwoDigits(t.month);
    SplitMonth(Padded(t.year, 4), Padded(t.month, 2));
    YearWidth(t.year);
  }

  lemma PaddedDigits(n: nat, width: nat)
    ensures AllDigits(Padded(n, width)) && DigitsValue(Padded(n, width)) == n && |Padded(n, width)| >= width
  {
    DecimalDigits(n);
    PaddedValue(n, width);
  }

  lemma YearWidth(year: nat)
    ensures |Padded(year, 4)| == 4 <==> year <= 9999
  {
    if year <= 9999 {
      FourDigits(year);
    } else {
      LongYear(year);
    }
  }

  lemma {:induction false} LongYear(year: nat)
    requires year > 9999
    ensures |Decimal(year)| >= 5
  {
    if year >= 100_000 {
      LongYear(year / 10);
    } else {
      DecimalLength(year);
      DecimalLength(year / 10);
      DecimalLength(year / 10 / 10);
      DecimalLength(year / 10 / 10 / 10);
    }
  }

  // ---- periods as texts ----------------------------------------------------------------

  /** The order of texts. */
  predicate TextLeq(s: string, t: string) {
    s == "" || (t != "" && (s[0] < t[0] || (s[0] == t[0] && TextLeq(s[1..], t[1..]))))
  }

  /** Texts of one length are compared by their beginnings first. */
  lemma {:induction false} TextLeqAppend(a: string, x: string, b: string, y: string)
    requires |a| == |b|
    ensures TextLeq(a + x, b + y) <==> TextLeq(a, b) && (a == b ==> TextLeq(x, y))
  {
    if a == "" {
      assert a + x == x && b + y == y;
    } else {
      assert (a + x)[1..] == a[1..] + x && (b + y)[1..] == b[1..] + y;
      TextLeqAppend(a[1..], x, b[1..], y);
      assert a == [a[0]] + a[1..] && b == [b[0]] + b[1..];
    }
  }

  lemma {:induction false} DecimalDigits(n: nat)
    ensures AllDigits(Decimal(n))
  {
    assert IsDigit(DIGITS[n % 10]);
    if n >= 10 {
      DecimalDigits(n / 10);
    }
  }

  lemma LastDigit(a: string, c: char, b: string, d: char)
    requires |a| == |b| && IsDigit(c) && IsDigit(d)
    requires TextLeq(a, b) <==> DigitsValue(a) <= DigitsValue(b)
    requires a == b <==> DigitsValue(a) == DigitsValue(b)
    ensures TextLeq(a + [c], b + [d]) <==> DigitsValue(a + [c]) <= DigitsValue(b + [d])
    ensures a + [c] == b + [d] <==> DigitsValue(a + [c]) == DigitsValue(b + [d])
  {
    TextLeqAppend(a, [c], b, [d]);
    OneDigit(c, d);
    DigitsSnoc(a, c);
    DigitsSnoc(b, d);
    SameSnoc(a, c, b, d);
  }

  lemma OneDigit(c: char, d: char)
    ensures TextLeq([c], [d]) <==> c <= d
  {
    assert [c][1..] == "" == [d][1..];
  }

  lemma DigitsSnoc(s: string, c: char)
    ensures DigitsValue(s + [c]) == 10 * DigitsValue(s) + (c as int - '0' as int)
  {
    assert (s + [c])[..|s|] == s;
  }

  lemma SameSnoc(a: string, c: char, b: string, d: char)
    requires |a| == |b|
    ensures a + [c] == b + [d] <==> a == b && c == d
  {
    if a + [c] == b + [d] {
      assert (a + [c])[..|a|] == (b + [d])[..|b|] && (a + [c])[|a|] == (b + [d])[|b|];
    }
  }

  /** Numbers of equally many digits are ordered as their texts. */
  lemma {:induction false} DigitsOrder(s: string, t: string)
    requires |s| == |t| && AllDigits(s) && AllDigits(t)
    ensures TextLeq(s, t) <==> DigitsValue(s) <= DigitsValue(t)
    ensures s == t <==> DigitsValue(s) == DigitsValue(t)
  {
    if s != "" {
      var n := |s| - 1;
      DigitsOrder(s[..n], t[..n]);
      LastDigit(s[..n], s[n], t[..n], t[n]);
      assert s[..n] + [s[n]] == s && t[..n] + [t[n]] == t;
    }
  }

  lemma DecimalLength(n: nat)
    ensures n < 10 ==> |Decimal(n)| == 1
    ensures n >= 10 ==> |Decimal(n)| == |Decimal(n / 10)| + 1
  {
  }

  lemma FourDigits(year: nat)
    requires year <= 9999
    ensures |Padded(year, 4)| == 4
  {
    DecimalLength(year);
    DecimalLength(year / 10);
    DecimalLength(year / 10 / 10);
    DecimalLength(year / 10 / 10 / 10);
  }

  lemma PaddedOrder(m: nat, n: nat, width: nat)
    requires |Padded(m, width)| == |Padded(n, width)|
    ensures TextLeq(Padded(m, width), Padded(n, width)) <==> m <= n
    ensures Padded(m, width) == Padded(n, width) <==> m == n
  {
    PaddedValue(m, width);
    PaddedValue(n, width);
    DecimalDigits(m);
    DecimalDigits(n);
    DigitsOrder(Padded(m, width), Padded(n, width));
  }

  /** Up to the year 9999 periods sort as their months. */
  lemma MonthTextOrder(y: nat, m: nat, y': nat, m': nat)
    requires y <= 9999 && y' <= 9999 && m <= 12 && m' <= 12
    ensures TextLeq(MonthText(y, m), MonthText(y', m')) <==> y < y' || (y == y' && m <= m')
  {
    FourDigits(y);
    FourDigits(y');
    TwoDigits(m);
    TwoDigits(m');
    PaddedOrder(y, y', 4);
    PaddedOrder(m, m', 2);
    var a, b := Padded(y, 4), Padded(y', 4);
    TextLeqAppend(a + "-", Padded(m, 2), b + "-", Padded(m', 2));
    TextLeqAppend(a, "-", b, "-");
    assert a + "-" == b + "-" ==> (a + "-")[..4] == (b + "-")[..4];
    assert TextLeq("-", "-");
  }

  /** The period text never steps back. */
  predicate InOrder(earlier: u64, later: u64) {
    TextLeq(CurrentMonth(earlier), CurrentMonth(later))
  }

  /** The first second of a day. */
  lemma MidnightOf(t: Date) returns (secs: u64)
    requires IsDate(t) && 1970 <= t.year <= 10_000
    ensures DateAt(secs) == t && secs as int == DaysFromCivil(t) * 86_400
  {
    MonthTable(t.year);
    YearsGrow(1970, t.year);
    YearsGrow(t.year, 10_000);
    var days := DaysFromCivil(t);
    assert 0 <= days <= 4_000_000;
    secs := (days * 86_400) as u64;
    assert (secs / SECS_PER_DAY) as int == days;
    CivilInverse(t);
  }

  lemma LeadingDigit(n: nat)
    requires n >= 10
    ensures Decimal(n)[0] == Decimal(n / 10)[0]
  {
  }

  lemma NinesBeforeTens()
    ensures !TextLeq(MonthText(9999, 12), MonthText(10_000, 1))
  {
    LeadingDigit(9999);
    LeadingDigit(999);
    LeadingDigit(99);
    LeadingDigit(10_000);
    LeadingDigit(1000);
    LeadingDigit(100);
    LeadingDigit(10);
    assert Decimal(9)[0] == '9' && Decimal(1)[0] == '1';
    FourDigits(9999);
    DecimalLength(10_000);
    DecimalLength(1000);
    DecimalLength(100);
    DecimalLength(10);
    assert MonthText(9999, 12)[0] == Decimal(9999)[0] && MonthText(10_000, 1)[0] == Decimal(10_000)[0];
  }

  lemma InOrderUntil9999(earlier: u64, later: u64)
    requires earlier <= later && DateAt(later).year <= 9999
    ensures InOrder(earlier, later)
  {
    MonthNeverDecreases(earlier, later);
    EpochOrLater(earlier);
    EpochOrLater(later);
    var s, t := DateAt(earlier), DateAt(later);
    MonthTextOrder(s.year, s.month, t.year, t.month);
  }

  /** As texts, which is how periods are kept, months never step back before the end of a year exactly
      when that year is 9999 or earlier: 10000-01 sorts before 9999-12. */
  lemma PeriodsInOrderIff(horizon: int)
    ensures (forall a: u64, b: u64 | a <= b && DateAt(b).year <= horizon :: InOrder(a, b)) <==> horizon <= 9999
  {
    if horizon <= 9999 {
      forall a: u64, b: u64 | a <= b && DateAt(b).year <= horizon
        ensures InOrder(a, b)
      {
        InOrderUntil9999(a, b);
      }
    } else {
      var s, t := Date(9999, 12, 1), Date(10_000, 1, 1);
      var a := MidnightOf(s);
      var b := MidnightOf(t);
      DaysFromCivilMonotone(s, t);
      NinesBeforeTens();
      assert !InOrder(a, b);
    }
  }
}
