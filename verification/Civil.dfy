/**
 * Days since the epoch to a civil date. The program uses closed-form arithmetic on eras of 400 years
 * that start in March; the calendar below is the plain proleptic Gregorian one.
 */
module Civil {

  datatype Date = Date(year: int, month: int, day: int)

  // ---------------------------------------------------------------------- the program

  /** Integer division as the program's language has it: towards zero. */
  function TruncDiv(a: int, b: int): int
    requires b > 0
  {
    if a >= 0 then a / b else -((-a) / b)
  }

  function Era(z: int): int {
    TruncDiv(if z >= 0 then z else z - 146_096, 146_097)
  }

  function YearOfEra(doe: int): int {
    (doe - doe / 1460 + doe / 36_524 - doe / 146_096) / 365
  }

  /** First day, counted from the start of the era, of March-based year `yoe`. */
  function YearStart(yoe: int): int {
    365 * yoe + yoe / 4 - yoe / 100
  }

  function MonthPhase(doy: int): int {
    (5 * doy + 2) / 153
  }

  /** Day of the March-based year on which phase `mp` (March is 0) starts. */
  function PhaseStart(mp: int): int {
    (153 * mp + 2) / 5
  }

  function DaysToYmd(days: int): Date {
    var z := days + 719_468;
    var era := Era(z);
    var doe := z - era * 146_097;
    var yoe := YearOfEra(doe);
    var doy := doe - YearStart(yoe);
    var mp := MonthPhase(doy);
    var month := if mp < 10 then mp + 3 else mp - 9;
    Date(yoe + era * 400 + if month <= 2 then 1 else 0, month, doy - PhaseStart(mp) + 1)
  }

  // ---------------------------------------------------------------------- the calendar

  predicate IsLeap(year: int) {
    year % 4 == 0 && (year % 100 != 0 || year % 400 == 0)
  }

  function DaysInMonth(year: int, month: int): int {
    if month == 2 then (if IsLeap(year) then 29 else 28)
    else if month == 4 || month == 6 || month == 9 || month == 11 then 30
    else 31
  }

  predicate Valid(date: Date) {
    1 <= date.month <= 12 && 1 <= date.day <= DaysInMonth(date.year, date.month)
  }

  /** The day after. */
  function Next(date: Date): Date {
    if date.day < DaysInMonth(date.year, date.month) then date.(day := date.day + 1)
    else if date.month < 12 then Date(date.year, date.month + 1, 1)
    else Date(date.year + 1, 1, 1)
  }

  /** The day before. */
  function Previous(date: Date): Date {
    if date.day > 1 then date.(day := date.day - 1)
    else if date.month > 1 then Date(date.year, date.month - 1, DaysInMonth(date.year, date.month - 1))
    else Date(date.year - 1, 12, 31)
  }

  predicate Before(a: Date, b: Date) {
    a.year < b.year || (a.year == b.year && (a.month < b.month || (a.month == b.month && a.day < b.day)))
  }

  /** Days of the year before the month starts, summed month by month. */
  function DaysBeforeMonth(year: int, month: int): int
    decreases month
  {
    if month <= 1 then 0 else DaysBeforeMonth(year, month - 1) + DaysInMonth(year, month - 1)
  }

  /** Leap years in the years 1 to `year`, extended to all integers. */
  function LeapsThrough(year: int): int {
    year / 4 - year / 100 + year / 400
  }

  /** Days from 1970-01-01 to the date: an independent count, year by year and month by month. */
  function DayNumber(date: Date): int {
    365 * (date.year - 1970) + LeapsThrough(date.year - 1) - LeapsThrough(1969)
    + DaysBeforeMonth(date.year, date.month) + date.day - 1
  }

  // ---------------------------------------------------------------------- the count follows the calendar

  lemma SplitBy4(q: int, r: int)
    ensures (400 * q + r) / 4 == 100 * q + r / 4 && (400 * q + r) % 4 == r % 4
  {
  }

  lemma SplitBy100(q: int, r: int)
    ensures (400 * q + r) / 100 == 4 * q + r / 100 && (400 * q + r) % 100 == r % 100
  {
  }

  lemma SplitBy400(q: int, r: int)
    ensures (400 * q + r) / 400 == q + r / 400 && (400 * q + r) % 400 == r % 400
  {
  }

  lemma LeapsThroughSplit(q: int, r: int)
    ensures LeapsThrough(400 * q + r) == 97 * q + LeapsThrough(r)
    ensures IsLeap(400 * q + r) == IsLeap(r)
  {
    SplitBy4(q, r);
    SplitBy100(q, r);
    SplitBy400(q, r);
  }

  lemma FourthStep(y: int)
    ensures y / 4 == (y - 1) / 4 + if y % 4 == 0 then 1 else 0
  {
  }

  lemma CenturyStep(y: int)
    ensures y / 100 == (y - 1) / 100 + if y % 100 == 0 then 1 else 0
  {
  }

  lemma EraStep(y: int)
    ensures y / 400 == (y - 1) / 400 + if y % 400 == 0 then 1 else 0
  {
  }

  lemma FourTimes(k: int)
    ensures 4 * k % 4 == 0
  {
  }

  lemma HundredTimes(k: int)
    ensures 100 * k % 100 == 0
  {
  }

  lemma Multiples(y: int)
    ensures y % 400 == 0 ==> y % 100 == 0
    ensures y % 100 == 0 ==> y % 4 == 0
  {
    HundredTimes(4 * (y / 400));
    FourTimes(25 * (y / 100));
  }

  lemma LeapStep(year: int)
    ensures LeapsThrough(year) == LeapsThrough(year - 1) + if IsLeap(year) then 1 else 0
  {
    Multiples(year);
    FourthStep(year);
    CenturyStep(year);
    EraStep(year);
  }

  lemma MonthTable(year: int)
    ensures var leap := if IsLeap(year) then 1 else 0;
            && DaysBeforeMonth(year, 1) == 0 && DaysBeforeMonth(year, 2) == 31
            && DaysBeforeMonth(year, 3) == 59 + leap && DaysBeforeMonth(year, 4) == 90 + leap
            && DaysBeforeMonth(year, 5) == 120 + leap && DaysBeforeMonth(year, 6) == 151 + leap
            && DaysBeforeMonth(year, 7) == 181 + leap && DaysBeforeMonth(year, 8) == 212 + leap
            && DaysBeforeMonth(year, 9) == 243 + leap && DaysBeforeMonth(year, 10) == 273 + leap
            && DaysBeforeMonth(year, 11) == 304 + leap && DaysBeforeMonth(year, 12) == 334 + leap
  {
    assert DaysBeforeMonth(year, 2) == 31;
    assert DaysBeforeMonth(year, 3) == DaysBeforeMonth(year, 2) + DaysInMonth(year, 2);
    assert DaysBeforeMonth(year, 5) == DaysBeforeMonth(year, 3) + 61;
    assert DaysBeforeMonth(year, 7) == DaysBeforeMonth(year, 5) + 61;
    assert DaysBeforeMonth(year, 9) == DaysBeforeMonth(year, 7) + 62;
    assert DaysBeforeMonth(year, 11) == DaysBeforeMonth(year, 9) + 61;
  }

  lemma NextCounts(date: Date)
    requires Valid(date)
    ensures Valid(Next(date)) && Before(date, Next(date)) && DayNumber(Next(date)) == DayNumber(date) + 1
  {
    if date.day == DaysInMonth(date.year, date.month) && date.month == 12 {
      MonthTable(date.year);
      LeapStep(date.year);
    }
  }

  lemma PreviousCounts(date: Date)
    requires Valid(date)
    ensures Valid(Previous(date)) && Next(Previous(date)) == date
  {
  }

  /** Every day number belongs to some date: walk there from the epoch. */
  lemma {:induction false} DateOf(n: int) returns (date: Date)
    ensures Valid(date) && DayNumber(date) == n
    decreases if n >= 0 then n else -n
  {
    if n == 0 {
      date := Date(1970, 1, 1);
    } else if n > 0 {
      var before := DateOf(n - 1);
      NextCounts(before);
      date := Next(before);
    } else {
      var after := DateOf(n + 1);
      PreviousCounts(after);
      date := Previous(after);
      NextCounts(date);
    }
  }

  // ---------------------------------------------------------------------- the arithmetic

  lemma EraIsFloor(z: int)
    ensures Era(z) == z / 146_097
  {
    if z < 0 {
      var q := (146_096 - z) / 146_097;
      assert q * 146_097 <= 146_096 - z < (q + 1) * 146_097;
      assert z == (-q) * 146_097 + (z + q * 146_097) && 0 <= z + q * 146_097 < 146_097;
    }
  }

  /** Days in the March-based year `yoe` of an era: its February belongs to year `yoe + 1`. */
  function YearLength(yoe: int): int {
    if (yoe + 1) % 4 == 0 && ((yoe + 1) % 100 != 0 || yoe == 399) then 366 else 365
  }

  lemma YearStartSplit(c: int, b: int, a: int)
    requires 0 <= c < 4 && 0 <= b < 25 && 0 <= a < 4
    ensures YearStart(100 * c + 4 * b + a) == 36_524 * c + 1461 * b + 365 * a
    ensures YearLength(100 * c + 4 * b + a) == if a == 3 && (b < 24 || c == 3) then 366 else 365
  {
    var y := 100 * c + 4 * b + a;
    assert y / 4 == 25 * c + b && y / 100 == c;
    assert (y + 1) % 4 == (a + 1) % 4;
    if a == 3 {
      assert (y + 1) % 100 == (4 * b + 4) % 100;
    }
  }

  lemma YearOfEraSplit(c: int, b: int, a: int, doy: int)
    requires 0 <= c < 4 && 0 <= b < 25 && 0 <= a < 4
    requires 0 <= doy < if a == 3 && (b < 24 || c == 3) then 366 else 365
    ensures YearOfEra(36_524 * c + 1461 * b + 365 * a + doy) == 100 * c + 4 * b + a
  {
    var doe := 36_524 * c + 1461 * b + 365 * a + doy;
    var rest := 24 * c + b + 365 * a + doy;
    assert doe == 1460 * (25 * c + b) + rest;
    var carry := if rest >= 1460 then 1 else 0;
    assert doe / 1460 == 25 * c + b + carry;
    var end := if doe == 146_096 then 1 else 0;
    assert doe / 36_524 == c + end && doe / 146_096 == end;
    assert doe - doe / 1460 + doe / 36_524 - doe / 146_096 == 365 * (100 * c + 4 * b + a) + (doy - carry);
  }

  lemma YearOfEraCorrect(yoe: int, doy: int)
    requires 0 <= yoe < 400 && 0 <= doy < YearLength(yoe)
    ensures YearOfEra(YearStart(yoe) + doy) == yoe
    ensures 0 <= YearStart(yoe) + doy < 146_097
  {
    var c, b, a := yoe / 100, yoe % 100 / 4, yoe % 4;
    assert yoe == 100 * c + 4 * b + a;
    YearStartSplit(c, b, a);
    YearOfEraSplit(c, b, a, doy);
  }

  lemma MonthPhaseCorrect(mp: int, d: int)
    requires 0 <= mp < 12 && 0 <= d && PhaseStart(mp) + d < PhaseStart(mp + 1) && PhaseStart(mp) + d < 366
    ensures MonthPhase(PhaseStart(mp) + d) == mp
  {
  }

  /** A date seen from its March-based year. */
  lemma MarchForm(date: Date) returns (year: int, mp: int, doy: int)
    requires Valid(date)
    ensures year == (if date.month <= 2 then date.year - 1 else date.year)
    ensures mp == (if date.month <= 2 then date.month + 9 else date.month - 3)
    ensures doy == PhaseStart(mp) + date.day - 1 && doy < PhaseStart(mp + 1)
    ensures 0 <= doy < if IsLeap(year + 1) then 366 else 365
    ensures DayNumber(date) + 719_468 == 365 * year + LeapsThrough(year) + doy
  {
    MonthTable(date.year);
    LeapStep(date.year);
    year := if date.month <= 2 then date.year - 1 else date.year;
    mp := if date.month <= 2 then date.month + 9 else date.month - 3;
    doy := PhaseStart(mp) + date.day - 1;
  }

  lemma EraForm(year: int)
    ensures 365 * year + LeapsThrough(year) == 146_097 * (year / 400) + YearStart(year % 400)
    ensures YearLength(year % 400) == if IsLeap(year + 1) then 366 else 365
  {
    var q, r := year / 400, year % 400;
    LeapsThroughSplit(q, r);
    LeapsThroughSplit(q, r + 1);
  }

  lemma QuotientIs(z: int, q: int, r: int)
    requires z == 146_097 * q + r && 0 <= r < 146_097
    ensures Era(z) == q
  {
    EraIsFloor(z);
  }

  /** What each intermediate value of the computation is, for the date it is about to produce. */
  lemma Intermediates(date: Date) returns (year: int, mp: int, doy: int)
    requires Valid(date)
    ensures year == (if date.month <= 2 then date.year - 1 else date.year)
    ensures mp == (if date.month <= 2 then date.month + 9 else date.month - 3)
    ensures doy == PhaseStart(mp) + date.day - 1 && 0 <= doy < 366
    ensures var z := DayNumber(date) + 719_468;
            var doe := z - Era(z) * 146_097;
            && Era(z) == year / 400 && 0 <= doe < 146_097
            && YearOfEra(doe) == year % 400 && doe - YearStart(year % 400) == doy && MonthPhase(doy) == mp
  {
    year, mp, doy := MarchForm(date);
    EraForm(year);
    YearOfEraCorrect(year % 400, doy);
    QuotientIs(DayNumber(date) + 719_468, year / 400, YearStart(year % 400) + doy);
    MonthPhaseCorrect(mp, date.day - 1);
  }

  /** The program inverts the count on every valid date. */
  lemma YmdOfDayNumber(date: Date)
    requires Valid(date)
    ensures DaysToYmd(DayNumber(date)) == date
  {
    var year, mp, doy := Intermediates(date);
    assert year == year % 400 + year / 400 * 400;
  }

  // ---------------------------------------------------------------------- the theorems

  /** The count inverts the program on every day number: the two are inverse bijections. */
  lemma DayNumberOfYmd(n: int)
    ensures Valid(DaysToYmd(n)) && DayNumber(DaysToYmd(n)) == n
  {
    var date := DateOf(n);
    YmdOfDayNumber(date);
  }

  /** Day 0 is 1970-01-01 and day n + 1 is the calendar successor of day n, for every n, negative ones too. */
  lemma DaysToYmdIsTheCalendar(n: int)
    ensures DaysToYmd(0) == Date(1970, 1, 1)
    ensures DaysToYmd(n + 1) == Next(DaysToYmd(n))
  {
    hide DaysToYmd, DayNumber, Next, Valid;
    var date := DateOf(n);
    YmdOfDayNumber(date);
    NextCounts(date);
    YmdOfDayNumber(Next(date));
    EpochIsZero();
    YmdOfDayNumber(Date(1970, 1, 1));
  }

  lemma EpochIsZero()
    ensures Valid(Date(1970, 1, 1)) && DayNumber(Date(1970, 1, 1)) == 0
  {
  }

  lemma SameCountSameDate(a: Date, b: Date)
    requires Valid(a) && Valid(b) && DayNumber(a) == DayNumber(b)
    ensures a == b
  {
    YmdOfDayNumber(a);
    YmdOfDayNumber(b);
  }

  lemma {:induction false} LaterByCount(a: Date, b: Date)
    requires Valid(a) && Valid(b) && DayNumber(a) < DayNumber(b)
    ensures Before(a, b)
    decreases DayNumber(b) - DayNumber(a)
  {
    NextCounts(a);
    if DayNumber(Next(a)) < DayNumber(b) {
      LaterByCount(Next(a), b);
    } else {
      SameCountSameDate(Next(a), b);
    }
  }

  /** Later days have later dates. */
  lemma DaysToYmdIncreases(m: int, n: int)
    requires m < n
    ensures Before(DaysToYmd(m), DaysToYmd(n))
  {
    DayNumberOfYmd(m);
    DayNumberOfYmd(n);
    LaterByCount(DaysToYmd(m), DaysToYmd(n));
  }

  /** Every valid date is the date of exactly one day. */
  lemma EveryDateOnce(date: Date)
    requires Valid(date)
    ensures exists n :: DaysToYmd(n) == date && forall m :: DaysToYmd(m) == date ==> m == n
  {
    var n := DayNumber(date);
    YmdOfDayNumber(date);
    forall m | DaysToYmd(m) == date ensures m == n {
      DayNumberOfYmd(m);
    }
  }

  /** No unsigned subtraction or narrowing cast of the computation goes out of range. */
  lemma UnsignedStepsFit(n: int)
    ensures var z := n + 719_468;
            var doe := z - Era(z) * 146_097;
            var yoe := YearOfEra(doe);
            var doy := doe - YearStart(yoe);
            && 0 <= doe < 146_097 && 0 <= doe - doe / 1460 && 0 <= yoe < 400 && 0 <= doy < 366
            && 0 <= MonthPhase(doy) < 12 && PhaseStart(MonthPhase(doy)) <= doy
  {
    hide DayNumber, Era, YearOfEra, YearStart, MonthPhase;
    var date := DateOf(n);
    var year, mp, doy := Intermediates(date);
  }

  // ---------------------------------------------------------------------- the time of day

  datatype Timestamp = Timestamp(date: Date, hour: int, minute: int, second: int)

  /** The moment `seconds` after the epoch, field by field. */
  function TimestampOf(seconds: nat): Timestamp {
    var timeOfDay := seconds % 86_400;
    Timestamp(DaysToYmd(seconds / 86_400), timeOfDay / 3600, timeOfDay % 3600 / 60, timeOfDay % 60)
  }

  lemma TimeFields(t: nat)
    requires t < 86_400
    ensures t / 3600 < 24 && t % 3600 / 60 < 60
    ensures t / 3600 * 3600 + t % 3600 / 60 * 60 + t % 60 == t
  {
    var h, r := t / 3600, t % 3600;
    assert t == 3600 * h + r;
    var m := r / 60;
    assert r == 60 * m + r % 60;
    assert t == 60 * (60 * h + m) + r % 60;
    assert t % 60 == r % 60;
  }

  /** The fields are in range and name the second they came from. */
  lemma TimestampIsExact(seconds: nat)
    ensures var t := TimestampOf(seconds);
            && Valid(t.date) && 0 <= t.hour < 24 && 0 <= t.minute < 60 && 0 <= t.second < 60
            && DayNumber(t.date) * 86_400 + t.hour * 3600 + t.minute * 60 + t.second == seconds
  {
    DayNumberOfYmd(seconds / 86_400);
    TimeFields(seconds % 86_400);
  }
}
