/** A strictly increasing sequence of boundaries, and the interval that contains a point. */
module Ladder {

  ghost predicate StepUp(f: int -> int, m: int) {
    f(m) < f(m + 1)
  }

  ghost predicate Climbs(f: int -> int) {
    forall m :: StepUp(f, m)
  }

  lemma {:induction false} ClimbsBy(f: int -> int, a: int, b: int)
    requires Climbs(f) && a <= b
    ensures f(a) + (b - a) <= f(b)
    decreases b - a
  {
    if a < b {
      assert StepUp(f, b - 1);
      ClimbsBy(f, a, b - 1);
    }
  }

  function RungFrom(f: int -> int, m: int, t: int): int
    requires Climbs(f) && f(m) <= t
    decreases t - f(m)
  {
    assert StepUp(f, m);
    if t < f(m + 1) then m else RungFrom(f, m + 1, t)
  }

  /** The r with f(r) <= t < f(r + 1). */
  function Rung(f: int -> int, t: int): int
    requires Climbs(f)
  {
    if f(0) <= t then RungFrom(f, 0, t)
    else
      ClimbsBy(f, t - f(0), 0);
      RungFrom(f, t - f(0), t)
  }

  lemma {:induction false} RungFromContains(f: int -> int, m: int, t: int)
    requires Climbs(f) && f(m) <= t
    ensures var r := RungFrom(f, m, t); f(r) <= t < f(r + 1)
    decreases t - f(m)
  {
    assert StepUp(f, m);
    if f(m + 1) <= t {
      RungFromContains(f, m + 1, t);
    }
  }

  lemma RungIsUnique(f: int -> int, t: int, m: int)
    requires Climbs(f)
    ensures Rung(f, t) == m <==> f(m) <= t < f(m + 1)
    ensures Rung(f, t) >= m <==> f(m) <= t
  {
    var r := Rung(f, t);
    if f(0) <= t {
      RungFromContains(f, 0, t);
    } else {
      ClimbsBy(f, t - f(0), 0);
      RungFromContains(f, t - f(0), t);
    }
    ClimbsBy(f, m, m + 1);
    if r < m {
      ClimbsBy(f, r + 1, m);
    } else if r > m {
      ClimbsBy(f, m + 1, r);
    }
  }

  /** The first boundary after t. */
  function NextRung(f: int -> int, t: int): int
    requires Climbs(f)
  {
    f(Rung(f, t) + 1)
  }

  /** The boundary after u is passed by t exactly when t lies in a later interval than u. */
  lemma NextRungPassedIff(f: int -> int, t: int, u: int)
    requires Climbs(f)
    ensures NextRung(f, u) <= t <==> Rung(f, t) > Rung(f, u)
  {
    RungIsUnique(f, t, Rung(f, u) + 1);
  }

  lemma NextRungIsBoundary(f: int -> int, u: int, m: int)
    requires Climbs(f)
    ensures NextRung(f, u) <= f(m) || f(m + 1) <= NextRung(f, u)
    ensures u < f(m) ==> NextRung(f, u) <= f(m)
    ensures f(m) <= u ==> f(m + 1) <= NextRung(f, u)
  {
    var r := Rung(f, u);
    RungIsUnique(f, u, m);
    if r + 1 <= m {
      ClimbsBy(f, r + 1, m);
    } else {
      ClimbsBy(f, m + 1, r + 1);
    }
  }
}

/**
  Instants and the proleptic Gregorian calendar. An instant is a number of nanoseconds since
  0000-01-01T00:00:00Z; months are numbered consecutively, month 0 being January of year 0.
 */
module Calendar {
  import opened Ladder

  const SECOND: int := 1_000_000_000
  const DAY: int := 86_400 * SECOND

  predicate Leap(y: int) {
    y % 4 == 0 && (y % 100 != 0 || y % 400 == 0)
  }

  /** Days from the epoch to 1 January of year y. */
  function DaysBeforeYear(y: int): int {
    365 * y + (y + 3) / 4 - (y + 99) / 100 + (y + 399) / 400
  }

  function DaysInMonth(y: int, k: nat): (d: int)
    requires k < 12
    ensures 28 <= d <= 31
  {
    if k == 1 then (if Leap(y) then 29 else 28)
    else if k == 3 || k == 5 || k == 8 || k == 10 then 30
    else 31
  }

  const DAYS_BEFORE: seq<int> := [0, 31, 59, 90, 120, 151, 181, 212, 243, 273, 304, 334, 365]

  /** Days from 1 January to the first of the month with index k. */
  function DaysBeforeMonth(y: int, k: nat): int
    requires k <= 12
  {
    DAYS_BEFORE[k] + (if k >= 2 && Leap(y) then 1 else 0)
  }

  function MonthStartDay(m: int): int {
    DaysBeforeYear(m / 12) + DaysBeforeMonth(m / 12, m % 12)
  }

  /** The first instant of a month. */
  function MonthStart(m: int): int {
    MonthStartDay(m) * DAY
  }

  lemma EveryFourth(y: int)
    ensures (y + 4) / 4 == (y + 3) / 4 + (if y % 4 == 0 then 1 else 0)
  {
  }

  lemma EveryHundredth(y: int)
    ensures (y + 100) / 100 == (y + 99) / 100 + (if y % 100 == 0 then 1 else 0)
  {
  }

  lemma HundredthIsFourth(y: int)
    requires y % 100 == 0
    ensures y % 4 == 0
  {
    assert y == 4 * (25 * (y / 100));
  }

  lemma EveryFourHundredth(y: int)
    ensures (y + 400) / 400 == (y + 399) / 400 + (if y % 400 == 0 then 1 else 0)
  {
  }

  lemma FourHundredthIsHundredth(y: int)
    requires y % 400 == 0
    ensures y % 100 == 0
  {
    assert y == 100 * (4 * (y / 400));
  }

  lemma YearLength(y: int)
    ensures DaysBeforeYear(y + 1) == DaysBeforeYear(y) + (if Leap(y) then 366 else 365)
  {
    EveryFourth(y);
    EveryHundredth(y);
    EveryFourHundredth(y);
    if y % 100 == 0 {
      HundredthIsFourth(y);
    }
    if y % 400 == 0 {
      FourHundredthIsHundredth(y);
    }
  }

  lemma MonthsOfTheYear(y: int, k: nat)
    requires k < 12
    ensures DaysBeforeMonth(y, k + 1) == DaysBeforeMonth(y, k) + DaysInMonth(y, k)
  {
  }

  /** Each month ends where the next begins, across December and leap Februaries alike. */
  lemma MonthLength(m: int)
    ensures MonthStartDay(m + 1) == MonthStartDay(m) + DaysInMonth(m / 12, m % 12)
  {
    var y, k := m / 12, m % 12;
    MonthsOfTheYear(y, k);
    if k == 11 {
      YearLength(y);
      assert (m + 1) / 12 == y + 1 && (m + 1) % 12 == 0;
    } else {
      assert (m + 1) / 12 == y && (m + 1) % 12 == k + 1;
    }
  }

  /** The lengths in plain numbers, in nanoseconds: the leap years are those of the Gregorian calendar. */
  lemma MonthsInPlainNumbers(m: int)
    ensures
      var y := m / 12;
      var february := if y % 4 == 0 && (y % 100 != 0 || y % 400 == 0) then 29 else 28;
      MonthStart(m + 1) - MonthStart(m)
        == [31, february, 31, 30, 31, 30, 31, 31, 30, 31, 30, 31][m % 12] * 86_400_000_000_000
  {
    MonthLength(m);
  }

  /** Month 23640 is January 1970, which began 719528 days after the epoch used here. */
  lemma UnixEpoch()
    ensures MonthStart(23640) == 719528 * 86_400_000_000_000
  {
    assert 23640 / 12 == 1970 && 23640 % 12 == 0;
    assert DaysBeforeYear(1970) == 365 * 1970 + 493 - 20 + 5;
    assert DaysBeforeMonth(1970, 0) == 0;
  }

  lemma LaterDay(a: int, b: int)
    requires a < b
    ensures a * DAY < b * DAY
  {
  }

  lemma MonthStartsStepUp(m: int)
    ensures StepUp(MonthStart, m)
  {
    MonthLength(m);
    LaterDay(MonthStartDay(m), MonthStartDay(m + 1));
  }

  lemma MonthsClimb()
    ensures Climbs(MonthStart)
  {
    forall m ensures StepUp(MonthStart, m) {
      MonthStartsStepUp(m);
    }
  }

  /** The first instant of a month given by year and 1-based month, which may overflow. */
  function FirstOfMonth(year: int, month: int): int {
    var y, k := year + (month - 1) / 12, (month - 1) % 12;
    (DaysBeforeYear(y) + DaysBeforeMonth(y, k)) * DAY
  }

  lemma MonthNumberSplits(year: int, q: int)
    ensures (12 * year + q) / 12 == year + q / 12
    ensures (12 * year + q) % 12 == q % 12
  {
    assert 12 * year + q == 12 * (year + q / 12) + q % 12;
  }

  lemma FirstOfMonthIs(year: int, month: int)
    ensures FirstOfMonth(year, month) == MonthStart(12 * year + (month - 1))
  {
    MonthNumberSplits(year, month - 1);
  }

  /** Month 13 is January of the next year. */
  lemma DecemberRollsOver(year: int)
    ensures FirstOfMonth(year, 13) == FirstOfMonth(year + 1, 1) == MonthStart(12 * year + 12)
  {
    FirstOfMonthIs(year, 13);
    FirstOfMonthIs(year + 1, 1);
  }

  /** The month after m, found by adding one to its month field. */
  lemma NextMonthByFields(m: int)
    ensures FirstOfMonth(m / 12, m % 12 + 2) == MonthStart(m + 1)
  {
    FirstOfMonthIs(m / 12, m % 12 + 2);
    assert 12 * (m / 12) + (m % 12 + 1) == m + 1;
  }

  // ------------------------------------------------------------ as one value

  /** What a program asks of a calendar: month boundaries, and dates given by fields. */
  datatype Rules = Rules(start: int -> int, first: (int, int) -> int)

  ghost predicate FieldsAgree(c: Rules, m: int) {
    c.first(m / 12, m % 12 + 2) == c.start(m + 1)
  }

  /** Months follow one another, and adding one to the month field reaches the next month. */
  ghost predicate Good(c: Rules) {
    Climbs(c.start) && forall m :: FieldsAgree(c, m)
  }

  const GREGORIAN: Rules := Rules(MonthStart, FirstOfMonth)

  lemma GregorianIsGood()
    ensures Good(GREGORIAN)
  {
    MonthsClimb();
    forall m ensures FieldsAgree(GREGORIAN, m) {
      NextMonthByFields(m);
    }
  }
}
