/**
 * Working-day accounting for the vacation report: the count over a date range
 * and the per-year dictionary it accumulates into.
 */
module WorkingDays {
  import opened Dates

  /** One `year: days` entry of the by-year dictionary. */
  datatype YearCount = YearCount(year: int, days: int)

  /** The by-year dictionary, as its entries in insertion order. */
  type Tally = seq<YearCount>

  /** `dict.get(year)`, with an absent year read as 0. */
  function Get(t: Tally, year: int): int
  {
    if t == [] then 0
    else if t[0].year == year then t[0].days
    else Get(t[1..], year)
  }

  function Years(t: Tally): set<int>
  {
    set i | 0 <= i < |t| :: t[i].year
  }

  predicate DistinctYears(t: Tally)
  {
    forall i, j :: 0 <= i < j < |t| ==> t[i].year != t[j].year
  }

  /** The sum of all per-year figures. */
  function Total(t: Tally): int
  {
    if t == [] then 0 else t[0].days + Total(t[1..])
  }

  /**
   * One counted day of `year`: an existing entry grows in place (a stored 0 is
   * falsy and is overwritten with 1, which is the same value), a new year is appended.
   */
  function Bump(t: Tally, year: int): Tally
  {
    if t == [] then [YearCount(year, 1)]
    else if t[0].year == year then [t[0].(days := t[0].days + 1)] + t[1..]
    else [t[0]] + Bump(t[1..], year)
  }

  lemma YearsCons(t: Tally)
    requires t != []
    ensures Years(t) == {t[0].year} + Years(t[1..])
  {
    forall y ensures y in Years(t) <==> y in {t[0].year} + Years(t[1..]) {
      if y in Years(t) {
        var i :| 0 <= i < |t| && t[i].year == y;
        if i > 0 { assert t[1..][i - 1].year == y; }
      }
      if y in Years(t[1..]) {
        var i :| 0 <= i < |t[1..]| && t[1..][i].year == y;
        assert t[i + 1].year == y;
      }
    }
  }

  lemma {:induction false} BumpFacts(t: Tally, year: int)
    ensures forall y :: Get(Bump(t, year), y) == Get(t, y) + (if y == year then 1 else 0)
    ensures Total(Bump(t, year)) == Total(t) + 1
    ensures Years(Bump(t, year)) == Years(t) + {year}
    ensures |Bump(t, year)| >= |t|
    ensures forall i :: 0 <= i < |t| ==> Bump(t, year)[i].year == t[i].year
    ensures DistinctYears(t) ==> DistinctYears(Bump(t, year))
  {
    if t == [] {
    } else if t[0].year == year {
      var r := Bump(t, year);
      assert r[1..] == t[1..];
      assert Years(r) == Years(t) by {
        forall y ensures y in Years(r) <==> y in Years(t) {
          if y in Years(t) {
            var i :| 0 <= i < |t| && t[i].year == y;
            assert r[i].year == y;
          }
        }
      }
    } else {
      BumpFacts(t[1..], year);
      var r := Bump(t, year);
      assert r[1..] == Bump(t[1..], year);
      YearsCons(t);
      YearsCons(r);
      if DistinctYears(t) {
        assert DistinctYears(t[1..]) by {
          forall i, j | 0 <= i < j < |t[1..]| ensures t[1..][i].year != t[1..][j].year {
            assert t[1..][i] == t[i + 1] && t[1..][j] == t[j + 1];
          }
        }
        assert t[0].year !in Years(t[1..]) by {
          forall i | 0 <= i < |t[1..]| ensures t[1..][i].year != t[0].year {
            assert t[1..][i] == t[i + 1];
          }
        }
        forall i, j | 0 <= i < j < |r| ensures r[i].year != r[j].year {
          if i == 0 {
            assert r[j] == Bump(t[1..], year)[j - 1];
            assert r[j].year in Years(Bump(t[1..], year));
          }
        }
      }
    }
  }

  /** A weekday (Monday to Friday) that is not a public holiday. */
  predicate IsWorkingDay(d: Day, holidays: iset<Day>)
  {
    Weekday(d) <= 4 && d !in holidays
  }

  /** The number of working days d with lo <= d < hi. */
  function CountWorking(holidays: iset<Day>, lo: Day, hi: Day): (n: nat)
    ensures n <= if lo <= hi then hi - lo else 0
    decreases hi - lo
  {
    if hi <= lo then 0
    else CountWorking(holidays, lo, hi - 1) + (if IsWorkingDay(hi - 1, holidays) then 1 else 0)
  }

  /** The same count, restricted to days falling in `year`. */
  function CountWorkingIn(cal: Calendar, holidays: iset<Day>, lo: Day, hi: Day, year: int): (n: nat)
    ensures n <= CountWorking(holidays, lo, hi)
    decreases hi - lo
  {
    if hi <= lo then 0
    else CountWorkingIn(cal, holidays, lo, hi - 1, year)
         + (if IsWorkingDay(hi - 1, holidays) && cal.yearOf(hi - 1) == year then 1 else 0)
  }

  /** The working days of [lo, hi) as a set: the reference the counts are measured against. */
  function WorkingDaySet(holidays: iset<Day>, lo: Day, hi: Day): set<Day>
  {
    set d | lo <= d < hi && IsWorkingDay(d, holidays)
  }

  /** The count is the size of the set of working days in [lo, hi); the end day is never counted. */
  lemma {:induction false} CountWorkingIsSetSize(holidays: iset<Day>, lo: Day, hi: Day)
    ensures CountWorking(holidays, lo, hi) == |WorkingDaySet(holidays, lo, hi)|
    decreases hi - lo
  {
    if hi <= lo {
      assert WorkingDaySet(holidays, lo, hi) == {};
    } else {
      CountWorkingIsSetSize(holidays, lo, hi - 1);
      var prev := WorkingDaySet(holidays, lo, hi - 1);
      if IsWorkingDay(hi - 1, holidays) {
        assert WorkingDaySet(holidays, lo, hi) == prev + {hi - 1};
        assert hi - 1 !in prev;
      } else {
        assert WorkingDaySet(holidays, lo, hi) == prev;
      }
    }
  }

  /** Every day of a range is counted in exactly its own year. */
  lemma {:induction false} CountWorkingInOwnYear(cal: Calendar, holidays: iset<Day>, lo: Day, hi: Day)
    ensures CountWorkingIn(cal, holidays, lo, hi, cal.yearOf(lo)) <= CountWorking(holidays, lo, hi)
    ensures (forall d :: lo <= d < hi ==> cal.yearOf(d) == cal.yearOf(lo)) ==>
      CountWorkingIn(cal, holidays, lo, hi, cal.yearOf(lo)) == CountWorking(holidays, lo, hi)
    decreases hi - lo
  {
    if hi > lo {
      CountWorkingInOwnYear(cal, holidays, lo, hi - 1);
    }
  }

  /** The dictionary after counting the days of [lo, hi) in ascending order. */
  function TallyRange(cal: Calendar, holidays: iset<Day>, lo: Day, hi: Day, t: Tally): Tally
    decreases hi - lo
  {
    if hi <= lo then t
    else
      var before := TallyRange(cal, holidays, lo, hi - 1, t);
      if IsWorkingDay(hi - 1, holidays) then Bump(before, cal.yearOf(hi - 1)) else before
  }

  /**
   * Each year grows by the working days of the range that fall in it, the sum grows by
   * the range's count, no entry moves, and only years with a counted day are added.
   */
  lemma {:induction false} TallyRangeFacts(cal: Calendar, holidays: iset<Day>, lo: Day, hi: Day, t: Tally)
    ensures forall y :: Get(TallyRange(cal, holidays, lo, hi, t), y) == Get(t, y) + CountWorkingIn(cal, holidays, lo, hi, y)
    ensures Total(TallyRange(cal, holidays, lo, hi, t)) == Total(t) + CountWorking(holidays, lo, hi)
    ensures forall y :: y in Years(TallyRange(cal, holidays, lo, hi, t)) <==>
      y in Years(t) || CountWorkingIn(cal, holidays, lo, hi, y) > 0
    ensures |TallyRange(cal, holidays, lo, hi, t)| >= |t|
    ensures forall i :: 0 <= i < |t| ==> TallyRange(cal, holidays, lo, hi, t)[i].year == t[i].year
    ensures DistinctYears(t) ==> DistinctYears(TallyRange(cal, holidays, lo, hi, t))
    decreases hi - lo
  {
    if hi > lo {
      TallyRangeFacts(cal, holidays, lo, hi - 1, t);
      var before := TallyRange(cal, holidays, lo, hi - 1, t);
      if IsWorkingDay(hi - 1, holidays) {
        BumpFacts(before, cal.yearOf(hi - 1));
      }
    }
  }

  /**
   * compute_working_days_in_vacation: walks `range(0, (end - start).days)`, so the
   * end day itself is not visited, and bumps the year of every working day.
   */
  method ComputeWorkingDaysInVacation(cal: Calendar, holidays: iset<Day>, start: Day, end: Day, byYear: Tally)
    returns (count: nat, byYear': Tally)
    ensures count == |WorkingDaySet(holidays, start, end)|
    ensures count <= if start <= end then end - start else 0
    ensures byYear' == TallyRange(cal, holidays, start, end, byYear)
    ensures forall y :: Get(byYear', y) == Get(byYear, y) + CountWorkingIn(cal, holidays, start, end, y)
    ensures Total(byYear') == Total(byYear) + count
    ensures forall y :: y in Years(byYear') <==> y in Years(byYear) || CountWorkingIn(cal, holidays, start, end, y) > 0
  {
    count := 0;
    byYear' := byYear;
    var x := 0;
    var days := end - start;
    while x < days
      invariant 0 <= x <= if days < 0 then 0 else days
      invariant count == CountWorking(holidays, start, start + x)
      invariant byYear' == TallyRange(cal, holidays, start, start + x, byYear)
    {
      var date := start + x;
      if IsWorkingDay(date, holidays) {
        count := count + 1;
        byYear' := Bump(byYear', cal.yearOf(date));
      }
      x := x + 1;
    }
    assert start + x == end || days <= 0;
    if days <= 0 {
      assert CountWorking(holidays, start, end) == 0;
      assert TallyRange(cal, holidays, start, end, byYear) == byYear;
    }
    CountWorkingIsSetSize(holidays, start, end);
    TallyRangeFacts(cal, holidays, start, end, byYear);
  }
}
