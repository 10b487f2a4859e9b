/** `Schedule`: the ordered list of days on which a periodic event fires,
    built from a recurrence rule anchored at a start date or taken from an
    explicit list of dates, and the `onSchedule` query. */
module Schedules {
  import opened Wrappers
  import opened Calendar

  /** The five rule names a schedule accepts. */
  datatype Rule = Yearly | Monthly | Weekly | Biweekly | Daily

  function RuleName(r: Rule): string
  {
    match r
    case Yearly => "yearly"
    case Monthly => "monthly"
    case Weekly => "weekly"
    case Biweekly => "biweekly"
    case Daily => "daily"
  }

  /** Looks a rule name up; any other name is the configuration error
      FinSim raises while building the schedule. */
  function ParseRule(name: string): (r: Option<Rule>)
  {
    if name == "yearly" then Some(Yearly)
    else if name == "monthly" then Some(Monthly)
    else if name == "weekly" then Some(Weekly)
    else if name == "biweekly" then Some(Biweekly)
    else if name == "daily" then Some(Daily)
    else None
  }

  /** Parsing accepts exactly the five rule names, each naming its rule. */
  lemma ParseRuleNames(name: string, r: Rule)
    ensures ParseRule(RuleName(r)) == Some(r)
    ensures ParseRule(name) == Some(r) ==> name == RuleName(r)
  {
  }

  /** The `divs` table: how many occurrences a rule has in a year. */
  function PerYear(r: Rule): int
  {
    match r
    case Yearly => 365
    case Monthly => 12
    case Weekly => 52
    case Biweekly => 26
    case Daily => 1
  }

  /** `count=36500/divs[rule]`: a float count, which the recurrence counts
      down one occurrence at a time, so only its whole part is reached. */
  function Count(r: Rule): nat
  {
    36500 / PerYear(r)
  }

  predicate Increasing(s: seq<int>)
  {
    forall i, j :: 0 <= i < j < |s| ==> s[i] < s[j]
  }

  datatype Schedule = Schedule(occurrences: seq<int>)

  /** `n` days, `step` apart, from day `first`. */
  function Progression(first: int, step: nat, n: nat): seq<int>
  {
    seq(n, k => first + k * step)
  }

  /** The day `dom` of every month from (y, m) on, skipping the months that
      have no such day, `n` of them. */
  function MonthlyFrom(y: int, m: int, dom: int, n: nat): seq<int>
    requires y >= 1 && 1 <= m <= 12 && 1 <= dom <= 31
    decreases n, if dom <= DaysInMonth(y, m) then 0 else 1
  {
    if n == 0 then []
    else
      var (ny, nm) := NextMonth(y, m);
      if dom <= DaysInMonth(y, m) then [Ordinal(Date(y, m, dom))] + MonthlyFrom(ny, nm, dom, n - 1)
      else MonthlyFrom(ny, nm, dom, n)
  }

  /** Month `m`, day `dom` of every year from `y` on, skipping the years
      that have no such day (February 29 outside leap years), `n` of them. */
  function YearlyFrom(y: int, m: int, dom: int, n: nat): seq<int>
    requires y >= 1 && 1 <= m <= 12 && 1 <= dom <= DaysInMonth(2000, m)
    decreases n, if dom <= DaysInMonth(y, m) then 0 else 400 - y % 400
  {
    if n == 0 then []
    else if dom <= DaysInMonth(y, m) then [Ordinal(Date(y, m, dom))] + YearlyFrom(y + 1, m, dom, n - 1)
    else
      MissingYearDay(y, m, dom);
      YearlyFrom(y + 1, m, dom, n)
  }

  /** The schedule a rule name builds from its start date. */
  function FromRule(r: Rule, start: Date): Schedule
    requires start.Valid()
  {
    var first := Ordinal(start);
    match r
    case Daily => Schedule(Progression(first, 1, Count(r)))
    case Weekly => Schedule(Progression(first, 7, Count(r)))
    case Biweekly => Schedule(Progression(first, 14, Count(r)))
    case Monthly => Schedule(MonthlyFrom(start.year, start.month, start.day, Count(r)))
    case Yearly => Schedule(YearlyFrom(start.year, start.month, start.day, Count(r)))
  }

  /** The schedule of an explicit list of dates: the list as given. */
  function FromDates(days: seq<int>): Schedule
  {
    Schedule(days)
  }

  /** Position of the first occurrence of `x`, as `list.index` finds it. */
  function IndexOf(s: seq<int>, x: int): (k: nat)
    requires x in s
    ensures k < |s| && s[k] == x
    ensures forall j :: 0 <= j < k ==> s[j] != x
  {
    if s[0] == x then 0 else 1 + IndexOf(s[1..], x)
  }

  /** `onSchedule`: for a firing day, the window (first day, last day) of
      days since the previous firing; for any other day, nothing. */
  function OnSchedule(s: Schedule, day: int): (r: Option<(int, int)>)
    ensures r.Some? <==> day in s.occurrences
    ensures r.Some? ==> r.value.1 == day
  {
    if day in s.occurrences then
      var k := IndexOf(s.occurrences, day);
      if k != 0 then Some((s.occurrences[k - 1] + 1, s.occurrences[k]))
      else Some((s.occurrences[0], s.occurrences[0]))
    else None
  }

  // ---------------------------------------------------------------------
  // Properties of the generated occurrence lists

  lemma IncreasingCons(x: int, s: seq<int>)
    requires Increasing(s)
    requires forall i :: 0 <= i < |s| ==> x < s[i]
    ensures Increasing([x] + s)
  {
    var t := [x] + s;
    forall i, j | 0 <= i < j < |t| ensures t[i] < t[j] {
      if i > 0 {
        assert t[i] == s[i - 1] && t[j] == s[j - 1];
      } else {
        assert t[j] == s[j - 1];
      }
    }
  }

  lemma ProgressionIncreasing(first: int, step: nat, n: nat)
    requires step > 0
    ensures |Progression(first, step, n)| == n
    ensures Increasing(Progression(first, step, n))
    ensures n > 0 ==> Progression(first, step, n)[0] == first
  {
    var s := Progression(first, step, n);
    forall i, j | 0 <= i < j < n ensures s[i] < s[j] {
      assert j * step == i * step + (j - i) * step;
      assert (j - i) * step > 0;
    }
  }

  lemma {:induction false} MonthlyShape(y: int, m: int, dom: int, n: nat)
    requires y >= 1 && 1 <= m <= 12 && 1 <= dom <= 31
    decreases n, if dom <= DaysInMonth(y, m) then 0 else 1
    ensures var s := MonthlyFrom(y, m, dom, n);
            |s| == n && Increasing(s) && forall i :: 0 <= i < |s| ==> MonthBase(y, m) < s[i]
  {
    if n > 0 {
      var (ny, nm) := NextMonth(y, m);
      NextMonthBase(y, m);
      var rest := if dom <= DaysInMonth(y, m) then n - 1 else n;
      MonthlyShape(ny, nm, dom, rest);
      if dom <= DaysInMonth(y, m) {
        IncreasingCons(Ordinal(Date(y, m, dom)), MonthlyFrom(ny, nm, dom, n - 1));
      }
    }
  }

  /** Only February 29 can be missing from a year, and never from two
      years in a row whose second is a multiple of 400. */
  lemma MissingYearDay(y: int, m: int, dom: int)
    requires y >= 1 && 1 <= m <= 12 && 1 <= dom <= DaysInMonth(2000, m)
    requires DaysInMonth(y, m) < dom
    ensures m == 2 && dom == 29 && !IsLeap(y)
    ensures DaysInMonth(y + 1, m) < dom ==> 400 - (y + 1) % 400 < 400 - y % 400
  {
    if DaysInMonth(y + 1, m) < dom {
      assert !IsLeap(y + 1);
      CycleLeap(y + 1);
      CycleStep(y);
    }
  }

  /** A year that starts a 400-year cycle is a leap year. */
  lemma CycleLeap(y: int)
    ensures y % 400 == 0 ==> IsLeap(y)
  {
    Multiples(y);
  }

  /** Within a 400-year cycle the position in the cycle grows by one each
      year, until the cycle ends. */
  lemma CycleStep(y: int)
    requires (y + 1) % 400 != 0
    ensures (y + 1) % 400 == y % 400 + 1
  {
    var q := y / 400;
    var r := y % 400;
    assert y == 400 * q + r;
    assert y + 1 == 400 * q + (r + 1);
  }

  lemma {:induction false} YearlyShape(y: int, m: int, dom: int, n: nat)
    requires y >= 1 && 1 <= m <= 12 && 1 <= dom <= DaysInMonth(2000, m)
    decreases n, if dom <= DaysInMonth(y, m) then 0 else 400 - y % 400
    ensures var s := YearlyFrom(y, m, dom, n);
            |s| == n && Increasing(s) && forall i :: 0 <= i < |s| ==> DaysBeforeYear(y) < s[i]
  {
    if n == 0 {
    } else if dom <= DaysInMonth(y, m) {
      YearStep(y);
      YearlyShape(y + 1, m, dom, n - 1);
      OrdinalInYear(Date(y, m, dom));
      IncreasingCons(Ordinal(Date(y, m, dom)), YearlyFrom(y + 1, m, dom, n - 1));
    } else {
      YearStep(y);
      MissingYearDay(y, m, dom);
      YearlyShape(y + 1, m, dom, n);
    }
  }

  /** Every rule schedule has `36500/divs` occurrences in increasing order,
      and the first is the start date itself. */
  lemma FromRuleShape(r: Rule, start: Date)
    requires start.Valid()
    ensures var s := FromRule(r, start).occurrences;
            |s| == Count(r) && Increasing(s) && s[0] == Ordinal(start)
  {
    var first := Ordinal(start);
    match r
    case Daily => ProgressionIncreasing(first, 1, Count(r));
    case Weekly => ProgressionIncreasing(first, 7, Count(r));
    case Biweekly => ProgressionIncreasing(first, 14, Count(r));
    case Monthly =>
      MonthlyShape(start.year, start.month, start.day, Count(r));
    case Yearly =>
      YearlyShape(start.year, start.month, start.day, Count(r));
  }

  // ---------------------------------------------------------------------
  // Properties of onSchedule

  /** In an increasing schedule the k-th occurrence fires with the window
      that starts the day after occurrence k-1 (the first occurrence: a
      window of that one day). */
  lemma OnScheduleAt(s: Schedule, k: nat)
    requires Increasing(s.occurrences) && k < |s.occurrences|
    ensures OnSchedule(s, s.occurrences[k])
            == if k == 0 then Some((s.occurrences[0], s.occurrences[0]))
               else Some((s.occurrences[k - 1] + 1, s.occurrences[k]))
  {
    var i := IndexOf(s.occurrences, s.occurrences[k]);
    assert i == k;
  }

  /** Consecutive windows of an increasing schedule are non-empty and leave
      no day out: window k starts the day after window k-1 ends. */
  lemma WindowsTile(s: Schedule, k: nat)
    requires Increasing(s.occurrences) && 0 < k < |s.occurrences|
    ensures var prev := OnSchedule(s, s.occurrences[k - 1]);
            var cur := OnSchedule(s, s.occurrences[k]);
            prev.Some? && cur.Some? && cur.value.0 == prev.value.1 + 1
            && prev.value.0 <= prev.value.1 && cur.value.0 <= cur.value.1
  {
    OnScheduleAt(s, k - 1);
    OnScheduleAt(s, k);
    if k > 1 {
      assert s.occurrences[k - 2] < s.occurrences[k - 1];
    }
  }

  /** A rule schedule fires on its start date with the one-day window of
      that date. */
  lemma FirstFiring(r: Rule, start: Date)
    requires start.Valid()
    ensures OnSchedule(FromRule(r, start), Ordinal(start)) == Some((Ordinal(start), Ordinal(start)))
  {
    FromRuleShape(r, start);
    OnScheduleAt(FromRule(r, start), 0);
  }
}
