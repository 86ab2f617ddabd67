/** What a user's set of activity days adds up to: how many, the longest run, and the notable ones. */
module Days {
  /** A stored day: whether some of its activity was in the small hours, or before the working day. */
  datatype Clock = Clock(nightOwl: bool, earlyBird: bool)

  datatype Totals = Totals(active: int, streak: int, nightOwl: int, earlyBird: int)

  datatype DayRow = DayRow(day: int, clock: Clock)

  const NIGHT_OWL_UNTIL := 5
  const EARLY_BIRD_UNTIL := 8

  function ClockWindows(hour: int): Clock {
    Clock(hour < NIGHT_OWL_UNTIL, NIGHT_OWL_UNTIL <= hour < EARLY_BIRD_UNTIL)
  }

  /** A day was already known to be at least this notable. */
  predicate Covers(known: Clock, clock: Clock) {
    (clock.nightOwl ==> known.nightOwl) && (clock.earlyBird ==> known.earlyBird)
  }

  function Latch(known: Clock, clock: Clock): Clock {
    Clock(known.nightOwl || clock.nightOwl, known.earlyBird || clock.earlyBird)
  }

  // ---- Runs of consecutive days ----

  /** Days start, start+1, ... of a run of length n are all there. */
  ghost predicate IsRun(days: set<int>, start: int, n: nat) {
    forall d :: start <= d < start + n ==> d in days
  }

  ghost predicate HasRun(days: set<int>, n: nat) {
    exists start :: IsRun(days, start, n)
  }

  ghost predicate IsLongestRun(days: set<int>, n: int) {
    n >= 0 && HasRun(days, n) && !HasRun(days, n + 1)
  }

  function Interval(start: int, n: nat): set<int> {
    if n == 0 then {} else Interval(start, n - 1) + {start + n - 1}
  }

  lemma {:induction false} IntervalSize(start: int, n: nat)
    ensures |Interval(start, n)| == n && forall d :: d in Interval(start, n) <==> start <= d < start + n
  {
    if n > 0 {
      IntervalSize(start, n - 1);
    }
  }

  lemma SubsetSize<T>(a: set<T>, b: set<T>)
    requires a <= b
    ensures |a| <= |b|
  {
    assert b == a + (b - a);
  }

  lemma RunFits(days: set<int>, n: nat)
    requires HasRun(days, n)
    ensures n <= |days|
  {
    var start :| IsRun(days, start, n);
    IntervalSize(start, n);
    forall d | d in Interval(start, n) ensures d in days { }
    SubsetSize(Interval(start, n), days);
  }

  /** The length of the longest run of consecutive days. */
  ghost function LongestRun(days: set<int>): (n: int)
    ensures IsLongestRun(days, n)
  {
    assert IsRun(days, 0, 0);
    var n := Longest(days, |days|);
    assert !HasRun(days, n + 1) by {
      if HasRun(days, n + 1) { RunFits(days, n + 1); }
    }
    n
  }

  /** The length of the longest run that is no longer than n. */
  ghost function Longest(days: set<int>, n: nat): (r: nat)
    requires HasRun(days, 0)
    ensures r <= n && HasRun(days, r) && forall k :: r < k <= n ==> !HasRun(days, k)
  {
    if HasRun(days, n) then n else Longest(days, n - 1)
  }

  lemma RunsShorten(days: set<int>, n: nat, m: nat)
    requires HasRun(days, n) && m <= n
    ensures HasRun(days, m)
  {
    var start :| IsRun(days, start, n);
    assert IsRun(days, start, m);
  }

  lemma LongestRunIsUnique(days: set<int>, n: int)
    requires IsLongestRun(days, n)
    ensures n == LongestRun(days)
  {
    var r := LongestRun(days);
    if n < r { RunsShorten(days, r, n + 1); }
    if r < n { RunsShorten(days, n, r + 1); }
  }

  // ---- Totals ----

  ghost function TotalsOf(days: map<int, Clock>): Totals {
    Totals(|days.Keys|, LongestRun(days.Keys), |Owls(days)|, |Birds(days)|)
  }

  function Owls(days: map<int, Clock>): set<int> {
    set d | d in days && days[d].nightOwl
  }

  function Birds(days: map<int, Clock>): set<int> {
    set d | d in days && days[d].earlyBird
  }

  /** Recording a day, or latching a flag onto a known one, never lowers any total. */
  lemma RecordingNeverLowers(days: map<int, Clock>, day: int, clock: Clock)
    requires day in days ==> Covers(clock, days[day])
    ensures
      var before, after := TotalsOf(days), TotalsOf(days[day := clock]);
      before.active <= after.active && before.streak <= after.streak
      && before.nightOwl <= after.nightOwl && before.earlyBird <= after.earlyBird
  {
    var after := days[day := clock];
    SubsetSize(days.Keys, after.Keys);
    SubsetSize(Owls(days), Owls(after));
    SubsetSize(Birds(days), Birds(after));
    var start :| IsRun(days.Keys, start, LongestRun(days.Keys));
    assert IsRun(after.Keys, start, LongestRun(days.Keys));
    if LongestRun(after.Keys) < LongestRun(days.Keys) {
      RunsShorten(after.Keys, LongestRun(days.Keys), LongestRun(after.Keys) + 1);
    }
  }

  // ---- The loop over the stored days ----

  ghost predicate Ordered(rows: seq<DayRow>) {
    && (forall i :: 0 <= i < |rows| ==> rows[i].day > 0)
    && (forall i, j :: 0 <= i < j < |rows| ==> rows[i].day < rows[j].day)
  }

  /** The first n rows, as the set they list. */
  ghost function Listed(rows: seq<DayRow>, n: nat): map<int, Clock>
    requires n <= |rows| && Ordered(rows)
  {
    map d | d in (set i | 0 <= i < n :: rows[i].day) :: ClockOn(rows, n, d)
  }

  ghost function ClockOn(rows: seq<DayRow>, n: nat, d: int): Clock
    requires n <= |rows| && exists i :: 0 <= i < n && rows[i].day == d
  {
    var i :| 0 <= i < n && rows[i].day == d;
    rows[i].clock
  }

  lemma ListedNext(rows: seq<DayRow>, n: nat)
    requires n < |rows| && Ordered(rows)
    ensures Listed(rows, n + 1) == Listed(rows, n)[rows[n].day := rows[n].clock]
    ensures rows[n].day !in Listed(rows, n)
    ensures forall d :: d in Listed(rows, n) ==> 0 < d < rows[n].day && n > 0 && d <= rows[n - 1].day
  {
    hide Listed;
    ListedIs(rows, n);
    ListedIs(rows, n + 1);
    var before, after := Listed(rows, n), Listed(rows, n + 1);
    forall d | d in before ensures d in after && after[d] == before[d] {
      var i :| 0 <= i < n && rows[i].day == d;
    }
    forall d | d in after ensures d in before || d == rows[n].day {
      var i :| 0 <= i < n + 1 && rows[i].day == d;
    }
    assert after.Keys == before.Keys + {rows[n].day};
  }

  /** The listed days are those of the rows, each with its row's clock. */
  lemma ListedIs(rows: seq<DayRow>, n: nat)
    requires n <= |rows| && Ordered(rows)
    ensures forall i :: 0 <= i < n ==> rows[i].day in Listed(rows, n) && Listed(rows, n)[rows[i].day] == rows[i].clock
    ensures forall d :: d in Listed(rows, n) ==> exists i :: 0 <= i < n && rows[i].day == d
  {
  }

  /** A day later than all the others either extends the run that ends the day before, or starts one. */
  lemma LatestDayRun(days: set<int>, day: int, run: nat, streak: nat)
    requires forall d :: d in days ==> d < day
    requires IsRun(days, day - run, run) && day - run - 1 !in days && IsLongestRun(days, streak)
    ensures IsLongestRun(days + {day}, if run + 1 > streak then run + 1 else streak)
  {
    var all, n := days + {day}, if run + 1 > streak then run + 1 else streak;
    if run + 1 > streak {
      assert IsRun(all, day - run, run + 1);
    } else {
      var start :| IsRun(days, start, streak);
      assert IsRun(all, start, streak);
    }
    if HasRun(all, n + 1) {
      var start :| IsRun(all, start, n + 1);
      assert start + n in all;
      if start + n != day {
        assert IsRun(days, start, n + 1);
        RunsShorten(days, n + 1, streak + 1);
      }
    }
  }

  lemma DayAdded(days: map<int, Clock>, day: int, clock: Clock)
    requires day !in days
    ensures
      var after := days[day := clock];
      && after.Keys == days.Keys + {day} && |after.Keys| == |days.Keys| + 1
      && |Owls(after)| == |Owls(days)| + (if clock.nightOwl then 1 else 0)
      && |Birds(after)| == |Birds(days)| + (if clock.earlyBird then 1 else 0)
  {
    OwlsAdded(days, day, clock);
    BirdsAdded(days, day, clock);
  }

  lemma OwlsAdded(days: map<int, Clock>, day: int, clock: Clock)
    requires day !in days
    ensures Owls(days[day := clock]) == Owls(days) + (if clock.nightOwl then {day} else {})
  {
  }

  lemma BirdsAdded(days: map<int, Clock>, day: int, clock: Clock)
    requires day !in days
    ensures Birds(days[day := clock]) == Birds(days) + (if clock.earlyBird then {day} else {})
  {
  }

  lemma NoDays(rows: seq<DayRow>)
    requires Ordered(rows)
    ensures Listed(rows, 0) == map[] && Owls(map[]) == {} && Birds(map[]) == {} && IsLongestRun({}, 0)
  {
    assert IsRun({}, 0, 0);
    if HasRun({}, 1) { RunFits({}, 1); }
  }

  /** What the loop knows after the first n rows: `run` is the run that ends on the last of them. */
  ghost predicate Counted(rows: seq<DayRow>, n: nat, totals: Totals, run: int, previous: int)
    requires n <= |rows| && Ordered(rows)
  {
    var days := Listed(rows, n);
    && |days.Keys| == n && totals.nightOwl == |Owls(days)| && totals.earlyBird == |Birds(days)|
    && IsLongestRun(days.Keys, totals.streak)
    && (if n == 0 then previous == 0 && run == 0 else previous == rows[n - 1].day)
    && run >= 0 && IsRun(days.Keys, previous + 1 - run, run) && previous - run !in days
  }

  lemma CountsOn(rows: seq<DayRow>, n: nat, totals: Totals, run: int, previous: int)
    requires n < |rows| && Ordered(rows) && Counted(rows, n, totals, run, previous)
    ensures
      var DayRow(day, clock) := rows[n];
      var ran := if previous != 0 && day == previous + 1 then run + 1 else 1;
      Counted(rows, n + 1,
              Totals(totals.active, if ran > totals.streak then ran else totals.streak,
                     totals.nightOwl + if clock.nightOwl then 1 else 0, totals.earlyBird + if clock.earlyBird then 1 else 0),
              ran, day)
  {
    hide Listed, Owls, Birds, HasRun;
    var DayRow(day, clock) := rows[n];
    var days := Listed(rows, n);
    ListedNext(rows, n);
    DayAdded(days, day, clock);
    if previous != 0 && day == previous + 1 {
      LatestDayRun(days.Keys, day, run, totals.streak);
    } else {
      assert day - 1 !in days;
      LatestDayRun(days.Keys, day, 0, totals.streak);
    }
  }

  lemma CountingStarts(rows: seq<DayRow>, active: int)
    requires Ordered(rows)
    ensures Counted(rows, 0, Totals(active, 0, 0, 0), 0, 0)
  {
    NoDays(rows);
    assert Listed(rows, 0).Keys == {};
  }

  lemma CountedIsTotal(rows: seq<DayRow>, totals: Totals, run: int, previous: int)
    requires Ordered(rows) && Counted(rows, |rows|, totals, run, previous) && totals.active == |rows|
    ensures totals == TotalsOf(Listed(rows, |rows|))
  {
    LongestRunIsUnique(Listed(rows, |rows|).Keys, totals.streak);
  }

  method ComputeDayTotals(rows: seq<DayRow>) returns (totals: Totals)
    requires Ordered(rows)
    ensures totals == TotalsOf(Listed(rows, |rows|))
  {
    hide Counted, TotalsOf, Listed, Ordered;
    totals := Totals(|rows|, 0, 0, 0);
    var run, previous := 0, 0;
    CountingStarts(rows, |rows|);
    for i := 0 to |rows|
      invariant Counted(rows, i, totals, run, previous) && totals.active == |rows|
    {
      CountsOn(rows, i, totals, run, previous);
      var day := rows[i];
      if day.clock.nightOwl {
        totals := totals.(nightOwl := totals.nightOwl + 1);
      }
      if day.clock.earlyBird {
        totals := totals.(earlyBird := totals.earlyBird + 1);
      }
      if previous != 0 && day.day == previous + 1 {
        run := run + 1;
      } else {
        run := 1;
      }
      previous := day.day;
      if run > totals.streak {
        totals := totals.(streak := run);
      }
    }
    CountedIsTotal(rows, totals, run, previous);
  }
}
