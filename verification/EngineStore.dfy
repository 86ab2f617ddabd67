/** The engine itself: every step rewrites one user's rows inside the event's transaction. */
module EngineStore {
  import opened Activity
  import opened Days
  import opened Engine
  import opened Sets

  const DAY_CRITERIA := [ActiveDays, ActivityStreak, NightOwlDays, EarlyBirdDays]

  function ValueFor(totals: Totals, c: Criteria): (value: int)
    ensures value == DayTotal(totals, c)
  {
    match c
    case ActiveDays => totals.active
    case ActivityStreak => totals.streak
    case NightOwlDays => totals.nightOwl
    case EarlyBirdDays => totals.earlyBird
    case _ => 0
  }

  /** The first n day criteria set to what the totals say, and what they reach awarded. */
  ghost function SetDays(m: Member, totals: Totals, n: nat, catalog: seq<Definition>): Member
    requires n <= |DAY_CRITERIA|
  {
    if n == 0 then m
    else SetAndAward(SetDays(m, totals, n - 1, catalog), DAY_CRITERIA[n - 1], DayTotal(totals, DAY_CRITERIA[n - 1]), catalog)
  }

  lemma EachDayCriteria(m: Member, totals: Totals, catalog: seq<Definition>)
    ensures SetDays(m, totals, 0, catalog) == m
    ensures forall n: nat :: n < |DAY_CRITERIA| ==>
      SetDays(m, totals, n + 1, catalog)
      == SetAndAward(SetDays(m, totals, n, catalog), DAY_CRITERIA[n], DayTotal(totals, DAY_CRITERIA[n]), catalog)
  {
  }

  lemma SetDaysIsAllFour(m: Member, occurredAt: Moment, catalog: seq<Definition>)
    requires !DayKnown(m, occurredAt)
    ensures
      var days := WithDay(m.days, occurredAt);
      EvaluateDays(m, occurredAt, catalog) == SetDays(m.(days := days), TotalsOf(days), 4, catalog)
  {
    hide SetAndAward;
    var m0, totals := m.(days := WithDay(m.days, occurredAt)), TotalsOf(WithDay(m.days, occurredAt));
    var m1 := SetAndAward(m0, ActiveDays, totals.active, catalog);
    assert SetDays(m0, totals, 0, catalog) == m0;
    assert SetDays(m0, totals, 1, catalog) == m1;
    var m2 := SetAndAward(m1, ActivityStreak, totals.streak, catalog);
    assert SetDays(m0, totals, 2, catalog) == m2;
    var m3 := SetAndAward(m2, NightOwlDays, totals.nightOwl, catalog);
    assert SetDays(m0, totals, 3, catalog) == m3;
  }

  // ---- The tiers reached, one definition at a time ----

  function ReachedBelow(catalog: seq<Definition>, c: Criteria, count: int, n: nat): set<int>
    requires n <= |catalog|
  {
    set i | 0 <= i < n && catalog[i].criteria == c && catalog[i].threshold <= count
  }

  lemma ReachedNext(held: set<int>, catalog: seq<Definition>, c: Criteria, count: int, n: nat)
    requires n < |catalog|
    ensures
      held + ReachedBelow(catalog, c, count, n + 1) == (held + ReachedBelow(catalog, c, count, n))
        + (if catalog[n].criteria == c && catalog[n].threshold <= count then {n} else {})
  {
  }

  lemma ReachedEnds(held: set<int>, catalog: seq<Definition>, c: Criteria, count: int)
    ensures held + ReachedBelow(catalog, c, count, 0) == held
    ensures ReachedBelow(catalog, c, count, |catalog|) == Reached(catalog, c, count)
  {
  }

  // ---- The days in date order ----

  predicate IsLeast(days: set<int>, d: int) {
    d in days && forall e :: e in days ==> d <= e
  }

  lemma LeastDay(days: set<int>)
    requires days != {}
    ensures exists d :: IsLeast(days, d)
    decreases |days|
  {
    Inhabited(days);
    var d :| d in days;
    var rest := days - {d};
    assert |rest| < |days|;
    if rest == {} {
      assert forall e :: e in days ==> e in rest || e == d;
      assert IsLeast(days, d);
    } else {
      LeastDay(rest);
      var l :| IsLeast(rest, l);
      assert forall e :: e in days ==> e in rest || e == d;
      assert IsLeast(days, if l < d then l else d);
    }
  }

  lemma ListedSuffices(rows: seq<DayRow>, days: map<int, Clock>)
    requires Ordered(rows)
    requires forall i :: 0 <= i < |rows| ==> rows[i].day in days && days[rows[i].day] == rows[i].clock
    requires Covered(rows, days.Keys, {})
    ensures Listed(rows, |rows|) == days
  {
    var all := Listed(rows, |rows|);
    forall d | d in days ensures d in all { }
    forall d | d in all ensures d in days && all[d] == days[d] {
      var i :| 0 <= i < |rows| && rows[i].day == d;
    }
    assert all.Keys == days.Keys;
  }

  /** Every day but those left has its row. */
  ghost predicate Covered(rows: seq<DayRow>, days: set<int>, left: set<int>) {
    forall d :: d in days && d !in left ==> exists i :: 0 <= i < |rows| && rows[i].day == d
  }

  ghost predicate Before(rows: seq<DayRow>, left: set<int>) {
    forall i, d :: 0 <= i < |rows| && d in left ==> rows[i].day < d
  }

  lemma NoRows(days: set<int>)
    ensures Ordered([]) && Before([], days) && Covered([], days, days)
  {
  }

  lemma OneMoreDay(rows: seq<DayRow>, row: DayRow, left: set<int>)
    requires Ordered(rows) && Before(rows, left) && IsLeast(left, row.day) && row.day > 0
    ensures Ordered(rows + [row]) && Before(rows + [row], left - {row.day})
  {
  }

  lemma OneMoreRow(rows: seq<DayRow>, row: DayRow, days: set<int>, left: set<int>)
    requires Covered(rows, days, left)
    ensures Covered(rows + [row], days, left - {row.day})
  {
    var more := rows + [row];
    assert more[|rows|] == row;
    forall d | d in days && d !in left ensures exists i :: 0 <= i < |more| && more[i].day == d {
      var i :| 0 <= i < |rows| && rows[i].day == d;
      assert more[i].day == d;
    }
  }

  method InDateOrder(days: map<int, Clock>) returns (rows: seq<DayRow>)
    requires forall d :: d in days ==> d > 0
    ensures Ordered(rows) && Listed(rows, |rows|) == days
  {
    hide Ordered, Before, Covered, Listed;
    rows := [];
    var left := days.Keys;
    NoRows(days.Keys);
    while left != {}
      invariant left <= days.Keys && Ordered(rows) && Before(rows, left)
      invariant forall i :: 0 <= i < |rows| ==> rows[i].day in days && days[rows[i].day] == rows[i].clock
      invariant Covered(rows, days.Keys, left)
      decreases |left|
    {
      LeastDay(left);
      var day :| IsLeast(left, day);
      OneMoreRow(rows, DayRow(day, days[day]), days.Keys, left);
      OneMoreDay(rows, DayRow(day, days[day]), left);
      rows := rows + [DayRow(day, days[day])];
      left := left - {day};
    }
    ListedSuffices(rows, days);
  }

  // ---- The tables ----

  class Tables {
    const catalog: seq<Definition>
    const excluded: set<int>
    var processed: set<string>
    var members: map<int, Member>

    constructor (catalog: seq<Definition>, excluded: set<int>)
      ensures this.catalog == catalog && this.excluded == excluded && Valid() && Contents() == Store({}, map[])
    {
      this.catalog, this.excluded := catalog, excluded;
      processed, members := {}, map[];
    }

    ghost predicate Valid()
      reads this
    {
      forall user, day :: user in members && day in members[user].days ==> day > 0
    }

    ghost function Contents(): Store
      reads this
    {
      Store(processed, members)
    }

    method UpsertUser(user: int)
      requires Valid()
      modifies this
      ensures Valid() && processed == old(processed)
      ensures members == if user in old(members) then old(members) else old(members)[user := NEWCOMER]
    {
      if user !in members {
        members := members[user := NEWCOMER];
      }
    }

    method IncrementCounter(user: int, c: Criteria, weight: int) returns (count: int)
      requires Valid() && user in members
      modifies this
      ensures Valid() && processed == old(processed) && count == Count(old(members[user]), c) + weight
      ensures members == old(members)[user := old(members[user]).(counters := old(members[user].counters)[c := count])]
    {
      var m := members[user];
      var counter := if c in m.counters then m.counters[c] else 0;
      count := counter + weight;
      members := members[user := m.(counters := m.counters[c := count])];
    }

    method SetCounter(user: int, c: Criteria, value: int)
      requires Valid() && user in members
      modifies this
      ensures Valid() && processed == old(processed)
      ensures members == old(members)[user := old(members[user]).(counters := old(members[user].counters)[c := value])]
    {
      ghost var m := members[user];
      if c !in members[user].counters {
        members := members[user := members[user].(counters := members[user].counters[c := 0])];
      }
      assert members[user].counters[c := value] == m.counters[c := value];
      if members[user].counters[c] == value {
        assert members[user].counters == m.counters[c := value];
        assert members == old(members)[user := m.(counters := m.counters[c := value])];
        return;
      }
      members := members[user := members[user].(counters := members[user].counters[c := value])];
    }

    /** A user holds a tier once, however often it is reached. */
    method CreateAward(user: int, definition: int) returns (created: bool)
      requires Valid() && user in members
      modifies this
      ensures Valid() && processed == old(processed) && created == (definition !in old(members[user].awards))
      ensures members == old(members)[user := old(members[user]).(awards := old(members[user].awards) + {definition})]
      ensures |members[user].awards| == |old(members[user].awards)| + if created then 1 else 0
    {
      created := definition !in members[user].awards;
      if !created {
        assert members[user].awards + {definition} == members[user].awards;
        return;
      }
      members := members[user := members[user].(awards := members[user].awards + {definition})];
    }

    method AwardReachedTiers(user: int, c: Criteria, count: int) returns (awarded: nat)
      requires Valid() && user in members
      modifies this
      ensures Valid() && processed == old(processed)
      ensures members == old(members)[user := old(members[user]).(awards := old(members[user].awards) + Reached(catalog, c, count))]
      ensures awarded == |members[user].awards| - |old(members[user].awards)|
    {
      hide Reached, ReachedBelow, Valid;
      awarded := 0;
      ghost var m := members[user];
      ReachedEnds(m.awards, catalog, c, count);
      for i := 0 to |catalog|
        invariant Valid() && processed == old(processed) && user in members
        invariant members == old(members)[user := m.(awards := m.awards + ReachedBelow(catalog, c, count, i))]
        invariant awarded == |members[user].awards| - |m.awards|
      {
        ReachedNext(m.awards, catalog, c, count, i);
        if catalog[i].criteria == c && catalog[i].threshold <= count {
          var created := CreateAward(user, i);
          if created {
            awarded := awarded + 1;
          }
        }
      }
    }

    /** Advances a counter and awards what it reaches. */
    method CountAndReach(user: int, c: Criteria, weight: int) returns (awarded: nat)
      requires Valid() && user in members
      modifies this
      ensures Valid() && processed == old(processed)
      ensures members == old(members)[user := SetAndAward(old(members[user]), c, Count(old(members[user]), c) + weight, catalog)]
      ensures awarded == |members[user].awards| - |old(members[user].awards)|
    {
      var count := IncrementCounter(user, c, weight);
      awarded := AwardReachedTiers(user, c, count);
    }

    /** Overwrites a counter and awards what it reaches. */
    method SetAndReach(user: int, c: Criteria, value: int) returns (awarded: nat)
      requires Valid() && user in members
      modifies this
      ensures Valid() && processed == old(processed)
      ensures members == old(members)[user := SetAndAward(old(members[user]), c, value, catalog)]
      ensures awarded == |members[user].awards| - |old(members[user].awards)|
    {
      SetCounter(user, c, value);
      awarded := AwardReachedTiers(user, c, value);
    }

    /** Whether the day was new, or newly notable. */
    method RecordActivityDay(user: int, occurredAt: Moment) returns (changed: bool)
      requires Valid() && user in members
      modifies this
      ensures Valid() && processed == old(processed) && changed == !DayKnown(old(members[user]), occurredAt)
      ensures
        members == if changed then old(members)[user := old(members[user]).(days := WithDay(old(members[user].days), occurredAt))]
                   else old(members)
    {
      if occurredAt.Undated? {
        return false;
      }
      var m, clock := members[user], ClockWindows(occurredAt.hour);
      if occurredAt.day !in m.days {
        members := members[user := m.(days := m.days[occurredAt.day := clock])];
        return true;
      }
      var day := m.days[occurredAt.day];
      if (!clock.nightOwl || day.nightOwl) && (!clock.earlyBird || day.earlyBird) {
        return false;
      }
      members := members[user := m.(days := m.days[occurredAt.day := Clock(day.nightOwl || clock.nightOwl, day.earlyBird || clock.earlyBird)])];
      return true;
    }

    method EvaluateDays(user: int, occurredAt: Moment) returns (awarded: nat)
      requires Valid() && user in members
      modifies this
      ensures Valid() && processed == old(processed)
      ensures members == old(members)[user := Engine.EvaluateDays(old(members[user]), occurredAt, catalog)]
      ensures awarded == |members[user].awards| - |old(members[user].awards)|
    {
      awarded := 0;
      hide TotalsOf, SetAndAward, DayKnown, WithDay, SetDays;
      ghost var m := members[user];
      var changed := RecordActivityDay(user, occurredAt);
      if !changed {
        assert members == members[user := m];
        return;
      }
      awarded := SetDayCounters(user);
      SetDaysIsAllFour(m, occurredAt, catalog);
    }

    /** Recomputes the four day criteria from the user's stored days. */
    method SetDayCounters(user: int) returns (awarded: nat)
      requires Valid() && user in members
      modifies this
      ensures Valid() && processed == old(processed)
      ensures members == old(members)[user := SetDays(old(members[user]), TotalsOf(old(members[user].days)), |DAY_CRITERIA|, catalog)]
      ensures awarded == |members[user].awards| - |old(members[user].awards)|
    {
      hide TotalsOf, SetAndAward, Listed, Ordered, DayTotal, SetDays;
      awarded := 0;
      ghost var m := members[user];
      var rows := InDateOrder(members[user].days);
      var totals := ComputeDayTotals(rows);
      EachDayCriteria(m, totals, catalog);
      for i := 0 to |DAY_CRITERIA|
        invariant Valid() && processed == old(processed) && user in members
        invariant members == old(members)[user := SetDays(m, totals, i, catalog)]
        invariant awarded == |members[user].awards| - |m.awards|
      {
        var earned := SetAndReach(user, DAY_CRITERIA[i], ValueFor(totals, DAY_CRITERIA[i]));
        awarded := awarded + earned;
      }
    }

    method EvaluateProjects(user: int, project: int) returns (awarded: nat)
      requires Valid() && user in members
      modifies this
      ensures Valid() && processed == old(processed)
      ensures members == old(members)[user := Engine.EvaluateProjects(old(members[user]), project, catalog)]
      ensures awarded == |members[user].awards| - |old(members[user].awards)|
    {
      if project <= 0 || project in members[user].projects {
        return 0;
      }
      members := members[user := members[user].(projects := members[user].projects + {project})];
      awarded := SetAndReach(user, ProjectsContributed, |members[user].projects|);
    }

    /** Re-derives a user's EXP from the tiers they hold. */
    method RecomputeExp(user: int)
      requires Valid() && user in members
      modifies this
      ensures Valid() && processed == old(processed)
      ensures members == old(members)[user := old(members[user]).(exp := Earned(catalog, old(members[user])))]
    {
      var total := EarnedExp(user);
      members := members[user := members[user].(exp := total)];
    }

    method EarnedExp(user: int) returns (total: int)
      requires user in members
      ensures total == Earned(catalog, members[user])
    {
      total := 0;
      for i := 0 to |catalog|
        invariant total == HeldExp(catalog, members[user].awards, i)
      {
        if i in members[user].awards {
          total := total + catalog[i].exp;
        }
      }
    }

    method Evaluate(e: Event)
      requires Valid()
      modifies this
      ensures Valid() && processed == old(processed)
      ensures
        var m := if e.actor in old(members) then old(members)[e.actor] else NEWCOMER;
        members == old(members)[e.actor := Engine.Evaluate(m, e, catalog)]
    {
      hide Engine.EvaluateDays, Engine.EvaluateProjects, SetAndAward, Earned;
      UpsertUser(e.actor);
      ghost var m := members[e.actor];
      var awarded := CountAndReach(e.actor, Counted(e.kind), e.Weight());
      if PresentFor(e.kind) {
        var earned := EvaluateDays(e.actor, e.occurredAt);
        awarded := awarded + earned;
      }
      var earned := EvaluateProjects(e.actor, e.project);
      awarded := awarded + earned;
      EvaluationOnlyAwards(m, e, catalog);
      NothingAwarded(m.awards, members[e.actor].awards);
      if awarded == 0 {
        return;
      }
      RecomputeExp(e.actor);
    }

    method EvaluateRepeat(e: Event)
      requires Valid() && e.actor in members
      modifies this
      ensures Valid() && processed == old(processed)
      ensures members == old(members)[e.actor := Engine.EvaluateRepeat(old(members[e.actor]), e, catalog)]
    {
      if e.project <= 0 || e.project in members[e.actor].projects {
        return;
      }
      ghost var m := members[e.actor];
      var awarded := EvaluateProjects(e.actor, e.project);
      NothingAwarded(m.awards, members[e.actor].awards);
      if awarded > 0 {
        RecomputeExp(e.actor);
      }
    }

    method Process(e: Event)
      requires Valid()
      modifies this
      ensures Valid() && Contents() == Engine.Process(old(Contents()), e, catalog, excluded)
    {
      hide Engine.Evaluate, Engine.EvaluateRepeat;
      if e.actor <= 0 || e.actor in excluded {
        return;
      }
      if e.key in processed {
        if e.actor in members {
          EvaluateRepeat(e);
        }
        return;
      }
      processed := processed + {e.key};
      Evaluate(e);
    }

    /** Corrects every stored total, and says how many were wrong. */
    method RecomputeAll() returns (corrected: nat)
      requires Valid()
      modifies this
      ensures Valid() && Contents() == Recomputed(old(Contents()), catalog)
      ensures corrected == |Wrong(old(Contents()), catalog)|
    {
      hide Earned;
      corrected := 0;
      ghost var s := Contents();
      var users := members.Keys;
      while users != {}
        invariant Valid() && processed == old(processed) && users <= s.members.Keys
        invariant members == RecomputedExcept(s, users, catalog)
        invariant corrected == |Wrong(s, catalog) - users|
        decreases |users|
      {
        Inhabited(users);
        var user :| user in users;
        assert members[user] == s.members[user];
        var total := EarnedExp(user);
        OneMoreRight(s, users, user, catalog);
        if members[user].exp != total {
          RecomputeExp(user);
          corrected := corrected + 1;
        }
        users := users - {user};
      }
    }
  }

  /** Every total right but for the users still to be looked at. */
  function RecomputedExcept(s: Store, users: set<int>, catalog: seq<Definition>): map<int, Member> {
    map u | u in s.members :: if u in users then s.members[u] else s.members[u].(exp := Earned(catalog, s.members[u]))
  }

  lemma OneMoreRight(s: Store, users: set<int>, user: int, catalog: seq<Definition>)
    requires user in users && users <= s.members.Keys
    ensures
      var right := s.members[user].(exp := Earned(catalog, s.members[user]));
      && RecomputedExcept(s, users, catalog)[user := right] == RecomputedExcept(s, users - {user}, catalog)
      && (user !in Wrong(s, catalog) ==> RecomputedExcept(s, users, catalog) == RecomputedExcept(s, users - {user}, catalog))
    ensures |Wrong(s, catalog) - (users - {user})| == |Wrong(s, catalog) - users| + if user in Wrong(s, catalog) then 1 else 0
  {
    hide Earned, Wrong;
    OneFewer(Wrong(s, catalog), users, user);
    assert user !in Wrong(s, catalog) ==> s.members[user].exp == Earned(catalog, s.members[user]) by { WrongIs(s, user, catalog); }
  }

  lemma WrongIs(s: Store, user: int, catalog: seq<Definition>)
    requires user in s.members
    ensures user in Wrong(s, catalog) <==> s.members[user].exp != Earned(catalog, s.members[user])
  {
  }

  lemma OneFewer(wrong: set<int>, users: set<int>, user: int)
    requires user in users
    ensures |wrong - (users - {user})| == |wrong - users| + if user in wrong then 1 else 0
  {
    if user in wrong {
      assert wrong - (users - {user}) == (wrong - users) + {user};
    } else {
      assert wrong - (users - {user}) == wrong - users;
    }
  }

  // ---- EXP totals ----

  lemma NothingAwarded(before: set<int>, after: set<int>)
    requires before <= after
    ensures |after| == |before| <==> after == before
  {
    assert |after| == |before| + |after - before| by { assert after == before + (after - before); }
  }

  lemma DatingOnlyAwards(m: Member, occurredAt: Moment, catalog: seq<Definition>)
    ensures m.awards <= Engine.EvaluateDays(m, occurredAt, catalog).awards
  {
    hide TotalsOf, Reached;
  }

  lemma EvaluationOnlyAwards(m: Member, e: Event, catalog: seq<Definition>)
    ensures
      var counted := SetAndAward(m, Counted(e.kind), Count(m, Counted(e.kind)) + e.Weight(), catalog);
      var dated := if PresentFor(e.kind) then Engine.EvaluateDays(counted, e.occurredAt, catalog) else counted;
      m.awards <= Engine.EvaluateProjects(dated, e.project, catalog).awards
  {
    hide Engine.EvaluateDays, Reached;
    var counted := SetAndAward(m, Counted(e.kind), Count(m, Counted(e.kind)) + e.Weight(), catalog);
    DatingOnlyAwards(counted, e.occurredAt, catalog);
  }

  function Wrong(s: Store, catalog: seq<Definition>): set<int> {
    set u | u in s.members && s.members[u].exp != Earned(catalog, s.members[u])
  }

  function Recomputed(s: Store, catalog: seq<Definition>): Store {
    s.(members := map u | u in s.members :: s.members[u].(exp := Earned(catalog, s.members[u])))
  }

  lemma EvaluateIsSettled(m: Member, e: Event, catalog: seq<Definition>)
    requires m.exp == Earned(catalog, m)
    ensures Engine.Evaluate(m, e, catalog).exp == Earned(catalog, Engine.Evaluate(m, e, catalog))
    ensures Engine.EvaluateRepeat(m, e, catalog).exp == Earned(catalog, Engine.EvaluateRepeat(m, e, catalog))
  {
    hide TotalsOf, Reached, HeldExp;
  }

  /** Whatever the events and however the store came about, no event leaves a total wrong that was right. */
  lemma {:induction false} TotalsStayRight(s: Store, events: seq<Event>, n: nat, catalog: seq<Definition>, excluded: set<int>)
    requires n <= |events| && Wrong(s, catalog) == {}
    ensures Wrong(ProcessAll(s, events, n, catalog, excluded), catalog) == {}
  {
    hide Engine.Evaluate, Engine.EvaluateRepeat, Earned;
    if n > 0 {
      TotalsStayRight(s, events, n - 1, catalog, excluded);
      var before, e := ProcessAll(s, events, n - 1, catalog, excluded), events[n - 1];
      forall u | u in before.members ensures before.members[u].exp == Earned(catalog, before.members[u]) {
        assert u !in Wrong(before, catalog);
      }
      assert NEWCOMER.exp == Earned(catalog, NEWCOMER) by { Newcomer(catalog, |catalog|); }
      EvaluateIsSettled(if e.actor in before.members then before.members[e.actor] else NEWCOMER, e, catalog);
    }
  }

  lemma {:induction false} Newcomer(catalog: seq<Definition>, n: nat)
    requires n <= |catalog|
    ensures HeldExp(catalog, {}, n) == 0
    ensures n == |catalog| ==> Earned(catalog, NEWCOMER) == 0
  {
    if n > 0 { Newcomer(catalog, n - 1); }
  }

  /** After any change of rewards, a recomputation rights every total, keeps every user whose total
      was right as they were, and all later events keep it so. */
  lemma RecomputationRestores(s: Store, events: seq<Event>, retuned: seq<Definition>, excluded: set<int>)
    ensures
      var r := Recomputed(s, retuned);
      && Wrong(r, retuned) == {} && r.members.Keys == s.members.Keys
      && (forall u :: u in s.members ==> (u in Wrong(s, retuned) <==> r.members[u] != s.members[u]))
      && Wrong(ProcessAll(r, events, |events|, retuned, excluded), retuned) == {}
  {
    hide HeldExp, Process;
    var r := Recomputed(s, retuned);
    forall u | u in s.members ensures r.members[u].exp == Earned(retuned, r.members[u]) {
      assert Earned(retuned, s.members[u].(exp := 0)) == Earned(retuned, s.members[u]);
    }
    assert Wrong(r, retuned) == {};
    TotalsStayRight(r, events, |events|, retuned, excluded);
  }
}
