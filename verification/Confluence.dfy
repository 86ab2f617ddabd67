/** The engine's result depends only on which distinct activities it saw. The store a sequence of
    events leads to is written down as a function of the set of those events, so neither their order
    nor their repetition can matter. */
module Confluence {
  import opened Activity
  import opened Days
  import opened Engine

  // ---- What a set of events should come to, for one user ----

  ghost function Weights(events: set<Event>): int
    decreases |events|
  {
    if events == {} then 0
    else
      var e :| e in events;
      e.Weight() + Weights(events - {e})
  }

  lemma {:induction false} WeightsAdd(events: set<Event>, e: Event)
    requires e !in events
    ensures Weights(events + {e}) == Weights(events) + e.Weight()
    decreases |events|
  {
    var all := events + {e};
    var x :| x in all && Weights(all) == x.Weight() + Weights(all - {x});
    if x == e {
      assert all - {e} == events;
    } else {
      WeightsAdd(events - {x}, e);
      assert all - {x} == (events - {x}) + {e};
      WeightsAdd(events - {x}, x);
      assert (events - {x}) + {x} == events;
    }
  }

  /** An activity, wherever it happened: the project is all that a repeat may still tell anew. */
  function Anywhere(e: Event): Event {
    e.(project := 0)
  }

  function OfKind(events: set<Event>, kind: Kind): set<Event> {
    set e | e in events && e.kind == kind :: Anywhere(e)
  }

  predicate Repeats(events: set<Event>, e: Event) {
    exists x :: x in events && Anywhere(x) == Anywhere(e)
  }

  /** Events their actor was there for, at a known time. */
  function Dated(events: set<Event>): set<Event> {
    set e | e in events && PresentFor(e.kind) && e.occurredAt.At?
  }

  predicate NightOwlOn(events: set<Event>, day: int) {
    exists e :: e in Dated(events) && e.occurredAt.day == day && ClockWindows(e.occurredAt.hour).nightOwl
  }

  predicate EarlyBirdOn(events: set<Event>, day: int) {
    exists e :: e in Dated(events) && e.occurredAt.day == day && ClockWindows(e.occurredAt.hour).earlyBird
  }

  function ExpectedDays(events: set<Event>): map<int, Clock> {
    map d | d in (set e | e in Dated(events) :: e.occurredAt.day as int) :: Clock(NightOwlOn(events, d), EarlyBirdOn(events, d))
  }

  function ExpectedProjects(events: set<Event>): set<int> {
    set e | e in events && e.project > 0 :: e.project
  }

  ghost function ExpectedCount(events: set<Event>, c: Criteria): int {
    match c
    case Counted(kind) => Weights(OfKind(events, kind))
    case ProjectsContributed => |ExpectedProjects(events)|
    case _ => DayTotal(TotalsOf(ExpectedDays(events)), c)
  }

  predicate IsDayCriteria(c: Criteria) {
    c.ActiveDays? || c.ActivityStreak? || c.NightOwlDays? || c.EarlyBirdDays?
  }

  /** A counter exists once something has been counted towards it. */
  ghost predicate Touched(events: set<Event>, c: Criteria) {
    match c
    case Counted(kind) => OfKind(events, kind) != {}
    case ProjectsContributed => ExpectedProjects(events) != {}
    case _ => ExpectedDays(events) != map[]
  }

  /** The tiers held are exactly those whose threshold the counter reaches. */
  ghost predicate AwardsFollow(m: Member, catalog: seq<Definition>) {
    forall i :: i in m.awards <==>
      0 <= i < |catalog| && catalog[i].criteria in m.counters && catalog[i].threshold <= m.counters[catalog[i].criteria]
  }

  ghost predicate CountersAgree(counters: map<Criteria, int>, events: set<Event>) {
    && (forall c :: c in counters <==> Touched(events, c))
    && (forall c :: c in counters ==> counters[c] == ExpectedCount(events, c))
  }

  /** A user's row of every table, as the set of their events determines it. */
  ghost predicate Agrees(m: Member, events: set<Event>, catalog: seq<Definition>) {
    && CountersAgree(m.counters, events) && AwardsFollow(m, catalog)
    && m.days == ExpectedDays(events) && m.projects == ExpectedProjects(events)
    && m.exp == Earned(catalog, m)
  }

  /** Two rows the same events agree with are the same row. */
  lemma AgreementIsUnique(m: Member, n: Member, events: set<Event>, catalog: seq<Definition>)
    requires Agrees(m, events, catalog) && Agrees(n, events, catalog)
    ensures m == n
  {
    forall c | c in m.counters || c in n.counters ensures c in m.counters && c in n.counters && m.counters[c] == n.counters[c] {
    }
    assert m.counters.Keys == n.counters.Keys;
    assert m.counters == n.counters;
    forall i | i in m.awards || i in n.awards ensures i in m.awards && i in n.awards { }
    assert m.awards == n.awards;
  }

  // ---- One more event ----

  lemma SettingFollows(m: Member, c: Criteria, count: int, catalog: seq<Definition>)
    requires AwardsFollow(m, catalog) && (c in m.counters ==> m.counters[c] <= count)
    ensures AwardsFollow(SetAndAward(m, c, count, catalog), catalog)
  {
  }

  lemma DatedAdd(events: set<Event>, e: Event)
    ensures Dated(events + {e}) == Dated(events) + (if PresentFor(e.kind) && e.occurredAt.At? then {e} else {})
  {
  }

  lemma FlagsAdd(events: set<Event>, e: Event, d: int)
    ensures
      var dated := PresentFor(e.kind) && e.occurredAt.At? && e.occurredAt.day == d;
      && NightOwlOn(events + {e}, d) == (NightOwlOn(events, d) || (dated && ClockWindows(e.occurredAt.hour).nightOwl))
      && EarlyBirdOn(events + {e}, d) == (EarlyBirdOn(events, d) || (dated && ClockWindows(e.occurredAt.hour).earlyBird))
  {
    DatedAdd(events, e);
    forall x | x in Dated(events) ensures x in Dated(events + {e}) { }
    assert PresentFor(e.kind) && e.occurredAt.At? ==> e in Dated(events + {e});
  }

  /** The days a set of events comes to, one event at a time. */
  lemma DaysAdd(events: set<Event>, e: Event)
    ensures
      ExpectedDays(events + {e}) ==
      if PresentFor(e.kind) && e.occurredAt.At? then WithDay(ExpectedDays(events), e.occurredAt) else ExpectedDays(events)
  {
    hide NightOwlOn, EarlyBirdOn;
    DatedAdd(events, e);
    var before, after := ExpectedDays(events), ExpectedDays(events + {e});
    forall d | d in after ensures after[d] == Clock(NightOwlOn(events + {e}, d), EarlyBirdOn(events + {e}, d)) { }
    forall d { FlagsAdd(events, e, d); }
    if PresentFor(e.kind) && e.occurredAt.At? {
      var day := e.occurredAt.day as int;
      assert after.Keys == before.Keys + {day};
      if day !in before {
        NoFlags(events, day);
      }
    }
  }

  lemma NoFlags(events: set<Event>, d: int)
    requires d !in ExpectedDays(events)
    ensures !NightOwlOn(events, d) && !EarlyBirdOn(events, d)
  {
  }

  lemma KnownDayStays(days: map<int, Clock>, occurredAt: Moment)
    requires occurredAt.At? && occurredAt.day in days && Covers(days[occurredAt.day], ClockWindows(occurredAt.hour))
    ensures WithDay(days, occurredAt) == days
  {
  }

  lemma ProjectsAdd(events: set<Event>, e: Event)
    ensures ExpectedProjects(events + {e}) == ExpectedProjects(events) + (if e.project > 0 then {e.project} else {})
  {
  }

  lemma KindsAdd(events: set<Event>, e: Event, kind: Kind)
    ensures OfKind(events + {e}, kind) == OfKind(events, kind) + (if e.kind == kind then {Anywhere(e)} else {})
  {
  }

  lemma OwnKindCounts(events: set<Event>, e: Event)
    requires !Repeats(events, e)
    ensures ExpectedCount(events + {e}, Counted(e.kind)) == ExpectedCount(events, Counted(e.kind)) + e.Weight()
  {
    KindsAdd(events, e, e.kind);
    WeightsAdd(OfKind(events, e.kind), Anywhere(e));
  }

  /** What an event leaves in the counters, before any tier is looked at. */
  lemma CountersAdd(m: Member, events: set<Event>, e: Event, counters: map<Criteria, int>)
    requires CountersAgree(m.counters, events) && !Repeats(events, e)
    requires forall kind :: Counted(kind) in counters <==> Counted(kind) in m.counters || kind == e.kind
    requires forall kind :: kind != e.kind && Counted(kind) in m.counters ==> counters[Counted(kind)] == m.counters[Counted(kind)]
    requires Counted(e.kind) in counters && counters[Counted(e.kind)] == Count(m, Counted(e.kind)) + e.Weight()
    requires forall c: Criteria :: !c.Counted? ==> (c in counters <==> Touched(events + {e}, c))
    requires forall c: Criteria :: !c.Counted? && c in counters ==> counters[c] == ExpectedCount(events + {e}, c)
    ensures CountersAgree(counters, events + {e})
  {
    var all := events + {e};
    OwnKindCounts(events, e);
    KindsAdd(events, e, e.kind);
    forall c: Criteria | c.Counted? ensures (c in counters <==> Touched(all, c)) && (c in counters ==> counters[c] == ExpectedCount(all, c)) {
      KindsAdd(events, e, c.kind);
      assert c == Counted(c.kind);
      if c.kind == e.kind {
        assert Anywhere(e) in OfKind(all, c.kind);
        assert Touched(events, c) <==> c in m.counters;
      } else {
        assert OfKind(all, c.kind) == OfKind(events, c.kind);
        assert Touched(events, c) <==> c in m.counters;
      }
    }
  }

  /** The day part of an evaluation: the four totals are exact, and every tier they reach is held. */
  lemma DaysKeepFollowing(m: Member, occurredAt: Moment, catalog: seq<Definition>)
    requires AwardsFollow(m, catalog)
    requires forall c: Criteria :: IsDayCriteria(c) && c in m.counters ==> m.counters[c] == DayTotal(TotalsOf(m.days), c)
    ensures
      var r := EvaluateDays(m, occurredAt, catalog);
      && AwardsFollow(r, catalog) && r.projects == m.projects && r.exp == m.exp
      && r.days == (if occurredAt.At? then WithDay(m.days, occurredAt) else m.days)
      && (forall c: Criteria :: !IsDayCriteria(c) ==> (c in r.counters <==> c in m.counters) && Count(r, c) == Count(m, c))
      && (forall c: Criteria :: IsDayCriteria(c) ==>
            if DayKnown(m, occurredAt) then (c in r.counters <==> c in m.counters) && Count(r, c) == Count(m, c)
            else c in r.counters && r.counters[c] == DayTotal(TotalsOf(r.days), c))
  {
    hide TotalsOf, Reached, AwardsFollow;
    if DayKnown(m, occurredAt) {
      if occurredAt.At? { KnownDayStays(m.days, occurredAt); }
    } else {
      var days := WithDay(m.days, occurredAt);
      RecordingNeverLowers(m.days, occurredAt.day, days[occurredAt.day]);
      var totals, m0 := TotalsOf(days), m.(days := days);
      FollowingIgnoresDays(m, m0, catalog);
      SettingFollows(m0, ActiveDays, totals.active, catalog);
      var m1 := SetAndAward(m0, ActiveDays, totals.active, catalog);
      SettingFollows(m1, ActivityStreak, totals.streak, catalog);
      var m2 := SetAndAward(m1, ActivityStreak, totals.streak, catalog);
      SettingFollows(m2, NightOwlDays, totals.nightOwl, catalog);
      var m3 := SetAndAward(m2, NightOwlDays, totals.nightOwl, catalog);
      SettingFollows(m3, EarlyBirdDays, totals.earlyBird, catalog);
    }
  }

  lemma FollowingIgnoresDays(m: Member, n: Member, catalog: seq<Definition>)
    requires AwardsFollow(m, catalog) && n.counters == m.counters && n.awards == m.awards
    ensures AwardsFollow(n, catalog)
  {
  }

  lemma ProjectsKeepFollowing(m: Member, project: int, catalog: seq<Definition>)
    requires AwardsFollow(m, catalog)
    requires ProjectsContributed in m.counters ==> m.counters[ProjectsContributed] == |m.projects|
    ensures
      var r := EvaluateProjects(m, project, catalog);
      && AwardsFollow(r, catalog) && r.days == m.days && r.exp == m.exp
      && r.projects == m.projects + (if project > 0 then {project} else {})
      && (forall c: Criteria :: !c.ProjectsContributed? ==> (c in r.counters <==> c in m.counters) && Count(r, c) == Count(m, c))
      && (if project <= 0 || project in m.projects then r.counters == m.counters
          else ProjectsContributed in r.counters && r.counters[ProjectsContributed] == |r.projects|)
  {
    if project > 0 && project !in m.projects {
      FollowingIgnoresDays(m, m.(projects := m.projects + {project}), catalog);
      SettingFollows(m.(projects := m.projects + {project}), ProjectsContributed, |m.projects + {project}|, catalog);
    }
  }

  /** EXP is only re-derived when something was awarded, and is right all the same. */
  lemma SettlingAgrees(before: Member, after: Member, events: set<Event>, catalog: seq<Definition>)
    requires before.exp == Earned(catalog, before) && after.exp == before.exp
    requires CountersAgree(after.counters, events) && AwardsFollow(after, catalog)
    requires after.days == ExpectedDays(events) && after.projects == ExpectedProjects(events)
    ensures Agrees(Settle(before, after, catalog), events, catalog)
  {
    hide CountersAgree, ExpectedDays, ExpectedProjects;
    assert Earned(catalog, after.(exp := Earned(catalog, after))) == Earned(catalog, after);
    assert AwardsFollow(after.(exp := Earned(catalog, after)), catalog);
  }

  function CountEvent(m: Member, e: Event, catalog: seq<Definition>): Member {
    SetAndAward(m, Counted(e.kind), Count(m, Counted(e.kind)) + e.Weight(), catalog)
  }

  ghost function DateEvent(m: Member, e: Event, catalog: seq<Definition>): Member {
    if PresentFor(e.kind) then EvaluateDays(m, e.occurredAt, catalog) else m
  }

  lemma EvaluateIsItsSteps(m: Member, e: Event, catalog: seq<Definition>)
    ensures
      Evaluate(m, e, catalog)
      == Settle(m, EvaluateProjects(DateEvent(CountEvent(m, e, catalog), e, catalog), e.project, catalog), catalog)
  {
    hide EvaluateDays, EvaluateProjects, Settle, SetAndAward;
  }

  lemma CountingFollows(m: Member, e: Event, catalog: seq<Definition>)
    requires AwardsFollow(m, catalog)
    ensures AwardsFollow(CountEvent(m, e, catalog), catalog)
  {
    WeightIsPositive(e);
    SettingFollows(m, Counted(e.kind), Count(m, Counted(e.kind)) + e.Weight(), catalog);
  }

  lemma DatingAgrees(m: Member, events: set<Event>, e: Event, catalog: seq<Definition>)
    requires Agrees(m, events, catalog)
    ensures
      var counted := CountEvent(m, e, catalog);
      var r := DateEvent(counted, e, catalog);
      && AwardsFollow(r, catalog) && r.projects == m.projects && r.exp == m.exp && r.days == ExpectedDays(events + {e})
      && (forall c: Criteria :: !IsDayCriteria(c) ==> (c in r.counters <==> c in counted.counters) && Count(r, c) == Count(counted, c))
      && (forall c: Criteria :: IsDayCriteria(c) ==>
            if !PresentFor(e.kind) || DayKnown(counted, e.occurredAt) then (c in r.counters <==> c in counted.counters) && Count(r, c) == Count(counted, c)
            else c in r.counters && r.counters[c] == DayTotal(TotalsOf(r.days), c))
  {
    hide TotalsOf, AwardsFollow, EvaluateDays, ExpectedDays, ExpectedProjects, Earned, Reached, Weights;
    var counted := CountEvent(m, e, catalog);
    CountingFollows(m, e, catalog);
    DaysAdd(events, e);
    forall c: Criteria | IsDayCriteria(c) && c in counted.counters
      ensures counted.counters[c] == DayTotal(TotalsOf(counted.days), c)
    {
      assert c in m.counters;
    }
    DaysKeepFollowing(counted, e.occurredAt, catalog);
  }

  /** A new event takes a user's row to what the set with that event in it comes to. */
  lemma {:induction false} EvaluateAgrees(m: Member, events: set<Event>, e: Event, catalog: seq<Definition>)
    requires Agrees(m, events, catalog) && !Repeats(events, e)
    ensures Agrees(Evaluate(m, e, catalog), events + {e}, catalog)
  {
    hide Weights, TotalsOf, AwardsFollow, DateEvent, EvaluateDays, EvaluateProjects, Evaluate, Settle, Earned, ExpectedDays, ExpectedProjects;
    hide ExpectedCount, Touched, DayKnown, Reached, CountersAgree, CountEvent;
    var all := events + {e};
    var dated := DateEvent(CountEvent(m, e, catalog), e, catalog);
    var placed := EvaluateProjects(dated, e.project, catalog);
    PlacingAgrees(m, events, e, catalog);
    SettlingAgrees(m, placed, all, catalog);
    EvaluateIsItsSteps(m, e, catalog);
  }

  /** Everything but EXP is right once the event has been counted, dated and placed. */
  lemma PlacingAgrees(m: Member, events: set<Event>, e: Event, catalog: seq<Definition>)
    requires Agrees(m, events, catalog) && !Repeats(events, e)
    ensures
      var r, all := EvaluateProjects(DateEvent(CountEvent(m, e, catalog), e, catalog), e.project, catalog), events + {e};
      && CountersAgree(r.counters, all) && AwardsFollow(r, catalog) && r.exp == m.exp
      && r.days == ExpectedDays(all) && r.projects == ExpectedProjects(all)
  {
    hide Weights, TotalsOf, AwardsFollow, DateEvent, EvaluateDays, EvaluateProjects, Earned, ExpectedDays, ExpectedProjects;
    hide ExpectedCount, Touched, DayKnown, Reached, CountersAgree, CountEvent;
    var counted := CountEvent(m, e, catalog);
    var dated := DateEvent(counted, e, catalog);
    CountingTouchesOne(m, e, catalog);
    DatingAgrees(m, events, e, catalog);
    ProjectsCounted(m, counted, dated, events);
    ProjectsKeepFollowing(dated, e.project, catalog);
    ProjectsAdd(events, e);
    CountersPlaced(m, events, e, counted, dated, EvaluateProjects(dated, e.project, catalog));
  }

  lemma CountingTouchesOne(m: Member, e: Event, catalog: seq<Definition>)
    ensures
      var r := CountEvent(m, e, catalog);
      && r.days == m.days && r.projects == m.projects && OneCounted(m, r, e)
  {
  }

  /** Only the event's own kind has been counted. */
  ghost predicate OneCounted(m: Member, counted: Member, e: Event) {
    && counted.days == m.days
    && Counted(e.kind) in counted.counters && Count(counted, Counted(e.kind)) == Count(m, Counted(e.kind)) + e.Weight()
    && (forall c: Criteria :: c != Counted(e.kind) ==> (c in counted.counters <==> c in m.counters) && Count(counted, c) == Count(m, c))
  }

  lemma CountersPlaced(m: Member, events: set<Event>, e: Event, counted: Member, dated: Member, placed: Member)
    requires CountersAgree(m.counters, events) && !Repeats(events, e) && OneCounted(m, counted, e)
    requires m.days == ExpectedDays(events) && dated.days == ExpectedDays(events + {e})
    requires m.projects == dated.projects == ExpectedProjects(events) && placed.projects == ExpectedProjects(events + {e})
    requires forall c: Criteria :: !IsDayCriteria(c) ==> (c in dated.counters <==> c in counted.counters) && Count(dated, c) == Count(counted, c)
    requires forall c: Criteria :: IsDayCriteria(c) ==>
      if !PresentFor(e.kind) || DayKnown(counted, e.occurredAt) then (c in dated.counters <==> c in counted.counters) && Count(dated, c) == Count(counted, c)
      else c in dated.counters && dated.counters[c] == DayTotal(TotalsOf(dated.days), c)
    requires forall c: Criteria :: !c.ProjectsContributed? ==> (c in placed.counters <==> c in dated.counters) && Count(placed, c) == Count(dated, c)
    requires
      if e.project <= 0 || e.project in dated.projects then placed.counters == dated.counters
      else ProjectsContributed in placed.counters && placed.counters[ProjectsContributed] == |placed.projects|
    ensures CountersAgree(placed.counters, events + {e})
  {
    hide ExpectedCount, Touched, DayKnown, CountersAgree, ExpectedDays, ExpectedProjects, TotalsOf, Repeats;
    ProjectCounterAdds(m, dated, placed, events, e);
    DayCountersUnchanged(m, counted, events);
    DayCountersAdd(counted, dated, placed, events, e);
    CountersAdd(m, events, e, placed.counters);
  }

  lemma ProjectsCounted(m: Member, counted: Member, dated: Member, events: set<Event>)
    requires CountersAgree(m.counters, events) && m.projects == dated.projects == ExpectedProjects(events)
    requires forall c: Criteria :: c.ProjectsContributed? ==> (c in dated.counters <==> c in m.counters) && Count(dated, c) == Count(m, c)
    ensures ProjectsContributed in dated.counters ==> dated.counters[ProjectsContributed] == |dated.projects|
  {
    assert ProjectsContributed in dated.counters <==> ProjectsContributed in m.counters;
    if ProjectsContributed in m.counters {
      assert m.counters[ProjectsContributed] == ExpectedCount(events, ProjectsContributed);
    }
  }

  lemma DayCountersUnchanged(m: Member, counted: Member, events: set<Event>)
    requires CountersAgree(m.counters, events)
    requires forall c: Criteria :: IsDayCriteria(c) ==> (c in counted.counters <==> c in m.counters) && Count(counted, c) == Count(m, c)
    ensures forall c: Criteria :: IsDayCriteria(c) ==> (c in counted.counters <==> Touched(events, c))
    ensures forall c: Criteria :: IsDayCriteria(c) && c in counted.counters ==> counted.counters[c] == ExpectedCount(events, c)
  {
    hide Touched, ExpectedCount;
    forall c: Criteria | IsDayCriteria(c) && c in counted.counters ensures counted.counters[c] == ExpectedCount(events, c) {
      assert Count(counted, c) == Count(m, c);
    }
  }

  lemma ProjectCounterAdds(m: Member, dated: Member, placed: Member, events: set<Event>, e: Event)
    requires CountersAgree(m.counters, events) && m.projects == dated.projects == ExpectedProjects(events)
    requires placed.projects == ExpectedProjects(events + {e})
    requires ProjectsContributed in dated.counters <==> ProjectsContributed in m.counters
    requires Count(dated, ProjectsContributed) == Count(m, ProjectsContributed)
    requires
      if e.project <= 0 || e.project in dated.projects then placed.counters == dated.counters
      else ProjectsContributed in placed.counters && placed.counters[ProjectsContributed] == |placed.projects|
    ensures ProjectsContributed in placed.counters <==> Touched(events + {e}, ProjectsContributed)
    ensures ProjectsContributed in placed.counters ==> placed.counters[ProjectsContributed] == ExpectedCount(events + {e}, ProjectsContributed)
  {
    ProjectsAdd(events, e);
    assert Touched(events, ProjectsContributed) <==> ProjectsContributed in m.counters;
    if e.project <= 0 || e.project in dated.projects {
      assert ExpectedProjects(events + {e}) == ExpectedProjects(events);
    } else {
      assert e.project in ExpectedProjects(events + {e});
    }
  }

  lemma DayCountersAdd(counted: Member, dated: Member, placed: Member, events: set<Event>, e: Event)
    requires counted.days == ExpectedDays(events) && dated.days == ExpectedDays(events + {e})
    requires forall c: Criteria :: IsDayCriteria(c) ==> (c in counted.counters <==> Touched(events, c))
    requires forall c: Criteria :: IsDayCriteria(c) && c in counted.counters ==> counted.counters[c] == ExpectedCount(events, c)
    requires forall c: Criteria :: IsDayCriteria(c) ==> (c in placed.counters <==> c in dated.counters) && Count(placed, c) == Count(dated, c)
    requires forall c: Criteria :: IsDayCriteria(c) ==>
      if !PresentFor(e.kind) || DayKnown(counted, e.occurredAt) then (c in dated.counters <==> c in counted.counters) && Count(dated, c) == Count(counted, c)
      else c in dated.counters && dated.counters[c] == DayTotal(TotalsOf(dated.days), c)
    ensures forall c: Criteria :: IsDayCriteria(c) ==> (c in placed.counters <==> Touched(events + {e}, c))
    ensures forall c: Criteria :: IsDayCriteria(c) && c in placed.counters ==> placed.counters[c] == ExpectedCount(events + {e}, c)
  {
    hide TotalsOf, ExpectedDays;
    DaysAdd(events, e);
    if e.occurredAt.At? && DayKnown(counted, e.occurredAt) {
      KnownDayStays(counted.days, e.occurredAt);
    }
    if PresentFor(e.kind) && e.occurredAt.At? {
      assert e.occurredAt.day as int in dated.days;
    }
  }

  lemma WeightIsPositive(e: Event)
    ensures e.Weight() >= 1
  {
  }

  // ---- A repeat ----

  lemma RepeatIsDated(events: set<Event>, e: Event)
    requires Repeats(events, e)
    ensures ExpectedDays(events + {e}) == ExpectedDays(events)
  {
    hide NightOwlOn, EarlyBirdOn;
    DaysAdd(events, e);
    var x :| x in events && Anywhere(x) == Anywhere(e);
    assert events + {x} == events;
    DaysAdd(events, x);
  }

  /** A repeat adds at most a project. */
  lemma RepeatAgrees(m: Member, events: set<Event>, e: Event, catalog: seq<Definition>)
    requires Agrees(m, events, catalog) && Repeats(events, e)
    ensures Agrees(EvaluateRepeat(m, e, catalog), events + {e}, catalog)
  {
    hide Weights, TotalsOf, AwardsFollow, EvaluateProjects, Settle, Earned, ExpectedDays, ExpectedProjects;
    var all, placed := events + {e}, EvaluateProjects(m, e.project, catalog);
    ProjectsCounted(m, m, m, events);
    ProjectsKeepFollowing(m, e.project, catalog);
    ProjectsAdd(events, e);
    RepeatIsDated(events, e);
    ProjectCounterAdds(m, m, placed, events, e);
    forall c: Criteria | !c.ProjectsContributed?
      ensures (c in placed.counters <==> Touched(all, c)) && (c in placed.counters ==> placed.counters[c] == ExpectedCount(all, c))
    {
      if c.Counted? { RepeatedKind(events, e, c.kind); }
      assert c in m.counters <==> Touched(events, c);
      assert Count(placed, c) == Count(m, c);
    }
    SettlingAgrees(m, placed, all, catalog);
  }

  lemma RepeatedKind(events: set<Event>, e: Event, kind: Kind)
    requires Repeats(events, e)
    ensures OfKind(events + {e}, kind) == OfKind(events, kind)
  {
    KindsAdd(events, e, kind);
    var x :| x in events && Anywhere(x) == Anywhere(e);
    if e.kind == kind { assert Anywhere(x) in OfKind(events, kind); }
  }

  // ---- The whole store ----

  function Of(events: set<Event>, actor: int): set<Event> {
    set e | e in events && e.actor == actor
  }

  const NOTHING := Store({}, map[])

  /** The store, as the set of events that were taken determines it. */
  ghost predicate StoreAgrees(s: Store, seen: set<Event>, catalog: seq<Definition>) {
    && s.processed == (set e | e in seen :: e.key)
    && s.members.Keys == (set e | e in seen :: e.actor)
    && forall actor :: actor in s.members ==> Agrees(s.members[actor], Of(seen, actor), catalog)
  }

  lemma StoreIsUnique(s: Store, t: Store, seen: set<Event>, catalog: seq<Definition>)
    requires StoreAgrees(s, seen, catalog) && StoreAgrees(t, seen, catalog)
    ensures s == t
  {
    hide Agrees, Of;
    forall actor | actor in s.members ensures s.members[actor] == t.members[actor] {
      AgreementIsUnique(s.members[actor], t.members[actor], Of(seen, actor), catalog);
    }
    assert s.members.Keys == t.members.Keys;
    assert s.members == t.members;
  }

  /** A key names one activity; only the project it is placed in may differ from report to report. */
  predicate KeysIdentify(events: set<Event>) {
    forall e, f :: e in events && f in events && e.key == f.key ==> Anywhere(e) == Anywhere(f)
  }

  lemma {:induction false} NothingHeld(catalog: seq<Definition>, n: nat)
    requires n <= |catalog|
    ensures HeldExp(catalog, {}, n) == 0
  {
    if n > 0 { NothingHeld(catalog, n - 1); }
  }

  lemma NewcomerAgrees(catalog: seq<Definition>)
    ensures Agrees(NEWCOMER, {}, catalog)
  {
    NothingHeld(catalog, |catalog|);
  }

  lemma OfAdds(events: set<Event>, e: Event, actor: int)
    ensures Of(events + {e}, actor) == Of(events, actor) + (if actor == e.actor then {e} else {})
  {
  }

  /** Replacing one user's row replaces what is expected of that user alone. */
  lemma StoreAgreesWith(s: Store, m: Member, seen: set<Event>, e: Event, catalog: seq<Definition>)
    requires StoreAgrees(s, seen, catalog) && Agrees(m, Of(seen, e.actor) + {e}, catalog)
    ensures StoreAgrees(Store(s.processed + {e.key}, s.members[e.actor := m]), seen + {e}, catalog)
  {
    hide Agrees, Of;
    var t, all := Store(s.processed + {e.key}, s.members[e.actor := m]), seen + {e};
    assert (set y | y in all :: y.key) == t.processed;
    assert (set y | y in all :: y.actor) == t.members.Keys;
    forall actor | actor in t.members ensures Agrees(t.members[actor], Of(all, actor), catalog) {
      OfAdds(seen, e, actor);
      if actor != e.actor { assert Of(all, actor) == Of(seen, actor); }
    }
  }

  lemma NewKeyIsNew(s: Store, seen: set<Event>, e: Event, catalog: seq<Definition>)
    requires StoreAgrees(s, seen, catalog) && e.key !in s.processed
    ensures !Repeats(Of(seen, e.actor), e)
  {
    hide Agrees;
    forall x | x in seen ensures x.key != e.key { }
  }

  lemma KnownKeyRepeats(s: Store, seen: set<Event>, e: Event, catalog: seq<Definition>)
    requires StoreAgrees(s, seen, catalog) && e.key in s.processed && KeysIdentify(seen + {e})
    ensures Repeats(Of(seen, e.actor), e) && e.actor in s.members
  {
    hide Agrees;
    var x :| x in seen && x.key == e.key;
    assert x in seen + {e} && e in seen + {e};
    assert Anywhere(x).actor == Anywhere(e).actor;
  }

  lemma ProcessAgrees(s: Store, seen: set<Event>, e: Event, catalog: seq<Definition>, excluded: set<int>)
    requires StoreAgrees(s, seen, catalog) && Takes(e, excluded) && KeysIdentify(seen + {e})
    ensures StoreAgrees(Process(s, e, catalog, excluded), seen + {e}, catalog)
  {
    hide Agrees, Evaluate, EvaluateRepeat, Repeats, KeysIdentify;
    var own := Of(seen, e.actor);
    if e.key in s.processed {
      KnownKeyRepeats(s, seen, e, catalog);
      RepeatAgrees(s.members[e.actor], own, e, catalog);
      StoreAgreesWith(s, EvaluateRepeat(s.members[e.actor], e, catalog), seen, e, catalog);
      assert s.processed + {e.key} == s.processed;
    } else {
      NewKeyIsNew(s, seen, e, catalog);
      var m := if e.actor in s.members then s.members[e.actor] else NEWCOMER;
      if e.actor !in s.members {
        NewcomerAgrees(catalog);
        assert own == {};
      }
      EvaluateAgrees(m, own, e, catalog);
      StoreAgreesWith(s, Evaluate(m, e, catalog), seen, e, catalog);
    }
  }

  /** The events among the first n that are of a known user who takes part. */
  function Taken(events: seq<Event>, n: nat, excluded: set<int>): set<Event>
    requires n <= |events|
  {
    set i | 0 <= i < n && Takes(events[i], excluded) :: events[i]
  }

  lemma NothingAgrees(seen: set<Event>, catalog: seq<Definition>)
    requires seen == {}
    ensures StoreAgrees(NOTHING, seen, catalog)
  {
    hide Agrees;
    assert (set e | e in seen :: e.key) == {};
    assert (set e | e in seen :: e.actor) == {};
  }

  lemma NoneOf(events: set<Event>, actor: int)
    ensures Of(events, actor) == {} ==> forall e :: e in events ==> e.actor != actor
  {
    forall e | e in events && e.actor == actor ensures e in Of(events, actor) { }
  }

  lemma IdentifyFewer(some: set<Event>, all: set<Event>)
    requires some <= all && KeysIdentify(all)
    ensures KeysIdentify(some)
  {
  }

  lemma {:induction false} ReachableStoresAgree(events: seq<Event>, n: nat, catalog: seq<Definition>, excluded: set<int>)
    requires n <= |events| && KeysIdentify(Taken(events, |events|, excluded))
    ensures StoreAgrees(ProcessAll(NOTHING, events, n, catalog, excluded), Taken(events, n, excluded), catalog)
  {
    hide KeysIdentify, Agrees, Evaluate, EvaluateRepeat;
    if n == 0 {
      NothingAgrees(Taken(events, 0, excluded), catalog);
    } else {
      ReachableStoresAgree(events, n - 1, catalog, excluded);
      var before, e := Taken(events, n - 1, excluded), events[n - 1];
      if Takes(e, excluded) {
        assert Taken(events, n, excluded) == before + {e};
        IdentifyFewer(Taken(events, n, excluded), Taken(events, |events|, excluded));
        ProcessAgrees(ProcessAll(NOTHING, events, n - 1, catalog, excluded), before, e, catalog, excluded);
      } else {
        assert Taken(events, n, excluded) == before;
      }
    }
  }

  /** Order and repetition do not matter: the same distinct activities lead to the same store. */
  lemma OrderIsImmaterial(a: seq<Event>, b: seq<Event>, catalog: seq<Definition>, excluded: set<int>)
    requires Taken(a, |a|, excluded) == Taken(b, |b|, excluded) && KeysIdentify(Taken(a, |a|, excluded))
    ensures ProcessAll(NOTHING, a, |a|, catalog, excluded) == ProcessAll(NOTHING, b, |b|, catalog, excluded)
  {
    ReachableStoresAgree(a, |a|, catalog, excluded);
    ReachableStoresAgree(b, |b|, catalog, excluded);
    StoreIsUnique(ProcessAll(NOTHING, a, |a|, catalog, excluded), ProcessAll(NOTHING, b, |b|, catalog, excluded),
                  Taken(a, |a|, excluded), catalog);
  }

  lemma AgreeingCounts(m: Member, own: set<Event>, catalog: seq<Definition>)
    requires Agrees(m, own, catalog)
    ensures forall c :: Count(m, c) == ExpectedCount(own, c)
    ensures m.exp == HeldExp(catalog, m.awards, |catalog|)
    ensures (forall i :: 0 <= i < |catalog| ==> catalog[i].threshold >= 1) ==>
      forall i :: i in m.awards <==> 0 <= i < |catalog| && catalog[i].threshold <= ExpectedCount(own, catalog[i].criteria)
  {
    hide ExpectedCount, Touched, HeldExp;
    forall c ensures Count(m, c) == ExpectedCount(own, c) {
      if c !in m.counters { UntouchedIsZero(own, c); }
    }
    if forall i :: 0 <= i < |catalog| ==> catalog[i].threshold >= 1 {
      forall i ensures i in m.awards <==> 0 <= i < |catalog| && catalog[i].threshold <= ExpectedCount(own, catalog[i].criteria) {
        if 0 <= i < |catalog| { assert Count(m, catalog[i].criteria) == ExpectedCount(own, catalog[i].criteria); }
      }
    }
  }

  /** Under thresholds of at least 1, what a user holds and has is what the set of their events gives. */
  lemma {:induction false} HoldsWhatCountsReach(events: seq<Event>, n: nat, catalog: seq<Definition>, excluded: set<int>, actor: int)
    requires n <= |events| && KeysIdentify(Taken(events, |events|, excluded))
    requires forall i :: 0 <= i < |catalog| ==> catalog[i].threshold >= 1
    ensures
      var s, own := ProcessAll(NOTHING, events, n, catalog, excluded), Of(Taken(events, n, excluded), actor);
      if own == {} then actor !in s.members
      else
        && actor in s.members
        && (forall c :: Count(s.members[actor], c) == ExpectedCount(own, c))
        && (forall i :: i in s.members[actor].awards <==> 0 <= i < |catalog| && catalog[i].threshold <= ExpectedCount(own, catalog[i].criteria))
        && s.members[actor].exp == HeldExp(catalog, s.members[actor].awards, |catalog|)
  {
    hide Agrees, ExpectedCount, HeldExp, ProcessAll, Taken;
    ReachableStoresAgree(events, n, catalog, excluded);
    var own := Of(Taken(events, n, excluded), actor);
    var s := ProcessAll(NOTHING, events, n, catalog, excluded);
    if own != {} {
      var e :| e in own;
      assert actor in s.members;
      AgreeingCounts(s.members[actor], own, catalog);
    } else {
      NoneOf(Taken(events, n, excluded), actor);
    }
  }

  lemma UntouchedIsZero(events: set<Event>, c: Criteria)
    requires !Touched(events, c)
    ensures ExpectedCount(events, c) == 0
  {
    if IsDayCriteria(c) {
      assert ExpectedDays(events) == map[];
      RunFits({}, LongestRun({}));
    }
  }

  /** The stored day counters are the totals of the stored days, in every reachable state, although
      they are only recomputed when a day is new or newly notable. */
  lemma {:induction false} DayCountersAreCurrent(events: seq<Event>, n: nat, catalog: seq<Definition>, excluded: set<int>, actor: int, c: Criteria)
    requires n <= |events| && KeysIdentify(Taken(events, |events|, excluded)) && IsDayCriteria(c)
    requires actor in ProcessAll(NOTHING, events, n, catalog, excluded).members
    ensures
      var m := ProcessAll(NOTHING, events, n, catalog, excluded).members[actor];
      Count(m, c) == DayTotal(TotalsOf(m.days), c)
  {
    ReachableStoresAgree(events, n, catalog, excluded);
    var own := Of(Taken(events, n, excluded), actor);
    if !Touched(own, c) { UntouchedIsZero(own, c); }
  }
}
