/** The achievement engine: what one event does to the store, as functions.

    The tables keyed by user (counters, activity days, projects, awards) are grouped into one `Member`
    per GitLab user, which is what their unique indexes on user and key come to. */
module Engine {
  import opened Activity
  import opened Days

  /** Every kind advances one criteria of its own; the rest are derived from sets. */
  datatype Criteria = Counted(kind: Kind) | ActiveDays | ActivityStreak | NightOwlDays | EarlyBirdDays | ProjectsContributed

  datatype Definition = Definition(criteria: Criteria, threshold: int, exp: int)

  /** What the engine holds about one user; an award is the position of its definition. */
  datatype Member = Member(exp: int, counters: map<Criteria, int>, days: map<int, Clock>, projects: set<int>, awards: set<int>)

  datatype Store = Store(processed: set<string>, members: map<int, Member>)

  const NEWCOMER := Member(0, map[], map[], {}, {})

  /** Landing is credited to an author who was not there when it happened. */
  predicate PresentFor(kind: Kind) {
    kind != MergeRequestLanded
  }

  function Count(m: Member, c: Criteria): int {
    if c in m.counters then m.counters[c] else 0
  }

  // ---- Awards and EXP ----

  /** The tiers of a criteria that a count reaches. */
  function Reached(catalog: seq<Definition>, c: Criteria, count: int): set<int> {
    set i | 0 <= i < |catalog| && catalog[i].criteria == c && catalog[i].threshold <= count
  }

  /** The rewards of the first n definitions, of those held. */
  function HeldExp(catalog: seq<Definition>, awards: set<int>, n: nat): int
    requires n <= |catalog|
  {
    if n == 0 then 0 else HeldExp(catalog, awards, n - 1) + if n - 1 in awards then catalog[n - 1].exp else 0
  }

  function Earned(catalog: seq<Definition>, m: Member): int {
    HeldExp(catalog, m.awards, |catalog|)
  }

  function SetAndAward(m: Member, c: Criteria, count: int, catalog: seq<Definition>): Member {
    m.(counters := m.counters[c := count], awards := m.awards + Reached(catalog, c, count))
  }

  /** EXP is re-derived when something was newly awarded, and only then. */
  function Settle(before: Member, after: Member, catalog: seq<Definition>): Member {
    if after.awards == before.awards then after else after.(exp := Earned(catalog, after))
  }

  // ---- The sets ----

  ghost function DayTotal(totals: Totals, c: Criteria): int {
    match c
    case ActiveDays => totals.active
    case ActivityStreak => totals.streak
    case NightOwlDays => totals.nightOwl
    case EarlyBirdDays => totals.earlyBird
    case _ => 0
  }

  predicate DayKnown(m: Member, occurredAt: Moment) {
    occurredAt.At? ==>
      occurredAt.day in m.days && Covers(m.days[occurredAt.day], ClockWindows(occurredAt.hour))
  }

  function WithDay(days: map<int, Clock>, occurredAt: Moment): map<int, Clock>
    requires occurredAt.At?
  {
    var clock := ClockWindows(occurredAt.hour);
    days[occurredAt.day := if occurredAt.day in days then Latch(days[occurredAt.day], clock) else clock]
  }

  ghost function EvaluateDays(m: Member, occurredAt: Moment, catalog: seq<Definition>): Member {
    if DayKnown(m, occurredAt) then m
    else
      var days := WithDay(m.days, occurredAt);
      var totals := TotalsOf(days);
      SetAndAward(SetAndAward(SetAndAward(SetAndAward(m.(days := days),
        ActiveDays, totals.active, catalog), ActivityStreak, totals.streak, catalog),
        NightOwlDays, totals.nightOwl, catalog), EarlyBirdDays, totals.earlyBird, catalog)
  }

  function EvaluateProjects(m: Member, project: int, catalog: seq<Definition>): Member {
    if project <= 0 || project in m.projects then m
    else
      var projects := m.projects + {project};
      SetAndAward(m.(projects := projects), ProjectsContributed, |projects|, catalog)
  }

  // ---- One event ----

  ghost function Evaluate(m: Member, e: Event, catalog: seq<Definition>): Member {
    var c := Counted(e.kind);
    var counted := SetAndAward(m, c, Count(m, c) + e.Weight(), catalog);
    var dated := if PresentFor(e.kind) then EvaluateDays(counted, e.occurredAt, catalog) else counted;
    Settle(m, EvaluateProjects(dated, e.project, catalog), catalog)
  }

  /** All a repeat can still add is the project it happened in. */
  function EvaluateRepeat(m: Member, e: Event, catalog: seq<Definition>): Member {
    Settle(m, EvaluateProjects(m, e.project, catalog), catalog)
  }

  /** Events of no known user, or of one who does not take part, leave nothing behind. */
  predicate Takes(e: Event, excluded: set<int>) {
    e.actor > 0 && e.actor !in excluded
  }

  ghost function Process(s: Store, e: Event, catalog: seq<Definition>, excluded: set<int>): Store {
    if !Takes(e, excluded) then s
    else if e.key in s.processed then
      if e.actor in s.members
      then s.(members := s.members[e.actor := EvaluateRepeat(s.members[e.actor], e, catalog)]) else s
    else
      var m := if e.actor in s.members then s.members[e.actor] else NEWCOMER;
      Store(s.processed + {e.key}, s.members[e.actor := Evaluate(m, e, catalog)])
  }

  ghost function ProcessAll(s: Store, events: seq<Event>, n: nat, catalog: seq<Definition>, excluded: set<int>): Store
    requires n <= |events|
  {
    if n == 0 then s else Process(ProcessAll(s, events, n - 1, catalog, excluded), events[n - 1], catalog, excluded)
  }
}
