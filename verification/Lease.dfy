/** A cross-process mutex: one database row, self-guarded writes, a time to live, and a renewal loop
    that cancels the holder's context once it can no longer vouch for its claim.

    Any number of processes run AcquireLease on one lease under one clock. A query is sent, takes hold
    at the database at some later moment, and is answered later still; it may also fail, before or
    after taking hold. Safety needs no timing at all; the cancellation bound assumes queries answered
    within `query`, which is at most a renewal interval, and tickers that fire on time. */
module Lease {
  datatype Row = NoRow | Claimed(owner: int, expires: int)

  /** A time to live, and the longest a query takes to be answered. */
  datatype Timing = Timing(ttl: int, query: int)

  const RENEWALS_PER_TTL := 3
  const FREED_AT := 0

  function Interval(c: Timing): int {
    c.ttl / RENEWALS_PER_TTL
  }

  // ---- The writes ----

  predicate RanOut(row: Row, asked: int) {
    row.Claimed? && row.expires < asked
  }

  predicate OwnedBy(row: Row, p: int) {
    row.Claimed? && row.owner == p
  }

  function TakenOver(row: Row, p: int, asked: int, ttl: int): Row {
    if RanOut(row, asked) then Claimed(p, asked + ttl) else row
  }

  function Created(row: Row, p: int, asked: int, ttl: int): Row {
    if row.NoRow? then Claimed(p, asked + ttl) else row
  }

  function Renewed(row: Row, p: int, asked: int, ttl: int): Row {
    if OwnedBy(row, p) then Claimed(p, asked + ttl) else row
  }

  function Freed(row: Row, p: int): Row {
    if OwnedBy(row, p) then Claimed(p, FREED_AT) else row
  }

  /** The row itself, as the statements of one process rewrite it when nothing comes between them. */
  class LeaseTable {
    var row: Row

    constructor ()
      ensures row == NoRow
    {
      row := NoRow;
    }

    method TakeLease(owner: int, now: int, ttl: int) returns (taken: bool)
      modifies this
      ensures row == Created(TakenOver(old(row), owner, now, ttl), owner, now, ttl)
      ensures taken <==> old(row) == NoRow || old(row).expires < now
      ensures taken ==> row == Claimed(owner, now + ttl)
      ensures !taken ==> row == old(row)
    {
      if row.Claimed? && row.expires < now {
        row := Claimed(owner, now + ttl);
        return true;
      }
      if row == NoRow {
        row := Claimed(owner, now + ttl);
        return true;
      }
      return false;
    }

    method TouchLease(owner: int, now: int, ttl: int) returns (held: bool)
      modifies this
      ensures row == Renewed(old(row), owner, now, ttl) && held == OwnedBy(old(row), owner)
    {
      held := row.Claimed? && row.owner == owner;
      if held {
        row := Claimed(owner, now + ttl);
      }
    }

    method ReleaseLease(owner: int)
      modifies this
      ensures row == Freed(old(row), owner)
    {
      if row.Claimed? && row.owner == owner {
        row := Claimed(owner, FREED_AT);
      }
    }
  }

  // ---- Processes ----

  datatype Phase =
    | Waiting
    | Updating(asked: int)
    | Updated(asked: int, matched: bool)
    | Inserting(asked: int, sent: int)
    | Inserted(asked: int, sent: int, matched: bool)
    | Holding(renewed: int, tick: int)
    | Touching(renewed: int, tick: int, asked: int)
    | Touched(renewed: int, tick: int, asked: int, matched: bool)
    | Stopped
    | Released
    | GaveUp

  /** `live` is the context AcquireLease returned; `claim` the latest expiry this process put in the row. */
  datatype Process = Process(phase: Phase, live: bool, claim: int)

  datatype State = State(now: int, row: Row, processes: map<int, Process>)

  datatype Action =
    | Advance(d: nat)
    | Ask | UpdateExecutes | UpdateReturns | UpdateFails
    | InsertExecutes | InsertReturns | InsertFails
    | Abandon | Tick | TouchExecutes | TouchReturns | TouchFails
    | CallerEnds | Stop | Release | ReleaseFails

  ghost predicate Init(s: State) {
    s.row == NoRow && s.now > 0 && forall p :: p in s.processes ==> s.processes[p] == Process(Waiting, false, 0)
  }

  function With(s: State, p: int, process: Process): State {
    s.(processes := s.processes[p := process])
  }

  /** A process starts renewing the moment taking the lease is answered. */
  function Acquired(s: State, c: Timing, p: int): State
    requires p in s.processes
  {
    With(s, p, s.processes[p].(phase := Holding(s.now, s.now + Interval(c)), live := true))
  }

  function Moved(s: State, p: int, phase: Phase): State
    requires p in s.processes
  {
    With(s, p, s.processes[p].(phase := phase))
  }

  function Wrote(s: State, p: int, phase: Phase, row: Row, wrote: bool, expires: int): State
    requires p in s.processes
  {
    var process := s.processes[p];
    With(s, p, process.(phase := phase, claim := if wrote then expires else process.claim)).(row := row)
  }

  function Cancelled(s: State, p: int): State
    requires p in s.processes
  {
    With(s, p, s.processes[p].(phase := Stopped, live := false))
  }

  ghost predicate Step(c: Timing, s: State, t: State, p: int, action: Action) {
    p in s.processes &&
    var process, phase := s.processes[p], s.processes[p].phase;
    match action
    case Advance(d) => t == s.(now := s.now + d)
    case Ask => phase.Waiting? && t == Moved(s, p, Updating(s.now))
    case UpdateExecutes =>
      && phase.Updating?
      && t == Wrote(s, p, Updated(phase.asked, RanOut(s.row, phase.asked)), TakenOver(s.row, p, phase.asked, c.ttl),
                    RanOut(s.row, phase.asked), phase.asked + c.ttl)
    case UpdateReturns =>
      phase.Updated? && t == if phase.matched then Acquired(s, c, p) else Moved(s, p, Inserting(phase.asked, s.now))
    case UpdateFails => (phase.Updating? || phase.Updated?) && t == Moved(s, p, GaveUp)
    case InsertExecutes =>
      && phase.Inserting?
      && t == Wrote(s, p, Inserted(phase.asked, phase.sent, s.row.NoRow?), Created(s.row, p, phase.asked, c.ttl),
                    s.row.NoRow?, phase.asked + c.ttl)
    case InsertReturns => phase.Inserted? && t == if phase.matched then Acquired(s, c, p) else Moved(s, p, Waiting)
    case InsertFails => (phase.Inserting? || phase.Inserted?) && t == Moved(s, p, Waiting)
    case Abandon => phase.Waiting? && t == Moved(s, p, GaveUp)
    case Tick =>
      phase.Holding? && s.now >= phase.tick && t == Moved(s, p, Touching(phase.renewed, phase.tick + Interval(c), s.now))
    case TouchExecutes =>
      && phase.Touching?
      && t == Wrote(s, p, Touched(phase.renewed, phase.tick, phase.asked, OwnedBy(s.row, p)),
                    Renewed(s.row, p, phase.asked, c.ttl), OwnedBy(s.row, p), phase.asked + c.ttl)
    case TouchReturns =>
      phase.Touched? && t == if phase.matched then Moved(s, p, Holding(s.now, phase.tick)) else Cancelled(s, p)
    case TouchFails =>
      && (phase.Touching? || phase.Touched?)
      && t == if s.now - phase.renewed < c.ttl then Moved(s, p, Holding(phase.renewed, phase.tick)) else Cancelled(s, p)
    case CallerEnds => t == With(s, p, process.(live := false))
    case Stop => phase.Holding? && !process.live && t == Moved(s, p, Stopped)
    case Release => phase.Stopped? && t == Moved(s, p, Released).(row := Freed(s.row, p))
    case ReleaseFails => phase.Stopped? && t == Moved(s, p, Released)
  }

  ghost predicate Next(c: Timing, s: State, t: State) {
    exists p, action :: Step(c, s, t, p, action)
  }

  ghost predicate IsRun(c: Timing, states: seq<State>) {
    && c.ttl > 0 && |states| > 0 && Init(states[0])
    && forall i :: 0 <= i < |states| - 1 ==> Next(c, states[i], states[i + 1])
  }

  // ---- Safety ----

  /** Done with trying to take the lease: AcquireLease has returned. */
  predicate Past(phase: Phase) {
    phase.Holding? || phase.Touching? || phase.Touched? || phase.Stopped? || phase.Released? || phase.GaveUp?
  }

  ghost predicate AskedOk(s: State, c: Timing, process: Process) {
    && process.claim <= s.now + c.ttl
    && match process.phase
       case Updating(asked) => asked <= s.now
       case Updated(asked, _) => asked <= s.now
       case Inserting(asked, sent) => asked <= sent <= s.now
       case Inserted(asked, sent, _) => asked <= sent <= s.now
       case Touching(renewed, _, asked) => renewed <= s.now && asked <= s.now
       case Touched(renewed, _, asked, _) => renewed <= s.now && asked <= s.now
       case Holding(renewed, _) => renewed <= s.now
       case _ => true
  }

  predicate Renewing(phase: Phase) {
    phase.Holding? || phase.Touching? || phase.Touched?
  }

  /** The row says what its owner last wrote, unless its owner freed it. */
  ghost predicate RowOk(s: State) {
    s.row.Claimed? ==>
      && s.row.owner in s.processes
      && var owner := s.processes[s.row.owner];
         s.row.expires == owner.claim || (owner.phase.Released? && s.row.expires == FREED_AT)
  }

  ghost predicate Inv(c: Timing, s: State) {
    && s.now > 0 && RowOk(s)
    && (forall p :: p in s.processes ==> AskedOk(s, c, s.processes[p]))
    && (forall p :: p in s.processes && s.processes[p].live ==> Renewing(s.processes[p].phase))
  }

  /** A step is one process's, and time does not go back. */
  ghost predicate OnlyMoves(s: State, t: State, p: int) {
    && p in s.processes && t.processes.Keys == s.processes.Keys && s.now <= t.now
    && forall q :: q in s.processes && q != p ==> t.processes[q] == s.processes[q]
  }

  lemma StepOnlyMoves(c: Timing, s: State, t: State, p: int, action: Action)
    requires Step(c, s, t, p, action)
    ensures OnlyMoves(s, t, p)
  {
  }

  lemma OwnStepAsked(c: Timing, s: State, t: State, p: int, action: Action)
    requires c.ttl > 0 && s.now > 0 && Step(c, s, t, p, action) && AskedOk(s, c, s.processes[p])
    requires s.processes[p].live ==> Renewing(s.processes[p].phase)
    ensures AskedOk(t, c, t.processes[p]) && (t.processes[p].live ==> Renewing(t.processes[p].phase)) && t.now > 0
  {
  }

  lemma StepKeepsRow(c: Timing, s: State, t: State, p: int, action: Action)
    requires c.ttl > 0 && s.now > 0 && RowOk(s) && Step(c, s, t, p, action)
    ensures RowOk(t)
  {
  }

  lemma StepKeepsInv(c: Timing, s: State, t: State, p: int, action: Action)
    requires c.ttl > 0 && Inv(c, s) && Step(c, s, t, p, action)
    ensures Inv(c, t)
  {
    hide Step, RowOk;
    StepOnlyMoves(c, s, t, p, action);
    assert AskedOk(s, c, s.processes[p]);
    OwnStepAsked(c, s, t, p, action);
    StepKeepsRow(c, s, t, p, action);
    forall q | q in t.processes && q != p ensures AskedOk(t, c, t.processes[q]) {
      assert AskedOk(s, c, s.processes[q]);
    }
  }

  lemma {:induction false} RunKeepsInv(c: Timing, states: seq<State>, i: nat)
    requires IsRun(c, states) && i < |states|
    ensures Inv(c, states[i])
  {
    if i > 0 {
      RunKeepsInv(c, states, i - 1);
      var p, action :| Step(c, states[i - 1], states[i], p, action);
      StepKeepsInv(c, states[i - 1], states[i], p, action);
    }
  }

  /** The lease changes hands from p. */
  predicate TakesOver(s: State, t: State, p: int) {
    OwnedBy(s.row, p) && t.row.Claimed? && t.row.owner != p
  }

  /** It does so only once the claim ran out or p gave the lease up. */
  lemma TakeoverIsEarned(c: Timing, states: seq<State>, i: nat, p: int)
    requires IsRun(c, states) && i + 1 < |states| && TakesOver(states[i], states[i + 1], p)
    ensures p in states[i].processes
    ensures states[i].processes[p].claim < states[i].now || states[i].processes[p].phase.Released?
  {
    hide Step, Inv;
    RunKeepsInv(c, states, i);
    var q, action :| Step(c, states[i], states[i + 1], q, action);
    StepEarnsTakeover(c, states[i], states[i + 1], p, q, action);
  }

  lemma StepEarnsTakeover(c: Timing, s: State, t: State, p: int, q: int, action: Action)
    requires Inv(c, s) && Step(c, s, t, q, action) && TakesOver(s, t, p)
    ensures p in s.processes && (s.processes[p].claim < s.now || s.processes[p].phase.Released?)
  {
    assert AskedOk(s, c, s.processes[q]);
  }

  /** p acquired the lease once, and it is no longer p's. */
  predicate Replaced(s: State, p: int) {
    p in s.processes && Past(s.processes[p].phase) && !OwnedBy(s.row, p)
  }

  lemma ReplacedStep(c: Timing, s: State, t: State, p: int, q: int, action: Action)
    requires Replaced(s, p) && Step(c, s, t, q, action)
    ensures Replaced(t, p) && t.processes[p].claim == s.processes[p].claim
    ensures q == p ==> t.row == s.row
  {
  }

  /** A replaced holder never owns the lease again, and nothing it still sends changes the row. */
  lemma {:induction false} ReplacedForGood(c: Timing, states: seq<State>, i: nat, j: nat, p: int)
    requires IsRun(c, states) && i <= j < |states| && Replaced(states[i], p)
    ensures Replaced(states[j], p) && states[j].processes[p].claim == states[i].processes[p].claim
    ensures forall t, action :: Step(c, states[j], t, p, action) ==> t.row == states[j].row
  {
    if i < j {
      ReplacedForGood(c, states, i, j - 1, p);
      var q, action :| Step(c, states[j - 1], states[j], q, action);
      ReplacedStep(c, states[j - 1], states[j], p, q, action);
    }
    forall t, action | Step(c, states[j], t, p, action) ensures t.row == states[j].row {
      ReplacedStep(c, states[j], t, p, p, action);
    }
  }

  // ---- How long a holder outlives its claim ----

  /** No query is unanswered for longer than it may be, and no ticker is late. */
  ghost predicate OnTime(c: Timing, s: State) {
    forall p :: p in s.processes ==> ProcessOnTime(c, s.now, s.processes[p].phase)
  }

  predicate ProcessOnTime(c: Timing, now: int, phase: Phase) {
    match phase
    case Updating(asked) => now <= asked + c.query
    case Updated(asked, _) => now <= asked + c.query
    case Inserting(_, sent) => now <= sent + c.query
    case Inserted(_, sent, _) => now <= sent + c.query
    case Holding(_, tick) => now <= tick
    case Touching(_, _, asked) => now <= asked + c.query
    case Touched(_, _, asked, _) => now <= asked + c.query
    case _ => true
  }

  ghost predicate TimelyRun(c: Timing, states: seq<State>) {
    && IsRun(c, states) && 0 <= c.query <= Interval(c)
    && forall i :: 0 <= i < |states| ==> OnTime(c, states[i])
  }

  /** A renewal interval and two queries, plus whatever of a third query the remainder of the time to
      live, which the interval rounds off, does not make up for. */
  function Grace(c: Timing): int {
    Interval(c) + 2 * c.query + if ThirdsAddUp(c) then 0 else c.query - c.ttl % RENEWALS_PER_TTL
  }

  predicate ThirdsAddUp(c: Timing) {
    c.ttl % RENEWALS_PER_TTL == 0 || c.query <= c.ttl % RENEWALS_PER_TTL
  }

  /** Since the last renewal: the claim reaches at least a time to live less the queries that made it,
      and the tick next due was planned before the renewal went stale. */
  ghost predicate Vouched(c: Timing, renewed: int, tick: int, claim: int) {
    && tick < renewed + c.ttl + Interval(c)
    && ( claim >= renewed + c.ttl - c.query
      || (claim >= renewed + c.ttl - 2 * c.query && (Interval(c) >= 2 ==> Aligned(c, renewed, tick))))
  }

  predicate Aligned(c: Timing, renewed: int, tick: int) {
    || tick == renewed + Interval(c) || tick == renewed + 2 * Interval(c)
    || tick == renewed + 3 * Interval(c) || tick == renewed + 4 * Interval(c)
  }

  ghost predicate ProcessTimed(c: Timing, s: State, p: int, process: Process) {
    match process.phase
    case Updated(asked, matched) => matched ==> process.claim == asked + c.ttl
    case Inserting(asked, sent) => sent <= asked + c.query
    case Inserted(asked, sent, matched) => sent <= asked + c.query && (matched ==> process.claim == asked + c.ttl)
    case Holding(renewed, tick) => Vouched(c, renewed, tick, process.claim)
    case Touching(renewed, tick, asked) => asked == tick - Interval(c) && Vouched(c, renewed, asked, process.claim)
    case Touched(renewed, tick, asked, matched) =>
      && asked == tick - Interval(c) && Vouched(c, renewed, asked, process.claim)
      && (matched ==> process.claim == asked + c.ttl)
    case _ => true
  }

  ghost predicate Timed(c: Timing, s: State) {
    forall p :: p in s.processes ==> ProcessTimed(c, s, p, s.processes[p])
  }

  lemma RenewalVouches(c: Timing, renewed: int, asked: int, claim: int, now: int)
    requires 0 <= c.query <= Interval(c) && Vouched(c, renewed, asked, claim) && now - renewed < c.ttl && asked <= now
    ensures Vouched(c, renewed, asked + Interval(c), claim)
  {
  }

  lemma OwnStepTimed(c: Timing, s: State, t: State, p: int, action: Action)
    requires c.ttl > 0 && 0 <= c.query <= Interval(c) && Step(c, s, t, p, action)
    requires AskedOk(s, c, s.processes[p]) && ProcessTimed(c, s, p, s.processes[p])
    requires ProcessOnTime(c, s.now, s.processes[p].phase)
    ensures ProcessTimed(c, t, p, t.processes[p])
  {
    if action.TouchFails? {
      FailureTimed(c, s, t, p);
    } else if action.TouchExecutes? || action.TouchReturns? || action.Tick? {
      RenewingTimed(c, s, t, p, action);
    } else {
      OtherwiseTimed(c, s, t, p, action);
    }
  }

  lemma FailureTimed(c: Timing, s: State, t: State, p: int)
    requires c.ttl > 0 && 0 <= c.query <= Interval(c) && Step(c, s, t, p, TouchFails)
    requires AskedOk(s, c, s.processes[p]) && ProcessTimed(c, s, p, s.processes[p])
    requires ProcessOnTime(c, s.now, s.processes[p].phase)
    ensures ProcessTimed(c, t, p, t.processes[p])
  {
    var phase := s.processes[p].phase;
    if s.now - phase.renewed < c.ttl {
      RenewalVouches(c, phase.renewed, phase.asked, s.processes[p].claim, s.now);
    }
  }

  lemma RenewingTimed(c: Timing, s: State, t: State, p: int, action: Action)
    requires c.ttl > 0 && 0 <= c.query <= Interval(c) && Step(c, s, t, p, action) && (action.TouchExecutes? || action.TouchReturns? || action.Tick?)
    requires AskedOk(s, c, s.processes[p]) && ProcessTimed(c, s, p, s.processes[p])
    requires ProcessOnTime(c, s.now, s.processes[p].phase)
    ensures ProcessTimed(c, t, p, t.processes[p])
  {
  }

  lemma OtherwiseTimed(c: Timing, s: State, t: State, p: int, action: Action)
    requires c.ttl > 0 && 0 <= c.query <= Interval(c) && Step(c, s, t, p, action)
    requires !action.TouchFails? && !action.TouchExecutes? && !action.TouchReturns? && !action.Tick?
    requires AskedOk(s, c, s.processes[p]) && ProcessTimed(c, s, p, s.processes[p])
    requires ProcessOnTime(c, s.now, s.processes[p].phase)
    ensures ProcessTimed(c, t, p, t.processes[p])
  {
  }

  lemma StepKeepsTimed(c: Timing, s: State, t: State, p: int, action: Action)
    requires c.ttl > 0 && 0 <= c.query <= Interval(c)
    requires Inv(c, s) && Timed(c, s) && OnTime(c, s) && Step(c, s, t, p, action)
    ensures Timed(c, t)
  {
    hide ProcessTimed, Step, RowOk;
    StepOnlyMoves(c, s, t, p, action);
    assert AskedOk(s, c, s.processes[p]);
    OwnStepTimed(c, s, t, p, action);
    forall q | q in t.processes ensures ProcessTimed(c, t, q, t.processes[q]) {
      if q != p {
        OthersStayTimed(c, s, t, q);
      }
    }
  }

  lemma OthersStayTimed(c: Timing, s: State, t: State, q: int)
    requires q in s.processes && q in t.processes && t.processes[q] == s.processes[q]
    requires ProcessTimed(c, s, q, s.processes[q])
    ensures ProcessTimed(c, t, q, t.processes[q])
  {
  }

  lemma {:induction false} TimelyRunIsTimed(c: Timing, states: seq<State>, i: nat)
    requires TimelyRun(c, states) && i < |states|
    ensures Timed(c, states[i])
  {
    if i > 0 {
      TimelyRunIsTimed(c, states, i - 1);
      RunKeepsInv(c, states, i - 1);
      var p, action :| Step(c, states[i - 1], states[i], p, action);
      StepKeepsTimed(c, states[i - 1], states[i], p, action);
    }
  }

  /** A live context is at most the grace period older than the claim behind it. */
  lemma CancelledInTime(c: Timing, states: seq<State>, i: nat, p: int)
    requires TimelyRun(c, states) && i < |states| && p in states[i].processes && states[i].processes[p].live
    ensures states[i].now <= states[i].processes[p].claim + Grace(c)
  {
    TimelyRunIsTimed(c, states, i);
    RunKeepsInv(c, states, i);
    assert ProcessTimed(c, states[i], p, states[i].processes[p]);
    assert ProcessOnTime(c, states[i].now, states[i].processes[p].phase);
  }

  /** So two holders work side by side for at most the grace period after a takeover. */
  lemma OverlapIsBounded(c: Timing, states: seq<State>, i: nat, j: nat, p: int)
    requires TimelyRun(c, states) && i < j < |states| && p in states[i].processes && Past(states[i].processes[p].phase)
    requires TakesOver(states[i], states[i + 1], p) && p in states[j].processes && states[j].processes[p].live
    ensures states[j].now < states[i].now + Grace(c)
  {
    hide Step, OnTime, Inv;
    TakeoverIsEarned(c, states, i, p);
    var q, action :| Step(c, states[i], states[i + 1], q, action);
    TakeoverReplaces(c, states[i], states[i + 1], p, q, action);
    ReplacedForGood(c, states, i + 1, j, p);
    CancelledInTime(c, states, j, p);
    if states[i].processes[p].phase.Released? {
      StaysReleased(c, states, i, j, p);
      RunKeepsInv(c, states, j);
      ReleasedIsNotLive(c, states[j], p);
    }
  }

  lemma TakeoverReplaces(c: Timing, s: State, t: State, p: int, q: int, action: Action)
    requires p in s.processes && Past(s.processes[p].phase) && TakesOver(s, t, p) && Step(c, s, t, q, action)
    ensures Replaced(t, p) && t.processes[p].claim == s.processes[p].claim
  {
  }

  lemma ReleasedIsNotLive(c: Timing, s: State, p: int)
    requires Inv(c, s) && p in s.processes && s.processes[p].phase.Released?
    ensures !s.processes[p].live
  {
  }

  lemma {:induction false} StaysReleased(c: Timing, states: seq<State>, i: nat, j: nat, p: int)
    requires IsRun(c, states) && i <= j < |states| && p in states[i].processes && states[i].processes[p].phase.Released?
    ensures p in states[j].processes && states[j].processes[p].phase.Released?
  {
    if i < j {
      StaysReleased(c, states, i, j - 1, p);
      var q, action :| Step(c, states[j - 1], states[j], q, action);
    }
  }

  // ---- The grace period cannot be less ----

  /** One process whose insert took both its queries to the limit and whose every renewal fails. */
  function Alone(now: int, row: Row, phase: Phase, live: bool, claim: int): State {
    State(now, row, map[0 := Process(phase, live, claim)])
  }

  function SlowestState(c: Timing, k: nat): State {
    var i, q, e := Interval(c), c.query, 1 + c.ttl;
    var row, r := Claimed(0, e), 1 + 2 * q;
    match k
    case 0 => Alone(1, NoRow, Waiting, false, 0)
    case 1 => Alone(1, NoRow, Updating(1), false, 0)
    case 2 => Alone(1, NoRow, Updated(1, false), false, 0)
    case 3 => Alone(1 + q, NoRow, Updated(1, false), false, 0)
    case 4 => Alone(1 + q, NoRow, Inserting(1, 1 + q), false, 0)
    case 5 => Alone(1 + q, row, Inserted(1, 1 + q, true), false, e)
    case 6 => Alone(r, row, Inserted(1, 1 + q, true), false, e)
    case 7 => Alone(r, row, Holding(r, r + i), true, e)
    case 8 => Alone(r + i, row, Holding(r, r + i), true, e)
    case 9 => Alone(r + i, row, Touching(r, r + 2 * i, r + i), true, e)
    case 10 => Alone(r + i, row, Holding(r, r + 2 * i), true, e)
    case 11 => Alone(r + 2 * i, row, Holding(r, r + 2 * i), true, e)
    case 12 => Alone(r + 2 * i, row, Touching(r, r + 3 * i, r + 2 * i), true, e)
    case 13 => Alone(r + 2 * i, row, Holding(r, r + 3 * i), true, e)
    case 14 => Alone(r + 3 * i, row, Holding(r, r + 3 * i), true, e)
    case 15 => Alone(r + 3 * i, row, Touching(r, r + 4 * i, r + 3 * i), true, e)
    case 16 => Alone(r + 3 * i, row, Holding(r, r + 4 * i), true, e)
    case 17 => Alone(r + 4 * i, row, Holding(r, r + 4 * i), true, e)
    case 18 => Alone(r + 4 * i, row, Touching(r, r + 5 * i, r + 4 * i), true, e)
    case _ => Alone(r + 4 * i + q, row, Touching(r, r + 5 * i, r + 4 * i), true, e)
  }

  function SlowestAction(c: Timing, k: nat): Action
    requires 0 <= c.query <= Interval(c)
  {
    var i, q := Advance(Interval(c)), Advance(c.query);
    match k
    case 0 => Ask
    case 1 => UpdateExecutes
    case 3 => UpdateReturns
    case 4 => InsertExecutes
    case 6 => InsertReturns
    case 7 | 10 | 13 | 16 => i
    case 8 | 11 | 14 | 17 => Tick
    case 9 | 12 | 15 => TouchFails
    case _ => q
  }

  function SlowestRun(c: Timing): seq<State> {
    seq(20, k requires k >= 0 => SlowestState(c, k))
  }

  lemma SlowestTakes(c: Timing, k: nat)
    requires 0 <= c.query <= Interval(c) && c.ttl > 0 && k < 7
    ensures Step(c, SlowestState(c, k), SlowestState(c, k + 1), 0, SlowestAction(c, k))
  {
  }

  lemma SlowestRenews(c: Timing, k: nat)
    requires 0 <= c.query <= Interval(c) && c.ttl > 0 && !ThirdsAddUp(c) && 7 <= k < 13
    ensures Step(c, SlowestState(c, k), SlowestState(c, k + 1), 0, SlowestAction(c, k))
  {
  }

  lemma SlowestGivesUp(c: Timing, k: nat)
    requires 0 <= c.query <= Interval(c) && c.ttl > 0 && !ThirdsAddUp(c) && 13 <= k < 19
    ensures Step(c, SlowestState(c, k), SlowestState(c, k + 1), 0, SlowestAction(c, k))
  {
  }

  lemma SlowestIsOnTime(c: Timing, k: nat)
    requires 0 <= c.query <= Interval(c) && k < 20
    ensures OnTime(c, SlowestState(c, k))
  {
  }

  /** Two queries' grace is enough for every timing whose thirds add up, and for no other: where they
      do not, this run still has a live context later than that, at the full grace period. */
  lemma GraceIsReached(c: Timing)
    requires 0 <= c.query <= Interval(c) && !ThirdsAddUp(c)
    ensures TimelyRun(c, SlowestRun(c))
    ensures
      var last := SlowestRun(c)[|SlowestRun(c)| - 1];
      && last.processes[0].live && last.now == last.processes[0].claim + Grace(c)
      && last.now > last.processes[0].claim + Interval(c) + 2 * c.query
  {
    hide SlowestState, SlowestAction, Step, OnTime;
    var states := SlowestRun(c);
    forall k | 0 <= k < |states| - 1 ensures Next(c, states[k], states[k + 1]) {
      if k < 7 {
        SlowestTakes(c, k);
      } else if k < 13 {
        SlowestRenews(c, k);
      } else {
        SlowestGivesUp(c, k);
      }
    }
    forall k | 0 <= k < |states| ensures OnTime(c, states[k]) {
      SlowestIsOnTime(c, k);
    }
    SlowestEnds(c);
  }

  lemma SlowestEnds(c: Timing)
    requires 0 <= c.query <= Interval(c) && !ThirdsAddUp(c)
    ensures c.ttl > 0 && Init(SlowestState(c, 0))
    ensures
      var last := SlowestState(c, 19);
      last.processes.Keys == {0} && last.processes[0].live && last.now == last.processes[0].claim + Grace(c)
  {
  }
}
