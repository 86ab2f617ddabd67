/** Award delivery as a function of what the database and GitLab hold.

    A pass talks to two stores that can each fail. Every statement sent to either one takes the next
    `Fate` of a script: it works, it fails, or it works while the caller sees an error. A script that
    has run out is a crash, so a claim about every script is a claim about a crash between any two
    statements, and about the context of a lost lease ending the pass. */
module Awards {

  /** Where an award stands in the delivery lifecycle (db.AwardStatus). */
  datatype Status = Pending | Accepted | Failed | Superseded

  /** One tier of one criteria, and the GitLab achievement it is bound to. */
  datatype Definition = Definition(criteria: string, tier: int, achievement: int)

  /** An awards row; `record` is the ID of the GitLab award it stands for, or 0. */
  datatype Row = Row(user: int, definition: int, status: Status, record: int)

  /** An award GitLab holds. Its ID is its position counted from 1; a revoked one stays listed. */
  datatype Record = Record(achievement: int, owner: int, live: bool)

  /** Both stores. `names` gives the account a stored username answers for, where it has gone stale. */
  datatype World = World(rows: map<int, Row>, records: seq<Record>, names: map<int, int>)

  type Catalog = map<int, Definition>

  datatype Fate = Works | Fails | WorksUnseen

  /** What a pass knows GitLab to hold for one user (heldAwards). */
  datatype Held = Unloaded | Broken | Loaded(byAchievement: map<int, int>, byId: set<int>)

  /** A mutation sent to GitLab, whatever became of it. */
  datatype Call = AwardCall(achievement: int, user: int) | RevokeCall(record: int)

  datatype Report = Report(confirmed: nat, failed: nat, superseded: nat, adopted: nat)

  /** A pass in flight. Once `halted` nothing further happens in it. */
  datatype Pass = Pass(world: World, held: Held, fates: seq<Fate>, calls: seq<Call>, report: Report, halted: bool)

  /** One user's turn in a pass: their rows, in the order the database lists them. */
  datatype Visit = Visit(user: int, order: seq<int>)

  datatype Written = Done | Moved | Stopped

  // ---- What GitLab holds ----

  predicate IsLive(records: seq<Record>, id: int) {
    1 <= id <= |records| && records[id - 1].live
  }

  predicate LiveFor(records: seq<Record>, id: int, achievement: int, user: int) {
    IsLive(records, id) && records[id - 1].achievement == achievement && records[id - 1].owner == user
  }

  /** No user holds two live awards of one achievement. */
  ghost predicate Safe(records: seq<Record>) {
    forall i, j, a, u :: LiveFor(records, i, a, u) && LiveFor(records, j, a, u) ==> i == j
  }

  function Answers(w: World, user: int): int {
    if user in w.names then w.names[user] else user
  }

  predicate OwnsAny(records: seq<Record>, account: int) {
    exists i :: 0 <= i < |records| && records[i].owner == account
  }

  /** The stored username still names the user, or names somebody whose awards give it away. */
  predicate NameSound(w: World, user: int) {
    Answers(w, user) == user || OwnsAny(w.records, Answers(w, user))
  }

  predicate Holds(records: seq<Record>, user: int, id: int) {
    IsLive(records, id) && records[id - 1].owner == user
  }

  /** The live ones among a user's first n records. */
  function LiveIds(records: seq<Record>, user: int, n: nat): set<int>
    requires n <= |records|
  {
    set id | 1 <= id <= n && Holds(records, user, id)
  }

  /** The live award listed last for each achievement, among the first n records. */
  function ByAchievement(records: seq<Record>, user: int, n: nat): map<int, int>
    requires n <= |records|
  {
    if n == 0 then map[]
    else
      var rest := ByAchievement(records, user, n - 1);
      if Holds(records, user, n) then rest[records[n - 1].achievement := n] else rest
  }

  /** What listing by the stored username leaves a pass with. */
  function Listing(w: World, user: int): Held {
    var account := Answers(w, user);
    if account == user then Loaded(ByAchievement(w.records, user, |w.records|), LiveIds(w.records, user, |w.records|))
    else if OwnsAny(w.records, account) then Broken
    else Loaded(map[], {})
  }

  // ---- Statements, each at the mercy of one fate ----

  function Spend(s: Pass): Pass
    requires s.fates != []
  {
    s.(fates := s.fates[1..])
  }

  function Halt(s: Pass): Pass {
    s.(halted := true)
  }

  function Load(s: Pass, user: int): Pass {
    if s.held != Unloaded then s
    else if s.fates == [] then Halt(s)
    else if s.fates[0] != Works then Spend(s).(held := Broken)
    else Spend(s).(held := Listing(s.world, user))
  }

  /** Sends the award; answers its ID, or 0 when the caller sees an error. */
  function Award(s: Pass, achievement: int, user: int): (r: (Pass, int))
    ensures Grows(s.world, r.0.world)
  {
    if s.fates == [] then (Halt(s), 0)
    else
      var sent := Spend(s).(calls := s.calls + [AwardCall(achievement, user)]);
      var made := sent.(world := s.world.(records := s.world.records + [Record(achievement, user, true)]));
      var id := |made.world.records|;
      match s.fates[0]
      case Fails => (sent, 0)
      case WorksUnseen => (made, 0)
      case Works => (made.(held := Remembered(s.held, achievement, id)), id)
  }

  function Remembered(held: Held, achievement: int, id: int): Held {
    if held.Loaded? then Loaded(held.byAchievement[achievement := id], held.byId + {id}) else held
  }

  function Forgotten(held: Held, achievement: int, id: int): Held {
    if held.Loaded? then Loaded(held.byAchievement - {achievement}, held.byId - {id}) else held
  }

  /** Takes an award off its owner; GitLab refuses one that is not live. */
  function Revoke(s: Pass, id: int): (r: (Pass, bool))
    ensures Grows(s.world, r.0.world)
  {
    if s.fates == [] then (Halt(s), false)
    else
      var sent := Spend(s).(calls := s.calls + [RevokeCall(id)]);
      if s.fates[0] == Fails || !IsLive(s.world.records, id) then (sent, false)
      else
        var was := s.world.records[id - 1];
        var made := sent.(world := s.world.(records := s.world.records[id - 1 := was.(live := false)]));
        if s.fates[0] == WorksUnseen then (made, false)
        else (made.(held := Forgotten(s.held, was.achievement, id)), true)
  }

  /** Writes a row back only while it still holds the status and ID this pass read. */
  function Transition(s: Pass, id: int, read: Row, status: Status, record: int): (r: (Pass, Written))
    ensures SameRows(s.world.rows, r.0.world.rows) && SameOutside(s, r.0)
  {
    if s.fates == [] || s.fates[0] == Fails then (Halt(s), Stopped)
    else
      var sent := Spend(s);
      var same := id in s.world.rows && s.world.rows[id].status == read.status && s.world.rows[id].record == read.record;
      var made :=
        if same then sent.(world := s.world.(rows := s.world.rows[id := s.world.rows[id].(status := status, record := record)]))
        else sent;
      if s.fates[0] == WorksUnseen then (Halt(made), Stopped)
      else (made, if same then Done else Moved)
  }

  // ---- The steps of a pass ----

  function RecordDelivered(s: Pass, id: int, award: Row, record: int): (r: (Pass, Written))
    ensures SameRows(s.world.rows, r.0.world.rows) && SameOutside(s, r.0)
  {
    var (written, outcome) := Transition(s, id, award, Accepted, record);
    if outcome == Done then (written.(report := written.report.(confirmed := written.report.confirmed + 1)), Done)
    else (written, outcome)
  }

  function RecordFailure(s: Pass, id: int, award: Row): (r: Pass)
    ensures SameRows(s.world.rows, r.world.rows) && SameOutside(s, r)
  {
    var (written, outcome) := Transition(s, id, award, Failed, award.record);
    if outcome == Done then written.(report := written.report.(failed := written.report.failed + 1)) else written
  }

  function DeliverAward(s: Pass, id: int, award: Row, achievement: int): (r: Pass)
    ensures SameRows(s.world.rows, r.world.rows)
  {
    if award.status == Accepted && award.record != 0 then s
    else
      var loaded := Load(s, award.user);
      if loaded.halted then loaded
      else if !loaded.held.Loaded? then RecordFailure(loaded, id, award)
      else if achievement in loaded.held.byAchievement then
        var (written, outcome) := RecordDelivered(loaded, id, award, loaded.held.byAchievement[achievement]);
        if outcome == Done then written.(report := written.report.(adopted := written.report.adopted + 1)) else written
      else
        var (sent, record) := Award(loaded, achievement, award.user);
        if sent.halted then sent
        else if record == 0 then RecordFailure(sent, id, award)
        else
          var (written, outcome) := RecordDelivered(sent, id, award, record);
          if outcome == Moved then Revoke(written, record).0 else written
  }

  /** The live award a superseded tier still stands for, or 0. */
  function HeldUnder(held: Held, award: Row, achievement: int): int
    requires held.Loaded?
  {
    if award.record != 0 then if award.record in held.byId then award.record else 0
    else if achievement in held.byAchievement then held.byAchievement[achievement]
    else 0
  }

  function SupersedeAward(s: Pass, id: int, award: Row, achievement: int): (r: Pass)
    ensures SameRows(s.world.rows, r.world.rows)
  {
    if award.status == Superseded then s
    else
      var loaded := Load(s, award.user);
      if loaded.halted then loaded
      else if !loaded.held.Loaded? then RecordFailure(loaded, id, award)
      else
        var live := HeldUnder(loaded.held, award, achievement);
        var (cleared, revoked) := if live != 0 then Revoke(loaded, live) else (loaded, true);
        if cleared.halted then cleared
        else if !revoked then RecordFailure(cleared, id, award)
        else
          var (written, outcome) := Transition(cleared, id, award, Superseded, award.record);
          if outcome == Done then written.(report := written.report.(superseded := written.report.superseded + 1))
          else written
  }

  /** The highest tier among the first n awards listed, per criteria; none counts as 0. */
  function TopTiers(rows: map<int, Row>, order: seq<int>, n: nat, catalog: Catalog): map<string, int>
    requires Describes(rows, order, catalog) && n <= |order|
  {
    if n == 0 then map[]
    else
      var rest := TopTiers(rows, order, n - 1, catalog);
      var definition := DefinitionOf(rows, order[n - 1], catalog);
      if definition.tier > TierIn(rest, definition.criteria) then rest[definition.criteria := definition.tier] else rest
  }

  function TierIn(top: map<string, int>, criteria: string): int {
    if criteria in top then top[criteria] else 0
  }

  predicate Described(rows: map<int, Row>, id: int, catalog: Catalog) {
    id in rows && rows[id].definition in catalog
  }

  function DefinitionOf(rows: map<int, Row>, id: int, catalog: Catalog): Definition
    requires Described(rows, id, catalog)
  {
    catalog[rows[id].definition]
  }

  /** Every row listed exists, and its definition with it. */
  predicate Describes(rows: map<int, Row>, order: seq<int>, catalog: Catalog) {
    forall k :: 0 <= k < |order| ==> Described(rows, order[k], catalog)
  }

  function Step(s: Pass, id: int, award: Row, definition: Definition, top: map<string, int>): (r: Pass)
    ensures SameRows(s.world.rows, r.world.rows)
  {
    if definition.tier == TierIn(top, definition.criteria) then DeliverAward(s, id, award, definition.achievement)
    else SupersedeAward(s, id, award, definition.achievement)
  }

  /** The first n awards listed, one after another, until the pass halts. */
  function Steps(s: Pass, rows: map<int, Row>, order: seq<int>, n: nat, top: map<string, int>, catalog: Catalog): Pass
    requires Describes(rows, order, catalog) && n <= |order|
  {
    if n == 0 then s
    else
      var before := Steps(s, rows, order, n - 1, top, catalog);
      var id := order[n - 1];
      if before.halted then before else Step(before, id, rows[id], DefinitionOf(rows, id, catalog), top)
  }

  function ReconcileUser(s: Pass, order: seq<int>, catalog: Catalog): Pass
    requires Describes(s.world.rows, order, catalog)
  {
    if s.fates == [] || s.fates[0] != Works then Halt(s)
    else
      var top := TopTiers(s.world.rows, order, |order|, catalog);
      Steps(Spend(s).(held := Unloaded), s.world.rows, order, |order|, top, catalog)
  }

  predicate Planned(rows: map<int, Row>, plan: seq<Visit>, catalog: Catalog) {
    forall k :: 0 <= k < |plan| ==> Describes(rows, plan[k].order, catalog)
  }

  /** The turns of the first n users. */
  function Visits(s: Pass, plan: seq<Visit>, n: nat, catalog: Catalog): (r: Pass)
    requires Planned(s.world.rows, plan, catalog) && n <= |plan|
    ensures SameRows(s.world.rows, r.world.rows)
  {
    if n == 0 then s
    else
      var before := Visits(s, plan, n - 1, catalog);
      var order := plan[n - 1].order;
      assert Describes(s.world.rows, order, catalog);
      if before.halted then before
      else
        UserKeepsRows(before, order, catalog);
        ReconcileUser(before, order, catalog)
  }

  /** A whole pass over the users holding awards (ReconcileAwards). */
  function Reconcile(w: World, plan: seq<Visit>, catalog: Catalog, fates: seq<Fate>): Pass
    requires Planned(w.rows, plan, catalog)
  {
    var s := Pass(w, Unloaded, fates, [], Report(0, 0, 0, 0), false);
    if fates == [] || fates[0] != Works then Halt(s) else Visits(Spend(s), plan, |plan|, catalog)
  }

  // ---- What a step leaves alone ----

  /** GitLab only adds awards and revokes them; the stored names are not touched. */
  ghost predicate Grows(before: World, after: World) {
    && after.names == before.names && |before.records| <= |after.records|
    && forall i :: 0 <= i < |before.records| ==>
         && after.records[i].owner == before.records[i].owner
         && after.records[i].achievement == before.records[i].achievement
         && (after.records[i].live ==> before.records[i].live)
  }

  /** Nothing was sent to GitLab, and what the pass knows of it is unchanged. */
  ghost predicate SameOutside(before: Pass, after: Pass) {
    && after.world.records == before.world.records && after.world.names == before.world.names
    && after.held == before.held && after.calls == before.calls
  }

  /** The same rows, of the same users and definitions. */
  ghost predicate SameRows(before: map<int, Row>, after: map<int, Row>) {
    && before.Keys == after.Keys
    && forall id :: id in before ==> after[id].user == before[id].user && after[id].definition == before[id].definition
  }

  lemma StepsKeepRows(s: Pass, rows: map<int, Row>, order: seq<int>, n: nat, top: map<string, int>, catalog: Catalog)
    requires Describes(rows, order, catalog) && n <= |order|
    ensures SameRows(s.world.rows, Steps(s, rows, order, n, top, catalog).world.rows)
  {
    if n > 0 {
      StepsKeepRows(s, rows, order, n - 1, top, catalog);
    }
  }

  lemma UserKeepsRows(s: Pass, order: seq<int>, catalog: Catalog)
    requires Describes(s.world.rows, order, catalog)
    ensures SameRows(s.world.rows, ReconcileUser(s, order, catalog).world.rows)
  {
    if s.fates != [] {
      StepsKeepRows(Spend(s).(held := Unloaded), s.world.rows, order, |order|,
                    TopTiers(s.world.rows, order, |order|, catalog), catalog);
    }
  }

  lemma PlanSurvives(before: map<int, Row>, after: map<int, Row>, plan: seq<Visit>, catalog: Catalog)
    requires SameRows(before, after) && Planned(before, plan, catalog)
    ensures Planned(after, plan, catalog)
  {
    forall k | 0 <= k < |plan| ensures Describes(after, plan[k].order, catalog) {
      forall m | 0 <= m < |plan[k].order| ensures Described(after, plan[k].order[m], catalog) {
        assert Described(before, plan[k].order[m], catalog);
      }
    }
  }
}
