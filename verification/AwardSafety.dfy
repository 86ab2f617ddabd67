/** No run of award delivery leaves a user with two live awards of one achievement.

    Awarding is not idempotent on GitLab's side, so the danger is every retry: an award that was made
    while the caller saw an error, or by a pass that crashed before recording it. The run theorem is
    `NeverTwoLive`; `StaleNameAwardsTwice` shows the one listing that defeats it. */
module AwardSafety {
  import opened Awards

  // ---- Runs ----

  /** What can happen to the two stores between passes, or be a pass. */
  datatype Happening =
    | Deliver(plan: seq<Visit>, catalog: Catalog, fates: seq<Fate>)
    | Earn(id: int, user: int, definition: int)
    | RevokedElsewhere(record: int)
    | Rename(names: map<int, int>)

  /** Two awards of one listing never share an achievement. */
  ghost predicate DistinctTargets(rows: map<int, Row>, order: seq<int>, catalog: Catalog)
    requires Describes(rows, order, catalog)
  {
    forall j, k :: 0 <= j < k < |order| ==>
      DefinitionOf(rows, order[j], catalog).achievement != DefinitionOf(rows, order[k], catalog).achievement
  }

  /** The rows of a visit are its user's, and no two are for one achievement. */
  ghost predicate VisitFits(rows: map<int, Row>, visit: Visit, catalog: Catalog) {
    && Describes(rows, visit.order, catalog)
    && (forall k :: 0 <= k < |visit.order| ==> rows[visit.order[k]].user == visit.user)
    && DistinctTargets(rows, visit.order, catalog)
  }

  ghost predicate PlanFits(w: World, plan: seq<Visit>, catalog: Catalog) {
    && (forall k :: 0 <= k < |plan| ==> VisitFits(w.rows, plan[k], catalog))
    && (forall k :: 0 <= k < |plan| ==> NameSound(w, plan[k].user))
  }

  ghost predicate CanHappen(w: World, h: Happening) {
    match h
    case Deliver(plan, catalog, fates) => PlanFits(w, plan, catalog)
    case Earn(id, user, definition) => id !in w.rows
    case RevokedElsewhere(record) => true
    case Rename(names) => true
  }

  function After(w: World, h: Happening): World
    requires CanHappen(w, h)
  {
    match h
    case Deliver(plan, catalog, fates) => Reconcile(w, plan, catalog, fates).world
    case Earn(id, user, definition) => w.(rows := w.rows[id := Row(user, definition, Pending, 0)])
    case RevokedElsewhere(record) =>
      if IsLive(w.records, record)
      then w.(records := w.records[record - 1 := w.records[record - 1].(live := false)]) else w
    case Rename(names) => w.(names := names)
  }

  /** The first n happenings can follow one another from w. */
  ghost predicate CanRun(w: World, hs: seq<Happening>, n: nat)
    requires n <= |hs|
    decreases n, 0
  {
    n == 0 || (CanRun(w, hs, n - 1) && CanHappen(Run(w, hs, n - 1), hs[n - 1]))
  }

  ghost function Run(w: World, hs: seq<Happening>, n: nat): World
    requires n <= |hs| && CanRun(w, hs, n)
    decreases n, 1
  {
    if n == 0 then w else After(Run(w, hs, n - 1), hs[n - 1])
  }

  // ---- What a pass knows, against what GitLab holds ----

  /** Nothing live among `todo` has escaped the listing, and everything listed is the user's. */
  ghost predicate Covers(held: Held, records: seq<Record>, user: int, todo: set<int>) {
    held.Loaded? ==>
      && (forall a, id :: a in todo && LiveFor(records, id, a, user) ==> a in held.byAchievement)
      && (forall id :: id in held.byId ==> Owns(records, user, id))
      && (forall a :: a in held.byAchievement ==> Owns(records, user, held.byAchievement[a]))
  }

  predicate Owns(records: seq<Record>, user: int, id: int) {
    1 <= id <= |records| && records[id - 1].owner == user
  }

  ghost predicate Guarded(s: Pass, user: int, todo: set<int>) {
    Safe(s.world.records) && NameSound(s.world, user) && Covers(s.held, s.world.records, user, todo)
  }

  lemma {:induction false} ListedExactly(records: seq<Record>, user: int, n: nat)
    requires n <= |records|
    ensures var m := ByAchievement(records, user, n);
      && (forall a :: a in m ==> m[a] <= n && LiveFor(records, m[a], a, user))
      && (forall a, id :: LiveFor(records, id, a, user) && id <= n ==> a in m)
  {
    if n > 0 {
      ListedExactly(records, user, n - 1);
      var rest, m := ByAchievement(records, user, n - 1), ByAchievement(records, user, n);
      forall a, id | LiveFor(records, id, a, user) && id <= n ensures a in m {
        assert id <= n - 1 ==> a in rest;
      }
    }
  }

  lemma LoadGuards(s: Pass, user: int, todo: set<int>)
    requires Guarded(s, user, todo)
    ensures var r := Load(s, user); r.world == s.world && Guarded(r, user, todo)
  {
    ListedExactly(s.world.records, user, |s.world.records|);
  }

  lemma AwardGuards(s: Pass, a: int, user: int, todo: set<int>)
    requires Guarded(s, user, todo) && s.held.Loaded? && a in todo && a !in s.held.byAchievement
    ensures var (r, id) := Award(s, a, user);
      && Guarded(r, user, todo - {a})
      && (id != 0 ==> LiveFor(r.world.records, id, a, user))
  {
    var r := Award(s, a, user).0;
    forall i, j, b, u | LiveFor(r.world.records, i, b, u) && LiveFor(r.world.records, j, b, u)
      ensures i == j
    {
      if i <= |s.world.records| { assert LiveFor(s.world.records, i, b, u); }
      if j <= |s.world.records| { assert LiveFor(s.world.records, j, b, u); }
    }
    forall b, id | r.held.Loaded? && b in todo - {a} && LiveFor(r.world.records, id, b, user)
      ensures b in r.held.byAchievement
    {
      assert LiveFor(s.world.records, id, b, user);
    }
    NamesStaySound(s.world, r.world, user);
  }

  lemma NamesStaySound(before: World, after: World, user: int)
    requires NameSound(before, user) && Grows(before, after)
    ensures NameSound(after, user)
  {
    var account := Answers(before, user);
    if account != user {
      var i :| 0 <= i < |before.records| && before.records[i].owner == account;
      assert after.records[i].owner == account;
    }
  }

  lemma RevokeGuards(s: Pass, id: int, user: int, todo: set<int>)
    requires Guarded(s, user, todo) && Owns(s.world.records, user, id)
    ensures Guarded(Revoke(s, id).0, user, todo)
  {
    var r := Revoke(s, id).0;
    forall i, a, u | LiveFor(r.world.records, i, a, u) ensures LiveFor(s.world.records, i, a, u) { }
    NamesStaySound(s.world, r.world, user);
    forall b, i | r.held.Loaded? && b in todo && LiveFor(r.world.records, i, b, user)
      ensures b in r.held.byAchievement
    {
      assert LiveFor(s.world.records, i, b, user);
      if b == s.world.records[id - 1].achievement && IsLive(s.world.records, id) {
        assert LiveFor(s.world.records, id, b, user);
      }
    }
  }

  // ---- One award, one user, one pass ----

  lemma DeliverGuards(s: Pass, id: int, award: Row, a: int, todo: set<int>)
    requires Guarded(s, award.user, todo) && a in todo
    ensures Guarded(DeliverAward(s, id, award, a), award.user, todo - {a})
  {
    LoadGuards(s, award.user, todo);
    var loaded := Load(s, award.user);
    if !loaded.halted && loaded.held.Loaded? && a !in loaded.held.byAchievement {
      AwardGuards(loaded, a, award.user, todo);
      var (sent, record) := Award(loaded, a, award.user);
      if !sent.halted && record != 0 {
        RevokeGuards(RecordDelivered(sent, id, award, record).0, record, award.user, todo - {a});
      }
    }
  }

  lemma SupersedeGuards(s: Pass, id: int, award: Row, a: int, todo: set<int>)
    requires Guarded(s, award.user, todo)
    ensures Guarded(SupersedeAward(s, id, award, a), award.user, todo)
  {
    hide Transition, RecordFailure;
    LoadGuards(s, award.user, todo);
    var loaded := Load(s, award.user);
    if !loaded.halted && loaded.held.Loaded? {
      var live := HeldUnder(loaded.held, award, a);
      if live != 0 {
        RevokeGuards(loaded, live, award.user, todo);
      }
    }
  }

  /** The achievements of the awards listed from position n on. */
  ghost function Targets(rows: map<int, Row>, order: seq<int>, n: nat, catalog: Catalog): set<int>
    requires Describes(rows, order, catalog) && n <= |order|
  {
    set k | n <= k < |order| :: DefinitionOf(rows, order[k], catalog).achievement
  }

  lemma {:induction false} StepsGuard(s: Pass, rows: map<int, Row>, visit: Visit, n: nat, top: map<string, int>, catalog: Catalog)
    requires VisitFits(rows, visit, catalog) && n <= |visit.order|
    requires Guarded(s, visit.user, Targets(rows, visit.order, 0, catalog))
    ensures Guarded(Steps(s, rows, visit.order, n, top, catalog), visit.user, Targets(rows, visit.order, n, catalog))
  {
    var order := visit.order;
    if n > 0 {
      StepsGuard(s, rows, visit, n - 1, top, catalog);
      var before := Steps(s, rows, order, n - 1, top, catalog);
      var id := order[n - 1];
      var a := DefinitionOf(rows, id, catalog).achievement;
      assert Targets(rows, order, n, catalog) == Targets(rows, order, n - 1, catalog) - {a};
      if !before.halted {
        DeliverGuards(before, id, rows[id], a, Targets(rows, order, n - 1, catalog));
        SupersedeGuards(before, id, rows[id], a, Targets(rows, order, n - 1, catalog));
      }
    }
  }

  /** Delivery never forgets whom an award was made to. */
  lemma StepGrows(s: Pass, id: int, award: Row, definition: Definition, top: map<string, int>)
    ensures var r := Step(s, id, award, definition, top);
      Grows(s.world, r.world)
  {
    DeliverGrows(s, id, award, definition.achievement);
    SupersedeGrows(s, id, award, definition.achievement);
  }

  lemma DeliverGrows(s: Pass, id: int, award: Row, a: int)
    ensures var r := DeliverAward(s, id, award, a);
      Grows(s.world, r.world)
  {
    hide Load, Award, Transition, RecordDelivered, RecordFailure, Revoke;
    LoadKeepsWorld(s, award.user);
  }

  lemma SupersedeGrows(s: Pass, id: int, award: Row, a: int)
    ensures var r := SupersedeAward(s, id, award, a);
      Grows(s.world, r.world)
  {
    hide Load, Transition, RecordFailure, Revoke;
    LoadKeepsWorld(s, award.user);
  }

  lemma LoadKeepsWorld(s: Pass, user: int)
    ensures Load(s, user).world == s.world
  {
  }

  lemma {:induction false} StepsGrow(s: Pass, rows: map<int, Row>, order: seq<int>, n: nat, top: map<string, int>, catalog: Catalog)
    requires Describes(rows, order, catalog) && n <= |order|
    ensures var r := Steps(s, rows, order, n, top, catalog);
      Grows(s.world, r.world)
  {
    if n > 0 {
      StepsGrow(s, rows, order, n - 1, top, catalog);
      var before := Steps(s, rows, order, n - 1, top, catalog);
      StepGrows(before, order[n - 1], rows[order[n - 1]], DefinitionOf(rows, order[n - 1], catalog), top);
    }
  }

  lemma UserStaysSafe(s: Pass, visit: Visit, catalog: Catalog)
    requires VisitFits(s.world.rows, visit, catalog) && NameSound(s.world, visit.user) && Safe(s.world.records)
    ensures var r := ReconcileUser(s, visit.order, catalog);
      Safe(r.world.records) && Grows(s.world, r.world)
  {
    if s.fates != [] {
      var top := TopTiers(s.world.rows, visit.order, |visit.order|, catalog);
      StepsGuard(Spend(s).(held := Unloaded), s.world.rows, visit, |visit.order|, top, catalog);
      StepsGrow(Spend(s).(held := Unloaded), s.world.rows, visit.order, |visit.order|, top, catalog);
    }
  }

  lemma {:induction false} VisitsStaySafe(s: Pass, plan: seq<Visit>, n: nat, catalog: Catalog)
    requires PlanFits(s.world, plan, catalog) && Safe(s.world.records) && n <= |plan|
    ensures var r := Visits(s, plan, n, catalog);
      Safe(r.world.records) && Grows(s.world, r.world)
  {
    if n > 0 {
      VisitsStaySafe(s, plan, n - 1, catalog);
      var before := Visits(s, plan, n - 1, catalog);
      if !before.halted {
        assert VisitFits(s.world.rows, plan[n - 1], catalog);
        NamesStaySound(s.world, before.world, plan[n - 1].user);
        UserStaysSafe(before, plan[n - 1], catalog);
      }
    }
  }

  /** One pass, whatever its calls come to and wherever it crashes, adds no duplicate. */
  lemma PassStaysSafe(w: World, plan: seq<Visit>, catalog: Catalog, fates: seq<Fate>)
    requires PlanFits(w, plan, catalog) && Safe(w.records)
    ensures Safe(Reconcile(w, plan, catalog, fates).world.records)
  {
    var s := Pass(w, Unloaded, fates, [], Report(0, 0, 0, 0), false);
    if fates != [] {
      VisitsStaySafe(Spend(s), plan, |plan|, catalog);
    }
  }

  /** The run theorem: catalogs may be retuned, names go stale, awards be earned and be revoked by
      others between passes, and every pass fail or crash anywhere, yet no duplicate ever exists. */
  lemma {:induction false} NeverTwoLive(w: World, hs: seq<Happening>, n: nat)
    requires n <= |hs| && CanRun(w, hs, n) && Safe(w.records)
    ensures Safe(Run(w, hs, n).records)
  {
    if n > 0 {
      NeverTwoLive(w, hs, n - 1);
      var before := Run(w, hs, n - 1);
      match hs[n - 1]
      case Deliver(plan, catalog, fates) => PassStaysSafe(before, plan, catalog, fates);
      case RevokedElsewhere(record) =>
        forall i, a, u | LiveFor(Run(w, hs, n).records, i, a, u) ensures LiveFor(before.records, i, a, u) { }
      case _ =>
    }
  }

  // ---- The listing that defeats it ----

  /** An award made but not recorded is awarded again, by a pass all of whose calls succeed, exactly
      when the stored username has come to name an account that owns no award at all. */
  lemma StaleNameAwardsTwice(s: Pass, id: int, award: Row, a: int, lost: int)
    requires !s.halted && s.held == Unloaded && Safe(s.world.records)
    requires id in s.world.rows && s.world.rows[id] == award
    requires award.status != Accepted || award.record == 0
    requires LiveFor(s.world.records, lost, a, award.user)
    requires |s.fates| >= 2 && s.fates[0] == s.fates[1] == Works
    ensures Safe(DeliverAward(s, id, award, a).world.records) <==> NameSound(s.world, award.user)
  {
    if NameSound(s.world, award.user) {
      LoadGuards(s, award.user, {a});
      DeliverGuards(s, id, award, a, {a});
    } else {
      var loaded := Load(s, award.user);
      var (sent, record) := Award(loaded, a, award.user);
      var written := RecordDelivered(sent, id, award, record);
      assert written.0.world.records == sent.world.records;
      if written.1 != Moved {
        assert LiveFor(sent.world.records, lost, a, award.user) && LiveFor(sent.world.records, record, a, award.user);
      }
    }
  }
}
