/** Award delivery under a catalog that changes between passes. A pass without failures always heals what a
    retune leaves, exactly when every row can still come right; and only a write that was lost after GitLab
    had acted can take that away. */
module AwardRetune {
  import opened Awards
  import opened AwardSafety
  import opened AwardTurns
  import opened AwardConvergence

  /** The two stores and the catalog of the day. */
  datatype Site = Site(world: World, catalog: Catalog)

  datatype Change =
    | Delivery(plan: seq<Visit>, fates: seq<Fate>)
    | Earning(id: int, user: int, definition: int)
    | Revoking(record: int)
    | Renaming(names: map<int, int>)
    | Retuning(catalog: Catalog)

  /** Definitions may change criteria and tier and may be added, but none goes, and none is bound anew; an
      achievement that is new to the catalog is one nobody holds. */
  ghost predicate Retunes(w: World, c: Catalog, d: Catalog) {
    && CatalogOk(d) && (forall x :: x in c ==> x in d && d[x].achievement == c[x].achievement)
    && (forall i, a, u :: LiveFor(w.records, i, a, u) && Ours(a, d) ==> Ours(a, c))
  }

  ghost predicate Visitable(s: Site, plan: seq<Visit>) {
    && PlanLists(s.world.rows, plan) && Planned(s.world.rows, plan, s.catalog)
    && (forall k :: 0 <= k < |plan| ==> NameSound(s.world, plan[k].user))
  }

  ghost predicate CanChange(s: Site, h: Change) {
    match h
    case Delivery(plan, fates) => Visitable(s, plan)
    case Earning(id, user, definition) => CanHappenUnder(s.world, Earn(id, user, definition), s.catalog)
    case Revoking(record) => true
    case Renaming(names) => true
    case Retuning(catalog) => Retunes(s.world, s.catalog, catalog)
  }

  ghost function Changed(s: Site, h: Change): Site
    requires CanChange(s, h)
  {
    match h
    case Delivery(plan, fates) => s.(world := Reconcile(s.world, plan, s.catalog, fates).world)
    case Earning(id, user, definition) => s.(world := s.world.(rows := s.world.rows[id := Row(user, definition, Pending, 0)]))
    case Revoking(record) => s.(world := After(s.world, RevokedElsewhere(record)))
    case Renaming(names) => s.(world := s.world.(names := names))
    case Retuning(catalog) => s.(catalog := catalog)
  }

  /** The first n changes can follow one another. */
  ghost predicate CanFollow(s: Site, hs: seq<Change>, n: nat)
    requires n <= |hs|
    decreases n, 0
  {
    n == 0 || (CanFollow(s, hs, n - 1) && CanChange(Following(s, hs, n - 1), hs[n - 1]))
  }

  ghost function Following(s: Site, hs: seq<Change>, n: nat): Site
    requires n <= |hs| && CanFollow(s, hs, n)
    decreases n, 1
  {
    if n == 0 then s else Changed(Following(s, hs, n - 1), hs[n - 1])
  }

  // ---- What every change keeps ----

  lemma RetuningKeepsRows(rows: map<int, Row>, c: Catalog, d: Catalog)
    requires RowsOk(rows, c) && forall x :: x in c ==> x in d && d[x].achievement == c[x].achievement
    ensures RowsOk(rows, d) && forall id :: id in rows ==> Target(rows, id, d) == Target(rows, id, c)
  {
    forall id | id in rows ensures Described(rows, id, d) { assert Described(rows, id, c); }
  }

  lemma RetuningKeepsBase(w: World, c: Catalog, d: Catalog)
    requires Base(w, c) && Retunes(w, c, d)
    ensures Base(w, d)
  {
    hide CatalogOk, RowsOk, RowOwn, Safe;
    BaseRows(w, c);
    RetuningKeepsRows(w.rows, c, d);
    forall i, a, u | LiveFor(w.records, i, a, u) && Ours(a, d) ensures Earned(w.rows, a, u, d) {
      assert Earned(w.rows, a, u, c);
      var id :| id in w.rows && w.rows[id].user == u && Target(w.rows, id, c) == a;
    }
  }

  lemma RevokingKeepsBase(w: World, c: Catalog, record: int)
    requires Base(w, c)
    ensures Base(After(w, RevokedElsewhere(record)), c)
  {
    var r := After(w, RevokedElsewhere(record));
    forall i, a, u | LiveFor(r.records, i, a, u) ensures LiveFor(w.records, i, a, u) { }
  }

  /** Whatever happens, catalogs included, no user holds two live awards of one achievement, every live award
      of ours is some row's, and a row records awards of its own only. */
  lemma {:induction false} EveryRunKeepsBase(s: Site, hs: seq<Change>, n: nat)
    requires n <= |hs| && CanFollow(s, hs, n) && Base(s.world, s.catalog)
    ensures Base(Following(s, hs, n).world, Following(s, hs, n).catalog)
  {
    hide Base, Reconcile, After, Retunes, RowsOk, CanHappenUnder, Carried;
    if n > 0 {
      EveryRunKeepsBase(s, hs, n - 1);
      var before := Following(s, hs, n - 1);
      match hs[n - 1]
      case Delivery(plan, fates) => PassKeepsHealing(before.world, plan, before.catalog, fates);
      case Earning(id, user, definition) => EarningKeepsBase(before.world, id, user, definition, before.catalog);
      case Revoking(record) => RevokingKeepsBase(before.world, before.catalog, record);
      case Renaming(names) => RenamingKeepsBase(before.world, names, before.catalog);
      case Retuning(catalog) => RetuningKeepsBase(before.world, before.catalog, catalog);
    }
  }

  lemma RenamingKeepsBase(w: World, names: map<int, int>, c: Catalog)
    requires Base(w, c)
    ensures Base(w.(names := names), c)
  {
  }

  /** After any run, a pass whose calls all work leaves a user's live awards exactly the top tiers of the
      catalog it runs under if and only if each of their rows could come right. */
  lemma {:induction false} RetunedRunConverges(s: Site, hs: seq<Change>, plan: seq<Visit>, fates: seq<Fate>)
    requires CanFollow(s, hs, |hs|) && Base(s.world, s.catalog)
    requires var reached := Following(s, hs, |hs|);
      && PlanLists(reached.world.rows, plan) && Planned(reached.world.rows, plan, reached.catalog)
      && (forall k :: 0 <= k < |plan| ==> Answers(reached.world, plan[k].user) == plan[k].user)
    requires AllWork(fates) && |fates| > Budget(plan, |plan|)
    ensures
      var reached := Following(s, hs, |hs|);
      var w, c, r := reached.world, reached.catalog, Reconcile(reached.world, plan, reached.catalog, fates).world;
      && Base(r, c) && RowsOk(w.rows, c) && RowsOk(r.rows, c)
      && forall k :: 0 <= k < |plan| ==> (HoldsExactlyTheTop(r, plan[k].user, c) <==> UserHeals(w, plan[k].user, c))
  {
    hide Base, Reconcile, HoldsExactlyTheTop, UserRests, UserHeals, RowsOk;
    var reached := Following(s, hs, |hs|);
    EveryRunKeepsBase(s, hs, |hs|);
    SmoothPassEnds(reached.world, plan, reached.catalog, fates);
    SmoothPassConverges(reached.world, plan, reached.catalog, fates);
    BaseRows(Reconcile(reached.world, plan, reached.catalog, fates).world, reached.catalog);
  }

  // ---- When every pass goes well, every retune heals ----

  /** A row that comes right whichever tier a retune makes of it. */
  ghost predicate HealsAnyhow(w: World, id: int, c: Catalog)
    requires RowsOk(w.rows, c) && id in w.rows
  {
    var row, a := w.rows[id], Target(w.rows, id, c);
    Heals(w.records, row, a, true) && Heals(w.records, row, a, false)
  }

  ghost predicate AllHealAnyhow(w: World, c: Catalog)
    requires RowsOk(w.rows, c)
  {
    forall id :: id in w.rows ==> HealsAnyhow(w, id, c)
  }

  lemma AnyhowIsEither(w: World, user: int, c: Catalog)
    requires RowsOk(w.rows, c) && AllHealAnyhow(w, c)
    ensures UserHeals(w, user, c)
  {
    hide IsTop, Heals;
    forall id | id in w.rows && w.rows[id].user == user ensures RowHeals(w, id, c) {
      assert HealsAnyhow(w, id, c);
    }
  }

  /** What a pass leaves at rest and right comes right under every other catalog too. */
  lemma HoldingHealsAnyhow(w: World, user: int, c: Catalog, id: int)
    requires Base(w, c) && HoldsExactlyTheTop(w, user, c) && id in w.rows && w.rows[id].user == user
    ensures HealsAnyhow(w, id, c)
  {
    hide HoldsExactlyTheTop, IsTop;
    HoldingRests(w, user, id, c);
    assert RowAtRest(w, id, c) && RowHeals(w, id, c);
  }

  /** The promise that a retune heals on the next pass: where GitLab holds exactly a user's top tiers under
      one catalog, the next pass without failures makes it so under any other. */
  lemma RetuneHeals(w: World, c: Catalog, d: Catalog, user: int)
    requires Base(w, c) && HoldsExactlyTheTop(w, user, c) && Retunes(w, c, d)
    ensures Base(w, d) && UserHeals(w, user, d)
  {
    hide Base, HoldsExactlyTheTop, IsTop, Heals, Retunes;
    BaseRows(w, c);
    RetuningKeepsBase(w, c, d);
    RetuneTargets(w, c, d);
    BaseRows(w, d);
    forall id | id in w.rows && w.rows[id].user == user ensures RowHeals(w, id, d) {
      HoldingHealsAnyhow(w, user, c, id);
      assert HealsAnyhow(w, id, c);
    }
  }

  lemma RetuneTargets(w: World, c: Catalog, d: Catalog)
    requires RowsOk(w.rows, c) && Retunes(w, c, d)
    ensures RowsOk(w.rows, d) && forall id :: id in w.rows ==> Target(w.rows, id, d) == Target(w.rows, id, c)
  {
    RetuningKeepsRows(w.rows, c, d);
  }

  /** Nothing goes wrong in any pass, and nobody else takes awards away. */
  ghost predicate AllSmooth(s: Site, hs: seq<Change>, n: nat)
    requires n <= |hs| && CanFollow(s, hs, n)
  {
    forall i :: 0 <= i < n ==> CanFollow(s, hs, i) && SmoothChange(Following(s, hs, i), hs[i])
  }

  ghost predicate SmoothChange(s: Site, h: Change) {
    match h
    case Delivery(plan, fates) =>
      Visitable(s, plan) && AllWork(fates) && |fates| > Budget(plan, |plan|) && forall k :: 0 <= k < |plan| ==> Answers(s.world, plan[k].user) == plan[k].user
    case Revoking(_) => false
    case _ => true
  }

  /** Whoever a pass visited holds exactly their top tiers. */
  ghost predicate VisitedHold(s: Site, h: Change)
    requires RowsOk(s.world.rows, s.catalog)
  {
    match h
    case Delivery(plan, _) => forall k :: 0 <= k < |plan| ==> HoldsExactlyTheTop(s.world, plan[k].user, s.catalog)
    case _ => true
  }

  lemma {:induction false} FollowsEarlier(s: Site, hs: seq<Change>, i: nat, n: nat)
    requires i <= n <= |hs| && CanFollow(s, hs, n)
    ensures CanFollow(s, hs, i)
  {
    if i < n { FollowsEarlier(s, hs, i, n - 1); }
  }

  /** A run without failures never leaves a row that cannot come right, so that after each of its passes
      GitLab holds exactly the top tiers of every user it visited, however the catalog changed in between. */
  lemma {:induction false} SmoothRunsHeal(s: Site, hs: seq<Change>, n: nat)
    requires n <= |hs| && CanFollow(s, hs, n) && AllSmooth(s, hs, n)
    requires Base(s.world, s.catalog) && AllHealAnyhow(s.world, s.catalog)
    ensures
      var r := Following(s, hs, n);
      && Base(r.world, r.catalog) && RowsOk(r.world.rows, r.catalog) && AllHealAnyhow(r.world, r.catalog)
      && (n > 0 ==> VisitedHold(r, hs[n - 1]))
  {
    hide Base, AllHealAnyhow, Changed, RowsOk, CanChange, VisitedHold, SmoothChange;
    BaseRows(s.world, s.catalog);
    if n > 0 {
      FollowsEarlier(s, hs, n - 1, n);
      SmoothEarlier(s, hs, n);
      SmoothRunsHeal(s, hs, n - 1);
      SmoothChangeHeals(Following(s, hs, n - 1), hs[n - 1]);
    }
  }

  lemma SmoothEarlier(s: Site, hs: seq<Change>, n: nat)
    requires 0 < n <= |hs| && CanFollow(s, hs, n) && CanFollow(s, hs, n - 1) && AllSmooth(s, hs, n)
    ensures AllSmooth(s, hs, n - 1) && SmoothChange(Following(s, hs, n - 1), hs[n - 1])
  {
  }

  lemma SmoothChangeHeals(s: Site, h: Change)
    requires CanChange(s, h) && SmoothChange(s, h) && Base(s.world, s.catalog) && RowsOk(s.world.rows, s.catalog) && AllHealAnyhow(s.world, s.catalog)
    ensures
      var r := Changed(s, h);
      && Base(r.world, r.catalog) && RowsOk(r.world.rows, r.catalog) && AllHealAnyhow(r.world, r.catalog)
      && VisitedHold(r, h)
  {
    hide Base, Reconcile, AllHealAnyhow, CanHappenUnder, Retunes, RowsOk, HoldsExactlyTheTop;
    match h
    case Delivery(plan, fates) => SmoothPassHeals(s.world, s.catalog, plan, fates);
    case Earning(id, user, definition) =>
      EarningKeepsBase(s.world, id, user, definition, s.catalog);
      BaseRows(Changed(s, h).world, s.catalog);
      EarningHeals(s.world, id, user, definition, s.catalog);
    case Renaming(names) =>
      RenamingKeepsBase(s.world, names, s.catalog);
      RenamingHeals(s.world, names, s.catalog);
    case Retuning(catalog) =>
      RetuningKeepsBase(s.world, s.catalog, catalog);
      BaseRows(s.world, catalog);
      RetuningHeals(s.world, s.catalog, catalog);
  }

  lemma EarningHeals(w: World, id: int, user: int, definition: int, c: Catalog)
    requires RowsOk(w.rows, c) && AllHealAnyhow(w, c) && CanHappenUnder(w, Earn(id, user, definition), c)
    requires RowsOk(w.rows[id := Row(user, definition, Pending, 0)], c)
    ensures AllHealAnyhow(w.(rows := w.rows[id := Row(user, definition, Pending, 0)]), c)
  {
    var r := w.(rows := w.rows[id := Row(user, definition, Pending, 0)]);
    forall j | j in r.rows ensures HealsAnyhow(r, j, c) {
      if j != id { assert HealsAnyhow(w, j, c); }
    }
  }

  lemma RenamingHeals(w: World, names: map<int, int>, c: Catalog)
    requires RowsOk(w.rows, c) && AllHealAnyhow(w, c)
    ensures AllHealAnyhow(w.(names := names), c)
  {
    hide Heals;
    forall j | j in w.rows ensures HealsAnyhow(w.(names := names), j, c) { assert HealsAnyhow(w, j, c); }
  }

  lemma RetuningHeals(w: World, c: Catalog, d: Catalog)
    requires RowsOk(w.rows, c) && RowsOk(w.rows, d) && AllHealAnyhow(w, c) && Retunes(w, c, d)
    ensures AllHealAnyhow(w, d)
  {
    hide Heals;
    RetuneTargets(w, c, d);
    forall j | j in w.rows ensures HealsAnyhow(w, j, d) { assert HealsAnyhow(w, j, c); }
  }

  lemma SmoothPassHeals(w: World, c: Catalog, plan: seq<Visit>, fates: seq<Fate>)
    requires Base(w, c) && RowsOk(w.rows, c) && AllHealAnyhow(w, c) && PlanLists(w.rows, plan) && Planned(w.rows, plan, c)
    requires forall k :: 0 <= k < |plan| ==> Answers(w, plan[k].user) == plan[k].user
    requires AllWork(fates) && |fates| > Budget(plan, |plan|)
    ensures
      var r := Reconcile(w, plan, c, fates).world;
      && Base(r, c) && RowsOk(r.rows, c) && AllHealAnyhow(r, c)
      && forall k :: 0 <= k < |plan| ==> HoldsExactlyTheTop(r, plan[k].user, c)
  {
    hide Base, Reconcile, HoldsExactlyTheTop, UserRests, UserHeals, HealsAnyhow, ListsUser;
    SmoothPassEnds(w, plan, c, fates);
    SmoothPassConverges(w, plan, c, fates);
    var r := Reconcile(w, plan, c, fates).world;
    BaseRows(r, c);
    PassKeepsRows(w, plan, c, fates);
    forall k | 0 <= k < |plan| ensures HoldsExactlyTheTop(r, plan[k].user, c) {
      AnyhowIsEither(w, plan[k].user, c);
    }
    UnvisitedStay(w, c, plan, fates);
    forall id | id in r.rows ensures HealsAnyhow(r, id, c) {
      if k :| 0 <= k < |plan| && plan[k].user == r.rows[id].user {
        HoldingHealsAnyhow(r, plan[k].user, c, id);
      } else {
        UnvisitedHeals(w, r, c, plan, id);
      }
    }
  }

  /** A user the plan leaves out: their rows and records are as they were. */
  ghost predicate Untouched(w: World, r: World, user: int) {
    && (forall id :: id in w.rows && w.rows[id].user == user ==> id in r.rows && r.rows[id] == w.rows[id])
    && (forall i, a :: LiveFor(r.records, i, a, user) <==> LiveFor(w.records, i, a, user))
  }

  ghost predicate Unvisited(plan: seq<Visit>, n: nat, user: int)
    requires n <= |plan|
  {
    forall k :: 0 <= k < n ==> plan[k].user != user
  }

  lemma UnvisitedHeals(w: World, r: World, c: Catalog, plan: seq<Visit>, id: int)
    requires RowsOk(w.rows, c) && RowsOk(r.rows, c) && AllHealAnyhow(w, c) && SameRows(w.rows, r.rows) && id in r.rows
    requires Unvisited(plan, |plan|, r.rows[id].user) && forall user :: Unvisited(plan, |plan|, user) ==> Untouched(w, r, user)
    ensures HealsAnyhow(r, id, c)
  {
    assert HealsAnyhow(w, id, c) && Untouched(w, r, w.rows[id].user);
  }

  lemma OtherTurnLeaves(before: World, after: World, touched: int, user: int)
    requires TouchesUser(before, after, touched) && touched != user
    ensures Untouched(before, after, user)
  {
  }

  lemma {:induction false} UnvisitedThrough(s: Pass, plan: seq<Visit>, n: nat, c: Catalog, user: int)
    requires Base(s.world, c) && PlanLists(s.world.rows, plan) && Planned(s.world.rows, plan, c) && n <= |plan|
    requires (forall k :: 0 <= k < |plan| ==> NameSound(s.world, plan[k].user)) && Unvisited(plan, n, user)
    ensures Untouched(s.world, Visits(s, plan, n, c).world, user)
  {
    hide Base, ReconcileUser, TouchesUser, NameSound, Carried, ListsUser, RowsOk;
    if n > 0 {
      UnvisitedThrough(s, plan, n - 1, c, user);
      VisitsKeep(s, plan, n - 1, c);
      var before := Visits(s, plan, n - 1, c);
      if !before.halted {
        BaseRows(s.world, c);
        ListingSurvives(s.world.rows, before.world.rows, plan[n - 1], c);
        UserKeeps(before, plan[n - 1], c);
        OtherTurnLeaves(before.world, Visits(s, plan, n, c).world, plan[n - 1].user, user);
      }
    }
  }

  lemma UnvisitedStay(w: World, c: Catalog, plan: seq<Visit>, fates: seq<Fate>)
    requires Base(w, c) && PlanLists(w.rows, plan) && Planned(w.rows, plan, c)
    requires forall k :: 0 <= k < |plan| ==> NameSound(w, plan[k].user)
    ensures forall user :: Unvisited(plan, |plan|, user) ==> Untouched(w, Reconcile(w, plan, c, fates).world, user)
  {
    hide Base, Visits, NameSound, Untouched, Unvisited, ListsUser;
    forall user | Unvisited(plan, |plan|, user) ensures Untouched(w, Reconcile(w, plan, c, fates).world, user) {
      assert Untouched(w, w, user) by { ItselfUntouched(w, user); }
      if fates != [] {
        var s := Spend(Pass(w, Unloaded, fates, [], Report(0, 0, 0, 0), false));
        UnvisitedThrough(s, plan, |plan|, c, user);
      }
    }
  }

  lemma ItselfUntouched(w: World, user: int)
    ensures Untouched(w, w, user)
  {
  }

  // ---- What a lost write costs ----

  /** Two tiers of one criteria, of whom either may be made the higher. */
  function TwoTiers(first: int): Catalog {
    map[1 := Definition("x", first, 10), 2 := Definition("x", 2, 20)]
  }

  lemma TiersAreTops(rows: map<int, Row>, first: int)
    requires rows.Keys == {1, 2} && rows[1].user == rows[2].user && rows[1].definition == 1 && rows[2].definition == 2 && first in {1, 3}
    ensures RowsOk(rows, TwoTiers(first)) && CatalogOk(TwoTiers(first))
    ensures IsTop(rows, 1, TwoTiers(first)) <==> first == 3
    ensures IsTop(rows, 2, TwoTiers(first)) <==> first == 1
    ensures Target(rows, 1, TwoTiers(first)) == 10 && Target(rows, 2, TwoTiers(first)) == 20
  {
    var c := TwoTiers(first);
    assert DefinitionOf(rows, 1, c) == Definition("x", first, 10) && DefinitionOf(rows, 2, c) == Definition("x", 2, 20);
  }

  /** One award turn that is answered twice and then crashes. */
  function Interrupted(w: World): Pass {
    Pass(w, Unloaded, [Works, Works], [], Report(0, 0, 0, 0), false)
  }

  const DELIVERED := map[1 := Row(7, 1, Accepted, 1), 2 := Row(7, 2, Pending, 0)]
  const OUTGROWN := World(DELIVERED, [Record(10, 7, true)], map[])

  /** A higher tier was earned; the pass took the lower one off GitLab and crashed before it wrote so. */
  lemma WithdrawalIsLost()
    ensures
      var r := SupersedeAward(Interrupted(OUTGROWN), 1, DELIVERED[1], 10);
      r.halted && r.world == OUTGROWN.(records := [Record(10, 7, false)])
  {
    hide ByAchievement;
    var loaded := Load(Interrupted(OUTGROWN), 7);
    assert LiveFor(OUTGROWN.records, 1, 10, 7) && 1 in LiveIds(OUTGROWN.records, 7, 1);
    assert loaded.held.Loaded? && HeldUnder(loaded.held, DELIVERED[1], 10) == 1;
    assert Revoke(loaded, 1).0.world.records == [Record(10, 7, false)];
  }

  /** Nothing was wrong before; and after it the tier comes right as a lower one, but not if a retune makes
      it the top: it counts as delivered under an award that is gone. */
  lemma LostWithdrawal()
    ensures RowsOk(DELIVERED, TwoTiers(1)) && RowsOk(DELIVERED, TwoTiers(3)) && AllHealAnyhow(OUTGROWN, TwoTiers(1))
    ensures
      var w := SupersedeAward(Interrupted(OUTGROWN), 1, DELIVERED[1], 10).world;
      w.rows == DELIVERED && RowHeals(w, 1, TwoTiers(1)) && !RowHeals(w, 1, TwoTiers(3))
  {
    hide IsTop, RowsOk, SupersedeAward;
    WithdrawalIsLost();
    TiersAreTops(DELIVERED, 1);
    TiersAreTops(DELIVERED, 3);
    assert !LiveFor([Record(10, 7, false)], 1, 10, 7);
  }

  const WITHDRAWN := map[1 := Row(7, 1, Superseded, 1), 2 := Row(7, 2, Accepted, 2)]
  const PROMOTED := World(WITHDRAWN, [Record(10, 7, false), Record(20, 7, true)], map[])

  /** A retune had made a withdrawn tier the top one; the pass awarded it again and crashed before it wrote so. */
  lemma DeliveryIsLost()
    ensures
      var r := DeliverAward(Interrupted(PROMOTED), 1, WITHDRAWN[1], 10);
      r.halted && r.world == PROMOTED.(records := PROMOTED.records + [Record(10, 7, true)])
  {
    hide LiveIds;
    ListedExactly(PROMOTED.records, 7, 2);
    var loaded := Load(Interrupted(PROMOTED), 7);
    assert loaded.held.Loaded? && 10 !in loaded.held.byAchievement;
    assert Award(loaded, 10, 7).0.fates == [];
  }

  /** Nothing was wrong before; and after it the tier comes right as the top one, but not if a further retune
      takes that back: it counts as withdrawn while an award of it is live. */
  lemma LostDelivery()
    ensures RowsOk(WITHDRAWN, TwoTiers(1)) && RowsOk(WITHDRAWN, TwoTiers(3)) && AllHealAnyhow(PROMOTED, TwoTiers(3))
    ensures
      var w := DeliverAward(Interrupted(PROMOTED), 1, WITHDRAWN[1], 10).world;
      w.rows == WITHDRAWN && RowHeals(w, 1, TwoTiers(3)) && !RowHeals(w, 1, TwoTiers(1))
  {
    hide IsTop, RowsOk, DeliverAward;
    DeliveryIsLost();
    TiersAreTops(WITHDRAWN, 1);
    TiersAreTops(WITHDRAWN, 3);
    assert LiveFor(PROMOTED.records + [Record(10, 7, true)], 3, 10, 7);
  }
}
