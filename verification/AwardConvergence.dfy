/** Whole passes. One whose calls all succeed leaves GitLab holding exactly the top tier each user reached
    per criteria, exactly when each of their rows can still come right; under a fixed catalog they always
    can; and once that is reached, no pass has anything left to ask of GitLab. */
module AwardConvergence {
  import opened Awards
  import opened AwardSafety
  import opened AwardTurns

  // ---- What every pass keeps, however it ends ----

  ghost predicate Earned(rows: map<int, Row>, a: int, u: int, c: Catalog)
    requires RowsOk(rows, c)
  {
    exists id :: id in rows && rows[id].user == u && Target(rows, id, c) == a
  }

  ghost predicate Ours(a: int, c: Catalog) {
    exists d :: d in c && c[d].achievement == a
  }

  ghost predicate Base(w: World, c: Catalog) {
    && CatalogOk(c) && RowsOk(w.rows, c) && Safe(w.records)
    && (forall i, a, u :: LiveFor(w.records, i, a, u) && Ours(a, c) ==> Earned(w.rows, a, u, c))
    && (forall id :: id in w.rows ==> RowOwn(w.records, w.rows[id], Target(w.rows, id, c)))
  }

  ghost predicate RowGood(w: World, id: int, c: Catalog)
    requires RowsOk(w.rows, c) && id in w.rows
  {
    RowTrue(w.records, w.rows[id], Target(w.rows, id, c), IsTop(w.rows, id, c))
  }

  ghost predicate RowHeals(w: World, id: int, c: Catalog)
    requires RowsOk(w.rows, c) && id in w.rows
  {
    Heals(w.records, w.rows[id], Target(w.rows, id, c), IsTop(w.rows, id, c))
  }

  ghost predicate RowAtRest(w: World, id: int, c: Catalog)
    requires RowsOk(w.rows, c) && id in w.rows
  {
    AtRest(w.rows[id], IsTop(w.rows, id, c))
  }

  /** What a fixed catalog adds. */
  ghost predicate Sound(w: World, c: Catalog) {
    Base(w, c) && forall id :: id in w.rows ==> RowGood(w, id, c)
  }

  /** What is true of the rows stays true, and which of them can come right does not change. */
  ghost predicate Carried(before: World, after: World, c: Catalog)
    requires RowsOk(before.rows, c) && RowsOk(after.rows, c) && SameRows(before.rows, after.rows)
  {
    forall id :: id in before.rows ==>
      (RowGood(before, id, c) ==> RowGood(after, id, c)) && (RowHeals(before, id, c) <==> RowHeals(after, id, c))
  }

  lemma CarriedTwice(w: World, v: World, u: World, c: Catalog)
    requires RowsOk(w.rows, c) && RowsOk(v.rows, c) && RowsOk(u.rows, c) && SameRows(w.rows, v.rows) && SameRows(v.rows, u.rows)
    requires Carried(w, v, c) && Carried(v, u, c)
    ensures SameRows(w.rows, u.rows) && Carried(w, u, c)
  {
    hide RowGood, RowHeals, RowsOk;
  }

  lemma CarriesItself(w: World, c: Catalog)
    requires RowsOk(w.rows, c)
    ensures Carried(w, w, c)
  {
  }

  lemma TopsStay(before: map<int, Row>, after: map<int, Row>, c: Catalog)
    requires SameRows(before, after) && RowsOk(before, c)
    ensures RowsOk(after, c)
    ensures forall id :: id in before ==> IsTop(before, id, c) == IsTop(after, id, c)
    ensures forall id :: id in before ==> Target(before, id, c) == Target(after, id, c)
  {
    forall i | i in after ensures Described(after, i, c) { assert Described(before, i, c); }
  }

  lemma OthersStayLive(before: World, after: World, id: int, a: int, u: int, b: int, v: int)
    requires OnlyTouches(before, after, id, a, u) && (a != b || u != v)
    ensures forall i :: LiveFor(before.records, i, b, v) <==> LiveFor(after.records, i, b, v)
  {
  }

  lemma OtherRowCarries(before: World, after: World, id: int, j: int, c: Catalog)
    requires CatalogOk(c) && RowsOk(before.rows, c) && RowsOk(after.rows, c)
    requires id in before.rows && j in before.rows && j != id
    requires RowOwn(before.records, before.rows[j], Target(before.rows, j, c))
    requires OnlyTouches(before, after, id, Target(before.rows, id, c), before.rows[id].user)
    ensures RowOwn(after.records, after.rows[j], Target(after.rows, j, c))
    ensures (RowGood(before, j, c) ==> RowGood(after, j, c)) && (RowHeals(before, j, c) <==> RowHeals(after, j, c))
  {
    hide IsTop, CatalogOk;
    TopsStay(before.rows, after.rows, c);
    TargetsDiffer(before.rows, id, j, c);
    OthersStayLive(before, after, id, Target(before.rows, id, c), before.rows[id].user, Target(before.rows, j, c), before.rows[j].user);
  }

  lemma TargetsDiffer(rows: map<int, Row>, id: int, j: int, c: Catalog)
    requires CatalogOk(c) && RowsOk(rows, c) && id in rows && j in rows && j != id
    ensures Target(rows, id, c) != Target(rows, j, c) || rows[id].user != rows[j].user
  {
  }

  lemma SameRowsOk(before: map<int, Row>, after: map<int, Row>, c: Catalog)
    requires SameRows(before, after) && RowsOk(before, c)
    ensures RowsOk(after, c)
  {
    TopsStay(before, after, c);
  }

  /** To keep everything, a step only has to keep its own row. */
  lemma BaseKept(before: World, after: World, id: int, c: Catalog)
    requires Base(before, c) && id in before.rows && RowsOk(after.rows, c)
    requires OnlyTouches(before, after, id, Target(before.rows, id, c), before.rows[id].user)
    requires
      var a, top := Target(before.rows, id, c), IsTop(before.rows, id, c);
      && RowOwn(after.records, after.rows[id], a) && OneLive(after.records, a, before.rows[id].user)
      && Carries(before.records, before.rows[id], after.records, after.rows[id], a, top)
    ensures Base(after, c) && Carried(before, after, c)
  {
    hide IsTop, CatalogOk, RowTrue, Heals;
    var a, u := Target(before.rows, id, c), before.rows[id].user;
    TopsStay(before.rows, after.rows, c);
    forall j | j in after.rows && j != id
      ensures RowOwn(after.records, after.rows[j], Target(after.rows, j, c))
      ensures (RowGood(before, j, c) ==> RowGood(after, j, c)) && (RowHeals(before, j, c) <==> RowHeals(after, j, c))
    {
      OtherRowCarries(before, after, id, j, c);
    }
    EarnedKept(before, after, id, c);
    SafeKept(before, after, id, a, u);
  }

  lemma EarnedKept(before: World, after: World, id: int, c: Catalog)
    requires Base(before, c) && id in before.rows && RowsOk(after.rows, c)
    requires OnlyTouches(before, after, id, Target(before.rows, id, c), before.rows[id].user)
    ensures forall i, b, v :: LiveFor(after.records, i, b, v) && Ours(b, c) ==> Earned(after.rows, b, v, c)
  {
    hide IsTop, CatalogOk;
    var a, u := Target(before.rows, id, c), before.rows[id].user;
    TopsStay(before.rows, after.rows, c);
    forall i, b, v | LiveFor(after.records, i, b, v) && Ours(b, c) ensures Earned(after.rows, b, v, c) {
      var k :| k in before.rows && before.rows[k].user == v && Target(before.rows, k, c) == b by {
        if b != a || v != u {
          OthersStayLive(before, after, id, a, u, b, v);
          assert Earned(before.rows, b, v, c);
        } else {
          assert before.rows[id].user == v && Target(before.rows, id, c) == b;
        }
      }
      assert after.rows[k].user == v && Target(after.rows, k, c) == b;
    }
  }

  lemma SafeKept(before: World, after: World, id: int, a: int, u: int)
    requires Safe(before.records) && OnlyTouches(before, after, id, a, u) && OneLive(after.records, a, u)
    ensures Safe(after.records)
  {
    forall i, j, b, v | LiveFor(after.records, i, b, v) && LiveFor(after.records, j, b, v) ensures i == j {
      if b != a || v != u {
        OthersStayLive(before, after, id, a, u, b, v);
      }
    }
  }

  // ---- One user's turn ----

  /** The visit lists every award of its user, once. */
  ghost predicate ListsUser(rows: map<int, Row>, visit: Visit) {
    && (forall k :: 0 <= k < |visit.order| ==> visit.order[k] in rows && rows[visit.order[k]].user == visit.user)
    && (forall j, k :: 0 <= j < k < |visit.order| ==> visit.order[j] != visit.order[k])
    && (forall id :: id in rows && rows[id].user == visit.user ==> id in visit.order)
  }

  lemma ListingFits(rows: map<int, Row>, visit: Visit, c: Catalog)
    requires CatalogOk(c) && RowsOk(rows, c) && ListsUser(rows, visit)
    ensures VisitFits(rows, visit, c)
  {
  }

  lemma {:induction false} TopTiersAreHighest(rows: map<int, Row>, order: seq<int>, n: nat, c: Catalog)
    requires Describes(rows, order, c) && n <= |order|
    ensures var top := TopTiers(rows, order, n, c);
      && (forall k :: 0 <= k < n ==>
            DefinitionOf(rows, order[k], c).tier <= TierIn(top, DefinitionOf(rows, order[k], c).criteria))
      && (forall x :: x in top ==> exists k :: 0 <= k < n && DefinitionOf(rows, order[k], c) == Definition(x, top[x], Target(rows, order[k], c)))
  {
    if n > 0 {
      TopTiersAreHighest(rows, order, n - 1, c);
      var rest, top := TopTiers(rows, order, n - 1, c), TopTiers(rows, order, n, c);
      forall x | x in top
        ensures exists k :: 0 <= k < n && DefinitionOf(rows, order[k], c) == Definition(x, top[x], Target(rows, order[k], c))
      {
        if x in rest && top[x] == rest[x] {
          var k :| 0 <= k < n - 1 && DefinitionOf(rows, order[k], c) == Definition(x, rest[x], Target(rows, order[k], c));
        } else {
          assert DefinitionOf(rows, order[n - 1], c) == Definition(x, top[x], Target(rows, order[n - 1], c));
        }
      }
    }
  }

  lemma TiersArePositive(rows: map<int, Row>, id: int, c: Catalog)
    requires CatalogOk(c) && Described(rows, id, c)
    ensures DefinitionOf(rows, id, c).tier >= 1
  {
  }

  /** The tier a pass picks for a criteria is the top one. */
  lemma PickedIsTop(rows: map<int, Row>, visit: Visit, k: nat, c: Catalog)
    requires CatalogOk(c) && RowsOk(rows, c) && ListsUser(rows, visit) && k < |visit.order|
    requires Describes(rows, visit.order, c)
    ensures var d := DefinitionOf(rows, visit.order[k], c);
      d.tier == TierIn(TopTiers(rows, visit.order, |visit.order|, c), d.criteria) <==> IsTop(rows, visit.order[k], c)
  {
    hide CatalogOk, TopTiers;
    TiersArePositive(rows, visit.order[k], c);
    var order := visit.order;
    TopTiersAreHighest(rows, order, |order|, c);
    var d, top := DefinitionOf(rows, order[k], c), TopTiers(rows, order, |order|, c);
    if d.tier == TierIn(top, d.criteria) {
      forall j | j in rows && rows[j].user == visit.user && DefinitionOf(rows, j, c).criteria == d.criteria
        ensures DefinitionOf(rows, j, c).tier <= d.tier
      {
        var m :| 0 <= m < |order| && order[m] == j;
      }
    } else {
      assert d.tier < top[d.criteria];
      var m :| 0 <= m < |order| && DefinitionOf(rows, order[m], c).criteria == d.criteria && DefinitionOf(rows, order[m], c).tier == top[d.criteria];
    }
  }

  /** Everything about other users is as it was. */
  ghost predicate TouchesUser(before: World, after: World, user: int) {
    && SameRows(before.rows, after.rows) && after.names == before.names
    && (forall id :: id in before.rows && before.rows[id].user != user ==> after.rows[id] == before.rows[id])
    && |before.records| <= |after.records|
    && (forall i :: 0 <= i < |after.records| ==>
          after.records[i].owner == user || (i < |before.records| && after.records[i] == before.records[i]))
    && (forall i :: 0 <= i < |before.records| ==> after.records[i].owner == before.records[i].owner)
  }

  /** The state of a user's turn after the first n awards. */
  ghost predicate MidTurn(s: Pass, r: Pass, visit: Visit, n: nat, c: Catalog)
    requires RowsOk(s.world.rows, c) && Describes(s.world.rows, visit.order, c) && n <= |visit.order|
  {
    && TouchesUser(s.world, r.world, visit.user) && Base(r.world, c) && Carried(s.world, r.world, c) && NameSound(r.world, visit.user)
    && Exact(r.held, r.world.records, visit.user, Targets(s.world.rows, visit.order, n, c))
    && (forall k :: n <= k < |visit.order| ==> r.world.rows[visit.order[k]] == s.world.rows[visit.order[k]])
  }

  lemma UserTouched(w: World, before: World, after: World, id: int, a: int, user: int)
    requires TouchesUser(w, before, user) && OnlyTouches(before, after, id, a, user)
    requires id in w.rows && w.rows[id].user == user
    ensures TouchesUser(w, after, user)
  {
  }

  /** A step that keeps its own row keeps the turn's invariant. */
  lemma TurnGoesOn(s: Pass, before: Pass, r: Pass, visit: Visit, n: nat, c: Catalog)
    requires Base(s.world, c) && ListsUser(s.world.rows, visit) && Describes(s.world.rows, visit.order, c)
    requires 0 < n <= |visit.order| && MidTurn(s, before, visit, n - 1, c)
    requires
      var rows, id := s.world.rows, visit.order[n - 1];
      Keeps(before, r, id, rows[id], Target(rows, id, c), IsTop(rows, id, c), Targets(rows, visit.order, n, c))
    ensures MidTurn(s, r, visit, n, c)
  {
    hide IsTop, RowsOk, CatalogOk, Carries, Carried, RowOwn, Safe, Exact;
    var rows, id := s.world.rows, visit.order[n - 1];
    BaseRows(s.world, c);
    BaseRows(before.world, c);
    TopsStay(rows, before.world.rows, c);
    SameRowsOk(before.world.rows, r.world.rows, c);
    assert before.world.rows[id] == rows[id];
    BaseKept(before.world, r.world, id, c);
    CarriedTwice(s.world, before.world, r.world, c);
    UserTouched(s.world, before.world, r.world, id, Target(rows, id, c), visit.user);
  }

  lemma BaseRows(w: World, c: Catalog)
    requires Base(w, c)
    ensures CatalogOk(c) && RowsOk(w.rows, c)
  {
  }

  /** A turn's step delivers the top tier and supersedes the others. */
  lemma StepByTop(rows: map<int, Row>, before: Pass, visit: Visit, n: nat, c: Catalog)
    requires CatalogOk(c) && RowsOk(rows, c) && ListsUser(rows, visit) && Describes(rows, visit.order, c)
    requires 0 < n <= |visit.order|
    ensures
      var id := visit.order[n - 1];
      Step(before, id, rows[id], DefinitionOf(rows, id, c), TopTiers(rows, visit.order, |visit.order|, c)) ==
      if IsTop(rows, id, c) then DeliverAward(before, id, rows[id], Target(rows, id, c))
      else SupersedeAward(before, id, rows[id], Target(rows, id, c))
  {
    hide DeliverAward, SupersedeAward, TopTiers;
    PickedIsTop(rows, visit, n - 1, c);
  }

  lemma ReadyInTurn(s: Pass, before: Pass, visit: Visit, n: nat, c: Catalog)
    requires Base(s.world, c) && ListsUser(s.world.rows, visit) && Describes(s.world.rows, visit.order, c)
    requires 0 < n <= |visit.order| && MidTurn(s, before, visit, n - 1, c)
    ensures
      var rows, id := s.world.rows, visit.order[n - 1];
      && rows[id].user == visit.user
      && Ready(before, id, rows[id], Target(rows, id, c), Targets(rows, visit.order, n - 1, c))
  {
    hide IsTop, CatalogOk, Carried, Exact;
    var rows, id := s.world.rows, visit.order[n - 1];
    TopsStay(rows, before.world.rows, c);
    assert before.world.rows[id] == rows[id];
    assert RowOwn(before.world.records, before.world.rows[id], Target(before.world.rows, id, c));
  }

  lemma TargetsLeft(rows: map<int, Row>, visit: Visit, n: nat, c: Catalog)
    requires CatalogOk(c) && RowsOk(rows, c) && ListsUser(rows, visit) && 0 < n <= |visit.order|
    requires Describes(rows, visit.order, c)
    ensures var a := Target(rows, visit.order[n - 1], c);
      && a in Targets(rows, visit.order, n - 1, c)
      && Targets(rows, visit.order, n, c) == Targets(rows, visit.order, n - 1, c) - {a}
  {
    ListingFits(rows, visit, c);
  }

  lemma StepKeepsTurn(s: Pass, before: Pass, visit: Visit, n: nat, c: Catalog)
    requires Base(s.world, c) && ListsUser(s.world.rows, visit) && Describes(s.world.rows, visit.order, c)
    requires 0 < n <= |visit.order| && MidTurn(s, before, visit, n - 1, c) && !before.halted
    ensures
      var rows, id := s.world.rows, visit.order[n - 1];
      var r := Step(before, id, rows[id], DefinitionOf(rows, id, c), TopTiers(rows, visit.order, |visit.order|, c));
      MidTurn(s, r, visit, n, c)
  {
    hide Step, DeliverAward, SupersedeAward, TopTiers, IsTop, Ready, Keeps, MidTurn;
    var rows, id := s.world.rows, visit.order[n - 1];
    var a, todo := Target(rows, id, c), Targets(rows, visit.order, n - 1, c);
    StepByTop(rows, before, visit, n, c);
    TargetsLeft(rows, visit, n, c);
    ReadyInTurn(s, before, visit, n, c);
    if IsTop(rows, id, c) {
      DeliverKeeps(before, id, rows[id], a, todo);
      TurnGoesOn(s, before, DeliverAward(before, id, rows[id], a), visit, n, c);
    } else {
      SupersedeKeeps(before, id, rows[id], a, todo);
      TurnGoesOn(s, before, SupersedeAward(before, id, rows[id], a), visit, n, c);
    }
  }

  lemma TurnStarts(s: Pass, visit: Visit, c: Catalog)
    requires Base(s.world, c) && Describes(s.world.rows, visit.order, c)
    requires NameSound(s.world, visit.user) && s.held == Unloaded
    ensures MidTurn(s, s, visit, 0, c)
  {
    CarriesItself(s.world, c);
  }

  lemma TurnHalts(s: Pass, r: Pass, visit: Visit, n: nat, c: Catalog)
    requires RowsOk(s.world.rows, c) && Describes(s.world.rows, visit.order, c)
    requires 0 < n <= |visit.order| && MidTurn(s, r, visit, n - 1, c)
    ensures MidTurn(s, r, visit, n, c)
  {
    hide Base, Carried, TouchesUser, NameSound;
    assert Targets(s.world.rows, visit.order, n, c) <= Targets(s.world.rows, visit.order, n - 1, c);
  }

  lemma {:induction false} StepsKeepTurn(s: Pass, visit: Visit, n: nat, c: Catalog)
    requires Base(s.world, c) && ListsUser(s.world.rows, visit) && Describes(s.world.rows, visit.order, c)
    requires NameSound(s.world, visit.user) && s.held == Unloaded && n <= |visit.order|
    ensures
      var r := Steps(s, s.world.rows, visit.order, n, TopTiers(s.world.rows, visit.order, |visit.order|, c), c);
      MidTurn(s, r, visit, n, c)
  {
    hide TopTiers, Step, MidTurn, CatalogOk, Safe, RowOwn;
    if n == 0 {
      TurnStarts(s, visit, c);
    } else {
      StepsKeepTurn(s, visit, n - 1, c);
      var before := Steps(s, s.world.rows, visit.order, n - 1, TopTiers(s.world.rows, visit.order, |visit.order|, c), c);
      if before.halted {
        TurnHalts(s, before, visit, n, c);
      } else {
        StepKeepsTurn(s, before, visit, n, c);
      }
    }
  }

  lemma MidTurnKeeps(s: Pass, r: Pass, visit: Visit, n: nat, c: Catalog)
    requires RowsOk(s.world.rows, c) && Describes(s.world.rows, visit.order, c) && n <= |visit.order|
    requires MidTurn(s, r, visit, n, c)
    ensures SameRows(s.world.rows, r.world.rows) && Base(r.world, c) && TouchesUser(s.world, r.world, visit.user) && Carried(s.world, r.world, c)
  {
  }

  // ---- When every call goes well ----

  /** What a pass has left to go wrong: nothing. */
  ghost predicate Smooth(s: Pass, user: int) {
    AllWork(s.fates) && !s.held.Broken? && Answers(s.world, user) == user
  }

  lemma SmoothIsSound(s: Pass, user: int)
    requires Smooth(s, user)
    ensures NameSound(s.world, user)
  {
  }

  lemma KeepsTouches(s: Pass, r: Pass, id: int, award: Row, a: int, top: bool, todo: set<int>)
    requires Keeps(s, r, id, award, a, top, todo)
    ensures OnlyTouches(s.world, r.world, id, a, award.user) && Answers(r.world, award.user) == Answers(s.world, award.user)
  {
  }

  lemma StepSettles(s: Pass, before: Pass, visit: Visit, n: nat, c: Catalog)
    requires Base(s.world, c) && ListsUser(s.world.rows, visit) && Describes(s.world.rows, visit.order, c)
    requires 0 < n <= |visit.order| && MidTurn(s, before, visit, n - 1, c) && !before.halted
    requires Smooth(before, visit.user)
    ensures
      var rows, id := s.world.rows, visit.order[n - 1];
      var r := Step(before, id, rows[id], DefinitionOf(rows, id, c), TopTiers(rows, visit.order, |visit.order|, c));
      && Smooth(r, visit.user)
      && OnlyTouches(before.world, r.world, id, Target(rows, id, c), visit.user)
      && (!r.halted ==> AtRest(r.world.rows[id], IsTop(rows, id, c)))
  {
    hide Step, DeliverAward, SupersedeAward, TopTiers, IsTop, Ready, MidTurn, Keeps, OnlyTouches, AtRest;
    var rows, id := s.world.rows, visit.order[n - 1];
    var a, todo := Target(rows, id, c), Targets(rows, visit.order, n - 1, c);
    StepByTop(rows, before, visit, n, c);
    TargetsLeft(rows, visit, n, c);
    ReadyInTurn(s, before, visit, n, c);
    if IsTop(rows, id, c) {
      DeliverKeeps(before, id, rows[id], a, todo);
      KeepsTouches(before, DeliverAward(before, id, rows[id], a), id, rows[id], a, true, todo - {a});
      DeliverSettles(before, id, rows[id], a, todo);
    } else {
      SupersedeKeeps(before, id, rows[id], a, todo);
      KeepsTouches(before, SupersedeAward(before, id, rows[id], a), id, rows[id], a, false, todo - {a});
      SupersedeSettles(before, id, rows[id], a, todo);
    }
  }

  ghost predicate Rest(rows: map<int, Row>, w: World, order: seq<int>, n: nat, c: Catalog)
    requires RowsOk(rows, c) && n <= |order|
  {
    forall k :: 0 <= k < n ==> order[k] in rows && order[k] in w.rows && AtRest(w.rows[order[k]], IsTop(rows, order[k], c))
  }

  lemma {:induction false} StepsSettle(s: Pass, visit: Visit, n: nat, c: Catalog)
    requires Base(s.world, c) && ListsUser(s.world.rows, visit) && Describes(s.world.rows, visit.order, c)
    requires s.held == Unloaded && n <= |visit.order| && Smooth(s, visit.user)
    ensures
      var r := Steps(s, s.world.rows, visit.order, n, TopTiers(s.world.rows, visit.order, |visit.order|, c), c);
      !r.halted ==> Smooth(r, visit.user) && Rest(s.world.rows, r.world, visit.order, n, c)
  {
    hide TopTiers, Step, MidTurn, OnlyTouches, IsTop, Smooth, AtRest, CatalogOk, Safe, RowOwn, Carried;
    var rows, order, top := s.world.rows, visit.order, TopTiers(s.world.rows, visit.order, |visit.order|, c);
    if n > 0 {
      SmoothIsSound(s, visit.user);
      StepsSettle(s, visit, n - 1, c);
      StepsKeepTurn(s, visit, n - 1, c);
      var before := Steps(s, rows, order, n - 1, top, c);
      if !before.halted {
        StepSettles(s, before, visit, n, c);
        var r := Steps(s, rows, order, n, top, c);
        if !r.halted {
          StepsKeepTurn(s, visit, n, c);
          MidTurnKeeps(s, r, visit, n, c);
          RestGoesOn(rows, before.world, r.world, visit, n, c);
        }
      }
    }
  }

  lemma RestGoesOn(rows: map<int, Row>, before: World, after: World, visit: Visit, n: nat, c: Catalog)
    requires RowsOk(rows, c) && ListsUser(rows, visit) && 0 < n <= |visit.order| && Rest(rows, before, visit.order, n - 1, c)
    requires OnlyTouches(before, after, visit.order[n - 1], Target(rows, visit.order[n - 1], c), visit.user)
    requires visit.order[n - 1] in after.rows && AtRest(after.rows[visit.order[n - 1]], IsTop(rows, visit.order[n - 1], c))
    ensures Rest(rows, after, visit.order, n, c)
  {
    hide IsTop, AtRest, RowsOk;
    forall k | 0 <= k < n - 1 ensures visit.order[k] in after.rows && after.rows[visit.order[k]] == before.rows[visit.order[k]] { }
  }

  // ---- A whole pass ----

  /** One listing per user, each complete, and no user twice. */
  ghost predicate PlanLists(rows: map<int, Row>, plan: seq<Visit>) {
    && (forall k :: 0 <= k < |plan| ==> ListsUser(rows, plan[k]))
    && (forall j, k :: 0 <= j < k < |plan| ==> plan[j].user != plan[k].user)
  }

  lemma ListingSurvives(before: map<int, Row>, after: map<int, Row>, visit: Visit, c: Catalog)
    requires SameRows(before, after) && ListsUser(before, visit) && RowsOk(before, c)
    ensures ListsUser(after, visit) && RowsOk(after, c) && Describes(after, visit.order, c)
  {
    TopsStay(before, after, c);
  }

  lemma NamesSurvive(before: World, after: World, touched: int, user: int)
    requires TouchesUser(before, after, touched) && NameSound(before, user)
    ensures NameSound(after, user)
  {
    var account := Answers(before, user);
    if account != user {
      var i :| 0 <= i < |before.records| && before.records[i].owner == account;
      assert after.records[i].owner == account;
    }
  }

  lemma TouchedNames(before: World, after: World, user: int)
    requires TouchesUser(before, after, user)
    ensures SameRows(before.rows, after.rows) && after.names == before.names
  {
  }

  lemma UserKeeps(s: Pass, visit: Visit, c: Catalog)
    requires Base(s.world, c) && ListsUser(s.world.rows, visit) && Describes(s.world.rows, visit.order, c)
    requires NameSound(s.world, visit.user)
    ensures
      var r := ReconcileUser(s, visit.order, c);
      && TouchesUser(s.world, r.world, visit.user) && Base(r.world, c)
      && RowsOk(s.world.rows, c) && RowsOk(r.world.rows, c) && Carried(s.world, r.world, c)
  {
    hide Base, MidTurn, TopTiers, Steps, Carried;
    BaseRows(s.world, c);
    CarriesItself(s.world, c);
    if s.fates != [] {
      var t := Spend(s).(held := Unloaded);
      StepsKeepTurn(t, visit, |visit.order|, c);
      var r := Steps(t, s.world.rows, visit.order, |visit.order|, TopTiers(s.world.rows, visit.order, |visit.order|, c), c);
      MidTurnKeeps(t, r, visit, |visit.order|, c);
      BaseRows(r.world, c);
    }
  }

  /** However a pass ends, it keeps what is true of the stores, and which rows can come right. */
  lemma {:induction false} VisitsKeep(s: Pass, plan: seq<Visit>, n: nat, c: Catalog)
    requires Base(s.world, c) && PlanLists(s.world.rows, plan) && Planned(s.world.rows, plan, c) && n <= |plan|
    requires forall k :: 0 <= k < |plan| ==> NameSound(s.world, plan[k].user)
    ensures
      var r := Visits(s, plan, n, c);
      && Base(r.world, c) && SameRows(s.world.rows, r.world.rows) && r.world.names == s.world.names
      && RowsOk(s.world.rows, c) && RowsOk(r.world.rows, c) && Carried(s.world, r.world, c)
      && (forall k :: 0 <= k < |plan| ==> NameSound(r.world, plan[k].user))
  {
    hide Base, ReconcileUser, TouchesUser, NameSound, Carried;
    BaseRows(s.world, c);
    if n == 0 {
      CarriesItself(s.world, c);
    } else {
      VisitsKeep(s, plan, n - 1, c);
      var before := Visits(s, plan, n - 1, c);
      if !before.halted {
        ListingSurvives(s.world.rows, before.world.rows, plan[n - 1], c);
        UserKeeps(before, plan[n - 1], c);
        var r := Visits(s, plan, n, c);
        TouchedNames(before.world, r.world, plan[n - 1].user);
        CarriedTwice(s.world, before.world, r.world, c);
        forall k | 0 <= k < |plan| ensures NameSound(r.world, plan[k].user) {
          NamesSurvive(before.world, r.world, plan[n - 1].user, plan[k].user);
        }
      }
    }
  }

  /** A pass under any fates keeps what is true of the stores, and neither mends a row that cannot come right
      nor spoils one that can. */
  lemma PassKeepsHealing(w: World, plan: seq<Visit>, c: Catalog, fates: seq<Fate>)
    requires Base(w, c) && PlanLists(w.rows, plan) && Planned(w.rows, plan, c)
    requires forall k :: 0 <= k < |plan| ==> NameSound(w, plan[k].user)
    ensures
      var r := Reconcile(w, plan, c, fates).world;
      && Base(r, c) && RowsOk(w.rows, c) && RowsOk(r.rows, c) && SameRows(w.rows, r.rows) && Carried(w, r, c)
  {
    hide Base, Visits, Carried, RowsOk;
    BaseRows(w, c);
    CarriesItself(w, c);
    if fates != [] {
      VisitsKeep(Spend(Pass(w, Unloaded, fates, [], Report(0, 0, 0, 0), false)), plan, |plan|, c);
    }
  }

  ghost predicate UserRests(w: World, user: int, c: Catalog)
    requires RowsOk(w.rows, c)
  {
    forall id :: id in w.rows && w.rows[id].user == user ==> RowAtRest(w, id, c)
  }

  ghost predicate UserHeals(w: World, user: int, c: Catalog)
    requires RowsOk(w.rows, c)
  {
    forall id :: id in w.rows && w.rows[id].user == user ==> RowHeals(w, id, c)
  }

  lemma UserSettles(s: Pass, visit: Visit, c: Catalog)
    requires Base(s.world, c) && ListsUser(s.world.rows, visit) && Describes(s.world.rows, visit.order, c)
    requires AllWork(s.fates) && Answers(s.world, visit.user) == visit.user
    ensures
      var r := ReconcileUser(s, visit.order, c);
      && SameRows(s.world.rows, r.world.rows) && RowsOk(r.world.rows, c)
      && (!r.halted ==> AllWork(r.fates) && UserRests(r.world, visit.user, c))
  {
    hide Base, TopTiers, Steps, AtRest;
    BaseRows(s.world, c);
    UserKeeps(s, visit, c);
    var r := ReconcileUser(s, visit.order, c);
    if s.fates != [] {
      var t := Spend(s).(held := Unloaded);
      StepsSettle(t, visit, |visit.order|, c);
      if !r.halted { RestIsAll(s.world.rows, r.world, visit, c); }
    }
  }

  lemma RestIsAll(rows: map<int, Row>, w: World, visit: Visit, c: Catalog)
    requires RowsOk(rows, c) && RowsOk(w.rows, c) && SameRows(rows, w.rows) && ListsUser(rows, visit) && Rest(rows, w, visit.order, |visit.order|, c)
    ensures UserRests(w, visit.user, c)
  {
    hide AtRest;
    TopsStay(rows, w.rows, c);
    forall id | id in w.rows && w.rows[id].user == visit.user ensures RowAtRest(w, id, c) {
      var k :| 0 <= k < |visit.order| && visit.order[k] == id;
    }
  }

  lemma OthersStayAtRest(before: World, after: World, touched: int, user: int, c: Catalog)
    requires RowsOk(before.rows, c) && RowsOk(after.rows, c) && TouchesUser(before, after, touched) && touched != user
    requires UserRests(before, user, c)
    ensures UserRests(after, user, c)
  {
    TopsStay(before.rows, after.rows, c);
    forall id | id in after.rows && after.rows[id].user == user ensures RowAtRest(after, id, c) {
      assert RowAtRest(before, id, c);
    }
  }

  lemma AnswersIsSound(w: World, user: int)
    requires Answers(w, user) == user
    ensures NameSound(w, user)
  {
  }

  lemma {:induction false} VisitsSettle(s: Pass, plan: seq<Visit>, n: nat, c: Catalog)
    requires Base(s.world, c) && PlanLists(s.world.rows, plan) && Planned(s.world.rows, plan, c) && n <= |plan|
    requires AllWork(s.fates) && forall k :: 0 <= k < |plan| ==> Answers(s.world, plan[k].user) == plan[k].user
    ensures
      var r := Visits(s, plan, n, c);
      && RowsOk(r.world.rows, c)
      && (!r.halted ==> AllWork(r.fates) && forall k :: 0 <= k < n ==> UserRests(r.world, plan[k].user, c))
  {
    hide Base, ReconcileUser, TouchesUser, UserRests, Carried, NameSound, ListsUser, CatalogOk, RowsOk;
    BaseRows(s.world, c);
    forall k | 0 <= k < |plan| ensures NameSound(s.world, plan[k].user) { AnswersIsSound(s.world, plan[k].user); }
    VisitsKeep(s, plan, n, c);
    if n > 0 {
      VisitsSettle(s, plan, n - 1, c);
      VisitsKeep(s, plan, n - 1, c);
      var before, r := Visits(s, plan, n - 1, c), Visits(s, plan, n, c);
      if !before.halted {
        ListingSurvives(s.world.rows, before.world.rows, plan[n - 1], c);
        UserSettles(before, plan[n - 1], c);
        UserKeeps(before, plan[n - 1], c);
        if !r.halted {
          forall k | 0 <= k < n - 1 ensures UserRests(r.world, plan[k].user, c) {
            OthersStayAtRest(before.world, r.world, plan[n - 1].user, plan[k].user, c);
          }
        }
      }
    }
  }

  ghost predicate RecordedAsTop(w: World, user: int, a: int, record: int, c: Catalog)
    requires RowsOk(w.rows, c)
  {
    exists id :: id in w.rows && w.rows[id].user == user && IsTop(w.rows, id, c) && Target(w.rows, id, c) == a
      && w.rows[id].status == Accepted && w.rows[id].record == record
  }

  /** What GitLab should hold for a user: the top tier per criteria under its recorded ID, nothing else. */
  ghost predicate HoldsExactlyTheTop(w: World, user: int, c: Catalog)
    requires RowsOk(w.rows, c)
  {
    && (forall i, a :: LiveFor(w.records, i, a, user) && Ours(a, c) <==>
          RecordedAsTop(w, user, a, i, c))
    && (forall id :: id in w.rows && w.rows[id].user == user ==>
          if IsTop(w.rows, id, c) then w.rows[id].status == Accepted else w.rows[id].status == Superseded)
  }

  /** GitLab holds exactly the top tiers just when every row is at rest and can be left there. */
  lemma RestAndHealIsExact(w: World, user: int, c: Catalog)
    requires Base(w, c)
    ensures HoldsExactlyTheTop(w, user, c) <==> UserRests(w, user, c) && UserHeals(w, user, c)
  {
    if UserRests(w, user, c) && UserHeals(w, user, c) {
      RestingHoldsTheTop(w, user, c);
    }
    if HoldsExactlyTheTop(w, user, c) {
      forall id | id in w.rows && w.rows[id].user == user ensures RowAtRest(w, id, c) && RowHeals(w, id, c) {
        HoldingRests(w, user, id, c);
      }
    }
  }

  lemma RestingHoldsTheTop(w: World, user: int, c: Catalog)
    requires Base(w, c) && UserRests(w, user, c) && UserHeals(w, user, c)
    ensures HoldsExactlyTheTop(w, user, c)
  {
    forall id | id in w.rows && w.rows[id].user == user
      ensures if IsTop(w.rows, id, c) then w.rows[id].status == Accepted else w.rows[id].status == Superseded
    {
      assert RowAtRest(w, id, c);
    }
    forall i, a | LiveFor(w.records, i, a, user) && Ours(a, c) ensures RecordedAsTop(w, user, a, i, c) {
      assert Earned(w.rows, a, user, c);
      var id :| id in w.rows && w.rows[id].user == user && Target(w.rows, id, c) == a;
      assert RowAtRest(w, id, c) && RowHeals(w, id, c);
    }
    forall i, a | RecordedAsTop(w, user, a, i, c) ensures LiveFor(w.records, i, a, user) && Ours(a, c) {
      var id :| id in w.rows && w.rows[id].user == user && IsTop(w.rows, id, c) && Target(w.rows, id, c) == a
        && w.rows[id].status == Accepted && w.rows[id].record == i;
      assert RowAtRest(w, id, c) && RowHeals(w, id, c);
    }
  }

  lemma HoldingRests(w: World, user: int, id: int, c: Catalog)
    requires Base(w, c) && HoldsExactlyTheTop(w, user, c) && id in w.rows && w.rows[id].user == user
    ensures RowAtRest(w, id, c) && RowHeals(w, id, c)
  {
    var a := Target(w.rows, id, c);
    if IsTop(w.rows, id, c) {
      assert RecordedAsTop(w, user, a, w.rows[id].record, c);
    } else {
      assert Ours(a, c);
      forall i ensures !LiveFor(w.records, i, a, user) {
        forall j | j in w.rows && w.rows[j].user == user && Target(w.rows, j, c) == a ensures j == id {
          if j != id { TargetsDiffer(w.rows, id, j, c); }
        }
        assert !RecordedAsTop(w, user, a, i, c);
      }
    }
  }

  /** The convergence theorem: a pass whose calls all work leaves a user's live awards exactly the top tiers
      if and only if each of their rows could come right before it. */
  lemma SmoothPassConverges(w: World, plan: seq<Visit>, c: Catalog, fates: seq<Fate>)
    requires Base(w, c) && PlanLists(w.rows, plan) && Planned(w.rows, plan, c)
    requires forall k :: 0 <= k < |plan| ==> Answers(w, plan[k].user) == plan[k].user
    requires AllWork(fates) && !Reconcile(w, plan, c, fates).halted
    ensures
      var r := Reconcile(w, plan, c, fates).world;
      && Base(r, c) && RowsOk(w.rows, c)
      && forall k :: 0 <= k < |plan| ==>
           UserRests(r, plan[k].user, c) && (HoldsExactlyTheTop(r, plan[k].user, c) <==> UserHeals(w, plan[k].user, c))
  {
    hide Visits, HoldsExactlyTheTop, Base, UserRests, RowHeals, RowGood;
    var s := Spend(Pass(w, Unloaded, fates, [], Report(0, 0, 0, 0), false));
    BaseRows(w, c);
    PassKeepsHealing(w, plan, c, fates);
    VisitsSettle(s, plan, |plan|, c);
    var r := Reconcile(w, plan, c, fates).world;
    forall k | 0 <= k < |plan| ensures HoldsExactlyTheTop(r, plan[k].user, c) <==> UserHeals(w, plan[k].user, c) {
      RestAndHealIsExact(r, plan[k].user, c);
    }
  }

  /** So a row that cannot come right keeps GitLab from holding exactly the top tiers for as long as tiers
      stay what they are, whatever passes are made. */
  lemma {:induction false} NeverComesRight(w: World, plan: seq<Visit>, c: Catalog, scripts: seq<seq<Fate>>, n: nat, id: int)
    requires Base(w, c) && PlanLists(w.rows, plan) && Planned(w.rows, plan, c) && n <= |scripts|
    requires forall k :: 0 <= k < |plan| ==> NameSound(w, plan[k].user)
    requires id in w.rows && !RowHeals(w, id, c)
    ensures
      var r := Passes(w, plan, c, scripts, n);
      && Base(r, c) && RowsOk(r.rows, c) && id in r.rows && !RowHeals(r, id, c) && !HoldsExactlyTheTop(r, w.rows[id].user, c)
      && PlanLists(r.rows, plan) && (forall k :: 0 <= k < |plan| ==> NameSound(r, plan[k].user)) && SameRows(w.rows, r.rows)
  {
    hide Base, Reconcile, RowHeals, RowGood, HoldsExactlyTheTop, NameSound, ListsUser;
    if n > 0 {
      NeverComesRight(w, plan, c, scripts, n - 1, id);
      var before := Passes(w, plan, c, scripts, n - 1);
      PlanSurvives(w.rows, before.rows, plan, c);
      PassKeepsHealing(before, plan, c, scripts[n - 1]);
      var r := Passes(w, plan, c, scripts, n);
      ListingsSurvive(before, r, plan, c);
      PassKeepsNames(before, plan, c, scripts[n - 1]);
    } else {
      BaseRows(w, c);
    }
    RestAndHealIsExact(Passes(w, plan, c, scripts, n), w.rows[id].user, c);
  }

  lemma ListingsSurvive(before: World, after: World, plan: seq<Visit>, c: Catalog)
    requires SameRows(before.rows, after.rows) && RowsOk(before.rows, c) && PlanLists(before.rows, plan)
    ensures PlanLists(after.rows, plan)
  {
    hide ListsUser, RowsOk;
    forall k | 0 <= k < |plan| ensures ListsUser(after.rows, plan[k]) { ListingSurvives(before.rows, after.rows, plan[k], c); }
  }

  lemma PassKeepsNames(w: World, plan: seq<Visit>, c: Catalog, fates: seq<Fate>)
    requires Base(w, c) && PlanLists(w.rows, plan) && Planned(w.rows, plan, c)
    requires forall k :: 0 <= k < |plan| ==> NameSound(w, plan[k].user)
    ensures forall k :: 0 <= k < |plan| ==> NameSound(Reconcile(w, plan, c, fates).world, plan[k].user)
  {
    hide Base, Visits, NameSound;
    if fates != [] {
      var s := Spend(Pass(w, Unloaded, fates, [], Report(0, 0, 0, 0), false));
      assert s.world == w;
      VisitsKeep(s, plan, |plan|, c);
    }
  }

  /** Several passes of one plan under one catalog. */
  function Passes(w: World, plan: seq<Visit>, c: Catalog, scripts: seq<seq<Fate>>, n: nat): (r: World)
    requires Planned(w.rows, plan, c) && n <= |scripts|
    ensures SameRows(w.rows, r.rows)
  {
    if n == 0 then w
    else
      var before := Passes(w, plan, c, scripts, n - 1);
      PlanSurvives(w.rows, before.rows, plan, c);
      PassKeepsRows(before, plan, c, scripts[n - 1]);
      Reconcile(before, plan, c, scripts[n - 1]).world
  }

  lemma PassKeepsRows(w: World, plan: seq<Visit>, c: Catalog, fates: seq<Fate>)
    requires Planned(w.rows, plan, c)
    ensures SameRows(w.rows, Reconcile(w, plan, c, fates).world.rows)
  {
  }

  // ---- The pass after it ----

  lemma {:induction false} RestingStepsDoNothing(s: Pass, visit: Visit, n: nat, c: Catalog)
    requires CatalogOk(c) && RowsOk(s.world.rows, c) && ListsUser(s.world.rows, visit) && Describes(s.world.rows, visit.order, c)
    requires n <= |visit.order| && UserRests(s.world, visit.user, c)
    ensures Steps(s, s.world.rows, visit.order, n, TopTiers(s.world.rows, visit.order, |visit.order|, c), c) == s
  {
    hide IsTop, TopTiers, CatalogOk, Step;
    if n > 0 {
      RestingStepsDoNothing(s, visit, n - 1, c);
      StepByTop(s.world.rows, s, visit, n, c);
      assert RowAtRest(s.world, visit.order[n - 1], c);
    }
  }

  lemma {:induction false} RestingVisitsDoNothing(s: Pass, plan: seq<Visit>, n: nat, c: Catalog)
    requires CatalogOk(c) && RowsOk(s.world.rows, c) && PlanLists(s.world.rows, plan) && Planned(s.world.rows, plan, c) && n <= |plan|
    requires forall k :: 0 <= k < |plan| ==> UserRests(s.world, plan[k].user, c)
    ensures var r := Visits(s, plan, n, c); r.world == s.world && r.calls == s.calls
  {
    hide CatalogOk, Steps, TopTiers, UserRests;
    if n > 0 {
      RestingVisitsDoNothing(s, plan, n - 1, c);
      var before := Visits(s, plan, n - 1, c);
      if !before.halted && before.fates != [] {
        RestingStepsDoNothing(Spend(before).(held := Unloaded), plan[n - 1], |plan[n - 1].order|, c);
      }
    }
  }

  /** Once every row is at rest, no later pass awards, revokes or writes anything, whatever its own calls
      would have come to. */
  lemma NextPassIsQuiet(w: World, plan: seq<Visit>, c: Catalog, fates: seq<Fate>)
    requires CatalogOk(c) && RowsOk(w.rows, c) && PlanLists(w.rows, plan) && Planned(w.rows, plan, c)
    requires forall k :: 0 <= k < |plan| ==> UserRests(w, plan[k].user, c)
    ensures var r := Reconcile(w, plan, c, fates); r.world == w && r.calls == []
  {
    hide Visits, UserRests, CatalogOk, RowsOk;
    if fates != [] {
      RestingVisitsDoNothing(Spend(Pass(w, Unloaded, fates, [], Report(0, 0, 0, 0), false)), plan, |plan|, c);
    }
  }

  // ---- Nothing but running out of statements stops a smooth pass ----

  function Budget(plan: seq<Visit>, n: nat): nat
    requires n <= |plan|
  {
    if n == 0 then 0 else Budget(plan, n - 1) + 2 + 4 * |plan[n - 1].order|
  }

  /** How much of the script is left, once the one listing per user is paid for. */
  function Left(s: Pass): int {
    |s.fates| - (if s.held.Unloaded? then 1 else 0)
  }

  lemma StepCosts(s: Pass, id: int, award: Row, definition: Definition, top: map<string, int>)
    requires AllWork(s.fates) && !s.halted && Left(s) >= 4
    ensures var r := Step(s, id, award, definition, top); AllWork(r.fates) && !r.halted && Left(r) >= Left(s) - 4
  {
    DeliverCosts(s, id, award, definition.achievement);
    SupersedeCosts(s, id, award, definition.achievement);
  }

  /** A pass with at least n statements left, all of which will work. */
  ghost predicate CanAfford(s: Pass, n: nat) {
    AllWork(s.fates) && !s.halted && !s.held.Unloaded? && |s.fates| >= n
  }

  lemma StatementsCostOne(s: Pass, n: nat, id: int, award: Row, status: Status, record: int, a: int, user: int)
    requires CanAfford(s, n + 1)
    ensures CanAfford(Transition(s, id, award, status, record).0, n) && CanAfford(RecordFailure(s, id, award), n)
    ensures CanAfford(RecordDelivered(s, id, award, record).0, n)
    ensures CanAfford(Award(s, a, user).0, n) && CanAfford(Revoke(s, record).0, n)
  {
  }

  lemma LoadCosts(s: Pass, user: int, n: nat)
    requires AllWork(s.fates) && !s.halted && Left(s) >= n
    ensures CanAfford(Load(s, user), n)
  {
  }

  lemma DeliverCosts(s: Pass, id: int, award: Row, a: int)
    requires AllWork(s.fates) && !s.halted && Left(s) >= 4
    ensures var r := DeliverAward(s, id, award, a); AllWork(r.fates) && !r.halted && Left(r) >= Left(s) - 4
  {
    hide Load, Award, Revoke, Transition, RecordDelivered, RecordFailure;
    var n := Left(s);
    LoadCosts(s, award.user, n);
    var loaded := Load(s, award.user);
    if loaded.held.Loaded? && a in loaded.held.byAchievement {
      StatementsCostOne(loaded, n - 1, id, award, Accepted, loaded.held.byAchievement[a], a, award.user);
    } else {
      StatementsCostOne(loaded, n - 1, id, award, Accepted, 0, a, award.user);
      var (sent, record) := Award(loaded, a, award.user);
      StatementsCostOne(sent, n - 2, id, award, Accepted, record, a, award.user);
      StatementsCostOne(RecordDelivered(sent, id, award, record).0, n - 3, id, award, Accepted, record, a, award.user);
    }
  }

  lemma SupersedeCosts(s: Pass, id: int, award: Row, a: int)
    requires AllWork(s.fates) && !s.halted && Left(s) >= 4
    ensures var r := SupersedeAward(s, id, award, a); AllWork(r.fates) && !r.halted && Left(r) >= Left(s) - 4
  {
    hide Load, Revoke, Transition, RecordFailure;
    var n := Left(s);
    LoadCosts(s, award.user, n);
    var loaded := Load(s, award.user);
    if loaded.held.Loaded? {
      var live := HeldUnder(loaded.held, award, a);
      StatementsCostOne(loaded, n - 1, id, award, Superseded, live, a, award.user);
      StatementsCostOne(loaded, n - 1, id, award, Superseded, award.record, a, award.user);
      var cleared := if live != 0 then Revoke(loaded, live).0 else loaded;
      StatementsCostOne(cleared, n - 2, id, award, Superseded, award.record, a, award.user);
    } else {
      StatementsCostOne(loaded, n - 1, id, award, Superseded, 0, a, award.user);
    }
  }

  lemma {:induction false} StepsCost(s: Pass, rows: map<int, Row>, order: seq<int>, n: nat, top: map<string, int>, c: Catalog)
    requires Describes(rows, order, c) && n <= |order| && AllWork(s.fates) && !s.halted && Left(s) >= 4 * n
    ensures var r := Steps(s, rows, order, n, top, c); AllWork(r.fates) && !r.halted && Left(r) >= Left(s) - 4 * n
  {
    if n > 0 {
      StepsCost(s, rows, order, n - 1, top, c);
      StepCosts(Steps(s, rows, order, n - 1, top, c), order[n - 1], rows[order[n - 1]], DefinitionOf(rows, order[n - 1], c), top);
    }
  }

  lemma {:induction false} VisitsCost(s: Pass, plan: seq<Visit>, n: nat, c: Catalog)
    requires Planned(s.world.rows, plan, c) && n <= |plan| && AllWork(s.fates) && !s.halted && |s.fates| >= Budget(plan, n)
    ensures var r := Visits(s, plan, n, c); AllWork(r.fates) && !r.halted && |r.fates| >= |s.fates| - Budget(plan, n)
  {
    hide Step;
    if n > 0 {
      VisitsCost(s, plan, n - 1, c);
      var before, order := Visits(s, plan, n - 1, c), plan[n - 1].order;
      assert Describes(s.world.rows, order, c);
      PlanSurvives(s.world.rows, before.world.rows, plan, c);
      StepsCost(Spend(before).(held := Unloaded), before.world.rows, order, |order|,
                TopTiers(before.world.rows, order, |order|, c), c);
    }
  }

  /** A pass none of whose statements fails runs to its end. */
  lemma {:induction false} SmoothPassEnds(w: World, plan: seq<Visit>, c: Catalog, fates: seq<Fate>)
    requires Planned(w.rows, plan, c) && AllWork(fates) && |fates| > Budget(plan, |plan|)
    ensures !Reconcile(w, plan, c, fates).halted
  {
    VisitsCost(Spend(Pass(w, Unloaded, fates, [], Report(0, 0, 0, 0), false)), plan, |plan|, c);
  }

  // ---- Every state a run reaches under a fixed catalog ----

  /** Nothing has been delivered yet. */
  ghost predicate Fresh(w: World, c: Catalog) {
    && CatalogOk(c) && RowsOk(w.rows, c) && Safe(w.records)
    && (forall id :: id in w.rows ==> w.rows[id].status == Pending && w.rows[id].record == 0)
    && (forall i, a, u :: LiveFor(w.records, i, a, u) ==> !Ours(a, c))
  }

  ghost predicate CanHappenUnder(w: World, h: Happening, c: Catalog) {
    match h
    case Deliver(plan, catalog, fates) =>
      && catalog == c && PlanLists(w.rows, plan) && Planned(w.rows, plan, c)
      && (forall k :: 0 <= k < |plan| ==> NameSound(w, plan[k].user))
    case Earn(id, user, definition) =>
      && id !in w.rows && definition in c
      && (forall j :: j in w.rows ==> w.rows[j].user != user || w.rows[j].definition != definition)
    case RevokedElsewhere(record) => false
    case Rename(names) => true
  }

  ghost predicate CanRunUnder(w: World, hs: seq<Happening>, n: nat, c: Catalog)
    requires n <= |hs|
    decreases n, 0
  {
    n == 0 || (CanRunUnder(w, hs, n - 1, c) && CanHappenUnder(RunUnder(w, hs, n - 1, c), hs[n - 1], c))
  }

  ghost function RunUnder(w: World, hs: seq<Happening>, n: nat, c: Catalog): World
    requires n <= |hs| && CanRunUnder(w, hs, n, c)
    decreases n, 1
  {
    if n == 0 then w
    else
      var before := RunUnder(w, hs, n - 1, c);
      match hs[n - 1]
      case Deliver(plan, catalog, fates) => Reconcile(before, plan, c, fates).world
      case Earn(id, user, definition) => before.(rows := before.rows[id := Row(user, definition, Pending, 0)])
      case RevokedElsewhere(record) => before
      case Rename(names) => before.(names := names)
  }

  lemma EarningKeepsBase(w: World, id: int, user: int, definition: int, c: Catalog)
    requires Base(w, c) && CanHappenUnder(w, Earn(id, user, definition), c)
    ensures Base(w.(rows := w.rows[id := Row(user, definition, Pending, 0)]), c)
  {
    var after := w.(rows := w.rows[id := Row(user, definition, Pending, 0)]);
    forall j | j in after.rows ensures Described(after.rows, j, c) {
      assert j != id ==> Described(w.rows, j, c);
    }
    forall i, a, u | LiveFor(after.records, i, a, u) && Ours(a, c) ensures Earned(after.rows, a, u, c) {
      assert Earned(w.rows, a, u, c);
      var j :| j in w.rows && w.rows[j].user == u && Target(w.rows, j, c) == a;
      assert after.rows[j].user == u && Target(after.rows, j, c) == a;
    }
  }

  lemma EarningKeepsTops(w: World, id: int, user: int, definition: int, c: Catalog, j: int)
    requires RowsOk(w.rows, c) && CanHappenUnder(w, Earn(id, user, definition), c) && j in w.rows
    requires RowsOk(w.rows[id := Row(user, definition, Pending, 0)], c)
    ensures
      var rows := w.rows[id := Row(user, definition, Pending, 0)];
      IsTop(rows, j, c) ==> IsTop(w.rows, j, c)
  {
    var rows := w.rows[id := Row(user, definition, Pending, 0)];
    if IsTop(rows, j, c) {
      forall k | k in w.rows && w.rows[k].user == w.rows[j].user && DefinitionOf(w.rows, k, c).criteria == DefinitionOf(w.rows, j, c).criteria
        ensures DefinitionOf(w.rows, k, c).tier <= DefinitionOf(w.rows, j, c).tier
      {
        assert rows[k] == w.rows[k];
      }
    }
  }

  lemma EarningKeepsSound(w: World, id: int, user: int, definition: int, c: Catalog)
    requires Sound(w, c) && CanHappenUnder(w, Earn(id, user, definition), c)
    ensures Sound(w.(rows := w.rows[id := Row(user, definition, Pending, 0)]), c)
  {
    hide IsTop;
    var after := w.(rows := w.rows[id := Row(user, definition, Pending, 0)]);
    EarningKeepsBase(w, id, user, definition, c);
    forall j | j in after.rows ensures RowGood(after, j, c) {
      if j != id {
        assert RowGood(w, j, c) && Target(after.rows, j, c) == Target(w.rows, j, c);
        EarningKeepsTops(w, id, user, definition, c, j);
      }
    }
  }

  lemma PassKeepsSound(w: World, plan: seq<Visit>, c: Catalog, fates: seq<Fate>)
    requires Sound(w, c) && PlanLists(w.rows, plan) && Planned(w.rows, plan, c)
    requires forall k :: 0 <= k < |plan| ==> NameSound(w, plan[k].user)
    ensures Sound(Reconcile(w, plan, c, fates).world, c)
  {
    hide Base, Reconcile, RowGood;
    PassKeepsHealing(w, plan, c, fates);
  }

  lemma FreshIsSound(w: World, c: Catalog)
    requires Fresh(w, c)
    ensures Sound(w, c)
  {
  }

  /** Tiers are earned, names go stale and recover, passes fail and crash: the invariant holds. */
  lemma {:induction false} RunKeepsSound(w: World, hs: seq<Happening>, n: nat, c: Catalog)
    requires Fresh(w, c) && n <= |hs| && CanRunUnder(w, hs, n, c)
    ensures Sound(RunUnder(w, hs, n, c), c)
  {
    hide Sound, Reconcile;
    if n == 0 {
      FreshIsSound(w, c);
    } else {
      RunKeepsSound(w, hs, n - 1, c);
      var before := RunUnder(w, hs, n - 1, c);
      match hs[n - 1]
      case Deliver(plan, catalog, fates) => PassKeepsSound(before, plan, c, fates);
      case Earn(id, user, definition) => EarningKeepsSound(before, id, user, definition, c);
      case RevokedElsewhere(record) =>
      case Rename(names) => RenamingKeepsSound(before, names, c);
    }
  }

  lemma RenamingKeepsSound(w: World, names: map<int, int>, c: Catalog)
    requires Sound(w, c)
    ensures Sound(w.(names := names), c)
  {
    forall id | id in w.rows ensures RowGood(w.(names := names), id, c) {
      assert RowGood(w, id, c);
    }
  }

  lemma SoundHeals(w: World, user: int, c: Catalog)
    requires Sound(w, c)
    ensures Base(w, c) && UserHeals(w, user, c)
  {
    hide RowTrue, Heals, Base;
    BaseRows(w, c);
    forall id | id in w.rows && w.rows[id].user == user ensures RowHeals(w, id, c) {
      assert RowGood(w, id, c);
      TrueHeals(w.records, w.rows[id], Target(w.rows, id, c), IsTop(w.rows, id, c));
    }
  }

  /** Any run, then a smooth pass, then any other pass: the first of the two leaves GitLab holding
      exactly the top tiers and the second finds nothing to do. */
  lemma {:induction false} AnyRunConverges(w: World, hs: seq<Happening>, c: Catalog, plan: seq<Visit>, fates: seq<Fate>, later: seq<Fate>)
    requires Fresh(w, c) && CanRunUnder(w, hs, |hs|, c)
    requires var reached := RunUnder(w, hs, |hs|, c);
      && PlanLists(reached.rows, plan) && Planned(reached.rows, plan, c)
      && (forall k :: 0 <= k < |plan| ==> Answers(reached, plan[k].user) == plan[k].user)
    requires AllWork(fates) && |fates| > Budget(plan, |plan|)
    ensures
      var settled := Reconcile(RunUnder(w, hs, |hs|, c), plan, c, fates).world;
      && RowsOk(settled.rows, c) && Planned(settled.rows, plan, c)
      && (forall k :: 0 <= k < |plan| ==> HoldsExactlyTheTop(settled, plan[k].user, c))
      && Reconcile(settled, plan, c, later).world == settled && Reconcile(settled, plan, c, later).calls == []
  {
    hide Reconcile, Sound, Base, HoldsExactlyTheTop, UserRests, UserHeals;
    var reached := RunUnder(w, hs, |hs|, c);
    RunKeepsSound(w, hs, |hs|, c);
    SoundHeals(reached, 0, c);
    SmoothPassEnds(reached, plan, c, fates);
    SmoothPassConverges(reached, plan, c, fates);
    var settled := Reconcile(reached, plan, c, fates).world;
    BaseRows(reached, c);
    BaseRows(settled, c);
    PassKeepsRows(reached, plan, c, fates);
    PlanSurvives(reached.rows, settled.rows, plan, c);
    ListingsSurvive(reached, settled, plan, c);
    forall k | 0 <= k < |plan| ensures HoldsExactlyTheTop(settled, plan[k].user, c) {
      SoundHeals(reached, plan[k].user, c);
    }
    NextPassIsQuiet(settled, plan, c, later);
  }
}
