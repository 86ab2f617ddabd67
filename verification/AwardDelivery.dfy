/** The delivery pass as the program runs it: fields updated in place, loops over users, awards and
    listings. Every method leaves exactly the state its function in Awards names. */
module AwardDelivery {
  import opened Awards
  import opened AwardSafety

  class Delivery {
    // The two stores.
    var rows: map<int, Row>
    var records: seq<Record>
    var names: map<int, int>
    // heldAwards: what GitLab already holds for the user being delivered to.
    var loaded: bool
    var failed: bool
    var byAchievement: map<int, int>
    var byId: set<int>
    // What the environment still has in store, and what was asked of GitLab.
    var fates: seq<Fate>
    var calls: seq<Call>
    var report: Report
    var halted: bool

    ghost function State(): Pass
      reads this
    {
      var held := if !loaded then Unloaded else if failed then Broken else Loaded(byAchievement, byId);
      Pass(World(rows, records, names), held, fates, calls, report, halted)
    }

    constructor (w: World, script: seq<Fate>)
      ensures State() == Pass(w, Unloaded, script, [], Report(0, 0, 0, 0), false)
    {
      rows, records, names := w.rows, w.records, w.names;
      loaded, failed, byAchievement, byId := false, false, map[], {};
      fates, calls, report, halted := script, [], Report(0, 0, 0, 0), false;
    }

    method Forget()
      modifies this
      ensures State() == old(State()).(held := Unloaded)
    {
      loaded, failed, byAchievement, byId := false, false, map[], {};
    }

    /** Reads the user's own listing once, keeping the live awards; any foreign record fails it whole. */
    method Load(user: int)
      modifies this
      ensures State() == Awards.Load(old(State()), user)
    {
      hide ByAchievement, LiveIds;
      ListsNothing(records, user);
      if loaded { return; }
      if fates == [] { halted := true; return; }
      var fate := fates[0];
      fates := fates[1..];
      loaded, failed, byAchievement, byId := true, false, map[], {};
      if fate != Works { failed := true; return; }
      var account := if user in names then names[user] else user;
      var i := 0;
      while i < |records|
        modifies this`failed, this`byAchievement, this`byId
        invariant 0 <= i <= |records| && !failed
        invariant account != user ==> forall j :: 0 <= j < i ==> records[j].owner != account
        invariant byAchievement == (if account == user then ByAchievement(records, user, i) else map[])
        invariant byId == (if account == user then LiveIds(records, user, i) else {})
      {
        if records[i].owner == account {
          if account != user {
            failed, byAchievement, byId := true, map[], {};
            assert OwnsAny(records, account);
            return;
          }
          if records[i].live {
            byAchievement := byAchievement[records[i].achievement := i + 1];
            byId := byId + {i + 1};
          }
        }
        i := i + 1;
        ListsOneMore(records, user, i - 1);
      }
      assert account != user ==> !OwnsAny(records, account);
    }

    method AwardOnGitLab(achievement: int, user: int) returns (id: int)
      modifies this
      ensures (State(), id) == Awards.Award(old(State()), achievement, user)
    {
      id := 0;
      if fates == [] { halted := true; return; }
      var fate := fates[0];
      fates, calls := fates[1..], calls + [AwardCall(achievement, user)];
      if fate == Fails { return; }
      records := records + [Record(achievement, user, true)];
      if fate == WorksUnseen { return; }
      id := |records|;
      if loaded && !failed {
        byAchievement, byId := byAchievement[achievement := id], byId + {id};
      }
    }

    method RevokeOnGitLab(id: int) returns (revoked: bool)
      modifies this
      ensures (State(), revoked) == Awards.Revoke(old(State()), id)
    {
      revoked := false;
      if fates == [] { halted := true; return; }
      var fate := fates[0];
      fates, calls := fates[1..], calls + [RevokeCall(id)];
      if fate == Fails || !IsLive(records, id) { return; }
      var achievement := records[id - 1].achievement;
      records := records[id - 1 := records[id - 1].(live := false)];
      if fate == WorksUnseen { return; }
      revoked := true;
      if loaded && !failed {
        byAchievement, byId := byAchievement - {achievement}, byId - {id};
      }
    }

    /** The compare-and-set every delivery outcome is recorded by. */
    method TransitionAward(id: int, read: Row, status: Status, record: int) returns (outcome: Written)
      modifies this
      ensures (State(), outcome) == Awards.Transition(old(State()), id, read, status, record)
    {
      if fates == [] || fates[0] == Fails { halted := true; return Stopped; }
      var fate := fates[0];
      fates := fates[1..];
      outcome := Moved;
      if id in rows && rows[id].status == read.status && rows[id].record == read.record {
        rows := rows[id := rows[id].(status := status, record := record)];
        outcome := Done;
      }
      if fate == WorksUnseen { halted := true; outcome := Stopped; }
    }

    method RecordAwardDelivered(id: int, award: Row, record: int) returns (outcome: Written)
      modifies this
      ensures (State(), outcome) == Awards.RecordDelivered(old(State()), id, award, record)
    {
      outcome := TransitionAward(id, award, Accepted, record);
      if outcome == Done {
        report := report.(confirmed := report.confirmed + 1);
      }
    }

    method RecordAwardFailure(id: int, award: Row)
      modifies this
      ensures State() == Awards.RecordFailure(old(State()), id, award)
    {
      var outcome := TransitionAward(id, award, Failed, award.record);
      if outcome == Done {
        report := report.(failed := report.failed + 1);
      }
    }

    method DeliverAward(id: int, award: Row, achievement: int)
      modifies this
      ensures State() == Awards.DeliverAward(old(State()), id, award, achievement)
    {
      if award.status == Accepted && award.record != 0 { return; }
      Load(award.user);
      if halted { return; }
      if failed {
        RecordAwardFailure(id, award);
        return;
      }
      if achievement in byAchievement {
        var outcome := RecordAwardDelivered(id, award, byAchievement[achievement]);
        if outcome == Done {
          report := report.(adopted := report.adopted + 1);
        }
        return;
      }
      var record := AwardOnGitLab(achievement, award.user);
      if halted { return; }
      if record == 0 {
        RecordAwardFailure(id, award);
        return;
      }
      var outcome := RecordAwardDelivered(id, award, record);
      if outcome == Moved {
        var _ := RevokeOnGitLab(record);
      }
    }

    method SupersedeAward(id: int, award: Row, achievement: int)
      modifies this
      ensures State() == Awards.SupersedeAward(old(State()), id, award, achievement)
    {
      hide ByAchievement, LiveIds, OwnsAny, Awards.Transition, Awards.RecordFailure;
      if award.status == Superseded { return; }
      Load(award.user);
      if halted { return; }
      if failed {
        RecordAwardFailure(id, award);
        return;
      }
      var live := HeldUnder(Loaded(byAchievement, byId), award, achievement);
      if live != 0 {
        var revoked := RevokeOnGitLab(live);
        if halted { return; }
        if !revoked {
          RecordAwardFailure(id, award);
          return;
        }
      }
      var outcome := TransitionAward(id, award, Superseded, award.record);
      if outcome == Done {
        report := report.(superseded := report.superseded + 1);
      }
    }

    method TopTiersOf(awards: seq<int>, catalog: Catalog) returns (top: map<string, int>)
      requires Describes(rows, awards, catalog)
      ensures top == TopTiers(rows, awards, |awards|, catalog)
    {
      top := map[];
      for i := 0 to |awards|
        invariant top == TopTiers(rows, awards, i, catalog)
      {
        assert Described(rows, awards[i], catalog);
        var definition := catalog[rows[awards[i]].definition];
        if definition.tier > TierIn(top, definition.criteria) {
          top := top[definition.criteria := definition.tier];
        }
      }
    }

    method ReconcileUserAwards(order: seq<int>, catalog: Catalog)
      requires Describes(rows, order, catalog)
      modifies this
      ensures State() == ReconcileUser(old(State()), order, catalog)
    {
      if fates == [] || fates[0] != Works { halted := true; return; }
      fates := fates[1..];
      var awards := rows;
      var top := TopTiersOf(order, catalog);
      Forget();
      ghost var started := State();
      for i := 0 to |order|
        invariant State() == Steps(started, awards, order, i, top, catalog)
      {
        if !halted {
          assert Described(awards, order[i], catalog);
          var id := order[i];
          var award := awards[id];
          var definition := catalog[award.definition];
          if definition.tier == TierIn(top, definition.criteria) {
            DeliverAward(id, award, definition.achievement);
          } else {
            SupersedeAward(id, award, definition.achievement);
          }
        }
      }
    }

    /** A whole pass. It never adds a duplicate award, wherever it is cut short. */
    method ReconcileAwards(plan: seq<Visit>, catalog: Catalog)
      requires Planned(rows, plan, catalog) && State().held == Unloaded && !halted && calls == [] && report == Report(0, 0, 0, 0)
      modifies this
      ensures State() == Reconcile(old(State()).world, plan, catalog, old(fates))
      ensures old(PlanFits(State().world, plan, catalog)) && old(Safe(records)) ==> Safe(records)
    {
      ghost var w := State().world;
      ghost var script := fates;
      if PlanFits(w, plan, catalog) && Safe(w.records) {
        PassStaysSafe(w, plan, catalog, script);
      }
      if fates == [] || fates[0] != Works { halted := true; return; }
      fates := fates[1..];
      ghost var started := State();
      for i := 0 to |plan|
        invariant State() == Visits(started, plan, i, catalog)
      {
        if !halted {
          assert Describes(w.rows, plan[i].order, catalog);
          PlanSurvives(w.rows, rows, plan, catalog);
          ReconcileUserAwards(plan[i].order, catalog);
        }
      }
    }
  }

  lemma ListsNothing(records: seq<Record>, user: int)
    ensures ByAchievement(records, user, 0) == map[] && LiveIds(records, user, 0) == {}
  {
  }

  lemma ListsOneMore(records: seq<Record>, user: int, n: nat)
    requires n < |records|
    ensures
      if Holds(records, user, n + 1) then
        ByAchievement(records, user, n + 1) == ByAchievement(records, user, n)[records[n].achievement := n + 1]
        && LiveIds(records, user, n + 1) == LiveIds(records, user, n) + {n + 1}
      else
        ByAchievement(records, user, n + 1) == ByAchievement(records, user, n)
        && LiveIds(records, user, n + 1) == LiveIds(records, user, n)
  {
  }
}
