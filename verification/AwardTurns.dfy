/** One award's turn in a pass, whatever becomes of its calls: what it keeps true of its row, and whether
    that row can still come right. */
module AwardTurns {
  import opened Awards
  import opened AwardSafety

  // ---- What is true between any two statements ----

  ghost predicate CatalogOk(c: Catalog) {
    && (forall d, e :: d in c && e in c && d != e ==> c[d].achievement != c[e].achievement)
    && (forall d, e :: d in c && e in c && d != e ==> c[d].criteria != c[e].criteria || c[d].tier != c[e].tier)
    && (forall d :: d in c ==> c[d].tier >= 1)
  }

  /** The unique index on user and definition, and the foreign key. */
  ghost predicate RowsOk(rows: map<int, Row>, c: Catalog) {
    && (forall id :: id in rows ==> Described(rows, id, c))
    && (forall i, j :: i in rows && j in rows && i != j ==> rows[i].user != rows[j].user || rows[i].definition != rows[j].definition)
  }

  function Target(rows: map<int, Row>, id: int, c: Catalog): int
    requires Described(rows, id, c)
  {
    DefinitionOf(rows, id, c).achievement
  }

  /** No award of the same user and criteria is of a higher tier. */
  ghost predicate IsTop(rows: map<int, Row>, id: int, c: Catalog)
    requires RowsOk(rows, c) && id in rows
  {
    forall j :: j in rows && rows[j].user == rows[id].user
      && DefinitionOf(rows, j, c).criteria == DefinitionOf(rows, id, c).criteria
      ==> DefinitionOf(rows, j, c).tier <= DefinitionOf(rows, id, c).tier
  }

  /** A recorded ID is the user's own, for this achievement. */
  ghost predicate RowOwn(records: seq<Record>, row: Row, a: int) {
    row.record != 0 ==> Owns(records, row.user, row.record) && records[row.record - 1].achievement == a
  }

  /** A row can still come right: a top tier is not taken for delivered under an award that is gone, nor a
      lower one for withdrawn, or about to be, while an award other than the recorded one is live. */
  ghost predicate Heals(records: seq<Record>, row: Row, a: int, top: bool) {
    if top then !(row.status == Accepted && row.record != 0) || LiveFor(records, row.record, a, row.user)
    else
      && (row.status == Superseded ==> forall i :: !LiveFor(records, i, a, row.user))
      && (row.record != 0 ==> forall i :: LiveFor(records, i, a, row.user) ==> i == row.record)
  }

  /** What an awards row says of its achievement a while the catalog stays the same. */
  ghost predicate RowTrue(records: seq<Record>, row: Row, a: int, top: bool) {
    // A recorded ID is the only one that can be live.
    && (row.record != 0 ==> forall i :: LiveFor(records, i, a, row.user) ==> i == row.record)
    // A tier marked superseded is off GitLab for good.
    && (row.status == Superseded ==> !top && forall i :: !LiveFor(records, i, a, row.user))
    // A top tier that has been recorded is where it should be.
    && (row.record != 0 && top ==> row.status == Accepted && LiveFor(records, row.record, a, row.user))
  }

  lemma TrueHeals(records: seq<Record>, row: Row, a: int, top: bool)
    requires RowTrue(records, row, a, top)
    ensures Heals(records, row, a, top)
  {
  }

  ghost predicate OneLive(records: seq<Record>, a: int, u: int) {
    forall i, j :: LiveFor(records, i, a, u) && LiveFor(records, j, a, u) ==> i == j
  }

  /** Where a row is when a pass has nothing more to do about it. */
  predicate AtRest(row: Row, top: bool) {
    if top then row.status == Accepted && row.record != 0 else row.status == Superseded
  }

  /** What a step for one award may change: its own row, and its user's awards of its achievement. */
  ghost predicate OnlyTouches(before: World, after: World, id: int, a: int, u: int) {
    && SameRows(before.rows, after.rows) && after.names == before.names
    && (forall j :: j in before.rows && j != id ==> after.rows[j] == before.rows[j])
    && |before.records| <= |after.records|
    && (forall i :: 0 <= i < |before.records| ==>
          after.records[i] == before.records[i]
          || (before.records[i].achievement == a && before.records[i].owner == u && after.records[i] == before.records[i].(live := false)))
    && (forall i :: |before.records| <= i < |after.records| ==> after.records[i].achievement == a && after.records[i].owner == u)
  }

  lemma TouchesInTurn(w0: World, w1: World, w2: World, id: int, a: int, u: int)
    requires OnlyTouches(w0, w1, id, a, u) && OnlyTouches(w1, w2, id, a, u)
    ensures OnlyTouches(w0, w2, id, a, u)
  {
  }

  /** What is true of a row stays true, and whether it can come right does not change. */
  ghost predicate Carries(before: seq<Record>, row: Row, after: seq<Record>, now: Row, a: int, top: bool) {
    && (RowTrue(before, row, a, top) ==> RowTrue(after, now, a, top))
    && (Heals(before, row, a, top) <==> Heals(after, now, a, top))
  }

  // ---- What a pass knows ----

  /** For the achievements still to come, the listing says exactly what is live. */
  ghost predicate Exact(held: Held, records: seq<Record>, user: int, todo: set<int>) {
    held.Loaded? ==> forall a :: a in todo ==> ExactFor(held, records, user, a)
  }

  ghost predicate ExactFor(held: Held, records: seq<Record>, user: int, a: int)
    requires held.Loaded?
  {
    && (forall i :: LiveFor(records, i, a, user) ==> a in held.byAchievement)
    && (a in held.byAchievement ==> LiveFor(records, held.byAchievement[a], a, user))
    && (forall i :: Owns(records, user, i) && records[i - 1].achievement == a ==> (i in held.byId <==> IsLive(records, i)))
  }

  lemma LoadIsExact(s: Pass, user: int, todo: set<int>)
    requires NameSound(s.world, user) && Exact(s.held, s.world.records, user, todo)
    ensures var r := Load(s, user); r.world == s.world && Exact(r.held, r.world.records, user, todo)
  {
    ListedExactly(s.world.records, user, |s.world.records|);
    var r, records := Load(s, user), s.world.records;
    if r.held.Loaded? && s.held.Unloaded? {
      assert r.held == Loaded(ByAchievement(records, user, |records|), LiveIds(records, user, |records|));
      forall a | a in todo ensures ExactFor(r.held, records, user, a) {
        forall i | LiveFor(records, i, a, user) ensures a in r.held.byAchievement { }
        forall i | Owns(records, user, i) ensures i in r.held.byId <==> IsLive(records, i) {
          assert IsLive(records, i) ==> Holds(records, user, i);
        }
      }
    }
  }

  /** An award's turn: its row is as the pass read it, and records what it may. */
  ghost predicate Ready(s: Pass, id: int, award: Row, a: int, todo: set<int>) {
    && id in s.world.rows && s.world.rows[id] == award
    && RowOwn(s.world.records, award, a) && OneLive(s.world.records, a, award.user)
    && NameSound(s.world, award.user) && Exact(s.held, s.world.records, award.user, todo)
  }

  /** What a statement for one award leaves of a pass. */
  ghost predicate Keeps(s: Pass, r: Pass, id: int, award: Row, a: int, top: bool, todo: set<int>) {
    && OnlyTouches(s.world, r.world, id, a, award.user) && NameSound(r.world, award.user)
    && id in r.world.rows && RowOwn(r.world.records, r.world.rows[id], a)
    && Carries(s.world.records, award, r.world.records, r.world.rows[id], a, top)
    && OneLive(r.world.records, a, award.user) && Exact(r.held, r.world.records, award.user, todo)
  }

  /** A statement that leaves the row alone, and then one that may not. */
  lemma KeepsInTurn(s: Pass, t: Pass, r: Pass, id: int, award: Row, a: int, top: bool, todo: set<int>, left: set<int>)
    requires Keeps(s, t, id, award, a, top, todo) && t.world.rows[id] == award && Keeps(t, r, id, award, a, top, left)
    ensures Keeps(s, r, id, award, a, top, left)
  {
    hide RowTrue, Heals, OneLive, Exact, NameSound;
    TouchesInTurn(s.world, t.world, r.world, id, a, award.user);
  }

  lemma NothingKeeps(s: Pass, r: Pass, id: int, award: Row, a: int, top: bool, todo: set<int>, left: set<int>)
    requires Ready(s, id, award, a, todo) && left <= todo && r.world == s.world
    requires Exact(r.held, r.world.records, award.user, todo)
    ensures Keeps(s, r, id, award, a, top, left)
  {
    hide RowTrue, Heals, NameSound, OneLive, ExactFor;
  }

  // ---- Single statements ----

  /** Delivery has to do something about the award. */
  predicate Undelivered(award: Row) {
    !(award.status == Accepted && award.record != 0)
  }

  lemma FailureKeeps(s: Pass, id: int, award: Row, a: int, top: bool, todo: set<int>)
    requires Ready(s, id, award, a, todo) && (if top then Undelivered(award) else award.status != Superseded)
    ensures Keeps(s, RecordFailure(s, id, award), id, award, a, top, todo)
  {
    hide Exact, NameSound, OneLive;
    NamesAlike(s.world, RecordFailure(s, id, award).world, award.user);
  }

  lemma NamesAlike(w: World, v: World, user: int)
    requires w.records == v.records && w.names == v.names
    ensures NameSound(w, user) == NameSound(v, user)
  {
  }

  lemma RecordKeeps(s: Pass, id: int, award: Row, a: int, todo: set<int>, record: int)
    requires Ready(s, id, award, a, todo) && LiveFor(s.world.records, record, a, award.user) && Undelivered(award)
    ensures var (r, outcome) := RecordDelivered(s, id, award, record);
      && Keeps(s, r, id, award, a, true, todo) && outcome != Moved
      && (outcome == Done ==> AtRest(r.world.rows[id], true))
  {
    hide Exact, NameSound;
    NamesAlike(s.world, RecordDelivered(s, id, award, record).0.world, award.user);
  }

  lemma AwardIsAppended(s: Pass, a: int, user: int)
    ensures
      var r := Award(s, a, user).0;
      && r.world.rows == s.world.rows && r.world.names == s.world.names
      && (r.world.records == s.world.records || r.world.records == s.world.records + [Record(a, user, true)])
  {
  }

  lemma AwardKeeps(s: Pass, id: int, award: Row, a: int, todo: set<int>)
    requires Ready(s, id, award, a, todo) && Undelivered(award)
    requires s.held.Loaded? && a !in s.held.byAchievement && a in todo
    ensures var (r, record) := Award(s, a, award.user);
      && Keeps(s, r, id, award, a, true, todo - {a}) && Ready(r, id, award, a, todo - {a})
      && (record != 0 ==> LiveFor(r.world.records, record, a, award.user))
  {
    hide NameSound;
    var r := Award(s, a, award.user).0;
    NamesStaySound(s.world, r.world, award.user);
    AwardIsAppended(s, a, award.user);
    assert ExactFor(s.held, s.world.records, award.user, a);
    assert forall i :: !LiveFor(s.world.records, i, a, award.user);
    forall i | LiveFor(r.world.records, i, a, award.user) ensures i == |s.world.records| + 1 {
      assert i <= |s.world.records| ==> LiveFor(s.world.records, i, a, award.user);
    }
    AwardIsExact(s, a, award.user, todo);
  }

  lemma AwardIsExact(s: Pass, a: int, user: int, todo: set<int>)
    requires Exact(s.held, s.world.records, user, todo)
    ensures var r := Award(s, a, user).0; Exact(r.held, r.world.records, user, todo - {a})
  {
    var r := Award(s, a, user).0;
    if r.held.Loaded? {
      forall b | b in todo - {a} ensures ExactFor(r.held, r.world.records, user, b) {
        assert ExactFor(s.held, s.world.records, user, b);
        forall i | LiveFor(r.world.records, i, b, user) ensures LiveFor(s.world.records, i, b, user) { }
      }
    }
  }

  /** Taking off the one live award there is, of a lower tier not yet marked. */
  lemma RevokeKeeps(s: Pass, id: int, award: Row, a: int, todo: set<int>, live: int)
    requires Ready(s, id, award, a, todo) && LiveFor(s.world.records, live, a, award.user)
    requires award.status != Superseded && (award.record != 0 ==> award.record == live)
    ensures var (r, revoked) := Revoke(s, live);
      && Keeps(s, r, id, award, a, false, todo - {a}) && Ready(r, id, award, a, todo - {a})
      && (revoked ==> forall i :: !LiveFor(r.world.records, i, a, award.user))
  {
    hide NameSound, Exact;
    var r := Revoke(s, live).0;
    NamesStaySound(s.world, r.world, award.user);
    forall i, b, v | LiveFor(r.world.records, i, b, v) ensures LiveFor(s.world.records, i, b, v) { }
    RevokeIsExact(s, live, a, award.user, todo);
  }

  lemma RevokeIsExact(s: Pass, live: int, a: int, user: int, todo: set<int>)
    requires Exact(s.held, s.world.records, user, todo) && LiveFor(s.world.records, live, a, user)
    ensures var r := Revoke(s, live).0; Exact(r.held, r.world.records, user, todo - {a})
  {
    var r := Revoke(s, live).0;
    if r.held.Loaded? {
      forall i, b, v | LiveFor(r.world.records, i, b, v) ensures LiveFor(s.world.records, i, b, v) { }
      forall i, b, v | LiveFor(s.world.records, i, b, v) && b != a ensures LiveFor(r.world.records, i, b, v) { }
      forall b | b in todo - {a} ensures ExactFor(r.held, r.world.records, user, b) {
        assert ExactFor(s.held, s.world.records, user, b);
      }
    }
  }

  /** A tier is marked withdrawn when none of it is live, or when the award it records is not. */
  lemma WithdrawKeeps(s: Pass, id: int, award: Row, a: int, todo: set<int>)
    requires Ready(s, id, award, a, todo) && award.status != Superseded
    requires (forall i :: !LiveFor(s.world.records, i, a, award.user)) || (award.record != 0 && !LiveFor(s.world.records, award.record, a, award.user))
    ensures var (r, outcome) := Transition(s, id, award, Superseded, award.record);
      && Keeps(s, r, id, award, a, false, todo) && outcome != Moved
      && (outcome == Done ==> AtRest(r.world.rows[id], false))
  {
    hide Exact, NameSound, OneLive;
    NamesAlike(s.world, Transition(s, id, award, Superseded, award.record).0.world, award.user);
  }

  // ---- A whole turn ----

  lemma DeliverKeeps(s: Pass, id: int, award: Row, a: int, todo: set<int>)
    requires Ready(s, id, award, a, todo) && a in todo && !s.halted
    ensures Keeps(s, DeliverAward(s, id, award, a), id, award, a, true, todo - {a})
  {
    hide Load, Award, Revoke, RecordDelivered, RecordFailure, Transition, Keeps, RowTrue, Heals, OneLive, OnlyTouches, NameSound, ExactFor;
    LoadIsExact(s, award.user, todo);
    var loaded := Load(s, award.user);
    NothingKeeps(s, loaded, id, award, a, true, todo, todo);
    NothingKeeps(s, loaded, id, award, a, true, todo, todo - {a});
    NothingKeeps(s, s, id, award, a, true, todo, todo - {a});
    if Undelivered(award) && !loaded.halted {
      if !loaded.held.Loaded? {
        FailureKeeps(loaded, id, award, a, true, todo - {a});
        KeepsInTurn(s, loaded, RecordFailure(loaded, id, award), id, award, a, true, todo, todo - {a});
      } else if a in loaded.held.byAchievement {
        assert LiveFor(loaded.world.records, loaded.held.byAchievement[a], a, award.user) by { ListedIsLive(loaded, award.user, a, todo); }
        RecordKeeps(loaded, id, award, a, todo - {a}, loaded.held.byAchievement[a]);
        KeepsInTurn(s, loaded, RecordDelivered(loaded, id, award, loaded.held.byAchievement[a]).0, id, award, a, true, todo, todo - {a});
        KeepsAnyReport(s, RecordDelivered(loaded, id, award, loaded.held.byAchievement[a]).0, DeliverAward(s, id, award, a), id, award, a, true, todo - {a});
      } else {
        AwardKeeps(loaded, id, award, a, todo);
        var (sent, record) := Award(loaded, a, award.user);
        assert sent.world.rows[id] == award;
        KeepsInTurn(s, loaded, sent, id, award, a, true, todo, todo - {a});
        if record == 0 {
          FailureKeeps(sent, id, award, a, true, todo - {a});
          KeepsInTurn(s, sent, RecordFailure(sent, id, award), id, award, a, true, todo - {a}, todo - {a});
        } else {
          RecordKeeps(sent, id, award, a, todo - {a}, record);
          KeepsInTurn(s, sent, RecordDelivered(sent, id, award, record).0, id, award, a, true, todo - {a}, todo - {a});
        }
      }
    }
  }

  lemma ListedIsLive(s: Pass, user: int, a: int, todo: set<int>)
    requires Exact(s.held, s.world.records, user, todo) && a in todo && s.held.Loaded? && a in s.held.byAchievement
    ensures LiveFor(s.world.records, s.held.byAchievement[a], a, user)
  {
    assert ExactFor(s.held, s.world.records, user, a);
  }

  lemma KeepsAnyReport(s: Pass, r: Pass, q: Pass, id: int, award: Row, a: int, top: bool, todo: set<int>)
    requires Keeps(s, r, id, award, a, top, todo) && q.world == r.world && q.held == r.held
    ensures Keeps(s, q, id, award, a, top, todo)
  {
  }

  /** What a lower tier stands for is the one live award it may take off; with none, either nothing is live
      or the award on record is gone. */
  lemma HeldUnderIsLive(s: Pass, award: Row, a: int, todo: set<int>)
    requires s.held.Loaded? && Exact(s.held, s.world.records, award.user, todo) && a in todo && RowOwn(s.world.records, award, a)
    ensures
      var live := HeldUnder(s.held, award, a);
      if live != 0 then LiveFor(s.world.records, live, a, award.user) && (award.record != 0 ==> award.record == live)
      else
        (forall i :: !LiveFor(s.world.records, i, a, award.user)) || (award.record != 0 && !LiveFor(s.world.records, award.record, a, award.user))
  {
    assert ExactFor(s.held, s.world.records, award.user, a);
  }

  lemma SupersedeKeeps(s: Pass, id: int, award: Row, a: int, todo: set<int>)
    requires Ready(s, id, award, a, todo) && a in todo && !s.halted
    ensures Keeps(s, SupersedeAward(s, id, award, a), id, award, a, false, todo - {a})
  {
    hide Load, Revoke, RecordFailure, Transition, Keeps, RowTrue, Heals, OneLive, OnlyTouches, NameSound, ExactFor, HeldUnder;
    LoadIsExact(s, award.user, todo);
    var loaded := Load(s, award.user);
    NothingKeeps(s, loaded, id, award, a, false, todo, todo);
    NothingKeeps(s, loaded, id, award, a, false, todo, todo - {a});
    NothingKeeps(s, s, id, award, a, false, todo, todo - {a});
    if award.status != Superseded && !loaded.halted {
      if !loaded.held.Loaded? {
        FailureKeeps(loaded, id, award, a, false, todo - {a});
        KeepsInTurn(s, loaded, RecordFailure(loaded, id, award), id, award, a, false, todo, todo - {a});
      } else {
        WithdrawingKeeps(s, loaded, id, award, a, todo);
      }
    }
  }

  /** The part of a lower tier's turn that comes after a listing. */
  lemma WithdrawingKeeps(s: Pass, loaded: Pass, id: int, award: Row, a: int, todo: set<int>)
    requires Ready(s, id, award, a, todo) && a in todo && !s.halted && award.status != Superseded
    requires loaded == Load(s, award.user) && !loaded.halted && loaded.held.Loaded? && Exact(loaded.held, loaded.world.records, award.user, todo)
    requires loaded.world == s.world && Keeps(s, loaded, id, award, a, false, todo)
    ensures Keeps(s, SupersedeAward(s, id, award, a), id, award, a, false, todo - {a})
  {
    hide Load, Revoke, RecordFailure, Transition, Keeps, RowTrue, Heals, OneLive, OnlyTouches, NameSound, ExactFor, HeldUnder;
    var live, r := HeldUnder(loaded.held, award, a), SupersedeAward(s, id, award, a);
    HeldUnderIsLive(loaded, award, a, todo);
    if live == 0 {
      WithdrawKeeps(loaded, id, award, a, todo - {a});
      var written := Transition(loaded, id, award, Superseded, award.record).0;
      KeepsInTurn(s, loaded, written, id, award, a, false, todo, todo - {a});
      KeepsAnyReport(s, written, r, id, award, a, false, todo - {a});
    } else {
      RevokeKeeps(loaded, id, award, a, todo, live);
      var (cleared, revoked) := Revoke(loaded, live);
      KeepsInTurn(s, loaded, cleared, id, award, a, false, todo, todo - {a});
      if !cleared.halted {
        if revoked {
          WithdrawKeeps(cleared, id, award, a, todo - {a});
          var written := Transition(cleared, id, award, Superseded, award.record).0;
          KeepsInTurn(s, cleared, written, id, award, a, false, todo - {a}, todo - {a});
          KeepsAnyReport(s, written, r, id, award, a, false, todo - {a});
        } else {
          FailureKeeps(cleared, id, award, a, false, todo - {a});
          KeepsInTurn(s, cleared, RecordFailure(cleared, id, award), id, award, a, false, todo - {a}, todo - {a});
        }
      }
    }
  }

  // ---- A turn in which every call goes well ----

  predicate AllWork(fates: seq<Fate>) {
    forall i :: 0 <= i < |fates| ==> fates[i] == Works
  }

  lemma LoadWorks(s: Pass, user: int)
    requires AllWork(s.fates) && !s.held.Broken? && Answers(s.world, user) == user
    ensures var r := Load(s, user); AllWork(r.fates) && !r.held.Broken? && (!r.halted ==> s.halted || r.held.Loaded?) && r.world == s.world
  {
  }

  lemma AwardWorks(s: Pass, a: int, user: int)
    requires AllWork(s.fates) && !s.held.Broken?
    ensures
      var (r, record) := Award(s, a, user);
      AllWork(r.fates) && !r.held.Broken? && (!r.halted ==> s.halted || record != 0)
  {
  }

  lemma RevokeWorks(s: Pass, live: int)
    requires AllWork(s.fates) && !s.held.Broken? && IsLive(s.world.records, live)
    ensures
      var (r, revoked) := Revoke(s, live);
      AllWork(r.fates) && !r.held.Broken? && (!r.halted ==> s.halted || revoked)
  {
  }

  lemma TransitionWorks(s: Pass, id: int, award: Row, status: Status, record: int)
    requires AllWork(s.fates) && !s.held.Broken?
    ensures
      var (r, outcome) := Transition(s, id, award, status, record);
      AllWork(r.fates) && !r.held.Broken? && (!r.halted ==> s.halted || outcome != Stopped)
  {
  }

  lemma DeliverSettles(s: Pass, id: int, award: Row, a: int, todo: set<int>)
    requires Ready(s, id, award, a, todo) && a in todo && !s.halted
    requires AllWork(s.fates) && !s.held.Broken? && Answers(s.world, award.user) == award.user
    ensures var r := DeliverAward(s, id, award, a);
      && AllWork(r.fates) && !r.held.Broken?
      && (!r.halted ==> AtRest(r.world.rows[id], true))
  {
    hide Load, Award, Revoke, Transition, AllWork, Exact, OneLive, NameSound, Keeps, RowOwn;
    LoadIsExact(s, award.user, todo);
    LoadWorks(s, award.user);
    var loaded := Load(s, award.user);
    if Undelivered(award) && !loaded.halted {
      if a in loaded.held.byAchievement {
        ListedIsLive(loaded, award.user, a, todo);
        RecordKeeps(loaded, id, award, a, todo, loaded.held.byAchievement[a]);
        TransitionWorks(loaded, id, award, Accepted, loaded.held.byAchievement[a]);
      } else {
        AwardKeeps(loaded, id, award, a, todo);
        AwardWorks(loaded, a, award.user);
        var (sent, record) := Award(loaded, a, award.user);
        if !sent.halted {
          RecordKeeps(sent, id, award, a, todo - {a}, record);
          TransitionWorks(sent, id, award, Accepted, record);
        }
      }
    }
  }

  lemma SupersedeSettles(s: Pass, id: int, award: Row, a: int, todo: set<int>)
    requires Ready(s, id, award, a, todo) && a in todo && !s.halted
    requires AllWork(s.fates) && !s.held.Broken? && Answers(s.world, award.user) == award.user
    ensures var r := SupersedeAward(s, id, award, a);
      && AllWork(r.fates) && !r.held.Broken?
      && (!r.halted ==> AtRest(r.world.rows[id], false))
  {
    hide Load, Revoke, Transition, AllWork, Exact, OneLive, NameSound, Keeps, RowOwn, HeldUnder;
    LoadIsExact(s, award.user, todo);
    LoadWorks(s, award.user);
    var loaded := Load(s, award.user);
    if award.status != Superseded && !loaded.halted {
      var live := HeldUnder(loaded.held, award, a);
      HeldUnderIsLive(loaded, award, a, todo);
      if live == 0 {
        WithdrawKeeps(loaded, id, award, a, todo);
        TransitionWorks(loaded, id, award, Superseded, award.record);
      } else {
        RevokeKeeps(loaded, id, award, a, todo, live);
        RevokeWorks(loaded, live);
        var cleared := Revoke(loaded, live).0;
        if !cleared.halted {
          WithdrawKeeps(cleared, id, award, a, todo - {a});
          TransitionWorks(cleared, id, award, Superseded, award.record);
        }
      }
    }
  }
}
