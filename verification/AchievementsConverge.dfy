/** Exactly when a pass over the catalog goes through, what it leaves, and which obstacles later passes
    clear. Nothing is asked of the start but what the two stores guarantee. */
module AchievementsConverge {
  import opened Achievements

  ghost predicate IsBound(p: Pass, e: Entry) {
    e.slot in p.rows && p.rows[e.slot].id in p.live
  }

  /** Some row records the achievement, an entry's or one that has left the catalog. */
  ghost predicate IsRecorded(rows: Rows, id: int) {
    exists slot :: slot in rows && rows[slot].id == id
  }

  /** One of the first k entries is bound to the achievement. */
  ghost predicate OwnedEarlier(p: Pass, entries: seq<Entry>, k: nat, id: int)
    requires k <= |entries|
  {
    exists j :: 0 <= j < k && BoundTo(p, entries[j], id)
  }

  /** An achievement has the k-th entry's name and is not the entry's own. */
  ghost predicate HasName(p: Pass, entries: seq<Entry>, k: nat, id: int)
    requires k < |entries|
  {
    id in p.live && p.live[id].name == entries[k].name && !BoundTo(p, entries[k], id)
  }

  /** It stands in the entry's way for good: it cannot be adopted, as some row records it, or the entry's own
      cannot be renamed, and no earlier entry is going to rename it. */
  ghost predicate Blocks(p: Pass, entries: seq<Entry>, k: nat, id: int)
    requires k < |entries|
  {
    HasName(p, entries, k, id) && !OwnedEarlier(p, entries, k, id) && (IsBound(p, entries[k]) || IsRecorded(p.rows, id))
  }

  /** It stands in the way of one pass: what was listed under the entry's name is an earlier entry's, which
      that pass renames. */
  ghost predicate Delays(p: Pass, entries: seq<Entry>, k: nat, id: int)
    requires k < |entries|
  {
    HasName(p, entries, k, id) && OwnedEarlier(p, entries, k, id) && !IsBound(p, entries[k])
  }

  ghost predicate Blocked(p: Pass, entries: seq<Entry>, k: nat)
    requires k < |entries|
  {
    exists id :: Blocks(p, entries, k, id)
  }

  ghost predicate Delayed(p: Pass, entries: seq<Entry>, k: nat)
    requires k < |entries|
  {
    exists id :: Delays(p, entries, k, id)
  }

  ghost predicate Passable(p: Pass, entries: seq<Entry>, k: nat)
    requires k < |entries|
  {
    !Blocked(p, entries, k) && !Delayed(p, entries, k)
  }

  ghost predicate Unblocked(p: Pass, entries: seq<Entry>, n: nat)
    requires n <= |entries|
  {
    forall k :: 0 <= k < n ==> !Blocked(p, entries, k)
  }

  /** The same achievements stand in the same entries' way. */
  ghost predicate SameBlocks(p: Pass, q: Pass, entries: seq<Entry>) {
    forall k, id :: 0 <= k < |entries| ==> (Blocks(p, entries, k, id) <==> Blocks(q, entries, k, id))
  }

  lemma SameBlocksTwice(p: Pass, q: Pass, r: Pass, entries: seq<Entry>)
    requires SameBlocks(p, q, entries) && SameBlocks(q, r, entries)
    ensures SameBlocks(p, r, entries)
  {
    hide Blocks;
  }

  lemma SameBlocksSameBlocked(p: Pass, q: Pass, entries: seq<Entry>)
    requires SameBlocks(p, q, entries)
    ensures forall k :: 0 <= k < |entries| ==> (Blocked(p, entries, k) <==> Blocked(q, entries, k))
  {
    hide Blocks;
    forall k | 0 <= k < |entries| ensures Blocked(p, entries, k) <==> Blocked(q, entries, k) {
      if Blocked(p, entries, k) {
        var id :| Blocks(p, entries, k, id);
        assert Blocks(q, entries, k, id);
      }
      if Blocked(q, entries, k) {
        var id :| Blocks(q, entries, k, id);
        assert Blocks(p, entries, k, id);
      }
    }
  }

  // ---- What each call keeps ----

  /** Only GitLab's achievements, the rows and the next ID matter. */
  ghost predicate SameWorld(p: Pass, q: Pass) {
    p.live == q.live && p.rows == q.rows && p.nextId == q.nextId
  }

  lemma SameWorldKeeps(p: Pass, q: Pass, entries: seq<Entry>)
    requires SameWorld(p, q) && Kept(p)
    ensures Kept(q) && SameBlocks(p, q, entries)
  {
    forall e, id ensures BoundTo(q, e, id) <==> BoundTo(p, e, id) { }
    forall k: nat, id | k <= |entries| ensures OwnedEarlier(q, entries, k, id) <==> OwnedEarlier(p, entries, k, id) { }
  }

  lemma CreatingKeeps(p: Pass, entries: seq<Entry>, k: nat, a: Achievement)
    requires Distinct(entries) && Kept(p) && k < |entries| && a.name == entries[k].name
    requires !IsBound(p, entries[k]) && forall id :: id in p.live ==> p.live[id].name != entries[k].name
    ensures var q := p.(live := p.live[p.nextId := a], nextId := p.nextId + 1); Kept(q) && SameBlocks(p, q, entries)
  {
    var q := p.(live := p.live[p.nextId := a], nextId := p.nextId + 1);
    forall e, id ensures BoundTo(q, e, id) <==> BoundTo(p, e, id) { }
    forall m: nat, id | m <= |entries| ensures OwnedEarlier(q, entries, m, id) <==> OwnedEarlier(p, entries, m, id) { }
    assert !IsRecorded(q.rows, p.nextId);
  }

  /** An entry without an achievement may take the one that has its name, when no row records it. */
  lemma BindingKeeps(p: Pass, entries: seq<Entry>, k: nat, row: Row)
    requires Distinct(entries) && Kept(p) && k < |entries|
    requires !IsBound(p, entries[k]) && row.id in p.live && p.live[row.id].name == entries[k].name
    requires !IdTaken(p.rows, row.id, entries[k].slot)
    ensures var q := p.(rows := p.rows[entries[k].slot := row]); Kept(q) && SameBlocks(p, q, entries)
  {
    var e := entries[k];
    var q := p.(rows := p.rows[e.slot := row]);
    forall m, id | 0 <= m < |entries| && m != k ensures BoundTo(q, entries[m], id) <==> BoundTo(p, entries[m], id) { }
    forall m, id | 0 <= m < |entries| ensures Blocks(q, entries, m, id) <==> Blocks(p, entries, m, id) {
      if m == k {
        if HasName(p, entries, k, id) { assert id == row.id && !IsRecorded(p.rows, id); }
      } else if HasName(p, entries, m, id) {
        assert id != row.id;
        OwnersElsewhere(p, q, entries, k, m, id);
        RecordsElsewhere(p, row, e.slot, id);
      }
    }
  }

  lemma OwnersElsewhere(p: Pass, q: Pass, entries: seq<Entry>, k: nat, m: nat, id: int)
    requires m < |entries| && k < |entries|
    requires forall j :: 0 <= j < |entries| && j != k ==> (BoundTo(q, entries[j], id) <==> BoundTo(p, entries[j], id))
    requires !BoundTo(p, entries[k], id) && !BoundTo(q, entries[k], id)
    ensures OwnedEarlier(q, entries, m, id) <==> OwnedEarlier(p, entries, m, id)
  {
    hide BoundTo;
    assert forall j :: 0 <= j < m ==> (BoundTo(q, entries[j], id) <==> BoundTo(p, entries[j], id));
  }

  lemma RecordsElsewhere(p: Pass, row: Row, slot: Slot, id: int)
    requires id != row.id && !(slot in p.rows && p.rows[slot].id == id)
    ensures IsRecorded(p.rows[slot := row], id) <==> IsRecorded(p.rows, id)
  {
    if IsRecorded(p.rows, id) {
      var s :| s in p.rows && p.rows[s].id == id;
      assert p.rows[slot := row][s].id == id;
    }
  }

  /** An entry's own achievement may be given the entry's name when no other has it. Only a later entry can
      have been waiting for the name it gives up. */
  lemma RenamingKeeps(p: Pass, entries: seq<Entry>, k: nat, id: int, a: Achievement)
    requires Distinct(entries) && Kept(p) && k < |entries| && BoundTo(p, entries[k], id) && Unblocked(p, entries, k)
    requires a.name == entries[k].name && !NameTaken(p.live, entries[k].name, id)
    ensures var q := p.(live := p.live[id := a]); Kept(q) && SameBlocks(p, q, entries)
  {
    var q := p.(live := p.live[id := a]);
    forall e, jd ensures BoundTo(q, e, jd) <==> BoundTo(p, e, jd) { }
    forall m: nat, jd | m <= |entries| ensures OwnedEarlier(q, entries, m, jd) <==> OwnedEarlier(p, entries, m, jd) { }
    forall m, jd | 0 <= m < |entries| ensures Blocks(q, entries, m, jd) <==> Blocks(p, entries, m, jd) {
      if jd == id && m != k {
        assert !HasName(q, entries, m, jd);
        if m < k {
          assert !Blocked(p, entries, m);
        } else {
          assert OwnedEarlier(p, entries, m, id);
        }
      }
    }
  }

  lemma ResavingKeeps(p: Pass, entries: seq<Entry>, e: Entry, row: Row)
    requires Kept(p) && e.slot in p.rows && row.id == p.rows[e.slot].id
    ensures var q := p.(rows := p.rows[e.slot := row]); Kept(q) && SameBlocks(p, q, entries)
  {
    var q := p.(rows := p.rows[e.slot := row]);
    forall f, id ensures BoundTo(q, f, id) <==> BoundTo(p, f, id) { }
    forall k: nat, id | k <= |entries| ensures OwnedEarlier(q, entries, k, id) <==> OwnedEarlier(p, entries, k, id) { }
    forall id ensures IsRecorded(q.rows, id) <==> IsRecorded(p.rows, id) {
      if IsRecorded(p.rows, id) {
        var s :| s in p.rows && p.rows[s].id == id;
        assert q.rows[s].id == id;
      }
    }
  }

  // ---- One entry's turn ----

  /** A turn, whether or not it gets through, changes its own row, the achievement that row comes to record,
      and nothing else that was there. */
  ghost predicate Framed(p: Pass, r: Pass, e: Entry) {
    && p.nextId <= r.nextId
    && (forall slot :: slot != e.slot ==> (slot in r.rows <==> slot in p.rows) && (slot in p.rows ==> r.rows[slot] == p.rows[slot]))
    && (forall id :: id in p.live ==> id in r.live && (r.live[id] == p.live[id] || BoundTo(r, e, id)))
  }

  ghost predicate Turned(p: Pass, r: Pass, entries: seq<Entry>, k: nat)
    requires k < |entries|
  {
    && Kept(r) && SameBlocks(p, r, entries) && Framed(p, r, entries[k])
    && (!r.stopped ==> Mirrored(r, entries[k]) && forall id :: id in r.live && id !in p.live ==> id >= p.nextId && BoundTo(r, entries[k], id))
  }

  lemma TurnedIgnoresReport(p: Pass, r: Pass, report: Report, entries: seq<Entry>, k: nat)
    requires k < |entries| && Turned(p, r, entries, k)
    ensures Turned(p, r.(report := report), entries, k)
  {
    hide SameBlocks, Kept;
    var q := r.(report := report);
    SameWorldKeeps(r, q, entries);
    SameBlocksTwice(p, r, q, entries);
    forall e, id ensures BoundTo(q, e, id) <==> BoundTo(r, e, id) { }
    assert Mirrored(r, entries[k]) ==> Mirrored(q, entries[k]);
  }

  lemma SavingKeeps(p: Pass, entries: seq<Entry>, e: Entry, row: Row)
    requires Kept(p) && e.slot in p.rows && row.id == p.rows[e.slot].id
    ensures Kept(Save(p, e.slot, row)) && SameBlocks(p, Save(p, e.slot, row), entries)
    ensures p.faults == [] ==> !Save(p, e.slot, row).stopped && Save(p, e.slot, row).faults == []
  {
    hide SameBlocks;
    var q := Save(p, e.slot, row);
    if Fault(p) == Refused {
      SameWorldKeeps(p, q, entries);
    } else {
      ResavingKeeps(p, entries, e, row);
      var saved := p.(rows := p.rows[e.slot := row]);
      SameWorldKeeps(saved, q, entries);
      SameBlocksTwice(p, saved, q, entries);
    }
  }

  lemma UpdatingKeeps(p: Pass, entries: seq<Entry>, k: nat, id: int, avatar: bool)
    requires Distinct(entries) && Kept(p) && k < |entries| && BoundTo(p, entries[k], id) && Unblocked(p, entries, k)
    ensures Kept(Update(p, id, entries[k], avatar)) && SameBlocks(p, Update(p, id, entries[k], avatar), entries)
  {
    hide SameBlocks, Kept, NameTaken;
    var q := Update(p, id, entries[k], avatar);
    if NameTaken(p.live, entries[k].name, id) || Fault(p) == Refused {
      SameWorldKeeps(p, q, entries);
    } else {
      RenamingKeeps(p, entries, k, id, q.live[id]);
      var renamed := p.(live := q.live);
      SameWorldKeeps(renamed, q, entries);
      SameBlocksTwice(p, renamed, q, entries);
    }
  }

  /** GitLab would refuse to give an entry's own achievement the entry's name. */
  ghost predicate RenameRefused(p: Pass, live: Achievement, row: Row, e: Entry) {
    Drifted(live, row, e) && NameTaken(p.live, e.name, row.id)
  }

  lemma ResyncKeeps(p: Pass, entries: seq<Entry>, k: nat, live: Achievement, row: Row)
    requires Distinct(entries) && Kept(p) && k < |entries| && Unblocked(p, entries, k)
    requires BoundTo(p, entries[k], row.id) && p.rows[entries[k].slot] == row
    ensures var r := ReconcileAchievement(p, live, row, entries[k]); Kept(r) && SameBlocks(p, r, entries)
  {
    hide SameBlocks, Kept, NameTaken, Distinct, Unblocked, IdTaken, RowMirrors, AvatarDrifted;
    var e := entries[k];
    SameWorldKeeps(p, p, entries);
    if !NeedsNothing(live, row, e) {
      var pushed := p;
      if Drifted(live, row, e) {
        pushed := Update(p, row.id, e, AvatarDrifted(live, row, e));
        UpdatingKeeps(p, entries, k, row.id, AvatarDrifted(live, row, e));
      }
      if !pushed.stopped {
        SavingKeeps(pushed, entries, e, RowOf(row.id, e));
        SameBlocksTwice(p, pushed, ReconcileAchievement(p, live, row, e), entries);
      }
    }
  }

  lemma UpdateFrames(p: Pass, id: int, e: Entry, avatar: bool)
    requires id in p.live
    ensures
      var r := Update(p, id, e, avatar);
      && r.rows == p.rows && r.nextId == p.nextId && r.live.Keys == p.live.Keys
      && (forall jd :: jd in p.live && jd != id ==> r.live[jd] == p.live[jd])
      && (!r.stopped ==> r.live[id] == Achievement(e.name, e.description, p.live[id].hasAvatar || (avatar && e.avatarKey != "")))
  {
    hide NameTaken;
  }

  lemma SaveFrames(p: Pass, slot: Slot, row: Row)
    requires slot in p.rows
    ensures
      var r := Save(p, slot, row);
      && r.live == p.live && r.nextId == p.nextId && r.rows.Keys == p.rows.Keys
      && (r.rows == p.rows || r.rows == p.rows[slot := row]) && (!r.stopped ==> r.rows == p.rows[slot := row])
  {
    hide IdTaken;
  }

  lemma ResyncFrames(p: Pass, e: Entry, live: Achievement, row: Row)
    requires BoundTo(p, e, row.id) && p.rows[e.slot] == row && p.live[row.id] == live && !p.stopped
    ensures
      var r := ReconcileAchievement(p, live, row, e);
      && Framed(p, r, e) && r.rows.Keys == p.rows.Keys && r.rows[e.slot].id == row.id && r.live.Keys == p.live.Keys
      && (!r.stopped ==> Mirrored(r, e))
  {
    hide Update, Save;
    if !NeedsNothing(live, row, e) {
      var pushed := p;
      if Drifted(live, row, e) {
        pushed := Update(p, row.id, e, AvatarDrifted(live, row, e));
        UpdateFrames(p, row.id, e, AvatarDrifted(live, row, e));
      }
      if !pushed.stopped {
        SaveFrames(pushed, e.slot, RowOf(row.id, e));
      }
    }
  }

  /** The row's own save is never refused, as it records what no other row does. */
  lemma ResyncStops(p: Pass, e: Entry, live: Achievement, row: Row)
    requires RowsApart(p.rows) && BoundTo(p, e, row.id) && p.rows[e.slot] == row && p.live[row.id] == live && !p.stopped
    ensures
      var r := ReconcileAchievement(p, live, row, e);
      && (RenameRefused(p, live, row, e) ==> r.stopped)
      && (p.faults == [] && !RenameRefused(p, live, row, e) ==> !r.stopped && r.faults == [])
  {
    hide NameTaken;
    assert !IdTaken(p.rows, row.id, e.slot);
  }

  lemma ResyncTurns(p: Pass, entries: seq<Entry>, k: nat, live: Achievement, row: Row)
    requires Distinct(entries) && Kept(p) && k < |entries| && Unblocked(p, entries, k) && !p.stopped
    requires BoundTo(p, entries[k], row.id) && p.rows[entries[k].slot] == row && p.live[row.id] == live
    ensures
      var r := ReconcileAchievement(p, live, row, entries[k]);
      && Turned(p, r, entries, k) && r.rows.Keys == p.rows.Keys && r.rows[entries[k].slot].id == row.id
      && (RenameRefused(p, live, row, entries[k]) ==> r.stopped)
      && (p.faults == [] && !RenameRefused(p, live, row, entries[k]) ==> !r.stopped && r.faults == [])
  {
    hide SameBlocks, Numbered, NamesUnique, RowsApart, Distinct, Unblocked, ReconcileAchievement, RenameRefused, Framed, Mirrored;
    ResyncKeeps(p, entries, k, live, row);
    ResyncFrames(p, entries[k], live, row);
    ResyncStops(p, entries[k], live, row);
  }

  lemma FirstSaveKeeps(p: Pass, entries: seq<Entry>, k: nat, row: Row)
    requires Distinct(entries) && Kept(p) && k < |entries| && !IsBound(p, entries[k])
    requires !IdTaken(p.rows, row.id, entries[k].slot) ==> row.id in p.live && p.live[row.id].name == entries[k].name
    ensures Kept(Save(p, entries[k].slot, row)) && SameBlocks(p, Save(p, entries[k].slot, row), entries)
  {
    hide SameBlocks, Kept, IdTaken, Distinct;
    var q := Save(p, entries[k].slot, row);
    if IdTaken(p.rows, row.id, entries[k].slot) || Fault(p) == Refused {
      SameWorldKeeps(p, q, entries);
    } else {
      BindingKeeps(p, entries, k, row);
      var bound := p.(rows := p.rows[entries[k].slot := row]);
      SameWorldKeeps(bound, q, entries);
      SameBlocksTwice(p, bound, q, entries);
    }
  }

  lemma OwnNameIsFree(live: Live, id: int)
    requires NamesUnique(live) && id in live
    ensures !NameTaken(live, live[id].name, id)
  {
  }

  /** Adopting stops at the row when another row records the achievement, and otherwise cannot be refused. */
  lemma AdoptTurns(p: Pass, entries: seq<Entry>, k: nat, id: int, live: Achievement)
    requires Distinct(entries) && Kept(p) && k < |entries| && Unblocked(p, entries, k) && !p.stopped && !IsBound(p, entries[k])
    requires !IdTaken(p.rows, id, entries[k].slot) ==> id in p.live && p.live[id] == live && live.name == entries[k].name
    ensures Turned(p, AdoptAchievement(p, id, live, entries[k]), entries, k)
    ensures IdTaken(p.rows, id, entries[k].slot) ==> AdoptAchievement(p, id, live, entries[k]).stopped
    ensures !AdoptAchievement(p, id, live, entries[k]).stopped ==> AdoptAchievement(p, id, live, entries[k]).rows[entries[k].slot].id == id
    ensures p.faults == [] && !IdTaken(p.rows, id, entries[k].slot) ==>
      !AdoptAchievement(p, id, live, entries[k]).stopped && AdoptAchievement(p, id, live, entries[k]).faults == []
  {
    hide SameBlocks, Distinct, IdTaken, NameTaken, ReconcileAchievement, Unblocked;
    var e, row := entries[k], AdoptedRow(id, live, entries[k]);
    var saved := Save(p, e.slot, row);
    FirstSaveKeeps(p, entries, k, row);
    if !saved.stopped {
      UnblockedAlike(p, saved, entries, k);
      OwnNameIsFree(saved.live, id);
      ResyncTurns(saved, entries, k, live, row);
      SameBlocksTwice(p, saved, ReconcileAchievement(saved, live, row, e), entries);
    }
  }

  lemma UnblockedAlike(p: Pass, q: Pass, entries: seq<Entry>, n: nat)
    requires n <= |entries| && SameBlocks(p, q, entries)
    ensures Unblocked(p, entries, n) <==> Unblocked(q, entries, n)
  {
    hide Blocked, SameBlocks;
    SameBlocksSameBlocked(p, q, entries);
  }

  lemma NewIsFree(p: Pass, e: Entry)
    requires Kept(p) && forall id :: id in p.live ==> p.live[id].name != e.name
    ensures !NameTaken(p.live, e.name, p.nextId) && !IdTaken(p.rows, p.nextId, e.slot)
  {
  }

  lemma FirstCreateKeeps(p: Pass, entries: seq<Entry>, k: nat)
    requires Distinct(entries) && Kept(p) && k < |entries|
    requires !IsBound(p, entries[k]) && forall id :: id in p.live ==> p.live[id].name != entries[k].name
    ensures Kept(Create(p, entries[k])) && SameBlocks(p, Create(p, entries[k]), entries) && !IsBound(Create(p, entries[k]), entries[k])
  {
    hide SameBlocks, Distinct, RowsApart, NamesUnique, NameTaken;
    var e := entries[k];
    var made := Create(p, e);
    NewIsFree(p, e);
    if Fault(p) == Refused {
      SameWorldKeeps(p, made, entries);
    } else {
      var a := Achievement(e.name, e.description, e.avatarKey != "");
      CreatingKeeps(p, entries, k, a);
      var created := p.(live := p.live[p.nextId := a], nextId := p.nextId + 1);
      SameWorldKeeps(created, made, entries);
      SameBlocksTwice(p, created, made, entries);
    }
  }

  lemma CreateFrames(p: Pass, e: Entry)
    requires Kept(p) && !p.stopped && !NameTaken(p.live, e.name, p.nextId) && !IdTaken(p.rows, p.nextId, e.slot)
    ensures
      var r := CreateAchievement(p, e);
      && Framed(p, r, e) && (forall id :: id in r.live && id !in p.live ==> id == p.nextId)
      && (!r.stopped ==> Mirrored(r, e) && r.rows[e.slot].id == p.nextId)
      && (p.faults == [] ==> !r.stopped && r.faults == [])
  {
    hide NameTaken, IdTaken, RowsApart, NamesUnique;
  }

  lemma CreateTurns(p: Pass, entries: seq<Entry>, k: nat)
    requires Distinct(entries) && Kept(p) && k < |entries| && !p.stopped
    requires !IsBound(p, entries[k]) && forall id :: id in p.live ==> p.live[id].name != entries[k].name
    ensures
      var r := CreateAchievement(p, entries[k]);
      && Turned(p, r, entries, k) && (!r.stopped ==> r.rows[entries[k].slot].id == p.nextId)
      && (p.faults == [] ==> !r.stopped && r.faults == [])
  {
    hide SameBlocks, Distinct, Kept, IdTaken, NameTaken, Framed;
    var e := entries[k];
    var made := Create(p, e);
    NewIsFree(p, e);
    FirstCreateKeeps(p, entries, k);
    CreateFrames(p, e);
    if !made.stopped {
      FirstSaveKeeps(made, entries, k, RowOf(p.nextId, e));
      SameBlocksTwice(p, made, CreateAchievement(p, e), entries);
    }
  }
}
