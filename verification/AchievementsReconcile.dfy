/** The reconciliation itself, rewriting GitLab's achievements and the rows one entry after another. */
module AchievementsReconcile {
  import opened Achievements
  import opened AchievementsConverge
  import opened AchievementsPasses
  import opened Sets

  class Reconciliation {
    const entries: seq<Entry>
    var live: Live
    var nextId: int
    var rows: Rows
    var faults: seq<Fate>
    var writes: nat
    var stopped: bool
    var report: Report

    constructor (entries: seq<Entry>, live: Live, nextId: int, rows: Rows)
      ensures this.entries == entries && State() == Pass(live, nextId, rows, [], 0, false, NO_REPORT)
    {
      this.entries, this.live, this.nextId, this.rows := entries, live, nextId, rows;
      faults, writes, stopped, report := [], 0, false, NO_REPORT;
    }

    ghost function State(): Pass
      reads this
    {
      Pass(live, nextId, rows, faults, writes, stopped, report)
    }

    /** How the next call will go. */
    method Spend() returns (fate: Fate)
      modifies this`faults, this`writes, this`stopped
      ensures fate == Fault(old(State())) && State() == Achievements.Spend(old(State()))
    {
      fate := Works;
      if faults != [] {
        fate, faults := faults[0], faults[1..];
      }
      writes, stopped := writes + 1, fate != Works;
    }

    method Create(e: Entry) returns (id: int)
      modifies this`faults, this`writes, this`stopped, this`live, this`nextId
      ensures State() == Achievements.Create(old(State()), e) && id == old(nextId)
    {
      id := nextId;
      var taken := NameTaken(live, e.name, nextId);
      var fate := Spend();
      if taken {
        stopped := true;
      } else if fate != Refused {
        live, nextId := live[nextId := Achievement(e.name, e.description, e.avatarKey != "")], nextId + 1;
      }
    }

    method Update(id: int, e: Entry, avatar: bool)
      modifies this`faults, this`writes, this`stopped, this`live
      ensures State() == Achievements.Update(old(State()), id, e, avatar)
    {
      var refused := id !in live || NameTaken(live, e.name, id);
      var fate := Spend();
      if refused {
        stopped := true;
      } else if fate != Refused {
        live := live[id := Achievement(e.name, e.description, live[id].hasAvatar || (avatar && e.avatarKey != ""))];
      }
    }

    method Save(slot: Slot, row: Row)
      modifies this`faults, this`writes, this`stopped, this`rows
      ensures State() == Achievements.Save(old(State()), slot, row)
    {
      var refused := IdTaken(rows, row.id, slot);
      var fate := Spend();
      if refused {
        stopped := true;
      } else if fate != Refused {
        rows := rows[slot := row];
      }
    }

    /** Pushes what has drifted and brings the row in line; says whether there was anything to do. */
    method ReconcileAchievement(recorded: Achievement, row: Row, e: Entry) returns (changed: bool)
      requires !stopped
      modifies this`faults, this`writes, this`stopped, this`live, this`rows
      ensures State() == Achievements.ReconcileAchievement(old(State()), recorded, row, e)
      ensures changed <==> !NeedsNothing(recorded, row, e)
    {
      var drifted := Drifted(recorded, row, e);
      if !drifted && RowMirrors(row, e) {
        return false;
      }
      if drifted {
        Update(row.id, e, AvatarDrifted(recorded, row, e));
        if stopped {
          return true;
        }
      }
      Save(e.slot, RowOf(row.id, e));
      return true;
    }

    method AdoptAchievement(id: int, adoptable: Achievement, e: Entry)
      requires !stopped
      modifies this`faults, this`writes, this`stopped, this`live, this`rows
      ensures State() == Achievements.AdoptAchievement(old(State()), id, adoptable, e)
    {
      var row := AdoptedRow(id, adoptable, e);
      Save(e.slot, row);
      if !stopped {
        var _ := ReconcileAchievement(adoptable, row, e);
      }
    }

    method CreateAchievement(e: Entry)
      requires !stopped
      modifies this`faults, this`writes, this`stopped, this`live, this`rows, this`nextId
      ensures State() == Achievements.CreateAchievement(old(State()), e)
    {
      var id := Create(e);
      if !stopped {
        Save(e.slot, RowOf(id, e));
      }
    }

    method ReconcileEntry(listed: Live, byName: map<string, int>, e: Entry)
      requires Indexes(listed, byName) && !stopped
      modifies this
      ensures State() == Achievements.ReconcileEntry(old(State()), listed, byName, e)
    {
      hide Achievements.ReconcileAchievement, Achievements.AdoptAchievement, Achievements.CreateAchievement, NeedsNothing;
      if e.slot in rows && rows[e.slot].id in listed {
        var row := rows[e.slot];
        var changed := ReconcileAchievement(listed[row.id], row, e);
        if !stopped {
          report := if changed then report.(updated := report.updated + 1) else report.(untouched := report.untouched + 1);
        }
      } else if e.name in byName {
        AdoptAchievement(byName[e.name], listed[byName[e.name]], e);
        if !stopped {
          report := report.(adopted := report.adopted + 1);
        }
      } else {
        var known := e.slot in rows;
        CreateAchievement(e);
        if !stopped {
          report := if known then report.(recreated := report.recreated + 1) else report.(created := report.created + 1);
        }
      }
    }

    /** Indexes what GitLab holds by name. */
    method ListAchievements() returns (byName: map<string, int>)
      ensures Indexes(live, byName)
    {
      byName := map[];
      var left := live.Keys;
      while left != {}
        invariant left <= live.Keys
        invariant forall name :: name in byName ==> byName[name] in live && live[byName[name]].name == name
        invariant forall id :: id in live && id !in left ==> live[id].name in byName
        decreases |left|
      {
        Inhabited(left);
        var id :| id in left;
        byName := byName[live[id].name := id];
        left := left - {id};
      }
    }

    /** One pass, with whatever goes wrong in it. However it ends, the stores keep their guarantees. If it
        goes through, everything is settled and counted; if nothing goes wrong, it does exactly when nothing
        stood in an entry's way; and if everything was settled, nothing is written. */
    method ReconcileAchievements(faults: seq<Fate>)
      requires Distinct(entries) && Kept(State())
      modifies this
      ensures Kept(State()) && State() == NextPass(old(State()), entries, faults)
      ensures !stopped ==> Settled(State(), entries) && Total(report) == |entries|
      ensures faults == [] ==> (!stopped <==> old(AllPassable(State(), entries, |entries|)))
      ensures old(Settled(State(), entries)) ==>
        State() == old(State()).(faults := faults, stopped := false, report := NO_REPORT.(untouched := |entries|))
    {
      hide Kept, Settled, Indexes, Achievements.ReconcileEntry, Total, AllPassable;
      ghost var before := State();
      this.faults, stopped, report := faults, false, NO_REPORT;
      ghost var start := State();
      SameWorldKeeps(before, start, entries);
      PassableAnyhow(before, start, entries);
      var byName := ListAchievements();
      var listed := live;
      IndexIsUnique(listed, byName) by { assert NamesUnique(listed) by { KeptIsUnique(start); } }
      PassSettles(start, byName, entries);
      PassTurns(start, byName, entries, |entries|);
      if Settled(before, entries) {
        SettledAnyhow(before, start, entries);
        SettledIsQuiet(start, byName, entries, |entries|);
      }
      for i := 0 to |entries|
        invariant !stopped
        invariant State() == ReconcileEntries(start, listed, byName, entries, i)
      {
        ReconcileEntry(listed, byName, entries[i]);
        if stopped {
          StoppedStays(start, listed, byName, entries, i + 1, |entries|);
          return;
        }
      }
    }

    /** Any number of passes. Where something blocks an entry none goes through; where nothing does, one
        more without faults than there are entries is enough, whatever the passes before them met. */
    method Passes(scripts: seq<seq<Fate>>)
      requires Distinct(entries) && Kept(State())
      modifies this
      ensures Kept(State()) && State() == After(old(State()), entries, scripts, |scripts|)
      ensures |scripts| > 0 && !old(Unblocked(State(), entries, |entries|)) ==> stopped
      ensures |scripts| > |entries| && Quiet(scripts, |scripts| - |entries| - 1) && old(Unblocked(State(), entries, |entries|)) ==>
        !stopped && Settled(State(), entries)
    {
      hide Kept, Settled, Total, NextPass, Blocked;
      ghost var before := State();
      for i := 0 to |scripts|
        invariant Kept(State()) && State() == After(before, entries, scripts, i)
      {
        ReconcileAchievements(scripts[i]);
      }
      if Unblocked(before, entries, |entries|) {
        if |scripts| > |entries| && Quiet(scripts, |scripts| - |entries| - 1) {
          HealsInTime(before, entries, scripts, |scripts| - |entries| - 1);
        }
      } else if |scripts| > 0 {
        ghost var k :| 0 <= k < |entries| && Blocked(before, entries, k);
        StuckForever(before, entries, scripts, |scripts|, k);
      }
    }
  }

  lemma KeptIsUnique(p: Pass)
    requires Kept(p)
    ensures NamesUnique(p.live)
  {
  }

  /** Names being unique, there is one index by name. */
  lemma IndexIsUnique(live: Live, byName: map<string, int>)
    requires NamesUnique(live) && Indexes(live, byName)
    ensures byName == IndexOf(live)
  {
    hide IndexOf;
    var index := IndexOf(live);
    assert Indexes(live, index);
    forall name | name in byName ensures name in index && byName[name] == index[name] {
      var id := byName[name];
      assert id in live && live[id].name == name;
    }
    forall name | name in index ensures name in byName {
      var id := index[name];
      assert id in live && live[id].name == name;
    }
    assert byName.Keys == index.Keys;
  }

  lemma SettledAnyhow(p: Pass, q: Pass, entries: seq<Entry>)
    requires Settled(p, entries) && SameWorld(p, q)
    ensures Settled(q, entries) && forall e :: e in entries ==> Mirrored(q, e)
  {
    forall e | e in entries ensures Mirrored(q, e) { assert Mirrored(p, e); }
    forall e, id ensures BoundTo(q, e, id) <==> BoundTo(p, e, id) { }
  }

  lemma {:induction false} StoppedStays(start: Pass, listed: Live, byName: map<string, int>, entries: seq<Entry>, i: nat, n: nat)
    requires i <= n <= |entries| && Indexes(listed, byName) && ReconcileEntries(start, listed, byName, entries, i).stopped
    ensures ReconcileEntries(start, listed, byName, entries, n) == ReconcileEntries(start, listed, byName, entries, i)
    decreases n - i
  {
    hide ReconcileEntry;
    if i < n {
      StoppedStays(start, listed, byName, entries, i, n - 1);
    }
  }
}
