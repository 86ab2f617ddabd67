/** Whole passes over the catalog, and runs of them. */
module AchievementsPasses {
  import opened Achievements
  import opened AchievementsConverge

  // ---- Halfway through a pass ----

  ghost predicate EarlierSlot(entries: seq<Entry>, k: nat, slot: Slot)
    requires k <= |entries|
  {
    exists j :: 0 <= j < k && entries[j].slot == slot
  }

  ghost predicate SameRow(start: Pass, p: Pass, slot: Slot) {
    (slot in p.rows <==> slot in start.rows) && (slot in p.rows ==> p.rows[slot] == start.rows[slot])
  }

  /** An entry keeps the achievement it was bound to; otherwise what it has now had its name, or is new. */
  ghost predicate OwnTarget(start: Pass, p: Pass, e: Entry) {
    && e.slot in p.rows
    && if IsBound(start, e) then p.rows[e.slot].id == start.rows[e.slot].id
       else p.rows[e.slot].id in start.live ==> start.live[p.rows[e.slot].id].name == e.name
  }

  /** After the first k turns: the rest is as it was, and each of the k mirrors the catalog. */
  ghost predicate Midway(start: Pass, p: Pass, entries: seq<Entry>, k: nat)
    requires k <= |entries|
  {
    && start.nextId <= p.nextId
    && (forall id :: id in start.live ==> id in p.live && (p.live[id] == start.live[id] || OwnedEarlier(p, entries, k, id)))
    && (forall id :: id in p.live ==> id in start.live || (id >= start.nextId && OwnedEarlier(p, entries, k, id)))
    && (forall slot :: !EarlierSlot(entries, k, slot) ==> SameRow(start, p, slot))
    && (forall j :: 0 <= j < k ==> Mirrored(p, entries[j]) && OwnTarget(start, p, entries[j]))
  }

  lemma OwnSlotIsLater(entries: seq<Entry>, k: nat)
    requires Distinct(entries) && k < |entries|
    ensures !EarlierSlot(entries, k, entries[k].slot)
  {
  }

  /** An achievement with the entry's name that no earlier entry was bound to is as it was listed. */
  lemma NameHolderStays(start: Pass, p: Pass, entries: seq<Entry>, k: nat, id: int)
    requires k < |entries| && Distinct(entries) && Kept(p) && Midway(start, p, entries, k)
    requires HasName(start, entries, k, id) && !OwnedEarlier(start, entries, k, id)
    ensures id in p.live && p.live[id] == start.live[id] && !OwnedEarlier(p, entries, k, id)
  {
    forall j | 0 <= j < k ensures !BoundTo(p, entries[j], id) {
      assert OwnTarget(start, p, entries[j]) && entries[j].name != entries[k].name;
      assert !BoundTo(start, entries[j], id);
    }
  }

  /** The entry's own achievement is as it was listed. */
  lemma OwnStays(start: Pass, p: Pass, entries: seq<Entry>, k: nat)
    requires k < |entries| && Distinct(entries) && Kept(start) && Kept(p) && Midway(start, p, entries, k)
    requires Recorded(p.rows, start.live, entries[k])
    ensures SameRow(start, p, entries[k].slot)
    ensures var id := p.rows[entries[k].slot].id; BoundTo(p, entries[k], id) && BoundTo(start, entries[k], id) && p.live[id] == start.live[id]
  {
    OwnSlotIsLater(entries, k);
    assert SameRow(start, p, entries[k].slot);
    var id := p.rows[entries[k].slot].id;
    forall j | 0 <= j < k ensures !BoundTo(p, entries[j], id) {
      assert entries[j].slot != entries[k].slot;
    }
  }

  /** A rename is refused exactly when something has the entry's name that no earlier entry was bound to. */
  lemma RenameMeets(start: Pass, p: Pass, entries: seq<Entry>, k: nat)
    requires k < |entries| && Distinct(entries) && Kept(start) && Kept(p) && Midway(start, p, entries, k)
    requires Recorded(p.rows, start.live, entries[k])
    ensures var row := p.rows[entries[k].slot]; RenameRefused(p, start.live[row.id], row, entries[k]) <==> !Passable(start, entries, k)
  {
    var e := entries[k];
    var row := p.rows[e.slot];
    OwnStays(start, p, entries, k);
    assert !Delayed(start, entries, k);
    if Blocked(start, entries, k) {
      var jd :| Blocks(start, entries, k, jd);
      NameHolderStays(start, p, entries, k, jd);
      assert jd != row.id && start.live[row.id].name != e.name;
    }
    if NameTaken(p.live, e.name, row.id) {
      var jd :| jd in p.live && jd != row.id && p.live[jd].name == e.name;
      HeldSinceTheStart(start, p, entries, k, jd);
      assert Blocks(start, entries, k, jd);
    }
  }

  /** What has a later entry's name had it at the start, and no earlier entry was bound to it. */
  lemma HeldSinceTheStart(start: Pass, p: Pass, entries: seq<Entry>, k: nat, id: int)
    requires k < |entries| && Distinct(entries) && Midway(start, p, entries, k)
    requires id in p.live && p.live[id].name == entries[k].name
    ensures id in start.live && start.live[id] == p.live[id] && !OwnedEarlier(start, entries, k, id)
  {
    forall j | 0 <= j < k ensures !BoundTo(p, entries[j], id) && !BoundTo(start, entries[j], id) {
      assert Mirrored(p, entries[j]) && OwnTarget(start, p, entries[j]) && entries[j].name != entries[k].name;
    }
  }

  /** An adoption is refused exactly when some row recorded the achievement at the start. */
  lemma AdoptionMeets(start: Pass, p: Pass, entries: seq<Entry>, k: nat, id: int)
    requires k < |entries| && Distinct(entries) && Kept(start) && Kept(p) && Midway(start, p, entries, k)
    requires !Recorded(p.rows, start.live, entries[k]) && id in start.live && start.live[id].name == entries[k].name
    ensures !IsBound(p, entries[k]) && !IsBound(start, entries[k])
    ensures IdTaken(p.rows, id, entries[k].slot) <==> !Passable(start, entries, k)
    ensures !IdTaken(p.rows, id, entries[k].slot) ==> id in p.live && p.live[id] == start.live[id]
  {
    var e := entries[k];
    UnboundStays(start, p, entries, k);
    assert HasName(start, entries, k, id);
    assert IsRecorded(start.rows, id) <==> Blocks(start, entries, k, id) || Delays(start, entries, k, id) by {
      if OwnedEarlier(start, entries, k, id) {
        var j :| 0 <= j < k && BoundTo(start, entries[j], id);
        assert start.rows[entries[j].slot].id == id;
      }
    }
    forall jd | HasName(start, entries, k, jd) ensures jd == id { }
    assert IsRecorded(start.rows, id) <==> !Passable(start, entries, k) by {
      if Blocked(start, entries, k) {
        var jd :| Blocks(start, entries, k, jd);
        assert jd == id;
      } else if Delayed(start, entries, k) {
        var jd :| Delays(start, entries, k, jd);
        assert jd == id;
      }
    }
    RecordedThroughout(start, p, entries, k, id);
    if OwnedEarlier(p, entries, k, id) {
      var j :| 0 <= j < k && BoundTo(p, entries[j], id);
      assert entries[j].slot in p.rows && entries[j].slot != e.slot;
    }
  }

  lemma UnboundStays(start: Pass, p: Pass, entries: seq<Entry>, k: nat)
    requires k < |entries| && Distinct(entries) && Kept(start) && Midway(start, p, entries, k)
    requires !Recorded(p.rows, start.live, entries[k])
    ensures SameRow(start, p, entries[k].slot) && !IsBound(p, entries[k]) && !IsBound(start, entries[k])
  {
    OwnSlotIsLater(entries, k);
    assert SameRow(start, p, entries[k].slot);
  }

  /** The rows that record what has the entry's name are those that did at the start. */
  lemma RecordedThroughout(start: Pass, p: Pass, entries: seq<Entry>, k: nat, id: int)
    requires k < |entries| && Distinct(entries) && Midway(start, p, entries, k)
    requires HasName(start, entries, k, id) && !IsBound(start, entries[k]) && SameRow(start, p, entries[k].slot)
    ensures IdTaken(p.rows, id, entries[k].slot) <==> IsRecorded(start.rows, id)
  {
    forall slot | slot != entries[k].slot
      ensures (slot in p.rows && p.rows[slot].id == id) <==> (slot in start.rows && start.rows[slot].id == id)
    {
      if EarlierSlot(entries, k, slot) {
        var j :| 0 <= j < k && entries[j].slot == slot;
        assert OwnTarget(start, p, entries[j]) && entries[j].name != entries[k].name;
      } else {
        assert SameRow(start, p, slot);
      }
    }
  }

  lemma NothingToAdopt(start: Pass, p: Pass, byName: map<string, int>, entries: seq<Entry>, k: nat)
    requires k < |entries| && Distinct(entries) && Kept(start) && Midway(start, p, entries, k) && Indexes(start.live, byName)
    requires !Recorded(p.rows, start.live, entries[k]) && entries[k].name !in byName
    ensures !IsBound(p, entries[k]) && Passable(start, entries, k)
    ensures forall id :: id in p.live ==> p.live[id].name != entries[k].name
  {
    UnboundStays(start, p, entries, k);
    forall id | id in p.live ensures p.live[id].name != entries[k].name {
      if p.live[id].name == entries[k].name { HeldSinceTheStart(start, p, entries, k, id); }
    }
  }

  /** A turn gets through only past what at the start did not stand in its way, and then does unless
      something goes wrong. */
  lemma EntryTurns(start: Pass, p: Pass, byName: map<string, int>, entries: seq<Entry>, k: nat)
    requires k < |entries| && Distinct(entries) && Kept(start) && Kept(p) && Midway(start, p, entries, k) && Indexes(start.live, byName)
    requires Unblocked(p, entries, k) && !p.stopped
    ensures
      var r := ReconcileEntry(p, start.live, byName, entries[k]);
      && Turned(p, r, entries, k) && (!r.stopped ==> Passable(start, entries, k) && OwnTarget(start, r, entries[k]))
      && (p.faults == [] && Passable(start, entries, k) ==> !r.stopped && r.faults == [])
  {
    hide Kept, Distinct, Turned, ReconcileAchievement, AdoptAchievement, CreateAchievement, Passable, Unblocked, RenameRefused, IdTaken;
    var e := entries[k];
    var r := AttemptEntry(p, start.live, byName, e);
    if Recorded(p.rows, start.live, e) {
      OwnStays(start, p, entries, k);
      RenameMeets(start, p, entries, k);
      ResyncTurns(p, entries, k, start.live[p.rows[e.slot].id], p.rows[e.slot]);
      assert OwnTarget(start, r, e);
    } else if e.name in byName {
      AdoptionMeets(start, p, entries, k, byName[e.name]);
      AdoptTurns(p, entries, k, byName[e.name], start.live[byName[e.name]]);
      assert !r.stopped ==> OwnTarget(start, r, e) by { if !r.stopped { TurnedIsMirrored(p, r, entries, k); } }
    } else {
      NothingToAdopt(start, p, byName, entries, k);
      CreateTurns(p, entries, k);
      NewIsNew(start, p);
      UnboundStays(start, p, entries, k);
      assert !r.stopped ==> OwnTarget(start, r, e) by { if !r.stopped { TurnedIsMirrored(p, r, entries, k); } }
    }
    if !r.stopped { TurnedIsMirrored(p, r, entries, k); }
    TurnedIgnoresReport(p, r, Count(r, TallyOf(p, start.live, byName, e)).report, entries, k);
  }

  lemma NewIsNew(start: Pass, p: Pass)
    requires Kept(start) && start.nextId <= p.nextId
    ensures p.nextId !in start.live
  {
  }

  lemma TurnedIsMirrored(p: Pass, r: Pass, entries: seq<Entry>, k: nat)
    requires k < |entries| && Turned(p, r, entries, k) && !r.stopped
    ensures Mirrored(r, entries[k])
  {
  }

  lemma OthersStayMirrored(p: Pass, r: Pass, e: Entry, f: Entry)
    requires Kept(r) && Framed(p, r, e) && f.slot != e.slot && Mirrored(p, f)
    ensures Mirrored(r, f) && r.rows[f.slot] == p.rows[f.slot]
  {
    var id := p.rows[f.slot].id;
    assert r.rows[f.slot].id == id && !BoundTo(r, e, id);
  }

  lemma TurnKeepsMidway(start: Pass, p: Pass, r: Pass, entries: seq<Entry>, k: nat)
    requires k < |entries| && Distinct(entries) && Midway(start, p, entries, k) && Kept(r) && Framed(p, r, entries[k])
    requires Mirrored(r, entries[k]) && OwnTarget(start, r, entries[k])
    requires forall id :: id in r.live && id !in p.live ==> id >= p.nextId && BoundTo(r, entries[k], id)
    ensures Midway(start, r, entries, k + 1)
  {
    hide Kept;
    var e := entries[k];
    forall j | 0 <= j < k ensures Mirrored(r, entries[j]) && OwnTarget(start, r, entries[j]) && r.rows[entries[j].slot] == p.rows[entries[j].slot] {
      assert Mirrored(p, entries[j]) && OwnTarget(start, p, entries[j]);
      OthersStayMirrored(p, r, e, entries[j]);
    }
    OwnersStay(p, r, entries, k);
    SlotsStay(start, p, r, entries, k);
    forall id | id in start.live ensures id in r.live && (r.live[id] == start.live[id] || OwnedEarlier(r, entries, k + 1, id)) {
      assert id in p.live && (p.live[id] == start.live[id] || OwnedEarlier(p, entries, k, id));
    }
  }

  lemma OwnersStay(p: Pass, r: Pass, entries: seq<Entry>, k: nat)
    requires k < |entries| && Framed(p, r, entries[k])
    requires forall j :: 0 <= j < k ==> entries[j].slot in p.rows && entries[j].slot in r.rows && r.rows[entries[j].slot] == p.rows[entries[j].slot]
    ensures forall id :: OwnedEarlier(p, entries, k, id) || BoundTo(r, entries[k], id) ==> OwnedEarlier(r, entries, k + 1, id)
  {
    forall id | OwnedEarlier(p, entries, k, id) ensures OwnedEarlier(r, entries, k + 1, id) {
      var j :| 0 <= j < k && BoundTo(p, entries[j], id);
      assert BoundTo(r, entries[j], id);
    }
  }

  lemma SlotsStay(start: Pass, p: Pass, r: Pass, entries: seq<Entry>, k: nat)
    requires k < |entries| && Midway(start, p, entries, k) && Framed(p, r, entries[k])
    ensures forall slot :: !EarlierSlot(entries, k + 1, slot) ==> SameRow(start, r, slot)
  {
    forall slot | !EarlierSlot(entries, k + 1, slot) ensures SameRow(start, r, slot) {
      assert slot != entries[k].slot;
      assert !EarlierSlot(entries, k, slot);
      assert SameRow(start, p, slot);
    }
  }

  // ---- A whole pass ----

  ghost predicate AllPassable(start: Pass, entries: seq<Entry>, n: nat)
    requires n <= |entries|
  {
    forall k :: 0 <= k < n ==> Passable(start, entries, k)
  }

  lemma OnePassableMore(start: Pass, entries: seq<Entry>, n: nat)
    requires n < |entries|
    ensures AllPassable(start, entries, n + 1) <==> AllPassable(start, entries, n) && Passable(start, entries, n)
  {
  }

  lemma NonePassable(start: Pass, entries: seq<Entry>)
    ensures AllPassable(start, entries, 0)
  {
  }

  lemma PassableIsUnblocked(start: Pass, p: Pass, entries: seq<Entry>, n: nat)
    requires n <= |entries| && AllPassable(start, entries, n) && SameBlocks(start, p, entries)
    ensures Unblocked(p, entries, n)
  {
    hide Blocked, Delayed, SameBlocks;
    SameBlocksSameBlocked(start, p, entries);
    forall k | 0 <= k < n ensures !Blocked(p, entries, k) { assert Passable(start, entries, k); }
  }

  /** Wherever a pass stops, the stores keep their guarantees and the same achievements stand in the same
      entries' way; it gets past exactly the entries in whose way nothing stood, or less far when something
      goes wrong. */
  lemma {:induction false} PassTurns(start: Pass, byName: map<string, int>, entries: seq<Entry>, n: nat)
    requires n <= |entries| && Distinct(entries) && Kept(start) && Indexes(start.live, byName) && !start.stopped
    ensures
      var r := ReconcileEntries(start, start.live, byName, entries, n);
      && Kept(r) && SameBlocks(start, r, entries)
      && (!r.stopped ==> Midway(start, r, entries, n) && AllPassable(start, entries, n))
      && (start.faults == [] && AllPassable(start, entries, n) ==> !r.stopped && r.faults == [])
  {
    hide Kept, ReconcileEntry, Distinct, SameBlocks, Passable, AllPassable, Framed, Mirrored, OwnTarget, BoundTo;
    if n == 0 {
      SameWorldKeeps(start, start, entries);
      NonePassable(start, entries);
    } else {
      hide Midway, Indexes;
      OnePassableMore(start, entries, n - 1);
      PassTurns(start, byName, entries, n - 1);
      var p := ReconcileEntries(start, start.live, byName, entries, n - 1);
      if !p.stopped {
        PassableIsUnblocked(start, p, entries, n - 1);
        EntryTurns(start, p, byName, entries, n - 1);
        var r := ReconcileEntry(p, start.live, byName, entries[n - 1]);
        SameBlocksTwice(start, p, r, entries);
        if !r.stopped {
          TurnKeepsMidway(start, p, r, entries, n - 1);
        }
      }
    }
  }

  /** The first m entries mirror the catalog. */
  ghost predicate Lined(p: Pass, entries: seq<Entry>, m: nat)
    requires m <= |entries|
  {
    forall j :: 0 <= j < m ==> Mirrored(p, entries[j])
  }

  /** A pass without faults leaves every entry in line that it gets past, even if it stops later. */
  lemma {:induction false} PassLines(start: Pass, byName: map<string, int>, entries: seq<Entry>, m: nat, n: nat)
    requires m <= n <= |entries| && Distinct(entries) && Kept(start) && Indexes(start.live, byName) && !start.stopped
    requires start.faults == [] && AllPassable(start, entries, m)
    ensures Lined(ReconcileEntries(start, start.live, byName, entries, n), entries, m)
    decreases n
  {
    hide Kept, ReconcileEntry, Distinct, SameBlocks, Passable, Indexes;
    PassTurns(start, byName, entries, n);
    if n > m {
      PassLines(start, byName, entries, m, n - 1);
      var p := ReconcileEntries(start, start.live, byName, entries, n - 1);
      if !p.stopped {
        PassTurns(start, byName, entries, n - 1);
        PassableIsUnblocked(start, p, entries, n - 1);
        EntryTurns(start, p, byName, entries, n - 1);
        LinesStay(p, ReconcileEntry(p, start.live, byName, entries[n - 1]), entries, m, n - 1);
      }
    }
  }

  lemma LinesStay(p: Pass, r: Pass, entries: seq<Entry>, m: nat, k: nat)
    requires Distinct(entries) && m <= k < |entries| && Turned(p, r, entries, k) && Lined(p, entries, m)
    ensures Lined(r, entries, m)
  {
    hide Kept, Mirrored, SameBlocks, Framed;
    forall j | 0 <= j < m ensures Mirrored(r, entries[j]) {
      OthersStayMirrored(p, r, entries[k], entries[j]);
    }
  }

  /** A pass that goes through, from whatever start, leaves every entry bound to its own live achievement,
      which like its row says what the catalog says; and its five counts add up. One without faults goes
      through exactly when nothing stood in any entry's way. */
  lemma {:induction false} PassSettles(start: Pass, byName: map<string, int>, entries: seq<Entry>)
    requires Distinct(entries) && Kept(start) && Indexes(start.live, byName) && Fresh(start)
    ensures
      var r := ReconcileEntries(start, start.live, byName, entries, |entries|);
      && (!r.stopped ==> Settled(r, entries) && Total(r.report) == |entries| && AllPassable(start, entries, |entries|))
      && (start.faults == [] ==> (!r.stopped <==> AllPassable(start, entries, |entries|)))
  {
    hide ReconcileEntries, Indexes, Mirrored, AllPassable;
    PassTurns(start, byName, entries, |entries|);
    ReportAddsUp(start, start.live, byName, entries, |entries|);
    var r := ReconcileEntries(start, start.live, byName, entries, |entries|);
    if !r.stopped {
      forall e | e in entries ensures Mirrored(r, e) {
        var j :| 0 <= j < |entries| && entries[j] == e;
      }
    }
  }

  // ---- One achievement that two entries are after ----

  /** What an entry's turn is about: the listed achievement its row records, or else the one of its name. */
  datatype Target = Listed(id: int) | New

  function TargetOf(start: Pass, byName: map<string, int>, e: Entry): Target {
    if Recorded(start.rows, start.live, e) then Listed(start.rows[e.slot].id) else if e.name in byName then Listed(byName[e.name]) else New
  }

  /** No pass goes through in which two entries are after one listed achievement. It stands in the way of
      the one that would adopt it: for good if that one comes first, and for one pass if it comes second. */
  lemma {:induction false} SharedTargetStops(start: Pass, byName: map<string, int>, entries: seq<Entry>, i: nat, j: nat)
    requires i < |entries| && j < |entries| && i != j && Distinct(entries) && Kept(start) && Indexes(start.live, byName) && Fresh(start)
    requires TargetOf(start, byName, entries[i]) == TargetOf(start, byName, entries[j]) != New && IsBound(start, entries[i])
    ensures j < i ==> Blocks(start, entries, j, TargetOf(start, byName, entries[i]).id)
    ensures i < j ==> Delays(start, entries, j, TargetOf(start, byName, entries[i]).id)
    ensures ReconcileEntries(start, start.live, byName, entries, |entries|).stopped
  {
    hide ReconcileEntries;
    var id := TargetOf(start, byName, entries[i]).id;
    assert BoundTo(start, entries[i], id) && entries[i].slot != entries[j].slot;
    assert start.rows[entries[i].slot].id == id;
    assert !IsBound(start, entries[j]) && HasName(start, entries, j, id);
    if j < i {
      assert !OwnedEarlier(start, entries, j, id);
      assert IsRecorded(start.rows, id) && Blocks(start, entries, j, id);
      assert Blocked(start, entries, j);
    } else {
      assert OwnedEarlier(start, entries, j, id) && Delays(start, entries, j, id);
      assert Delayed(start, entries, j);
    }
    assert !Passable(start, entries, j);
    PassSettles(start, byName, entries);
  }

  /** Two entries after one listed achievement: one of them is bound to it. */
  lemma SharedTargetIsBound(start: Pass, byName: map<string, int>, e: Entry, f: Entry)
    requires Indexes(start.live, byName) && e.name != f.name
    requires TargetOf(start, byName, e) == TargetOf(start, byName, f) != New
    ensures IsBound(start, e) || IsBound(start, f)
  {
  }

  // ---- Runs of passes ----

  ghost function HolderOf(live: Live, name: string): (id: int)
    requires exists id :: id in live && live[id].name == name
    ensures id in live && live[id].name == name
  {
    var id :| id in live && live[id].name == name;
    id
  }

  ghost function IndexOf(live: Live): (byName: map<string, int>)
    ensures Indexes(live, byName)
  {
    map name | name in (set id | id in live :: live[id].name) :: HolderOf(live, name)
  }

  function Begin(p: Pass, faults: seq<Fate>): Pass {
    p.(faults := faults, stopped := false, report := NO_REPORT)
  }

  ghost function NextPass(p: Pass, entries: seq<Entry>, faults: seq<Fate>): Pass {
    ReconcileEntries(Begin(p, faults), p.live, IndexOf(p.live), entries, |entries|)
  }

  /** The state after the first n passes of a run, each with its own faults. */
  ghost function After(p: Pass, entries: seq<Entry>, scripts: seq<seq<Fate>>, n: nat): Pass
    requires n <= |scripts|
  {
    if n == 0 then p else NextPass(After(p, entries, scripts, n - 1), entries, scripts[n - 1])
  }

  lemma NextPassTurns(p: Pass, entries: seq<Entry>, faults: seq<Fate>)
    requires Distinct(entries) && Kept(p)
    ensures var r := NextPass(p, entries, faults); Kept(r) && SameBlocks(p, r, entries)
  {
    hide Kept, SameBlocks, ReconcileEntries;
    var start := Begin(p, faults);
    SameWorldKeeps(p, start, entries);
    PassTurns(start, IndexOf(p.live), entries, |entries|);
    SameBlocksTwice(p, start, NextPass(p, entries, faults), entries);
  }

  /** Whatever passes are made, the stores keep their guarantees and no obstacle comes or goes. */
  lemma {:induction false} RunKeepsBlocks(p: Pass, entries: seq<Entry>, scripts: seq<seq<Fate>>, n: nat)
    requires n <= |scripts| && Distinct(entries) && Kept(p)
    ensures Kept(After(p, entries, scripts, n)) && SameBlocks(p, After(p, entries, scripts, n), entries)
  {
    hide Kept, SameBlocks, NextPass;
    if n == 0 {
      SameWorldKeeps(p, p, entries);
    } else {
      RunKeepsBlocks(p, entries, scripts, n - 1);
      NextPassTurns(After(p, entries, scripts, n - 1), entries, scripts[n - 1]);
      SameBlocksTwice(p, After(p, entries, scripts, n - 1), After(p, entries, scripts, n), entries);
    }
  }

  /** Where something blocks an entry, no pass ever goes through, faults or none. */
  lemma StuckForever(p: Pass, entries: seq<Entry>, scripts: seq<seq<Fate>>, n: nat, k: nat)
    requires 0 < n <= |scripts| && Distinct(entries) && Kept(p) && k < |entries| && Blocked(p, entries, k)
    ensures After(p, entries, scripts, n).stopped
  {
    hide Kept, SameBlocks, Blocked, ReconcileEntries;
    RunKeepsBlocks(p, entries, scripts, n - 1);
    var before := After(p, entries, scripts, n - 1);
    var start := Begin(before, scripts[n - 1]);
    SameBlocksSameBlocked(p, before, entries);
    SameWorldKeeps(before, start, entries);
    SameBlocksSameBlocked(before, start, entries);
    PassSettles(start, IndexOf(before.live), entries);
    assert AllPassable(start, entries, |entries|) ==> Passable(start, entries, k);
  }

  /** In line is not delayed: an earlier entry in line has given up any name but its own. */
  lemma LinedIsPassable(p: Pass, entries: seq<Entry>, m: nat)
    requires Distinct(entries) && Unblocked(p, entries, |entries|) && m <= |entries| && Lined(p, entries, m)
    ensures AllPassable(p, entries, if m < |entries| then m + 1 else m)
  {
    forall k | 0 <= k < (if m < |entries| then m + 1 else m) ensures Passable(p, entries, k) {
      forall id ensures !Delays(p, entries, k, id) {
        if k < m {
          assert Mirrored(p, entries[k]);
        } else if OwnedEarlier(p, entries, k, id) {
          var j :| 0 <= j < k && BoundTo(p, entries[j], id);
          assert Mirrored(p, entries[j]);
        }
      }
      assert !Blocked(p, entries, k);
    }
  }

  /** So where nothing is blocked, each pass without faults gets one entry further. */
  lemma PassGetsFurther(p: Pass, entries: seq<Entry>, m: nat)
    requires Distinct(entries) && Kept(p) && Unblocked(p, entries, |entries|) && m <= |entries| && Lined(p, entries, m)
    ensures
      var r := NextPass(p, entries, []);
      Lined(r, entries, if m < |entries| then m + 1 else m) && (m == |entries| ==> !r.stopped)
  {
    hide Kept, ReconcileEntries, Mirrored, Passable, Blocked;
    var start := Begin(p, []);
    SameWorldKeeps(p, start, entries);
    UnblockedAlike(p, start, entries, |entries|);
    forall j | 0 <= j < m ensures Mirrored(start, entries[j]) { MirroredAnyhow(p, start, entries[j]); }
    LinedIsPassable(start, entries, m);
    PassLines(start, IndexOf(p.live), entries, if m < |entries| then m + 1 else m, |entries|);
    PassSettles(start, IndexOf(p.live), entries);
  }

  lemma MirroredAnyhow(p: Pass, q: Pass, e: Entry)
    requires Mirrored(p, e) && SameWorld(p, q)
    ensures Mirrored(q, e)
  {
  }

  ghost predicate Quiet(scripts: seq<seq<Fate>>, first: nat) {
    forall i :: first <= i < |scripts| ==> scripts[i] == []
  }

  lemma {:induction false} QuietPassesLine(p: Pass, entries: seq<Entry>, scripts: seq<seq<Fate>>, first: nat, m: nat)
    requires first + m <= |scripts| && m <= |entries| && Distinct(entries) && Kept(p) && Unblocked(p, entries, |entries|) && Quiet(scripts, first)
    ensures Lined(After(p, entries, scripts, first + m), entries, m)
  {
    hide Kept, SameBlocks, NextPass, Unblocked, Mirrored;
    if m > 0 {
      QuietPassesLine(p, entries, scripts, first, m - 1);
      var before := After(p, entries, scripts, first + m - 1);
      RunKeepsBlocks(p, entries, scripts, first + m - 1);
      UnblockedAlike(p, before, entries, |entries|);
      PassGetsFurther(before, entries, m - 1);
    }
  }

  /** Where nothing is blocked, faults may interrupt any number of passes: one more pass than there are
      entries without any, and the last of them goes through and leaves everything settled. */
  lemma HealsInTime(p: Pass, entries: seq<Entry>, scripts: seq<seq<Fate>>, first: nat)
    requires first + |entries| + 1 == |scripts| && Distinct(entries) && Kept(p) && Unblocked(p, entries, |entries|) && Quiet(scripts, first)
    ensures !After(p, entries, scripts, |scripts|).stopped && Settled(After(p, entries, scripts, |scripts|), entries)
  {
    hide Kept, SameBlocks, ReconcileEntries, Unblocked, Mirrored, AllPassable;
    QuietPassesLine(p, entries, scripts, first, |entries|);
    var before := After(p, entries, scripts, first + |entries|);
    RunKeepsBlocks(p, entries, scripts, first + |entries|);
    UnblockedAlike(p, before, entries, |entries|);
    PassGetsFurther(before, entries, |entries|);
    SameWorldKeeps(before, Begin(before, []), entries);
    PassSettles(Begin(before, []), IndexOf(before.live), entries);
  }

  /** The catalog can be brought in line at all exactly when nothing is blocked at the start. */
  lemma SettlesExactlyWhen(p: Pass, entries: seq<Entry>)
    requires Distinct(entries) && Kept(p)
    ensures
      Unblocked(p, entries, |entries|)
      <==> exists scripts: seq<seq<Fate>> :: |scripts| > 0 && !After(p, entries, scripts, |scripts|).stopped
  {
    hide Kept, Blocked, NextPass;
    if Unblocked(p, entries, |entries|) {
      var scripts: seq<seq<Fate>> := seq(|entries| + 1, i => []);
      HealsInTime(p, entries, scripts, 0);
    } else {
      var k :| 0 <= k < |entries| && Blocked(p, entries, k);
      forall scripts: seq<seq<Fate>> | |scripts| > 0 ensures After(p, entries, scripts, |scripts|).stopped {
        StuckForever(p, entries, scripts, |scripts|, k);
      }
    }
  }

  lemma PassableAnyhow(p: Pass, q: Pass, entries: seq<Entry>)
    requires SameWorld(p, q)
    ensures AllPassable(p, entries, |entries|) <==> AllPassable(q, entries, |entries|)
  {
    forall e, id ensures BoundTo(q, e, id) <==> BoundTo(p, e, id) { }
    forall k: nat, id | k <= |entries| ensures OwnedEarlier(q, entries, k, id) <==> OwnedEarlier(p, entries, k, id) { }
    forall k, id | 0 <= k < |entries|
      ensures (Blocks(q, entries, k, id) <==> Blocks(p, entries, k, id)) && (Delays(q, entries, k, id) <==> Delays(p, entries, k, id))
    {
    }
    forall k | 0 <= k < |entries| ensures Passable(p, entries, k) <==> Passable(q, entries, k) {
      hide Blocks, Delays;
      assert Blocked(p, entries, k) <==> Blocked(q, entries, k);
      assert Delayed(p, entries, k) <==> Delayed(q, entries, k);
    }
  }

  // ---- The two ways to be stuck, and the one that heals ----

  function Named(name: string): Achievement {
    Achievement(name, "", false)
  }

  function EntryNamed(criteria: string, name: string): Entry {
    Entry(Slot(criteria, 1), name, "", "", 1, 1)
  }

  function RowFor(id: int, name: string): Row {
    Row(id, name, "", "", 1, 1)
  }

  function StartWith(live: Live, rows: Rows): Pass {
    Pass(live, 10, rows, [], 0, false, NO_REPORT)
  }

  /** A criteria renamed in the catalog, whose old row is still there: the entry would adopt what that row
      records, and no pass ever goes through. */
  lemma RenamedCriteriaIsStuck(scripts: seq<seq<Fate>>)
    requires |scripts| > 0
    ensures
      var p := StartWith(map[5 := Named("X I")], map[Slot("old", 1) := RowFor(5, "X I")]);
      Kept(p) && After(p, [EntryNamed("new", "X I")], scripts, |scripts|).stopped
  {
    hide After;
    var p := StartWith(map[5 := Named("X I")], map[Slot("old", 1) := RowFor(5, "X I")]);
    var entries := [EntryNamed("new", "X I")];
    assert p.rows[Slot("old", 1)].id == 5;
    assert Blocks(p, entries, 0, 5);
    StuckForever(p, entries, scripts, |scripts|, 0);
  }

  /** An achievement renamed by hand to another entry's name: no pass goes through when that entry comes
      first, and the second one does when it comes second. */
  lemma OrderDecides(scripts: seq<seq<Fate>>)
    requires |scripts| > 0
    ensures
      var p := StartWith(map[5 := Named("B")], map[Slot("a", 1) := RowFor(5, "A")]);
      && Kept(p) && After(p, [EntryNamed("b", "B"), EntryNamed("a", "A")], scripts, |scripts|).stopped
      && After(p, [EntryNamed("a", "A"), EntryNamed("b", "B")], [[]], 1).stopped
      && !After(p, [EntryNamed("a", "A"), EntryNamed("b", "B")], [[], []], 2).stopped
  {
    hide After, NextPass, ReconcileEntries;
    var p := StartWith(map[5 := Named("B")], map[Slot("a", 1) := RowFor(5, "A")]);
    var a, b := EntryNamed("a", "A"), EntryNamed("b", "B");
    assert p.rows[Slot("a", 1)].id == 5 && BoundTo(p, a, 5);
    assert IsRecorded(p.rows, 5);
    assert Blocks(p, [b, a], 0, 5);
    StuckForever(p, [b, a], scripts, |scripts|, 0);
    BoundFirstHeals(p, a, b);
  }

  lemma BoundFirstHeals(p: Pass, a: Entry, b: Entry)
    requires p == StartWith(map[5 := Named("B")], map[Slot("a", 1) := RowFor(5, "A")])
    requires a == EntryNamed("a", "A") && b == EntryNamed("b", "B")
    ensures After(p, [a, b], [[]], 1).stopped && !After(p, [a, b], [[], []], 2).stopped
  {
    hide ReconcileEntries, NextPass, SameBlocks;
    var entries := [a, b];
    assert [a, b][0] == a && [a, b][1] == b && BoundTo(p, a, 5);
    assert !IsBound(p, b) && HasName(p, entries, 1, 5);
    assert OwnedEarlier(p, entries, 1, 5);
    assert Delays(p, entries, 1, 5) && !HasName(p, entries, 0, 5);
    assert !Blocked(p, entries, 0) && !Blocked(p, entries, 1);
    StartStops(p, entries, 1);
    PassGetsFurther(p, entries, 0);
    var r := NextPass(p, entries, []);
    NextPassTurns(p, entries, []);
    UnblockedAlike(p, r, entries, 2);
    LinedIsPassable(r, entries, 1);
    PassableGoesThrough(r, entries);
    assert After(p, entries, [[]], 0) == p && After(p, entries, [[], []], 0) == p;
    assert After(p, entries, [[]], 1) == r;
    assert After(p, entries, [[], []], 1) == r;
  }

  lemma StartStops(p: Pass, entries: seq<Entry>, k: nat)
    requires Distinct(entries) && Kept(p) && k < |entries| && Delayed(p, entries, k) && p == Begin(p, [])
    ensures NextPass(p, entries, []).stopped
  {
    hide ReconcileEntries, Kept, Delayed;
    PassSettles(p, IndexOf(p.live), entries);
    assert !Passable(p, entries, k);
  }

  lemma PassableGoesThrough(p: Pass, entries: seq<Entry>)
    requires Distinct(entries) && Kept(p) && AllPassable(p, entries, |entries|)
    ensures !NextPass(p, entries, []).stopped
  {
    hide ReconcileEntries, Kept, AllPassable;
    SameWorldKeeps(p, Begin(p, []), entries);
    PassableAnyhow(p, Begin(p, []), entries);
    PassSettles(Begin(p, []), IndexOf(p.live), entries);
  }
}
