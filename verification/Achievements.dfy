/** Reconciling GitLab's achievements with the catalog, over rows that record which achievement is whose.

    Calls to GitLab and to the database may go wrong, each having happened or not; a pass ends there. */
module Achievements {
  /** A row's unique key. */
  datatype Slot = Slot(criteria: string, tier: int)

  /** An entry without an avatar key expects no avatar. */
  datatype Entry = Entry(slot: Slot, name: string, description: string, avatarKey: string, threshold: int, exp: int)

  datatype Achievement = Achievement(name: string, description: string, hasAvatar: bool)

  datatype Row = Row(id: int, name: string, description: string, avatarKey: string, threshold: int, exp: int)

  datatype Fate = Works | Refused | Unseen

  datatype Tally = Created | Adopted | Updated | Unchanged | Recreated

  datatype Report = Report(created: nat, adopted: nat, updated: nat, untouched: nat, recreated: nat)

  type Live = map<int, Achievement>
  type Rows = map<Slot, Row>

  /** What a pass has come to: GitLab's achievements, the rows, what is still to go wrong, and whether it ended early. */
  datatype Pass = Pass(live: Live, nextId: int, rows: Rows, faults: seq<Fate>, writes: nat, stopped: bool, report: Report)

  function Fault(p: Pass): Fate {
    if p.faults == [] then Works else p.faults[0]
  }

  /** One more call is made, and ends the pass unless it works. */
  function Spend(p: Pass): Pass {
    p.(faults := if p.faults == [] then [] else p.faults[1..], writes := p.writes + 1, stopped := Fault(p) != Works)
  }

  // ---- The calls ----

  /** Some other achievement has the name. */
  predicate NameTaken(live: Live, name: string, except: int) {
    exists id :: id in live && id != except && live[id].name == name
  }

  /** GitLab refuses a second achievement of one name. */
  function Create(p: Pass, e: Entry): Pass {
    if NameTaken(p.live, e.name, p.nextId) then Spend(p).(stopped := true)
    else if Fault(p) == Refused then Spend(p)
    else Spend(p).(live := p.live[p.nextId := Achievement(e.name, e.description, e.avatarKey != "")], nextId := p.nextId + 1)
  }

  function Update(p: Pass, id: int, e: Entry, avatar: bool): Pass {
    if id !in p.live || NameTaken(p.live, e.name, id) then Spend(p).(stopped := true)
    else if Fault(p) == Refused then Spend(p)
    else Spend(p).(live := p.live[id := Achievement(e.name, e.description, p.live[id].hasAvatar || (avatar && e.avatarKey != ""))])
  }

  /** Another row records the achievement. */
  predicate IdTaken(rows: Rows, id: int, except: Slot) {
    exists slot :: slot in rows && slot != except && rows[slot].id == id
  }

  /** The database refuses a second row for one achievement. */
  function Save(p: Pass, slot: Slot, row: Row): Pass {
    if IdTaken(p.rows, row.id, slot) then Spend(p).(stopped := true)
    else if Fault(p) == Refused then Spend(p) else Spend(p).(rows := p.rows[slot := row])
  }

  // ---- One entry ----

  function RowOf(id: int, e: Entry): Row {
    Row(id, e.name, e.description, e.avatarKey, e.threshold, e.exp)
  }

  predicate AvatarDrifted(live: Achievement, row: Row, e: Entry) {
    e.avatarKey != "" && (row.avatarKey != e.avatarKey || !live.hasAvatar)
  }

  /** GitLab needs telling. An avatar too many cannot be told. */
  predicate Drifted(live: Achievement, row: Row, e: Entry) {
    live.name != e.name || live.description != e.description || AvatarDrifted(live, row, e)
  }

  predicate RowMirrors(row: Row, e: Entry) {
    row.name == e.name && row.description == e.description && row.avatarKey == e.avatarKey
    && row.threshold == e.threshold && row.exp == e.exp
  }

  predicate NeedsNothing(live: Achievement, row: Row, e: Entry) {
    !Drifted(live, row, e) && RowMirrors(row, e)
  }

  function ReconcileAchievement(p: Pass, live: Achievement, row: Row, e: Entry): Pass {
    if NeedsNothing(live, row, e) then p
    else
      var pushed := if Drifted(live, row, e) then Update(p, row.id, e, AvatarDrifted(live, row, e)) else p;
      if pushed.stopped then pushed else Save(pushed, e.slot, RowOf(row.id, e))
  }

  /** What an adopted achievement's row records is what GitLab holds. */
  function AdoptedRow(id: int, live: Achievement, e: Entry): Row {
    Row(id, live.name, live.description, if live.hasAvatar then e.avatarKey else "", e.threshold, e.exp)
  }

  function AdoptAchievement(p: Pass, id: int, live: Achievement, e: Entry): Pass {
    var saved := Save(p, e.slot, AdoptedRow(id, live, e));
    if saved.stopped then saved else ReconcileAchievement(saved, live, AdoptedRow(id, live, e), e)
  }

  /** Creating and recreating differ in whether there is a row to overwrite. */
  function CreateAchievement(p: Pass, e: Entry): Pass {
    var made := Create(p, e);
    if made.stopped then made else Save(made, e.slot, RowOf(p.nextId, e))
  }

  function Count(p: Pass, tally: Tally): Pass {
    if p.stopped then p
    else
      p.(report := match tally
                   case Created => p.report.(created := p.report.created + 1)
                   case Adopted => p.report.(adopted := p.report.adopted + 1)
                   case Updated => p.report.(updated := p.report.updated + 1)
                   case Unchanged => p.report.(untouched := p.report.untouched + 1)
                   case Recreated => p.report.(recreated := p.report.recreated + 1))
  }

  /** What was listed, by name: some achievement of each name there is. */
  predicate Indexes(listed: Live, byName: map<string, int>) {
    && (forall name :: name in byName ==> byName[name] in listed && listed[byName[name]].name == name)
    && (forall id :: id in listed ==> listed[id].name in byName)
  }

  /** An entry's row names an achievement that was listed. */
  predicate Recorded(rows: Rows, listed: Live, e: Entry) {
    e.slot in rows && rows[e.slot].id in listed
  }

  function AttemptEntry(p: Pass, listed: Live, byName: map<string, int>, e: Entry): Pass
    requires Indexes(listed, byName)
  {
    if Recorded(p.rows, listed, e) then ReconcileAchievement(p, listed[p.rows[e.slot].id], p.rows[e.slot], e)
    else if e.name in byName then AdoptAchievement(p, byName[e.name], listed[byName[e.name]], e)
    else CreateAchievement(p, e)
  }

  function TallyOf(p: Pass, listed: Live, byName: map<string, int>, e: Entry): Tally
  {
    if Recorded(p.rows, listed, e) then (if NeedsNothing(listed[p.rows[e.slot].id], p.rows[e.slot], e) then Unchanged else Updated)
    else if e.name in byName then Adopted
    else if e.slot in p.rows then Recreated else Created
  }

  function ReconcileEntry(p: Pass, listed: Live, byName: map<string, int>, e: Entry): Pass
    requires Indexes(listed, byName)
  {
    Count(AttemptEntry(p, listed, byName, e), TallyOf(p, listed, byName, e))
  }

  function ReconcileEntries(p: Pass, listed: Live, byName: map<string, int>, entries: seq<Entry>, n: nat): Pass
    requires n <= |entries| && Indexes(listed, byName)
  {
    if n == 0 then p
    else
      var before := ReconcileEntries(p, listed, byName, entries, n - 1);
      if before.stopped then before else ReconcileEntry(before, listed, byName, entries[n - 1])
  }

  const NO_REPORT := Report(0, 0, 0, 0, 0)

  ghost predicate Fresh(p: Pass) {
    !p.stopped && p.report == NO_REPORT
  }

  // ---- What a pass is for ----

  ghost predicate Mirrored(p: Pass, e: Entry) {
    && e.slot in p.rows && p.rows[e.slot] == RowOf(p.rows[e.slot].id, e) && p.rows[e.slot].id in p.live
    && var live := p.live[p.rows[e.slot].id];
       live.name == e.name && live.description == e.description && (e.avatarKey != "" ==> live.hasAvatar)
  }

  ghost predicate Distinct(entries: seq<Entry>) {
    forall i, j :: 0 <= i < j < |entries| ==> entries[i].slot != entries[j].slot && entries[i].name != entries[j].name
  }

  ghost predicate BoundTo(p: Pass, e: Entry, id: int) {
    e.slot in p.rows && p.rows[e.slot].id == id && id in p.live
  }

  /** Everything an entry is to be: bound to an achievement that is no other row's, and in line with it. */
  ghost predicate Settled(p: Pass, entries: seq<Entry>) {
    RowsApart(p.rows) && forall e :: e in entries ==> Mirrored(p, e)
  }

  // ---- What the two stores guarantee ----

  /** The unique index on a row's achievement. */
  ghost predicate RowsApart(rows: Rows) {
    forall s, t :: s in rows && t in rows && rows[s].id == rows[t].id ==> s == t
  }

  ghost predicate NamesUnique(live: Live) {
    forall id, jd :: id in live && jd in live && live[id].name == live[jd].name ==> id == jd
  }

  /** The IDs GitLab gives out are new. */
  ghost predicate Numbered(p: Pass) {
    && (forall id :: id in p.live ==> id < p.nextId)
    && (forall slot :: slot in p.rows ==> p.rows[slot].id < p.nextId)
  }

  ghost predicate Kept(p: Pass) {
    Numbered(p) && RowsApart(p.rows) && NamesUnique(p.live)
  }

  // ---- A settled pass is quiet ----

  /** Where everything mirrors the catalog, a pass makes no call at all and reports all untouched. */
  lemma {:induction false} SettledIsQuiet(p: Pass, byName: map<string, int>, entries: seq<Entry>, n: nat)
    requires n <= |entries| && Indexes(p.live, byName) && !p.stopped
    requires forall e :: e in entries ==> Mirrored(p, e)
    ensures ReconcileEntries(p, p.live, byName, entries, n) == p.(report := p.report.(untouched := p.report.untouched + n))
  {
    if n > 0 {
      SettledIsQuiet(p, byName, entries, n - 1);
      assert Mirrored(p, entries[n - 1]);
    }
  }

  function Total(r: Report): nat {
    r.created + r.adopted + r.updated + r.untouched + r.recreated
  }

  lemma ReconcilingKeepsReport(p: Pass, live: Achievement, row: Row, e: Entry)
    ensures ReconcileAchievement(p, live, row, e).report == p.report
  {
    hide NameTaken, IdTaken, RowMirrors, Drifted, AvatarDrifted;
  }

  lemma AttemptKeepsReport(p: Pass, listed: Live, byName: map<string, int>, e: Entry)
    requires Indexes(listed, byName)
    ensures AttemptEntry(p, listed, byName, e).report == p.report
  {
    hide NameTaken, IdTaken, ReconcileAchievement;
    if Recorded(p.rows, listed, e) {
      ReconcilingKeepsReport(p, listed[p.rows[e.slot].id], p.rows[e.slot], e);
    } else if e.name in byName {
      var id := byName[e.name];
      var row := AdoptedRow(id, listed[id], e);
      ReconcilingKeepsReport(Save(p, e.slot, row), listed[id], row, e);
    }
  }

  lemma CountAddsOne(p: Pass, tally: Tally)
    ensures Total(Count(p, tally).report) == Total(p.report) + if p.stopped then 0 else 1
    ensures Count(p, tally) == p.(report := Count(p, tally).report)
  {
  }

  lemma EntryIsCounted(p: Pass, listed: Live, byName: map<string, int>, e: Entry)
    requires Indexes(listed, byName) && !p.stopped
    ensures
      var r := ReconcileEntry(p, listed, byName, e);
      Total(r.report) == Total(p.report) + if r.stopped then 0 else 1
  {
    hide AttemptEntry, TallyOf, Total, Count;
    AttemptKeepsReport(p, listed, byName, e);
    CountAddsOne(AttemptEntry(p, listed, byName, e), TallyOf(p, listed, byName, e));
  }

  /** The five counts add up to the entries of a pass that went through. */
  lemma {:induction false} ReportAddsUp(p: Pass, listed: Live, byName: map<string, int>, entries: seq<Entry>, n: nat)
    requires n <= |entries| && Indexes(listed, byName) && Fresh(p)
    ensures
      var r := ReconcileEntries(p, listed, byName, entries, n);
      if r.stopped then Total(r.report) < n else Total(r.report) == n
  {
    hide ReconcileEntry;
    if n > 0 {
      ReportAddsUp(p, listed, byName, entries, n - 1);
      var before := ReconcileEntries(p, listed, byName, entries, n - 1);
      if !before.stopped { EntryIsCounted(before, listed, byName, entries[n - 1]); }
    }
  }
}
