/** The resumable walk of an instance's history: one runner after another, each of which may be
    interrupted anywhere, over one saved cursor.

    GitLab's answers are a fixed instance plus a script of what goes wrong, consumed one entry per
    call. Once the script has run out everything works. */
module Backfill {
  import opened Activity
  import opened Pipelines

  // ---- What GitLab holds ----

  const DAY := 86400

  /** An event, merge request or release. GitLab filters on `filed`; the program may be unable to read it. */
  datatype Record = Record(filed: nat, readable: bool) {
    function Time(): nat {
      if readable then filed else 0
    }
  }

  /** A pipeline, and whether it has been deleted by the time its detail is fetched. */
  datatype Build = Build(info: Pipeline, gone: bool)

  datatype Project = Project(id: nat, owned: bool, events: seq<Record>, builds: seq<Build>, merges: seq<Record>, releases: seq<Record>)

  datatype Phase = NoPhase | Events | Pipelines | MergeRequests | Releases

  function Rank(phase: Phase): nat {
    match phase
    case NoPhase => 0
    case Events => 0
    case Pipelines => 1
    case MergeRequests => 2
    case Releases => 3
  }

  /** The index-th record of one of a project's listings. */
  datatype Item = Item(project: nat, phase: Phase, index: nat)

  datatype Window = Window(since: nat, until: nat)

  ghost predicate Ordered(p: Project) {
    && p.id > 0
    && (forall i :: 0 <= i < |p.events| ==> p.events[i].filed >= DAY)
    && (forall i, j :: 0 <= i < j < |p.events| ==> p.events[i].filed <= p.events[j].filed)
    && (forall i :: 0 <= i < |p.builds| ==> p.builds[i].info.id > 0)
    && (forall i, j :: 0 <= i < j < |p.builds| ==> p.builds[i].info.id < p.builds[j].info.id)
  }

  ghost predicate ValidInstance(instance: seq<Project>) {
    && (forall i :: 0 <= i < |instance| ==> Ordered(instance[i]))
    && (forall i, j :: 0 <= i < j < |instance| ==> instance[i].id < instance[j].id)
  }

  predicate AfterCeiling(w: Window, time: nat) {
    w.until != 0 && time != 0 && time >= w.until
  }

  /** GitLab's filter on events goes by the day. */
  predicate EventDue(w: Window, e: Record) {
    (w.since == 0 || e.filed / DAY >= w.since / DAY) && !AfterCeiling(w, e.Time())
  }

  predicate BuildDue(w: Window, b: Build) {
    Listed(b.info, w.since) && !AfterCeiling(w, b.info.createdAt) && !b.gone
  }

  /** A record whose date cannot be read is dropped by a walk with a floor, although not by a ceiling. */
  predicate RecordDue(w: Window, r: Record) {
    (w.since == 0 || r.Time() >= w.since) && !AfterCeiling(w, r.Time())
  }

  /** The records of a project that a walk of the window is to hand over. */
  predicate Due(p: Project, phase: Phase, index: nat, w: Window) {
    match phase
    case NoPhase => false
    case Events => index < |p.events| && EventDue(w, p.events[index])
    case Pipelines => index < |p.builds| && BuildDue(w, p.builds[index])
    case MergeRequests => index < |p.merges| && RecordDue(w, p.merges[index])
    case Releases => index < |p.releases| && RecordDue(w, p.releases[index])
  }

  // ---- Cursors ----

  /** The saved cursor; a day of 0 stands for no date. */
  datatype Progress = Progress(day: nat, phase: Phase, lastProject: nat, currentProject: nat, lastPipeline: int)

  const START := Progress(0, NoPhase, 0, 0, 0)

  function StartProject(p: Progress, project: nat): Progress {
    if p.currentProject == project then p
    else p.(currentProject := project, phase := Events, day := 0, lastPipeline := 0)
  }

  function FinishProject(p: Progress, project: nat): Progress {
    Progress(0, NoPhase, project, 0, 0)
  }

  /** The earliest time still to be covered; 0 for no bound. */
  function EventsFloor(p: Progress, since: nat): nat {
    if p.day == 0 then since
    else if since == 0 || p.day * DAY > since then p.day * DAY
    else since
  }

  /** All that is due of one listing was handed over. */
  ghost predicate PhaseDone(p: Project, phase: Phase, w: Window, handed: set<Item>) {
    forall i: nat :: Due(p, phase, i, w) ==> Item(p.id, phase, i) in handed
  }

  ghost predicate ProjectDone(p: Project, w: Window, handed: set<Item>) {
    forall phase :: PhaseDone(p, phase, w, handed)
  }

  /** No cursor of a project in flight is ahead of what was handed over. */
  ghost predicate InFlight(p: Project, cursor: Progress, w: Window, handed: set<Item>) {
    && (forall phase :: Rank(phase) < Rank(cursor.phase) ==> PhaseDone(p, phase, w, handed))
    && (forall i :: 0 <= i < |p.events| && EventDue(w, p.events[i]) && p.events[i].filed / DAY < cursor.day ==> Item(p.id, Events, i) in handed)
    && (forall i :: 0 <= i < |p.builds| && BuildDue(w, p.builds[i]) && p.builds[i].info.id <= cursor.lastPipeline ==> Item(p.id, Pipelines, i) in handed)
  }

  /** A cursor is not ahead of the work: what it passes over was handed over, or belongs to a project
      the walk gave up on because GitLab would not let it read it. */
  ghost predicate NotAhead(instance: seq<Project>, cursor: Progress, w: Window, handed: set<Item>, unreadable: set<nat>) {
    && AllDone(instance, cursor.lastProject, w, handed, unreadable)
    && forall k :: 0 <= k < |instance| && instance[k].owned && instance[k].id == cursor.currentProject ==> InFlight(instance[k], cursor, w, handed)
  }

  /** The projects with an ID up to this one, but for those given up on. */
  ghost predicate AllDone(instance: seq<Project>, last: nat, w: Window, handed: set<Item>, unreadable: set<nat>) {
    forall k :: 0 <= k < |instance| && instance[k].owned && instance[k].id <= last && instance[k].id !in unreadable ==> ProjectDone(instance[k], w, handed)
  }

  /** Everything due of every project but those given up on. */
  ghost predicate Complete(instance: seq<Project>, w: Window, handed: set<Item>, unreadable: set<nat>) {
    forall last :: AllDone(instance, last, w, handed, unreadable)
  }

  /** Nothing is handed over but what is due, of projects that a group owns. */
  ghost predicate OnlyDue(instance: seq<Project>, w: Window, handed: set<Item>) {
    forall item :: item in handed ==>
      exists k :: 0 <= k < |instance| && instance[k].owned && instance[k].id == item.project && Due(instance[k], item.phase, item.index, w)
  }

  // ---- The activities handed over ----

  /** What the normalizers make of each record; a pipeline's depends on how the one before it ended. */
  type Normalizer = (Item, Outcome) -> seq<Event>

  function Infos(builds: seq<Build>): seq<Pipeline> {
    seq(|builds|, i requires 0 <= i < |builds| => builds[i].info)
  }

  function ActivitiesOf(p: Project, phase: Phase, index: nat, w: Window, normalize: Normalizer): seq<Event> {
    normalize(Item(p.id, phase, index),
              if phase == Pipelines && index < |p.builds| then WalkedOutcome(Infos(p.builds), w.since, index) else Unknown)
  }

  ghost predicate From(e: Event, instance: seq<Project>, k: nat, phase: Phase, index: nat, w: Window, normalize: Normalizer)
    requires k < |instance|
  {
    instance[k].owned && Due(instance[k], phase, index, w) && e in ActivitiesOf(instance[k], phase, index, w, normalize)
  }

  /** The activities of everything due. */
  ghost predicate Expected(e: Event, instance: seq<Project>, w: Window, normalize: Normalizer) {
    exists k: nat, phase, index :: k < |instance| && From(e, instance, k, phase, index, w, normalize)
  }

  /** The processor was called with what is due only, and with all of each record that counts as handed over. */
  ghost predicate TraceFits(trace: seq<Event>, instance: seq<Project>, w: Window, normalize: Normalizer, handed: set<Item>) {
    && (forall i :: 0 <= i < |trace| ==> Expected(trace[i], instance, w, normalize))
    && (forall k: nat, phase, index, e :: k < |instance| && Item(instance[k].id, phase, index) in handed && From(e, instance, k, phase, index, w, normalize) ==> e in trace)
  }

  lemma NothingIsAhead(instance: seq<Project>, w: Window, handed: set<Item>, unreadable: set<nat>)
    requires ValidInstance(instance)
    ensures NotAhead(instance, START, w, handed, unreadable)
  {
    hide ProjectDone, InFlight;
    forall k | 0 <= k < |instance| ensures instance[k].id > 0 { assert Ordered(instance[k]); }
  }

  lemma ProjectStaysDone(p: Project, w: Window, handed: set<Item>, more: set<Item>)
    requires ProjectDone(p, w, handed) && handed <= more
    ensures ProjectDone(p, w, more)
  {
    hide Due;
    forall phase ensures PhaseDone(p, phase, w, more) { assert PhaseDone(p, phase, w, handed); }
  }

  lemma MoreIsInFlight(p: Project, cursor: Progress, w: Window, handed: set<Item>, more: set<Item>)
    requires InFlight(p, cursor, w, handed) && handed <= more
    ensures InFlight(p, cursor, w, more)
  {
    hide Due, EventDue, BuildDue;
    forall phase | Rank(phase) < Rank(cursor.phase) ensures PhaseDone(p, phase, w, more) { assert PhaseDone(p, phase, w, handed); }
  }

  lemma MoreIsDone(instance: seq<Project>, last: nat, w: Window, handed: set<Item>, more: set<Item>, unreadable: set<nat>, given: set<nat>)
    requires AllDone(instance, last, w, handed, unreadable) && handed <= more && unreadable <= given
    ensures AllDone(instance, last, w, more, given)
  {
    hide ProjectDone;
    forall k | 0 <= k < |instance| && ProjectDone(instance[k], w, handed) ensures ProjectDone(instance[k], w, more) {
      ProjectStaysDone(instance[k], w, handed, more);
    }
  }

  lemma CompleteStays(instance: seq<Project>, w: Window, handed: set<Item>, more: set<Item>, unreadable: set<nat>, given: set<nat>)
    requires handed <= more && unreadable <= given
    ensures Complete(instance, w, handed, unreadable) ==> Complete(instance, w, more, given)
  {
    hide AllDone;
    forall last | AllDone(instance, last, w, handed, unreadable) ensures AllDone(instance, last, w, more, given) {
      MoreIsDone(instance, last, w, handed, more, unreadable, given);
    }
  }

  lemma MoreIsNotAhead(instance: seq<Project>, cursor: Progress, w: Window, handed: set<Item>, more: set<Item>, unreadable: set<nat>, given: set<nat>)
    requires NotAhead(instance, cursor, w, handed, unreadable) && handed <= more && unreadable <= given
    ensures NotAhead(instance, cursor, w, more, given)
  {
    hide InFlight, AllDone;
    MoreIsDone(instance, cursor.lastProject, w, handed, more, unreadable, given);
    forall k | 0 <= k < |instance| && InFlight(instance[k], cursor, w, handed) ensures InFlight(instance[k], cursor, w, more) {
      MoreIsInFlight(instance[k], cursor, w, handed, more);
    }
  }

  /** A record handed over whole keeps the trace and the set of items in step. */
  lemma HandingFits(instance: seq<Project>, k: nat, phase: Phase, index: nat, w: Window, normalize: Normalizer, handed: set<Item>, trace: seq<Event>, more: seq<Event>)
    requires ValidInstance(instance) && k < |instance| && instance[k].owned && Due(instance[k], phase, index, w)
    requires OnlyDue(instance, w, handed) && TraceFits(trace, instance, w, normalize, handed)
    requires |trace| <= |more| && more[..|trace|] == trace
    requires forall i :: |trace| <= i < |more| ==> more[i] in ActivitiesOf(instance[k], phase, index, w, normalize)
    ensures TraceFits(more, instance, w, normalize, handed)
    ensures
      (forall e :: e in ActivitiesOf(instance[k], phase, index, w, normalize) ==> e in more) ==>
      TraceFits(more, instance, w, normalize, handed + {Item(instance[k].id, phase, index)}) && OnlyDue(instance, w, handed + {Item(instance[k].id, phase, index)})
  {
    hide ActivitiesOf, Due, Ordered;
    forall i | 0 <= i < |more| ensures Expected(more[i], instance, w, normalize) {
      if i < |trace| {
        assert more[i] == trace[i];
      } else {
        assert From(more[i], instance, k, phase, index, w, normalize);
      }
    }
    forall e | e in trace ensures e in more {
      var i :| 0 <= i < |trace| && trace[i] == e;
      assert more[i] == e;
    }
  }
}
