/** The walk itself, and the runs it takes to finish one. */
module BackfillRunner {
  import opened Activity
  import P = Pipelines
  import opened Backfill
  import opened BackfillMeaning

  /** How a call ends. Unreadable is GitLab's not found or not permitted; an unseen one takes hold although
      it reports an error; a crash runs no more code. */
  datatype Fate = Fine | Unreadable | Broken | Unseen | Crash

  datatype Outcome = Finished | AlreadyComplete | Failed | Crashed

  datatype Attempt = Attempt(force: bool, faults: seq<Fate>)

  const PROGRESS_FLUSH_RECORDS := 200

  const PHASES := [Events, Phase.Pipelines, MergeRequests, Releases]

  /** Nothing GitLab is asked comes back as not found or not permitted. */
  predicate NoRefusals(faults: seq<Fate>) {
    forall i :: 0 <= i < |faults| ==> faults[i] != Unreadable
  }

  class Walk {
    const instance: seq<Project>
    const window: Window
    const normalize: Normalizer

    // What the database keeps.
    var saved: Progress
    var completed: bool
    // What a runner keeps, for as long as it lives.
    var progress: Progress
    var sinceFlush: nat
    // What will go wrong.
    var faults: seq<Fate>

    // The processor's calls; the records they add up to; the projects given up on; and how many
    // records were handed over since the cursor was last saved.
    ghost var trace: seq<Event>
    ghost var handed: set<Item>
    ghost var unreadable: set<nat>
    ghost var unsaved: nat

    constructor (instance: seq<Project>, window: Window, normalize: Normalizer)
      requires ValidInstance(instance)
      ensures this.instance == instance && this.window == window && this.normalize == normalize
      ensures Sound() && !completed && trace == [] && handed == {} && unreadable == {}
    {
      this.instance, this.window, this.normalize := instance, window, normalize;
      saved, completed, progress, sinceFlush, faults := START, false, START, 0, [];
      trace, handed, unreadable, unsaved := [], {}, {}, 0;
      new;
      NothingIsAhead(instance, window, {}, {});
    }

    /** What every interruption leaves true. */
    ghost predicate Sound()
      reads this
    {
      && ValidInstance(instance)
      && NotAhead(instance, saved, window, handed, unreadable)
      && OnlyDue(instance, window, handed)
      && TraceFits(trace, instance, window, normalize, handed)
      && (completed ==> Complete(instance, window, handed, unreadable))
    }

    ghost predicate Running()
      reads this
    {
      Sound() && NotAhead(instance, progress, window, handed, unreadable)
    }

    ghost predicate Bounded()
      reads this
    {
      unsaved <= sinceFlush < PROGRESS_FLUSH_RECORDS
    }

    ghost predicate InPhase(k: nat, phase: Phase)
      reads this
    {
      k < |instance| && instance[k].owned && progress.currentProject == instance[k].id && progress.phase == phase
    }

    method Next() returns (fate: Fate)
      modifies this`faults
      ensures old(faults) == [] ==> fate == Fine && faults == []
      ensures NoRefusals(old(faults)) ==> fate != Unreadable && NoRefusals(faults)
    {
      if faults == [] {
        return Fine;
      }
      fate, faults := faults[0], faults[1..];
    }

    /** Hands one record's activities to the processor. */
    method Process(k: nat, phase: Phase, index: nat, activities: seq<Event>) returns (status: Fate)
      requires Running() && k < |instance| && instance[k].owned && Due(instance[k], phase, index, window)
      requires activities == ActivitiesOf(instance[k], phase, index, window, normalize)
      modifies this`faults, this`trace, this`handed, this`unsaved
      ensures Running()
      ensures status == Fine ==> handed == old(handed) + {Item(instance[k].id, phase, index)} && unsaved == old(unsaved) + 1
      ensures status != Fine ==> handed == old(handed) && unsaved == old(unsaved)
      ensures old(faults) == [] ==> status == Fine && faults == []
      ensures NoRefusals(old(faults)) ==> status != Unreadable && NoRefusals(faults)
    {
      hide Due, ActivitiesOf, NotAhead, OnlyDue, TraceFits, ValidInstance, Complete;
      ghost var before := trace;
      for i := 0 to |activities|
        invariant trace == before + activities[..i] && handed == old(handed) && unsaved == old(unsaved)
        invariant old(faults) == [] ==> faults == []
        invariant NoRefusals(old(faults)) ==> NoRefusals(faults)
        invariant Running()
      {
        var fate := Next();
        if fate != Fine && fate != Unseen {
          return fate;
        }
        HandingFits(instance, k, phase, index, window, normalize, handed, before, before + activities[..i + 1]);
        assert activities[..i + 1] == activities[..i] + [activities[i]];
        trace := trace + [activities[i]];
        assert trace == before + activities[..i + 1];
        if fate == Unseen {
          return Broken;
        }
      }
      assert activities[..|activities|] == activities;
      HandingFits(instance, k, phase, index, window, normalize, handed, before, before + activities);
      ghost var more := handed + {Item(instance[k].id, phase, index)};
      MoreIsNotAhead(instance, saved, window, handed, more, unreadable, unreadable);
      MoreIsNotAhead(instance, progress, window, handed, more, unreadable, unreadable);
      CompleteStays(instance, window, handed, more, unreadable, unreadable);
      handed, unsaved := more, unsaved + 1;
      return Fine;
    }

    method Flush() returns (status: Fate)
      requires Running()
      modifies this`faults, this`saved, this`sinceFlush, this`unsaved
      ensures Running() && sinceFlush == 0 && status != Unreadable && unsaved <= old(unsaved)
      ensures status == Fine ==> saved == progress && unsaved == 0
      ensures old(faults) == [] ==> status == Fine && faults == []
      ensures NoRefusals(old(faults)) ==> status != Unreadable && NoRefusals(faults)
    {
      hide NotAhead, OnlyDue, TraceFits, ValidInstance, Complete;
      sinceFlush := 0;
      var fate := Next();
      if fate == Fine || fate == Unseen {
        saved, unsaved := progress, 0;
      }
      return if fate == Fine || fate == Crash then fate else Broken;
    }

    method MaybeFlush() returns (status: Fate)
      requires Running() && unsaved <= sinceFlush + 1 && sinceFlush < PROGRESS_FLUSH_RECORDS
      modifies this`faults, this`saved, this`sinceFlush, this`unsaved
      ensures Running() && unsaved <= PROGRESS_FLUSH_RECORDS && (status == Fine ==> Bounded())
      ensures old(faults) == [] ==> status == Fine && faults == []
      ensures NoRefusals(old(faults)) ==> status != Unreadable && NoRefusals(faults)
    {
      sinceFlush := sinceFlush + 1;
      if sinceFlush < PROGRESS_FLUSH_RECORDS {
        return Fine;
      }
      status := Flush();
    }

    // ---- The four phases ----

    lemma DayIsNotAhead(k: nat, i: nat)
      requires Running() && InPhase(k, Events) && i < |instance[k].events|
      requires forall j :: 0 <= j <= i && EventDue(window, instance[k].events[j]) ==> Item(instance[k].id, Events, j) in handed
      ensures NotAhead(instance, progress.(day := instance[k].events[i].filed / DAY), window, handed, unreadable)
    {
      hide EventDue, BuildDue, PhaseDone, OnlyDue, TraceFits, AllDone;
      var p, cursor := instance[k], progress.(day := instance[k].events[i].filed / DAY);
      assert Ordered(p) && InFlight(p, progress, window, handed);
      forall j | 0 <= j < |p.events| && p.events[j].filed / DAY < cursor.day ensures j <= i { }
      assert InFlight(p, cursor, window, handed);
    }

    lemma PipelineIsNotAhead(k: nat, i: nat)
      requires Running() && InPhase(k, Phase.Pipelines) && i < |instance[k].builds|
      requires forall j :: 0 <= j <= i && BuildDue(window, instance[k].builds[j]) ==> Item(instance[k].id, Phase.Pipelines, j) in handed
      ensures NotAhead(instance, progress.(lastPipeline := instance[k].builds[i].info.id), window, handed, unreadable)
    {
      hide EventDue, BuildDue, PhaseDone, OnlyDue, TraceFits, AllDone;
      var p, cursor := instance[k], progress.(lastPipeline := instance[k].builds[i].info.id);
      assert Ordered(p) && InFlight(p, progress, window, handed);
      assert InFlight(p, cursor, window, handed);
    }

    /** An event the floor leaves out is either not due or was handed over already; one it lets
        through is due unless it is the live path's. */
    lemma FloorSplits(k: nat, floor: nat)
      requires Running() && InPhase(k, Events) && floor == EventsFloor(progress, window.since)
      ensures
        forall i :: 0 <= i < |instance[k].events| ==>
          var e := instance[k].events[i];
          if floor == 0 || e.filed / DAY >= floor / DAY then EventDue(window, e) <==> !AfterCeiling(window, e.Time())
          else EventDue(window, e) ==> Item(instance[k].id, Events, i) in handed
    {
      hide BuildDue, PhaseDone, OnlyDue, TraceFits, AllDone, EventDue, AfterCeiling;
      var p := instance[k];
      assert InFlight(p, progress, window, handed);
      forall i | 0 <= i < |p.events|
        ensures if floor == 0 || p.events[i].filed / DAY >= floor / DAY then EventDue(window, p.events[i]) <==> !AfterCeiling(window, p.events[i].Time())
                else EventDue(window, p.events[i]) ==> Item(p.id, Events, i) in handed
      {
        FloorMeets(progress, window, p.events[i]);
      }
    }

    method WalkEvents(k: nat) returns (status: Fate)
      requires Running() && Bounded() && InPhase(k, Events)
      modifies this`faults, this`trace, this`handed, this`unsaved, this`saved, this`sinceFlush, this`progress
      ensures Running() && unsaved <= PROGRESS_FLUSH_RECORDS && handed >= old(handed) && InPhase(k, Events)
      ensures progress.lastProject == old(progress).lastProject
      ensures status == Fine ==> Bounded() && PhaseDone(instance[k], Events, window, handed)
      ensures old(faults) == [] ==> status == Fine && faults == []
      ensures NoRefusals(old(faults)) ==> status != Unreadable && NoRefusals(faults)
    {
      hide EventDue, ActivitiesOf, AfterCeiling, NotAhead, OnlyDue, TraceFits, ValidInstance, Complete;
      var p := instance[k];
      var floor := EventsFloor(progress, window.since);
      FloorSplits(k, floor);
      for i := 0 to |p.events|
        invariant Running() && Bounded() && handed >= old(handed) && InPhase(k, Events)
        invariant progress.lastProject == old(progress).lastProject
        invariant old(faults) == [] ==> faults == []
        invariant NoRefusals(old(faults)) ==> NoRefusals(faults)
        invariant forall j :: 0 <= j < i && EventDue(window, p.events[j]) ==> Item(p.id, Events, j) in handed
      {
        // GitLab leaves out the days before the floor's.
        if floor != 0 && p.events[i].filed / DAY < floor / DAY {
          continue;
        }
        status := Next();
        if status != Fine {
          return;
        }
        if AfterCeiling(window, p.events[i].Time()) {
          continue;
        }
        status := Process(k, Events, i, ActivitiesOf(p, Events, i, window, normalize));
        if status != Fine {
          return;
        }
        AdvanceEventsCursor(k, i);
        status := MaybeFlush();
        if status != Fine {
          return;
        }
      }
      status := Next();
    }

    /** Never moves back, and stays where it is for an event without a date. */
    method AdvanceEventsCursor(k: nat, i: nat)
      requires Running() && InPhase(k, Events) && i < |instance[k].events|
      requires forall j :: 0 <= j <= i && EventDue(window, instance[k].events[j]) ==> Item(instance[k].id, Events, j) in handed
      modifies this`progress
      ensures Running()
      ensures progress == old(progress).(day := progress.day) && progress.day >= old(progress).day
    {
      var e := instance[k].events[i];
      if e.Time() == 0 {
        return;
      }
      if e.filed / DAY > progress.day {
        DayIsNotAhead(k, i);
        progress := progress.(day := e.filed / DAY);
      }
    }

    lemma AlreadyWalked(k: nat)
      requires Running() && InPhase(k, Phase.Pipelines)
      ensures
        forall i :: 0 <= i < |instance[k].builds| && BuildDue(window, instance[k].builds[i]) && instance[k].builds[i].info.id <= progress.lastPipeline ==>
          Item(instance[k].id, Phase.Pipelines, i) in handed
    {
      hide EventDue, BuildDue, PhaseDone, OnlyDue, TraceFits, AllDone;
      assert InFlight(instance[k], progress, window, handed);
    }

    /** Fetches who triggered the pipeline; one deleted in the meantime yields nothing. */
    method ProcessPipeline(k: nat, i: nat, previous: P.Outcome) returns (status: Fate)
      requires Running() && InPhase(k, Phase.Pipelines) && i < |instance[k].builds|
      requires P.Listed(instance[k].builds[i].info, window.since) && !AfterCeiling(window, instance[k].builds[i].info.createdAt)
      requires previous == P.WalkedOutcome(Infos(instance[k].builds), window.since, i)
      modifies this`faults, this`trace, this`handed, this`unsaved
      ensures Running() && handed >= old(handed) && unsaved <= old(unsaved) + 1
      ensures status == Fine && BuildDue(window, instance[k].builds[i]) ==> Item(instance[k].id, Phase.Pipelines, i) in handed
      ensures old(faults) == [] ==> status == Fine && faults == []
      ensures NoRefusals(old(faults)) ==> status != Unreadable && NoRefusals(faults)
    {
      hide AfterCeiling, P.WalkedOutcome, P.Listed, NotAhead, OnlyDue, TraceFits, ValidInstance, Complete;
      status := Next();
      if status != Fine || instance[k].builds[i].gone {
        return;
      }
      status := Process(k, Phase.Pipelines, i, normalize(Item(instance[k].id, Phase.Pipelines, i), previous));
    }

    /** Processes one pipeline and moves the cursor up to it. */
    method WalkPipeline(k: nat, i: nat, previous: P.Outcome) returns (status: Fate)
      requires Running() && Bounded() && InPhase(k, Phase.Pipelines) && i < |instance[k].builds|
      requires P.Listed(instance[k].builds[i].info, window.since) && !AfterCeiling(window, instance[k].builds[i].info.createdAt)
      requires previous == P.WalkedOutcome(Infos(instance[k].builds), window.since, i)
      requires forall j :: 0 <= j < i && BuildDue(window, instance[k].builds[j]) ==> Item(instance[k].id, Phase.Pipelines, j) in handed
      modifies this`faults, this`trace, this`handed, this`unsaved, this`saved, this`sinceFlush, this`progress
      ensures Running() && unsaved <= PROGRESS_FLUSH_RECORDS && handed >= old(handed) && InPhase(k, Phase.Pipelines)
      ensures status == Fine ==>
        && Bounded() && progress == old(progress).(lastPipeline := instance[k].builds[i].info.id)
        && (BuildDue(window, instance[k].builds[i]) ==> Item(instance[k].id, Phase.Pipelines, i) in handed)
      ensures status != Fine ==> progress.lastProject == old(progress).lastProject
      ensures old(faults) == [] ==> status == Fine && faults == []
      ensures NoRefusals(old(faults)) ==> status != Unreadable && NoRefusals(faults)
    {
      hide AfterCeiling, P.WalkedOutcome, P.Listed, BuildDue, NotAhead, OnlyDue, TraceFits, ValidInstance, Complete;
      status := ProcessPipeline(k, i, previous);
      if status != Fine {
        return;
      }
      PipelineIsNotAhead(k, i);
      progress := progress.(lastPipeline := instance[k].builds[i].info.id);
      status := MaybeFlush();
    }

    method WalkPipelines(k: nat) returns (status: Fate)
      requires Running() && Bounded() && InPhase(k, Phase.Pipelines)
      modifies this`faults, this`trace, this`handed, this`unsaved, this`saved, this`sinceFlush, this`progress
      ensures Running() && unsaved <= PROGRESS_FLUSH_RECORDS && handed >= old(handed) && InPhase(k, Phase.Pipelines)
      ensures progress.lastProject == old(progress).lastProject
      ensures status == Fine ==> Bounded() && PhaseDone(instance[k], Phase.Pipelines, window, handed)
      ensures old(faults) == [] ==> status == Fine && faults == []
      ensures NoRefusals(old(faults)) ==> status != Unreadable && NoRefusals(faults)
    {
      hide AfterCeiling, NotAhead, OnlyDue, TraceFits, Complete;
      var p := instance[k];
      ghost var infos := Infos(p.builds);
      ghost var began, first := progress.lastPipeline, handed;
      AlreadyWalked(k);
      var outcomes: map<string, P.Status> := map[];
      for i := 0 to |p.builds|
        invariant Running() && Bounded() && handed >= old(handed) && InPhase(k, Phase.Pipelines)
        invariant progress.lastProject == old(progress).lastProject
        invariant old(faults) == [] ==> faults == []
        invariant NoRefusals(old(faults)) ==> NoRefusals(faults)
        invariant outcomes == P.Outcomes(infos, window.since, i)
        invariant progress.lastPipeline == began || (i > 0 && began <= progress.lastPipeline <= p.builds[i - 1].info.id)
        invariant forall j :: 0 <= j < i && BuildDue(window, p.builds[j]) ==> Item(p.id, Phase.Pipelines, j) in handed
      {
        var b := p.builds[i];
        // GitLab leaves out the pipelines before the floor.
        if !P.Listed(b.info, window.since) {
          continue;
        }
        status := Next();
        if status != Fine {
          return;
        }
        var previous := P.Lookup(outcomes, b.info.branch);
        outcomes := P.RecordOutcome(outcomes, b.info);
        if b.info.id <= progress.lastPipeline {
          continue;
        }
        if AfterCeiling(window, b.info.createdAt) {
          continue;
        }
        status := WalkPipeline(k, i, previous);
        if status != Fine {
          return;
        }
      }
      status := Next();
    }

    /** Merge requests and releases keep no cursor: an interrupted phase is listed again from the start. */
    method WalkRecords(k: nat, phase: Phase, records: seq<Record>) returns (status: Fate)
      requires Running() && Bounded() && InPhase(k, phase)
      requires (phase == MergeRequests && records == instance[k].merges) || (phase == Releases && records == instance[k].releases)
      modifies this`faults, this`trace, this`handed, this`unsaved, this`saved, this`sinceFlush
      ensures Running() && unsaved <= PROGRESS_FLUSH_RECORDS && handed >= old(handed)
      ensures status == Fine ==> Bounded() && PhaseDone(instance[k], phase, window, handed)
      ensures old(faults) == [] ==> status == Fine && faults == []
      ensures NoRefusals(old(faults)) ==> status != Unreadable && NoRefusals(faults)
    {
      hide ActivitiesOf, AfterCeiling, NotAhead, OnlyDue, TraceFits, ValidInstance, Complete;
      for i := 0 to |records|
        invariant Running() && Bounded() && handed >= old(handed)
        invariant old(faults) == [] ==> faults == []
        invariant NoRefusals(old(faults)) ==> NoRefusals(faults)
        invariant forall j :: 0 <= j < i && RecordDue(window, records[j]) ==> Item(instance[k].id, phase, j) in handed
      {
        status := Next();
        if status != Fine {
          return;
        }
        var time := records[i].Time();
        if AfterCeiling(window, time) || (window.since != 0 && time < window.since) {
          continue;
        }
        status := Process(k, phase, i, ActivitiesOf(instance[k], phase, i, window, normalize));
        if status != Fine {
          return;
        }
        status := MaybeFlush();
        if status != Fine {
          return;
        }
      }
      status := Next();
    }

    method WalkPhase(k: nat, phase: Phase) returns (status: Fate)
      requires Running() && Bounded() && InPhase(k, phase) && phase != NoPhase
      modifies this`faults, this`trace, this`handed, this`unsaved, this`saved, this`sinceFlush, this`progress
      ensures Running() && unsaved <= PROGRESS_FLUSH_RECORDS && handed >= old(handed) && InPhase(k, phase)
      ensures progress.lastProject == old(progress).lastProject
      ensures status == Fine ==> Bounded() && PhaseDone(instance[k], phase, window, handed)
      ensures old(faults) == [] ==> status == Fine && faults == []
      ensures NoRefusals(old(faults)) ==> status != Unreadable && NoRefusals(faults)
    {
      hide NotAhead, OnlyDue, TraceFits, ValidInstance, Complete, PhaseDone;
      match phase
      case Events => status := WalkEvents(k);
      case Pipelines => status := WalkPipelines(k);
      case MergeRequests => status := WalkRecords(k, phase, instance[k].merges);
      case Releases => status := WalkRecords(k, phase, instance[k].releases);
    }

    // ---- One project ----

    lemma StartIsNotAhead(k: nat)
      requires Running() && k < |instance|
      ensures NotAhead(instance, StartProject(progress, instance[k].id), window, handed, unreadable)
    {
      hide AllDone, PhaseDone, OnlyDue, TraceFits, EventDue, BuildDue, Complete;
      var cursor := StartProject(progress, instance[k].id);
      forall j | 0 <= j < |instance| && instance[j].owned && instance[j].id == cursor.currentProject
        ensures InFlight(instance[j], cursor, window, handed)
      {
        assert Ordered(instance[j]);
      }
    }

    lemma PhaseIsNotAhead(k: nat, phase: Phase)
      requires Running() && k < |instance| && instance[k].id == progress.currentProject
      requires forall before :: Rank(before) < Rank(phase) ==> PhaseDone(instance[k], before, window, handed)
      ensures NotAhead(instance, progress.(phase := phase), window, handed, unreadable)
    {
      hide AllDone, PhaseDone, OnlyDue, TraceFits, EventDue, BuildDue, Complete;
      forall j | 0 <= j < |instance| && instance[j].owned && instance[j].id == progress.currentProject
        ensures InFlight(instance[j], progress.(phase := phase), window, handed)
      {
        assert InFlight(instance[j], progress, window, handed);
        assert j == k;
      }
    }

    lemma EarlierPhasesDone(k: nat)
      requires Running() && k < |instance| && instance[k].owned && instance[k].id == progress.currentProject
      ensures forall before :: Rank(before) < Rank(progress.phase) ==> PhaseDone(instance[k], before, window, handed)
    {
      hide AllDone, PhaseDone, OnlyDue, TraceFits, EventDue, BuildDue, Complete;
      assert InFlight(instance[k], progress, window, handed);
    }

    /** With everything before a project done and the project too, or given up on, the cursor may pass it. */
    lemma FinishIsNotAhead(k: nat, given: set<nat>)
      requires Running() && k < |instance| && PassedUpTo(k) && unreadable <= given
      requires instance[k].owned && instance[k].id !in given ==> ProjectDone(instance[k], window, handed)
      ensures NotAhead(instance, FinishProject(progress, instance[k].id), window, handed, given)
    {
      hide ProjectDone, OnlyDue, TraceFits, InFlight, Complete;
      forall j | 0 <= j < |instance| && instance[j].id <= instance[k].id ensures j <= k { }
      forall j | 0 <= j < |instance| ensures instance[j].id > 0 { assert Ordered(instance[j]); }
    }

    /** The first k projects are done, but for those given up on. */
    ghost predicate PassedUpTo(k: nat)
      reads this
    {
      k <= |instance| && forall j :: 0 <= j < k && instance[j].owned && instance[j].id !in unreadable ==> ProjectDone(instance[j], window, handed)
    }

    lemma PassedStays(k: nat, was: set<Item>)
      requires k <= |instance| && was <= handed
      requires forall j :: 0 <= j < k && instance[j].owned && instance[j].id !in unreadable ==> ProjectDone(instance[j], window, was)
      ensures PassedUpTo(k)
    {
      hide ProjectDone;
      forall j | 0 <= j < k && ProjectDone(instance[j], window, was) ensures ProjectDone(instance[j], window, handed) {
        ProjectStaysDone(instance[j], window, was, handed);
      }
    }

    method WalkProject(k: nat) returns (status: Fate)
      requires Running() && Bounded() && k < |instance| && instance[k].owned && PassedUpTo(k)
      modifies this`faults, this`trace, this`handed, this`unsaved, this`saved, this`sinceFlush, this`progress, this`unreadable
      ensures Running() && unsaved <= PROGRESS_FLUSH_RECORDS && status != Unreadable
      ensures status == Fine ==> Bounded() && PassedUpTo(k + 1) && progress.lastProject == instance[k].id
      ensures old(faults) == [] ==> status == Fine && faults == []
      ensures NoRefusals(old(faults)) ==> NoRefusals(faults) && unreadable == old(unreadable)
    {
      hide NotAhead, OnlyDue, TraceFits, ValidInstance, Complete, PhaseDone, ProjectDone;
      StartIsNotAhead(k);
      progress := StartProject(progress, instance[k].id);
      ghost var was := handed;
      EarlierPhasesDone(k);
      var start := Rank(progress.phase);
      for i := start to |PHASES|
        invariant Running() && Bounded() && was <= handed && unreadable == old(unreadable)
        invariant progress.currentProject == instance[k].id
        invariant old(faults) == [] ==> faults == []
        invariant NoRefusals(old(faults)) ==> NoRefusals(faults)
        invariant forall before :: Rank(before) < i ==> PhaseDone(instance[k], before, window, handed)
      {
        PhaseIsNotAhead(k, PHASES[i]);
        progress := progress.(phase := PHASES[i]);
        ghost var until := handed;
        status := WalkPhase(k, PHASES[i]);
        if status != Fine {
          PassedStays(k, was);
          status := HandleProjectError(k, status);
          return;
        }
        forall before | Rank(before) < i + 1 ensures PhaseDone(instance[k], before, window, handed) {
          PhaseStaysDone(instance[k], before, window, until, handed);
        }
      }
      AllPhasesDone(instance[k], window, handed);
      PassedStays(k, was);
      FinishIsNotAhead(k, unreadable);
      progress := FinishProject(progress, instance[k].id);
      status := Flush();
    }

    /** Gives up on the project when GitLab would not let it be read, and on the run for anything else. */
    method HandleProjectError(k: nat, error: Fate) returns (status: Fate)
      requires Running() && k < |instance| && PassedUpTo(k) && error != Fine && unsaved <= PROGRESS_FLUSH_RECORDS
      modifies this`faults, this`saved, this`sinceFlush, this`unsaved, this`progress, this`unreadable
      ensures Running() && unsaved <= PROGRESS_FLUSH_RECORDS && status != Unreadable
      ensures error != Unreadable ==> status == error && unreadable == old(unreadable) && progress == old(progress)
      ensures error == Unreadable ==> unreadable == old(unreadable) + {instance[k].id} && progress == FinishProject(old(progress), instance[k].id)
      ensures status == Fine ==> Bounded() && PassedUpTo(k + 1)
      ensures NoRefusals(old(faults)) ==> NoRefusals(faults)
    {
      hide NotAhead, OnlyDue, TraceFits, ValidInstance, Complete, PhaseDone, ProjectDone;
      if error != Unreadable {
        return error;
      }
      ghost var given := unreadable + {instance[k].id};
      FinishIsNotAhead(k, given);
      MoreIsNotAhead(instance, saved, window, handed, handed, unreadable, given);
      CompleteStays(instance, window, handed, handed, unreadable, given);
      unreadable := given;
      progress := FinishProject(progress, instance[k].id);
      status := Flush();
    }

    // ---- One run ----

    lemma PassedFromCursor(k: nat, last: nat)
      requires Running() && k < |instance| && PassedUpTo(k) && instance[k].id <= last <= progress.lastProject
      ensures PassedUpTo(k + 1)
    {
      hide ProjectDone, OnlyDue, TraceFits, InFlight, Complete;
    }

    lemma PassedIsComplete()
      requires PassedUpTo(|instance|)
      ensures Complete(instance, window, handed, unreadable)
    {
      hide ProjectDone;
    }

    method WalkProjects() returns (status: Fate)
      requires Running() && Bounded()
      modifies this`faults, this`trace, this`handed, this`unsaved, this`saved, this`sinceFlush, this`progress, this`unreadable
      ensures Running() && unsaved <= PROGRESS_FLUSH_RECORDS
      ensures status == Fine ==> Complete(instance, window, handed, unreadable)
      ensures old(faults) == [] ==> status == Fine && faults == []
      ensures NoRefusals(old(faults)) ==> NoRefusals(faults) && unreadable == old(unreadable)
    {
      hide NotAhead, OnlyDue, TraceFits, Complete, ProjectDone;
      // Copied: the listing's filter keeps describing where the walk started.
      var resumeAfter := progress.lastProject;
      for i := 0 to |instance|
        invariant Running() && Bounded() && PassedUpTo(i) && resumeAfter <= progress.lastProject
        invariant old(faults) == [] ==> faults == []
        invariant NoRefusals(old(faults)) ==> NoRefusals(faults) && unreadable == old(unreadable)
      {
        // GitLab leaves out the projects up to that one.
        if instance[i].id <= resumeAfter {
          PassedFromCursor(i, resumeAfter);
          continue;
        }
        status := Next();
        if status != Fine {
          return;
        }
        if !instance[i].owned {
          continue;
        }
        status := WalkProject(i);
        if status != Fine {
          return;
        }
      }
      PassedIsComplete();
      status := Next();
    }

    /** A walk that is over leaves the completion mark before it clears its cursor. */
    method MarkCompleted() returns (status: Fate)
      requires Running() && Complete(instance, window, handed, unreadable)
      modifies this`faults, this`completed, this`saved
      ensures Running() && (status == Fine ==> completed && saved == START) && (old(completed) ==> completed)
      ensures old(faults) == [] ==> status == Fine && faults == []
      ensures NoRefusals(old(faults)) ==> status != Unreadable && NoRefusals(faults)
    {
      hide NotAhead, OnlyDue, TraceFits, Complete;
      NothingIsAhead(instance, window, handed, unreadable);
      status := Next();
      if status == Fine || status == Unseen {
        completed := true;
      }
      if status != Fine {
        return;
      }
      status := Next();
      if status == Fine || status == Unseen {
        saved := START;
      }
    }

    /** One run. Whatever goes wrong in it, what it leaves is sound and costs at most 200 records to make
        good; without anything going wrong it finishes. */
    method Run(attempt: Attempt) returns (outcome: Outcome)
      requires Sound()
      modifies this
      ensures Sound() && unsaved <= PROGRESS_FLUSH_RECORDS
      ensures outcome == Finished || outcome == AlreadyComplete ==> completed
      ensures attempt.faults == [] ==> completed
      ensures NoRefusals(attempt.faults) ==> unreadable == old(unreadable)
      ensures outcome == AlreadyComplete <==> old(completed) && !attempt.force
    {
      hide NotAhead, OnlyDue, TraceFits, ValidInstance, Complete;
      faults, unsaved := attempt.faults, 0;
      if completed && !attempt.force {
        return AlreadyComplete;
      }
      NothingIsAhead(instance, window, handed, unreadable);
      progress, sinceFlush := if attempt.force then START else saved, 0;
      var status := WalkProjects();
      if status == Crash {
        return Crashed;
      }
      if status != Fine {
        var _ := Flush();
        return Failed;
      }
      status := MarkCompleted();
      outcome := if status == Fine then Finished else if status == Crash then Crashed else Failed;
    }

    /** Any number of runs, each with its own faults. Once one has completed with no project ever given up
        on, what was handed over is what is due, whole. */
    method Attempts(attempts: seq<Attempt>)
      requires Sound() && unreadable == {}
      modifies this
      ensures Sound()
      ensures (forall i :: 0 <= i < |attempts| ==> NoRefusals(attempts[i].faults)) ==> unreadable == {}
      ensures completed && unreadable == {} ==> WalkedWhole(instance, window, normalize, handed, trace)
      ensures |attempts| > 0 && attempts[|attempts| - 1].faults == [] ==> completed
    {
      for i := 0 to |attempts|
        invariant Sound()
        invariant i > 0 && attempts[i - 1].faults == [] ==> completed
        invariant (forall j :: 0 <= j < i ==> NoRefusals(attempts[j].faults)) ==> unreadable == {}
      {
        var _ := Run(attempts[i]);
      }
    }
  }

  lemma PhaseStaysDone(p: Project, phase: Phase, w: Window, handed: set<Item>, more: set<Item>)
    requires handed <= more
    ensures PhaseDone(p, phase, w, handed) ==> PhaseDone(p, phase, w, more)
    ensures PhaseDone(p, NoPhase, w, more)
  {
  }

  lemma AllPhasesDone(p: Project, w: Window, handed: set<Item>)
    requires forall phase :: Rank(phase) < |PHASES| ==> PhaseDone(p, phase, w, handed)
    ensures ProjectDone(p, w, handed)
  {
  }

  lemma FloorMeets(cursor: Progress, w: Window, e: Record)
    ensures
      var floor := EventsFloor(cursor, w.since);
      if floor == 0 || e.filed / DAY >= floor / DAY then EventDue(w, e) <==> !AfterCeiling(w, e.Time())
      else EventDue(w, e) ==> e.filed / DAY < cursor.day
  {
    var floor := EventsFloor(cursor, w.since);
    if w.since != 0 {
      assert floor / DAY >= w.since / DAY;
    }
  }
}
