/** What a finished walk comes to, however often it was interrupted on the way. */
module BackfillMeaning {
  import opened Activity
  import opened Backfill
  import E = Engine
  import Confluence

  /** What Sound and a completion mark with no project given up on say about a walk's history. */
  ghost predicate WalkedWhole(instance: seq<Project>, w: Window, normalize: Normalizer, handed: set<Item>, trace: seq<Event>) {
    && ValidInstance(instance) && OnlyDue(instance, w, handed)
    && TraceFits(trace, instance, w, normalize, handed) && Complete(instance, w, handed, {})
  }

  /** Handed over is exactly what is due of the projects that a group owns. */
  lemma HandedIsDue(instance: seq<Project>, w: Window, normalize: Normalizer, handed: set<Item>, trace: seq<Event>, k: nat, phase: Phase, index: nat)
    requires WalkedWhole(instance, w, normalize, handed, trace) && k < |instance|
    ensures Item(instance[k].id, phase, index) in handed <==> instance[k].owned && Due(instance[k], phase, index, w)
  {
    hide Due, TraceFits;
    if instance[k].owned && Due(instance[k], phase, index, w) {
      assert AllDone(instance, instance[k].id, w, handed, {});
      assert PhaseDone(instance[k], phase, w, handed);
    }
  }

  // ---- Records without a date ----

  /** A release that no ceiling holds back, and that a walk with a floor passes over all the same. */
  lemma UndatedReleaseIsDropped()
    ensures
      var w, r := Window(1, 0), Record(500, false);
      !AfterCeiling(w, r.Time()) && r.filed >= w.since && !RecordDue(w, r)
  {
  }

  /** A merge request or release whose date cannot be read is due exactly when the walk has no floor, although
      no ceiling ever holds it back. */
  lemma UndatedIsDueExactlyWhen(w: Window, r: Record)
    requires !r.readable
    ensures !AfterCeiling(w, r.Time()) && (RecordDue(w, r) <==> w.since == 0)
  {
  }

  /** So a finished walk has handed such a record over exactly when it had no floor. */
  lemma UndatedIsHandedExactlyWhen(instance: seq<Project>, w: Window, normalize: Normalizer, handed: set<Item>, trace: seq<Event>, k: nat, index: nat)
    requires WalkedWhole(instance, w, normalize, handed, trace) && k < |instance| && instance[k].owned
    ensures index < |instance[k].releases| && !instance[k].releases[index].readable ==>
      (Item(instance[k].id, Releases, index) in handed <==> w.since == 0)
    ensures index < |instance[k].merges| && !instance[k].merges[index].readable ==>
      (Item(instance[k].id, MergeRequests, index) in handed <==> w.since == 0)
  {
    hide WalkedWhole, RecordDue;
    HandedIsDue(instance, w, normalize, handed, trace, k, Releases, index);
    HandedIsDue(instance, w, normalize, handed, trace, k, MergeRequests, index);
    if index < |instance[k].releases| && !instance[k].releases[index].readable {
      UndatedIsDueExactlyWhen(w, instance[k].releases[index]);
    }
    if index < |instance[k].merges| && !instance[k].merges[index].readable {
      UndatedIsDueExactlyWhen(w, instance[k].merges[index]);
    }
  }

  // ---- What the processor saw ----

  /** The processor saw exactly the activities of what is due. */
  lemma SeenIsExpected(instance: seq<Project>, w: Window, normalize: Normalizer, handed: set<Item>, trace: seq<Event>, e: Event)
    requires WalkedWhole(instance, w, normalize, handed, trace)
    ensures e in trace <==> Expected(e, instance, w, normalize)
  {
    hide Due, ActivitiesOf, Ordered;
    if Expected(e, instance, w, normalize) {
      var k: nat, phase, index :| k < |instance| && From(e, instance, k, phase, index, w, normalize);
      HandedIsDue(instance, w, normalize, handed, trace, k, phase, index);
    }
  }

  /** Two finished walks of one instance and window leave the engine with the same store: every activity
      counts once, whatever either walk was interrupted by and handed over again. */
  lemma {:induction false} InterruptionsDoNotMatter(
      instance: seq<Project>, w: Window, normalize: Normalizer,
      handed: set<Item>, trace: seq<Event>, again: set<Item>, retrace: seq<Event>, catalog: seq<E.Definition>, excluded: set<int>)
    requires WalkedWhole(instance, w, normalize, handed, trace) && WalkedWhole(instance, w, normalize, again, retrace)
    requires Confluence.KeysIdentify(Confluence.Taken(trace, |trace|, excluded))
    ensures
      E.ProcessAll(Confluence.NOTHING, trace, |trace|, catalog, excluded)
      == E.ProcessAll(Confluence.NOTHING, retrace, |retrace|, catalog, excluded)
  {
    hide WalkedWhole, Expected, Confluence.KeysIdentify, E.ProcessAll;
    forall e ensures e in trace <==> e in retrace {
      SeenIsExpected(instance, w, normalize, handed, trace, e);
      SeenIsExpected(instance, w, normalize, again, retrace, e);
    }
    var taken, retaken := Confluence.Taken(trace, |trace|, excluded), Confluence.Taken(retrace, |retrace|, excluded);
    SameTaken(trace, retrace, excluded);
    SameTaken(retrace, trace, excluded);
    assert taken == retaken;
    Confluence.OrderIsImmaterial(trace, retrace, catalog, excluded);
  }

  lemma SameTaken(trace: seq<Event>, retrace: seq<Event>, excluded: set<int>)
    requires forall e :: e in trace ==> e in retrace
    ensures Confluence.Taken(trace, |trace|, excluded) <= Confluence.Taken(retrace, |retrace|, excluded)
  {
    forall e | e in Confluence.Taken(trace, |trace|, excluded) ensures e in Confluence.Taken(retrace, |retrace|, excluded) {
      assert e in trace && e in retrace;
      var i :| 0 <= i < |retrace| && retrace[i] == e;
    }
  }
}
