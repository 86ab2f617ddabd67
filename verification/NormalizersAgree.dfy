/** Both normalizers make the same of the same activity, whichever of its spellings GitLab reports.

    Each part describes one activity, how a hook reports it, and every way a record may. */
module NormalizersAgree {
  import opened Activity
  import P = Pipelines
  import opened DedupKeys
  import W = Webhook
  import A = EventsApi

  /** What the engine goes by, apart from when it was. */
  datatype Fact = Fact(key: string, kind: Kind, actor: int, project: int, weight: int)

  function FactOf(e: Event): Fact {
    Fact(e.key, e.kind, e.actor, e.project, e.Weight())
  }

  function Facts(events: seq<Event>): set<Fact> {
    set e | e in events :: FactOf(e)
  }

  lemma SameFacts(a: seq<Event>, b: seq<Event>)
    requires |a| == |b| && forall i :: 0 <= i < |a| ==> FactOf(a[i]) == FactOf(b[i])
    ensures Facts(a) == Facts(b)
  {
    forall f ensures f in Facts(a) <==> f in Facts(b) {
      if f in Facts(a) {
        var i :| 0 <= i < |a| && FactOf(a[i]) == f;
        assert FactOf(b[i]) == f;
      }
      if f in Facts(b) {
        var i :| 0 <= i < |b| && FactOf(b[i]) == f;
        assert FactOf(a[i]) == f;
      }
    }
  }

  lemma FactsOfOne(e: Event)
    ensures Facts([e]) == {FactOf(e)} && Facts([]) == {}
  {
    assert FactOf([e][0]) in Facts([e]);
  }

  // ---- Pushes ----

  /** A push to a branch or tag; the null SHA stands for a ref that was not there. */
  datatype PushMade = PushMade(user: nat, project: nat, tag: bool, name: string, before: string, after: string, commits: int)

  function PushHook(p: PushMade): W.Hook {
    if p.tag then W.TagEvent(p.user, p.project, A.TAG_REF_PREFIX + p.name, p.before, p.after)
    else W.PushEvent(p.user, p.project, A.BRANCH_REF_PREFIX + p.name, p.before, p.after, p.commits)
  }

  /** Records name a ref in short or in full, and leave a missing commit out or spell it. */
  predicate PushRecorded(p: PushMade, e: A.ProjectEvent) {
    && e.author == p.user && e.project == p.project && e.slug == ""
    && e.push.refType == (if p.tag then "tag" else "branch")
    && (e.push.ref == p.name || e.push.ref == (if p.tag then A.TAG_REF_PREFIX else A.BRANCH_REF_PREFIX) + p.name)
    && (e.push.commitTo == p.after || (p.after == A.NULL_SHA && e.push.commitTo == "")) && p.after != ""
    && (e.push.action == "created" <==> p.before == A.NULL_SHA && p.after != A.NULL_SHA)
    && (!p.tag ==> e.push.commitCount == p.commits)
  }

  lemma QualifiedOnce(p: PushMade, e: A.ProjectEvent)
    requires PushRecorded(p, e)
    ensures
      var full := (if p.tag then A.TAG_REF_PREFIX else A.BRANCH_REF_PREFIX) + p.name;
      A.QualifiedRef(e) == full <==> !(e.push.ref == p.name && A.HasPrefix(p.name, A.QUALIFIED_REF))
  {
    var prefix := if p.tag then A.TAG_REF_PREFIX else A.BRANCH_REF_PREFIX;
    var full := prefix + p.name;
    assert full[..|A.QUALIFIED_REF|] == prefix[..|A.QUALIFIED_REF|] == A.QUALIFIED_REF;
    assert A.HasPrefix(full, A.QUALIFIED_REF);
    assert |full| > |p.name|;
  }

  lemma HookRefIsQualified(p: PushMade)
    ensures W.HasPrefix(A.BRANCH_REF_PREFIX + p.name, W.BRANCH_REF_PREFIX)
  {
  }

  lemma LongerRefLongerKey(head: string, project: string, ref: string, full: string, after: string, name: string)
    requires |ref| < |full|
    ensures head + project + ":" + ref + ":" + after + ":" + name != head + project + ":" + full + ":" + after + ":" + name
  {
    assert |head + project + ":" + ref + ":" + after + ":" + name| < |head + project + ":" + full + ":" + after + ":" + name|;
  }

  /** The two agree on a push unless the record names in short a ref whose own name starts like one in
      full: that ref is taken for qualified as it is. */
  lemma PushesAgree(p: PushMade, e: A.ProjectEvent, at: Moment, bt: Moment)
    requires PushRecorded(p, e)
    ensures
      Facts(W.Normalize(PushHook(p), at)) == Facts(A.NormalizeProjectEvent(e, bt))
      <==> p.user == 0 || !(e.push.ref == p.name && A.HasPrefix(p.name, A.QUALIFIED_REF))
  {
    hide Decimal, W.HasPrefix, KindName;
    QualifiedOnce(p, e);
    HookRefIsQualified(p);
    if p.user != 0 {
      hide W.Normalize, A.NormalizeProjectEvent, Facts;
      if e.push.ref == p.name && A.HasPrefix(p.name, A.QUALIFIED_REF) {
        OtherPush(p, e, at, bt);
      } else {
        SamePush(p, e, at, bt);
      }
    }
  }

  lemma OtherPush(p: PushMade, e: A.ProjectEvent, at: Moment, bt: Moment)
    requires PushRecorded(p, e) && p.user != 0 && e.push.ref == p.name && A.QualifiedRef(e) == p.name
    ensures Facts(W.Normalize(PushHook(p), at)) != Facts(A.NormalizeProjectEvent(e, bt))
  {
    hide Decimal, A.HasPrefix, W.HasPrefix, KindName, A.QualifiedRef;
    var hook, record := W.Normalize(PushHook(p), at), A.NormalizeProjectEvent(e, bt);
    assert record[0].kind == Push && hook[0].kind == Push;
    LongerRefLongerKey(if p.tag then "tag_push:" else "push:", Decimal(p.project), p.name,
                       (if p.tag then A.TAG_REF_PREFIX else A.BRANCH_REF_PREFIX) + p.name, p.after, KindName(Push));
    assert FactOf(record[0]) !in Facts(hook);
    assert FactOf(record[0]) in Facts(record);
  }

  lemma SamePush(p: PushMade, e: A.ProjectEvent, at: Moment, bt: Moment)
    requires PushRecorded(p, e) && p.user != 0
    requires A.QualifiedRef(e) == (if p.tag then A.TAG_REF_PREFIX else A.BRANCH_REF_PREFIX) + p.name
    requires W.HasPrefix(A.BRANCH_REF_PREFIX + p.name, W.BRANCH_REF_PREFIX)
    ensures Facts(W.Normalize(PushHook(p), at)) == Facts(A.NormalizeProjectEvent(e, bt))
  {
    hide Decimal, A.HasPrefix, W.HasPrefix, KindName, A.QualifiedRef, Facts;
    var hook, record := W.Normalize(PushHook(p), at), A.NormalizeProjectEvent(e, bt);
    assert W.NULL_SHA == A.NULL_SHA;
    SameFacts(hook, record);
  }

  // ---- Merge requests ----

  /** Someone doing something to a merge request, in each source's words for it. */
  datatype MergeRequestActed = MergeRequestActed(user: nat, project: nat, id: nat, author: nat, live: string, createdAt: W.Stamp, updatedAt: W.Stamp)

  /** The hook's word for an action and the record's mean the same, or are both words for one not tracked. */
  predicate SameAction(live: string, recorded: string) {
    && (live == "open" <==> recorded == "opened")
    && (live == "merge" <==> recorded == "accepted" || recorded == "merged")
    && (live == "close" <==> recorded == "closed")
    && (live == "approval" || live == "approved" <==> recorded == "approved")
  }

  predicate MergeRequestRecorded(m: MergeRequestActed, e: A.ProjectEvent) {
    && e.author == m.user && e.project == m.project && e.targetId == m.id && e.push.refType == "" && e.slug == ""
    && A.NormalizeTargetType(e.targetType) == A.TargetMergeRequest && SameAction(m.live, A.Lower(e.actionName))
  }

  /** What only a hook can tell: that a merge was quick. */
  function Shared(facts: set<Fact>): set<Fact> {
    set f | f in facts && f.kind != MergeRequestMergedFast && f.kind != DiscussionResolved
  }

  /** An action's record, and for a merge also the merge request's own record, come to what the hook
      does, but for quick merges. A merge by nobody known is the exception: its hook is dropped whole. */
  lemma MergeRequestsAgree(m: MergeRequestActed, e: A.ProjectEvent, at: Moment, bt: Moment, ct: Moment)
    requires MergeRequestRecorded(m, e)
    ensures
      var hook := W.MergeEvent(m.user, m.project, m.id, m.live, m.author, m.createdAt, m.updatedAt);
      var landing := A.NormalizeMergedMergeRequest(A.MergedRecord(m.live == "merge", m.author, m.project, m.id), ct);
      Shared(Facts(W.Normalize(hook, at))) == Facts(A.NormalizeProjectEvent(e, bt)) + Facts(landing)
      <==> m.user != 0 || m.live != "merge" || m.author == 0
  {
    hide Decimal, A.NormalizeTargetType, A.Lower;
    var hook := W.MergeEvent(m.user, m.project, m.id, m.live, m.author, m.createdAt, m.updatedAt);
    var landing := A.NormalizeMergedMergeRequest(A.MergedRecord(m.live == "merge", m.author, m.project, m.id), ct);
    var live, record := W.Normalize(hook, at), A.NormalizeProjectEvent(e, bt);
    if m.user == 0 {
      assert live == [] && record == [];
      if m.live == "merge" && m.author != 0 { assert FactOf(landing[0]) in Facts(landing); }
    } else if m.live == "merge" {
      MergesAgree(m, e, at, bt, ct);
    } else {
      assert landing == [];
      OtherActionsAgree(m, e, at, bt);
    }
  }

  lemma OtherActionsAgree(m: MergeRequestActed, e: A.ProjectEvent, at: Moment, bt: Moment)
    requires MergeRequestRecorded(m, e) && m.user != 0 && m.live != "merge"
    ensures
      Shared(Facts(W.Normalize(W.MergeEvent(m.user, m.project, m.id, m.live, m.author, m.createdAt, m.updatedAt), at)))
      == Facts(A.NormalizeProjectEvent(e, bt))
  {
    hide Decimal, A.NormalizeTargetType, A.Lower;
    var live := W.Normalize(W.MergeEvent(m.user, m.project, m.id, m.live, m.author, m.createdAt, m.updatedAt), at);
    var record := A.NormalizeProjectEvent(e, bt);
    assert |live| == |record| <= 1;
    if |live| == 1 {
      assert FactOf(live[0]) == FactOf(record[0]);
      assert live[0].kind != MergeRequestMergedFast && live[0].kind != DiscussionResolved;
    }
    SameFacts(live, record);
    assert forall f :: f in Facts(live) ==> f == FactOf(live[0]);
    assert Shared(Facts(live)) == Facts(live);
  }

  lemma SharedOfMerge(live: seq<Event>, merged: Fact, landings: set<Fact>)
    requires |live| > 0 && FactOf(live[0]) == merged && merged.kind == MergeRequestMerged
    requires forall f :: f in landings ==> f.kind == MergeRequestLanded && f in Facts(live)
    requires forall i :: 0 <= i < |live| ==> live[i].kind == MergeRequestMergedFast || FactOf(live[i]) == merged || FactOf(live[i]) in landings
    ensures Shared(Facts(live)) == {merged} + landings
  {
    assert live[0] in live;
  }

  lemma MergesAgree(m: MergeRequestActed, e: A.ProjectEvent, at: Moment, bt: Moment, ct: Moment)
    requires MergeRequestRecorded(m, e) && m.user != 0 && m.live == "merge"
    ensures
      Shared(Facts(W.Normalize(W.MergeEvent(m.user, m.project, m.id, m.live, m.author, m.createdAt, m.updatedAt), at)))
      == Facts(A.NormalizeProjectEvent(e, bt)) + Facts(A.NormalizeMergedMergeRequest(A.MergedRecord(true, m.author, m.project, m.id), ct))
  {
    hide Decimal, A.NormalizeTargetType, A.Lower, Facts, Shared;
    var live := W.Normalize(W.MergeEvent(m.user, m.project, m.id, m.live, m.author, m.createdAt, m.updatedAt), at);
    var record := A.NormalizeProjectEvent(e, bt);
    var landing := A.NormalizeMergedMergeRequest(A.MergedRecord(true, m.author, m.project, m.id), ct);
    var key := "merge_request:" + Decimal(m.id) + ":";
    var merged, landed := Fact(key + "merged", MergeRequestMerged, m.user, m.project, 1), Fact(key + "landed", MergeRequestLanded, m.author, m.project, 1);
    assert |record| == 1 && FactOf(record[0]) == merged;
    FactsOfOne(record[0]);
    assert record == [record[0]];
    if m.author != 0 {
      FactsOfOne(landing[0]);
      InFacts(live, |live| - 1);
      assert FactOf(live[|live| - 1]) == landed;
      SharedOfMerge(live, merged, {landed});
    } else {
      FactsOfOne(record[0]);
      assert landing == [];
      SharedOfMerge(live, merged, {});
    }
  }

  lemma InFacts(events: seq<Event>, i: nat)
    requires i < |events|
    ensures FactOf(events[i]) in Facts(events)
  {
    assert events[i] in events;
  }

  // ---- Issues and comments ----

  predicate IssueRecorded(user: nat, project: nat, id: nat, live: string, e: A.ProjectEvent) {
    && e.author == user && e.project == project && e.targetId == id && e.push.refType == "" && e.slug == ""
    && A.NormalizeTargetType(e.targetType) == A.TargetIssue
    && (live == "open" <==> A.Lower(e.actionName) == "opened") && (live == "close" <==> A.Lower(e.actionName) == "closed")
  }

  lemma IssuesAgree(user: nat, project: nat, id: nat, live: string, e: A.ProjectEvent, at: Moment, bt: Moment)
    requires IssueRecorded(user, project, id, live, e)
    ensures Facts(W.Normalize(W.IssueEvent(user, project, id, live), at)) == Facts(A.NormalizeProjectEvent(e, bt))
  {
    hide Decimal, A.NormalizeTargetType, A.Lower, Facts;
    SameFacts(W.Normalize(W.IssueEvent(user, project, id, live), at), A.NormalizeProjectEvent(e, bt));
  }

  /** A comment, on a line of a diff or not. */
  predicate CommentRecorded(hook: W.Hook, e: A.ProjectEvent)
    requires hook.CommentEvent?
  {
    && e.author == hook.author && e.project == hook.project && e.push.refType == "" && e.slug == ""
    && hook.id != 0 && (e.note.id == hook.id || (e.note.id == 0 && e.targetId == hook.id)) && e.note.system == hook.system
    && A.NormalizeTargetType(e.targetType) == A.TargetNote && A.Lower(e.actionName) == "commented on"
    && (hook.on.OnMergeRequest? <==> A.NormalizeTargetType(e.note.noteableType) == A.TargetMergeRequest)
    && (hook.on.OnMergeRequest? ==> (hook.noteType == W.DIFF_NOTE_TYPE <==> A.Fold(e.targetType) == "diffnote"))
  }

  lemma CommentsRecord(hook: W.Hook, e: A.ProjectEvent, at: Moment)
    requires hook.CommentEvent? && CommentRecorded(hook, e)
    ensures
      var record, base := A.NormalizeProjectEvent(e, at), Event(at, Comment, "note:" + Decimal(hook.id), hook.author, hook.project, 1);
      record
      == if hook.system || hook.author == 0 then []
         else [base] + if hook.on.OnMergeRequest? && hook.noteType == W.DIFF_NOTE_TYPE then [A.ActivityFrom(base, ReviewComment, 1)] else []
  {
    hide Decimal, A.Lower, KindName;
    if hook.author != 0 && !hook.system {
      assert A.TargetKind(e) == A.Tracked(Comment, "note:" + Decimal(hook.id));
      assert A.ReviewNote(e) <==> hook.on.OnMergeRequest? && hook.noteType == W.DIFF_NOTE_TYPE by { ReviewsAgree(hook, e); }
    }
  }

  lemma ReviewsAgree(hook: W.Hook, e: A.ProjectEvent)
    requires hook.CommentEvent? && CommentRecorded(hook, e)
    ensures A.ReviewNote(e) <==> hook.on.OnMergeRequest? && hook.noteType == W.DIFF_NOTE_TYPE
  {
    hide A.Fold, A.NormalizeTargetType, A.Lower;
  }

  /** What a merge request's hook adds to a comment is kept apart: only the resolution is not shared. */
  lemma SharedOf(events: seq<Event>, resolutions: seq<Event>)
    requires forall i :: 0 <= i < |events| ==> events[i].kind != MergeRequestMergedFast && events[i].kind != DiscussionResolved
    requires forall i :: 0 <= i < |resolutions| ==> resolutions[i].kind == DiscussionResolved
    ensures Shared(Facts(events + resolutions)) == Facts(events)
  {
    var live := events + resolutions;
    forall f ensures f in Shared(Facts(live)) <==> f in Facts(events) {
      if f in Shared(Facts(live)) {
        var i :| 0 <= i < |live| && FactOf(live[i]) == f;
        assert i < |events| && events[i] == live[i];
      }
      if f in Facts(events) {
        var i :| 0 <= i < |events| && FactOf(events[i]) == f;
        assert live[i] == events[i];
      }
    }
  }

  /** A comment's record comes to what its hook does, but for the resolution of a thread. */
  lemma CommentsAgree(hook: W.Hook, e: A.ProjectEvent, at: Moment, bt: Moment)
    requires hook.CommentEvent? && CommentRecorded(hook, e)
    ensures Shared(Facts(W.Normalize(hook, at))) == Facts(A.NormalizeProjectEvent(e, bt))
  {
    hide Decimal, CommentRecorded, A.NormalizeProjectEvent, KindName, Facts;
    var notes, record := W.NormalizeNote(hook, at), A.NormalizeProjectEvent(e, bt);
    var reviews := if hook.on.OnMergeRequest? && hook.noteType == W.DIFF_NOTE_TYPE && |notes| > 0 then [W.ActivityFrom(notes[0], ReviewComment, 1)] else [];
    var resolutions := if hook.on.OnMergeRequest? then W.NormalizeResolution(hook, at) else [];
    assert W.Normalize(hook, at) == notes + reviews + resolutions;
    CommentsRecord(hook, e, bt);
    SameFacts(notes + reviews, record);
    SharedOf(notes + reviews, resolutions);
  }

  // ---- Pipelines, releases and wiki pages ----

  /** A pipeline's run, outcome and fix agree, given the same outcome before it; a fix on no ref or in no
      project is one that only the history reports. */
  lemma PipelinesAgree(user: nat, project: nat, id: nat, ref: string, status: P.Status, previous: P.Outcome, at: Moment, bt: Moment)
    ensures
      var hook, record := W.PipelineEvent(user, project, id, ref, status), A.PipelineRecord(user, project, id, status);
      Facts(W.Normalize(hook, at)) == Facts(A.NormalizePipeline(record, bt))
      && (Facts(W.NormalizePipelineFix(hook, previous, at)) == Facts(A.NormalizePipelineFix(record, previous, bt))
          <==> (ref != "" && project != 0) || user == 0 || previous != P.Ended(P.Failed) || status != P.Success)
  {
    hide Decimal, KindName;
    var hook, record := W.PipelineEvent(user, project, id, ref, status), A.PipelineRecord(user, project, id, status);
    SameFacts(W.Normalize(hook, at), A.NormalizePipeline(record, bt));
    var live, history := W.NormalizePipelineFix(hook, previous, at), A.NormalizePipelineFix(record, previous, bt);
    if |live| == |history| {
      SameFacts(live, history);
    } else {
      assert live == [] && FactOf(history[0]) in Facts(history);
    }
  }

  lemma ReleasesAgree(project: nat, author: nat, tag: string, at: Moment, bt: Moment)
    requires project != 0
    ensures Facts(W.NormalizeRelease(project, tag, "create", author, at)) == Facts(A.NormalizeRelease(project, A.ReleaseRecord(author, tag), bt))
  {
    hide Decimal, Facts;
    SameFacts(W.NormalizeRelease(project, tag, "create", author, at), A.NormalizeRelease(project, A.ReleaseRecord(author, tag), bt));
  }

  predicate WikiPageRecorded(user: nat, slug: string, live: string, e: A.ProjectEvent) {
    && e.author == user && e.slug == slug && e.push.refType == "" && A.HasPrefix(A.Fold(e.targetType), "wikipage")
    && (live == "create" <==> A.Lower(e.actionName) == "created")
  }

  /** A walk reads every event both ways, and a wiki page's is of interest one way only. */
  lemma WikiPagesAgree(user: nat, path: string, slug: string, live: string, e: A.ProjectEvent, at: Moment, bt: Moment)
    requires WikiPageRecorded(user, slug, live, e) && path != ""
    ensures
      Facts(W.Normalize(W.WikiPageEvent(user, path, slug, live), at))
      == Facts(A.NormalizeProjectEvent(e, bt) + A.NormalizeWikiPageEvent(e, path, bt))
  {
    hide Facts, A.Lower, A.Fold, A.HasPrefix, A.NormalizeTargetType;
    WikiPagesAreUnknown(e);
    assert A.NormalizeProjectEvent(e, bt) == [];
    SameFacts(W.Normalize(W.WikiPageEvent(user, path, slug, live), at), A.NormalizeProjectEvent(e, bt) + A.NormalizeWikiPageEvent(e, path, bt));
  }

  /** No event of another kind is taken for a wiki page. */
  lemma OthersAreNoWikiPages(e: A.ProjectEvent, path: string, at: Moment)
    requires e.slug == "" || A.NormalizeTargetType(e.targetType) != A.TargetUnknown
    ensures A.NormalizeWikiPageEvent(e, path, at) == []
  {
    hide A.Fold, A.HasPrefix, A.NormalizeTargetType;
    if A.HasPrefix(A.Fold(e.targetType), "wikipage") { WikiPagesAreUnknown(e); }
  }

  /** A wiki page is no target of any other kind. */
  lemma WikiPagesAreUnknown(e: A.ProjectEvent)
    requires A.HasPrefix(A.Fold(e.targetType), "wikipage")
    ensures A.NormalizeTargetType(e.targetType) == A.TargetUnknown
  {
    hide A.Fold;
    var folded := A.Fold(e.targetType);
    assert folded[0] == 'w' && folded[1] == 'i';
    assert folded != "workitem";
  }
}
