/** The history's normalizer: from the records of GitLab's APIs to activities. */
module EventsApi {
  import opened Activity
  import P = Pipelines
  import opened DedupKeys

  const NULL_SHA := "0000000000000000000000000000000000000000"
  const BRANCH_REF_PREFIX := "refs/heads/"
  const TAG_REF_PREFIX := "refs/tags/"
  const QUALIFIED_REF := "refs/"

  datatype PushData = PushData(action: string, refType: string, ref: string, commitTo: string, commitCount: int)

  datatype NoteData = NoteData(id: nat, system: bool, noteableType: string)

  /** An event; an empty ref type stands for no push, and an empty slug for no wiki page. */
  datatype ProjectEvent = ProjectEvent(
    author: nat, project: nat, actionName: string, targetType: string, targetId: nat, push: PushData, note: NoteData, slug: string)

  datatype PipelineRecord = PipelineRecord(user: nat, project: nat, id: nat, status: P.Status)

  datatype MergedRecord = MergedRecord(merged: bool, author: nat, project: nat, id: nat)

  datatype ReleaseRecord = ReleaseRecord(author: nat, tag: string)

  // ---- Spellings ----

  function LowerChar(c: char): char {
    if 'A' <= c <= 'Z' then (c as int + 32) as char else c
  }

  function Lower(s: string): string {
    if s == "" then "" else [LowerChar(s[0])] + Lower(s[1..])
  }

  function WithoutUnderscores(s: string): string {
    if s == "" then ""
    else if s[0] == '_' then WithoutUnderscores(s[1..])
    else [s[0]] + WithoutUnderscores(s[1..])
  }

  /** Case and separators are where instances differ. */
  function Fold(raw: string): string {
    Lower(WithoutUnderscores(raw))
  }

  predicate HasPrefix(s: string, prefix: string) {
    |prefix| <= |s| && s[..|prefix|] == prefix
  }

  datatype Target = TargetMergeRequest | TargetIssue | TargetNote | TargetUnknown

  function NormalizeTargetType(raw: string): Target {
    var folded := Fold(raw);
    if folded == "mergerequest" then TargetMergeRequest
    else if folded == "issue" || folded == "workitem" then TargetIssue
    else if folded == "note" || folded == "discussionnote" || folded == "diffnote" then TargetNote
    else TargetUnknown
  }

  // ---- Events ----

  function ActivityFrom(base: Event, kind: Kind, count: int): Event {
    base.(kind := kind, count := count, key := base.key + ":" + KindName(kind))
  }

  /** A base has no kind yet; any will do. */
  function Base(at: Moment, key: string, user: nat, project: nat): Event {
    Event(at, Push, key, user, project, 0)
  }

  function NormalizeProjectEvent(e: ProjectEvent, at: Moment): seq<Event> {
    if e.author == 0 then []
    else if e.push.refType != "" then PushActivities(e, at)
    else TargetActivities(e, at)
  }

  function PushActivities(e: ProjectEvent, at: Moment): seq<Event> {
    var base := Base(at, PushDedupKey(e), e.author, e.project);
    var created := e.push.action == "created";
    [ActivityFrom(base, Push, 1)]
    + if e.push.refType == "tag" then (if created then [ActivityFrom(base, TagCreated, 1)] else [])
      else
        (if created && e.push.refType == "branch" then [ActivityFrom(base, BranchCreated, 1)] else [])
        + (if e.push.commitCount > 0 then [ActivityFrom(base, Commit, e.push.commitCount)] else [])
  }

  /** The ref in full, whichever way it is spelled. */
  function QualifiedRef(e: ProjectEvent): string {
    if HasPrefix(e.push.ref, QUALIFIED_REF) then e.push.ref
    else (if e.push.refType == "tag" then TAG_REF_PREFIX else BRANCH_REF_PREFIX) + e.push.ref
  }

  function PushDedupKey(e: ProjectEvent): string {
    (if e.push.refType == "tag" then "tag_push:" else "push:")
    + Decimal(e.project) + ":" + QualifiedRef(e) + ":" + (if e.push.commitTo == "" then NULL_SHA else e.push.commitTo)
  }

  predicate ReviewNote(e: ProjectEvent) {
    Fold(e.targetType) == "diffnote" && NormalizeTargetType(e.note.noteableType) == TargetMergeRequest
  }

  datatype Tracked = Untracked | Tracked(kind: Kind, key: string)

  function TargetActivities(e: ProjectEvent, at: Moment): seq<Event> {
    var tracked := TargetKind(e);
    if tracked.Untracked? then []
    else
      var base := Event(at, tracked.kind, tracked.key, e.author, e.project, 1);
      if tracked.kind == Comment && ReviewNote(e) then [base, ActivityFrom(base, ReviewComment, 1)] else [base]
  }

  function TargetKind(e: ProjectEvent): Tracked {
    var action := Lower(e.actionName);
    match NormalizeTargetType(e.targetType)
    case TargetMergeRequest => MergeRequestKind(e, action)
    case TargetIssue => IssueKind(e, action)
    case TargetNote =>
      if action != "commented on" || e.note.system then Untracked
      else Tracked(Comment, "note:" + Decimal(if e.note.id != 0 then e.note.id else e.targetId))
    case TargetUnknown => Untracked
  }

  function MergeRequestKind(e: ProjectEvent, action: string): Tracked {
    var key := "merge_request:" + Decimal(e.targetId) + ":";
    if action == "opened" then Tracked(MergeRequestOpened, key + "opened")
    else if action == "accepted" || action == "merged" then Tracked(MergeRequestMerged, key + "merged")
    else if action == "approved" then Tracked(MergeRequestApproved, key + "approved" + ":" + Decimal(e.author))
    else if action == "closed" then Tracked(MergeRequestClosed, key + "closed")
    else Untracked
  }

  function IssueKind(e: ProjectEvent, action: string): Tracked {
    var key := "issue:" + Decimal(e.targetId);
    if action == "opened" then Tracked(IssueOpened, key + ":opened")
    else if action == "closed" then Tracked(IssueClosed, key + ":closed")
    else Untracked
  }

  /** The page's project is known by its path only, as it is to the live path. */
  function NormalizeWikiPageEvent(e: ProjectEvent, path: string, at: Moment): seq<Event> {
    if e.author == 0 || path == "" || e.slug == "" || !HasPrefix(Fold(e.targetType), "wikipage") || Lower(e.actionName) != "created" then []
    else [Event(at, WikiPageCreated, "wiki_page:" + path + ":" + e.slug, e.author, 0, 1)]
  }

  // ---- The other records ----

  function NormalizePipeline(p: PipelineRecord, at: Moment): seq<Event> {
    if p.user == 0 then []
    else
      var base := Base(at, "pipeline:" + Decimal(p.id), p.user, p.project);
      [ActivityFrom(base, PipelineRun, 1)]
      + if p.status == P.Success then [ActivityFrom(base, PipelineSucceeded, 1)]
        else if p.status == P.Failed then [ActivityFrom(base, PipelineFailed, 1)] else []
  }

  function NormalizePipelineFix(p: PipelineRecord, previous: P.Outcome, at: Moment): seq<Event> {
    if previous != P.Ended(P.Failed) || p.status != P.Success || p.user == 0 then []
    else [ActivityFrom(Base(at, "pipeline:" + Decimal(p.id), p.user, p.project), PipelineFixed, 1)]
  }

  function NormalizeMergedMergeRequest(m: MergedRecord, at: Moment): seq<Event> {
    if !m.merged || m.author == 0 then []
    else [Event(at, MergeRequestLanded, "merge_request:" + Decimal(m.id) + ":" + "landed", m.author, m.project, 1)]
  }

  function NormalizeRelease(project: nat, r: ReleaseRecord, at: Moment): seq<Event> {
    if r.author == 0 || r.tag == "" then []
    else [Event(at, ReleasePublished, "release:" + Decimal(project) + ":" + r.tag, r.author, project, 1)]
  }
}
