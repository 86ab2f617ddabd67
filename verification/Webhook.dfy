/** The live path's normalizer: from webhook payloads to activities. A user of 0 stands for none. */
module Webhook {
  import opened Activity
  import P = Pipelines
  import opened DedupKeys

  const NULL_SHA := "0000000000000000000000000000000000000000"
  const BRANCH_REF_PREFIX := "refs/heads/"
  const DIFF_NOTE_TYPE := "DiffNote"
  const FAST_MERGE_WINDOW := 3600

  /** A payload's timestamp, in seconds, if it is spelled in a known way. */
  datatype Stamp = Unknown | Known(seconds: int)

  datatype NoteTarget = OnCommit | OnIssue | OnMergeRequest | OnSnippet

  datatype Hook =
    | PushEvent(user: nat, project: nat, ref: string, before: string, after: string, commits: int)
    | TagEvent(user: nat, project: nat, ref: string, before: string, after: string)
    | MergeEvent(user: nat, project: nat, id: nat, action: string, author: nat, createdAt: Stamp, updatedAt: Stamp)
    | IssueEvent(user: nat, project: nat, id: nat, action: string)
    | CommentEvent(on: NoteTarget, author: nat, project: nat, id: nat, system: bool, noteType: string, resolved: bool, resolver: nat, discussion: string)
    | PipelineEvent(user: nat, project: nat, id: nat, ref: string, status: P.Status)
    | JobEvent(user: nat, project: nat, id: nat)
    | DeploymentEvent(user: nat, project: nat, id: nat, successful: bool)
    | EmojiEvent(user: nat, project: nat, id: nat, eventType: string, action: string)
    | WikiPageEvent(user: nat, path: string, slug: string, action: string)

  predicate HasPrefix(s: string, prefix: string) {
    |prefix| <= |s| && s[..|prefix|] == prefix
  }

  /** Scopes a record's key to the kind, so that its several activities stay apart. */
  function ActivityFrom(base: Event, kind: Kind, count: int): Event {
    base.(kind := kind, count := count, key := base.key + ":" + KindName(kind))
  }

  /** A base has no kind yet; any will do. */
  function Base(at: Moment, key: string, user: nat, project: nat): Event {
    Event(at, Push, key, user, project, 0)
  }

  function Normalize(hook: Hook, at: Moment): seq<Event> {
    match hook
    case PushEvent(_, _, _, _, _, _) => NormalizePush(hook, at)
    case TagEvent(_, _, _, _, _) => NormalizeTagPush(hook, at)
    case MergeEvent(_, _, _, _, _, _, _) => NormalizeMergeRequest(hook, at)
    case IssueEvent(_, _, _, _) => NormalizeIssue(hook, at)
    case CommentEvent(_, _, _, _, _, _, _, _, _) => NormalizeComment(hook, at)
    case PipelineEvent(_, _, _, _, _) => NormalizePipeline(hook, at)
    case JobEvent(user, project, id) =>
      if user == 0 then [] else [Event(at, JobRun, "job:" + Decimal(id), user, project, 1)]
    case DeploymentEvent(user, project, id, successful) =>
      if user == 0 then []
      else
        var base := Base(at, "deployment:" + Decimal(id), user, project);
        [ActivityFrom(base, Deployment, 1)] + if successful then [ActivityFrom(base, DeploymentSucceeded, 1)] else []
    case EmojiEvent(user, project, id, eventType, action) =>
      if user == 0 || (if eventType == "" then action else eventType) != "award" then []
      else [Event(at, EmojiAwarded, "emoji:" + Decimal(id), user, project, 1)]
    case WikiPageEvent(user, path, slug, action) =>
      if user == 0 || action != "create" || slug == "" then []
      else [Event(at, WikiPageCreated, "wiki_page:" + path + ":" + slug, user, 0, 1)]
  }

  function NormalizePush(e: Hook, at: Moment): seq<Event>
    requires e.PushEvent?
  {
    if e.user == 0 then []
    else
      var base := Base(at, "push:" + Decimal(e.project) + ":" + e.ref + ":" + e.after, e.user, e.project);
      [ActivityFrom(base, Push, 1)]
      + (if e.before == NULL_SHA && e.after != NULL_SHA && HasPrefix(e.ref, BRANCH_REF_PREFIX) then [ActivityFrom(base, BranchCreated, 1)] else [])
      + (if e.commits > 0 then [ActivityFrom(base, Commit, e.commits)] else [])
  }

  /** A tag's commits were counted when some branch delivered them. */
  function NormalizeTagPush(e: Hook, at: Moment): seq<Event>
    requires e.TagEvent?
  {
    if e.user == 0 then []
    else
      var base := Base(at, "tag_push:" + Decimal(e.project) + ":" + e.ref + ":" + e.after, e.user, e.project);
      [ActivityFrom(base, Push, 1)] + if e.before == NULL_SHA && e.after != NULL_SHA then [ActivityFrom(base, TagCreated, 1)] else []
  }

  datatype Tracked = Untracked | Tracked(kind: Kind, name: string)

  function MergeRequestKind(action: string): Tracked {
    if action == "open" then Tracked(MergeRequestOpened, "opened")
    else if action == "merge" then Tracked(MergeRequestMerged, "merged")
    else if action == "close" then Tracked(MergeRequestClosed, "closed")
    else if action == "approval" || action == "approved" then Tracked(MergeRequestApproved, "approved")
    else Untracked
  }

  predicate MergedFast(createdAt: Stamp, mergedAt: Stamp) {
    createdAt.Known? && mergedAt.Known? && 0 <= mergedAt.seconds - createdAt.seconds <= FAST_MERGE_WINDOW
  }

  function NormalizeMergeRequest(e: Hook, at: Moment): seq<Event>
    requires e.MergeEvent?
  {
    var tracked := MergeRequestKind(e.action);
    if e.user == 0 || tracked.Untracked? then []
    else
      var key := "merge_request:" + Decimal(e.id) + ":" + tracked.name;
      var base := Event(at, tracked.kind, if tracked.kind == MergeRequestApproved then key + ":" + Decimal(e.user) else key, e.user, e.project, 1);
      if tracked.kind != MergeRequestMerged then [base] else [base] + MergeFollowUps(e, base)
  }

  /** A fast merge is whoever merged's; the landing is its author's. */
  function MergeFollowUps(e: Hook, merged: Event): seq<Event>
    requires e.MergeEvent?
  {
    var key := "merge_request:" + Decimal(e.id) + ":";
    (if MergedFast(e.createdAt, e.updatedAt) then [merged.(kind := MergeRequestMergedFast, key := key + "merged_fast")] else [])
    + (if e.author != 0 then [merged.(kind := MergeRequestLanded, key := key + "landed", actor := e.author)] else [])
  }

  function NormalizeIssue(e: Hook, at: Moment): seq<Event>
    requires e.IssueEvent?
  {
    if e.user == 0 then []
    else if e.action == "open" then [Event(at, IssueOpened, "issue:" + Decimal(e.id) + ":opened", e.user, e.project, 1)]
    else if e.action == "close" then [Event(at, IssueClosed, "issue:" + Decimal(e.id) + ":closed", e.user, e.project, 1)]
    else []
  }

  function NormalizeNote(e: Hook, at: Moment): seq<Event>
    requires e.CommentEvent?
  {
    if e.system || e.author == 0 then []
    else [Event(at, Comment, "note:" + Decimal(e.id), e.author, e.project, 1)]
  }

  function NormalizeComment(e: Hook, at: Moment): seq<Event>
    requires e.CommentEvent?
  {
    var notes := NormalizeNote(e, at);
    if !e.on.OnMergeRequest? then notes
    else
      notes
      + (if e.noteType != DIFF_NOTE_TYPE || |notes| == 0 then [] else [ActivityFrom(notes[0], ReviewComment, 1)])
      + NormalizeResolution(e, at)
  }

  function DiscussionResolvedKey(discussion: string): string {
    "discussion:" + discussion + ":resolved"
  }

  function NormalizeResolution(e: Hook, at: Moment): seq<Event>
    requires e.CommentEvent?
  {
    if !e.resolved || e.resolver == 0 then []
    else
      var key := if e.discussion == "" then "discussion:note:" + Decimal(e.id) + ":resolved" else DiscussionResolvedKey(e.discussion);
      [Event(at, DiscussionResolved, key, e.resolver, e.project, 1)]
  }

  function NormalizePipeline(e: Hook, at: Moment): seq<Event>
    requires e.PipelineEvent?
  {
    if e.user == 0 then []
    else
      var base := Base(at, "pipeline:" + Decimal(e.id), e.user, e.project);
      [ActivityFrom(base, PipelineRun, 1)]
      + if e.status == P.Success then [ActivityFrom(base, PipelineSucceeded, 1)]
        else if e.status == P.Failed then [ActivityFrom(base, PipelineFailed, 1)] else []
  }

  predicate PipelinePassed(e: Hook)
    requires e.PipelineEvent?
  {
    e.user != 0 && e.project != 0 && e.ref != "" && e.status == P.Success
  }

  function NormalizePipelineFix(e: Hook, previous: P.Outcome, at: Moment): seq<Event>
    requires e.PipelineEvent?
  {
    if previous != P.Ended(P.Failed) || !PipelinePassed(e) then []
    else [ActivityFrom(Base(at, "pipeline:" + Decimal(e.id), e.user, e.project), PipelineFixed, 1)]
  }

  /** A release hook names nobody: its author is looked up. */
  function NormalizeRelease(project: nat, tag: string, action: string, author: nat, at: Moment): seq<Event> {
    if action != "create" || project == 0 || tag == "" || author == 0 then []
    else [Event(at, ReleasePublished, "release:" + Decimal(project) + ":" + tag, author, project, 1)]
  }

  // ---- Discussions ----

  /** A discussion's note; one that is missing is one that cannot be resolved. */
  datatype Note = Note(resolvable: bool, resolved: bool, resolver: nat, resolvedAt: Stamp)

  datatype Discussion = Discussion(id: string, individual: bool, notes: seq<Note>)

  predicate Open(note: Note) {
    note.resolvable && (!note.resolved || note.resolver == 0)
  }

  /** Resolved after another; a resolution without a time is before any with one. */
  predicate Later(a: Note, b: Note) {
    a.resolvedAt.Known? && (b.resolvedAt.Unknown? || a.resolvedAt.seconds > b.resolvedAt.seconds)
  }

  /** No resolvable note is open, and this one was resolved last: after all the earlier ones, and no earlier
      than the later ones. */
  ghost predicate ResolvedLast(notes: seq<Note>, last: nat) {
    && last < |notes| && notes[last].resolvable
    && (forall j :: 0 <= j < |notes| ==> !Open(notes[j]))
    && (forall j :: 0 <= j < last && notes[j].resolvable ==> Later(notes[last], notes[j]))
    && (forall j :: last < j < |notes| && notes[j].resolvable ==> !Later(notes[j], notes[last]))
  }

  lemma ResolvedLastIsUnique(notes: seq<Note>, i: nat, j: nat)
    requires ResolvedLast(notes, i) && ResolvedLast(notes, j)
    ensures i == j
  {
  }

  /** The last of the first n notes to be resolved; |notes| for none, or when one is open. */
  function LastResolved(notes: seq<Note>, n: nat): (last: nat)
    requires n <= |notes|
    ensures last < n || last == |notes|
    ensures last < n ==> notes[last].resolvable
  {
    if n == 0 then |notes|
    else
      var last, note := LastResolved(notes, n - 1), notes[n - 1];
      if !note.resolvable || AnyOpen(notes, n - 1) then last
      else if Open(note) then |notes|
      else if last == |notes| || Later(note, notes[last]) then n - 1
      else last
  }

  predicate AnyOpen(notes: seq<Note>, n: nat)
    requires n <= |notes|
  {
    exists j :: 0 <= j < n && Open(notes[j])
  }

  lemma {:induction false} LastResolvedIs(notes: seq<Note>, n: nat)
    requires n <= |notes|
    ensures
      var last := LastResolved(notes, n);
      if AnyOpen(notes, n) || forall j :: 0 <= j < n ==> !notes[j].resolvable then last == |notes|
      else last < n && ResolvedLast(notes[..n], last)
  {
    if n > 0 { LastResolvedIs(notes, n - 1); }
  }

  method LastResolvedNote(notes: seq<Note>) returns (last: nat)
    ensures last == LastResolved(notes, |notes|)
  {
    last := |notes|;
    for i := 0 to |notes|
      invariant !AnyOpen(notes, i) && last == LastResolved(notes, i)
    {
      if !notes[i].resolvable {
        continue;
      }
      if !notes[i].resolved || notes[i].resolver == 0 {
        StaysOpen(notes, i + 1, |notes|);
        return |notes|;
      }
      if last == |notes| || Later(notes[i], notes[last]) {
        last := i;
      }
    }
  }

  lemma {:induction false} StaysOpen(notes: seq<Note>, n: nat, m: nat)
    requires n <= m <= |notes| && AnyOpen(notes, n)
    ensures LastResolved(notes, m) == |notes| && AnyOpen(notes, m)
    decreases m
  {
    LastResolvedIs(notes, m);
  }

  /** A thread counts once every one of its resolvable notes is resolved, for whoever resolved the last. */
  function NormalizeDiscussion(d: Discussion, project: nat, at: Moment): seq<Event> {
    var last := LastResolved(d.notes, |d.notes|);
    if d.individual || d.id == "" || last == |d.notes| then []
    else [Event(at, DiscussionResolved, DiscussionResolvedKey(d.id), d.notes[last].resolver, project, 1)]
  }

  /** It does so exactly when it is a thread with some resolvable note and none open, and then credits the
      one user whose note was resolved last. */
  lemma DiscussionCountsExactlyWhen(d: Discussion, project: nat, at: Moment)
    ensures
      var events := NormalizeDiscussion(d, project, at);
      if d.individual || d.id == "" || AnyOpen(d.notes, |d.notes|) || forall j :: 0 <= j < |d.notes| ==> !d.notes[j].resolvable then events == []
      else |events| == 1 && exists last: nat :: ResolvedLast(d.notes, last) && events[0].actor == d.notes[last].resolver != 0
  {
    LastResolvedIs(d.notes, |d.notes|);
    assert d.notes[..|d.notes|] == d.notes;
  }

  // ---- Everything the live path counts ----

  /** A payload on its own, a pipeline known to have followed another, a release looked up, or a discussion
      read from the API. */
  datatype Source =
    | Payload(hook: Hook)
    | FixedPipeline(hook: Hook, previous: P.Outcome)
    | LookedUpRelease(project: nat, tag: string, action: string, author: nat)
    | ReadDiscussion(discussion: Discussion, mergeRequestProject: nat)

  predicate ValidSource(source: Source) {
    source.FixedPipeline? ==> source.hook.PipelineEvent?
  }

  function Activities(source: Source, at: Moment): seq<Event>
    requires ValidSource(source)
  {
    match source
    case Payload(hook) => Normalize(hook, at)
    case FixedPipeline(hook, previous) => NormalizePipelineFix(hook, previous, at)
    case LookedUpRelease(project, tag, action, author) => NormalizeRelease(project, tag, action, author, at)
    case ReadDiscussion(discussion, project) => NormalizeDiscussion(discussion, project, at)
  }

  // ---- Keys are in the grammar ----

  datatype KindOfKey = NoKind | OfKind(kind: Kind)

  function KeyKind(key: Key): KindOfKey {
    match key
    case PushKey(_, _, _, kind) => OfKind(kind)
    case TagPushKey(_, _, _, kind) => OfKind(kind)
    case MergeRequestKey(_, action) =>
      if action == "opened" then OfKind(MergeRequestOpened)
      else if action == "merged" then OfKind(MergeRequestMerged)
      else if action == "closed" then OfKind(MergeRequestClosed)
      else if action == "merged_fast" then OfKind(MergeRequestMergedFast)
      else if action == "landed" then OfKind(MergeRequestLanded)
      else NoKind
    case ApprovalKey(_, _) => OfKind(MergeRequestApproved)
    case IssueKey(_, action) => if action == "opened" then OfKind(IssueOpened) else if action == "closed" then OfKind(IssueClosed) else NoKind
    case NoteKey(_) => OfKind(Comment)
    case ReviewKey(_) => OfKind(ReviewComment)
    case DiscussionKey(_) => OfKind(DiscussionResolved)
    case DiscussionNoteKey(_) => OfKind(DiscussionResolved)
    case PipelineKey(_, kind) => OfKind(kind)
    case JobKey(_) => OfKind(JobRun)
    case DeploymentKey(_, kind) => OfKind(kind)
    case EmojiKey(_) => OfKind(EmojiAwarded)
    case ReleaseKey(_, _) => OfKind(ReleasePublished)
    case WikiPageKey(_, _) => OfKind(WikiPageCreated)
  }

  predicate HasKind(key: Key, kind: Kind) {
    KeyKind(key) == OfKind(kind)
  }

  /** Git allows no colon in a ref, nor GitLab in a path; commits and discussion IDs are hexadecimal. */
  predicate Plausible(hook: Hook) {
    match hook
    case PushEvent(_, _, ref, _, after, _) => Plain(ref) && Plain(after)
    case TagEvent(_, _, ref, _, after) => Plain(ref) && Plain(after)
    case CommentEvent(_, _, _, _, _, _, _, _, discussion) => Plain(discussion)
    case WikiPageEvent(_, path, _, _) => Plain(path)
    case _ => true
  }

  /** What the activity is, told by its kind and the payload it came in. */
  function KeyOf(hook: Hook, kind: Kind): Key {
    match hook
    case PushEvent(_, project, ref, _, after, _) => PushKey(project, ref, after, kind)
    case TagEvent(_, project, ref, _, after) => TagPushKey(project, ref, after, kind)
    case MergeEvent(user, _, id, _, _, _, _) =>
      if kind == MergeRequestApproved then ApprovalKey(id, user)
      else MergeRequestKey(id, if kind == MergeRequestOpened then "opened" else if kind == MergeRequestMerged then "merged"
                               else if kind == MergeRequestClosed then "closed" else if kind == MergeRequestMergedFast then "merged_fast" else "landed")
    case IssueEvent(_, _, id, _) => IssueKey(id, if kind == IssueOpened then "opened" else "closed")
    case CommentEvent(_, _, _, id, _, _, _, _, discussion) =>
      if kind == Comment then NoteKey(id) else if kind == ReviewComment then ReviewKey(id)
      else if discussion == "" then DiscussionNoteKey(id) else DiscussionKey(discussion)
    case PipelineEvent(_, _, id, _, _) => PipelineKey(id, kind)
    case JobEvent(_, _, id) => JobKey(id)
    case DeploymentEvent(_, _, id, _) => DeploymentKey(id, kind)
    case EmojiEvent(_, _, id, _, _) => EmojiKey(id)
    case WikiPageEvent(_, path, slug, _) => WikiPageKey(path, slug)
  }

  lemma JoinTwo(a: string, b: string)
    ensures Join([a, b]) == a + ":" + b
  {
  }

  lemma JoinThree(a: string, b: string, c: string)
    ensures Join([a, b, c]) == a + ":" + b + ":" + c
  {
    assert [a, b, c][1..] == [b, c];
    JoinTwo(b, c);
  }

  lemma JoinFour(a: string, b: string, c: string, d: string)
    ensures Join([a, b, c, d]) == a + ":" + b + ":" + c + ":" + d
  {
    assert [a, b, c, d][1..] == [b, c, d];
    JoinThree(b, c, d);
  }

  lemma JoinFive(a: string, b: string, c: string, d: string, e: string)
    ensures Join([a, b, c, d, e]) == a + ":" + b + ":" + c + ":" + d + ":" + e
  {
    assert [a, b, c, d, e][1..] == [b, c, d, e];
    JoinFour(b, c, d, e);
  }

  lemma RenderPush(project: nat, ref: string, after: string, kind: Kind)
    ensures Render(PushKey(project, ref, after, kind)) == "push:" + Decimal(project) + ":" + ref + ":" + after + ":" + KindName(kind)
    ensures Render(TagPushKey(project, ref, after, kind)) == "tag_push:" + Decimal(project) + ":" + ref + ":" + after + ":" + KindName(kind)
  {
    hide Join, Decimal, KindName;
    JoinFive("push", Decimal(project), ref, after, KindName(kind));
    JoinFive("tag_push", Decimal(project), ref, after, KindName(kind));
    assert "push" + ":" == "push:" && "tag_push" + ":" == "tag_push:";
  }

  lemma RenderMergeRequest(id: nat, action: string, approver: nat)
    ensures Render(MergeRequestKey(id, action)) == "merge_request:" + Decimal(id) + ":" + action
    ensures Render(ApprovalKey(id, approver)) == "merge_request:" + Decimal(id) + ":" + "approved" + ":" + Decimal(approver)
  {
    hide Join, Decimal;
    JoinThree("merge_request", Decimal(id), action);
    JoinFour("merge_request", Decimal(id), "approved", Decimal(approver));
    assert "merge_request" + ":" == "merge_request:";
  }

  lemma RenderIssue(id: nat)
    ensures Render(IssueKey(id, "opened")) == "issue:" + Decimal(id) + ":opened"
    ensures Render(IssueKey(id, "closed")) == "issue:" + Decimal(id) + ":closed"
  {
    hide Join, Decimal;
    JoinThree("issue", Decimal(id), "opened");
    JoinThree("issue", Decimal(id), "closed");
    assert "issue" + ":" == "issue:" && ":" + "opened" == ":opened" && ":" + "closed" == ":closed";
  }

  lemma RenderNote(id: nat)
    ensures Render(NoteKey(id)) == "note:" + Decimal(id)
    ensures Render(ReviewKey(id)) == "note:" + Decimal(id) + ":" + KindName(ReviewComment)
    ensures Render(DiscussionNoteKey(id)) == "discussion:note:" + Decimal(id) + ":resolved"
  {
    hide Join, Decimal;
    JoinTwo("note", Decimal(id));
    JoinThree("note", Decimal(id), "review_comment");
    JoinFour("discussion", "note", Decimal(id), "resolved");
    assert "note" + ":" == "note:" && "discussion" + ":" + "note" + ":" == "discussion:note:" && ":" + "resolved" == ":resolved";
  }

  lemma RenderDiscussion(discussion: string)
    ensures Render(DiscussionKey(discussion)) == DiscussionResolvedKey(discussion)
  {
    hide Join;
    JoinThree("discussion", discussion, "resolved");
    assert "discussion" + ":" == "discussion:" && ":" + "resolved" == ":resolved";
  }

  lemma RenderRun(id: nat, kind: Kind)
    ensures Render(PipelineKey(id, kind)) == "pipeline:" + Decimal(id) + ":" + KindName(kind)
    ensures Render(DeploymentKey(id, kind)) == "deployment:" + Decimal(id) + ":" + KindName(kind)
    ensures Render(JobKey(id)) == "job:" + Decimal(id) && Render(EmojiKey(id)) == "emoji:" + Decimal(id)
  {
    hide Join, Decimal, KindName;
    JoinThree("pipeline", Decimal(id), KindName(kind));
    JoinThree("deployment", Decimal(id), KindName(kind));
    JoinTwo("job", Decimal(id));
    JoinTwo("emoji", Decimal(id));
    assert "pipeline" + ":" == "pipeline:" && "deployment" + ":" == "deployment:" && "job" + ":" == "job:" && "emoji" + ":" == "emoji:";
  }

  lemma RenderNamed(project: nat, path: string, name: string)
    ensures Render(ReleaseKey(project, name)) == "release:" + Decimal(project) + ":" + name
    ensures Render(WikiPageKey(path, name)) == "wiki_page:" + path + ":" + name
  {
    hide Join, Decimal;
    JoinThree("release", Decimal(project), name);
    JoinThree("wiki_page", path, name);
    assert "release" + ":" == "release:" && "wiki_page" + ":" == "wiki_page:";
  }

  ghost predicate Spelled(e: Event, hook: Hook) {
    e.key == Render(KeyOf(hook, e.kind)) && HasKind(KeyOf(hook, e.kind), e.kind)
  }

  ghost predicate AllSpelled(events: seq<Event>, hook: Hook) {
    forall e :: e in events ==> Spelled(e, hook)
  }

  lemma PushesAreSpelled(hook: Hook, at: Moment)
    requires hook.PushEvent? || hook.TagEvent?
    ensures AllSpelled(Normalize(hook, at), hook)
  {
    hide Render, Decimal, KindName;
    forall kind { RenderPush(hook.project, hook.ref, hook.after, kind); }
  }

  lemma MergeRequestsAreSpelled(hook: Hook, at: Moment)
    requires hook.MergeEvent?
    ensures AllSpelled(Normalize(hook, at), hook)
  {
    hide Render, Decimal, KindName;
    RenderMergeRequest(hook.id, "opened", hook.user);
    RenderMergeRequest(hook.id, "merged", hook.user);
    RenderMergeRequest(hook.id, "closed", hook.user);
    RenderMergeRequest(hook.id, "merged_fast", hook.user);
    RenderMergeRequest(hook.id, "landed", hook.user);
    var key := "merge_request:" + Decimal(hook.id) + ":";
    assert key + "landed" == "merge_request:" + Decimal(hook.id) + ":" + "landed";
  }

  lemma CommentsAreSpelled(hook: Hook, at: Moment)
    requires hook.CommentEvent?
    ensures AllSpelled(Normalize(hook, at), hook)
  {
    hide Render, Decimal, KindName, NormalizeNote, NormalizeResolution, Spelled;
    NotesAreSpelled(hook, at);
    ResolutionIsSpelled(hook, at);
  }

  lemma NotesAreSpelled(hook: Hook, at: Moment)
    requires hook.CommentEvent?
    ensures
      var notes := NormalizeNote(hook, at);
      |notes| <= 1 && forall e :: e in notes ==> Spelled(e, hook) && Spelled(ActivityFrom(e, ReviewComment, 1), hook)
  {
    hide Render, Decimal, KindName;
    RenderNote(hook.id);
  }

  lemma ResolutionIsSpelled(hook: Hook, at: Moment)
    requires hook.CommentEvent?
    ensures AllSpelled(NormalizeResolution(hook, at), hook)
  {
    hide Render, Decimal, KindName;
    RenderNote(hook.id);
    RenderDiscussion(hook.discussion);
  }

  lemma RunsAreSpelled(hook: Hook, at: Moment)
    requires hook.PipelineEvent? || hook.DeploymentEvent?
    ensures AllSpelled(Normalize(hook, at), hook)
  {
    hide Render, Decimal, KindName;
    forall kind { RenderRun(hook.id, kind); }
  }

  lemma OthersAreSpelled(hook: Hook, at: Moment)
    requires hook.IssueEvent? || hook.JobEvent? || hook.EmojiEvent? || hook.WikiPageEvent?
    ensures AllSpelled(Normalize(hook, at), hook)
  {
    hide Render, Decimal, KindName;
    match hook
    case IssueEvent(_, _, id, _) => RenderIssue(id);
    case JobEvent(_, _, id) => RenderRun(id, JobRun);
    case EmojiEvent(_, _, id, _, _) => RenderRun(id, EmojiAwarded);
    case WikiPageEvent(_, path, slug, _) => RenderNamed(0, path, slug);
  }

  /** Every key is the one its kind and identifiers spell. */
  lemma HookKeysAreSpelled(hook: Hook, at: Moment)
    ensures AllSpelled(Normalize(hook, at), hook)
  {
    hide Normalize, AllSpelled;
    match hook
    case PushEvent(_, _, _, _, _, _) => PushesAreSpelled(hook, at);
    case TagEvent(_, _, _, _, _) => PushesAreSpelled(hook, at);
    case MergeEvent(_, _, _, _, _, _, _) => MergeRequestsAreSpelled(hook, at);
    case CommentEvent(_, _, _, _, _, _, _, _, _) => CommentsAreSpelled(hook, at);
    case PipelineEvent(_, _, _, _, _) => RunsAreSpelled(hook, at);
    case DeploymentEvent(_, _, _, _) => RunsAreSpelled(hook, at);
    case _ => OthersAreSpelled(hook, at);
  }

  lemma PlausibleIsSound(hook: Hook, kind: Kind)
    requires Plausible(hook)
    ensures DedupKeys.Sound(KeyOf(hook, kind))
  {
    hide Plain;
    ActionsArePlain();
  }

  lemma ActionsArePlain()
    ensures Plain("opened") && Plain("merged") && Plain("closed") && Plain("merged_fast") && Plain("landed")
  {
  }

  /** What an activity is, told by its kind and where it came from. */
  function SourceKey(source: Source, kind: Kind): Key {
    match source
    case Payload(hook) => KeyOf(hook, kind)
    case FixedPipeline(hook, _) => KeyOf(hook, kind)
    case LookedUpRelease(project, tag, _, _) => ReleaseKey(project, tag)
    case ReadDiscussion(discussion, _) => DiscussionKey(discussion.id)
  }

  predicate PlausibleSource(source: Source) {
    match source
    case Payload(hook) => Plausible(hook)
    case FixedPipeline(hook, _) => hook.PipelineEvent?
    case LookedUpRelease(_, _, _, _) => true
    case ReadDiscussion(discussion, _) => Plain(discussion.id)
  }

  ghost predicate SpelledBy(e: Event, source: Source) {
    e.key == Render(SourceKey(source, e.kind)) && HasKind(SourceKey(source, e.kind), e.kind)
  }

  /** Every key the live path makes is the one its kind and identifiers spell. */
  lemma SourceKeysAreSpelled(source: Source, at: Moment, e: Event)
    requires ValidSource(source) && e in Activities(source, at)
    ensures SpelledBy(e, source)
  {
    hide Render, Normalize, Decimal, KindName, DiscussionResolvedKey, AllSpelled, LastResolved;
    match source
    case Payload(hook) =>
      HookKeysAreSpelled(hook, at);
      assert Spelled(e, hook) by { AllAreSpelled(Normalize(hook, at), hook, e); }
    case FixedPipeline(hook, _) => RenderRun(hook.id, PipelineFixed);
    case LookedUpRelease(project, tag, _, _) => RenderNamed(project, "", tag);
    case ReadDiscussion(discussion, _) => RenderDiscussion(discussion.id);
  }

  lemma AllAreSpelled(events: seq<Event>, hook: Hook, e: Event)
    requires AllSpelled(events, hook) && e in events
    ensures Spelled(e, hook)
  {
  }

  lemma PlausibleSourceIsSound(source: Source, kind: Kind)
    requires PlausibleSource(source)
    ensures DedupKeys.Sound(SourceKey(source, kind))
  {
    hide Plain;
    match source
    case Payload(hook) => PlausibleIsSound(hook, kind);
    case _ =>
  }

  /** Two activities the live path counts share a key only when they are of one kind and agree on every
      identifier it is built from, wherever either came from. */
  lemma {:induction false} ActivitiesDoNotCollide(a: Source, b: Source, at: Moment, bt: Moment, e: Event, f: Event)
    requires ValidSource(a) && ValidSource(b) && PlausibleSource(a) && PlausibleSource(b)
    requires e in Activities(a, at) && f in Activities(b, bt) && e.key == f.key
    ensures e.kind == f.kind && SourceKey(a, e.kind) == SourceKey(b, f.kind)
  {
    hide Activities, Render, KeyKind, SourceKey, PlausibleSource, DedupKeys.Sound;
    SourceKeysAreSpelled(a, at, e);
    SourceKeysAreSpelled(b, bt, f);
    PlausibleSourceIsSound(a, e.kind);
    PlausibleSourceIsSound(b, f.kind);
    KeysDoNotCollide(SourceKey(a, e.kind), SourceKey(b, f.kind));
  }
}
