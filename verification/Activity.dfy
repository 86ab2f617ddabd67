/** The normalized activity every producer translates into and the engine consumes. */
module Activity {
  datatype Kind =
    | Commit | Push | BranchCreated | TagCreated | ReleasePublished
    | MergeRequestOpened | MergeRequestMerged | MergeRequestApproved | MergeRequestMergedFast
    | MergeRequestLanded | MergeRequestClosed | DiscussionResolved
    | IssueOpened | IssueClosed | Comment | ReviewComment
    | PipelineRun | PipelineSucceeded | PipelineFailed | PipelineFixed
    | JobRun | Deployment | DeploymentSucceeded | EmojiAwarded | WikiPageCreated

  function KindName(kind: Kind): string {
    match kind
    case Commit => "commit"
    case Push => "push"
    case BranchCreated => "branch_created"
    case TagCreated => "tag_created"
    case ReleasePublished => "release_published"
    case MergeRequestOpened => "merge_request_opened"
    case MergeRequestMerged => "merge_request_merged"
    case MergeRequestApproved => "merge_request_approved"
    case MergeRequestMergedFast => "merge_request_merged_fast"
    case MergeRequestLanded => "merge_request_landed"
    case MergeRequestClosed => "merge_request_closed"
    case DiscussionResolved => "discussion_resolved"
    case IssueOpened => "issue_opened"
    case IssueClosed => "issue_closed"
    case Comment => "comment"
    case ReviewComment => "review_comment"
    case PipelineRun => "pipeline_run"
    case PipelineSucceeded => "pipeline_succeeded"
    case PipelineFailed => "pipeline_failed"
    case PipelineFixed => "pipeline_fixed"
    case JobRun => "job_run"
    case Deployment => "deployment"
    case DeploymentSucceeded => "deployment_succeeded"
    case EmojiAwarded => "emoji_awarded"
    case WikiPageCreated => "wiki_page_created"
  }

  /** Days are numbered from 1: a date in year 1 is one the program takes for no date at all. */
  type Day = d: int | 0 < d witness 1

  /** When something happened, on the clock GitLab reported. */
  datatype Moment = Undated | At(day: Day, hour: nat)

  datatype Event = Event(occurredAt: Moment, kind: Kind, key: string, actor: int, project: int, count: int) {
    /** An unset count means one. */
    function Weight(): int {
      if count <= 0 then 1 else count
    }
  }
}
