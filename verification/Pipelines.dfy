/** How the pipeline before one on the same ref ended: told by folding forward over a walked history,
    or by scanning back from the pipeline, newest first. */
module Pipelines {
  datatype Status =
    | Created | WaitingForResource | Preparing | Pending | Running
    | Success | Failed | Canceled | Skipped | Manual | Scheduled

  /** The empty status stands for no outcome known. */
  datatype Outcome = Unknown | Ended(status: Status)

  datatype Pipeline = Pipeline(id: int, branch: string, status: Status, createdAt: nat)

  const PREVIOUS_PIPELINE_SCAN := 50

  predicate Finished(status: Status) {
    status == Success || status == Failed
  }

  ghost predicate InIdOrder(history: seq<Pipeline>) {
    forall i, j :: 0 <= i < j < |history| ==> history[i].id < history[j].id
  }

  /** Pipelines are created in the order of their IDs. */
  ghost predicate InDateOrder(history: seq<Pipeline>) {
    forall i, j :: 0 <= i < j < |history| ==> history[i].createdAt <= history[j].createdAt
  }

  /** The listing's window: no floor, or created at it or later. */
  predicate Listed(p: Pipeline, since: nat) {
    since == 0 || since <= p.createdAt
  }

  // ---- The walk's fold ----

  function RecordOutcome(outcomes: map<string, Status>, p: Pipeline): map<string, Status> {
    if Finished(p.status) then outcomes[p.branch := p.status] else outcomes
  }

  /** What the walk remembers once the listed ones among the first n pipelines went by. */
  function Outcomes(history: seq<Pipeline>, since: nat, n: nat): map<string, Status>
    requires n <= |history|
  {
    if n == 0 then map[]
    else if Listed(history[n - 1], since) then RecordOutcome(Outcomes(history, since, n - 1), history[n - 1])
    else Outcomes(history, since, n - 1)
  }

  function Lookup(outcomes: map<string, Status>, branch: string): Outcome {
    if branch in outcomes then Ended(outcomes[branch]) else Unknown
  }

  /** What the walk takes for the outcome before the n-th pipeline. */
  function WalkedOutcome(history: seq<Pipeline>, since: nat, n: nat): Outcome
    requires n < |history|
  {
    Lookup(Outcomes(history, since, n), history[n].branch)
  }

  // ---- The scan back ----

  /** What a scan sees of the first n pipelines, newest first, when it may pass over `left` of them. */
  function Scan(history: seq<Pipeline>, branch: string, n: nat, left: nat): Outcome
    requires n <= |history|
  {
    if n == 0 || left == 0 then Unknown
    else if history[n - 1].branch != branch then Scan(history, branch, n - 1, left)
    else if Finished(history[n - 1].status) then Ended(history[n - 1].status)
    else Scan(history, branch, n - 1, left - 1)
  }

  method LastPipelineOutcome(history: seq<Pipeline>, branch: string, beforeId: int, ghost n: nat) returns (outcome: Outcome)
    requires InIdOrder(history) && n <= |history|
    requires forall i :: 0 <= i < |history| ==> (history[i].id < beforeId <==> i < n)
    ensures outcome == Scan(history, branch, n, PREVIOUS_PIPELINE_SCAN)
  {
    var scanned := 0;
    for i := |history| downto 0
      invariant 0 <= scanned < PREVIOUS_PIPELINE_SCAN && (i >= n ==> scanned == 0)
      invariant
        Scan(history, branch, n, PREVIOUS_PIPELINE_SCAN)
        == Scan(history, branch, if i < n then i else n, PREVIOUS_PIPELINE_SCAN - scanned)
    {
      // GitLab lists the ref's pipelines only.
      if history[i].branch != branch || history[i].id >= beforeId {
        continue;
      }
      if Finished(history[i].status) {
        return Ended(history[i].status);
      }
      scanned := scanned + 1;
      if scanned >= PREVIOUS_PIPELINE_SCAN {
        break;
      }
    }
    return Unknown;
  }

  // ---- The outcome both are after ----

  /** Where the ref's last finished pipeline among the first n is, or -1. */
  function LastFinished(history: seq<Pipeline>, branch: string, n: nat): (l: int)
    requires n <= |history|
    ensures -1 <= l < n
    ensures l >= 0 ==> history[l].branch == branch && Finished(history[l].status)
    ensures forall i :: l < i < n && history[i].branch == branch ==> !Finished(history[i].status)
  {
    if n == 0 then -1
    else if history[n - 1].branch == branch && Finished(history[n - 1].status) then n - 1
    else LastFinished(history, branch, n - 1)
  }

  /** How many of the ref's pipelines lie in between. */
  function Between(history: seq<Pipeline>, branch: string, first: nat, end: nat): (count: nat)
    requires first <= end <= |history|
    decreases end
  {
    if first == end then 0
    else Between(history, branch, first, end - 1) + if history[end - 1].branch == branch then 1 else 0
  }

  /** The scan gets as far as the ref's pipeline at l, from the n-th back. */
  predicate Near(history: seq<Pipeline>, branch: string, l: nat, n: nat)
    requires l < n <= |history|
  {
    Between(history, branch, l + 1, n) < PREVIOUS_PIPELINE_SCAN
  }

  /** The scan names the last finished predecessor when it is among the pipelines it looks through. */
  lemma {:induction false} ScanNamesLastFinished(history: seq<Pipeline>, branch: string, n: nat, left: nat)
    requires n <= |history|
    ensures
      var l := LastFinished(history, branch, n);
      Scan(history, branch, n, left)
      == if l >= 0 && Between(history, branch, l + 1, n) < left then Ended(history[l].status) else Unknown
  {
    if n > 0 && left > 0 {
      if history[n - 1].branch != branch {
        ScanNamesLastFinished(history, branch, n - 1, left);
      } else if !Finished(history[n - 1].status) {
        ScanNamesLastFinished(history, branch, n - 1, left - 1);
      }
    }
  }

  /** The walk names the last finished predecessor when its window holds it. */
  lemma {:induction false} WalkNamesLastFinished(history: seq<Pipeline>, since: nat, branch: string, n: nat)
    requires n <= |history| && InDateOrder(history)
    ensures
      var l := LastFinished(history, branch, n);
      Lookup(Outcomes(history, since, n), branch)
      == if l >= 0 && Listed(history[l], since) then Ended(history[l].status) else Unknown
  {
    if n > 0 {
      WalkNamesLastFinished(history, since, branch, n - 1);
    }
  }

  /** Walk and scan name the same outcome exactly when no predecessor finished, or the last that did
      is within both their reaches, or beyond both. */
  lemma {:induction false} WalkAndScanAgree(history: seq<Pipeline>, since: nat, n: nat)
    requires n < |history| && InDateOrder(history)
    ensures
      var branch, l := history[n].branch, LastFinished(history, history[n].branch, n);
      WalkedOutcome(history, since, n) == Scan(history, branch, n, PREVIOUS_PIPELINE_SCAN)
      <==> l < 0 || (Listed(history[l], since) <==> Near(history, branch, l, n))
  {
    ScanNamesLastFinished(history, history[n].branch, n, PREVIOUS_PIPELINE_SCAN);
    WalkNamesLastFinished(history, since, history[n].branch, n);
  }

  /** Only a pass that follows a failure fixes the build. */
  predicate Fixes(p: Pipeline, previous: Outcome) {
    previous == Ended(Failed) && p.status == Success
  }

  /** So both report the same build fixes, but for a pass whose failed predecessor only one of them
      can see. The scan is not even made for a pipeline without a ref. */
  lemma FixesAgree(history: seq<Pipeline>, since: nat, n: nat)
    requires n < |history| && InDateOrder(history)
    ensures
      var p, l := history[n], LastFinished(history, history[n].branch, n);
      var asked := p.status == Success && p.branch != "";
      Fixes(p, WalkedOutcome(history, since, n)) == (asked && Fixes(p, Scan(history, p.branch, n, PREVIOUS_PIPELINE_SCAN)))
      <==> !(l >= 0 && p.status == Success && history[l].status == Failed
             && Listed(history[l], since) != (p.branch != "" && Near(history, p.branch, l, n)))
  {
    ScanNamesLastFinished(history, history[n].branch, n, PREVIOUS_PIPELINE_SCAN);
    WalkNamesLastFinished(history, since, history[n].branch, n);
  }
}
