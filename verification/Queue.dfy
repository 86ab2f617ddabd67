/** The webhook queue under concurrency: enqueuers, workers and shutdowns, one atomic step at a time. */
module Queue {
  type Activity = nat

  /** A worker waits on the queue, evaluates what it took, drains what is left after a shutdown, or is gone. */
  datatype Worker = Waiting | Evaluating(activity: Activity, attempt: nat, draining: bool) | Draining | Exited

  /** A delivery: about to check for a shutdown, about to send, or about to count what it sent. */
  datatype Sender = Idle | Checking(rest: seq<Activity>) | Sending(rest: seq<Activity>) | Counting(rest: seq<Activity>)

  datatype Caller = Away | Blocked | ReturnedNil | ReturnedTimeout

  datatype State = State(
    size: nat, maxAttempts: nat,
    queued: seq<Activity>, done: bool, cancelled: bool,
    workers: seq<Worker>, senders: seq<Sender>, callers: seq<Caller>,
    sent: multiset<Activity>, processed: multiset<Activity>, failed: multiset<Activity>,
    offered: nat, accepted: nat, rejected: nat,
    clean: bool)

  /** Who moves, and where they have a choice, which way. */
  datatype Action =
    | Begin(who: nat, activities: seq<Activity>)
    | Check(who: nat)
    | Send(who: nat)
    | CountSent(who: nat)
    | SeeDone(who: nat)
    | GiveUp(who: nat)
    | Take(who: nat)
    | StartDraining(who: nat)
    | Succeed(who: nat)
    | Fail(who: nat)
    | Retry(who: nat)
    | Exit(who: nat)
    | Shutdown(who: nat)
    | Drained(who: nat)
    | TimeOut(who: nat)

  ghost predicate Initial(s: State) {
    && s.size > 0 && s.maxAttempts > 0 && |s.workers| > 0 && s.queued == [] && !s.done && !s.cancelled && s.clean
    && (forall j :: 0 <= j < |s.workers| ==> s.workers[j] == Waiting)
    && (forall i :: 0 <= i < |s.senders| ==> s.senders[i] == Idle)
    && (forall k :: 0 <= k < |s.callers| ==> s.callers[k] == Away)
    && s.sent == s.processed == s.failed == multiset{} && s.offered == s.accepted == s.rejected == 0
  }

  function Rest(x: Sender): seq<Activity> {
    if x.Idle? then [] else x.rest
  }

  /** A worker that is done with an activity goes back to where it took it. */
  function Back(w: Worker): Worker
    requires w.Evaluating?
  {
    if w.draining then Draining else Waiting
  }

  function SetSender(s: State, i: nat, x: Sender): State
    requires i < |s.senders|
  {
    s.(senders := s.senders[i := x])
  }

  function SetWorker(s: State, j: nat, w: Worker): State
    requires j < |s.workers|
  {
    s.(workers := s.workers[j := w])
  }

  predicate Enabled(s: State, a: Action) {
    match a
    case Begin(i, activities) => i < |s.senders| && s.senders[i].Idle? && |activities| > 0
    case Check(i) => i < |s.senders| && s.senders[i].Checking?
    case Send(i) => i < |s.senders| && s.senders[i].Sending? && |s.senders[i].rest| > 0 && |s.queued| < s.size
    case CountSent(i) => i < |s.senders| && s.senders[i].Counting? && |s.senders[i].rest| > 0
    case SeeDone(i) => i < |s.senders| && s.senders[i].Sending? && s.done
    case GiveUp(i) => i < |s.senders| && s.senders[i].Sending?
    case Take(j) => j < |s.workers| && (s.workers[j].Waiting? || s.workers[j].Draining?) && |s.queued| > 0
    case StartDraining(j) => j < |s.workers| && s.workers[j].Waiting? && s.done
    case Succeed(j) => j < |s.workers| && s.workers[j].Evaluating?
    case Fail(j) => j < |s.workers| && s.workers[j].Evaluating? && (s.cancelled || s.workers[j].attempt >= s.maxAttempts)
    case Retry(j) => j < |s.workers| && s.workers[j].Evaluating? && !s.cancelled && s.workers[j].attempt < s.maxAttempts
    case Exit(j) => j < |s.workers| && ((s.workers[j].Waiting? && s.cancelled) || (s.workers[j].Draining? && (s.cancelled || s.queued == [])))
    case Shutdown(k) => k < |s.callers| && s.callers[k].Away?
    case Drained(k) => k < |s.callers| && s.callers[k].Blocked? && forall j :: 0 <= j < |s.workers| ==> s.workers[j].Exited?
    case TimeOut(k) => k < |s.callers| && s.callers[k].Blocked?
  }

  predicate AllIdle(s: State) {
    forall i :: 0 <= i < |s.senders| ==> s.senders[i].Idle?
  }

  function Act(s: State, a: Action): State
    requires Enabled(s, a)
  {
    match a
    case Begin(i, activities) => SetSender(s, i, Checking(activities)).(offered := s.offered + |activities|)
    case Check(i) =>
      if s.done then SetSender(s, i, Idle).(rejected := s.rejected + |s.senders[i].rest|)
      else SetSender(s, i, Sending(s.senders[i].rest))
    case Send(i) =>
      var x := s.senders[i].rest[0];
      SetSender(s, i, Counting(s.senders[i].rest)).(queued := s.queued + [x], sent := s.sent + multiset{x})
    case CountSent(i) =>
      var rest := s.senders[i].rest[1..];
      SetSender(s, i, if rest == [] then Idle else Checking(rest)).(accepted := s.accepted + 1)
    case SeeDone(i) => SetSender(s, i, Idle).(rejected := s.rejected + |s.senders[i].rest|)
    case GiveUp(i) => SetSender(s, i, Idle).(rejected := s.rejected + |s.senders[i].rest|)
    case Take(j) => SetWorker(s, j, Evaluating(s.queued[0], 1, s.workers[j].Draining?)).(queued := s.queued[1..])
    case StartDraining(j) => SetWorker(s, j, Draining)
    case Succeed(j) => SetWorker(s, j, Back(s.workers[j])).(processed := s.processed + multiset{s.workers[j].activity})
    case Fail(j) => SetWorker(s, j, Back(s.workers[j])).(failed := s.failed + multiset{s.workers[j].activity})
    case Retry(j) => SetWorker(s, j, s.workers[j].(attempt := s.workers[j].attempt + 1))
    case Exit(j) => SetWorker(s, j, Exited)
    case Shutdown(k) => s.(callers := s.callers[k := Blocked], done := true, clean := if s.done then s.clean else AllIdle(s))
    case Drained(k) => s.(callers := s.callers[k := ReturnedNil], cancelled := true)
    case TimeOut(k) => s.(callers := s.callers[k := ReturnedTimeout], cancelled := true)
  }

  /** The states a sequence of enabled actions leads through. */
  ghost predicate Run(states: seq<State>, actions: seq<Action>) {
    && |states| == |actions| + 1 && Initial(states[0])
    && forall n :: 0 <= n < |actions| ==> Enabled(states[n], actions[n]) && states[n + 1] == Act(states[n], actions[n])
  }

  // ---- What is where ----

  /** How often the first n workers hold an activity. */
  function InEvaluation(workers: seq<Worker>, n: nat, x: Activity): nat
    requires n <= |workers|
  {
    if n == 0 then 0 else InEvaluation(workers, n - 1, x) + Holds(workers[n - 1], x)
  }

  function Holds(w: Worker, x: Activity): nat {
    if w.Evaluating? && w.activity == x then 1 else 0
  }

  /** How many of the first n deliveries have sent an activity that is not counted yet. */
  function Uncounted(senders: seq<Sender>, n: nat): nat
    requires n <= |senders|
  {
    if n == 0 then 0 else Uncounted(senders, n - 1) + Lag(senders[n - 1])
  }

  function Lag(x: Sender): nat {
    if x.Counting? then 1 else 0
  }

  /** How many activities the first n deliveries still have to settle. */
  function InHand(senders: seq<Sender>, n: nat): nat
    requires n <= |senders|
  {
    if n == 0 then 0 else InHand(senders, n - 1) + |Rest(senders[n - 1])|
  }

  lemma {:induction false} WorkerMoves(workers: seq<Worker>, j: nat, w: Worker, n: nat, x: Activity)
    requires j < |workers| && n <= |workers|
    ensures InEvaluation(workers[j := w], n, x) == InEvaluation(workers, n, x) + if j < n then Holds(w, x) - Holds(workers[j], x) else 0
  {
    if n > 0 { WorkerMoves(workers, j, w, n - 1, x); }
  }

  lemma {:induction false} SenderMoves(senders: seq<Sender>, i: nat, x: Sender, n: nat)
    requires i < |senders| && n <= |senders|
    ensures Uncounted(senders[i := x], n) == Uncounted(senders, n) + if i < n then Lag(x) - Lag(senders[i]) else 0
    ensures InHand(senders[i := x], n) == InHand(senders, n) + if i < n then |Rest(x)| - |Rest(senders[i])| else 0
  {
    if n > 0 { SenderMoves(senders, i, x, n - 1); }
  }

  /** Everything sent was processed, failed, is queued, or is being evaluated; everything sent is counted
      as accepted but for what is just about to be; and everything offered was accepted, rejected, or is
      still in some delivery's hands. */
  ghost predicate Conserved(s: State) {
    && (forall x :: s.sent[x] == s.processed[x] + s.failed[x] + multiset(s.queued)[x] + InEvaluation(s.workers, |s.workers|, x))
    && |s.sent| == s.accepted + Uncounted(s.senders, |s.senders|)
    && s.offered == s.accepted + s.rejected + InHand(s.senders, |s.senders|)
    && |s.queued| <= s.size
    && (forall i :: 0 <= i < |s.senders| && !s.senders[i].Idle? ==> |s.senders[i].rest| > 0)
    && (forall j :: 0 <= j < |s.workers| && s.workers[j].Evaluating? ==> 1 <= s.workers[j].attempt <= s.maxAttempts)
  }

  lemma {:induction false} NothingAnywhere(s: State, n: nat, m: nat)
    requires Initial(s) && n <= |s.workers| && m <= |s.senders|
    ensures (forall x :: InEvaluation(s.workers, n, x) == 0) && Uncounted(s.senders, m) == 0 && InHand(s.senders, m) == 0
    decreases n + m
  {
    if n > 0 { NothingAnywhere(s, n - 1, m); }
    if m > 0 { NothingAnywhere(s, n, m - 1); }
  }

  lemma SendConserves(s: State, a: Action)
    requires Conserved(s) && Enabled(s, a) && a.Send?
    ensures Conserved(Act(s, a))
  {
    hide InEvaluation, InHand, Uncounted;
    var t := Act(s, a);
    SenderMoves(s.senders, a.who, t.senders[a.who], |s.senders|);
    assert multiset(t.queued) == multiset(s.queued) + multiset{s.senders[a.who].rest[0]};
  }

  lemma SenderConserves(s: State, a: Action)
    requires Conserved(s) && Enabled(s, a) && (a.Begin? || a.Check? || a.CountSent? || a.SeeDone? || a.GiveUp?)
    ensures Conserved(Act(s, a))
  {
    hide InEvaluation, InHand, Uncounted, Act, Enabled, Run;
    ActDelivers(s, a);
    var t := Act(s, a);
    SenderMoves(s.senders, a.who, t.senders[a.who], |s.senders|);
  }

  /** These steps move one delivery, and account for every activity that it lets go of. */
  lemma ActDelivers(s: State, a: Action)
    requires Enabled(s, a) && (a.Begin? || a.Check? || a.CountSent? || a.SeeDone? || a.GiveUp?)
    requires forall i :: 0 <= i < |s.senders| && !s.senders[i].Idle? ==> |s.senders[i].rest| > 0
    ensures
      var t := Act(s, a);
      && a.who < |s.senders| && t.senders == s.senders[a.who := t.senders[a.who]]
      && t.size == s.size && t.maxAttempts == s.maxAttempts && t.workers == s.workers
      && t.queued == s.queued && t.sent == s.sent && t.processed == s.processed && t.failed == s.failed
      && (!t.senders[a.who].Idle? ==> |t.senders[a.who].rest| > 0)
      && s.accepted + Lag(s.senders[a.who]) == t.accepted + Lag(t.senders[a.who])
      && t.offered - t.accepted - t.rejected - |Rest(t.senders[a.who])| == s.offered - s.accepted - s.rejected - |Rest(s.senders[a.who])|
  {
  }

  /** A worker moving on with everything else as it was, but for what it finished. */
  lemma MovingConserves(s: State, j: nat, w: Worker, processed: multiset<Activity>, failed: multiset<Activity>)
    requires Conserved(s) && j < |s.workers| && (w.Evaluating? ==> 1 <= w.attempt <= s.maxAttempts)
    requires forall x :: processed[x] + failed[x] + Holds(w, x) == s.processed[x] + s.failed[x] + Holds(s.workers[j], x)
    ensures Conserved(SetWorker(s, j, w).(processed := processed, failed := failed))
  {
    hide InEvaluation, Uncounted, InHand, Holds;
    forall x { WorkerMoves(s.workers, j, w, |s.workers|, x); }
  }

  lemma WorkerConserves(s: State, a: Action)
    requires Conserved(s) && s.maxAttempts > 0
    requires Enabled(s, a) && (a.StartDraining? || a.Succeed? || a.Fail? || a.Retry? || a.Exit?)
    ensures Conserved(Act(s, a))
  {
    hide InEvaluation, Uncounted, InHand, Act, Conserved;
    ActMoves(s, a);
    var t := Act(s, a);
    if a.Retry? { AttemptsCount(s, a); }
    MovingConserves(s, a.who, t.workers[a.who], t.processed, t.failed);
  }

  /** These steps move one worker and settle what it finished. */
  lemma ActMoves(s: State, a: Action)
    requires Enabled(s, a) && (a.StartDraining? || a.Succeed? || a.Fail? || a.Retry? || a.Exit?)
    ensures
      var t := Act(s, a);
      && |t.workers| == |s.workers| && t == SetWorker(s, a.who, t.workers[a.who]).(processed := t.processed, failed := t.failed)
      && (forall x :: t.processed[x] + t.failed[x] + Holds(t.workers[a.who], x) == s.processed[x] + s.failed[x] + Holds(s.workers[a.who], x))
      && (t.workers[a.who].Evaluating? ==> a.Retry? && t.workers[a.who].attempt == s.workers[a.who].attempt + 1 <= s.maxAttempts)
  {
  }

  lemma AttemptsCount(s: State, a: Action)
    requires Conserved(s) && Enabled(s, a) && a.Retry?
    ensures s.workers[a.who].attempt >= 1
  {
  }

  lemma TakeConserves(s: State, a: Action)
    requires Conserved(s) && s.maxAttempts > 0 && Enabled(s, a) && a.Take?
    ensures Conserved(Act(s, a))
  {
    hide InEvaluation, Uncounted, InHand;
    var t, w := Act(s, a), Evaluating(s.queued[0], 1, s.workers[a.who].Draining?);
    assert t.workers == s.workers[a.who := w] && t.queued == s.queued[1..];
    TakingConserves(s, a.who, w);
    assert t == SetWorker(s, a.who, w).(queued := s.queued[1..]);
  }

  lemma TakingConserves(s: State, j: nat, w: Worker)
    requires Conserved(s) && j < |s.workers| && !s.workers[j].Evaluating? && |s.queued| > 0
    requires w.Evaluating? && w.activity == s.queued[0] && w.attempt == 1 <= s.maxAttempts
    ensures Conserved(SetWorker(s, j, w).(queued := s.queued[1..]))
  {
    hide InEvaluation, Uncounted, InHand;
    var t := SetWorker(s, j, w).(queued := s.queued[1..]);
    assert s.queued == [s.queued[0]] + t.queued;
    assert multiset(s.queued) == multiset{s.queued[0]} + multiset(t.queued);
    forall x ensures t.sent[x] == t.processed[x] + t.failed[x] + multiset(t.queued)[x] + InEvaluation(t.workers, |t.workers|, x) {
      WorkerMoves(s.workers, j, w, |s.workers|, x);
    }
  }

  lemma StepConserves(s: State, a: Action)
    requires Conserved(s) && s.maxAttempts > 0 && Enabled(s, a)
    ensures Conserved(Act(s, a)) && Act(s, a).maxAttempts == s.maxAttempts
  {
    hide Conserved;
    if a.Send? {
      SendConserves(s, a);
    } else if a.Take? {
      TakeConserves(s, a);
    } else if a.Begin? || a.Check? || a.CountSent? || a.SeeDone? || a.GiveUp? {
      SenderConserves(s, a);
    } else if a.StartDraining? || a.Succeed? || a.Fail? || a.Retry? || a.Exit? {
      WorkerConserves(s, a);
    } else {
      ShutdownConserves(s, a);
    }
  }

  lemma ShutdownConserves(s: State, a: Action)
    requires Conserved(s) && Enabled(s, a) && (a.Shutdown? || a.Drained? || a.TimeOut?)
    ensures Conserved(Act(s, a))
  {
  }

  /** In every interleaving, nothing is lost and nothing is handled twice. */
  lemma {:induction false} RunConserves(states: seq<State>, actions: seq<Action>, n: nat)
    requires Run(states, actions) && n < |states|
    ensures Conserved(states[n]) && states[n].maxAttempts > 0
  {
    hide Act, Enabled;
    if n == 0 {
      NothingAnywhere(states[0], |states[0].workers|, |states[0].senders|);
    } else {
      RunConserves(states, actions, n - 1);
      StepConserves(states[n - 1], actions[n - 1]);
    }
  }

  /** With no delivery under way, the counters tell exactly whether anything is left to do. */
  lemma CountersTellExactly(states: seq<State>, actions: seq<Action>, n: nat)
    requires Run(states, actions) && n < |states| && AllIdle(states[n])
    ensures
      var s := states[n];
      s.accepted == |s.processed| + |s.failed| <==> s.queued == [] && forall j :: 0 <= j < |s.workers| ==> !s.workers[j].Evaluating?
  {
    hide Run;
    RunConserves(states, actions, n);
    var s := states[n];
    NobodySending(s, |s.senders|);
    var settled := s.processed + s.failed;
    assert forall x :: s.sent[x] >= settled[x];
    assert s.sent == settled + (s.sent - settled);
    assert s.accepted == |settled| <==> s.sent - settled == multiset{};
    assert s.queued != [] ==> s.queued[0] in multiset(s.queued);
    if s.sent - settled == multiset{} {
      forall x ensures multiset(s.queued)[x] == 0 && InEvaluation(s.workers, |s.workers|, x) == 0 {
        assert (s.sent - settled)[x] == 0;
      }
      forall j | 0 <= j < |s.workers| && s.workers[j].Evaluating? ensures InEvaluation(s.workers, |s.workers|, s.workers[j].activity) > 0 {
        HeldIsCounted(s.workers, j, |s.workers|);
      }
    } else {
      var x :| x in s.sent - settled;
      assert (s.sent - settled)[x] > 0;
      if s.queued == [] {
        assert InEvaluation(s.workers, |s.workers|, x) > 0;
        SomebodyHolds(s.workers, |s.workers|, x);
      }
    }
  }

  lemma {:induction false} NobodySending(s: State, m: nat)
    requires AllIdle(s) && m <= |s.senders|
    ensures Uncounted(s.senders, m) == 0
  {
    if m > 0 { NobodySending(s, m - 1); }
  }

  lemma {:induction false} HeldIsCounted(workers: seq<Worker>, j: nat, n: nat)
    requires j < n <= |workers| && workers[j].Evaluating?
    ensures InEvaluation(workers, n, workers[j].activity) > 0
  {
    if j < n - 1 { HeldIsCounted(workers, j, n - 1); }
  }

  lemma {:induction false} SomebodyHolds(workers: seq<Worker>, n: nat, x: Activity)
    requires n <= |workers| && InEvaluation(workers, n, x) > 0
    ensures exists j :: 0 <= j < n && workers[j].Evaluating?
  {
    if Holds(workers[n - 1], x) == 0 { SomebodyHolds(workers, n - 1, x); }
  }

  // ---- Shutting down ----

  ghost predicate NoneTimedOut(s: State) {
    forall k :: 0 <= k < |s.callers| ==> !s.callers[k].ReturnedTimeout?
  }

  ghost predicate AllExited(s: State) {
    forall j :: 0 <= j < |s.workers| ==> s.workers[j].Exited?
  }

  ghost predicate SomeExited(s: State) {
    exists j :: 0 <= j < |s.workers| && s.workers[j].Exited?
  }

  /** While no shutdown has timed out, a worker leaves an empty queue only, and after a shutdown that found
      no delivery under way nothing is sent to it any more. */
  ghost predicate Orderly(s: State) {
    && |s.workers| > 0
    && (!s.done ==> !s.cancelled && forall j :: 0 <= j < |s.workers| ==> s.workers[j].Waiting? || (s.workers[j].Evaluating? && !s.workers[j].draining))
    && (!s.done ==> forall k :: 0 <= k < |s.callers| ==> s.callers[k].Away?)
    && (s.done && s.clean ==> forall i :: 0 <= i < |s.senders| ==> s.senders[i].Idle? || s.senders[i].Checking?)
    && (NoneTimedOut(s) && s.cancelled ==> AllExited(s))
    && (NoneTimedOut(s) && s.clean && SomeExited(s) ==> s.queued == [])
    && (forall k :: 0 <= k < |s.callers| && s.callers[k].ReturnedNil? ==> AllExited(s))
  }

  lemma SenderIsOrderly(s: State, a: Action)
    requires Orderly(s) && Enabled(s, a) && (a.Begin? || a.Check? || a.Send? || a.CountSent? || a.SeeDone? || a.GiveUp?)
    ensures Orderly(Act(s, a))
  {
    var t := Act(s, a);
    assert t.workers == s.workers && t.callers == s.callers;
    assert SomeExited(t) ==> SomeExited(s);
    assert SomeExited(s) ==> s.done;
  }

  lemma WorkerIsOrderly(s: State, a: Action)
    requires Orderly(s) && Enabled(s, a) && (a.Take? || a.StartDraining? || a.Succeed? || a.Fail? || a.Retry? || a.Exit?)
    ensures Orderly(Act(s, a))
  {
    var t := Act(s, a);
    assert !s.workers[a.who].Exited?;
    assert !AllExited(s);
    assert NoneTimedOut(t) <==> NoneTimedOut(s);
    if SomeExited(t) && !a.Exit? {
      var j :| 0 <= j < |t.workers| && t.workers[j].Exited?;
      assert s.workers[j].Exited?;
    }
  }

  lemma ShutdownIsOrderly(s: State, a: Action)
    requires Orderly(s) && Enabled(s, a) && (a.Shutdown? || a.Drained? || a.TimeOut?)
    ensures Orderly(Act(s, a))
  {
    var t := Act(s, a);
    if NoneTimedOut(t) {
      forall k | 0 <= k < |s.callers| ensures !s.callers[k].ReturnedTimeout? {
        assert !t.callers[k].ReturnedTimeout?;
      }
    }
    assert a.TimeOut? ==> !NoneTimedOut(t) by {
      if a.TimeOut? { assert t.callers[a.who].ReturnedTimeout?; }
    }
    assert SomeExited(t) ==> SomeExited(s);
    assert SomeExited(s) ==> s.done;
  }

  lemma {:induction false} RunIsOrderly(states: seq<State>, actions: seq<Action>, n: nat)
    requires Run(states, actions) && n < |states|
    ensures Orderly(states[n])
  {
    hide Act, Enabled;
    if n > 0 {
      hide Orderly;
      RunIsOrderly(states, actions, n - 1);
      var s, a := states[n - 1], actions[n - 1];
      if a.Begin? || a.Check? || a.Send? || a.CountSent? || a.SeeDone? || a.GiveUp? {
        SenderIsOrderly(s, a);
      } else if a.Take? || a.StartDraining? || a.Succeed? || a.Fail? || a.Retry? || a.Exit? {
        WorkerIsOrderly(s, a);
      } else {
        ShutdownIsOrderly(s, a);
      }
    }
  }

  lemma {:induction false} NobodyAtWork(s: State, n: nat, m: nat)
    requires AllExited(s) && n <= |s.workers| && m <= |s.senders|
    requires forall i :: 0 <= i < |s.senders| ==> s.senders[i].Idle? || s.senders[i].Checking?
    ensures (forall x :: InEvaluation(s.workers, n, x) == 0) && Uncounted(s.senders, m) == 0
    decreases n + m
  {
    if n > 0 { NobodyAtWork(s, n - 1, m); }
    if m > 0 { NobodyAtWork(s, n, m - 1); }
  }

  /** When shutting down began with every delivery returned, and no shutdown has timed out, one that
      returns without an error leaves an empty queue with every accepted activity evaluated. */
  lemma NilMeansDrained(states: seq<State>, actions: seq<Action>, n: nat, k: nat)
    requires Run(states, actions) && n < |states| && k < |states[n].callers| && states[n].callers[k].ReturnedNil?
    requires states[n].clean && NoneTimedOut(states[n])
    ensures
      var s := states[n];
      s.queued == [] && s.sent == s.processed + s.failed && s.accepted == |s.processed| + |s.failed|
  {
    RunConserves(states, actions, n);
    RunIsOrderly(states, actions, n);
    var s := states[n];
    assert s.workers[0].Exited? && SomeExited(s);
    NobodyAtWork(s, |s.workers|, |s.senders|);
    assert s.sent == s.processed + s.failed by {
      forall x ensures s.sent[x] == (s.processed + s.failed)[x] { assert multiset(s.queued)[x] == 0; }
    }
  }

  // ---- Why it takes both ----

  ghost predicate Reached(s: State) {
    exists states, actions :: Run(states, actions) && states[|states| - 1] == s
  }

  lemma Starts(s: State)
    requires Initial(s)
    ensures Reached(s)
  {
    assert Run([s], []);
  }

  lemma Goes(s: State, a: Action, t: State)
    requires Reached(s) && Enabled(s, a) && t == Act(s, a)
    ensures Reached(t)
  {
    hide Act, Enabled, Initial;
    var states, actions :| Run(states, actions) && states[|states| - 1] == s;
    assert Run(states + [t], actions + [a]);
  }

  const SMALLEST := State(1, 1, [], false, false, [Waiting], [Idle], [Away, Away], multiset{}, multiset{}, multiset{}, 0, 0, 0, true)

  /** One activity waits in the queue, accepted. */
  const HOLDING := SMALLEST.(queued := [7], sent := multiset{7}, offered := 1, accepted := 1)

  lemma HoldingIsReached()
    ensures Reached(HOLDING)
  {
    hide Reached;
    var s0 := SMALLEST;
    Starts(s0);
    var s1 := s0.(senders := [Checking([7])], offered := 1);
    Goes(s0, Begin(0, [7]), s1);
    var s2 := s1.(senders := [Sending([7])]);
    Goes(s1, Check(0), s2);
    var s3 := s2.(senders := [Counting([7])], queued := [7], sent := multiset{7});
    Goes(s2, Send(0), s3);
    Goes(s3, CountSent(0), HOLDING);
  }

  const ABANDONED := HOLDING.(callers := [ReturnedTimeout, Away], workers := [Exited], done := true, cancelled := true)

  lemma AbandonedIsReached()
    ensures Reached(ABANDONED)
  {
    hide Reached;
    HoldingIsReached();
    var s1 := HOLDING.(callers := [Blocked, Away], done := true);
    Goes(HOLDING, Shutdown(0), s1);
    var s2 := s1.(callers := [ReturnedTimeout, Away], cancelled := true);
    Goes(s1, TimeOut(0), s2);
    Goes(s2, Exit(0), ABANDONED);
  }

  ghost predicate NilOverQueued(s: State, k: nat) {
    k < |s.callers| && s.callers[k].ReturnedNil? && AllIdle(s) && s.queued != [] && s.accepted == 1
  }

  /** After a shutdown that timed out, a second one finds the workers gone and reports success over an
      activity that was accepted and never evaluated. */
  lemma SecondShutdownMayLie()
    ensures exists s :: Reached(s) && s.clean && NilOverQueued(s, 1)
  {
    hide Reached;
    AbandonedIsReached();
    var s1 := ABANDONED.(callers := [ReturnedTimeout, Blocked]);
    Goes(ABANDONED, Shutdown(1), s1);
    var s2 := s1.(callers := [ReturnedTimeout, ReturnedNil]);
    Goes(s1, Drained(1), s2);
    assert NilOverQueued(s2, 1);
  }

  const CLOSED := SMALLEST.(senders := [Sending([7])], offered := 1, callers := [ReturnedNil, Away], workers := [Exited], done := true, cancelled := true, clean := false)

  lemma ClosingIsReached()
    ensures Reached(CLOSED.(callers := [Blocked, Away], workers := [Waiting], cancelled := false))
  {
    hide Reached;
    var s0 := SMALLEST;
    Starts(s0);
    var s1 := s0.(senders := [Checking([7])], offered := 1);
    Goes(s0, Begin(0, [7]), s1);
    var s2 := s1.(senders := [Sending([7])]);
    Goes(s1, Check(0), s2);
    Goes(s2, Shutdown(0), CLOSED.(callers := [Blocked, Away], workers := [Waiting], cancelled := false));
  }

  lemma ClosedIsReached()
    ensures Reached(CLOSED)
  {
    hide Reached;
    ClosingIsReached();
    var s1 := CLOSED.(callers := [Blocked, Away], workers := [Draining], cancelled := false);
    Goes(CLOSED.(callers := [Blocked, Away], workers := [Waiting], cancelled := false), StartDraining(0), s1);
    var s2 := s1.(workers := [Exited]);
    Goes(s1, Exit(0), s2);
    Goes(s2, Drained(0), CLOSED);
  }

  /** A delivery that had checked before the shutdown began may still send after the workers have gone. */
  lemma LateSendMayBeLost()
    ensures exists s :: Reached(s) && NoneTimedOut(s) && NilOverQueued(s, 0)
  {
    hide Reached;
    ClosedIsReached();
    var s1 := CLOSED.(senders := [Counting([7])], queued := [7], sent := multiset{7});
    Goes(CLOSED, Send(0), s1);
    var s2 := s1.(senders := [Idle], accepted := 1);
    Goes(s1, CountSent(0), s2);
    assert NilOverQueued(s2, 0);
  }
}
