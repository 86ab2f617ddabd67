/** Delivery passes interleaved on one top-tier award, as when one has lost its lease and another runs
    beside it. Any number of them take atomic steps in any order; no call fails and none crashes.

    A pass reads the row, reads what GitLab lists, awards or adopts, and records by compare-and-set;
    a loser takes its own award back off (deliverAward). */
module AwardRace {
  /** A row is delivered once it is accepted under an ID. One that is not may still record an earlier award,
      from before a retune withdrew its tier or a delivery failed. */
  datatype Row = Row(delivered: bool, record: int)

  /** Where one pass stands in deliverAward. */
  datatype Stage =
    | Outside
    | HasRead(row: Row)
    | HasListed(row: Row, found: int)
    | HasAwarded(row: Row, made: int)
    | MustRevoke(made: int)
    | Finished

  /** The row, the live GitLab awards of its achievement and user, and every pass; `nextId` is
      larger than any ID GitLab has given out. */
  datatype State = State(row: Row, live: set<int>, nextId: int, passes: map<int, Stage>)

  ghost predicate Init(s: State) {
    && s.nextId >= 1 && (forall x :: x in s.live ==> 0 < x < s.nextId)
    && (forall p :: p in s.passes ==> s.passes[p] == Outside)
    // Delivered and recorded, or undelivered, whatever it records, with at most one award still live.
    && (if s.row.delivered then s.live <= {s.row.record} && 0 < s.row.record < s.nextId else s.row.record < s.nextId)
    && (forall x, y :: x in s.live && y in s.live ==> x == y)
  }

  ghost predicate Reads(s: State, t: State, p: int) {
    && p in s.passes && s.passes[p] == Outside
    && t == s.(passes := s.passes[p := if s.row.delivered then Finished else HasRead(s.row)])
  }

  /** Any live award will do; none is found only when there is none. */
  ghost predicate Lists(s: State, t: State, p: int, found: int) {
    && p in s.passes && s.passes[p].HasRead?
    && (if s.live == {} then found == 0 else found in s.live)
    && t == s.(passes := s.passes[p := HasListed(s.passes[p].row, found)])
  }

  ghost predicate Awards(s: State, t: State, p: int) {
    && p in s.passes && s.passes[p].HasListed? && s.passes[p].found == 0
    && t == s.(live := s.live + {s.nextId}, nextId := s.nextId + 1, passes := s.passes[p := HasAwarded(s.passes[p].row, s.nextId)])
  }

  ghost predicate Adopts(s: State, t: State, p: int) {
    && p in s.passes && s.passes[p].HasListed? && s.passes[p].found != 0
    && t == s.(row := Swap(s.row, s.passes[p].row, s.passes[p].found), passes := s.passes[p := Finished])
  }

  ghost predicate Records(s: State, t: State, p: int) {
    && p in s.passes && s.passes[p].HasAwarded?
    && t == s.(row := Swap(s.row, s.passes[p].row, s.passes[p].made),
               passes := s.passes[p := if s.row == s.passes[p].row then Finished else MustRevoke(s.passes[p].made)])
  }

  ghost predicate Revokes(s: State, t: State, p: int) {
    && p in s.passes && s.passes[p].MustRevoke?
    && t == s.(live := s.live - {s.passes[p].made}, passes := s.passes[p := Finished])
  }

  /** The compare-and-set. */
  function Swap(current: Row, read: Row, record: int): Row {
    if current == read then Row(true, record) else current
  }

  datatype Action = Read | List(found: int) | Award | Adopt | Record | Revoke

  ghost predicate Step(s: State, t: State, p: int, action: Action) {
    match action
    case Read => Reads(s, t, p)
    case List(found) => Lists(s, t, p, found)
    case Award => Awards(s, t, p)
    case Adopt => Adopts(s, t, p)
    case Record => Records(s, t, p)
    case Revoke => Revokes(s, t, p)
  }

  ghost predicate Next(s: State, t: State) {
    exists p, action :: Step(s, t, p, action)
  }

  ghost predicate IsRun(states: seq<State>) {
    && |states| > 0 && Init(states[0])
    && forall i :: 0 <= i < |states| - 1 ==> Next(states[i], states[i + 1])
  }

  // ---- Every live award is the recorded one, or some pass still answers for it ----

  ghost predicate AnsweredFor(s: State, x: int) {
    exists p :: p in s.passes &&
      (s.passes[p] == MustRevoke(x) || (s.passes[p].HasAwarded? && s.passes[p].made == x))
  }

  /** A leftover from before the run, unrecorded: nobody awards while it is there. */
  ghost predicate Leftover(s: State, x: int) {
    && s.live == {x} && !s.row.delivered
    && forall p :: p in s.passes ==> s.passes[p].Outside? || s.passes[p].HasRead? || (s.passes[p].HasListed? && s.passes[p].found == x)
  }

  /** An undelivered row changes only by being delivered. */
  ghost predicate AsRead(s: State, row: Row) {
    !row.delivered && (s.row == row || s.row.delivered)
  }

  ghost predicate StageOk(s: State, stage: Stage) {
    match stage
    case Outside => true
    case HasRead(row) => AsRead(s, row)
    case HasListed(row, found) => AsRead(s, row) && 0 <= found < s.nextId
    case HasAwarded(row, made) => AsRead(s, row) && 0 < made < s.nextId
    case MustRevoke(made) => s.row.delivered && 0 < made < s.nextId
    case Finished => s.row.delivered
  }

  ghost predicate BoundsOk(s: State) {
    && s.nextId >= 1 && (forall x :: x in s.live ==> 0 < x < s.nextId)
    && (s.row.delivered ==> 0 < s.row.record < s.nextId)
    && (forall p :: p in s.passes ==> StageOk(s, s.passes[p]))
  }

  ghost predicate Accounted(s: State) {
    forall x :: x in s.live ==> (s.row.delivered && x == s.row.record) || AnsweredFor(s, x)
  }

  ghost predicate Inv(s: State) {
    BoundsOk(s) && ((exists x :: Leftover(s, x)) || Accounted(s))
  }

  lemma InitKeepsInv(s: State)
    requires Init(s)
    ensures Inv(s)
  {
    if !s.row.delivered {
      forall x | x in s.live ensures Leftover(s, x) {
        forall y | y in s.live ensures y == x { }
      }
    }
  }

  lemma AnswersStay(s: State, t: State, p: int, x: int)
    requires AnsweredFor(s, x) && p in s.passes && s.passes.Keys == t.passes.Keys
    requires forall q :: q in s.passes && q != p ==> t.passes[q] == s.passes[q]
    requires s.passes[p].MustRevoke? || s.passes[p].HasAwarded? ==>
      t.passes[p] == MustRevoke(s.passes[p].made) || x != s.passes[p].made
    ensures AnsweredFor(t, x)
  {
    var q :| q in s.passes && (s.passes[q] == MustRevoke(x) || (s.passes[q].HasAwarded? && s.passes[q].made == x));
    if q == p {
      assert t.passes[p] == MustRevoke(x);
    } else {
      assert t.passes[q] == s.passes[q];
    }
  }

  lemma StepKeepsBounds(s: State, t: State, p: int, action: Action)
    requires BoundsOk(s) && Step(s, t, p, action)
    ensures BoundsOk(t)
  {
    forall q | q in t.passes ensures StageOk(t, t.passes[q]) {
      assert StageOk(s, s.passes[q]) && StageOk(s, s.passes[p]);
    }
  }

  lemma StepKeepsLeftover(s: State, t: State, p: int, action: Action, x: int)
    requires BoundsOk(s) && Leftover(s, x) && Step(s, t, p, action)
    ensures Leftover(t, x) || Accounted(t)
  {
    assert s.passes[p].Outside? || s.passes[p].HasRead? || (s.passes[p].HasListed? && s.passes[p].found == x);
    assert x in s.live && StageOk(s, s.passes[p]);
  }

  lemma StepKeepsAccounts(s: State, t: State, p: int, action: Action)
    requires BoundsOk(s) && Accounted(s) && Step(s, t, p, action)
    ensures Accounted(t)
  {
    assert StageOk(s, s.passes[p]);
    forall x | x in t.live && !(t.row.delivered && x == t.row.record) ensures AnsweredFor(t, x) {
      if x in s.live && AnsweredFor(s, x) {
        AnswersStay(s, t, p, x);
      } else if x !in s.live {
        assert x == s.nextId && t.passes[p] == HasAwarded(s.passes[p].row, x);
      }
    }
  }

  lemma NextKeepsInv(s: State, t: State)
    requires Inv(s) && Next(s, t)
    ensures Inv(t)
  {
    var p, action :| Step(s, t, p, action);
    StepKeepsBounds(s, t, p, action);
    if x :| Leftover(s, x) {
      StepKeepsLeftover(s, t, p, action, x);
    } else {
      StepKeepsAccounts(s, t, p, action);
    }
  }

  lemma {:induction false} RunKeepsInv(states: seq<State>, i: nat)
    requires IsRun(states) && i < |states|
    ensures Inv(states[i]) && states[i].passes.Keys == states[0].passes.Keys
  {
    if i == 0 {
      InitKeepsInv(states[0]);
    } else {
      RunKeepsInv(states, i - 1);
      NextKeepsInv(states[i - 1], states[i]);
    }
  }

  /** When every pass has finished, every live award is the one the row records, so there is at most
      one; nothing says that one survived. */
  lemma FinishedPassesAgree(states: seq<State>)
    requires IsRun(states) && exists p :: p in states[0].passes
    requires var s := states[|states| - 1]; forall p :: p in s.passes ==> s.passes[p] == Finished
    ensures
      var s := states[|states| - 1];
      s.row.delivered && s.live <= {s.row.record}
  {
    RunKeepsInv(states, |states| - 1);
    var s := states[|states| - 1];
    var p :| p in states[0].passes;
    assert p in s.passes && StageOk(s, s.passes[p]);
    forall x | x in s.live ensures x == s.row.record {
      assert !Leftover(s, x) && !AnsweredFor(s, x);
    }
  }
}
