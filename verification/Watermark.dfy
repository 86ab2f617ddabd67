/** The recent-window walk's watermark: which windows the successful passes cover between them. Times are
    in nanoseconds. */
module Watermark {
  const SECOND := 1_000_000_000
  const WATERMARK_SLACK := 3600 * SECOND

  datatype Mark = Never | At(time: int)

  datatype Window = Window(since: int, until: int, gap: int)

  /** A pass that started at some time, looking back some way, and went through or not. */
  datatype Pass = Pass(startedAt: int, lookback: nat, succeeds: bool)

  /** The stored timestamp keeps whole seconds. */
  function Truncate(time: int): int {
    time / SECOND * SECOND
  }

  function WindowOf(mark: Mark, startedAt: int, lookback: nat): Window {
    var since := startedAt - lookback;
    if mark.Never? then Window(since, startedAt, 0)
    else
      var fromWatermark := mark.time - WATERMARK_SLACK;
      if fromWatermark >= since then Window(since, startedAt, 0)
      else Window(fromWatermark, startedAt, since - fromWatermark)
  }

  /** The watermark advances on success only, to when the pass began. */
  function Advance(mark: Mark, p: Pass): Mark {
    if p.succeeds then At(Truncate(p.startedAt)) else mark
  }

  function MarkAfter(passes: seq<Pass>, n: nat): Mark
    requires n <= |passes|
  {
    if n == 0 then Never else Advance(MarkAfter(passes, n - 1), passes[n - 1])
  }

  class Watermark {
    var stored: Mark

    constructor ()
      ensures stored == Never
    {
      stored := Never;
    }

    method FindWindow(startedAt: int, lookback: nat) returns (since: int, gap: int)
      ensures Window(since, startedAt, gap) == WindowOf(stored, startedAt, lookback)
    {
      since := startedAt - lookback;
      if stored.Never? {
        return since, 0;
      }
      var fromWatermark := stored.time - WATERMARK_SLACK;
      if fromWatermark >= since {
        return since, 0;
      }
      return fromWatermark, since - fromWatermark;
    }

    method MarkCompleted(startedAt: int)
      modifies this
      ensures stored == At(Truncate(startedAt))
    {
      stored := At(Truncate(startedAt));
    }

    /** One pass, whose walk succeeds or not. */
    method Run(p: Pass) returns (window: Window)
      modifies this
      ensures window == WindowOf(old(stored), p.startedAt, p.lookback) && stored == Advance(old(stored), p)
    {
      var since, gap := FindWindow(p.startedAt, p.lookback);
      window := Window(since, p.startedAt, gap);
      if p.succeeds {
        MarkCompleted(p.startedAt);
      }
    }

    /** A history of passes reports the windows that the specification gives them. */
    method RunAll(passes: seq<Pass>) returns (windows: seq<Window>)
      requires stored == Never
      modifies this
      ensures |windows| == |passes| && stored == MarkAfter(passes, |passes|)
      ensures forall i :: 0 <= i < |passes| ==> windows[i] == Covered(passes, i)
    {
      windows := [];
      for n := 0 to |passes|
        invariant |windows| == n && stored == MarkAfter(passes, n)
        invariant forall i :: 0 <= i < n ==> windows[i] == Covered(passes, i)
      {
        var window := Run(passes[n]);
        windows := windows + [window];
      }
    }
  }

  // ---- What a run of passes covers ----

  /** The window of the n-th pass. */
  function Covered(passes: seq<Pass>, n: nat): Window
    requires n < |passes|
  {
    WindowOf(MarkAfter(passes, n), passes[n].startedAt, passes[n].lookback)
  }

  ghost predicate Clocked(passes: seq<Pass>) {
    forall i, j :: 0 <= i < j < |passes| ==> passes[i].startedAt <= passes[j].startedAt
  }

  /** The last success among the first n, or -1. */
  function LastSuccess(passes: seq<Pass>, n: nat): (l: int)
    requires n <= |passes|
    ensures -1 <= l < n && (l >= 0 ==> passes[l].succeeds) && forall i :: l < i < n ==> !passes[i].succeeds
  {
    if n == 0 then -1 else if passes[n - 1].succeeds then n - 1 else LastSuccess(passes, n - 1)
  }

  lemma {:induction false} MarkIsLastSuccess(passes: seq<Pass>, n: nat)
    requires n <= |passes|
    ensures
      var l := LastSuccess(passes, n);
      MarkAfter(passes, n) == if l < 0 then Never else At(Truncate(passes[l].startedAt))
  {
    if n > 0 { MarkIsLastSuccess(passes, n - 1); }
  }

  lemma TruncationIsShort(time: int)
    ensures Truncate(time) <= time < Truncate(time) + SECOND
  {
  }

  /** However many passes failed or were missed, a window reaches back past the last successful start, by
      an hour and by less than a second more unless the look-back asks for more; and the gap reported is
      exactly how far it reaches past the look-back. */
  lemma WindowsOverlap(passes: seq<Pass>, n: nat)
    requires n < |passes|
    ensures
      var l, w := LastSuccess(passes, n), Covered(passes, n);
      var lookback := passes[n].startedAt - passes[n].lookback;
      && w.gap >= 0 && w.since == lookback - w.gap && w.until == passes[n].startedAt
      && (l < 0 ==> w.gap == 0)
      && (l >= 0 ==>
            && w.since <= passes[l].startedAt - WATERMARK_SLACK
            && (w.gap > 0 ==> passes[l].startedAt - WATERMARK_SLACK - SECOND < w.since)
            && (w.gap > 0 <==> Truncate(passes[l].startedAt) - WATERMARK_SLACK < lookback))
  {
    MarkIsLastSuccess(passes, n);
    var l := LastSuccess(passes, n);
    if l >= 0 { TruncationIsShort(passes[l].startedAt); }
  }

  ghost predicate Reads(passes: seq<Pass>, i: nat, t: int)
    requires i < |passes|
  {
    passes[i].succeeds && Covered(passes, i).since <= t <= Covered(passes, i).until
  }

  /** An instant some successful pass among the first n has read. */
  ghost predicate IsRead(passes: seq<Pass>, n: nat, t: int)
    requires n <= |passes|
  {
    exists i :: 0 <= i < n && Reads(passes, i, t)
  }

  /** The windows of the successful passes leave no hole: every instant from where the first one's window
      starts to when the last one started has been read. */
  lemma {:induction false} NoHoles(passes: seq<Pass>, first: nat, n: nat, t: int)
    requires first < n <= |passes| && Clocked(passes) && passes[first].succeeds
    requires Covered(passes, first).since <= t <= passes[LastSuccess(passes, n)].startedAt
    ensures IsRead(passes, n, t)
  {
    var last := LastSuccess(passes, n);
    if t >= Covered(passes, last).since {
      assert Covered(passes, last).until == passes[last].startedAt;
      assert Reads(passes, last, t);
    } else {
      assert first != last;
      WindowsOverlap(passes, last);
      NoHoles(passes, first, last, t);
      var i :| 0 <= i < last && Reads(passes, i, t);
    }
  }
}
