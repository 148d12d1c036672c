/** The playback clock of an animated image: which frame is shown (`_currentIndex`) and how long
    it has been shown (`_deltaAccumulated`), advanced once per host frame by `OnUpdate`.
    Frame delays are the `fdelay` values the GIF loader reads from each frame's Graphic Control
    Extension (section 23 of the GIF89a specification), in seconds. */
module Playback {

  datatype Clock = Clock(index: nat, accumulated: real)

  /** One call of `OnUpdate`: the elapsed time and whether the current frame's `DrawTo` throws. */
  datatype Tick = Tick(timeDelta: real, drawThrows: bool)

  /** The frame after `index`, wrapping from the last frame to the first. */
  function NextIndex(index: nat, count: nat): (next: nat)
    requires index < count
    ensures next < count
    ensures next == (index + 1) % count
  {
    if index < count - 1 then index + 1 else 0
  }

  /** A call composites the current frame exactly when no time has accumulated on it yet. */
  predicate Composites(c: Clock)
  {
    c.accumulated == 0.0
  }

  /** Whether a call moves on to the next frame: the draw did not abort the call and the
      accumulated time reached the current frame's delay. */
  predicate Moves(delays: seq<real>, c: Clock, t: Tick)
    requires c.index < |delays|
  {
    !(Composites(c) && t.drawThrows) && c.accumulated + t.timeDelta >= delays[c.index]
  }

  /** The clock after one `OnUpdate` call on an animation with frames. */
  function Advance(delays: seq<real>, c: Clock, t: Tick): (r: Clock)
    requires c.index < |delays|
    ensures r.index < |delays|
    ensures r.index == if Moves(delays, c, t) then NextIndex(c.index, |delays|) else c.index
    ensures r.accumulated == 0.0 || r.accumulated < delays[r.index]
    ensures Composites(c) && t.drawThrows ==> r == c
    ensures Moves(delays, c, t) ==> r.accumulated == 0.0
    ensures !(Composites(c) && t.drawThrows) && !Moves(delays, c, t) ==>
      r.accumulated == c.accumulated + t.timeDelta
  {
    if Composites(c) && t.drawThrows then c
    else
      var accumulated := c.accumulated + t.timeDelta;
      if accumulated >= delays[c.index] then Clock(NextIndex(c.index, |delays|), 0.0)
      else Clock(c.index, accumulated)
  }

  /** There is no catch-up: once a call's time reaches the frame's delay, how far past the delay
      it goes makes no difference, and the clock lands on the next frame at time zero. */
  lemma ExcessTimeDiscarded(delays: seq<real>, c: Clock, t1: Tick, t2: Tick)
    requires c.index < |delays|
    requires Moves(delays, c, t1) && Moves(delays, c, t2)
    ensures Advance(delays, c, t1) == Advance(delays, c, t2) == Clock(NextIndex(c.index, |delays|), 0.0)
  {
  }

  /** A frame whose `DrawTo` throws stalls playback: the clock never moves while every call throws. */
  lemma {:induction false} FailingDrawStalls(delays: seq<real>, c: Clock, ticks: seq<Tick>)
    requires c.index < |delays| && Composites(c)
    requires forall k :: 0 <= k < |ticks| ==> ticks[k].drawThrows
    ensures Run(delays, c, ticks) == c
  {
    if ticks != [] {
      FailingDrawStalls(delays, c, ticks[1..]);
    }
  }

  /** Successive `OnUpdate` calls. */
  function Run(delays: seq<real>, c: Clock, ticks: seq<Tick>): Clock
    requires c.index < |delays|
    decreases |ticks|
  {
    if ticks == [] then c else Run(delays, Advance(delays, c, ticks[0]), ticks[1..])
  }

  /** The time the calls report, in order. */
  function TotalTime(ticks: seq<Tick>): real
    decreases |ticks|
  {
    if ticks == [] then 0.0 else ticks[0].timeDelta + TotalTime(ticks[1..])
  }

  lemma {:induction false} TotalTimeNonNegative(ticks: seq<Tick>)
    requires forall k :: 0 <= k < |ticks| ==> ticks[k].timeDelta >= 0.0
    ensures TotalTime(ticks) >= 0.0
    decreases |ticks|
  {
    if ticks != [] {
      TotalTimeNonNegative(ticks[1..]);
    }
  }

  /** Calls whose draws succeed and whose times together stay below the current frame's delay
      add their times up on that frame: a frame longer than one call is still left once enough
      calls have gone by. */
  lemma {:induction false} TimeAccumulates(delays: seq<real>, c: Clock, ticks: seq<Tick>)
    requires c.index < |delays|
    requires forall k :: 0 <= k < |ticks| ==> !ticks[k].drawThrows && ticks[k].timeDelta >= 0.0
    requires c.accumulated + TotalTime(ticks) < delays[c.index]
    ensures Run(delays, c, ticks) == Clock(c.index, c.accumulated + TotalTime(ticks))
    ensures FramesMoved(delays, c, ticks) == 0
    decreases |ticks|
  {
    if ticks != [] {
      TotalTimeNonNegative(ticks[1..]);
      var next := Advance(delays, c, ticks[0]);
      assert !Moves(delays, c, ticks[0]);
      assert next == Clock(c.index, c.accumulated + ticks[0].timeDelta);
      TimeAccumulates(delays, next, ticks[1..]);
    }
  }

  /** How many of those calls moved to another frame. */
  function FramesMoved(delays: seq<real>, c: Clock, ticks: seq<Tick>): nat
    requires c.index < |delays|
    decreases |ticks|
  {
    if ticks == [] then 0
    else (if Moves(delays, c, ticks[0]) then 1 else 0) + FramesMoved(delays, Advance(delays, c, ticks[0]), ticks[1..])
  }

  /** `index` moved on by `m` frames, one at a time, wrapping after the last frame: the same
      frame as moving on by `m` modulo the frame count. */
  function Forward(index: nat, m: nat, count: nat): (r: nat)
    requires index < count
    ensures r < count
    ensures r == (index + m) % count
    decreases m
  {
    if m == 0 then
      ModUnique(index, count, 0, index);
      index
    else
      ModAddDivisor(m - 1, count);
      Forward(NextIndex(index, count), m - 1, count)
  }

  lemma {:induction false} MulAtLeast(k: nat, n: nat)
    requires 1 <= k
    ensures k * n >= n
  {
    if k > 1 {
      MulAtLeast(k - 1, n);
      assert k * n == (k - 1) * n + n;
    }
  }

  /** The remainder is the one `r` in range with `x == q * n + r`. */
  lemma ModUnique(x: int, n: nat, q: int, r: int)
    requires 0 < n && 0 <= r < n && x == q * n + r
    ensures x % n == r
  {
    var q', r' := x / n, x % n;
    assert x == q' * n + r';
    assert (q - q') * n == r' - r;
    if q > q' {
      MulAtLeast(q - q', n);
    } else if q < q' {
      MulAtLeast(q' - q, n);
    }
  }

  lemma ModAddDivisor(y: nat, n: nat)
    requires 0 < n
    ensures (y + n) % n == y % n
  {
    var q, r := y / n, y % n;
    assert y == q * n + r;
    assert y + n == (q + 1) * n + r;
    ModUnique(y + n, n, q + 1, r);
  }

  /** Any number of calls keeps the index in range and the time below the current frame's delay,
      and each call moves by at most one frame: after n calls the index has moved on by some
      m <= n frames, modulo the frame count. */
  lemma {:induction false} RunKeepsClockValid(delays: seq<real>, c: Clock, ticks: seq<Tick>)
    requires c.index < |delays|
    ensures Run(delays, c, ticks).index < |delays|
    ensures ticks != [] ==> var r := Run(delays, c, ticks); r.accumulated == 0.0 || r.accumulated < delays[r.index]
    ensures FramesMoved(delays, c, ticks) <= |ticks|
    ensures Run(delays, c, ticks).index == Forward(c.index, FramesMoved(delays, c, ticks), |delays|)
    ensures Run(delays, c, ticks).index == (c.index + FramesMoved(delays, c, ticks)) % |delays|
    decreases |ticks|
  {
    if ticks != [] {
      var next := Advance(delays, c, ticks[0]);
      RunKeepsClockValid(delays, next, ticks[1..]);
    }
  }

  /** Calls that each last exactly as long as the current frame's delay, and whose draws succeed,
      show every frame from `k` to the last once, each call moving on by one frame, and come back
      to the first frame at time zero. */
  lemma {:induction false} ExactDelaysWrapAround(delays: seq<real>, k: nat)
    requires k < |delays|
    ensures Run(delays, Clock(k, 0.0), ExactTicks(delays[k..])) == Clock(0, 0.0)
    ensures FramesMoved(delays, Clock(k, 0.0), ExactTicks(delays[k..])) == |delays| - k
    decreases |delays| - k
  {
    var ticks := ExactTicks(delays[k..]);
    var next := Advance(delays, Clock(k, 0.0), ticks[0]);
    assert Moves(delays, Clock(k, 0.0), ticks[0]);
    assert next == Clock(NextIndex(k, |delays|), 0.0);
    if k < |delays| - 1 {
      assert ticks[1..] == ExactTicks(delays[k + 1..]) by {
        assert delays[k..][1..] == delays[k + 1..];
      }
      ExactDelaysWrapAround(delays, k + 1);
    } else {
      assert ticks[1..] == [];
    }
  }

  /** One successful tick per delay. */
  function ExactTicks(delays: seq<real>): (ticks: seq<Tick>)
    ensures |ticks| == |delays|
    ensures forall k :: 0 <= k < |delays| ==> ticks[k] == Tick(delays[k], false)
  {
    if delays == [] then [] else [Tick(delays[0], false)] + ExactTicks(delays[1..])
  }

  function Sum(delays: seq<real>): real
  {
    if delays == [] then 0.0 else delays[0] + Sum(delays[1..])
  }

  lemma {:induction false} SumAtLeastFirst(delays: seq<real>)
    requires delays != []
    requires forall k :: 0 <= k < |delays| ==> delays[k] >= 0.0
    ensures Sum(delays) >= delays[0]
  {
    if |delays| > 1 {
      SumAtLeastFirst(delays[1..]);
    }
  }

  /** One call lasting a whole cycle plus any extra time moves a multi-frame animation on by one
      frame only, and drops the extra time: it does not come back to the first frame. */
  lemma OneLongTickMovesOneFrame(delays: seq<real>, extra: real)
    requires |delays| >= 2 && extra >= 0.0
    requires forall k :: 0 <= k < |delays| ==> delays[k] >= 0.0
    ensures Advance(delays, Clock(0, 0.0), Tick(Sum(delays) + extra, false)) == Clock(1, 0.0)
  {
    SumAtLeastFirst(delays);
  }
}
