// The engine's frame pacing: a frame duration taken from the target frame
// rate, and a schedule of frame timestamps that advances by one duration
// per frame and jumps ahead when the game falls too far behind. Time is an
// integer count of microseconds passed in by the caller; sleeping and the
// suspend loop are not modelled (the model returns how long it would sleep).
module FrameTimer {
  import opened CInt

  const MICROS_PER_SECOND: int := 1000000
  /** How many whole frames the schedule may lag before it jumps ahead. */
  const MAXIMUM_FALL_BEHIND: int := 3
  /** From this frame rate on, frames are not paced at all. */
  const MAXED_FPS: int := 1000
  const DEFAULT_FPS: int := 40

  /** The two frame timestamps: when the last frame was due and when the
      next one is. */
  datatype Schedule = Schedule(lastTick: int, nextFrame: int)

  /** Whether the schedule has fallen more than the allowed frames behind. */
  predicate Lagging(nextFrame: int, duration: int, now: int)
  {
    nextFrame < now - MAXIMUM_FALL_BEHIND * duration
  }

  /** WaitForNextFrame on the timestamps: without pacing the last tick
      becomes the old next frame and the next frame is now; otherwise the
      schedule first jumps to now if it lags, then advances one frame. */
  function Advance(s: Schedule, duration: int, now: int): (r: Schedule)
  {
    if duration <= 0 then Schedule(s.nextFrame, now)
    else
      var next := if Lagging(s.nextFrame, duration, now) then now else s.nextFrame;
      Schedule(next, next + duration)
  }

  /** How long WaitForNextFrame sleeps: until the (possibly jumped) next
      frame, when that is still ahead. */
  function SleepTime(s: Schedule, duration: int, now: int): (t: int)
    ensures t >= 0
  {
    if duration <= 0 then 0
    else
      var next := if Lagging(s.nextFrame, duration, now) then now else s.nextFrame;
      if next - now > 0 then next - now else 0
  }

  /** A paced frame: frames are exactly one duration apart, the wait ends
      no earlier than the frame it waits for, a frame on schedule is
      waited for exactly, and the schedule ends up at most two frames
      behind the clock. */
  lemma PacedFrame(s: Schedule, duration: int, now: int)
    requires duration > 0
    ensures var r := Advance(s, duration, now);
      r.nextFrame - r.lastTick == duration &&
      now + SleepTime(s, duration, now) >= r.lastTick &&
      (!Lagging(s.nextFrame, duration, now) ==> r.lastTick == s.nextFrame) &&
      (s.nextFrame >= now ==> SleepTime(s, duration, now) == s.nextFrame - now) &&
      r.nextFrame >= now - (MAXIMUM_FALL_BEHIND - 1) * duration
  {
  }

  /** Without pacing nothing is slept and the next frame is "now". */
  lemma UnpacedFrame(s: Schedule, duration: int, now: int)
    requires duration <= 0
    ensures Advance(s, duration, now) == Schedule(s.nextFrame, now) && SleepTime(s, duration, now) == 0
  {
  }

  /** The schedule after a sequence of frames, one clock reading each. */
  function AdvanceAll(s: Schedule, duration: int, nows: seq<int>): Schedule
    decreases |nows|
  {
    if nows == [] then s else AdvanceAll(Advance(s, duration, nows[0]), duration, nows[1..])
  }

  /** While the game never falls more than the allowed frames behind, the
      schedule advances by exactly one duration per frame. */
  lemma {:induction false} KeepingUpAdvancesEvenly(s: Schedule, duration: int, nows: seq<int>)
    requires duration > 0
    requires forall i :: 0 <= i < |nows| ==> !Lagging(s.nextFrame + i * duration, duration, nows[i])
    ensures AdvanceAll(s, duration, nows).nextFrame == s.nextFrame + |nows| * duration
    decreases |nows|
  {
    if nows != [] {
      var s' := Advance(s, duration, nows[0]);
      assert !Lagging(s.nextFrame + 0 * duration, duration, nows[0]);
      assert s'.nextFrame == s.nextFrame + duration;
      forall i | 0 <= i < |nows[1..]|
        ensures !Lagging(s'.nextFrame + i * duration, duration, nows[1..][i])
      {
        assert !Lagging(s.nextFrame + (i + 1) * duration, duration, nows[i + 1]);
        assert (i + 1) * duration == i * duration + duration;
      }
      KeepingUpAdvancesEvenly(s', duration, nows[1..]);
      assert |nows| * duration == (|nows| - 1) * duration + duration;
    }
  }

  /** The tick for a frame rate is the whole number of microseconds per
      frame, rounded down; up to one million frames a second it is
      positive. */
  lemma TickIsFloor(fps: int)
    requires fps > 0
    ensures var tick := CDiv(MICROS_PER_SECOND, fps);
      tick * fps <= MICROS_PER_SECOND < (tick + 1) * fps &&
      (fps <= MICROS_PER_SECOND ==> tick >= 1)
  {
    var tick := MICROS_PER_SECOND / fps;
    assert MICROS_PER_SECOND == tick * fps + MICROS_PER_SECOND % fps;
    assert (tick + 1) * fps == tick * fps + fps;
  }

  /** The timer's module state. */
  class TimerState {
    var tickDuration: int
    var framerate: int
    var framerateMaxed: bool
    var lastTickTime: int
    var nextFrameTimestamp: int

    function GetSchedule(): Schedule
      reads this
    {
      Schedule(lastTickTime, nextFrameTimestamp)
    }

    /** The timer starts at 40 frames a second, with no frame rate set yet
        and both timestamps at the start time. */
    constructor (start: int)
      ensures tickDuration == CDiv(MICROS_PER_SECOND, DEFAULT_FPS) && framerate == 0 && !framerateMaxed
      ensures lastTickTime == start && nextFrameTimestamp == start
    {
      tickDuration := CDiv(MICROS_PER_SECOND, DEFAULT_FPS);
      framerate := 0;
      framerateMaxed := false;
      lastTickTime := start;
      nextFrameTimestamp := start;
    }

    /** GetFrameDuration: no pacing when maxed, else the tick. */
    function GetFrameDuration(): (d: int)
      reads this
      ensures framerateMaxed ==> d == 0
      ensures !framerateMaxed ==> d == tickDuration
    {
      if framerateMaxed then 0 else tickDuration
    }

    /** setTimerFps: the tick follows the new rate, pacing stops from 1000
        frames a second, the next frame is one tick after the last, and
        the previous rate is returned. */
    method SetTimerFps(newFps: int) returns (oldFps: int)
      requires newFps != 0
      modifies this
      ensures oldFps == old(framerate) && framerate == newFps
      ensures tickDuration == CDiv(MICROS_PER_SECOND, newFps)
      ensures framerateMaxed <==> newFps >= MAXED_FPS
      ensures lastTickTime == old(lastTickTime) && nextFrameTimestamp == lastTickTime + tickDuration
    {
      oldFps := framerate;
      tickDuration := CDiv(MICROS_PER_SECOND, newFps);
      framerate := newFps;
      framerateMaxed := newFps >= MAXED_FPS;
      nextFrameTimestamp := lastTickTime + tickDuration;
    }

    method IsTimerFpsMaxed() returns (maxed: bool)
      ensures maxed == framerateMaxed
    {
      maxed := framerateMaxed;
    }

    /** WaitForNextFrame at clock time `now`: returns how long it sleeps. */
    method WaitForNextFrame(now: int) returns (sleep: int)
      modifies this
      ensures GetSchedule() == Advance(old(GetSchedule()), old(GetFrameDuration()), now)
      ensures sleep == SleepTime(old(GetSchedule()), old(GetFrameDuration()), now)
      ensures tickDuration == old(tickDuration) && framerate == old(framerate) && framerateMaxed == old(framerateMaxed)
    {
      var frameDuration := GetFrameDuration();
      if frameDuration <= 0 {
        lastTickTime := nextFrameTimestamp;
        nextFrameTimestamp := now;
        return 0;
      }
      if nextFrameTimestamp < now - MAXIMUM_FALL_BEHIND * frameDuration {
        nextFrameTimestamp := now;
      }
      var frameTimeRemaining := nextFrameTimestamp - now;
      sleep := 0;
      if frameTimeRemaining > 0 {
        sleep := frameTimeRemaining;
      }
      lastTickTime := nextFrameTimestamp;
      nextFrameTimestamp := nextFrameTimestamp + frameDuration;
    }

    /** skipMissedTicks: both timestamps are set from the clock (read once
        for each). */
    method SkipMissedTicks(firstNow: int, secondNow: int)
      modifies this
      ensures lastTickTime == firstNow && nextFrameTimestamp == secondNow
      ensures tickDuration == old(tickDuration) && framerate == old(framerate) && framerateMaxed == old(framerateMaxed)
    {
      lastTickTime := firstNow;
      nextFrameTimestamp := secondNow;
    }
  }
}
