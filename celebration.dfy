/**
 * The celebration on a new match: at most one every three seconds, confetti
 * unless reduced motion is preferred, and the sound effect unless reduced
 * motion is preferred or the mute box is ticked.
 */
module Celebration {
  import opened Wrappers
  import Confetti

  /** The minimum gap between two celebrations, in milliseconds. */
  const ThrottleMs: int := 3000

  /** The options celebrateOnce passes to fireConfetti. */
  const BurstOptions: Confetti.Options :=
    Confetti.Options(Some(1200.0), Some(150.0), None, None)

  /**
   * What the page offers at the moment of the call: the reduced-motion
   * preference, whether fireConfetti is loaded, whether the audio element
   * exists, and the mute checkbox (None when the page has none).
   */
  datatype Env = Env(reducedMotion: bool, confettiLoaded: bool, soundPresent: bool, muteBox: Option<bool>)

  /** What one call sets off: a confetti burst with these options, and whether the sound is played. */
  datatype Effects = Effects(confetti: Option<Confetti.Options>, sound: bool)

  const Nothing: Effects := Effects(None, false)

  /** The effects of a call that is not throttled. */
  function Reaction(env: Env): (fx: Effects)
    ensures fx.confetti.Some? <==> !env.reducedMotion && env.confettiLoaded
    ensures fx.confetti.Some? ==> fx.confetti.value == BurstOptions
    ensures fx.sound <==> env.soundPresent && !env.reducedMotion && env.muteBox != Some(true)
  {
    Effects(if !env.reducedMotion && env.confettiLoaded then Some(BurstOptions) else None,
            env.soundPresent && !env.reducedMotion && !(env.muteBox.Some? && env.muteBox.value))
  }

  /** Whether a call at `now` is let through after the last celebration at `last`. */
  predicate Allowed(last: int, now: int)
  {
    now - last >= ThrottleMs
  }

  /**
   * One call on values: the new `lastCelebrationAt` and the effects. The
   * stored time moves exactly when the call is let through.
   */
  function Celebrate(last: int, now: int, env: Env): (r: (int, Effects))
    ensures !Allowed(last, now) ==> r == (last, Nothing)
    ensures Allowed(last, now) ==> r.0 == now && r.1 == Reaction(env)
    ensures r.0 != last <==> Allowed(last, now)
  {
    if !Allowed(last, now) then (last, Nothing) else (now, Reaction(env))
  }

  /** Under reduced motion a celebration is silent and still: it only moves the throttle. */
  lemma ReducedMotionMeansNoEffects(last: int, now: int, env: Env)
    requires env.reducedMotion
    ensures Celebrate(last, now, env).1 == Nothing
  {
  }

  /** `lastCelebrationAt` after a run of calls, each a time and the page's state at that time. */
  function LastAfter(last: int, calls: seq<(int, Env)>): int
    decreases |calls|
  {
    if calls == [] then last
    else LastAfter(Celebrate(last, calls[0].0, calls[0].1).0, calls[1..])
  }

  /** The times, among `calls`, at which a celebration happens: the calls that move the stored time. */
  function Fired(last: int, calls: seq<(int, Env)>): seq<int>
    decreases |calls|
  {
    if calls == [] then []
    else
      var next := Celebrate(last, calls[0].0, calls[0].1).0;
      (if next != last then [next] else []) + Fired(next, calls[1..])
  }

  /** The times `f` are at least three seconds apart, and the first is at least three seconds after `last`. */
  ghost predicate Spaced(last: int, f: seq<int>)
  {
    (f != [] ==> f[0] - last >= ThrottleMs) &&
    (forall i | 0 < i < |f| :: f[i] - f[i - 1] >= ThrottleMs)
  }

  lemma SpacedCons(last: int, t: int, rest: seq<int>)
    requires t - last >= ThrottleMs && Spaced(t, rest)
    ensures Spaced(last, [t] + rest)
  {
    var f := [t] + rest;
    forall i | 0 < i < |f| ensures f[i] - f[i - 1] >= ThrottleMs {
      if i > 1 {
        assert f[i] == rest[i - 1] && f[i - 1] == rest[i - 2];
      }
    }
  }

  /** The last of the times `f`, or `last` when there is none. */
  function LastOr(last: int, f: seq<int>): int
  {
    if f == [] then last else f[|f| - 1]
  }

  lemma LastOfCons(last: int, t: int, rest: seq<int>)
    ensures LastOr(last, [t] + rest) == LastOr(t, rest)
  {
  }

  /**
   * Whatever the call times, celebrations that happen are at least three
   * seconds apart (and three seconds after the starting value), and the
   * final `lastCelebrationAt` is the last of them.
   */
  lemma {:induction false} FiredAreSpaced(last: int, calls: seq<(int, Env)>)
    ensures Spaced(last, Fired(last, calls))
    ensures LastAfter(last, calls) == LastOr(last, Fired(last, calls))
    decreases |calls|
  {
    if calls != [] {
      var t := calls[0].0;
      var next := Celebrate(last, t, calls[0].1).0;
      var tail := calls[1..];
      FiredAreSpaced(next, tail);
      var rest := Fired(next, tail);
      assert LastAfter(last, calls) == LastAfter(next, tail);
      if next != last {
        assert next == t && t - last >= ThrottleMs;
        assert Fired(last, calls) == [t] + rest;
        SpacedCons(last, t, rest);
        LastOfCons(last, t, rest);
      } else {
        assert Fired(last, calls) == rest;
      }
    }
  }

  /** The closure state of the page script that celebrateOnce reads and writes. */
  class Celebrator {
    var lastCelebrationAt: int

    constructor()
      ensures lastCelebrationAt == 0
    {
      lastCelebrationAt := 0;
    }

    /** `celebrateOnce()` at time `now`. */
    method CelebrateOnce(now: int, env: Env) returns (fx: Effects)
      modifies this
      ensures (lastCelebrationAt, fx) == Celebrate(old(lastCelebrationAt), now, env)
    {
      if now - lastCelebrationAt < ThrottleMs {
        return Nothing;
      }
      lastCelebrationAt := now;
      fx := Reaction(env);
    }
  }
}
