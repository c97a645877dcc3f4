/**
 * The 'finished' listeners are never deregistered: `removeEventListener` is
 * given `onActionFinished`, which was never registered, instead of the arrow
 * function that was. So the EARLIEST listener ever armed answers every later
 * 'finished' event of the active clip, with the next action it was armed
 * with long ago. This module shows the consequence on the code as written and
 * proves that a listener removing itself when it fires gives the intended
 * behaviour.
 */
module ListenerFix {
  import opened Wrappers
  import opened Machine
  import opened Properties

  // ---------------------------------------------------------------- as written

  /**
   * Sitting down after any one-shot whose listener switches to stand (a kick,
   * a jump, a collision, standing up): when the sit-down clip finishes, the
   * old listener fires first and the character plays stand while still
   * flagged as sitting.
   */
  lemma LeakedListenerWins(s: State, invLen: real)
    requires invLen > 0.0
    requires Consistent(s) && Ready(s) && s.keys.c && !s.isSitting && !s.isActionPlaying
    requires s.keys.w == s.keys.s && s.keys.a == s.keys.d
    requires s.listeners != [] && s.listeners[0] == Some(Stand)
    ensures var r := Finished(Tick(s, invLen), StandToSeat);
            r.isSitting && r.active == Stand && !r.isActionPlaying
  {
    SitDown(s, invLen);
    var t := Tick(s, invLen);
    ConsistentTick(s, invLen);
    assert t.listeners[0] == Some(Stand);
    FinishedActiveOneShot(t, StandToSeat);
  }

  /** A kick from a fresh ready state leaves a listener armed with stand behind. */
  lemma KickLeavesStandListener(s: State, invLen: real)
    requires invLen > 0.0
    requires Consistent(s) && Ready(s) && s.listeners == [] && !s.isSitting && !s.isActionPlaying
    requires s.keys == NoKeys.(k := true)
    ensures var r := Finished(Tick(s, invLen), Kick);
            Consistent(r) && Ready(r) && r.listeners == [Some(Stand)] &&
            r.active == Stand && !r.isSitting && !r.isActionPlaying && r.keys == NoKeys
  {
    TriggersLatch(s, invLen);
    var t := Tick(s, invLen);
    ConsistentTick(s, invLen);
    FinishedActiveOneShot(t, Kick);
    ConsistentFinished(t, Kick);
  }

  /** The whole scenario: kick, let it finish, press C, let the sit-down finish. */
  lemma KickThenSitEndsStanding(s: State, invLen: real)
    requires invLen > 0.0
    requires Consistent(s) && Ready(s) && s.listeners == [] && !s.isSitting && !s.isActionPlaying
    requires s.keys == NoKeys.(k := true)
    ensures var s1 := Finished(Tick(s, invLen), Kick);
            var s2 := Finished(Tick(s1.(keys := s1.keys.(c := true)), invLen), StandToSeat);
            s2.isSitting && s2.active == Stand
  {
    KickLeavesStandListener(s, invLen);
    var s1 := Finished(Tick(s, invLen), Kick);
    LeakedListenerWins(s1.(keys := s1.keys.(c := true)), invLen);
  }

  /** The first sit-down of a session ends seated: its listener is the earliest one. */
  lemma FirstSitDownEndsSeated(s: State, invLen: real)
    requires invLen > 0.0
    requires Consistent(s) && Ready(s) && s.listeners == [] && !s.isSitting && !s.isActionPlaying
    requires s.keys == NoKeys.(c := true)
    ensures var r := Finished(Tick(s, invLen), StandToSeat);
            Consistent(r) && Ready(r) && r.isSitting && r.active == Seat && !r.isActionPlaying &&
            r.listeners == [Some(Seat)] && r.keys == NoKeys
  {
    SitDown(s, invLen);
    var t := Tick(s, invLen);
    ConsistentTick(s, invLen);
    FinishedActiveOneShot(t, StandToSeat);
    ConsistentFinished(t, StandToSeat);
  }

  /**
   * Rising after that first sit-down finishes on the seat clip, which the
   * sit-down's listener asked for; only the next tick, seeing a free standing
   * character, switches to stand.
   */
  lemma RiseFinishesOnSeat(s: State, invLen: real)
    requires invLen > 0.0
    requires Consistent(s) && Ready(s) && s.listeners == [Some(Seat)] && s.isSitting && !s.isActionPlaying
    requires s.keys == NoKeys.(c := true)
    ensures var r := Finished(Tick(s, invLen), StandToSeat);
            var after := Tick(r, invLen);
            !r.isSitting && r.active == Seat && !r.isActionPlaying &&
            after.active == Stand && after.listeners == [Some(Seat), Some(Stand)]
  {
    StandUp(s, invLen);
    var t := Tick(s, invLen);
    ConsistentTick(s, invLen);
    FinishedActiveOneShot(t, StandToSeat);
    ConsistentFinished(t, StandToSeat);
    OpposingKeysStand(Finished(t, StandToSeat), invLen);
  }

  // ---------------------------------------------------------------- corrected

  function Remove<T>(xs: seq<T>, k: nat): (r: seq<T>)
    requires k < |xs|
    ensures |r| == |xs| - 1
    ensures forall i :: 0 <= i < |r| ==> r[i] == (if i < k then xs[i] else xs[i + 1])
  {
    xs[..k] + xs[k + 1..]
  }

  /**
   * Delivery where a listener that fires removes itself. The `n` listeners
   * still to be called start at index `k` of the current list; those armed
   * during the delivery are appended after them and not called.
   */
  function DeliverRemoving(s: State, a: Action, k: nat, n: nat): (r: State)
    requires s.Valid() && s.loaded && k + n <= |s.listeners|
    ensures r.Valid() && r.loaded && r.actions == s.actions
    decreases n
  {
    if n == 0 then s
    else if a == s.active then
      var next := s.listeners[k];
      var rest := s.(listeners := Remove(s.listeners, k));
      assert rest.Valid() by {
        forall i | 0 <= i < |rest.listeners| ensures rest.Refers(rest.listeners[i]) {
          assert s.Refers(s.listeners[if i < k then i else i + 1]);
        }
      }
      DeliverRemoving(OnActionFinished(rest, a, next), a, k, n - 1)
    else
      DeliverRemoving(s, a, k + 1, n - 1)
  }

  /** The 'finished' event with self-removing listeners. */
  function FinishedFixed(s: State, a: Action): (r: State)
    requires s.Valid() && s.loaded
    ensures r.Valid() && r.loaded && r.actions == s.actions
  {
    DeliverRemoving(s, a, 0, |s.listeners|)
  }

  lemma {:induction false} DeliverRemovingOther(s: State, a: Action, k: nat, n: nat)
    requires s.Valid() && s.loaded && k + n <= |s.listeners| && a != s.active
    ensures DeliverRemoving(s, a, k, n) == s
    decreases n
  {
    if n > 0 {
      DeliverRemovingOther(s, a, k + 1, n - 1);
    }
  }

  /**
   * The invariant self-removal restores: a listener is pending exactly while a
   * one-shot plays, and then there is just the one it armed.
   */
  ghost predicate Armed(s: State) {
    Consistent(s) &&
    (s.isActionPlaying ==> IsOneShot(s.active) && |s.listeners| == 1) &&
    (!s.isActionPlaying ==> s.listeners == [])
  }

  /** The finished clip hands over to the next action its own activation asked for. */
  lemma FixedFinishedHandsOver(s: State, a: Action)
    requires Armed(s) && s.loaded && a == s.active && s.isActionPlaying
    ensures var r := FinishedFixed(s, a);
            var t := Target(s.listeners[0]);
            Armed(r) && r.active == t && t != a &&
            r == s.(active := t, isActionPlaying := false, listeners := [],
                    playback := s.playback[t := Playback(1, 0.0)])
  {
    var next := s.listeners[0];
    assert Looping(next);
    var rest := s.(listeners := Remove(s.listeners, 0));
    assert rest.listeners == [];
    var s1 := OnActionFinished(rest, a, next);
    assert s1.active == Target(next) && s1.listeners == [];
    DeliverRemovingOther(s1, a, 0, 0);
  }

  /** With self-removing listeners no other 'finished' event changes anything. */
  lemma FixedFinishedOther(s: State, a: Action)
    requires Armed(s) && s.loaded && !(a == s.active && s.isActionPlaying)
    ensures FinishedFixed(s, a) == s
  {
    if a != s.active {
      DeliverRemovingOther(s, a, 0, |s.listeners|);
    }
  }

  /** A tick keeps the invariant (the tick itself is unchanged). */
  lemma ArmedTick(s: State, invLen: real)
    requires invLen > 0.0
    requires Armed(s)
    ensures Armed(Tick(s, invLen))
  {
    ConsistentTick(s, invLen);
    if Ready(s) {
      TickArmsAtMostOne(s, invLen);
    }
  }

  /**
   * Sitting down with self-removing listeners ends seated on the seat clip,
   * whatever was played before.
   */
  lemma FixedSitDownEndsSeated(s: State, invLen: real)
    requires invLen > 0.0
    requires Armed(s) && Ready(s) && s.keys.c && !s.isSitting && !s.isActionPlaying
    requires s.keys.w == s.keys.s && s.keys.a == s.keys.d
    ensures var r := FinishedFixed(Tick(s, invLen), StandToSeat);
            Armed(r) && r.isSitting && r.active == Seat && !r.isActionPlaying
  {
    SitDown(s, invLen);
    ArmedTick(s, invLen);
    FixedFinishedHandsOver(Tick(s, invLen), StandToSeat);
  }

  /** Standing up with self-removing listeners ends standing on the stand clip. */
  lemma FixedStandUpEndsStanding(s: State, invLen: real)
    requires invLen > 0.0
    requires Armed(s) && Ready(s) && s.keys.c && s.isSitting && !s.isActionPlaying
    ensures var r := FinishedFixed(Tick(s, invLen), StandToSeat);
            Armed(r) && !r.isSitting && r.active == Stand && !r.isActionPlaying
  {
    StandUp(s, invLen);
    ArmedTick(s, invLen);
    FixedFinishedHandsOver(Tick(s, invLen), StandToSeat);
  }

  /** The same scenario as KickThenSitEndsStanding, with the correction: the character sits. */
  lemma FixedKickThenSitEndsSeated(s: State, invLen: real)
    requires invLen > 0.0
    requires Consistent(s) && Ready(s) && s.listeners == [] && !s.isSitting && !s.isActionPlaying
    requires s.keys == NoKeys.(k := true)
    ensures var s1 := FinishedFixed(Tick(s, invLen), Kick);
            var s2 := FinishedFixed(Tick(s1.(keys := s1.keys.(c := true)), invLen), StandToSeat);
            s2.isSitting && s2.active == Seat
  {
    TriggersLatch(s, invLen);
    ArmedTick(s, invLen);
    var t := Tick(s, invLen);
    FixedFinishedHandsOver(t, Kick);
    var s1 := FinishedFixed(t, Kick);
    FixedSitDownEndsSeated(s1.(keys := s1.keys.(c := true)), invLen);
  }
}
