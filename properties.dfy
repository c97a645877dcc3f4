/**
 * What the action state machine guarantees: readiness, movement gating, the
 * collision reaction, the sit toggle, trigger order and latching, and the
 * handling of 'finished' events.
 */
module Properties {
  import opened Wrappers
  import opened Geometry
  import opened Machine

  const AllActions: set<Action> := {Stand, Seat, StandToSeat, Kick, Jump, Walking, Collision}

  predicate Looping(o: Option<Action>) {
    o.None? || !IsOneShot(o.value)
  }

  /**
   * The invariant the program keeps: when no one-shot is flagged as playing,
   * the active clip is a looping one, and every listener switches to a
   * looping clip (stand or seat) when it fires.
   */
  ghost predicate Consistent(s: State) {
    s.Valid() &&
    (!s.isActionPlaying ==> !IsOneShot(s.active)) &&
    forall i :: 0 <= i < |s.listeners| ==> Looping(s.listeners[i])
  }

  // ---------------------------------------------------------------- readiness

  lemma {:induction false} SubsetCard<T>(a: set<T>, b: set<T>)
    requires a <= b
    ensures |a| <= |b|
    decreases |b|
  {
    if a != {} {
      var x :| x in a;
      SubsetCard(a - {x}, b - {x});
    }
  }

  lemma AllActionsCard()
    ensures |AllActions| == 7
    ensures forall a: Action :: a in AllActions
  {
    forall a: Action ensures a in AllActions {
      match a
      case Stand => case Seat => case StandToSeat => case Kick =>
      case Jump => case Walking => case Collision =>
    }
  }

  /** Seven registrations mean that every action is registered, and so every lookup succeeds. */
  lemma ReadyMeansAllRegistered(s: State)
    requires s.loaded
    ensures Ready(s) <==> forall a: Action :: a in s.actions
    ensures Ready(s) ==> forall a: Action :: Lookup(s, a) == Some(a)
  {
    AllActionsCard();
    var keys := s.actions.Keys;
    if Ready(s) {
      if a :| a !in s.actions {
        SubsetCard(keys, AllActions - {a});
      }
    } else if forall a: Action :: a in s.actions {
      assert AllActions <= keys && keys <= AllActions;
      SubsetCard(AllActions, keys);
      SubsetCard(keys, AllActions);
    }
  }

  /** Nothing in the tick runs before the character and all seven actions are there. */
  lemma TickWaitsForReady(s: State, invLen: real)
    requires invLen > 0.0
    requires s.Valid() && !Ready(s)
    ensures Tick(s, invLen) == s
  {
  }

  // ---------------------------------------------------------------- setAction

  /** Asking twice for the same action is the same as asking once. */
  lemma SetActionIdempotent(s: State, a: Action, rev1: bool, next1: Option<Action>, rev2: bool, next2: Option<Action>)
    requires s.Valid() && s.loaded && a in s.actions && s.Refers(next1) && s.Refers(next2)
    ensures var once := SetAction(s, Some(a), rev1, next1);
            SetAction(once, Some(a), rev2, next2) == once
  {
  }

  // ---------------------------------------------------------------- the invariant

  lemma ConsistentInitial()
    ensures Consistent(Initial())
  {
  }

  /** Storing one more environment box keeps the invariant. */
  lemma ConsistentAddBox(s: State, b: Box)
    requires Consistent(s)
    ensures Consistent(s.(boxes := s.boxes + [b]))
  {
  }

  /** The character loader keeps the invariant: stand becomes the active, looping, clip. */
  lemma ConsistentLoadCharacter(s: State, standDuration: real, characterExtent: Box)
    requires Consistent(s)
    ensures Consistent(s.(loaded := true,
                          actions := s.actions[Stand := standDuration],
                          playback := s.playback[Stand := Playback(1, 0.0)],
                          active := Stand, position := SpawnPosition, extent := characterExtent))
  {
  }

  /** Registering a clip only adds a name, so every listener and the active clip stay registered. */
  lemma ConsistentRegister(s: State, name: Action, duration: real)
    requires Consistent(s)
    ensures Consistent(s.(actions := s.actions[name := duration],
                          playback := s.playback[name := Playback(1, 0.0)]))
  {
  }

  lemma ConsistentSetAction(s: State, to: Option<Action>, reverse: bool, next: Option<Action>)
    requires Consistent(s) && s.loaded && s.Refers(to) && s.Refers(next) && Looping(next)
    ensures Consistent(SetAction(s, to, reverse, next))
  {
    var r := SetAction(s, to, reverse, next);
    forall i | 0 <= i < |r.listeners| ensures Looping(r.listeners[i]) {
      if i >= |s.listeners| { assert r.listeners[i] == next; }
    }
  }

  lemma ConsistentListener(s: State, a: Action, next: Option<Action>)
    requires Consistent(s) && s.loaded && s.Refers(next) && Looping(next)
    ensures Consistent(OnActionFinished(s, a, next))
  {
    if a == s.active {
      var t := if next.Some? then next else Lookup(s, Stand);
      assert t.Some? && !IsOneShot(t.value);
      var r := SetAction(s.(isActionPlaying := false), t, false, None);
      assert r.listeners == s.listeners && !r.isActionPlaying && !IsOneShot(r.active);
    }
  }

  lemma {:induction false} ConsistentDeliver(s: State, a: Action, pending: seq<Option<Action>>)
    requires Consistent(s) && s.loaded && AllRefer(s, pending)
    requires forall i :: 0 <= i < |pending| ==> Looping(pending[i])
    ensures Consistent(Deliver(s, a, pending))
    decreases |pending|
  {
    if pending != [] {
      ConsistentListener(s, a, pending[0]);
      var s1 := OnActionFinished(s, a, pending[0]);
      assert AllRefer(s1, pending[1..]) by {
        forall i | 0 <= i < |pending[1..]| ensures s1.Refers(pending[1..][i]) {
          assert pending[1..][i] == pending[i + 1];
        }
      }
      ConsistentDeliver(s1, a, pending[1..]);
    }
  }

  /** A 'finished' event keeps the invariant. */
  lemma ConsistentFinished(s: State, a: Action)
    requires Consistent(s) && s.loaded
    ensures Consistent(Finished(s, a))
  {
    ConsistentDeliver(s, a, s.listeners);
  }

  /** A tick keeps the invariant. */
  lemma ConsistentTick(s: State, invLen: real)
    requires invLen > 0.0
    requires Consistent(s)
    ensures Consistent(Tick(s, invLen))
  {
    if Ready(s) {
      var m := MovePhase(s, invLen);
      ConsistentMove(s, invLen);
      ConsistentSit(m);
      ConsistentKick(SitPhase(m));
      ConsistentJump(KickPhase(SitPhase(m)));
    }
  }

  lemma ConsistentSit(s: State)
    requires Consistent(s) && s.loaded
    ensures Consistent(SitPhase(s))
  {
    if s.keys.c && !s.isMoving && !s.isActionPlaying {
      if s.isSitting {
        ConsistentSetAction(s, Lookup(s, StandToSeat), false, Lookup(s, Stand));
      } else {
        ConsistentSetAction(s, Lookup(s, StandToSeat), true, Lookup(s, Seat));
      }
    }
  }

  lemma ConsistentKick(s: State)
    requires Consistent(s) && s.loaded
    ensures Consistent(KickPhase(s))
  {
    if s.keys.k && !s.isMoving && !s.isSitting && !s.isActionPlaying {
      ConsistentSetAction(s, Lookup(s, Kick), false, Lookup(s, Stand));
    }
  }

  lemma ConsistentJump(s: State)
    requires Consistent(s) && s.loaded
    ensures Consistent(JumpPhase(s))
  {
    if s.keys.j && !s.isMoving && !s.isSitting && !s.isActionPlaying {
      ConsistentSetAction(s, Lookup(s, Jump), false, Lookup(s, Stand));
    }
  }

  lemma ConsistentMove(s: State, invLen: real)
    requires invLen > 0.0
    requires Consistent(s) && s.loaded
    ensures Consistent(MovePhase(s, invLen))
  {
    var s1 := s.(isMoving := false);
    if WantsMove(s) {
      var step := Step(s, invLen);
      var moved := s1.(isMoving := true, position := Add(s.position, step));
      if CheckCollision(moved, ShrinkMargin) {
        var back := moved.(position := Sub(moved.position, Scale(step, MoveSpeed)));
        ConsistentSetAction(back, Lookup(back, Collision), false, Lookup(back, Stand));
      } else {
        ConsistentSetAction(moved, Lookup(moved, Walking), false, None);
      }
    } else if !s.isSitting && !s.isActionPlaying {
      ConsistentSetAction(s1, Lookup(s1, Stand), false, None);
    }
  }

  // ---------------------------------------------------------------- movement

  lemma ScaleNonzero(v: Vec3, k: real)
    requires v != Origin && k != 0.0
    ensures Scale(v, k) != Origin
  {
    if v.x != 0.0 {
      assert Scale(v, k).x != 0.0;
    } else if v.y != 0.0 {
      assert Scale(v, k).y != 0.0;
    } else {
      assert Scale(v, k).z != 0.0;
    }
  }

  /** The position after a tick that moves into a collision: the step is only partly undone. */
  lemma CollisionDisplacement(p: Vec3, d: Vec3, invLen: real)
    requires d != Origin && invLen > 0.0
    ensures var step := Scale(Scale(d, invLen), MoveSpeed);
            var back := Sub(Add(p, step), Scale(step, MoveSpeed));
            back == Add(p, Scale(d, invLen * (MoveSpeed - MoveSpeed * MoveSpeed))) && back != p
  {
    var k := invLen * (MoveSpeed - MoveSpeed * MoveSpeed);
    ScaleNonzero(d, k);
  }

  /** The movement part alone: where the character gets to and whether it is moving. */
  lemma MovePhaseGating(s: State, invLen: real)
    requires s.Valid() && s.loaded && invLen > 0.0
    ensures var m := MovePhase(s, invLen);
            (m.position != s.position <==> WantsMove(s)) &&
            (m.isMoving <==> WantsMove(s) &&
                             !CheckCollision(s.(position := Add(s.position, Step(s, invLen))), ShrinkMargin))
  {
    if WantsMove(s) {
      ScaleNonzero(Scale(RawDirection(s.keys), invLen), MoveSpeed);
      ScaleNonzero(RawDirection(s.keys), invLen);
      CollisionDisplacement(s.position, RawDirection(s.keys), invLen);
      assert Add(s.position, Step(s, invLen)) != s.position;
    }
  }

  /**
   * Movement gating: the character changes place exactly when a nonzero
   * direction is asked for while it neither sits nor plays a one-shot, and
   * `isMoving` is true afterwards exactly when that move did not collide.
   */
  lemma MoveGating(s: State, invLen: real)
    requires s.Valid() && Ready(s) && invLen > 0.0
    ensures var r := Tick(s, invLen);
            (r.position != s.position <==> WantsMove(s)) &&
            (r.isMoving <==> WantsMove(s) &&
                             !CheckCollision(s.(position := Add(s.position, Step(s, invLen))), ShrinkMargin)) &&
            r.keys.w == s.keys.w && r.keys.a == s.keys.a && r.keys.s == s.keys.s && r.keys.d == s.keys.d
  {
    MovePhaseGating(s, invLen);
    var m := MovePhase(s, invLen);
    var c := SitPhase(m);
    var k := KickPhase(c);
    var r := JumpPhase(k);
    assert r.keys.w == s.keys.w && r.keys.a == s.keys.a && r.keys.s == s.keys.s && r.keys.d == s.keys.d;
  }

  /** A move that does not collide is committed and plays the walking clip. */
  lemma FreeMove(s: State, invLen: real)
    requires Consistent(s) && Ready(s) && invLen > 0.0 && WantsMove(s)
    requires !CheckCollision(s.(position := Add(s.position, Step(s, invLen))), ShrinkMargin)
    ensures var r := Tick(s, invLen);
            r.active == Walking && r.isMoving && !r.isActionPlaying && !r.isSitting &&
            r.position == Add(s.position, Step(s, invLen)) &&
            r.keys == s.keys && r.listeners == s.listeners
  {
    ReadyMeansAllRegistered(s);
    var m := MovePhase(s, invLen);
    ConsistentMove(s, invLen);
    assert m.active == Walking && m.isMoving;
    SitAccepts(m);
    KickAccepts(m);
    JumpAccepts(m);
  }

  /**
   * A move that collides plays the collision clip, then stand; the character
   * stops, yet the position moves by d*s - d*s*s rather than coming back.
   */
  lemma CollidingMove(s: State, invLen: real)
    requires Consistent(s) && Ready(s) && invLen > 0.0 && WantsMove(s)
    requires CheckCollision(s.(position := Add(s.position, Step(s, invLen))), ShrinkMargin)
    ensures var r := Tick(s, invLen);
            r.active == Collision && r.playback[Collision] == Playback(1, 0.0) &&
            r.isActionPlaying && !r.isMoving && !r.isSitting &&
            r.listeners == s.listeners + [Some(Stand)] && r.keys == s.keys &&
            r.position == Add(s.position, Scale(RawDirection(s.keys), invLen * (MoveSpeed - MoveSpeed * MoveSpeed))) &&
            r.position != s.position
  {
    ReadyMeansAllRegistered(s);
    var m := MovePhase(s, invLen);
    ConsistentMove(s, invLen);
    assert m.active == Collision && m.isActionPlaying && !m.isMoving;
    SitAccepts(m);
    KickAccepts(m);
    JumpAccepts(m);
    CollisionDisplacement(s.position, RawDirection(s.keys), invLen);
  }

  /**
   * Opposing keys cancel: with W and S alike and A and D alike, a character
   * that is free and has no trigger pressed stands, and does not walk.
   */
  lemma OpposingKeysStand(s: State, invLen: real)
    requires invLen > 0.0
    requires Consistent(s) && Ready(s) && !s.isSitting && !s.isActionPlaying
    requires s.keys.w == s.keys.s && s.keys.a == s.keys.d
    requires !s.keys.c && !s.keys.k && !s.keys.j
    ensures var r := Tick(s, invLen);
            r.active == Stand && !r.isMoving && !r.isActionPlaying &&
            r.position == s.position && r.keys == s.keys && r.listeners == s.listeners
  {
    ReadyMeansAllRegistered(s);
  }

  // ---------------------------------------------------------------- triggers

  /**
   * Sitting down: C on a free, still character plays the stand-to-seat clip
   * backwards from its end, to be followed by seat; C is consumed and K and J
   * stay as they were, so C wins over K and J pressed in the same frame.
   */
  lemma SitDown(s: State, invLen: real)
    requires invLen > 0.0
    requires Consistent(s) && Ready(s) && s.keys.c && !s.isSitting && !s.isActionPlaying
    requires s.keys.w == s.keys.s && s.keys.a == s.keys.d
    ensures var r := Tick(s, invLen);
            r.active == StandToSeat && r.playback[StandToSeat] == Playback(-1, s.actions[StandToSeat]) &&
            r.isSitting && r.isActionPlaying && !r.isMoving &&
            r.listeners == s.listeners + [Some(Seat)] &&
            r.keys == s.keys.(c := false) && r.position == s.position
  {
    ReadyMeansAllRegistered(s);
    var m := MovePhase(s, invLen);
    MoveLeavesTriggersFree(s, invLen);
    assert m.active == Stand && m.position == s.position && !m.isMoving;
    var c := SitPhase(m);
    SitAccepts(m);
    assert c.playback[StandToSeat] == Playback(-1, s.actions[StandToSeat]);
    var k := KickPhase(c);
    KickAccepts(c);
    JumpAccepts(k);
  }

  /** Standing up: C while seated plays the clip forwards, to be followed by stand. */
  lemma StandUp(s: State, invLen: real)
    requires invLen > 0.0
    requires Consistent(s) && Ready(s) && s.keys.c && s.isSitting && !s.isActionPlaying
    ensures var r := Tick(s, invLen);
            r.active == StandToSeat && r.playback[StandToSeat] == Playback(1, 0.0) &&
            !r.isSitting && r.isActionPlaying && !r.isMoving &&
            r.listeners == s.listeners + [Some(Stand)] &&
            r.keys == s.keys.(c := false) && r.position == s.position
  {
    ReadyMeansAllRegistered(s);
    var m := MovePhase(s, invLen);
    MoveLeavesTriggersFree(s, invLen);
    assert m == s.(isMoving := false);
    var c := SitPhase(m);
    SitAccepts(m);
    assert c.playback[StandToSeat] == Playback(1, 0.0);
    var k := KickPhase(c);
    KickAccepts(c);
    JumpAccepts(k);
  }

  /**
   * What the triggers see after the movement part: a character that is
   * neither moving nor busy is one that was free and either seated or still,
   * and then no listener was added.
   */
  lemma MoveLeavesTriggersFree(s: State, invLen: real)
    requires invLen > 0.0
    requires Consistent(s) && Ready(s)
    ensures var m := MovePhase(s, invLen);
            Consistent(m) && Ready(m) && m.keys == s.keys && m.isSitting == s.isSitting &&
            (!m.isMoving && !m.isActionPlaying <==>
               !s.isActionPlaying && (s.isSitting || RawDirection(s.keys) == Origin)) &&
            (!m.isActionPlaying ==> m.listeners == s.listeners) &&
            ((m.listeners == s.listeners && m.isActionPlaying == s.isActionPlaying) ||
             (!s.isActionPlaying && m.isActionPlaying && m.listeners == s.listeners + [Some(Stand)]))
  {
    ReadyMeansAllRegistered(s);
    ConsistentMove(s, invLen);
  }

  /** C is accepted exactly when pressed on a still, free character; it then plays stand-to-seat. */
  lemma SitAccepts(s: State)
    requires Consistent(s) && Ready(s)
    ensures var r := SitPhase(s);
            var acc := s.keys.c && !r.keys.c;
            Consistent(r) && Ready(r) &&
            (acc <==> s.keys.c && !s.isMoving && !s.isActionPlaying) &&
            (acc ==> r.active == StandToSeat && r.isActionPlaying && r.isSitting == !s.isSitting &&
                     r.listeners == s.listeners + [if s.isSitting then Some(Stand) else Some(Seat)]) &&
            (!acc ==> r == s)
  {
    ReadyMeansAllRegistered(s);
    ConsistentSit(s);
  }

  /** K is accepted exactly when pressed on a still, free, standing character; it then kicks. */
  lemma KickAccepts(s: State)
    requires Consistent(s) && Ready(s)
    ensures var r := KickPhase(s);
            var acc := s.keys.k && !r.keys.k;
            Consistent(r) && Ready(r) &&
            (acc <==> s.keys.k && !s.isMoving && !s.isSitting && !s.isActionPlaying) &&
            (acc ==> r.active == Kick && r.isActionPlaying && r.listeners == s.listeners + [Some(Stand)]) &&
            (!acc ==> r == s)
  {
    ReadyMeansAllRegistered(s);
    ConsistentKick(s);
  }

  /** J is accepted exactly when pressed on a still, free, standing character; it then jumps. */
  lemma JumpAccepts(s: State)
    requires Consistent(s) && Ready(s)
    ensures var r := JumpPhase(s);
            var acc := s.keys.j && !r.keys.j;
            Consistent(r) && Ready(r) &&
            (acc <==> s.keys.j && !s.isMoving && !s.isSitting && !s.isActionPlaying) &&
            (acc ==> r.active == Jump && r.isActionPlaying && r.listeners == s.listeners + [Some(Stand)]) &&
            (!acc ==> r == s)
  {
    ReadyMeansAllRegistered(s);
    ConsistentJump(s);
  }

  /**
   * Trigger order and latching. A trigger is accepted exactly when its key is
   * down and its guards hold after the triggers before it; accepting one
   * plays a one-shot, which blocks the later ones, so at most one is accepted
   * a frame. Only an accepted trigger clears its key: a blocked key stays down.
   */
  lemma TriggersLatch(s: State, invLen: real)
    requires invLen > 0.0
    requires Consistent(s) && Ready(s)
    ensures var r := Tick(s, invLen);
            var still := RawDirection(s.keys) == Origin;
            var accC := s.keys.c && !r.keys.c;
            var accK := s.keys.k && !r.keys.k;
            var accJ := s.keys.j && !r.keys.j;
            r.keys.(c := s.keys.c, k := s.keys.k, j := s.keys.j) == s.keys &&
            (r.keys.c ==> s.keys.c) && (r.keys.k ==> s.keys.k) && (r.keys.j ==> s.keys.j) &&
            (accC <==> s.keys.c && !s.isActionPlaying && (s.isSitting || still)) &&
            (accK <==> s.keys.k && !accC && !s.isSitting && !s.isActionPlaying && still) &&
            (accJ <==> s.keys.j && !accC && !accK && !s.isSitting && !s.isActionPlaying && still) &&
            (accC ==> r.active == StandToSeat &&
                      r.listeners == s.listeners + [if s.isSitting then Some(Stand) else Some(Seat)]) &&
            (accK ==> r.active == Kick && r.listeners == s.listeners + [Some(Stand)]) &&
            (accJ ==> r.active == Jump && r.listeners == s.listeners + [Some(Stand)]) &&
            ((accC || accK || accJ) ==> r.isActionPlaying)
  {
    var m := MovePhase(s, invLen);
    MoveLeavesTriggersFree(s, invLen);
    var c := SitPhase(m);
    SitAccepts(m);
    var k := KickPhase(c);
    KickAccepts(c);
    var r := JumpPhase(k);
    JumpAccepts(k);
  }

  /**
   * A tick arms at most one listener: either the listeners and the busy flag
   * stay as they were, or a free character starts exactly one one-shot.
   */
  lemma TickArmsAtMostOne(s: State, invLen: real)
    requires invLen > 0.0
    requires Consistent(s) && Ready(s)
    ensures var r := Tick(s, invLen);
            (r.listeners == s.listeners && r.isActionPlaying == s.isActionPlaying) ||
            (!s.isActionPlaying && r.isActionPlaying && IsOneShot(r.active) &&
             |r.listeners| == |s.listeners| + 1 && r.listeners[..|s.listeners|] == s.listeners)
  {
    var m := MovePhase(s, invLen);
    MoveLeavesTriggersFree(s, invLen);
    var c := SitPhase(m);
    SitAccepts(m);
    var k := KickPhase(c);
    KickAccepts(c);
    JumpAccepts(k);
  }

  // ---------------------------------------------------------------- 'finished' events

  /** A 'finished' event for an action that is not the active one changes nothing. */
  lemma {:induction false} DeliverOtherAction(s: State, a: Action, pending: seq<Option<Action>>)
    requires s.Valid() && s.loaded && AllRefer(s, pending) && a != s.active
    ensures Deliver(s, a, pending) == s
    decreases |pending|
  {
    if pending != [] {
      assert OnActionFinished(s, a, pending[0]) == s;
      assert AllRefer(s, pending[1..]) by {
        forall i | 0 <= i < |pending[1..]| ensures s.Refers(pending[1..][i]) {
          assert pending[1..][i] == pending[i + 1];
        }
      }
      DeliverOtherAction(s, a, pending[1..]);
    }
  }

  lemma FinishedOtherAction(s: State, a: Action)
    requires s.Valid() && s.loaded && a != s.active
    ensures Finished(s, a) == s
  {
    DeliverOtherAction(s, a, s.listeners);
  }

  /** The action the listener armed with `next` switches to. */
  function Target(next: Option<Action>): Action {
    if next.Some? then next.value else Stand
  }

  /**
   * The 'finished' event of the active one-shot: the earliest registered
   * listener clears `isActionPlaying` and starts its next action (stand when
   * it has none) from the beginning; every later listener then sees another
   * action and does nothing, and no listener is removed.
   */
  lemma FinishedActiveOneShot(s: State, a: Action)
    requires Consistent(s) && s.loaded && a == s.active && IsOneShot(a)
    ensures var r := Finished(s, a);
            if s.listeners == [] then r == s
            else
              var t := Target(s.listeners[0]);
              r.active == t && t != a && !r.isActionPlaying &&
              r == s.(active := t, isActionPlaying := false, playback := s.playback[t := Playback(1, 0.0)])
  {
    if s.listeners != [] {
      var next := s.listeners[0];
      assert Looping(next);
      var s1 := OnActionFinished(s, a, next);
      assert s1.active == Target(next);
      assert AllRefer(s1, s.listeners[1..]) by {
        forall i | 0 <= i < |s.listeners[1..]| ensures s1.Refers(s.listeners[1..][i]) {
          assert s.listeners[1..][i] == s.listeners[i + 1];
        }
      }
      DeliverOtherAction(s1, a, s.listeners[1..]);
    }
  }
}
