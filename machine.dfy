/**
 * The character's action state machine as pure functions on a state record.
 * Each function here specifies one routine of the controller class (module
 * Controller), whose methods are proved to change their fields exactly as the
 * function says; the properties of the routines are proved here and in Properties.
 */
module Machine {
  import opened Wrappers
  import opened Geometry

  /** The seven animation clips of the character. */
  datatype Action = Stand | Seat | StandToSeat | Kick | Jump | Walking | Collision

  /** The clips that play once and hold their last frame (`LoopOnce`, `clampWhenFinished`). */
  predicate IsOneShot(a: Action) {
    a == Kick || a == Jump || a == Collision || a == StandToSeat
  }

  /** The key record: four movement keys and the three triggers C (sit), K (kick), J (jump). */
  datatype Keys = Keys(w: bool, a: bool, s: bool, d: bool, c: bool, k: bool, j: bool)

  const NoKeys := Keys(false, false, false, false, false, false, false)

  /** Playback rate (+1 forwards, -1 backwards) and playback time of one clip action. */
  datatype Playback = Playback(timeScale: int, time: real)

  /** The fixed distance per tick (`moveSpeed`). */
  const MoveSpeed: real := 0.03

  /** How far the character box is shrunk before the collision query. */
  const ShrinkMargin: real := 0.05

  /** Where the character is placed when it is loaded. */
  const SpawnPosition := Vec3(0.8, 0.1, 0.2)

  /**
   * The module state of the program. `actions` maps each registered action to
   * its clip duration; `listeners` holds, in registration order, the
   * `nextAction` that each pending 'finished' listener was armed with;
   * `extent` is the character's box relative to its position.
   */
  datatype State = State(
    loaded: bool,
    actions: map<Action, real>,
    playback: map<Action, Playback>,
    active: Action,
    isMoving: bool,
    isSitting: bool,
    isActionPlaying: bool,
    keys: Keys,
    listeners: seq<Option<Action>>,
    position: Vec3,
    extent: Box,
    boxes: seq<Box>)
  {
    /** An optional action reference that is `null` or names a registered action. */
    predicate Refers(o: Option<Action>) {
      o.None? || o.value in actions
    }

    ghost predicate Valid() {
      playback.Keys == actions.Keys &&
      (loaded ==> Stand in actions && active in actions) &&
      forall i :: 0 <= i < |listeners| ==> Refers(listeners[i])
    }
  }

  /** The state before any asset has loaded. */
  function Initial(): (s: State)
    ensures s.Valid() && !s.loaded && s.actions == map[] && s.listeners == []
    ensures !s.isMoving && !s.isSitting && !s.isActionPlaying && s.keys == NoKeys
  {
    State(false, map[], map[], Stand, false, false, false, NoKeys, [], Origin,
          Box(Origin, Origin), [])
  }

  /** `actions[name]`: the action if it is registered, `undefined` otherwise. */
  function Lookup(s: State, name: Action): (o: Option<Action>)
    ensures o.Some? <==> name in s.actions
    ensures o.Some? ==> o.value == name
  {
    if name in s.actions then Some(name) else None
  }

  /** The readiness gate: the character exists and seven actions are registered. */
  predicate Ready(s: State) {
    s.loaded && |s.actions.Keys| == 7
  }

  /** The character's bounding box at its current position. */
  function CharacterBox(s: State): Box {
    Translate(s.extent, s.position)
  }

  /**
   * `setAction(to, reverse, next)`. A `null` target or the active action
   * changes nothing. Otherwise the target becomes active, playing backwards
   * from the end of its clip when `reverse` is set and forwards from 0 when it
   * is not; a one-shot target also raises `isActionPlaying` and arms one more
   * 'finished' listener carrying `next`.
   */
  function SetAction(s: State, to: Option<Action>, reverse: bool, next: Option<Action>): (r: State)
    requires s.Valid() && s.loaded && s.Refers(to) && s.Refers(next)
    ensures r.Valid() && r.loaded && r.actions == s.actions
    ensures (to.None? || to.value == s.active) ==> r == s
    ensures to.Some? && to.value != s.active ==> r.active == to.value
    ensures to.Some? && to.value != s.active && reverse ==>
              r.playback == s.playback[to.value := Playback(-1, s.actions[to.value])]
    ensures to.Some? && to.value != s.active && !reverse ==>
              r.playback == s.playback[to.value := Playback(1, 0.0)]
    ensures to.Some? && to.value != s.active && IsOneShot(to.value) ==>
              r.isActionPlaying && r.listeners == s.listeners + [next]
    ensures !(to.Some? && to.value != s.active && IsOneShot(to.value)) ==>
              r.isActionPlaying == s.isActionPlaying && r.listeners == s.listeners
    ensures r.loaded == s.loaded && r.isMoving == s.isMoving && r.isSitting == s.isSitting &&
            r.keys == s.keys && r.position == s.position && r.extent == s.extent && r.boxes == s.boxes
  {
    if to.None? || to.value == s.active then s
    else
      var a := to.value;
      var pb := if reverse then Playback(-1, s.actions[a]) else Playback(1, 0.0);
      var switched := s.(active := a, playback := s.playback[a := pb]);
      if IsOneShot(a) then switched.(isActionPlaying := true, listeners := s.listeners + [next])
      else switched
  }

  /**
   * `onActionFinished(event, next)`: one listener's reaction to the 'finished'
   * event of action `a`. Only when `a` is the active action: clear
   * `isActionPlaying` and switch to `next`, or to stand when `next` is `null`.
   * The `removeEventListener` call removes nothing.
   */
  function OnActionFinished(s: State, a: Action, next: Option<Action>): (r: State)
    requires s.Valid() && s.loaded && s.Refers(next)
    ensures r.Valid() && r.loaded && r.actions == s.actions
    ensures a != s.active ==> r == s
    ensures a == s.active && !(next.Some? && IsOneShot(next.value) && next.value != a) ==> !r.isActionPlaying
    ensures s.listeners <= r.listeners
  {
    if a == s.active then
      SetAction(s.(isActionPlaying := false), if next.Some? then next else Lookup(s, Stand), false, None)
    else s
  }

  /** All listener entries of `pending` refer to registered actions. */
  ghost predicate AllRefer(s: State, pending: seq<Option<Action>>) {
    forall i :: 0 <= i < |pending| ==> s.Refers(pending[i])
  }

  /**
   * The mixer delivering the 'finished' event of `a` to the listeners
   * `pending`, in order. Listeners armed while it runs are not in `pending`.
   */
  function Deliver(s: State, a: Action, pending: seq<Option<Action>>): (r: State)
    requires s.Valid() && s.loaded && AllRefer(s, pending)
    ensures r.Valid() && r.loaded && r.actions == s.actions
    ensures s.listeners <= r.listeners
    decreases |pending|
  {
    if pending == [] then s
    else Deliver(OnActionFinished(s, a, pending[0]), a, pending[1..])
  }

  /** The 'finished' event of `a`, delivered to every listener registered so far. */
  function Finished(s: State, a: Action): (r: State)
    requires s.Valid() && s.loaded
    ensures r.Valid() && r.loaded && r.actions == s.actions
    ensures s.listeners <= r.listeners
  {
    Deliver(s, a, s.listeners)
  }

  function Unit(b: bool): real { if b then 1.0 else 0.0 }

  /** The direction the WASD keys ask for before normalisation: W is -z, S +z, A -x, D +x. */
  function RawDirection(k: Keys): (d: Vec3)
    ensures d == Origin <==> k.w == k.s && k.a == k.d
  {
    Vec3(Unit(k.d) - Unit(k.a), 0.0, Unit(k.s) - Unit(k.w))
  }

  /**
   * `checkCollision()`: false without a character or without environment
   * boxes; otherwise whether the shrunk character box meets a stored box.
   */
  function CheckCollision(s: State, margin: real): (hit: bool)
    ensures hit <==> s.loaded && Collides(CharacterBox(s), s.boxes, margin)
    ensures s.boxes == [] ==> !hit
  {
    if !s.loaded || |s.boxes| == 0 then false
    else Collides(CharacterBox(s), s.boxes, margin)
  }

  /** Whether this tick moves the character: a nonzero direction while neither sitting nor playing a one-shot. */
  predicate WantsMove(s: State) {
    RawDirection(s.keys) != Origin && !s.isSitting && !s.isActionPlaying
  }

  /** The displacement of one step: the normalised direction times `moveSpeed`. */
  function Step(s: State, invLen: real): Vec3 {
    Scale(Scale(RawDirection(s.keys), invLen), MoveSpeed)
  }

  /**
   * The movement part of the tick. `isMoving` is reset; a move is applied,
   * then tested for collision: on a collision the position is pulled back by
   * the step scaled by `moveSpeed` once more (the vector was scaled in place)
   * and the collision clip plays, otherwise the character walks. Without a
   * move, a character that is neither sitting nor busy stands.
   */
  function MovePhase(s: State, invLen: real): (r: State)
    requires s.Valid() && s.loaded && invLen > 0.0
    ensures r.Valid() && r.loaded && r.actions == s.actions && r.keys == s.keys
    ensures r.isSitting == s.isSitting && r.boxes == s.boxes && r.extent == s.extent
    ensures s.listeners <= r.listeners
  {
    var s1 := s.(isMoving := false);
    if WantsMove(s) then
      var step := Step(s, invLen);
      var moved := s1.(isMoving := true, position := Add(s.position, step));
      if CheckCollision(moved, ShrinkMargin) then
        var back := moved.(position := Sub(moved.position, Scale(step, MoveSpeed)));
        SetAction(back, Lookup(back, Collision), false, Lookup(back, Stand)).(isMoving := false)
      else
        SetAction(moved, Lookup(moved, Walking), false, None)
    else if !s.isSitting && !s.isActionPlaying then
      SetAction(s1, Lookup(s1, Stand), false, None)
    else
      s1
  }

  /** The C trigger: toggle sitting, playing the stand-to-seat clip backwards to sit and forwards to rise. */
  function SitPhase(s: State): (r: State)
    requires s.Valid() && s.loaded
    ensures r.Valid() && r.loaded && r.actions == s.actions && r.isMoving == s.isMoving
    ensures r.position == s.position && r.boxes == s.boxes && r.extent == s.extent
    ensures r.keys.(c := s.keys.c) == s.keys
    ensures s.listeners <= r.listeners
  {
    if s.keys.c && !s.isMoving && !s.isActionPlaying then
      var r := if s.isSitting then
                 SetAction(s, Lookup(s, StandToSeat), false, Lookup(s, Stand)).(isSitting := false)
               else
                 SetAction(s, Lookup(s, StandToSeat), true, Lookup(s, Seat)).(isSitting := true);
      r.(keys := r.keys.(c := false))
    else s
  }

  /** The K trigger: kick, then stand. */
  function KickPhase(s: State): (r: State)
    requires s.Valid() && s.loaded
    ensures r.Valid() && r.loaded && r.actions == s.actions && r.isMoving == s.isMoving
    ensures r.isSitting == s.isSitting && r.position == s.position && r.boxes == s.boxes && r.extent == s.extent
    ensures r.keys.(k := s.keys.k) == s.keys
    ensures s.listeners <= r.listeners
  {
    if s.keys.k && !s.isMoving && !s.isSitting && !s.isActionPlaying then
      var r := SetAction(s, Lookup(s, Kick), false, Lookup(s, Stand));
      r.(keys := r.keys.(k := false))
    else s
  }

  /** The J trigger: jump, then stand. */
  function JumpPhase(s: State): (r: State)
    requires s.Valid() && s.loaded
    ensures r.Valid() && r.loaded && r.actions == s.actions && r.isMoving == s.isMoving
    ensures r.isSitting == s.isSitting && r.position == s.position && r.boxes == s.boxes && r.extent == s.extent
    ensures r.keys.(j := s.keys.j) == s.keys
    ensures s.listeners <= r.listeners
  {
    if s.keys.j && !s.isMoving && !s.isSitting && !s.isActionPlaying then
      var r := SetAction(s, Lookup(s, Jump), false, Lookup(s, Stand));
      r.(keys := r.keys.(j := false))
    else s
  }

  /**
   * One frame of the animation loop: nothing happens until the character and
   * all seven actions are there; then movement, and the C, K and J triggers
   * in that order, each one an independent test.
   */
  function Tick(s: State, invLen: real): (r: State)
    requires s.Valid() && invLen > 0.0
    ensures r.Valid() && r.actions == s.actions && r.loaded == s.loaded
    ensures r.boxes == s.boxes && r.extent == s.extent
    ensures s.listeners <= r.listeners
  {
    if Ready(s) then JumpPhase(KickPhase(SitPhase(MovePhase(s, invLen)))) else s
  }
}
