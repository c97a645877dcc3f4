/**
 * The program's module-level state as one object, with the routines that
 * update it in place. Each routine is proved to leave the object in exactly
 * the state the corresponding function of module Machine computes. The
 * constructor establishes the invariant `Consistent` and every event method
 * keeps it, so every state the object can reach satisfies it.
 */
module Controller {
  import opened Wrappers
  import opened Geometry
  import opened Machine
  import opened Properties

  class CharacterController {
    var loaded: bool                  // `character` is set
    var actions: map<Action, real>    // registered actions and their clip durations
    var playback: map<Action, Playback>
    var activeAction: Action
    var isMoving: bool
    var isSitting: bool
    var isActionPlaying: bool
    var keys: Keys                    // set by the keyboard handlers
    var listeners: seq<Option<Action>>  // the mixer's 'finished' listeners, by their nextAction
    var position: Vec3
    var extent: Box
    var modelBoundingBoxes: seq<Box>

    function Snapshot(): State
      reads this
    {
      State(loaded, actions, playback, activeAction, isMoving, isSitting, isActionPlaying,
            keys, listeners, position, extent, modelBoundingBoxes)
    }

    ghost predicate Valid()
      reads this
    {
      Snapshot().Valid()
    }

    /** The module state when the script starts: nothing loaded, no key pressed. */
    constructor ()
      ensures Valid() && Snapshot() == Initial()
      ensures Consistent(Snapshot())
    {
      loaded, actions, playback, activeAction := false, map[], map[], Stand;
      isMoving, isSitting, isActionPlaying := false, false, false;
      keys, listeners := NoKeys, [];
      position, extent, modelBoundingBoxes := Origin, Box(Origin, Origin), [];
      ConsistentInitial();
    }

    /** The environment loader found one more mesh: its box is stored. */
    method AddModelBox(b: Box)
      requires Valid()
      modifies this
      ensures Valid()
      ensures Snapshot() == old(Snapshot()).(boxes := old(modelBoundingBoxes) + [b])
      ensures Consistent(old(Snapshot())) ==> Consistent(Snapshot())
    {
      if Consistent(Snapshot()) { ConsistentAddBox(Snapshot(), b); }
      modelBoundingBoxes := modelBoundingBoxes + [b];
    }

    /**
     * The character loader finished: the character is placed, its first clip
     * becomes the stand action and is the active one.
     */
    method LoadCharacter(standDuration: real, characterExtent: Box)
      requires Valid() && !loaded
      modifies this
      ensures Valid() && loaded
      ensures Snapshot() == old(Snapshot()).(loaded := true,
                actions := old(actions)[Stand := standDuration],
                playback := old(playback)[Stand := Playback(1, 0.0)],
                active := Stand, position := SpawnPosition, extent := characterExtent)
      ensures Consistent(old(Snapshot())) ==> Consistent(Snapshot())
    {
      if Consistent(Snapshot()) { ConsistentLoadCharacter(Snapshot(), standDuration, characterExtent); }
      loaded := true;
      position := SpawnPosition;
      extent := characterExtent;
      actions := actions[Stand := standDuration];
      playback := playback[Stand := Playback(1, 0.0)];
      activeAction := Stand;
    }

    /** One of the other six clips finished loading and is registered under its name. */
    method RegisterAction(name: Action, duration: real)
      requires Valid() && loaded && name != Stand
      modifies this
      ensures Valid()
      ensures Snapshot() == old(Snapshot()).(actions := old(actions)[name := duration],
                                             playback := old(playback)[name := Playback(1, 0.0)])
      ensures Consistent(old(Snapshot())) ==> Consistent(Snapshot())
    {
      if Consistent(Snapshot()) { ConsistentRegister(Snapshot(), name, duration); }
      actions := actions[name := duration];
      playback := playback[name := Playback(1, 0.0)];
    }

    method SetAction(to: Option<Action>, reverse: bool, next: Option<Action>)
      requires Valid() && loaded && Snapshot().Refers(to) && Snapshot().Refers(next)
      modifies this
      ensures Valid()
      ensures Snapshot() == Machine.SetAction(old(Snapshot()), to, reverse, next)
    {
      if to.Some? && to.value != activeAction {
        var a := to.value;
        if reverse {
          playback := playback[a := Playback(-1, actions[a])];
        } else {
          playback := playback[a := Playback(1, 0.0)];
        }
        activeAction := a;
        if IsOneShot(a) {
          isActionPlaying := true;
          listeners := listeners + [next];
        }
      }
    }

    method OnActionFinished(a: Action, next: Option<Action>)
      requires Valid() && loaded && Snapshot().Refers(next)
      modifies this
      ensures Valid()
      ensures Snapshot() == Machine.OnActionFinished(old(Snapshot()), a, next)
    {
      if a == activeAction {
        isActionPlaying := false;
        SetAction(if next.Some? then next else Lookup(Snapshot(), Stand), false, None);
      }
    }

    /**
     * The mixer raising 'finished' for action `a`: every listener registered so
     * far is called in registration order.
     */
    method DispatchFinished(a: Action)
      requires Valid() && loaded
      modifies this
      ensures Valid()
      ensures Snapshot() == Finished(old(Snapshot()), a)
      ensures Consistent(old(Snapshot())) ==> Consistent(Snapshot())
    {
      if Consistent(Snapshot()) { ConsistentFinished(Snapshot(), a); }
      CallListeners(a, listeners);
    }

    /** Calls the listeners of `pending`, a copy of the list, one after the other. */
    method CallListeners(a: Action, pending: seq<Option<Action>>)
      requires Valid() && loaded && AllRefer(Snapshot(), pending)
      modifies this
      ensures Valid() && loaded
      ensures Snapshot() == Deliver(old(Snapshot()), a, pending)
    {
      var i := 0;
      while i < |pending|
        invariant 0 <= i <= |pending|
        invariant Valid() && loaded && actions == old(actions)
        invariant AllRefer(Snapshot(), pending[i..])
        invariant Deliver(Snapshot(), a, pending[i..]) == Deliver(old(Snapshot()), a, pending)
      {
        assert pending[i..][1..] == pending[i + 1..];
        OnActionFinished(a, pending[i]);
        i := i + 1;
      }
    }

    /** `checkCollision()`: the loop over the stored boxes with an early exit. */
    method CheckCollision(margin: real) returns (hit: bool)
      ensures hit == Machine.CheckCollision(Snapshot(), margin)
    {
      if !loaded || |modelBoundingBoxes| == 0 {
        return false;
      }
      var characterBox := ExpandByScalar(Translate(extent, position), -margin);
      var i := 0;
      while i < |modelBoundingBoxes|
        invariant 0 <= i <= |modelBoundingBoxes|
        invariant forall j :: 0 <= j < i ==> !IntersectsBox(characterBox, modelBoundingBoxes[j])
      {
        if IntersectsBox(characterBox, modelBoundingBoxes[i]) {
          return true;
        }
        i := i + 1;
      }
      return false;
    }

    /** The body of `animate` for one frame; `invLen` is 1/|d| for the key direction d. */
    method Tick(invLen: real)
      requires Valid() && invLen > 0.0
      modifies this
      ensures Valid()
      ensures Snapshot() == Machine.Tick(old(Snapshot()), invLen)
      ensures Consistent(old(Snapshot())) ==> Consistent(Snapshot())
    {
      if Consistent(Snapshot()) { ConsistentTick(Snapshot(), invLen); }
      if !(loaded && |actions.Keys| == 7) {
        return;
      }
      Move(invLen);
      SitTrigger();
      KickTrigger();
      JumpTrigger();
    }

    /** WASD movement with the collision reaction. */
    method Move(invLen: real)
      requires Valid() && loaded && invLen > 0.0
      modifies this
      ensures Valid() && loaded
      ensures Snapshot() == MovePhase(old(Snapshot()), invLen)
    {
      isMoving := false;
      var moveDirection := RawDirection(keys);
      if moveDirection != Origin && !isSitting && !isActionPlaying {
        isMoving := true;
        moveDirection := Scale(Scale(moveDirection, invLen), MoveSpeed);
        position := Add(position, moveDirection);
        var hit := CheckCollision(ShrinkMargin);
        if hit {
          moveDirection := Scale(moveDirection, MoveSpeed);
          position := Sub(position, moveDirection);
          SetAction(Lookup(Snapshot(), Collision), false, Lookup(Snapshot(), Stand));
          isMoving := false;
        } else {
          SetAction(Lookup(Snapshot(), Walking), false, None);
        }
      } else if !isSitting && !isActionPlaying {
        SetAction(Lookup(Snapshot(), Stand), false, None);
      }
    }

    /** The C key: sit down or stand up. */
    method SitTrigger()
      requires Valid() && loaded
      modifies this
      ensures Valid() && loaded
      ensures Snapshot() == SitPhase(old(Snapshot()))
    {
      if keys.c && !isMoving && !isActionPlaying {
        if isSitting {
          SetAction(Lookup(Snapshot(), StandToSeat), false, Lookup(Snapshot(), Stand));
          isSitting := false;
        } else {
          SetAction(Lookup(Snapshot(), StandToSeat), true, Lookup(Snapshot(), Seat));
          isSitting := true;
        }
        keys := keys.(c := false);
      }
    }

    /** The K key: kick. */
    method KickTrigger()
      requires Valid() && loaded
      modifies this
      ensures Valid() && loaded
      ensures Snapshot() == KickPhase(old(Snapshot()))
    {
      if keys.k && !isMoving && !isSitting && !isActionPlaying {
        SetAction(Lookup(Snapshot(), Kick), false, Lookup(Snapshot(), Stand));
        keys := keys.(k := false);
      }
    }

    /** The J key: jump. */
    method JumpTrigger()
      requires Valid() && loaded
      modifies this
      ensures Valid() && loaded
      ensures Snapshot() == JumpPhase(old(Snapshot()))
    {
      if keys.j && !isMoving && !isSitting && !isActionPlaying {
        SetAction(Lookup(Snapshot(), Jump), false, Lookup(Snapshot(), Stand));
        keys := keys.(j := false);
      }
    }
  }
}
