# Character action state machine

A Dafny model of the part of `index.js` that decides what the character of a
small three.js scene does each frame. The model covers these pieces:

- the module state: the active action, the flags `isMoving`, `isSitting` and `isActionPlaying`, the key record, the registered actions, the environment boxes and the mixer's 'finished' listeners;
- `setAction`;
- `onActionFinished`, and the mixer delivering a 'finished' event to every listener;
- `checkCollision`;
- the body of `animate`: the readiness gate, WASD movement, the collision reaction, and the C (sit), K (kick) and J (jump) triggers.

Layout:

- `wrappers.dfy` defines `Option`. It stands for a JavaScript reference that may be `undefined` or `null`.
- `geometry.dfy` defines exact real vectors and axis-aligned boxes with the semantics of three.js `Box3`. It also defines the collision existence test.
- `machine.dfy` defines the state as a datatype. Each routine of the program is a function on that state. These functions are the specification.
- `controller.dfy` defines the class `CharacterController`. Its fields are the program's module-level variables. Its methods update those fields in place: `SetAction`, `OnActionFinished`, `DispatchFinished` (with its loop `CallListeners`), `CheckCollision` (a loop with early exit) and `Tick`. Each method is proved to leave the object exactly in the state computed by the matching function of `Machine`.
- `properties.dfy` holds the lemmas about those functions.
- `listener_fix.dfy` holds the consequences of the listener leak, and the corrected behaviour (see Findings).

The model follows the code in a few places where the code does something other than it seems to intend:

- The C, K and J tests are three independent `if`s. At most one of them is accepted per frame only because an accepted one plays a one-shot clip, and that raises `isActionPlaying`.
- A trigger key is cleared only when its trigger is accepted. A blocked K or J therefore stays pressed and fires on a later frame.
- A colliding move is not undone. The step vector is scaled by `moveSpeed` in place, so the pull-back subtracts the step scaled a second time. The net change is d·s − d·s².
- Movement is a fixed 0.03 per frame. The elapsed time is never used for it.
- `removeEventListener` removes nothing, so every 'finished' listener ever armed stays registered.

A *one-shot* is one of the clips kick, jump, collision and standToSeat. They play once and hold their last frame (index.js:149-152). `Consistent` is the invariant the program keeps:

- when no one-shot is flagged as playing, the active clip loops;
- every listener switches to a looping clip when it fires.

The controller's constructor establishes `Consistent`, and every event method of the class keeps it: the three loader events, a frame (`Tick`) and a 'finished' event (`DispatchFinished`). So every state the object can reach from the start satisfies it. The lemmas of `Properties` state the same facts on the functions of `Machine`.

## Model

| member | source | states |
|---|---|---|
| `Geometry.Translate` | index.js:233 | a point is in the moved box iff the point minus the offset is in the original box |
| `Geometry.ExpandByScalar` | index.js:234 | each extent grows by 2s; a negative s gives a box inside the original, a positive one a box around it |
| `Geometry.IntersectsBoxSharesPoint` | index.js:236 | for boxes that are not inverted, the Box3 interval test holds iff the two boxes share a point |
| `Geometry.IntersectsBox` | index.js:236 | definition: `Box3.intersectsBox`, true unless the boxes are separated on some axis; it tests no emptiness |
| `Geometry.OverShrunkBoxStillIntersects` | index.js:234-236 | a box shrunk by more than half of one of its widths holds no point, yet it is still reported as meeting the original box when every width is at least the margin |
| `Geometry.Collides` | index.js:235-239 | definition: some stored box meets the character box shrunk by the margin |
| `Geometry.CollidesOrderFree` | index.js:235-239 | the collision answer is the same for any permutation of the box list |
| `Geometry.CollidesAppend` | index.js:95 | storing one more box adds exactly the collisions with that box |
| `Machine.Initial` | index.js:80-113 | at start nothing is loaded, no box, action or listener is registered, and all flags are false; the keys, declared at index.js:172, are all up |
| `Machine.IsOneShot` | index.js:149-152 | definition: kick, jump, collision and standToSeat are the clips set to play once |
| `Machine.Ready` | index.js:251 | definition: the frame gate, a loaded character and seven registered actions |
| `Machine.CharacterBox` | index.js:233 | definition: the character's box is its local extent translated by its position |
| `Machine.Lookup` | index.js:108 | `actions[name]` is defined exactly for registered names |
| `Machine.SetAction` | index.js:197-215 | a null target or the active action changes nothing; otherwise the target becomes active, at time = duration with rate −1 when reversed and at time 0 with rate +1 when not; a one-shot target raises `isActionPlaying` and appends exactly one listener; a looping target leaves both unchanged; nothing else changes |
| `Machine.OnActionFinished` | index.js:218-228 | an event for another action changes nothing; no listener is ever removed |
| `Machine.Deliver` | index.js:212 | delivery to the listeners in order keeps the registered actions and only appends listeners |
| `Machine.Finished` | index.js:212 | the 'finished' event delivered to all listeners registered so far keeps validity and never shortens the list |
| `Machine.RawDirection` | index.js:256-259 | the key direction is zero iff W and S agree and A and D agree |
| `Machine.WantsMove` | index.js:261 | definition: a nonzero key direction while neither sitting nor playing a one-shot |
| `Machine.Step` | index.js:263-264 | definition: the key direction scaled by the normalisation factor and then by `moveSpeed` |
| `Machine.CheckCollision` | index.js:231-241 | false without a character or with no boxes; otherwise true iff the shrunk character box meets some stored box |
| `Machine.MovePhase` | index.js:252-278 | the movement part keeps the keys, the sitting flag and the boxes, and only appends listeners |
| `Machine.SitPhase` | index.js:281-290 | the C part changes no key but C and never moves the character |
| `Machine.KickPhase` | index.js:293-296 | the K part changes no key but K and keeps position and sitting |
| `Machine.JumpPhase` | index.js:299-302 | the J part changes no key but J and keeps position and sitting |
| `Machine.Tick` | index.js:251-302 | one frame keeps the registered actions and the boxes and only appends listeners |
| `Controller.CharacterController.constructor` | index.js:80-113 | the object starts in the initial state, which is `Consistent` |
| `Controller.CharacterController.AddModelBox` | index.js:89-95 | the environment loader appends one box and changes nothing else; `Consistent` is kept |
| `Controller.CharacterController.LoadCharacter` | index.js:115-130 | the character is placed at (0.8, 0.1, 0.2); its first clip is registered as stand and becomes active; `Consistent` is kept |
| `Controller.CharacterController.RegisterAction` | index.js:142-152 | one more clip is registered under its name with rate +1 at time 0; `Consistent` is kept |
| `Controller.CharacterController.SetAction` | index.js:197-215 | updates the fields exactly as `Machine.SetAction` |
| `Controller.CharacterController.OnActionFinished` | index.js:218-228 | updates the fields exactly as `Machine.OnActionFinished` |
| `Controller.CharacterController.DispatchFinished` | index.js:212 | the mixer's 'finished' event: the listeners present when the event is raised are called, ending in `Machine.Finished` of the old state; `Consistent` is kept |
| `Controller.CharacterController.CallListeners` | index.js:212 | the loop over a copy of the listener list calls each one in order, ending in `Machine.Deliver` of the old state |
| `Controller.CharacterController.CheckCollision` | index.js:231-241 | the loop with early return answers exactly `Machine.CheckCollision`, an existence test over the boxes |
| `Controller.CharacterController.Tick` | index.js:251-302 | one frame leaves the object in `Machine.Tick` of the old state; `Consistent` is kept |
| `Controller.CharacterController.Move` | index.js:252-278 | updates the fields exactly as `Machine.MovePhase` |
| `Controller.CharacterController.SitTrigger` | index.js:281-290 | updates the fields exactly as `Machine.SitPhase` |
| `Controller.CharacterController.KickTrigger` | index.js:293-296 | updates the fields exactly as `Machine.KickPhase` |
| `Controller.CharacterController.JumpTrigger` | index.js:299-302 | updates the fields exactly as `Machine.JumpPhase` |
| `Properties.ReadyMeansAllRegistered` | index.js:251 | `Object.keys(actions).length === 7` holds iff every one of the seven actions is registered, and then every lookup succeeds |
| `Properties.TickWaitsForReady` | index.js:251 | before the character and all seven actions exist, a frame changes nothing |
| `Properties.SetActionIdempotent` | index.js:198 | switching to an action a second time changes nothing |
| `Properties.ConsistentInitial` | index.js:109-113 | the initial state satisfies the invariant |
| `Properties.ConsistentAddBox` | index.js:95 | storing an environment box keeps the invariant |
| `Properties.ConsistentLoadCharacter` | index.js:115-130 | loading the character, with stand as the active clip, keeps the invariant |
| `Properties.ConsistentRegister` | index.js:142-152 | registering one more clip keeps the invariant |
| `Properties.ConsistentSetAction` | index.js:197-215 | switching with a looping next action keeps the invariant |
| `Properties.ConsistentListener` | index.js:218-228 | one listener call keeps the invariant |
| `Properties.ConsistentDeliver` | index.js:212 | delivering to any list of looping-armed listeners keeps the invariant |
| `Properties.ConsistentFinished` | index.js:212 | a 'finished' event keeps the invariant |
| `Properties.ConsistentTick` | index.js:251-302 | a frame keeps the invariant |
| `Properties.ConsistentMove` | index.js:252-278 | the movement part keeps the invariant |
| `Properties.ConsistentSit` | index.js:281-290 | the C part keeps the invariant |
| `Properties.ConsistentKick` | index.js:293-296 | the K part keeps the invariant |
| `Properties.ConsistentJump` | index.js:299-302 | the J part keeps the invariant |
| `Properties.CollisionDisplacement` | index.js:264-270 | after the pull-back the position is p + d·s − d·s², which differs from p |
| `Properties.MovePhaseGating` | index.js:252-275 | the movement part moves the character iff it asks for a nonzero direction while neither sitting nor busy; `isMoving` ends true iff that move did not collide |
| `Properties.MoveGating` | index.js:252-302 | the same for the whole frame; the WASD keys are never changed |
| `Properties.FreeMove` | index.js:261-275 | a move that does not collide is kept and plays walking; no listener is added and no trigger fires |
| `Properties.CollidingMove` | index.js:264-272 | a colliding move plays collision forwards with next stand, appends exactly that listener, stops the character, blocks every trigger, and leaves it displaced by d·s − d·s² |
| `Properties.OpposingKeysStand` | index.js:256-278 | with opposing keys cancelled and no trigger, a free character stands, does not move and arms nothing |
| `Properties.SitDown` | index.js:281-289 | C on a free still character plays standToSeat backwards from its end with next seat, sets `isSitting`, clears C and leaves K and J pressed |
| `Properties.StandUp` | index.js:281-289 | C while seated plays standToSeat forwards from 0 with next stand, clears `isSitting` and C |
| `Properties.MoveLeavesTriggersFree` | index.js:252-278 | after the movement part the triggers see a free, still character iff it was free and seated or still; at most the collision listener was added |
| `Properties.SitAccepts` | index.js:281-290 | C is accepted iff pressed while not moving and not busy; it then plays standToSeat, toggles sitting and appends one listener; otherwise the state is unchanged |
| `Properties.KickAccepts` | index.js:293-296 | K is accepted iff pressed while not moving, not sitting and not busy; it then kicks with next stand; otherwise the state is unchanged |
| `Properties.JumpAccepts` | index.js:299-302 | J is accepted iff pressed while not moving, not sitting and not busy; it then jumps with next stand; otherwise the state is unchanged |
| `Properties.TriggersLatch` | index.js:281-302 | triggers are tested C then K then J; each is accepted iff its key is down and its guards hold after the earlier ones; at most one is accepted per frame; only an accepted key is cleared, so a blocked key stays down |
| `Properties.TickArmsAtMostOne` | index.js:251-302 | a frame either leaves listeners and busy flag alone, or, from a free state, makes a one-shot the active clip and appends exactly one listener after the old ones |
| `Properties.DeliverOtherAction` | index.js:219 | delivering an event for a non-active action to any listeners changes nothing |
| `Properties.FinishedOtherAction` | index.js:219 | a 'finished' event for an action that is not active changes nothing |
| `Properties.FinishedActiveOneShot` | index.js:212-226 | the active one-shot's event is handled by the earliest listener: the busy flag is cleared and its next action (stand if none) starts; later listeners see a mismatch, so one transition happens; no listener is removed |
| `ListenerFix.LeakedListenerWins` | index.js:212-226 | with an old stand listener first in line, a sit-down finishes on stand while `isSitting` stays true |
| `ListenerFix.KickLeavesStandListener` | index.js:210-213 | a kick from a fresh state leaves a stand listener behind after it finishes |
| `ListenerFix.KickThenSitEndsStanding` | index.js:212-226 | kick, finish, sit, finish ends standing while flagged as sitting |
| `ListenerFix.FirstSitDownEndsSeated` | index.js:286-287 | the first sit-down of a session ends seated |
| `ListenerFix.RiseFinishesOnSeat` | index.js:212-226 | rising after it finishes on seat, and only the next frame switches to stand |
| `ListenerFix.DeliverRemoving` | index.js:212-226 | delivery with self-removing listeners keeps validity and the registered actions |
| `ListenerFix.FinishedFixed` | index.js:226 | the corrected 'finished' event keeps validity |
| `ListenerFix.DeliverRemovingOther` | index.js:219 | with self-removal, an event for a non-active action still changes nothing |
| `ListenerFix.FixedFinishedHandsOver` | index.js:219-226 | with self-removal, the finished clip hands over to the next action of its own activation and no listener remains |
| `ListenerFix.FixedFinishedOther` | index.js:219 | with self-removal, any other event changes nothing |
| `ListenerFix.ArmedTick` | index.js:251-302 | a frame keeps the corrected invariant: one listener while a one-shot plays, none otherwise |
| `ListenerFix.FixedSitDownEndsSeated` | index.js:286-287 | with self-removal, sitting down always ends seated |
| `ListenerFix.FixedStandUpEndsStanding` | index.js:283-284 | with self-removal, standing up always ends standing |
| `ListenerFix.FixedKickThenSitEndsSeated` | index.js:212-226 | with self-removal, kick then sit ends seated |

## Left out

- Rendering: the scene, sky, textures, ground, lights, camera, orbit controls, renderer and resize handling. They make no decisions.
- Asset loading: the GLTF and FBX loader callbacks are asynchronous I/O. The model keeps only their effects, as the events `AddModelBox`, `LoadCharacter` and `RegisterAction`. The loop mode of a clip follows from its name, as at index.js:149.
- The track filtering of the walking clip (index.js:146). It changes no state of the core.
- The keyboard handlers (index.js:172-194). `keys` is a field that the environment sets.
- Mixer internals: `fadeIn`/`fadeOut(0.2)` weights, the `reset()` fields other than the time, `play()`, and `mixer.update(delta)`. These are in a library that is not part of this model. When 'finished' is raised is also left out: `DispatchFinished` is an external event.
- The three.js event dispatcher is not part of this model. The model follows its documented behaviour: listeners are called in registration order, over a copy of the list taken when the event is raised.
- `normalize()`: a square root is not modelled. `Tick` takes the factor `invLen` = 1/|d| as a parameter. For the key directions it is 1 for one key, 1/√2 for two perpendicular keys, and 1 for three keys, two of which cancel. Opposing keys give the zero direction, and then no move is made. The model requires only that the factor is positive, which `normalize()` guarantees for a nonzero direction.
- The heading `character.rotation.y = atan2(...)` (index.js:266). The model has no heading.
- `Box3.setFromObject`: the character's box is a fixed local box, `extent`, translated by the position. The animated pose does not change it.
- Floating point: positions and boxes are exact reals.
- `requestAnimationFrame` and the clock. One `Tick` call is one frame. The elapsed time reaches only `mixer.update`, which is left out.
- Before the character loads, `activeAction` is `undefined`. The model holds stand there. `SetAction` and the events require the character to be loaded, which is when the code first calls them.
- Action objects are compared by name. Each name has one clip action (`mixer.clipAction` per clip).
- `console.log` output.

## Findings

| source | as written | input that shows it | evidently intended | confidence | as-written member | corrected member |
|---|---|---|---|---|---|---|
| index.js:212, index.js:226 | `removeEventListener('finished', onActionFinished)` removes nothing, because the registered listener is an arrow function. The earliest listener ever armed therefore answers every later 'finished' event of the active clip, with its old next action. | From the ready state: press K, let the kick finish, press C, let the sit-down finish. The character plays stand while `isSitting` is true. | Each listener deregisters itself when it fires, so a clip's own activation decides what follows it. The sit-down then ends on seat. | not executed; proved on the model | `ListenerFix.KickThenSitEndsStanding` | `ListenerFix.FixedKickThenSitEndsSeated` |

The controller class and `Machine.Finished` keep the code's behaviour, because they model the program as written. The corrected delivery is `ListenerFix.FinishedFixed`. It is proved to keep the one-listener invariant (`ListenerFix.ArmedTick`, `ListenerFix.FixedFinishedHandsOver`). It also makes sitting down and standing up end in seat and stand every time (`ListenerFix.FixedSitDownEndsSeated`, `ListenerFix.FixedStandUpEndsStanding`).
