# Egg catcher: the session controller, the pallet and the pausable eggs

A Dafny model of the game logic of a Unity egg-catching game. The player moves a pallet between four lanes to catch falling eggs.

- `EggGameManager` keeps the session. That covers the score, pause, explosion and game over, and the three timed effects: slow motion, speed boost and pallet freeze. It also keeps the global time scale, the spawn countdown with its shrinking interval, and the snapshot of the scene that a restart replays.
- `Pallet` keeps the lane it aims at and gates key presses.
- `RedEgg` and `PurpleEgg` freeze their rigid body while the game is paused. When caught, they call the manager: red starts the explosion, purple the speed boost.

Modules:

- `Physics` (physics.dfy): the engine values the scripts touch.
  - Vectors.
  - Rigid-body fields.
  - Body types.
- `SceneRecords` (scene_records.dfy): the scene and its snapshot.
  - The scene is a map from object identity to object, held by class `Scene`.
  - The snapshot filter, the capture of one object, and the restore loop as a function.
  - The restart property: every recorded object comes back as it was, at rest.
- `EggSession` (egg_session.dfy): the session as a datatype.
  - One function per manager operation, giving the state that operation leaves behind.
  - Egg classification and the spawn-interval schedule.
- `SessionLaws` (session_laws.dfy): what the operations promise, proved about those functions.
  - Score and game over.
  - The explosion.
  - The effects and the invariant they keep.
  - Classification bands, the interval schedule, and one frame update.
- `GameManager` (game_manager.dfy): class `EggGameManager`.
  - Its fields are the manager's private fields. Each effect's flag and timer are held together as one `Effect` value.
  - Every method updates them in place and is proved to leave exactly the state the matching `EggSession` function describes.
- `PalletInput` (pallet.dfy): class `Pallet` and the key-to-lane rule.
- `PausableEggs` (pausable_eggs.dfy): the pause edge detector as a function, and classes `RedEgg` and `PurpleEgg`.

The engine's inputs become parameters:

- `Time.deltaTime` is `dt`, and `Time.unscaledDeltaTime` is `unscaledDt`.
- Key presses are booleans, or a set of keys for the pallet.
- The random draw of `SpawnEgg` is `draw`.
- The objects `FindObjectsOfType` enumerates are a sequence of identities.
- The singleton `EggGameManager.Instance` is a possibly-null reference.
- Whether the pallet is still more than 0.1 from its target is `farFromTarget`.
- `Time.timeScale` is a field of the manager.
- Floats are `real` and the `long` score is `int`.

Two points of the code's behaviour that its own comments do not make obvious:

- **The zero clamp never runs.** The comments of `ScorePoints` and `LosePoint` (EggGameManager.cs:568, 578) say the score does not go below 0. The clamp at lines 569-572 repeats the guard of the game-over test at 562-566, which returns first, so the clamp can never run. A score of 300 followed by the -500 miss stays at -200 and the game ends through the explosion (`SessionLaws.ScorePointsNeverClamps`, `SessionLaws.PenaltyZoneScenario`). What does hold is that a negative score only ever appears in an exploded session (`EggSession.ScoreSound` and the lemmas about it).
- **Every end of a speed boost pays the survival bonus.** `EndSpeedBoost` pays a pending bonus of 499. It is reached when the boost runs out (`UpdateEffects`), when a blue egg cancels a running boost (`TriggerSlowMotion`) and when a green egg heals (`TriggerHeal`). Only the explosion and a new game (`StartGame`) clear the bonus unpaid (`SessionLaws.CountDownSpeedBoostOutcome`, `SessionLaws.TriggerSlowMotionOutcome`, `SessionLaws.TriggerHealOutcome`, `SessionLaws.ExplosionForfeitsBonus`).

## Model

| member | source | states |
|---|---|---|
| GameManager.EggGameManager.constructor | MidTerm/MidTerm/Assets/Scripts/EggGameManager.cs:36-56 | the field initialisers: score 0, game active, nothing paused, exploded or over, every effect idle, time scale 1, interval and timers 0 until Start |
| GameManager.EggGameManager.Start | MidTerm/MidTerm/Assets/Scripts/EggGameManager.cs:91-111 | the snapshot is taken of the enumerated objects, then the countdown and the interval are both armed at the configured spawn interval; nothing else changes |
| GameManager.EggGameManager.StoreOriginalSceneState | MidTerm/MidTerm/Assets/Scripts/EggGameManager.cs:113-173 | the record list becomes exactly the snapshot of the enumerated objects in enumeration order (loop invariant over the prefix); the session is untouched |
| GameManager.EggGameManager.RestoreOriginalSceneState | MidTerm/MidTerm/Assets/Scripts/EggGameManager.cs:926-981 | the scene becomes the records replayed in order onto the objects still present (loop invariant over the prefix) |
| GameManager.EggGameManager.Tick | MidTerm/MidTerm/Assets/Scripts/EggGameManager.cs:175-232 | one Update: the new session is the one the frame-update function gives; an egg is returned exactly when the countdown fired, with the category the draw selects; the scene is restored only on an R restart |
| GameManager.EggGameManager.AdvanceClock | MidTerm/MidTerm/Assets/Scripts/EggGameManager.cs:203-222 | game time gains dt, the countdown loses it, and when it reaches zero an egg spawns, the countdown restarts from the current interval and the interval steps toward the floor |
| GameManager.EggGameManager.SpawnEgg | MidTerm/MidTerm/Assets/Scripts/EggGameManager.cs:269-314 | the new egg's category is the one Classify gives for the game time and the draw (its band properties are SessionLaws.ClassifyBands), and nothing else changes |
| GameManager.EggGameManager.UpdateEffects | MidTerm/MidTerm/Assets/Scripts/EggGameManager.cs:234-267 | the three countdowns in order, as the effect-update function gives |
| GameManager.EggGameManager.CountDownSlowMotionTimer | MidTerm/MidTerm/Assets/Scripts/EggGameManager.cs:236-244 | the slow-motion timer loses unscaled time and the effect ends through EndSlowMotion at zero |
| GameManager.EggGameManager.CountDownSpeedBoostTimer | MidTerm/MidTerm/Assets/Scripts/EggGameManager.cs:246-254 | the speed-boost timer loses unscaled time and the effect ends through EndSpeedBoost at zero |
| GameManager.EggGameManager.CountDownPalletFreezeTimer | MidTerm/MidTerm/Assets/Scripts/EggGameManager.cs:256-264 | the freeze timer loses scaled time and the freeze ends at zero |
| GameManager.EggGameManager.TriggerSlowMotion | MidTerm/MidTerm/Assets/Scripts/EggGameManager.cs:452-465 | leaves the state of the blue-egg function, whose outcome SessionLaws.TriggerSlowMotionOutcome states |
| GameManager.EggGameManager.TriggerSpeedBoost | MidTerm/MidTerm/Assets/Scripts/EggGameManager.cs:467-481 | leaves the state of the purple-egg function, whose outcome SessionLaws.TriggerSpeedBoostOutcome states |
| GameManager.EggGameManager.TriggerPalletFreeze | MidTerm/MidTerm/Assets/Scripts/EggGameManager.cs:483-489 | leaves the state of the orange-egg function, whose outcome SessionLaws.TriggerPalletFreezeOutcome states |
| GameManager.EggGameManager.TriggerHeal | MidTerm/MidTerm/Assets/Scripts/EggGameManager.cs:491-508 | leaves the state of the green-egg function, whose outcome SessionLaws.TriggerHealOutcome states |
| GameManager.EggGameManager.EndSlowMotion | MidTerm/MidTerm/Assets/Scripts/EggGameManager.cs:510-520 | slow motion idle; the time scale goes back to normal only if no boost runs |
| GameManager.EggGameManager.EndSpeedBoost | MidTerm/MidTerm/Assets/Scripts/EggGameManager.cs:522-539 | boost idle, a pending survival bonus paid through ScorePoints and cleared, time scale normal unless slow motion runs |
| GameManager.EggGameManager.EndPalletFreeze | MidTerm/MidTerm/Assets/Scripts/EggGameManager.cs:541-545 | the freeze flag off and its timer 0 |
| GameManager.EggGameManager.IsPalletFrozen | MidTerm/MidTerm/Assets/Scripts/EggGameManager.cs:547-550 | reports the freeze flag |
| GameManager.EggGameManager.ScorePoint | MidTerm/MidTerm/Assets/Scripts/EggGameManager.cs:552-555 | ScorePoints with +100 |
| GameManager.EggGameManager.ScorePoints | MidTerm/MidTerm/Assets/Scripts/EggGameManager.cs:557-574 | adds the delta, and ends the game when the score goes negative on a non-sentinel delta; the zero clamp is proved unreachable in place |
| GameManager.EggGameManager.LosePoint | MidTerm/MidTerm/Assets/Scripts/EggGameManager.cs:576-579 | ScorePoints with -100 |
| GameManager.EggGameManager.LoseBigPoints | MidTerm/MidTerm/Assets/Scripts/EggGameManager.cs:581-584 | ScorePoints with -500 |
| GameManager.EggGameManager.TriggerGameOver | MidTerm/MidTerm/Assets/Scripts/EggGameManager.cs:586-600 | once only: game over set, then the explosion |
| GameManager.EggGameManager.StopGame | MidTerm/MidTerm/Assets/Scripts/EggGameManager.cs:649-658 | inactive, time scale normal, the three effect flags off, timers and bonus kept |
| GameManager.EggGameManager.StartGame | MidTerm/MidTerm/Assets/Scripts/EggGameManager.cs:660-687 | whatever came before, the session becomes the initial running session with the configured interval |
| GameManager.EggGameManager.ResetEffects | MidTerm/MidTerm/Assets/Scripts/EggGameManager.cs:672-681 | time scale normal, every effect idle, no bonus pending, nothing else changed |
| GameManager.EggGameManager.TogglePause | MidTerm/MidTerm/Assets/Scripts/EggGameManager.cs:689-693 | flips the pause flag and nothing else |
| GameManager.EggGameManager.IsPaused | MidTerm/MidTerm/Assets/Scripts/EggGameManager.cs:695-698 | reports the pause flag |
| GameManager.EggGameManager.IsExploded | MidTerm/MidTerm/Assets/Scripts/EggGameManager.cs:700-703 | reports the explosion flag |
| GameManager.EggGameManager.TriggerExplosion | MidTerm/MidTerm/Assets/Scripts/EggGameManager.cs:705-732 | leaves the state of the explosion function, whose outcome SessionLaws.ExplosionOutcome states |
| GameManager.EggGameManager.RestartGame | MidTerm/MidTerm/Assets/Scripts/EggGameManager.cs:856-866 | the scene is restored from the records and the session is the initial one |
| EggSession.NextInterval | MidTerm/MidTerm/Assets/Scripts/EggGameManager.cs:215-220 | one difficulty step never raises the interval, never takes it below the floor once at or above it, and leaves it alone at or below the floor |
| SessionLaws.ScorePointsOutcome | MidTerm/MidTerm/Assets/Scripts/EggGameManager.cs:557-574 | ScorePoints either only adds the delta, or adds it and ends the game (flagged, exploded, effects cleared) when a non-sentinel delta makes a live score negative |
| SessionLaws.ScorePointsNeverClamps | MidTerm/MidTerm/Assets/Scripts/EggGameManager.cs:567-571 | the score always moves by exactly the delta: the zero clamp is dead code, and a negative result ends the game instead |
| SessionLaws.PenaltyZoneScenario | MidTerm/MidTerm/Assets/Scripts/EggGameManager.cs:552-584 | from a fresh game three catches give 300 and the -500 miss then leaves -200 with the game over and exploded |
| SessionLaws.ExplosionOutcome | MidTerm/MidTerm/Assets/Scripts/EggGameManager.cs:705-725 | the explosion flags the session, charges the sentinel penalty unless the game is over, and clears every effect, the bonus and the time scale |
| SessionLaws.ExplosionPenaltyAndIdempotence | MidTerm/MidTerm/Assets/Scripts/EggGameManager.cs:705-725 | exploded afterwards; a second explosion changes nothing; the penalty is charged exactly when the game was not over |
| SessionLaws.GameOverImpliesExplosion | MidTerm/MidTerm/Assets/Scripts/EggGameManager.cs:586-600 | game over always ends exploded, never charges the penalty, and happens only once |
| SessionLaws.ScorePointsKeepsInv | MidTerm/MidTerm/Assets/Scripts/EggGameManager.cs:557-574 | ScorePoints keeps the invariant: never both speed effects, time scale matching the effect, game over only after the explosion |
| SessionLaws.ExplosionKeepsInv | MidTerm/MidTerm/Assets/Scripts/EggGameManager.cs:586-600 | the explosion and game over keep the invariant |
| SessionLaws.ScorePointsScoreSound | MidTerm/MidTerm/Assets/Scripts/EggGameManager.cs:557-574 | any delta but the red-egg penalty leaves a negative score only in an exploded session, the promise of the comment at line 568 |
| SessionLaws.ExplosionScoreSound | MidTerm/MidTerm/Assets/Scripts/EggGameManager.cs:586-600 | after the explosion or game over the session is exploded, so its score, penalty included, is sound |
| SessionLaws.TriggersScoreSound | MidTerm/MidTerm/Assets/Scripts/EggGameManager.cs:452-508 | each of the four special eggs leaves a negative score only in an exploded session |
| SessionLaws.EndSpeedBoostPaysBonus | MidTerm/MidTerm/Assets/Scripts/EggGameManager.cs:522-539 | ending the boost pays 499 exactly when the bonus is pending, clears it, leaves time scale normal, keeps the invariant and keeps a negative score confined to an exploded session |
| SessionLaws.EndSlowMotionResets | MidTerm/MidTerm/Assets/Scripts/EggGameManager.cs:510-520 | under the invariant, ending slow motion is slow motion idle plus normal time scale |
| SessionLaws.TriggerSlowMotionOutcome | MidTerm/MidTerm/Assets/Scripts/EggGameManager.cs:452-465 | a blue egg scores 150 plus any bonus the cancelled boost pays, and leaves slow motion for 3 s at half speed unless the award ended the game |
| SessionLaws.TriggerSpeedBoostOutcome | MidTerm/MidTerm/Assets/Scripts/EggGameManager.cs:467-481 | a purple egg cancels slow motion, scores 150, and leaves the boost for 5 s at double speed with the bonus pending unless the award ended the game |
| SessionLaws.TriggerPalletFreezeOutcome | MidTerm/MidTerm/Assets/Scripts/EggGameManager.cs:483-489 | an orange egg scores 150 and freezes the pallet for 0.5 s without touching the other effects or the time scale |
| SessionLaws.EndAllEffectsOutcome | MidTerm/MidTerm/Assets/Scripts/EggGameManager.cs:493-505 | ending every active effect leaves none active, time scale normal, and pays a pending bonus |
| SessionLaws.TriggerHealOutcome | MidTerm/MidTerm/Assets/Scripts/EggGameManager.cs:491-508 | a green egg ends every effect, pays a pending survival bonus, scores 150 and leaves time scale normal |
| SessionLaws.ExplosionForfeitsBonus | MidTerm/MidTerm/Assets/Scripts/EggGameManager.cs:719-723 | the explosion clears a pending bonus without paying it |
| SessionLaws.StartStopPauseKeepInv | MidTerm/MidTerm/Assets/Scripts/EggGameManager.cs:649-693 | StartGame gives a running session satisfying the invariant with a sound score; StopGame keeps the invariant exactly when game over implies exploded; the pause toggle keeps it; neither changes whether the score is sound |
| SessionLaws.CountDownSlowMotionOutcome | MidTerm/MidTerm/Assets/Scripts/EggGameManager.cs:236-244 | the slow-motion countdown either only lowers the timer or ends slow motion with normal time scale; nothing else changes |
| SessionLaws.CountDownSpeedBoostOutcome | MidTerm/MidTerm/Assets/Scripts/EggGameManager.cs:246-254 | while time remains only the boost timer drops by the unscaled time; when it runs out the boost ends, the score gains 499 exactly when the bonus was pending, and the bonus is cleared; clocks and pause untouched |
| SessionLaws.UpdateEffectsCountdown | MidTerm/MidTerm/Assets/Scripts/EggGameManager.cs:234-267 | each active effect loses the elapsed time (freeze in scaled time, the others unscaled) and ends at zero; the score gains 499 exactly when an expiring boost had its bonus pending, which is then cleared, and changes in no other way; the clocks and the pause are untouched; the invariant holds |
| SessionLaws.IntervalClosedForm | MidTerm/MidTerm/Assets/Scripts/EggGameManager.cs:215-220 | after n spawns the interval is the base lowered n steps, floored at the minimum |
| SessionLaws.DefaultSchedule | MidTerm/MidTerm/Assets/Scripts/EggGameManager.cs:12-14 | with the default settings the interval is 0.55 after 29 spawns and 0.5 from the 30th on |
| SessionLaws.IntervalMonotone | MidTerm/MidTerm/Assets/Scripts/EggGameManager.cs:215-220 | the interval never rises from spawn to spawn and never leaves the floor behind |
| SessionLaws.ClassifyIsFirstBand | MidTerm/MidTerm/Assets/Scripts/EggGameManager.cs:282-306 | the if-chain is band selection: ordinary before the delay, otherwise the first kind in trial order whose cumulative chance exceeds the draw |
| SessionLaws.ThresholdMonotone | MidTerm/MidTerm/Assets/Scripts/EggGameManager.cs:286-302 | with non-negative chances the cumulative thresholds never decrease |
| SessionLaws.FirstBandInterval | MidTerm/MidTerm/Assets/Scripts/EggGameManager.cs:286-302 | the first band exceeding the draw is the one whose interval holds it |
| SessionLaws.FirstBandNone | MidTerm/MidTerm/Assets/Scripts/EggGameManager.cs:286-306 | no band holding the draw means it is at or beyond the sum of all five chances |
| SessionLaws.ClassifyBands | MidTerm/MidTerm/Assets/Scripts/EggGameManager.cs:282-306 | after the delay, kind k exactly when the draw lies in [T(k), T(k+1)), ordinary exactly when at or beyond T(5) |
| SessionLaws.DefaultClassification | MidTerm/MidTerm/Assets/Scripts/EggGameManager.cs:16-22 | with the default chances: any draw at 3 s is ordinary; at 6 s 0.07 is red, 0.10 blue, 0.30 ordinary |
| SessionLaws.TickInactiveOrRestart | MidTerm/MidTerm/Assets/Scripts/EggGameManager.cs:177-189 | an inactive game ignores the frame; R after game over restarts, and only then |
| SessionLaws.TickHaltedFreezesClocks | MidTerm/MidTerm/Assets/Scripts/EggGameManager.cs:191-231 | while exploded, over or paused nothing moves and nothing spawns; only the pause flag may flip |
| SessionLaws.TickSpawnResetsTimer | MidTerm/MidTerm/Assets/Scripts/EggGameManager.cs:203-222 | a spawn fires only when the countdown reached zero, restarts it from the interval before this spawn, and steps the interval once |
| SessionLaws.TickClock | MidTerm/MidTerm/Assets/Scripts/EggGameManager.cs:197-222 | across any non-restart frame the interval changes only by one step on a spawn |
| SessionLaws.TickIntervalBounds | MidTerm/MidTerm/Assets/Scripts/EggGameManager.cs:215-220 | across any non-restart frame the interval never rises and stays at or above the floor once there |
| SessionLaws.TickKeepsInv | MidTerm/MidTerm/Assets/Scripts/EggGameManager.cs:175-232 | every frame keeps the invariant |
| SessionLaws.TickScoreSound | MidTerm/MidTerm/Assets/Scripts/EggGameManager.cs:175-232 | every frame keeps a negative score confined to an exploded session |
| SceneRecords.Capture | MidTerm/MidTerm/Assets/Scripts/EggGameManager.cs:137-169 | a record keeps the object's identity and transform and whether it had a body and a collider |
| SceneRecords.SnapshotExact | MidTerm/MidTerm/Assets/Scripts/EggGameManager.cs:113-173 | an object is recorded exactly when it was enumerated and is not interface, camera, manager or inactive, and every record is the capture of its object |
| SceneRecords.SnapshotDistinct | MidTerm/MidTerm/Assets/Scripts/EggGameManager.cs:118-171 | objects enumerated once give records with distinct identities |
| SceneRecords.RestoreKeepsObjects | MidTerm/MidTerm/Assets/Scripts/EggGameManager.cs:926-981 | restoring neither creates nor removes objects |
| SceneRecords.RestoreAllEffect | MidTerm/MidTerm/Assets/Scripts/EggGameManager.cs:926-981 | after the loop a recorded object is restored from its record and an unrecorded one is untouched |
| SceneRecords.CaptureRestore | MidTerm/MidTerm/Assets/Scripts/EggGameManager.cs:926-981 | a record replayed onto its object gives the object back as captured, at rest with reset damping |
| SceneRecords.RestartRestoresScene | MidTerm/MidTerm/Assets/Scripts/EggGameManager.cs:856-866 | on restart every recorded object still present comes back to its recorded state at rest; every other object is untouched; no object appears or disappears |
| PalletInput.MoveTarget | MidTerm/MidTerm/Assets/Scripts/Pallet.cs:72-83 | MoveTo changes the lane only to an accepted index, so a valid lane index, and a lane holding a position, stays so |
| PalletInput.RequestedIsLowestLane | MidTerm/MidTerm/Assets/Scripts/Pallet.cs:54-69 | lane i is requested exactly when one of its keys is down and no lower lane's is; none exactly when no lane key is down |
| PalletInput.AfterInputOutcome | MidTerm/MidTerm/Assets/Scripts/Pallet.cs:46-70 | while moving, paused or exploded the lane never changes; otherwise it is the lowest pressed lane if accepted; the lane stays valid |
| PalletInput.Pallet.constructor | MidTerm/MidTerm/Assets/Scripts/Pallet.cs:8-18 | the pallet starts at lane 1, not moving, with a valid index |
| PalletInput.Pallet.MoveTo | MidTerm/MidTerm/Assets/Scripts/Pallet.cs:72-83 | the lane becomes the index exactly when it is in range and holds a position; the lane stays a valid index |
| PalletInput.Pallet.Halted | MidTerm/MidTerm/Assets/Scripts/Pallet.cs:25 | true exactly when a manager exists and reports paused or exploded |
| PalletInput.Pallet.HandleInput | MidTerm/MidTerm/Assets/Scripts/Pallet.cs:46-70 | the new lane is the one the input rule gives for the gate and the keys; the lane stays a valid index |
| PalletInput.Pallet.Update | MidTerm/MidTerm/Assets/Scripts/Pallet.cs:20-44 | input first; then, unless halted and when the lane holds a position, the moving flag follows whether the target is still far; the lane index stays valid |
| PausableEggs.PauseStep | MidTerm/MidTerm/Assets/Scripts/RedEgg.cs:31-59 | after an update the remembered flag equals the manager's pause; without a change of pause nothing changes; gravity and damping are never touched |
| PausableEggs.FreezeOnPause | MidTerm/MidTerm/Assets/Scripts/RedEgg.cs:36-48 | on the frame the pause begins the body stops as kinematic and the velocities are stored |
| PausableEggs.FrozenWhilePaused | MidTerm/MidTerm/Assets/Scripts/RedEgg.cs:31-59 | any number of paused frames leaves a frozen egg exactly as it was |
| PausableEggs.RunAppend | MidTerm/MidTerm/Assets/Scripts/RedEgg.cs:28-60 | running two lists of frames in turn is running their concatenation |
| PausableEggs.PauseRoundTrip | MidTerm/MidTerm/Assets/Scripts/RedEgg.cs:36-58 | a pause of any length gives a falling egg back exactly the body it had when the pause began |
| PausableEggs.RedEgg.constructor | MidTerm/MidTerm/Assets/Scripts/RedEgg.cs:10-12 | the pause memory starts at its defaults, not paused |
| PausableEggs.RedEgg.Start | MidTerm/MidTerm/Assets/Scripts/RedEgg.cs:14-26 | the body falls straight down at 2 with linear damping 0, angular damping 0.1 and gravity 1 |
| PausableEggs.RedEgg.Update | MidTerm/MidTerm/Assets/Scripts/RedEgg.cs:28-60 | with no manager nothing changes; otherwise one step of the pause edge detector |
| PausableEggs.RedEgg.OnTriggerEnter2D | MidTerm/MidTerm/Assets/Scripts/RedEgg.cs:62-95 | Player: explosion (when a manager exists) and destroyed; Ground: destroyed with the session untouched; any other tag: nothing |
| PausableEggs.PurpleEgg.constructor | MidTerm/MidTerm/Assets/Scripts/PurpleEgg.cs:10-12 | the pause memory starts at its defaults, not paused |
| PausableEggs.PurpleEgg.Start | MidTerm/MidTerm/Assets/Scripts/PurpleEgg.cs:14-26 | the body falls straight down at 2 with linear damping 0, angular damping 0.1 and gravity 1 |
| PausableEggs.PurpleEgg.Update | MidTerm/MidTerm/Assets/Scripts/PurpleEgg.cs:28-60 | with no manager nothing changes; otherwise one step of the pause edge detector |
| PausableEggs.PurpleEgg.OnTriggerEnter2D | MidTerm/MidTerm/Assets/Scripts/PurpleEgg.cs:62-94 | Player: one speed boost (when a manager exists) and destroyed; Ground: destroyed with the session untouched; any other tag: nothing |

## Left out

- Rendering, user interface text (`UpdateUI`), audio, debug logging and gizmos. They do not affect the state.
- The singleton set-up in `Awake` and `DontDestroyOnLoad`. The manager instance is a parameter that may be null.
- The physics part of the explosion coroutine (`ExplosionEffect`, `ExplodeSpecificObjects`, `ExplodeObject`): random impulses and spins, gravity 4 and 3.5, colliders turned into triggers. These are random engine effects. The restore undoes them only for the objects the snapshot recorded. The restart at the end of that coroutine is the explicit call `RestartGame`, without its 3-second wait.
- After an R restart the explosion's pending restart still fires later in the game. The model does not schedule it: a restart happens only when `RestartGame` or an R press is given.
- `DestroyAllEggs` in `RestartGame` is not modelled. The eggs are engine objects outside the recorded scene.
- `SpawnEgg`'s choice of spawn point, the prefab instantiation and the `Convert*Egg` component changes are engine work. Also left out: the early return when no prefab or spawn point is assigned, which spawns nothing but still advances the countdown. The model returns the category the draw selects.
- The blue, orange and green egg scripts and Egg.cs / ScoreZone.cs are not part of this model. They appear only as the manager calls they make: `TriggerSlowMotion`, `TriggerPalletFreeze`, `TriggerHeal`, `ScorePoint`, `LosePoint`.
- `IsPalletFrozen` has no caller in the modelled scripts. The pallet consults only pause and explosion, so the orange egg's freeze never stops the pallet.
- The pallet's travel (`Vector3.MoveTowards`, `Vector3.Distance`) is float geometry. Whether the target is still more than 0.1 away is the input `farFromTarget`, and the transform position is not modelled.
- Pallet `Start` only moves the transform; its indexing of slot 1 is the constructor's precondition.
- The rigid body of an egg is held by value in the egg. Other scripts writing the same `Rigidbody2D` (aliasing) are not modelled.
- The explosion also hits objects the snapshot never records, because its filter (EggGameManager.cs:744-749) lacks the snapshot's tests for the manager component and the names "EventSystem" and "GameManager" (125, 130-131), and objects inactive at snapshot time. These keep the added `Rigidbody2D`, gravity 4 and their impulse after a restart. The model does not capture this, since it leaves the coroutine's physics out.
- `Tick`: `dt` and `unscaledDt` are independent parameters. Nothing ties `Time.deltaTime` to the `timeScale` field, so how slow motion and the boost change the pace of game time, the spawn countdown and the freeze timer is not stated.
- `activeInHierarchy` is modelled as the object's own active flag.
- Float rounding of timers and probabilities is not modelled (`real`), nor is 64-bit overflow of the score (`int`).
- `FindObjectsOfType`'s enumeration order is an input sequence, assumed to list each object once where distinctness matters.
