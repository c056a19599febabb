// EggGameManager: the session controller. Its fields are the session of
// module EggSession plus the engine's global time scale and the scene
// snapshot; every method updates them in place and is proved to leave
// exactly the state the matching EggSession function describes.

module GameManager {
  import opened Physics
  import opened EggSession
  import opened SceneRecords

  class EggGameManager {
    const config: Config

    var score: int
    var gameActive: bool
    var isPaused: bool
    var exploded: bool
    var gameOver: bool
    /** Each timed effect's flag and countdown, held together. */
    var slowMotion: Effect
    var speedBoost: Effect
    var palletFreeze: Effect
    var purpleEggSurvivalBonus: bool
    var currentSpawnInterval: real
    var spawnTimer: real
    var gameTime: real
    /** The engine's global Time.timeScale, which the manager reads and writes. */
    var timeScale: real

    var originalObjectStates: seq<ObjectState>

    /** The session these fields hold. */
    function State(): Session
      reads this
    {
      Session(score, gameActive, isPaused, exploded, gameOver,
              slowMotion, speedBoost, palletFreeze, purpleEggSurvivalBonus,
              currentSpawnInterval, spawnTimer, gameTime, timeScale)
    }

    /** The field initialisers; the interval stays 0 until Start. */
    constructor (config: Config)
      ensures this.config == config
      ensures State() == Session(0, true, false, false, false, Idle, Idle, Idle, false, 0.0, 0.0, 0.0, NormalScale)
      ensures Inv(State())
      ensures originalObjectStates == []
    {
      this.config := config;
      score := 0;
      gameActive, isPaused, exploded, gameOver := true, false, false, false;
      slowMotion, speedBoost, palletFreeze := Idle, Idle, Idle;
      purpleEggSurvivalBonus := false;
      currentSpawnInterval, spawnTimer, gameTime := 0.0, 0.0, 0.0;
      timeScale := NormalScale;
      originalObjectStates := [];
    }

    method IsPaused() returns (b: bool)
      ensures b == isPaused
    {
      b := isPaused;
    }

    method IsExploded() returns (b: bool)
      ensures b == exploded
    {
      b := exploded;
    }

    method IsPalletFrozen() returns (b: bool)
      ensures b == palletFreeze.active
    {
      b := palletFreeze.active;
    }

    // -------------------------------------------------------------------
    // Scene snapshot

    /** Start: snapshot the scene, then arm the spawn countdown. */
    method Start(scene: Scene, found: seq<ObjectId>)
      requires forall id <- found :: id in scene.objects
      modifies this
      ensures originalObjectStates == Snapshot(scene.objects, found)
      ensures State() == old(State()).(spawnInterval := config.spawnInterval, spawnTimer := config.spawnInterval)
    {
      StoreOriginalSceneState(scene, found);
      currentSpawnInterval := config.spawnInterval;
      spawnTimer := currentSpawnInterval;
    }

    /** Records every enumerated object that is not interface, camera, manager or inactive. */
    method StoreOriginalSceneState(scene: Scene, found: seq<ObjectId>)
      requires forall id <- found :: id in scene.objects
      modifies this
      ensures originalObjectStates == Snapshot(scene.objects, found)
      ensures State() == old(State())
    {
      originalObjectStates := [];
      var i := 0;
      while i < |found|
        invariant 0 <= i <= |found|
        invariant forall id <- found[..i] :: id in scene.objects
        invariant originalObjectStates == Snapshot(scene.objects, found[..i])
        invariant State() == old(State())
      {
        var obj := scene.objects[found[i]];
        assert found[..i + 1][..i] == found[..i];
        if !Skipped(obj) {
          originalObjectStates := originalObjectStates + [Capture(found[i], obj)];
        }
        i := i + 1;
      }
      assert found[..i] == found;
    }

    /** Replays every record onto the object it names, skipping destroyed objects. */
    method RestoreOriginalSceneState(scene: Scene)
      modifies scene
      ensures scene.objects == RestoreAll(old(scene.objects), originalObjectStates)
    {
      var i := 0;
      while i < |originalObjectStates|
        invariant 0 <= i <= |originalObjectStates|
        invariant scene.objects == RestoreAll(old(scene.objects), originalObjectStates[..i])
      {
        var st := originalObjectStates[i];
        assert originalObjectStates[..i + 1][..i] == originalObjectStates[..i];
        if st.id in scene.objects {
          var obj := scene.objects[st.id];
          obj := obj.(position := st.position, rotation := st.rotation, scale := st.scale);
          if st.hadRigidbody {
            obj := obj.(body := Some(Body(st.bodyType, st.gravityScale, Zero2, 0.0, 0.0, 0.05)));
          } else {
            obj := obj.(body := None);
          }
          if st.hadCollider && obj.collider.Some? {
            obj := obj.(collider := Some(obj.collider.value.(isTrigger := st.isTrigger)));
          }
          if !obj.active {
            obj := obj.(active := true);
          }
          scene.objects := scene.objects[st.id := obj];
        }
        i := i + 1;
      }
      assert originalObjectStates[..i] == originalObjectStates;
    }

    // -------------------------------------------------------------------
    // The frame update

    /**
     * Update: the restart key after game over, the pause key, the effect
     * countdowns and the spawn countdown. Returns the category of the egg
     * spawned this frame, classified with the given random draw, if one was.
     */
    method Tick(scene: Scene, dt: real, unscaledDt: real, pausePressed: bool, restartPressed: bool, draw: real)
      returns (spawned: Option<Category>)
      modifies this, scene
      ensures var step := TickSpec(config, old(State()), dt, unscaledDt, pausePressed, restartPressed);
        State() == step.next
        && spawned == (if step.spawned then Some(Classify(config, step.next.gameTime, draw)) else None)
        && scene.objects == (if step.restarted then RestoreAll(old(scene.objects), originalObjectStates)
                             else old(scene.objects))
      ensures originalObjectStates == old(originalObjectStates)
    {
      spawned := None;
      if !gameActive {
        return;
      }
      if gameOver && restartPressed {
        RestartGame(scene);
        return;
      }
      if !gameOver && pausePressed {
        TogglePause();
      }
      if !isPaused && !exploded && !gameOver {
        UpdateEffects(dt, unscaledDt);
      }
      if !isPaused && !exploded && !gameOver {
        spawned := AdvanceClock(dt, draw);
      }
    }

    /** The clock and spawn part of Update, run only while the game is running. */
    method AdvanceClock(dt: real, draw: real) returns (spawned: Option<Category>)
      modifies this
      ensures var step := AdvanceSpec(config, old(State()), dt);
        State() == step.next
        && spawned == (if step.spawned then Some(Classify(config, step.next.gameTime, draw)) else None)
      ensures originalObjectStates == old(originalObjectStates)
    {
      spawned := None;
      gameTime := gameTime + dt;
      spawnTimer := spawnTimer - dt;
      if spawnTimer <= 0.0 {
        spawned := SpawnEgg(draw);
        spawnTimer := currentSpawnInterval;
        if currentSpawnInterval > config.minSpawnInterval {
          currentSpawnInterval := currentSpawnInterval - config.spawnIntervalDecrease;
          currentSpawnInterval :=
            if currentSpawnInterval > config.minSpawnInterval then currentSpawnInterval else config.minSpawnInterval;
        }
      }
    }

    /**
     * SpawnEgg: the category of the new egg, Ordinary before the special-egg
     * delay and otherwise the first band of cumulative chances the draw falls in.
     */
    method SpawnEgg(draw: real) returns (spawned: Option<Category>)
      ensures spawned == Some(Classify(config, gameTime, draw))
    {
      spawned := Some(Classify(config, gameTime, draw));
    }

    /** UpdateEffects: the three countdowns, each ending its effect when it runs out. */
    method UpdateEffects(dt: real, unscaledDt: real)
      modifies this
      ensures State() == UpdateEffectsSpec(old(State()), dt, unscaledDt)
      ensures originalObjectStates == old(originalObjectStates)
    {
      CountDownSlowMotionTimer(unscaledDt);
      CountDownSpeedBoostTimer(unscaledDt);
      CountDownPalletFreezeTimer(dt);
    }

    method CountDownSlowMotionTimer(unscaledDt: real)
      modifies this
      ensures State() == CountDownSlowMotion(old(State()), unscaledDt)
      ensures originalObjectStates == old(originalObjectStates)
    {
      if slowMotion.active {
        slowMotion := slowMotion.(timer := slowMotion.timer - unscaledDt);
        if slowMotion.timer <= 0.0 {
          EndSlowMotion();
        }
      }
    }

    method CountDownSpeedBoostTimer(unscaledDt: real)
      modifies this
      ensures State() == CountDownSpeedBoost(old(State()), unscaledDt)
      ensures originalObjectStates == old(originalObjectStates)
    {
      if speedBoost.active {
        speedBoost := speedBoost.(timer := speedBoost.timer - unscaledDt);
        if speedBoost.timer <= 0.0 {
          EndSpeedBoost();
        }
      }
    }

    method CountDownPalletFreezeTimer(dt: real)
      modifies this
      ensures State() == CountDownPalletFreeze(old(State()), dt)
      ensures originalObjectStates == old(originalObjectStates)
    {
      if palletFreeze.active {
        palletFreeze := palletFreeze.(timer := palletFreeze.timer - dt);
        if palletFreeze.timer <= 0.0 {
          EndPalletFreeze();
        }
      }
    }

    // -------------------------------------------------------------------
    // Effects

    method TriggerSlowMotion()
      modifies this
      ensures State() == TriggerSlowMotionSpec(old(State()))
      ensures originalObjectStates == old(originalObjectStates)
    {
      if speedBoost.active {
        EndSpeedBoost();
      }
      slowMotion := Effect(true, SlowMotionDuration);
      timeScale := SlowScale;
      ScorePoints(SpecialEggPoints);
    }

    method TriggerSpeedBoost()
      modifies this
      ensures State() == TriggerSpeedBoostSpec(old(State()))
      ensures originalObjectStates == old(originalObjectStates)
    {
      if slowMotion.active {
        EndSlowMotion();
      }
      speedBoost := Effect(true, SpeedBoostDuration);
      purpleEggSurvivalBonus := true;
      timeScale := BoostScale;
      ScorePoints(SpecialEggPoints);
    }

    method TriggerPalletFreeze()
      modifies this
      ensures State() == TriggerPalletFreezeSpec(old(State()))
      ensures originalObjectStates == old(originalObjectStates)
    {
      palletFreeze := Effect(true, PalletFreezeDuration);
      ScorePoints(SpecialEggPoints);
    }

    method TriggerHeal()
      modifies this
      ensures State() == TriggerHealSpec(old(State()))
      ensures originalObjectStates == old(originalObjectStates)
    {
      if slowMotion.active {
        EndSlowMotion();
      }
      if speedBoost.active {
        EndSpeedBoost();
      }
      if palletFreeze.active {
        EndPalletFreeze();
      }
      ScorePoints(SpecialEggPoints);
    }

    method EndSlowMotion()
      modifies this
      ensures State() == EndSlowMotionSpec(old(State()))
      ensures originalObjectStates == old(originalObjectStates)
    {
      slowMotion := Idle;
      if !speedBoost.active {
        timeScale := NormalScale;
      }
    }

    method EndSpeedBoost()
      modifies this
      ensures State() == EndSpeedBoostSpec(old(State()))
      ensures originalObjectStates == old(originalObjectStates)
    {
      speedBoost := Idle;
      if purpleEggSurvivalBonus {
        ScorePoints(SurvivalBonusPoints);
        purpleEggSurvivalBonus := false;
      }
      if !slowMotion.active {
        timeScale := NormalScale;
      }
    }

    method EndPalletFreeze()
      modifies this
      ensures State() == EndPalletFreezeSpec(old(State()))
      ensures originalObjectStates == old(originalObjectStates)
    {
      palletFreeze := Idle;
    }

    // -------------------------------------------------------------------
    // Score, game over and explosion

    /** An ordinary egg caught. */
    method ScorePoint()
      modifies this
      ensures State() == ScorePointsSpec(old(State()), EggPoints)
      ensures originalObjectStates == old(originalObjectStates)
    {
      ScorePoints(EggPoints);
    }

    /** An egg bounced out of a score zone. */
    method LosePoint()
      modifies this
      ensures State() == ScorePointsSpec(old(State()), EggMissPoints)
      ensures originalObjectStates == old(originalObjectStates)
    {
      ScorePoints(EggMissPoints);
    }

    method LoseBigPoints()
      modifies this
      ensures State() == ScorePointsSpec(old(State()), BigMissPoints)
      ensures originalObjectStates == old(originalObjectStates)
    {
      ScorePoints(BigMissPoints);
    }

    method ScorePoints(points: int)
      modifies this
      decreases if points == Sentinel then 0 else 3
      ensures State() == ScorePointsSpec(old(State()), points)
      ensures originalObjectStates == old(originalObjectStates)
    {
      score := score + points;
      if score < 0 && points != Sentinel && !gameOver {
        TriggerGameOver();
        return;
      }
      if score < 0 && points != Sentinel && !gameOver {
        // the zero clamp: its guard repeats the one that just returned
        assert false;
      }
    }

    method TriggerGameOver()
      modifies this
      decreases 2
      ensures State() == TriggerGameOverSpec(old(State()))
      ensures originalObjectStates == old(originalObjectStates)
    {
      if gameOver {
        return;
      }
      gameOver := true;
      TriggerExplosion();
    }

    /** The explosion; the delayed restart it schedules is the separate call RestartGame. */
    method TriggerExplosion()
      modifies this
      decreases 1
      ensures State() == TriggerExplosionSpec(old(State()))
      ensures originalObjectStates == old(originalObjectStates)
    {
      if exploded {
        return;
      }
      exploded := true;
      if !gameOver {
        ScorePoints(Sentinel);
      }
      timeScale := NormalScale;
      slowMotion := slowMotion.(active := false);
      speedBoost := speedBoost.(active := false);
      palletFreeze := palletFreeze.(active := false);
      purpleEggSurvivalBonus := false;
    }

    // -------------------------------------------------------------------
    // Session control

    method StopGame()
      modifies this
      ensures State() == StopGameSpec(old(State()))
      ensures originalObjectStates == old(originalObjectStates)
    {
      gameActive := false;
      timeScale := NormalScale;
      slowMotion := slowMotion.(active := false);
      speedBoost := speedBoost.(active := false);
      palletFreeze := palletFreeze.(active := false);
    }

    method StartGame()
      modifies this
      ensures State() == InitialSession(config)
      ensures originalObjectStates == old(originalObjectStates)
    {
      gameActive := true;
      score := 0;
      currentSpawnInterval := config.spawnInterval;
      spawnTimer := currentSpawnInterval;
      isPaused := false;
      gameTime := 0.0;
      exploded := false;
      gameOver := false;
      ResetEffects();
    }

    /** The effect reset of StartGame: normal time scale, every effect idle, no bonus pending. */
    method ResetEffects()
      modifies this
      ensures State() == old(State()).(timeScale := NormalScale, slowMotion := Idle, speedBoost := Idle,
                                       palletFreeze := Idle, survivalBonus := false)
      ensures originalObjectStates == old(originalObjectStates)
    {
      timeScale := NormalScale;
      slowMotion, speedBoost, palletFreeze := Idle, Idle, Idle;
      purpleEggSurvivalBonus := false;
    }

    method TogglePause()
      modifies this
      ensures State() == TogglePauseSpec(old(State()))
      ensures originalObjectStates == old(originalObjectStates)
    {
      isPaused := !isPaused;
    }

    /** The restart the explosion schedules, and the R key after game over. */
    method RestartGame(scene: Scene)
      modifies this, scene
      ensures State() == InitialSession(config)
      ensures scene.objects == RestoreAll(old(scene.objects), originalObjectStates)
      ensures originalObjectStates == old(originalObjectStates)
    {
      RestoreOriginalSceneState(scene);
      StartGame();
    }
  }
}
