// What the session operations promise, proved about the functions of
// module EggSession.

module SessionLaws {
  import opened EggSession

  // ---------------------------------------------------------------------
  // Score, game over and explosion

  /** The state game over leaves: flagged, and exploded unless it already was. */
  function GameOverState(s: Session): Session {
    var g := s.(gameOver := true);
    if g.exploded then g else ClearEffects(g.(exploded := true))
  }

  /** ScorePoints either only adds, or adds and ends the game. */
  lemma ScorePointsOutcome(s: Session, points: int)
    ensures ScorePointsSpec(s, points) ==
      if points != Sentinel && !s.gameOver && s.score + points < 0
      then GameOverState(s.(score := s.score + points))
      else s.(score := s.score + points)
  {
    var s1 := s.(score := s.score + points);
    if points != Sentinel && !s.gameOver && s.score + points < 0 {
      assert ScorePointsSpec(s, points) == TriggerGameOverSpec(s1);
      assert TriggerGameOverSpec(s1) == TriggerExplosionSpec(s1.(gameOver := true));
    }
  }

  /**
   * The zero clamp of ScorePoints is never reached: the score always moves
   * by exactly the delta, and a non-sentinel delta that makes it negative
   * ends the game and leaves it negative.
   */
  lemma ScorePointsNeverClamps(s: Session, points: int)
    ensures ScorePointsSpec(s, points).score == s.score + points
    ensures points != Sentinel ==>
      ScorePointsSpec(s, points).gameOver == (s.gameOver || s.score + points < 0)
    ensures points != Sentinel && !s.gameOver && s.score + points < 0 ==>
      var r := ScorePointsSpec(s, points);
      r.gameOver && r.exploded && r.score < 0
    ensures points == Sentinel ==> ScorePointsSpec(s, points) == s.(score := s.score + points)
  {
    ScorePointsOutcome(s, points);
  }

  /** The explosion: flags the session, charges the penalty unless the game is over, clears every effect. */
  lemma ExplosionOutcome(s: Session)
    ensures TriggerExplosionSpec(s) ==
      if s.exploded then s
      else ClearEffects(s.(exploded := true, score := if s.gameOver then s.score else s.score + Sentinel))
  {
    if !s.exploded && !s.gameOver {
      ScorePointsOutcome(s.(exploded := true), Sentinel);
    }
  }

  lemma ExplosionPenaltyAndIdempotence(s: Session)
    ensures TriggerExplosionSpec(s).exploded
    ensures TriggerExplosionSpec(TriggerExplosionSpec(s)) == TriggerExplosionSpec(s)
    ensures !s.exploded && !s.gameOver ==> TriggerExplosionSpec(s).score == s.score + Sentinel
    ensures s.gameOver ==> TriggerExplosionSpec(s).score == s.score
    ensures !s.exploded ==>
      var r := TriggerExplosionSpec(s);
      !r.slowMotion.active && !r.speedBoost.active && !r.palletFreeze.active
      && !r.survivalBonus && r.timeScale == NormalScale && r.gameOver == s.gameOver
  {
    ExplosionOutcome(s);
    ExplosionOutcome(TriggerExplosionSpec(s));
  }

  /** Game over always routes through the explosion, never charges the penalty, and is idempotent. */
  lemma GameOverImpliesExplosion(s: Session)
    ensures TriggerGameOverSpec(s).gameOver
    ensures !s.gameOver ==> TriggerGameOverSpec(s) == GameOverState(s)
    ensures !s.gameOver ==> TriggerGameOverSpec(s).exploded && TriggerGameOverSpec(s).score == s.score
    ensures s.gameOver ==> TriggerGameOverSpec(s) == s
    ensures TriggerGameOverSpec(TriggerGameOverSpec(s)) == TriggerGameOverSpec(s)
  {
    if !s.gameOver {
      ExplosionOutcome(s.(gameOver := true));
    }
  }

  /**
   * The boundary scenario of a fresh game: three ordinary catches make 300,
   * then a 500-point miss ends the game with the score left at -200.
   */
  lemma PenaltyZoneScenario(cfg: Config)
    ensures
      var s3 := ScorePointsSpec(ScorePointsSpec(ScorePointsSpec(InitialSession(cfg), EggPoints), EggPoints), EggPoints);
      var s4 := ScorePointsSpec(s3, BigMissPoints);
      s3.score == 300 && !s3.gameOver && s4.score == -200 && s4.gameOver && s4.exploded
  {
    var s0 := InitialSession(cfg);
    ScorePointsOutcome(s0, EggPoints);
    var s1 := ScorePointsSpec(s0, EggPoints);
    ScorePointsOutcome(s1, EggPoints);
    var s2 := ScorePointsSpec(s1, EggPoints);
    ScorePointsOutcome(s2, EggPoints);
    var s3 := ScorePointsSpec(s2, EggPoints);
    ScorePointsOutcome(s3, BigMissPoints);
  }

  // ---------------------------------------------------------------------
  // The invariant

  /** ScorePoints keeps the invariant. */
  lemma ScorePointsKeepsInv(s: Session, points: int)
    requires Inv(s)
    ensures Inv(ScorePointsSpec(s, points))
  {
    ScorePointsOutcome(s, points);
  }

  lemma ExplosionKeepsInv(s: Session)
    requires Inv(s)
    ensures Inv(TriggerExplosionSpec(s))
    ensures Inv(TriggerGameOverSpec(s))
  {
    ExplosionOutcome(s);
    GameOverImpliesExplosion(s);
  }

  /**
   * Ending the speed boost pays the survival bonus exactly when it is
   * pending, clears it, and puts the time scale back to normal.
   */
  lemma EndSpeedBoostPaysBonus(s: Session)
    requires Inv(s) && s.speedBoost.active
    ensures
      var r := EndSpeedBoostSpec(s);
      r.score == s.score + (if s.survivalBonus then SurvivalBonusPoints else 0)
      && !r.survivalBonus && r.speedBoost == Idle && !r.slowMotion.active
      && r.timeScale == NormalScale && Inv(r)
      && r.spawnInterval == s.spawnInterval && r.spawnTimer == s.spawnTimer && r.gameTime == s.gameTime
      && r.isPaused == s.isPaused && r.gameActive == s.gameActive && (s.exploded ==> r.exploded)
      && r.palletFreeze == (if r.exploded == s.exploded then s.palletFreeze else s.palletFreeze.(active := false))
      && (ScoreSound(s) ==> ScoreSound(r))
  {
    var s1 := s.(speedBoost := Idle);
    if s1.survivalBonus {
      ScorePointsOutcome(s1, SurvivalBonusPoints);
      ScorePointsScoreSound(s1, SurvivalBonusPoints);
    }
  }

  /** Ending slow motion (only ever done while it is on) restores the normal time scale. */
  lemma EndSlowMotionResets(s: Session)
    requires Inv(s) && s.slowMotion.active
    ensures
      var r := EndSlowMotionSpec(s);
      r == s.(slowMotion := Idle, timeScale := NormalScale) && Inv(r)
  {
  }

  /**
   * Blue egg: a running speed boost is ended first, paying its pending
   * bonus; then slow motion runs for three seconds at half speed, unless
   * the award itself ended the game.
   */
  lemma TriggerSlowMotionOutcome(s: Session)
    requires Inv(s)
    ensures Inv(TriggerSlowMotionSpec(s))
    ensures
      var r := TriggerSlowMotionSpec(s);
      r.score == s.score + SpecialEggPoints
        + (if s.speedBoost.active && s.survivalBonus then SurvivalBonusPoints else 0)
      && !r.speedBoost.active
      && (r.exploded == s.exploded ==> r.slowMotion == Effect(true, SlowMotionDuration) && r.timeScale == SlowScale)
      && (s.speedBoost.active ==> !r.survivalBonus)
  {
    var s1 := if s.speedBoost.active then EndSpeedBoostSpec(s) else s;
    if s.speedBoost.active {
      EndSpeedBoostPaysBonus(s);
    }
    var s2 := s1.(slowMotion := Effect(true, SlowMotionDuration), timeScale := SlowScale);
    ScorePointsOutcome(s2, SpecialEggPoints);
  }

  /**
   * Purple egg: a running slow motion is cancelled, then the speed boost
   * runs for five seconds at double speed with its survival bonus pending,
   * unless the award itself ended the game.
   */
  lemma TriggerSpeedBoostOutcome(s: Session)
    requires Inv(s)
    ensures Inv(TriggerSpeedBoostSpec(s))
    ensures
      var r := TriggerSpeedBoostSpec(s);
      r.score == s.score + SpecialEggPoints
      && !r.slowMotion.active
      && (r.exploded == s.exploded ==>
            r.speedBoost == Effect(true, SpeedBoostDuration) && r.survivalBonus && r.timeScale == BoostScale)
  {
    var s1 := if s.slowMotion.active then EndSlowMotionSpec(s) else s;
    var s2 := s1.(speedBoost := Effect(true, SpeedBoostDuration), survivalBonus := true, timeScale := BoostScale);
    ScorePointsOutcome(s2, SpecialEggPoints);
  }

  /** Orange egg: the pallet freezes for half a second; the time scale is untouched. */
  lemma TriggerPalletFreezeOutcome(s: Session)
    requires Inv(s)
    ensures Inv(TriggerPalletFreezeSpec(s))
    ensures
      var r := TriggerPalletFreezeSpec(s);
      r.score == s.score + SpecialEggPoints
      && (r.exploded == s.exploded ==>
            r.palletFreeze == Effect(true, PalletFreezeDuration)
            && r.slowMotion == s.slowMotion && r.speedBoost == s.speedBoost && r.timeScale == s.timeScale)
  {
    ScorePointsOutcome(s.(palletFreeze := Effect(true, PalletFreezeDuration)), SpecialEggPoints);
  }

  /**
   * Ending every effect in turn: all three are off, the time scale is
   * normal, and a running speed boost pays its pending bonus on the way out.
   */
  lemma EndAllEffectsOutcome(s: Session)
    requires Inv(s)
    ensures
      var r := EndAllEffects(s);
      Inv(r)
      && r.score == s.score + (if s.speedBoost.active && s.survivalBonus then SurvivalBonusPoints else 0)
      && !r.slowMotion.active && !r.speedBoost.active && !r.palletFreeze.active
      && r.timeScale == NormalScale
      && (s.speedBoost.active ==> !r.survivalBonus)
  {
    var s1 := if s.slowMotion.active then EndSlowMotionSpec(s) else s;
    if s.slowMotion.active {
      EndSlowMotionResets(s);
    }
    if s1.speedBoost.active {
      EndSpeedBoostPaysBonus(s1);
    }
  }

  /**
   * Green egg: every effect ends and the time scale is normal again; a
   * running speed boost is ended through EndSpeedBoost, so its pending
   * survival bonus is paid.
   */
  lemma TriggerHealOutcome(s: Session)
    requires Inv(s)
    ensures Inv(TriggerHealSpec(s))
    ensures
      var r := TriggerHealSpec(s);
      r.score == s.score + SpecialEggPoints
        + (if s.speedBoost.active && s.survivalBonus then SurvivalBonusPoints else 0)
      && !r.slowMotion.active && !r.speedBoost.active && !r.palletFreeze.active
      && r.timeScale == NormalScale
      && (s.speedBoost.active ==> !r.survivalBonus)
  {
    EndAllEffectsOutcome(s);
    ScorePointsOutcome(EndAllEffects(s), SpecialEggPoints);
  }

  /** The explosion clears a pending survival bonus without paying it. */
  lemma ExplosionForfeitsBonus(s: Session)
    requires !s.exploded && s.survivalBonus
    ensures
      var r := TriggerExplosionSpec(s);
      !r.survivalBonus && r.score == s.score + (if s.gameOver then 0 else Sentinel)
  {
    ExplosionOutcome(s);
  }

  lemma StartStopPauseKeepInv(cfg: Config, s: Session)
    ensures Inv(InitialSession(cfg)) && Running(InitialSession(cfg)) && ScoreSound(InitialSession(cfg))
    ensures Inv(StopGameSpec(s)) <==> (s.gameOver ==> s.exploded)
    ensures Inv(s) ==> Inv(TogglePauseSpec(s))
    ensures ScoreSound(StopGameSpec(s)) == ScoreSound(s) && ScoreSound(TogglePauseSpec(s)) == ScoreSound(s)
  {
  }

  // ---------------------------------------------------------------------
  // The score stays non-negative until the game explodes

  /**
   * Any ScorePoints other than the red-egg penalty, on a session where game
   * over has gone through the explosion, leaves a negative score only with
   * the session exploded: either the score stays non-negative, or it was
   * already negative after game over, or the call itself ends the game.
   */
  lemma ScorePointsScoreSound(s: Session, points: int)
    requires (s.gameOver ==> s.exploded) && points != Sentinel
    ensures ScoreSound(ScorePointsSpec(s, points))
  {
    ScorePointsOutcome(s, points);
  }

  /** The explosion and game over always leave a sound score, the penalty included. */
  lemma ExplosionScoreSound(s: Session)
    requires Inv(s)
    ensures ScoreSound(TriggerExplosionSpec(s))
    ensures ScoreSound(TriggerGameOverSpec(s))
  {
    ExplosionOutcome(s);
    GameOverImpliesExplosion(s);
  }

  /** Each special egg ends with its 150-point award, so each leaves a sound score. */
  lemma TriggersScoreSound(s: Session)
    requires Inv(s)
    ensures ScoreSound(TriggerSlowMotionSpec(s))
    ensures ScoreSound(TriggerSpeedBoostSpec(s))
    ensures ScoreSound(TriggerPalletFreezeSpec(s))
    ensures ScoreSound(TriggerHealSpec(s))
  {
    var b := if s.speedBoost.active then EndSpeedBoostSpec(s) else s;
    if s.speedBoost.active {
      EndSpeedBoostPaysBonus(s);
    }
    ScorePointsScoreSound(b.(slowMotion := Effect(true, SlowMotionDuration), timeScale := SlowScale), SpecialEggPoints);
    var m := if s.slowMotion.active then EndSlowMotionSpec(s) else s;
    ScorePointsScoreSound(m.(speedBoost := Effect(true, SpeedBoostDuration), survivalBonus := true, timeScale := BoostScale),
                          SpecialEggPoints);
    ScorePointsScoreSound(s.(palletFreeze := Effect(true, PalletFreezeDuration)), SpecialEggPoints);
    EndAllEffectsOutcome(s);
    ScorePointsScoreSound(EndAllEffects(s), SpecialEggPoints);
  }

  // ---------------------------------------------------------------------
  // Effect countdown

  /**
   * The slow-motion countdown: the timer loses the unscaled time, and when
   * it runs out slow motion ends and, the boost being off, the time scale
   * is normal again. Nothing else changes.
   */
  lemma CountDownSlowMotionOutcome(s: Session, unscaledDt: real)
    requires Inv(s)
    ensures
      var r := CountDownSlowMotion(s, unscaledDt);
      Inv(r)
      && r == (if !s.slowMotion.active then s
               else if s.slowMotion.timer - unscaledDt <= 0.0 then s.(slowMotion := Idle, timeScale := NormalScale)
               else s.(slowMotion := Effect(true, s.slowMotion.timer - unscaledDt)))
  {
    if s.slowMotion.active {
      var t := s.(slowMotion := s.slowMotion.(timer := s.slowMotion.timer - unscaledDt));
      if t.slowMotion.timer <= 0.0 {
        EndSlowMotionResets(t);
      }
    }
  }

  /**
   * The speed-boost countdown: the timer loses the unscaled time, and when
   * it runs out the boost ends through EndSpeedBoost, paying and clearing
   * the pending survival bonus. The clocks and the pause flag are untouched.
   */
  lemma CountDownSpeedBoostOutcome(s: Session, unscaledDt: real)
    requires Inv(s)
    ensures
      var r := CountDownSpeedBoost(s, unscaledDt);
      Inv(r)
      && r.spawnInterval == s.spawnInterval && r.spawnTimer == s.spawnTimer && r.gameTime == s.gameTime
      && r.isPaused == s.isPaused && r.gameActive == s.gameActive
      && (!s.speedBoost.active ==> r == s)
      && (s.speedBoost.active ==>
            !r.slowMotion.active
            && r.speedBoost == (if s.speedBoost.timer - unscaledDt <= 0.0 then Idle
                                else Effect(true, s.speedBoost.timer - unscaledDt))
            && r.palletFreeze == (if r.exploded == s.exploded then s.palletFreeze
                                  else s.palletFreeze.(active := false)))
      && (s.speedBoost.active && s.speedBoost.timer - unscaledDt <= 0.0 ==>
            r.score == s.score + (if s.survivalBonus then SurvivalBonusPoints else 0) && !r.survivalBonus)
      && (s.speedBoost.active && s.speedBoost.timer - unscaledDt > 0.0 ==>
            r == s.(speedBoost := Effect(true, s.speedBoost.timer - unscaledDt)))
      && (ScoreSound(s) ==> ScoreSound(r))
  {
    if s.speedBoost.active {
      var t := s.(speedBoost := s.speedBoost.(timer := s.speedBoost.timer - unscaledDt));
      if t.speedBoost.timer <= 0.0 {
        EndSpeedBoostPaysBonus(t);
      }
    }
  }

  /**
   * One UpdateEffects call: each active effect loses the elapsed time (the
   * freeze in scaled time, the others in unscaled time) and ends, with its
   * timer at zero, once that reaches zero; a speed boost that runs out pays
   * its pending survival bonus, and no other score change happens; the
   * clock fields are untouched.
   */
  lemma UpdateEffectsCountdown(s: Session, dt: real, unscaledDt: real)
    requires Inv(s)
    ensures
      var r := UpdateEffectsSpec(s, dt, unscaledDt);
      Inv(r)
      && r.spawnInterval == s.spawnInterval && r.spawnTimer == s.spawnTimer && r.gameTime == s.gameTime
      && r.isPaused == s.isPaused && r.gameActive == s.gameActive
      && (s.slowMotion.active ==>
            r.slowMotion == (if s.slowMotion.timer - unscaledDt <= 0.0 then Idle
                             else Effect(true, s.slowMotion.timer - unscaledDt)))
      && (!s.slowMotion.active ==> !r.slowMotion.active)
      && (s.speedBoost.active ==>
            r.speedBoost == (if s.speedBoost.timer - unscaledDt <= 0.0 then Idle
                             else Effect(true, s.speedBoost.timer - unscaledDt)))
      && (!s.speedBoost.active ==> r.speedBoost == s.speedBoost)
      && (s.palletFreeze.active && s.palletFreeze.timer - dt <= 0.0 ==> !r.palletFreeze.active)
      && (s.palletFreeze.active && r.exploded == s.exploded ==>
            r.palletFreeze.active == (s.palletFreeze.timer - dt > 0.0)
            && r.palletFreeze.timer == (if s.palletFreeze.timer - dt <= 0.0 then 0.0 else s.palletFreeze.timer - dt))
      && (!s.palletFreeze.active ==> !r.palletFreeze.active)
      && var expired := s.speedBoost.active && s.speedBoost.timer - unscaledDt <= 0.0;
         r.score == s.score + (if expired && s.survivalBonus then SurvivalBonusPoints else 0)
         && r.survivalBonus == (s.survivalBonus && !expired)
         && (ScoreSound(s) ==> ScoreSound(r))
  {
    CountDownSlowMotionOutcome(s, unscaledDt);
    CountDownSpeedBoostOutcome(CountDownSlowMotion(s, unscaledDt), unscaledDt);
  }

  // ---------------------------------------------------------------------
  // Spawn interval

  function Max(a: real, b: real): real {
    if a >= b then a else b
  }

  /**
   * After n spawns the interval is the base lowered n steps, floored at the
   * minimum.
   */
  lemma {:induction false} IntervalClosedForm(cfg: Config, n: nat)
    requires cfg.spawnIntervalDecrease >= 0.0
    requires cfg.spawnInterval >= cfg.minSpawnInterval
    ensures IntervalAfter(cfg, n) == Max(cfg.spawnInterval - (n as real) * cfg.spawnIntervalDecrease, cfg.minSpawnInterval)
  {
    if n > 0 {
      IntervalClosedForm(cfg, n - 1);
    }
  }

  /** With the default settings the interval reaches the 0.5 floor after 30 spawns and stays there. */
  lemma DefaultSchedule()
    ensures IntervalAfter(DefaultConfig, 29) == 0.55
    ensures IntervalAfter(DefaultConfig, 30) == 0.5
    ensures IntervalAfter(DefaultConfig, 31) == 0.5
  {
    IntervalClosedForm(DefaultConfig, 29);
    IntervalClosedForm(DefaultConfig, 30);
    IntervalClosedForm(DefaultConfig, 31);
  }

  /** The interval never rises and never leaves the floor behind, spawn after spawn. */
  lemma {:induction false} IntervalMonotone(cfg: Config, m: nat, n: nat)
    requires cfg.spawnIntervalDecrease >= 0.0
    requires m <= n
    ensures IntervalAfter(cfg, n) <= IntervalAfter(cfg, m)
    ensures IntervalAfter(cfg, m) >= cfg.minSpawnInterval ==> IntervalAfter(cfg, n) >= cfg.minSpawnInterval
    decreases n - m
  {
    if m < n {
      IntervalMonotone(cfg, m, n - 1);
    }
  }

  // ---------------------------------------------------------------------
  // Classification

  /**
   * Classify is band selection: before the delay every egg is ordinary;
   * after it, the egg takes the first special kind, in the order red, blue,
   * orange, green, purple, whose cumulative probability exceeds the draw,
   * and stays ordinary when none does.
   */
  lemma ClassifyIsFirstBand(cfg: Config, gameTime: real, draw: real)
    ensures Classify(cfg, gameTime, draw) ==
      if gameTime < cfg.specialEggDelay then Ordinary else Kind(FirstBand(cfg.chances, draw, 0))
  {
    var ch := cfg.chances;
    assert Threshold(ch, 1) == ch.red;
    assert Threshold(ch, 2) == ch.red + ch.blue;
    assert Threshold(ch, 3) == ch.red + ch.blue + ch.orange;
    assert Threshold(ch, 4) == ch.red + ch.blue + ch.orange + ch.green;
    assert Threshold(ch, 5) == ch.red + ch.blue + ch.orange + ch.green + ch.purple;
    assert FirstBand(ch, draw, 4) == if draw < Threshold(ch, 5) then 4 else 5;
  }

  /** Cumulative thresholds of non-negative probabilities never decrease. */
  lemma {:induction false} ThresholdMonotone(ch: Chances, j: nat, k: nat)
    requires ch.red >= 0.0 && ch.blue >= 0.0 && ch.orange >= 0.0 && ch.green >= 0.0 && ch.purple >= 0.0
    requires j <= k
    ensures Threshold(ch, j) <= Threshold(ch, k)
    decreases k - j
  {
    if j < k {
      ThresholdMonotone(ch, j, k - 1);
    }
  }

  /** With non-negative probabilities the first band below the draw is the interval that holds it. */
  lemma {:induction false} FirstBandInterval(ch: Chances, draw: real, k: nat, b: nat)
    requires ch.red >= 0.0 && ch.blue >= 0.0 && ch.orange >= 0.0 && ch.green >= 0.0 && ch.purple >= 0.0
    requires k <= 5 && draw >= Threshold(ch, k) && b < 5
    ensures FirstBand(ch, draw, k) == b <==> k <= b && Threshold(ch, b) <= draw < Threshold(ch, b + 1)
    decreases 5 - k
  {
    if k < 5 {
      if draw < Threshold(ch, k + 1) {
        if k < b {
          ThresholdMonotone(ch, k + 1, b);
        }
      } else {
        FirstBandInterval(ch, draw, k + 1, b);
      }
    }
  }

  /**
   * After the delay, with non-negative probabilities and a draw in [0, 1],
   * the egg is of special kind k exactly when the draw lies in the k-th
   * band [T(k), T(k + 1)), and ordinary exactly when it lies at or beyond
   * the sum of all five.
   */
  lemma ClassifyBands(cfg: Config, gameTime: real, draw: real, k: nat)
    requires var ch := cfg.chances;
      ch.red >= 0.0 && ch.blue >= 0.0 && ch.orange >= 0.0 && ch.green >= 0.0 && ch.purple >= 0.0
    requires 0.0 <= draw && gameTime >= cfg.specialEggDelay && k < 5
    ensures Classify(cfg, gameTime, draw) == Kind(k) <==>
      Threshold(cfg.chances, k) <= draw < Threshold(cfg.chances, k + 1)
    ensures Classify(cfg, gameTime, draw) == Ordinary <==> draw >= Threshold(cfg.chances, 5)
  {
    ClassifyIsFirstBand(cfg, gameTime, draw);
    FirstBandInterval(cfg.chances, draw, 0, k);
    var b := FirstBand(cfg.chances, draw, 0);
    assert Kind(b) == Kind(k) <==> b == k;
    if b < 5 {
      FirstBandInterval(cfg.chances, draw, 0, b);
      ThresholdMonotone(cfg.chances, b + 1, 5);
    } else {
      FirstBandNone(cfg.chances, draw, 0);
    }
  }

  /** When no band holds the draw, it lies at or beyond the last threshold. */
  lemma {:induction false} FirstBandNone(ch: Chances, draw: real, k: nat)
    requires k < 5 && FirstBand(ch, draw, k) == 5
    ensures draw >= Threshold(ch, 5)
    decreases 5 - k
  {
    if k < 4 {
      FirstBandNone(ch, draw, k + 1);
    }
  }

  /** The worked examples: before the delay any draw is ordinary; at 6 s a draw of 0.10 is blue. */
  lemma DefaultClassification(draw: real)
    ensures Classify(DefaultConfig, 3.0, draw) == Ordinary
    ensures Classify(DefaultConfig, 6.0, 0.10) == Blue
    ensures Classify(DefaultConfig, 6.0, 0.07) == Red
    ensures Classify(DefaultConfig, 6.0, 0.30) == Ordinary
  {
  }

  // ---------------------------------------------------------------------
  // One Update call

  /** An inactive game changes nothing; R after game over restarts from the initial session. */
  lemma TickInactiveOrRestart(cfg: Config, s: Session, dt: real, unscaledDt: real, pausePressed: bool, restartPressed: bool)
    ensures !s.gameActive ==> TickSpec(cfg, s, dt, unscaledDt, pausePressed, restartPressed) == Step(s, false, false)
    ensures s.gameActive && s.gameOver && restartPressed ==>
      TickSpec(cfg, s, dt, unscaledDt, pausePressed, restartPressed) == Step(InitialSession(cfg), true, false)
    ensures TickSpec(cfg, s, dt, unscaledDt, pausePressed, restartPressed).restarted <==>
      s.gameActive && s.gameOver && restartPressed
  {
  }

  /**
   * A tick that finds the session exploded, over, or paused without a pause
   * press moves no clock, no effect and no score, and spawns nothing; only
   * the pause flag may flip.
   */
  lemma TickHaltedFreezesClocks(cfg: Config, s: Session, dt: real, unscaledDt: real, pausePressed: bool, restartPressed: bool)
    requires !(s.gameActive && s.gameOver && restartPressed)
    requires s.exploded || s.gameOver || (s.isPaused && !pausePressed)
    ensures
      var step := TickSpec(cfg, s, dt, unscaledDt, pausePressed, restartPressed);
      !step.spawned && !step.restarted
      && step.next == s.(isPaused := step.next.isPaused)
  {
  }

  /**
   * When a spawn fires the countdown restarts from the interval as it was
   * before this spawn, and the interval takes one step toward the floor.
   */
  lemma TickSpawnResetsTimer(cfg: Config, s: Session, dt: real, unscaledDt: real, pausePressed: bool, restartPressed: bool)
    requires Inv(s)
    ensures
      var step := TickSpec(cfg, s, dt, unscaledDt, pausePressed, restartPressed);
      step.spawned ==>
        step.next.spawnTimer == s.spawnInterval
        && step.next.spawnInterval == NextInterval(cfg, s.spawnInterval)
        && step.next.gameTime == s.gameTime + dt
        && s.spawnTimer - dt <= 0.0
  {
    TickClock(cfg, s, dt, unscaledDt, pausePressed, restartPressed);
  }

  /** How the clock fields move in one tick that does not restart. */
  lemma TickClock(cfg: Config, s: Session, dt: real, unscaledDt: real, pausePressed: bool, restartPressed: bool)
    requires Inv(s)
    ensures
      var step := TickSpec(cfg, s, dt, unscaledDt, pausePressed, restartPressed);
      !step.restarted ==>
        (step.next.spawnInterval == if step.spawned then NextInterval(cfg, s.spawnInterval) else s.spawnInterval)
        && (step.spawned ==> step.next.spawnTimer == s.spawnInterval
                             && step.next.gameTime == s.gameTime + dt && s.spawnTimer - dt <= 0.0)
  {
    if s.gameActive && !(s.gameOver && restartPressed) {
      var s1 := if !s.gameOver && pausePressed then TogglePauseSpec(s) else s;
      if Running(s1) {
        UpdateEffectsCountdown(s1, dt, unscaledDt);
      }
    }
  }

  /**
   * Across any tick that does not restart, the spawn interval never rises
   * and, once at or above the floor, never falls below it.
   */
  lemma TickIntervalBounds(cfg: Config, s: Session, dt: real, unscaledDt: real, pausePressed: bool, restartPressed: bool)
    requires Inv(s) && cfg.spawnIntervalDecrease >= 0.0
    ensures
      var step := TickSpec(cfg, s, dt, unscaledDt, pausePressed, restartPressed);
      !step.restarted ==>
        step.next.spawnInterval <= s.spawnInterval
        && (s.spawnInterval >= cfg.minSpawnInterval ==> step.next.spawnInterval >= cfg.minSpawnInterval)
  {
    TickClock(cfg, s, dt, unscaledDt, pausePressed, restartPressed);
  }

  /** Every tick keeps the score sound: only an expiring boost scores, and a restart starts from 0. */
  lemma TickScoreSound(cfg: Config, s: Session, dt: real, unscaledDt: real, pausePressed: bool, restartPressed: bool)
    requires Inv(s) && ScoreSound(s)
    ensures ScoreSound(TickSpec(cfg, s, dt, unscaledDt, pausePressed, restartPressed).next)
  {
    if s.gameActive && !(s.gameOver && restartPressed) {
      var s1 := if !s.gameOver && pausePressed then TogglePauseSpec(s) else s;
      if Running(s1) {
        UpdateEffectsCountdown(s1, dt, unscaledDt);
      }
    }
  }

  /** Every tick keeps the invariant. */
  lemma TickKeepsInv(cfg: Config, s: Session, dt: real, unscaledDt: real, pausePressed: bool, restartPressed: bool)
    requires Inv(s)
    ensures Inv(TickSpec(cfg, s, dt, unscaledDt, pausePressed, restartPressed).next)
  {
    if s.gameActive && !(s.gameOver && restartPressed) {
      var s1 := if !s.gameOver && pausePressed then TogglePauseSpec(s) else s;
      if Running(s1) {
        UpdateEffectsCountdown(s1, dt, unscaledDt);
      }
    }
  }
}
