// The egg-catcher session as a value: every field that EggGameManager
// updates in place, and one function per operation giving the state that
// operation leaves behind. The class in game_manager.dfy is proved against
// these functions; the lemmas here state what the game promises about them.

module EggSession {

  // ---------------------------------------------------------------------
  // Constants and inspector settings

  /** The catastrophic penalty a red egg costs; it bypasses the game-over check. */
  const Sentinel: int := -9999999999

  const EggPoints: int := 100          // ScorePoint
  const EggMissPoints: int := -100     // LosePoint
  const BigMissPoints: int := -500     // LoseBigPoints
  const SpecialEggPoints: int := 150   // every Trigger* award
  const SurvivalBonusPoints: int := 499

  const SlowMotionDuration: real := 3.0
  const SpeedBoostDuration: real := 5.0
  const PalletFreezeDuration: real := 0.5

  const SlowScale: real := 0.5
  const BoostScale: real := 2.0
  const NormalScale: real := 1.0

  /** Probabilities of the five special eggs, in the order they are tried. */
  datatype Chances = Chances(red: real, blue: real, orange: real, green: real, purple: real)

  /** The serialized settings of the manager. */
  datatype Config = Config(
    spawnInterval: real,
    spawnIntervalDecrease: real,
    minSpawnInterval: real,
    specialEggDelay: real,
    chances: Chances)

  const DefaultConfig: Config :=
    Config(2.0, 0.05, 0.5, 5.0, Chances(0.08, 0.06, 0.06, 0.05, 0.05))

  datatype Category = Ordinary | Red | Blue | Orange | Green | Purple

  // ---------------------------------------------------------------------
  // Session state

  /** One timed effect: its flag and its countdown. */
  datatype Effect = Effect(active: bool, timer: real)

  const Idle: Effect := Effect(false, 0.0)

  datatype Session = Session(
    score: int,
    gameActive: bool,
    isPaused: bool,
    exploded: bool,
    gameOver: bool,
    slowMotion: Effect,
    speedBoost: Effect,
    palletFreeze: Effect,
    survivalBonus: bool,
    spawnInterval: real,
    spawnTimer: real,
    gameTime: real,
    timeScale: real)

  /** What one Update call produced besides the new session. */
  datatype Step = Step(next: Session, restarted: bool, spawned: bool)

  /** Time advances, effects count down and eggs spawn only in this state. */
  predicate Running(s: Session) {
    !s.isPaused && !s.exploded && !s.gameOver
  }

  /** The global time scale each combination of effects calls for. */
  function ScaleFor(s: Session): real {
    if s.slowMotion.active then SlowScale
    else if s.speedBoost.active then BoostScale
    else NormalScale
  }

  /**
   * The invariant every operation keeps: slow motion and speed boost are
   * never both on, the time scale matches the active effect, and game over
   * has always gone through the explosion.
   */
  predicate Inv(s: Session) {
    !(s.slowMotion.active && s.speedBoost.active)
    && s.timeScale == ScaleFor(s)
    && (s.gameOver ==> s.exploded)
  }

  /**
   * The score rule ScorePoints aims at: the score is negative only after
   * the red-egg penalty or game over, both of which leave the session
   * exploded.
   */
  predicate ScoreSound(s: Session) {
    s.score < 0 ==> s.exploded
  }

  // ---------------------------------------------------------------------
  // Classification of a spawned egg

  /** The probability of the k-th special egg in trial order. */
  function Weight(ch: Chances, k: nat): real {
    match k
    case 0 => ch.red
    case 1 => ch.blue
    case 2 => ch.orange
    case 3 => ch.green
    case 4 => ch.purple
    case _ => 0.0
  }

  /** The k-th special category in trial order; Ordinary past the fifth. */
  function Kind(k: nat): Category {
    match k
    case 0 => Red
    case 1 => Blue
    case 2 => Orange
    case 3 => Green
    case 4 => Purple
    case _ => Ordinary
  }

  /** The sum of the first k probabilities: the upper end of band k - 1. */
  function Threshold(ch: Chances, k: nat): real {
    if k == 0 then 0.0 else Threshold(ch, k - 1) + Weight(ch, k - 1)
  }

  /** The first band at or after k whose cumulative threshold exceeds the draw; 5 if none. */
  function FirstBand(ch: Chances, draw: real, k: nat): (b: nat)
    requires k <= 5
    ensures k <= b <= 5
    decreases 5 - k
  {
    if k == 5 then 5
    else if draw < Threshold(ch, k + 1) then k
    else FirstBand(ch, draw, k + 1)
  }

  /** The band selection of SpawnEgg, with the random draw as a parameter. */
  function Classify(cfg: Config, gameTime: real, draw: real): Category {
    if gameTime >= cfg.specialEggDelay then
      var ch := cfg.chances;
      if draw < ch.red then Red
      else if draw < ch.red + ch.blue then Blue
      else if draw < ch.red + ch.blue + ch.orange then Orange
      else if draw < ch.red + ch.blue + ch.orange + ch.green then Green
      else if draw < ch.red + ch.blue + ch.orange + ch.green + ch.purple then Purple
      else Ordinary
    else Ordinary
  }

  // ---------------------------------------------------------------------
  // Spawn interval

  /** The interval after one spawn: lowered by the step only while above the floor. */
  function NextInterval(cfg: Config, cur: real): (r: real)
    ensures cfg.spawnIntervalDecrease >= 0.0 ==> r <= cur
    ensures cur >= cfg.minSpawnInterval ==> r >= cfg.minSpawnInterval
    ensures cur <= cfg.minSpawnInterval ==> r == cur
  {
    if cur > cfg.minSpawnInterval then
      var lowered := cur - cfg.spawnIntervalDecrease;
      if lowered > cfg.minSpawnInterval then lowered else cfg.minSpawnInterval
    else cur
  }

  /** The interval after n spawns of one game. */
  function IntervalAfter(cfg: Config, n: nat): real {
    if n == 0 then cfg.spawnInterval else NextInterval(cfg, IntervalAfter(cfg, n - 1))
  }

  // ---------------------------------------------------------------------
  // Score, game over and explosion

  /** What the explosion does to the effects and the time scale. */
  function ClearEffects(s: Session): Session {
    s.(timeScale := NormalScale,
       slowMotion := s.slowMotion.(active := false),
       speedBoost := s.speedBoost.(active := false),
       palletFreeze := s.palletFreeze.(active := false),
       survivalBonus := false)
  }

  function ScorePointsSpec(s: Session, points: int): Session
    decreases if points == Sentinel then 0 else 3
  {
    var s1 := s.(score := s.score + points);
    if s1.score < 0 && points != Sentinel && !s1.gameOver then
      TriggerGameOverSpec(s1)
    else if s1.score < 0 && points != Sentinel && !s1.gameOver then
      s1.(score := 0)
    else
      s1
  }

  function TriggerGameOverSpec(s: Session): Session
    decreases 2
  {
    if s.gameOver then s else TriggerExplosionSpec(s.(gameOver := true))
  }

  function TriggerExplosionSpec(s: Session): Session
    decreases 1
  {
    if s.exploded then s
    else
      var s1 := s.(exploded := true);
      var s2 := if !s1.gameOver then ScorePointsSpec(s1, Sentinel) else s1;
      ClearEffects(s2)
  }

  // ---------------------------------------------------------------------
  // Effects

  function EndSlowMotionSpec(s: Session): Session {
    var s1 := s.(slowMotion := Idle);
    if !s1.speedBoost.active then s1.(timeScale := NormalScale) else s1
  }

  function EndSpeedBoostSpec(s: Session): Session {
    var s1 := s.(speedBoost := Idle);
    var s2 := if s1.survivalBonus then ScorePointsSpec(s1, SurvivalBonusPoints).(survivalBonus := false) else s1;
    if !s2.slowMotion.active then s2.(timeScale := NormalScale) else s2
  }

  function EndPalletFreezeSpec(s: Session): Session {
    s.(palletFreeze := Idle)
  }

  function TriggerSlowMotionSpec(s: Session): Session {
    var s1 := if s.speedBoost.active then EndSpeedBoostSpec(s) else s;
    var s2 := s1.(slowMotion := Effect(true, SlowMotionDuration), timeScale := SlowScale);
    ScorePointsSpec(s2, SpecialEggPoints)
  }

  function TriggerSpeedBoostSpec(s: Session): Session {
    var s1 := if s.slowMotion.active then EndSlowMotionSpec(s) else s;
    var s2 := s1.(speedBoost := Effect(true, SpeedBoostDuration), survivalBonus := true, timeScale := BoostScale);
    ScorePointsSpec(s2, SpecialEggPoints)
  }

  function TriggerPalletFreezeSpec(s: Session): Session {
    ScorePointsSpec(s.(palletFreeze := Effect(true, PalletFreezeDuration)), SpecialEggPoints)
  }

  /** The first part of TriggerHeal: each active effect is ended through its End operation. */
  function EndAllEffects(s: Session): Session {
    var s1 := if s.slowMotion.active then EndSlowMotionSpec(s) else s;
    var s2 := if s1.speedBoost.active then EndSpeedBoostSpec(s1) else s1;
    if s2.palletFreeze.active then EndPalletFreezeSpec(s2) else s2
  }

  function TriggerHealSpec(s: Session): Session {
    ScorePointsSpec(EndAllEffects(s), SpecialEggPoints)
  }

  /** The slow-motion countdown of UpdateEffects, in unscaled time. */
  function CountDownSlowMotion(s: Session, unscaledDt: real): Session {
    if s.slowMotion.active then
      var t := s.(slowMotion := s.slowMotion.(timer := s.slowMotion.timer - unscaledDt));
      if t.slowMotion.timer <= 0.0 then EndSlowMotionSpec(t) else t
    else s
  }

  /** The speed-boost countdown of UpdateEffects, in unscaled time. */
  function CountDownSpeedBoost(s: Session, unscaledDt: real): Session {
    if s.speedBoost.active then
      var t := s.(speedBoost := s.speedBoost.(timer := s.speedBoost.timer - unscaledDt));
      if t.speedBoost.timer <= 0.0 then EndSpeedBoostSpec(t) else t
    else s
  }

  /** The pallet-freeze countdown of UpdateEffects, in scaled time. */
  function CountDownPalletFreeze(s: Session, dt: real): Session {
    if s.palletFreeze.active then
      var t := s.(palletFreeze := s.palletFreeze.(timer := s.palletFreeze.timer - dt));
      if t.palletFreeze.timer <= 0.0 then EndPalletFreezeSpec(t) else t
    else s
  }

  /** UpdateEffects: the three countdowns in order. */
  function UpdateEffectsSpec(s: Session, dt: real, unscaledDt: real): Session {
    CountDownPalletFreeze(CountDownSpeedBoost(CountDownSlowMotion(s, unscaledDt), unscaledDt), dt)
  }

  // ---------------------------------------------------------------------
  // Session control

  /** The state StartGame leaves behind, whatever came before. */
  function InitialSession(cfg: Config): Session {
    Session(0, true, false, false, false, Idle, Idle, Idle, false,
            cfg.spawnInterval, cfg.spawnInterval, 0.0, NormalScale)
  }

  function StopGameSpec(s: Session): Session {
    s.(gameActive := false,
       timeScale := NormalScale,
       slowMotion := s.slowMotion.(active := false),
       speedBoost := s.speedBoost.(active := false),
       palletFreeze := s.palletFreeze.(active := false))
  }

  function TogglePauseSpec(s: Session): Session {
    s.(isPaused := !s.isPaused)
  }

  /** The clock and spawn part of Update, applied to a running session. */
  function AdvanceSpec(cfg: Config, s: Session, dt: real): Step {
    var s1 := s.(gameTime := s.gameTime + dt, spawnTimer := s.spawnTimer - dt);
    if s1.spawnTimer <= 0.0 then
      Step(s1.(spawnTimer := s1.spawnInterval, spawnInterval := NextInterval(cfg, s1.spawnInterval)), false, true)
    else
      Step(s1, false, false)
  }

  /** One Update call: restart on R after game over, pause toggle, effects, clock and spawning. */
  function TickSpec(cfg: Config, s: Session, dt: real, unscaledDt: real, pausePressed: bool, restartPressed: bool): Step {
    if !s.gameActive then Step(s, false, false)
    else if s.gameOver && restartPressed then Step(InitialSession(cfg), true, false)
    else
      var s1 := if !s.gameOver && pausePressed then TogglePauseSpec(s) else s;
      var s2 := if Running(s1) then UpdateEffectsSpec(s1, dt, unscaledDt) else s1;
      if Running(s2) then AdvanceSpec(cfg, s2, dt) else Step(s2, false, false)
  }
}
