/** The constants of shared/config.py, domain/physics.py and domain/game_engine.py the model uses. */
module Config {

  const MAX_PLAYERS := 4
  const HOST_UDP_PORT := 50010
  const TICK_INTERVAL: real := 1.0 / 60.0

  const GRAVITY: real := 1500.0
  const MOVE_SPEED: real := 300.0
  const JUMP_FORCE: real := -675.0
  const PLAYER_WIDTH: real := 75.0
  const PLAYER_HEIGHT: real := 75.0
  const RESPAWN_DELAY_S: real := 3.0
  const STAR_EFFECT_S: real := 10.0
  const VOID_DEATH_CAUSE := "void"

  const SNAPSHOT_TIMEOUT: real := 0.15
  const MAX_EXTRAPOLATION_TIME: real := 0.35

  const UDP_INPUT_TIMEOUT: real := 10.0
  const HOST_TIMEOUT_S: real := 5.0
  const HOST_VERIFY_TIMEOUT_S: real := 10.0
  const HOST_VERIFY_RESEND_INTERVAL_S: real := 0.5
  const T_ELECTION_BASE_S: real := 0.5
  const T_ELECTION_DELTA_S: real := 0.3
  const ELECTION_CLAIM_TIMEOUT_S: real := 2.0

  const INPUT_HISTORY_SIZE := 60
  const PREDICTION_LEAD_EWMA_ALPHA: real := 0.01
  const PREDICTION_LEAD_CALIBRATION_FRAMES := 120
  const PREDICTION_LEAD_DRIFT_TOLERANCE: real := 3.0
  const RECONCILE_GLIDE_RATE: real := 0.3
  const RECONCILE_MAX_GLIDE_PX: real := 8.0

  const AGENT_QUEUE_CAPACITY := 64
}
