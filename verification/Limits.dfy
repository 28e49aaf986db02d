/** The platform limits that several components share (packages/contracts/src/limits.ts). */
module Limits {
  const MAX_EVENTS_PER_BATCH := 100
  const MIN_UPLOAD_INTERVAL_SECONDS := 30.0
  const MAX_LIVE_SESSION_SECONDS := 600
  const MAX_QUEUED_EVENTS := 5000
  const MAX_QUEUE_AGE_HOURS := 72.0
  const MAX_UPLOAD_ATTEMPTS := 8

  /** Battery hysteresis. */
  const RECOVERY_MARGIN := 0.05
}
