/** The external side-effect table (apps/api/src/control-plane-postgres-effects.ts). */
module Effects {
  import opened Basics
  import opened Identifiers

  datatype ErrorClass = Permanent | Retryable

  datatype EffectStatus = EffectProcessing | EffectDone | EffectFailed | EffectUncertain

  datatype EffectRow = EffectRow(
    jobId: JobId,
    status: EffectStatus,
    attempts: nat,
    errorClass: Option<ErrorClass>,
    errorMessage: Option<string>,
    updatedAt: Instant,
    finishedAt: Option<Instant>)

  type EffectTable = map<EffectKey, EffectRow>

  datatype EffectAnswer = EffectClaimed(attempts: nat) | EffectBusy(retryAt: Instant) | AlreadyDone | AlreadyUncertain

  /** What `finishEffect` is told: `processing` is not a possible result. */
  datatype EffectResult =
    | RecordDone
    | RecordFailed(errorClass: ErrorClass, errorMessage: string)
    | RecordUncertain(errorMessage: string)

  const STALE_MS: int := 600_000

  predicate IsStale(updatedAt: Instant, now: Instant) { now - updatedAt > STALE_MS }

  predicate Frozen(status: EffectStatus) { status == EffectDone || status == EffectUncertain }

  function ClaimEffectAnswer(table: EffectTable, key: EffectKey, now: Instant): EffectAnswer {
    if key !in table then EffectClaimed(1)
    else
      match table[key].status
      case EffectDone => AlreadyDone
      case EffectUncertain => AlreadyUncertain
      case EffectProcessing =>
        if IsStale(table[key].updatedAt, now) then EffectClaimed(table[key].attempts + 1)
        else EffectBusy(table[key].updatedAt + STALE_MS)
      case EffectFailed => EffectClaimed(table[key].attempts + 1)
  }

  function ClaimEffect(table: EffectTable, key: EffectKey, jobId: JobId, now: Instant): EffectTable {
    var answer := ClaimEffectAnswer(table, key, now);
    if !answer.EffectClaimed? then table
    else if key !in table then
      table[key := EffectRow(jobId, EffectProcessing, 1, None, None, now, None)]
    else
      table[key := table[key].(attempts := answer.attempts, status := EffectProcessing,
                               errorClass := None, errorMessage := None, updatedAt := now, finishedAt := None)]
  }

  function StatusOf(result: EffectResult): EffectStatus {
    match result
    case RecordDone => EffectDone
    case RecordFailed(_, _) => EffectFailed
    case RecordUncertain(_) => EffectUncertain
  }

  /** No status guard: the update applies to whatever row is there. */
  function FinishEffect(table: EffectTable, key: EffectKey, result: EffectResult, now: Instant): EffectTable {
    if key !in table then table
    else
      table[key := table[key].(
        status := StatusOf(result),
        errorClass := match result
          case RecordDone => None
          case RecordFailed(c, _) => Some(c)
          case RecordUncertain(_) => Some(Permanent),
        errorMessage := match result
          case RecordDone => None
          case RecordFailed(_, m) => Some(Cut(m))
          case RecordUncertain(m) => Some(Cut(m)),
        updatedAt := now,
        finishedAt := if result.RecordFailed? then None else Some(now))]
  }
}
