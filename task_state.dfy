/** The single durable checkpoint (the state file) and the classification
    of a downloaded checkpoint into "proceed", "recover" or "retry". */
module TaskState {
  import opened Base
  import opened Plans

  const SUCCEEDED := "SUCCEEDED"
  const FAILED := "FAILED"
  const RUNNING := "RUNNING"
  /** The state table has no NEVER_RUN entry, so the code reads `undefined`. */
  const NEVER_RUN: Option<string> := None
  /** 10 minutes: a RUNNING task older than this is treated as abandoned. */
  const RUNNING_TASK_MAX_MS := 600000
  const STATE_FILE_RESET_MESSAGE := "Failover state file was reset"
  const NEVER_TRIGGERED_MESSAGE := "Failover has never been triggered"

  /** `failoverOperations`: either key may be absent (or null). */
  datatype Operations = Operations(addresses: Option<Plan>, routes: Option<Plan>)

  /** The empty object `{}`. */
  const NO_OPERATIONS := Operations(None, None)

  /** A state file as stored and downloaded. `timestamp` is the key this code
      writes (milliseconds); `timeStamp` is the differently spelled key that the
      staleness check reads, as `Date.parse` sees it (`None`: absent or not a
      date, i.e. NaN). */
  datatype StateRecord = StateRecord(
    taskState: Option<string>,
    message: string,
    timestamp: Option<int>,
    timeStamp: Option<int>,
    instance: string,
    failoverOperations: Option<Operations>)

  /** Options of `_createAndUpdateStateObject`. */
  datatype StateOptions = StateOptions(
    taskState: Option<string>,
    message: string,
    failoverOperations: Option<Operations>)

  /** `_createStateObject`: stamps the record with `now` under `timestamp`,
      names this device (or `none`), and defaults the record's `taskState` to SUCCEEDED. */
  function CreateStateObject(options: StateOptions, hostname: string, now: int): (r: StateRecord)
    ensures Truthy(r.taskState)
    ensures Truthy(options.taskState) ==> r.taskState == options.taskState
    ensures !Truthy(options.taskState) ==> r.taskState == Some(SUCCEEDED)
    ensures r.timestamp == Some(now) && r.timeStamp.None?
    ensures r.instance != ""
    ensures r.failoverOperations == options.failoverOperations
  {
    StateRecord(
      if Truthy(options.taskState) then options.taskState else Some(SUCCEEDED),
      options.message,
      Some(now),
      None,
      if hostname == "" then "none" else hostname,
      options.failoverOperations)
  }

  /** The record `_createAndUpdateStateObject` uploads: `taskState` defaults
      to SUCCEEDED and the operations to `{}`, so a written record always has
      a `failoverOperations` object. */
  function CheckpointRecord(options: StateOptions, hostname: string, now: int): (r: StateRecord)
    ensures r.failoverOperations.Some?
    ensures r.failoverOperations == Some(options.failoverOperations.GetOr(NO_OPERATIONS))
    ensures r.timeStamp.None?
  {
    CreateStateObject(
      StateOptions(
        if Truthy(options.taskState) then options.taskState else Some(SUCCEEDED),
        options.message,
        Some(options.failoverOperations.GetOr(NO_OPERATIONS))),
      hostname, now)
  }

  /** Outcomes of `_checkTaskState`: resolve with `recoverPreviousTask: false`,
      resolve with `recoverPreviousTask: true`, or reject with 'retry'. */
  datatype TaskCheck = Proceed(state: Option<StateRecord>) | Recover(record: StateRecord) | Retry

  /** `_checkTaskState` on a downloaded state file (`None`: no file). */
  function CheckTaskState(data: Option<StateRecord>, now: int): (r: TaskCheck)
    ensures r.Proceed? ==> r.state == data
    ensures r.Recover? ==> data == Some(r.record)
    ensures r.Proceed? <==>
      data.None? || !Truthy(data.value.taskState) || data.value.taskState == Some(SUCCEEDED)
    ensures r.Recover? <==>
      data.Some? && Truthy(data.value.taskState) && data.value.taskState != Some(SUCCEEDED) &&
      (data.value.taskState == Some(FAILED) ||
       (data.value.timeStamp.Some? && now - data.value.timeStamp.value > RUNNING_TASK_MAX_MS))
  {
    if data.None? || !Truthy(data.value.taskState) then Proceed(data)
    else if data.value.taskState == NEVER_RUN then Proceed(data)
    else if data.value.taskState == Some(SUCCEEDED) then Proceed(data)
    else if data.value.taskState == Some(FAILED) then Recover(data.value)
    else if data.value.timeStamp.Some? && now - data.value.timeStamp.value > RUNNING_TASK_MAX_MS then
      Recover(data.value)
    else Retry
  }

  /** What the staleness check makes of a checkpoint this code wrote: SUCCEEDED
      proceeds, FAILED recovers, and RUNNING (or any other state) is retried at
      every later time, because the writer never sets the key the check reads. */
  lemma WrittenRecordClassification(options: StateOptions, hostname: string, written: int, now: int)
    ensures var rec := CheckpointRecord(options, hostname, written);
      && (rec.taskState == Some(SUCCEEDED) ==> CheckTaskState(Some(rec), now).Proceed?)
      && (rec.taskState == Some(FAILED) ==> CheckTaskState(Some(rec), now) == Recover(rec))
      && (rec.taskState != Some(SUCCEEDED) && rec.taskState != Some(FAILED) ==>
            CheckTaskState(Some(rec), now).Retry?)
  {
  }

  /** A RUNNING checkpoint written by this code never becomes stale. */
  lemma FreshRunningCheckpointNeverRecovers(message: string, ops: Option<Operations>, hostname: string,
                                            written: int, now: int)
    ensures CheckTaskState(Some(CheckpointRecord(StateOptions(Some(RUNNING), message, ops), hostname, written)), now)
            == Retry
  {
  }

  /** A record carrying the `timeStamp` key does become stale after ten minutes. */
  lemma LegacyStampedRunningRecordRecovers(rec: StateRecord, now: int)
    requires rec.taskState == Some(RUNNING) && rec.timeStamp.Some?
    ensures CheckTaskState(Some(rec), now).Recover? <==> now - rec.timeStamp.value > RUNNING_TASK_MAX_MS
    ensures !CheckTaskState(Some(rec), now).Recover? ==> CheckTaskState(Some(rec), now).Retry?
  {
  }

  /** A record whose state is the text "NEVER_RUN" is not treated as never run:
      without a usable `timeStamp` it is retried. */
  lemma NeverRunTextIsRetried(rec: StateRecord, now: int)
    requires rec.taskState == Some("NEVER_RUN") && rec.timeStamp.None?
    ensures CheckTaskState(Some(rec), now) == Retry
  {
  }
}
