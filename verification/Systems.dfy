/** Rows, jobs and requests of the system link protocol: what every request and every job handler
  * does to the tenant's tables, the outstanding orbital jobs and the registry's key claims
  * (internal/event-processor/factory.go, internal/event-processor/handlers_system.go,
  * internal/manager/system.go). */
module Systems {
  import opened OrbitalErrors
  import opened Optional

  type SystemId = nat
  type ConfigId = nat
  type KeyId = nat
  type JobId = nat

  datatype Status = Connected | Disconnected | Failed | Processing

  datatype System = System(status: Status, config: Option<ConfigId>, target: Option<ConfigId>)

  datatype KeyState =
    | Enabled | Disabled | PendingDeletion | Deleted | Forbidden | Unknown
    | PendingImport | PendingCreation | CreationError | Detaching | Detached

  datatype Key = Key(config: ConfigId, state: KeyState)

  datatype Config = Config(primary: Option<KeyId>)

  datatype JobType = SystemLink | SystemUnlink | SystemSwitch | SystemSwitchNewPK | SystemDecommission | SystemKeyRotate

  /** The one stored event of a system: its primary key is the system's identifier. */
  datatype Event = Event(jobType: JobType, keyTo: Option<KeyId>, keyFrom: Option<KeyId>,
                         previous: Status, errorCode: string, errorMessage: string)

  datatype Outcome = Running | Done | JobFailed(message: string) | JobCanceled(message: string)

  /** A handler call in progress: the row it loaded and whether it already sent its key claim. */
  datatype Attempt = Attempt(loaded: System, claimed: bool)

  /** A job stays outstanding until its handler has succeeded. */
  datatype Job = Job(jobType: JobType, system: SystemId, keyTo: Option<KeyId>, keyFrom: Option<KeyId>,
                     outcome: Outcome, attempt: Option<Attempt>)

  datatype State = State(
    systems: map<SystemId, System>,
    events: map<SystemId, Event>,
    configs: map<ConfigId, Config>,
    keys: map<KeyId, Key>,
    jobs: map<JobId, Job>,
    nextJob: JobId,
    claims: set<SystemId>)

  datatype Error =
    | SystemNotFound | NotAuthorized | ConfigNotFound | NoPrimaryKey | KeyNotFound
    | ProcessingOrFailed | NotLinked | StillProcessing | NoPreviousEvent | RetryNonFailed | JobRefused

  datatype Reply = Accepted | Refused(error: Error)

  // ---- requests ----

  /** handleSystemStatus once the status guard has passed: `row` is the loaded row, `stored` says
    * whether the event row was written (a failed write is only logged). */
  function Submit(s: State, id: SystemId, row: System, jobType: JobType,
                  keyTo: Option<KeyId>, keyFrom: Option<KeyId>, stored: bool): State
  {
    s.(systems := s.systems[id := row.(status := Processing)],
       jobs := s.jobs[s.nextJob := Job(jobType, id, keyTo, keyFrom, Running, None)],
       nextJob := s.nextJob + 1,
       events := if stored then s.events[id := Event(jobType, keyTo, keyFrom, row.status, "", "")] else s.events)
  }

  function HandleSystemStatus(s: State, id: SystemId, row: System, jobType: JobType, keyTo: Option<KeyId>,
                              keyFrom: Option<KeyId>, jobOk: bool, stored: bool): (State, Reply)
  {
    if row.status == Processing then (s, Refused(StillProcessing))
    else if !jobOk then (s, Refused(JobRefused))
    else (Submit(s, id, row, jobType, keyTo, keyFrom, stored), Accepted)
  }

  /** CanConnectSystems */
  function CanConnect(s: State, config: Config): Reply {
    if config.primary.None? then Refused(NoPrimaryKey)
    else if config.primary.value !in s.keys then Refused(KeyNotFound)
    else if s.keys[config.primary.value].state != Enabled then Refused(NoPrimaryKey)
    else Accepted
  }

  /** LinkSystemAction with selectEvent. */
  function Link(s: State, id: SystemId, to: ConfigId, authorized: bool, jobOk: bool, stored: bool): (State, Reply) {
    if id !in s.systems then (s, Refused(SystemNotFound))
    else if !authorized then (s, Refused(NotAuthorized))
    else if to !in s.configs then (s, Refused(ConfigNotFound))
    else if CanConnect(s, s.configs[to]).Refused? then (s, CanConnect(s, s.configs[to]))
    else
      var row := s.systems[id];
      var primary := s.configs[to].primary;
      if row.status == Processing || row.status == Failed then (s, Refused(ProcessingOrFailed))
      else
        var aimed := row.(target := Some(to));
        if row.config.None? || row.config.value == to then
          HandleSystemStatus(s, id, aimed, SystemLink, primary, None, jobOk, stored)
        else if row.config.value !in s.configs then (s, Refused(ConfigNotFound))
        else if s.configs[row.config.value].primary.Some? then
          HandleSystemStatus(s, id, aimed, SystemSwitch, primary, s.configs[row.config.value].primary, jobOk, stored)
        else
          HandleSystemStatus(s, id, aimed, SystemLink, primary, None, jobOk, stored)
  }

  /** UnlinkSystemAction; `decommission` is the trigger of a tenant decommission, which writes no event. */
  function Unlink(s: State, id: SystemId, decommission: bool, authorized: bool, jobOk: bool, stored: bool)
    : (State, Reply)
  {
    if id !in s.systems then (s, Refused(SystemNotFound))
    else
      var row := s.systems[id];
      if row.config.None? then (s, Refused(NotLinked))
      else if !authorized then (s, Refused(NotAuthorized))
      else if row.config.value !in s.configs then (s, Refused(ConfigNotFound))
      else if row.status == Processing then (s, Refused(StillProcessing))
      else
        var primary := s.configs[row.config.value].primary;
        if primary.None? then (s, Refused(NoPrimaryKey))
        else if decommission then
          HandleSystemStatus(s, id, row, SystemDecommission, None, primary, jobOk, false)
        else HandleSystemStatus(s, id, row, SystemUnlink, None, primary, jobOk, stored)
  }

  /** SystemSwitchNewPrimaryKey for one system of the configuration whose primary key changes. */
  function SwitchNewPrimary(s: State, id: SystemId, keyTo: KeyId, keyFrom: KeyId, jobOk: bool, stored: bool)
    : (State, Reply)
  {
    if id !in s.systems then (s, Refused(SystemNotFound))
    else HandleSystemStatus(s, id, s.systems[id], SystemSwitchNewPK, Some(keyTo), Some(keyFrom), jobOk, stored)
  }

  /** SystemKeyRotate: a job and an event row, whatever the status. */
  function Rotate(s: State, id: SystemId, key: KeyId): State {
    if id !in s.systems then s
    else s.(jobs := s.jobs[s.nextJob := Job(SystemKeyRotate, id, Some(key), Some(key), Running, None)],
            nextJob := s.nextJob + 1,
            events := s.events[id := Event(SystemKeyRotate, Some(key), Some(key), s.systems[id].status, "", "")])
  }

  /** A patch that is not told to write every column leaves those alone that are null in `row`. */
  function Merged(stored: System, row: System): System {
    System(row.status, if row.config.Some? then row.config else stored.config,
           if row.target.Some? then row.target else stored.target)
  }

  /** The transaction of a retry, for the row and the event that were loaded before it: a fresh job from
    * the event, which keeps its previous status. */
  function SentRetry(s: State, id: SystemId, row: System, event: Event): State {
    s.(systems := if event.jobType == SystemKeyRotate || id !in s.systems then s.systems
                  else s.systems[id := Merged(s.systems[id], row.(status := Processing))],
       jobs := s.jobs[s.nextJob := Job(event.jobType, id, event.keyTo, event.keyFrom, Running, None)],
       nextJob := s.nextJob + 1)
  }

  /** retrySystemAction with the row and the event it loaded, each at some earlier time. */
  function RetryLoaded(s: State, id: SystemId, row: Option<System>, event: Option<Event>,
                       authorized: bool, jobOk: bool): (State, Reply)
  {
    if row.None? then (s, Refused(SystemNotFound))
    else if !authorized then (s, Refused(NotAuthorized))
    else if row.value.status != Failed then (s, Refused(RetryNonFailed))
    else if event.None? then (s, Refused(NoPreviousEvent))
    else if !jobOk then (s, Refused(JobRefused))
    else (SentRetry(s, id, row.value, event.value), Accepted)
  }

  /** A retry that nothing disturbs. */
  function Retry(s: State, id: SystemId, authorized: bool, jobOk: bool): (State, Reply) {
    RetryLoaded(s, id, Lookup(s.systems, id), Lookup(s.events, id), authorized, jobOk)
  }

  /** The update of a cancel, for the status that was read from the event before it: back to that
    * status, target cleared, event row kept. */
  function SentCancel(s: State, id: SystemId, previous: Status): State {
    if id !in s.systems then s
    else s.(systems := s.systems[id := s.systems[id].(status := previous, target := None)])
  }

  /** cancelSystemAction, for a system that was found or not and the event that was read. */
  function CancelLoaded(s: State, id: SystemId, found: bool, event: Option<Event>, authorized: bool): (State, Reply) {
    if !found then (s, Refused(SystemNotFound))
    else if !authorized then (s, Refused(NotAuthorized))
    else if event.None? then (s, Refused(NoPreviousEvent))
    else (SentCancel(s, id, event.value.previous), Accepted)
  }

  /** A cancel that nothing disturbs. */
  function Cancel(s: State, id: SystemId, authorized: bool): (State, Reply) {
    CancelLoaded(s, id, id in s.systems, Lookup(s.events, id), authorized)
  }

  /** A transaction that got as far as `reached` and then failed: the rows go back to what they were,
    * the jobs in orbital's own store do not. */
  function RolledBack(s: State, reached: State): State { s.(jobs := reached.jobs, nextJob := reached.nextJob) }

  // ---- job handlers ----

  /** handleSystemJobConfirm */
  function Confirmed(s: State, job: Job): Outcome {
    if job.jobType == SystemKeyRotate then Running
    else if job.system !in s.systems then JobCanceled("system not found")
    else if s.systems[job.system].status != Processing then JobCanceled("system is not in processing status")
    else Running
  }

  /** updateSystem: no row, no update. */
  function Write(s: State, id: SystemId, row: System): State {
    if id in s.systems then s.(systems := s.systems[id := row]) else s
  }

  /** cleanUpEvent: only an event of the job's own type is deleted. */
  function CleanUp(s: State, job: Job): State {
    if job.system in s.events && s.events[job.system].jobType == job.jobType
    then s.(events := s.events - {job.system}) else s
  }

  /** updateEventError: an empty message leaves the stored one in place. */
  function NoteError(s: State, id: SystemId, message: string): State {
    if id !in s.events then s
    else
      var parsed := Parse(message);
      s.(events := s.events[id := s.events[id].(
           errorCode := parsed.code,
           errorMessage := if parsed.message == "" then s.events[id].errorMessage else parsed.message)])
  }

  /** sendL1KeyClaim: setting a claim that is already set is not an error. */
  function SetClaim(s: State, id: SystemId, active: bool): State {
    s.(claims := if active then s.claims + {id} else s.claims - {id})
  }

  function Close(s: State, j: JobId): State { s.(jobs := s.jobs - {j}) }

  function Retain(s: State, j: JobId): State
    requires j in s.jobs
  {
    s.(jobs := s.jobs[j := s.jobs[j].(attempt := None)])
  }

  predicate ClaimJob(t: JobType) { t == SystemLink || t == SystemUnlink }
  predicate SwitchJob(t: JobType) { t == SystemSwitch || t == SystemSwitchNewPK }
  predicate UserJob(t: JobType) { ClaimJob(t) || SwitchJob(t) }

  /** A handler starts: it loads the system, or deals with a system that is gone. */
  function Begin(s: State, j: JobId): State {
    if j !in s.jobs || s.jobs[j].outcome == Running || s.jobs[j].attempt.Some? then s
    else
      var job := s.jobs[j];
      if job.system in s.systems then
        s.(jobs := s.jobs[j := job.(attempt := Some(Attempt(s.systems[job.system], false)))])
      else if UserJob(job.jobType) then
        if job.outcome == Done then s else Close(s, j)
      else if job.jobType == SystemKeyRotate then
        if job.outcome.JobFailed? && !IsVersionMismatch(job.outcome.message) then Close(s, j)
        else Close(CleanUp(s, job), j)
      else s
  }

  /** The registry call of a successful link or unlink. */
  function Claim(s: State, j: JobId): State {
    if j !in s.jobs || s.jobs[j].attempt.None? || s.jobs[j].outcome != Done || !ClaimJob(s.jobs[j].jobType) then s
    else
      var job := s.jobs[j];
      SetClaim(s, job.system, job.jobType == SystemLink)
        .(jobs := s.jobs[j := job.(attempt := Some(job.attempt.value.(claimed := true)))])
  }

  /** A handler returns an error: the job stays outstanding and the handler will be called again. */
  function Abort(s: State, j: JobId): State {
    if j !in s.jobs || s.jobs[j].attempt.None? then s else Retain(s, j)
  }

  /** terminateFailedSystemJob and terminateCanceledSystemJob. */
  function Terminate(s: State, j: JobId, row: System, message: string): State
    requires j in s.jobs
  {
    var id := s.jobs[j].system;
    Close(Write(NoteError(s, id, message), id, row.(status := Failed)), j)
  }

  /** The transaction of a successful link, unlink or switch. */
  function Complete(s: State, j: JobId, row: System): State
    requires j in s.jobs
  {
    Close(CleanUp(Write(s, s.jobs[j].system, row), s.jobs[j]), j)
  }

  function CommitUserJob(s: State, j: JobId, job: Job, attempt: Attempt): State
    requires j in s.jobs
  {
    match job.outcome
    case JobFailed(message) => Terminate(s, j, attempt.loaded, message)
    case JobCanceled(message) => Terminate(s, j, attempt.loaded, message)
    case Running => s
    case Done =>
      if ClaimJob(job.jobType) && !attempt.claimed then s
      else if job.jobType == SystemUnlink then
        Complete(s, j, attempt.loaded.(status := Disconnected, config := None))
      else if job.keyTo.None? || job.keyTo.value !in s.keys then Retain(s, j)
      else
        Complete(s, j, attempt.loaded.(status := Connected,
                                       config := Some(s.keys[job.keyTo.value].config), target := None))
  }

  /** A decommission updates the row before it sends the claim, whatever the job's outcome was; a
    * canceled one only marks the system Failed. */
  function CommitDecommission(s: State, j: JobId, job: Job, row: System, answered: bool): State
    requires j in s.jobs
  {
    if job.outcome.JobCanceled? then Close(Write(s, job.system, row.(status := Failed)), j)
    else
      var written := Write(s, job.system, row.(status := Disconnected, config := None));
      if answered then Close(SetClaim(written, job.system, false), j) else Retain(written, j)
  }

  function CommitRotate(s: State, j: JobId, job: Job, row: System): State
    requires j in s.jobs
  {
    if job.outcome.JobFailed? && !IsVersionMismatch(job.outcome.message)
    then Terminate(s, j, row, job.outcome.message)
    else Close(CleanUp(s, job), j)
  }

  /** The rest of a handler, from its transaction on; `answered` is the registry's answer to the key
    * claim that a decommission sends after its update. */
  function Commit(s: State, j: JobId, answered: bool): State {
    if j !in s.jobs || s.jobs[j].attempt.None? then s
    else
      var job := s.jobs[j];
      var attempt := job.attempt.value;
      if job.jobType == SystemKeyRotate then CommitRotate(s, j, job, attempt.loaded)
      else if job.jobType == SystemDecommission then CommitDecommission(s, j, job, attempt.loaded, answered)
      else CommitUserJob(s, j, job, attempt)
  }

  // ---- steps and runs ----

  datatype Step =
    | LinkRequest(id: SystemId, to: ConfigId, authorized: bool, jobOk: bool, stored: bool)
    | UnlinkRequest(id: SystemId, authorized: bool, jobOk: bool, stored: bool)
    | SwitchPrimaryRequest(id: SystemId, keyTo: KeyId, keyFrom: KeyId, jobOk: bool, stored: bool)
    | RetryRequest(id: SystemId, authorized: bool, jobOk: bool)
    | CancelRequest(id: SystemId, authorized: bool)
    | DecommissionRequest(id: SystemId, authorized: bool, jobOk: bool)
    | RotateRequest(id: SystemId, key: KeyId)
    | ConfirmJob(job: JobId)
    | FinishJob(job: JobId, outcome: Outcome)
    | BeginHandler(job: JobId)
    | SendClaim(job: JobId)
    | AbortHandler(job: JobId)
    | CommitHandler(job: JobId, answered: bool)
    | ChangeKeys(configs: map<ConfigId, Config>, keys: map<KeyId, Key>)
    | RetargetEvent(id: SystemId, keyTo: KeyId)
    | AddSystem(id: SystemId)
    | RemoveSystem(id: SystemId)
    | SendRetry(id: SystemId, row: System, event: Event)
    | SendCancel(id: SystemId, previous: Status)
    | LostCommit(id: SystemId, jobType: JobType, jobTo: Option<KeyId>, jobFrom: Option<KeyId>)

  function Next(s: State, step: Step): State {
    match step
    case LinkRequest(id, to, authorized, jobOk, stored) => Link(s, id, to, authorized, jobOk, stored).0
    case UnlinkRequest(id, authorized, jobOk, stored) => Unlink(s, id, false, authorized, jobOk, stored).0
    case SwitchPrimaryRequest(id, keyTo, keyFrom, jobOk, stored) =>
      SwitchNewPrimary(s, id, keyTo, keyFrom, jobOk, stored).0
    case RetryRequest(id, authorized, jobOk) => Retry(s, id, authorized, jobOk).0
    case CancelRequest(id, authorized) => Cancel(s, id, authorized).0
    case DecommissionRequest(id, authorized, jobOk) => Unlink(s, id, true, authorized, jobOk, false).0
    case RotateRequest(id, key) => Rotate(s, id, key)
    case ConfirmJob(j) =>
      if j in s.jobs && s.jobs[j].outcome == Running
      then s.(jobs := s.jobs[j := s.jobs[j].(outcome := Confirmed(s, s.jobs[j]))]) else s
    case FinishJob(j, outcome) =>
      if j in s.jobs && s.jobs[j].outcome == Running
      then s.(jobs := s.jobs[j := s.jobs[j].(outcome := outcome)]) else s
    case BeginHandler(j) => Begin(s, j)
    case SendClaim(j) => Claim(s, j)
    case AbortHandler(j) => Abort(s, j)
    case CommitHandler(j, answered) => Commit(s, j, answered)
    case ChangeKeys(configs, keys) => s.(configs := configs, keys := keys)
    case RetargetEvent(id, keyTo) =>
      if id in s.events then s.(events := s.events[id := s.events[id].(keyTo := Some(keyTo))]) else s
    case AddSystem(id) =>
      if id in s.systems then s else s.(systems := s.systems[id := System(Disconnected, None, None)])
    case RemoveSystem(id) => s.(systems := s.systems - {id})
    case SendRetry(id, row, event) => SentRetry(s, id, row, event)
    case SendCancel(id, previous) => SentCancel(s, id, previous)
    case LostCommit(id, jobType, keyTo, keyFrom) =>
      s.(jobs := s.jobs[s.nextJob := Job(jobType, id, keyTo, keyFrom, Running, None)], nextJob := s.nextJob + 1)
  }

  function Run(s: State, steps: seq<Step>): State
    decreases |steps|
  {
    if steps == [] then s else Run(Next(s, steps[0]), steps[1..])
  }
}
