/** The invariant of the link protocol over every run of requests, retries, cancels, handler calls
  * (with replays) and changes of the key and system tables. */
module LinkProtocol {
  import opened Optional
  import opened Systems

  /** Where a retry that loaded `row` and `event` earlier may send its job: the system is not Processing,
    * its event is still of that type, and a configuration that was loaded is not gone. */
  predicate RetryFits(s: State, id: SystemId, row: System, event: Event) {
    && UserJob(event.jobType)
    && (id in s.systems ==>
          && s.systems[id].status != Processing
          && id in s.events && s.events[id].jobType == event.jobType
          && (row.config.Some? ==> s.systems[id].config.Some?))
  }

  /** Where a cancel that read the status `previous` earlier may write it. */
  predicate CancelFits(s: State, id: SystemId, previous: Status) {
    id in s.systems ==>
      && s.systems[id].status != Processing && previous != Processing && Agrees(previous, s.systems[id].config)
  }

  /** The hypotheses about the environment: the event row is written, a transaction that has created
    * its job commits, CANCEL is not sent for a PROCESSING system, a retry or cancel that loaded its row
    * and event earlier still fits, no key rotation and no decommission is in play, a primary-key switch
    * goes to linked systems, and a system that joins has a new identifier. */
  predicate Admissible(s: State, step: Step) {
    match step
    case LinkRequest(_, _, _, _, stored) => stored
    case UnlinkRequest(_, _, _, stored) => stored
    case SwitchPrimaryRequest(id, _, _, _, stored) => stored && (id in s.systems ==> s.systems[id].config.Some?)
    case CancelRequest(id, _) => id in s.systems ==> s.systems[id].status != Processing
    case SendRetry(id, row, event) => RetryFits(s, id, row, event)
    case SendCancel(id, previous) => CancelFits(s, id, previous)
    case DecommissionRequest(_, _, _) => false
    case RotateRequest(_, _) => false
    case LostCommit(_, _, _, _) => false
    case AddSystem(id) =>
      id !in s.systems ==> id !in s.events && id !in s.claims && forall j :: j in s.jobs ==> s.jobs[j].system != id
    case _ => true
  }

  predicate AdmissibleRun(s: State, steps: seq<Step>)
    decreases |steps|
  {
    steps == [] || (Admissible(s, steps[0]) && AdmissibleRun(Next(s, steps[0]), steps[1..]))
  }

  predicate Agrees(status: Status, config: Option<ConfigId>) {
    && (status == Connected ==> config.Some?)
    && (status == Disconnected ==> config.None?)
  }

  /** Between the terminal outcome of a link or unlink and its commit the claim may have moved already. */
  predicate ClaimMoving(job: Job) { ClaimJob(job.jobType) && job.outcome == Done }

  predicate JobOf(s: State, j: JobId, id: SystemId) { j in s.jobs && s.jobs[j].system == id }

  /** A job of a stored system. */
  predicate JobOk(s: State, job: Job)
    requires job.system in s.systems
  {
    var row := s.systems[job.system];
    && row.status == Processing
    && job.system in s.events
    && s.events[job.system].jobType == job.jobType
    && (job.attempt.Some? ==> job.attempt.value.loaded == row && job.outcome != Running)
    && (ClaimMoving(job) && job.attempt.Some? && job.attempt.value.claimed ==>
          (job.system in s.claims <==> job.jobType == SystemLink))
    && (!ClaimMoving(job) ==> (job.system in s.claims <==> row.config.Some?))
  }

  predicate RowOk(s: State, id: SystemId)
    requires id in s.systems
  {
    var row := s.systems[id];
    && Agrees(row.status, row.config)
    && (row.status != Processing ==> (id in s.claims <==> row.config.Some?))
    && (id in s.events ==>
          var e := s.events[id];
          && e.previous != Processing
          && Agrees(e.previous, row.config)
          && UserJob(e.jobType)
          && (SwitchJob(e.jobType) ==> row.config.Some?))
  }

  /** Everything the protocol keeps about one stored system. */
  ghost predicate SystemOk(s: State, id: SystemId)
    requires id in s.systems
  {
    && RowOk(s, id)
    && (s.systems[id].status == Processing <==> exists j :: JobOf(s, j, id))
    && (forall i, j :: JobOf(s, i, id) && JobOf(s, j, id) ==> i == j)
    && (forall j :: JobOf(s, j, id) ==> JobOk(s, s.jobs[j]))
  }

  ghost predicate Inv(s: State) {
    && (forall id :: id in s.systems ==> SystemOk(s, id))
    && (forall j :: j in s.jobs ==> j < s.nextJob && UserJob(s.jobs[j].jobType))
  }

  // ---- every step keeps the invariant ----

  /** Nothing about `id` changed. */
  predicate Untouched(s: State, s': State, id: SystemId) {
    && id in s.systems && id in s'.systems && s'.systems[id] == s.systems[id]
    && (id in s.claims <==> id in s'.claims)
    && (id in s.events <==> id in s'.events)
    && (id in s.events ==> s.events[id] == s'.events[id])
    && (forall j :: j in s.jobs && s.jobs[j].system == id ==> j in s'.jobs && s'.jobs[j] == s.jobs[j])
    && (forall j :: j in s'.jobs && s'.jobs[j].system == id ==> j in s.jobs && s.jobs[j] == s'.jobs[j])
  }

  lemma Frame(s: State, s': State, id: SystemId)
    requires Untouched(s, s', id) && SystemOk(s, id)
    ensures SystemOk(s', id)
  {
    assert forall j :: JobOf(s, j, id) <==> JobOf(s', j, id);
    if s.systems[id].status == Processing {
      var j :| JobOf(s, j, id);
      assert JobOf(s', j, id);
    }
  }

  /** A step about one system. */
  lemma OneSystem(s: State, s': State, id: SystemId)
    requires Inv(s)
    requires forall other :: other in s'.systems && other != id ==> Untouched(s, s', other)
    requires id in s'.systems ==> SystemOk(s', id)
    requires forall j :: j in s'.jobs ==> j < s'.nextJob && UserJob(s'.jobs[j].jobType)
    ensures Inv(s')
  {
    forall other | other in s'.systems
      ensures SystemOk(s', other)
    {
      if other != id { Frame(s, s', other); }
    }
  }

  /** A system that gets its only job. */
  lemma NewJob(s: State, s': State, id: SystemId)
    requires Inv(s) && id in s.systems && s.systems[id].status != Processing
    requires s'.jobs.Keys == s.jobs.Keys + {s.nextJob} && s'.nextJob == s.nextJob + 1
    requires forall j :: j in s.jobs ==> s'.jobs[j] == s.jobs[j]
    requires s'.jobs[s.nextJob].system == id && UserJob(s'.jobs[s.nextJob].jobType)
    requires s'.systems.Keys == s.systems.Keys && s'.claims == s.claims
    requires forall other :: other in s.systems && other != id ==> Untouched(s, s', other)
    requires s'.systems[id].status == Processing && RowOk(s', id) && JobOk(s', s'.jobs[s.nextJob])
    ensures Inv(s')
  {
    assert SystemOk(s, id);
    assert JobOf(s', s.nextJob, id);
    assert forall j :: JobOf(s', j, id) ==> j == s.nextJob || JobOf(s, j, id);
    assert SystemOk(s', id);
    OneSystem(s, s', id);
  }

  lemma SubmitKeepsInv(s: State, id: SystemId, row: System, jobType: JobType,
                       keyTo: Option<KeyId>, keyFrom: Option<KeyId>)
    requires Inv(s) && id in s.systems && s.systems[id].status != Processing
    requires row.status == s.systems[id].status && row.config == s.systems[id].config
    requires UserJob(jobType) && (SwitchJob(jobType) ==> row.config.Some?)
    ensures Inv(Submit(s, id, row, jobType, keyTo, keyFrom, true))
  {
    assert SystemOk(s, id);
    NewJob(s, Submit(s, id, row, jobType, keyTo, keyFrom, true), id);
  }

  lemma RequestKeepsInv(s: State, step: Step)
    requires Inv(s) && Admissible(s, step)
    requires step.LinkRequest? || step.UnlinkRequest? || step.SwitchPrimaryRequest?
    ensures Inv(Next(s, step))
  {
    var s' := Next(s, step);
    if s' != s {
      var row := s.systems[step.id];
      var job := s'.jobs[s.nextJob];
      var loaded := if step.LinkRequest? then row.(target := Some(step.to)) else row;
      assert s' == Submit(s, step.id, loaded, job.jobType, job.keyTo, job.keyFrom, true);
      SubmitKeepsInv(s, step.id, loaded, job.jobType, job.keyTo, job.keyFrom);
    }
  }

  lemma SentRetryKeepsInv(s: State, id: SystemId, row: System, event: Event)
    requires Inv(s) && RetryFits(s, id, row, event)
    ensures Inv(SentRetry(s, id, row, event))
  {
    var s' := SentRetry(s, id, row, event);
    if id in s.systems {
      assert SystemOk(s, id);
      NewJob(s, s', id);
    } else {
      OneSystem(s, s', id);
    }
  }

  lemma RetryKeepsInv(s: State, id: SystemId, authorized: bool, jobOk: bool)
    requires Inv(s)
    ensures Inv(Retry(s, id, authorized, jobOk).0)
  {
    if Retry(s, id, authorized, jobOk).1.Accepted? {
      assert SystemOk(s, id);
      SentRetryKeepsInv(s, id, s.systems[id], s.events[id]);
    }
  }

  lemma SentCancelKeepsInv(s: State, id: SystemId, previous: Status)
    requires Inv(s) && CancelFits(s, id, previous)
    ensures Inv(SentCancel(s, id, previous))
  {
    var s' := SentCancel(s, id, previous);
    if id in s.systems {
      assert SystemOk(s, id);
      assert forall j :: JobOf(s', j, id) ==> JobOf(s, j, id);
      OneSystem(s, s', id);
    }
  }

  lemma CancelKeepsInv(s: State, id: SystemId, authorized: bool)
    requires Inv(s) && (id in s.systems ==> s.systems[id].status != Processing)
    ensures Inv(Cancel(s, id, authorized).0)
  {
    if Cancel(s, id, authorized).1.Accepted? {
      assert SystemOk(s, id);
      SentCancelKeepsInv(s, id, s.events[id].previous);
    }
  }

  /** What the invariant says about the system of a job. */
  lemma JobHasRow(s: State, j: JobId)
    requires Inv(s) && j in s.jobs && s.jobs[j].system in s.systems
    ensures RowOk(s, s.jobs[j].system) && JobOk(s, s.jobs[j])
  {
    assert SystemOk(s, s.jobs[j].system) && JobOf(s, j, s.jobs[j].system);
  }

  /** The job of a stored system moves on: outcome, attempt and claim may change, nothing else. */
  lemma JobMoves(s: State, s': State, j: JobId)
    requires Inv(s) && j in s.jobs && j in s'.jobs
    requires s'.systems == s.systems && s'.events == s.events && s'.nextJob == s.nextJob
    requires s'.jobs == s.jobs[j := s'.jobs[j]]
    requires s'.jobs[j].system == s.jobs[j].system && s'.jobs[j].jobType == s.jobs[j].jobType
    requires forall other :: other != s.jobs[j].system ==> (other in s.claims <==> other in s'.claims)
    requires s.jobs[j].system in s.systems ==> JobOk(s', s'.jobs[j])
    ensures Inv(s')
  {
    var id := s.jobs[j].system;
    assert JobOf(s, j, id) && JobOf(s', j, id);
    assert forall i :: JobOf(s, i, id) <==> JobOf(s', i, id);
    OneSystem(s, s', id);
  }

  /** The job of a system ends: the system leaves Processing with it. */
  lemma JobEnds(s: State, s': State, j: JobId)
    requires Inv(s) && j in s.jobs && s'.jobs == s.jobs - {j} && s'.nextJob == s.nextJob
    requires s'.systems.Keys == s.systems.Keys
    requires forall other :: other in s.systems && other != s.jobs[j].system ==> Untouched(s, s', other)
    requires s.jobs[j].system in s.systems ==>
      s'.systems[s.jobs[j].system].status != Processing && RowOk(s', s.jobs[j].system)
    ensures Inv(s')
  {
    var id := s.jobs[j].system;
    assert JobOf(s, j, id);
    assert forall i :: JobOf(s', i, id) ==> JobOf(s, i, id) && i != j;
    OneSystem(s, s', id);
  }

  lemma ProgressKeepsInv(s: State, step: Step)
    requires Inv(s) && (step.ConfirmJob? || step.FinishJob? || step.SendClaim? || step.AbortHandler?)
    ensures Inv(Next(s, step))
  {
    var s' := Next(s, step);
    if s' != s {
      var id := s.jobs[step.job].system;
      if id in s.systems {
        assert SystemOk(s, id) && JobOf(s, step.job, id);
      }
      JobMoves(s, s', step.job);
    }
  }

  lemma BeginKeepsInv(s: State, j: JobId)
    requires Inv(s)
    ensures Inv(Begin(s, j))
  {
    var s' := Begin(s, j);
    if s' != s {
      var id := s.jobs[j].system;
      if id in s.systems {
        JobHasRow(s, j);
        JobMoves(s, s', j);
      } else {
        JobEnds(s, s', j);
      }
    }
  }

  lemma NotedErrorIsHarmless(s: State, id: SystemId, message: string)
    ensures var t := NoteError(s, id, message);
      && t == s.(events := t.events) && t.events.Keys == s.events.Keys
      && (forall other :: other in s.events && other != id ==> t.events[other] == s.events[other])
      && (id in s.events ==>
            t.events[id].jobType == s.events[id].jobType && t.events[id].previous == s.events[id].previous)
  {
  }

  /** A failed or canceled job: the error is noted and the system is Failed. */
  lemma TerminateKeepsInv(s: State, j: JobId, message: string)
    requires Inv(s) && j in s.jobs && s.jobs[j].attempt.Some? && !ClaimMoving(s.jobs[j])
    ensures Inv(Terminate(s, j, s.jobs[j].attempt.value.loaded, message))
  {
    var id := s.jobs[j].system;
    var s' := Terminate(s, j, s.jobs[j].attempt.value.loaded, message);
    NotedErrorIsHarmless(s, id, message);
    if id in s.systems {
      assert SystemOk(s, id) && JobOf(s, j, id);
      assert s'.systems[id] == s.systems[id].(status := Failed);
      assert RowOk(s', id);
    }
    forall other | other in s.systems && other != id ensures Untouched(s, s', other) {}
    JobEnds(s, s', j);
  }

  /** A done job: its row is written and its event is deleted. */
  lemma CompleteKeepsInv(s: State, j: JobId, row: System)
    requires Inv(s) && j in s.jobs && s.jobs[j].attempt.Some?
    requires var job := s.jobs[j]; job.system in s.systems ==>
      && row.status != Processing && Agrees(row.status, row.config)
      && (job.system in s.claims <==> row.config.Some?)
    ensures Inv(Complete(s, j, row))
  {
    var id := s.jobs[j].system;
    var s' := Complete(s, j, row);
    if id in s.systems {
      JobHasRow(s, j);
      assert s'.systems[id] == row && id !in s'.events;
    }
    forall other | other in s.systems && other != id ensures Untouched(s, s', other) {}
    JobEnds(s, s', j);
  }

  lemma RetainKeepsInv(s: State, j: JobId)
    requires Inv(s) && j in s.jobs
    ensures Inv(Retain(s, j))
  {
    if s.jobs[j].system in s.systems { JobHasRow(s, j); }
    JobMoves(s, Retain(s, j), j);
  }

  lemma CommitUnlinkKeepsInv(s: State, j: JobId)
    requires Inv(s) && j in s.jobs && s.jobs[j].attempt.Some? && s.jobs[j].outcome == Done
    requires s.jobs[j].jobType == SystemUnlink && s.jobs[j].attempt.value.claimed
    ensures Inv(Complete(s, j, s.jobs[j].attempt.value.loaded.(status := Disconnected, config := None)))
  {
    if s.jobs[j].system in s.systems { JobHasRow(s, j); }
    CompleteKeepsInv(s, j, s.jobs[j].attempt.value.loaded.(status := Disconnected, config := None));
  }

  lemma CommitConnectKeepsInv(s: State, j: JobId, config: ConfigId)
    requires Inv(s) && j in s.jobs && s.jobs[j].attempt.Some? && s.jobs[j].outcome == Done
    requires s.jobs[j].jobType != SystemUnlink && (ClaimJob(s.jobs[j].jobType) ==> s.jobs[j].attempt.value.claimed)
    ensures var row := s.jobs[j].attempt.value.loaded;
      Inv(Complete(s, j, row.(status := Connected, config := Some(config), target := None)))
  {
    if s.jobs[j].system in s.systems { JobHasRow(s, j); }
    var row := s.jobs[j].attempt.value.loaded;
    CompleteKeepsInv(s, j, row.(status := Connected, config := Some(config), target := None));
  }

  lemma CommitDoneKeepsInv(s: State, j: JobId)
    requires Inv(s) && j in s.jobs && s.jobs[j].attempt.Some? && s.jobs[j].outcome == Done
    ensures Inv(CommitUserJob(s, j, s.jobs[j], s.jobs[j].attempt.value))
  {
    var job := s.jobs[j];
    if ClaimJob(job.jobType) && !job.attempt.value.claimed {
    } else if job.jobType == SystemUnlink {
      CommitUnlinkKeepsInv(s, j);
    } else if job.keyTo.None? || job.keyTo.value !in s.keys {
      RetainKeepsInv(s, j);
    } else {
      CommitConnectKeepsInv(s, j, s.keys[job.keyTo.value].config);
    }
  }

  lemma CommitKeepsInv(s: State, j: JobId)
    requires Inv(s) && j in s.jobs && s.jobs[j].attempt.Some?
    ensures Inv(CommitUserJob(s, j, s.jobs[j], s.jobs[j].attempt.value))
  {
    match s.jobs[j].outcome
    case JobFailed(message) => TerminateKeepsInv(s, j, message);
    case JobCanceled(message) => TerminateKeepsInv(s, j, message);
    case Running =>
    case Done => CommitDoneKeepsInv(s, j);
  }

  lemma RetargetKeepsInv(s: State, id: SystemId, keyTo: KeyId)
    requires Inv(s) && id in s.events
    ensures Inv(Next(s, RetargetEvent(id, keyTo)))
  {
    var s' := Next(s, RetargetEvent(id, keyTo));
    if id in s.systems {
      assert SystemOk(s, id);
      assert forall j :: JobOf(s, j, id) <==> JobOf(s', j, id);
      assert SystemOk(s', id);
    }
    OneSystem(s, s', id);
  }

  lemma TablesKeepInv(s: State, step: Step)
    requires Inv(s) && Admissible(s, step)
    requires step.ChangeKeys? || step.RetargetEvent? || step.AddSystem? || step.RemoveSystem?
    ensures Inv(Next(s, step))
  {
    var s' := Next(s, step);
    if s' != s {
      match step
      case ChangeKeys(_, _) => forall id | id in s'.systems ensures SystemOk(s', id) { Frame(s, s', id); }
      case RetargetEvent(id, keyTo) => RetargetKeepsInv(s, id, keyTo);
      case AddSystem(id) => OneSystem(s, s', id);
      case RemoveSystem(id) => OneSystem(s, s', id);
    }
  }

  lemma StepKeepsInv(s: State, step: Step)
    requires Inv(s) && Admissible(s, step)
    ensures Inv(Next(s, step))
  {
    match step
    case LinkRequest(_, _, _, _, _) => RequestKeepsInv(s, step);
    case UnlinkRequest(_, _, _, _) => RequestKeepsInv(s, step);
    case SwitchPrimaryRequest(_, _, _, _, _) => RequestKeepsInv(s, step);
    case RetryRequest(id, authorized, jobOk) => RetryKeepsInv(s, id, authorized, jobOk);
    case CancelRequest(id, authorized) => CancelKeepsInv(s, id, authorized);
    case SendRetry(id, row, event) => SentRetryKeepsInv(s, id, row, event);
    case SendCancel(id, previous) => SentCancelKeepsInv(s, id, previous);
    case DecommissionRequest(_, _, _) =>
    case RotateRequest(_, _) =>
    case LostCommit(_, _, _, _) =>
    case ConfirmJob(_) => ProgressKeepsInv(s, step);
    case FinishJob(_, _) => ProgressKeepsInv(s, step);
    case BeginHandler(j) => BeginKeepsInv(s, j);
    case SendClaim(_) => ProgressKeepsInv(s, step);
    case AbortHandler(_) => ProgressKeepsInv(s, step);
    case CommitHandler(j, _) => if j in s.jobs && s.jobs[j].attempt.Some? { CommitKeepsInv(s, j); }
    case ChangeKeys(_, _) => TablesKeepInv(s, step);
    case RetargetEvent(_, _) => TablesKeepInv(s, step);
    case AddSystem(_) => TablesKeepInv(s, step);
    case RemoveSystem(_) => TablesKeepInv(s, step);
  }

  lemma {:induction false} RunKeepsInv(s: State, steps: seq<Step>)
    requires Inv(s) && AdmissibleRun(s, steps)
    ensures Inv(Run(s, steps))
    decreases |steps|
  {
    if steps != [] {
      StepKeepsInv(s, steps[0]);
      RunKeepsInv(Next(s, steps[0]), steps[1..]);
    }
  }
}
