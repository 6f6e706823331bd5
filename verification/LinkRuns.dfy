/** What the link invariant means for every run, requests followed to the end of their job, and one
  * run per hypothesis that shows what happens without it. */
module LinkRuns {
  import opened Optional
  import opened OrbitalErrors
  import opened Systems
  import opened LinkProtocol
  import opened Handlers

  function JobsOf(s: State, id: SystemId): set<JobId> { set j | j in s.jobs && s.jobs[j].system == id }

  /** A tenant whose systems were all just added. */
  predicate Fresh(s: State) {
    && s.events == map[] && s.jobs == map[] && s.claims == {}
    && forall id :: id in s.systems ==> s.systems[id] == System(Disconnected, None, None)
  }

  lemma FreshIsInv(s: State)
    requires Fresh(s)
    ensures Inv(s)
  {
    forall id | id in s.systems ensures SystemOk(s, id) {
      assert forall j :: !JobOf(s, j, id);
    }
  }

  /** Processing exactly while one job is outstanding, and that job is of the stored event's type. */
  lemma ProcessingIffOneOutstandingJob(s: State, steps: seq<Step>, id: SystemId)
    requires Inv(s) && AdmissibleRun(s, steps) && id in Run(s, steps).systems
    ensures var t := Run(s, steps);
      && (t.systems[id].status == Processing <==> |JobsOf(t, id)| == 1)
      && (t.systems[id].status != Processing <==> JobsOf(t, id) == {})
      && forall j :: j in JobsOf(t, id) ==> id in t.events && t.events[id].jobType == t.jobs[j].jobType
  {
    RunKeepsInv(s, steps);
    var t := Run(s, steps);
    assert SystemOk(t, id);
    assert forall j :: j in JobsOf(t, id) <==> JobOf(t, j, id);
    if t.systems[id].status == Processing {
      var j: JobId :| JobOf(t, j, id);
      assert forall i :: i in JobsOf(t, id) ==> JobOf(t, i, id);
      assert JobsOf(t, id) == {j};
    } else {
      assert JobsOf(t, id) == {};
    }
  }

  /** At every point of every run, also between a handler's registry call and its transaction, the
    * status, the configuration and the registry's key claim agree. */
  lemma StatusAgreesWithConfigAndClaim(s: State, steps: seq<Step>, id: SystemId)
    requires Inv(s) && AdmissibleRun(s, steps) && id in Run(s, steps).systems
    ensures var t := Run(s, steps); var row := t.systems[id];
      && (row.status == Connected ==> row.config.Some? && id in t.claims)
      && (row.status == Disconnected ==> row.config.None? && id !in t.claims)
  {
    RunKeepsInv(s, steps);
    assert SystemOk(Run(s, steps), id);
  }

  /** Cancel restores a status that fits the configuration and the claim, and is never Processing. */
  lemma CancelRestoresALegalStatus(s: State, steps: seq<Step>, id: SystemId)
    requires Inv(s) && AdmissibleRun(s, steps)
    requires var t := Run(s, steps); id in t.systems && t.systems[id].status != Processing && id in t.events
    ensures var t := Run(s, steps); var (u, reply) := Cancel(t, id, true);
      && reply == Accepted
      && u.systems[id].status == t.events[id].previous != Processing
      && u.systems[id].config == t.systems[id].config && u.systems[id].target.None?
      && (u.systems[id].status == Connected ==> u.systems[id].config.Some? && id in u.claims)
      && (u.systems[id].status == Disconnected ==> u.systems[id].config.None? && id !in u.claims)
  {
    RunKeepsInv(s, steps);
    assert SystemOk(Run(s, steps), id);
  }

  // ---- a request and its job, end to end ----

  /** Exactly when a link request is accepted, and what it asks the job to do. */
  lemma LinkAcceptedIff(s: State, id: SystemId, to: ConfigId, authorized: bool, jobOk: bool, stored: bool)
    ensures var (t, reply) := Link(s, id, to, authorized, jobOk, stored);
      && (reply.Accepted? <==>
            && id in s.systems && authorized && jobOk
            && to in s.configs && s.configs[to].primary.Some?
            && s.configs[to].primary.value in s.keys && s.keys[s.configs[to].primary.value].state == Enabled
            && (s.systems[id].status == Connected || s.systems[id].status == Disconnected)
            && (s.systems[id].config.Some? && s.systems[id].config.value != to ==>
                  s.systems[id].config.value in s.configs))
      && (reply.Refused? ==> t == s)
      && (reply.Accepted? ==>
            var was := s.systems[id].config;
            var switches := was.Some? && was.value != to && s.configs[was.value].primary.Some?;
            && s.nextJob in t.jobs && t.jobs[s.nextJob].system == id
            && t.jobs[s.nextJob].jobType == (if switches then SystemSwitch else SystemLink)
            && t.jobs[s.nextJob].keyTo == s.configs[to].primary
            && t.jobs[s.nextJob].keyFrom == (if switches then s.configs[was.value].primary else None)
            && t.systems == s.systems[id := System(Processing, was, Some(to))])
  {
  }

  /** Exactly when an unlink request is accepted, from whatever status but Processing. */
  lemma UnlinkAcceptedIff(s: State, id: SystemId, decommission: bool, authorized: bool, jobOk: bool, stored: bool)
    ensures var (t, reply) := Unlink(s, id, decommission, authorized, jobOk, stored);
      && (reply.Accepted? <==>
            && id in s.systems && authorized && jobOk && s.systems[id].status != Processing
            && s.systems[id].config.Some? && s.systems[id].config.value in s.configs
            && s.configs[s.systems[id].config.value].primary.Some?)
      && (reply.Refused? ==> t == s)
      && (reply.Accepted? ==>
            && s.nextJob in t.jobs && t.jobs[s.nextJob].system == id && t.jobs[s.nextJob].keyTo == None
            && t.jobs[s.nextJob].jobType == (if decommission then SystemDecommission else SystemUnlink)
            && t.jobs[s.nextJob].keyFrom == s.configs[s.systems[id].config.value].primary
            && t.systems == s.systems[id := s.systems[id].(status := Processing)]
            && (decommission ==> t.events == s.events))
  {
  }

  /** An accepted link and the handling of its successful job. */
  function LinkedAtOnce(s: State, id: SystemId, to: ConfigId): State
    requires Link(s, id, to, true, true, true).1.Accepted?
  {
    var s1 := Link(s, id, to, true, true, true).0;
    Run(s1, DoneAtOnce(s.nextJob, s1.jobs[s.nextJob].jobType))
  }

  /** An accepted link or switch whose job is done ends Connected, with the claim active, no target and
    * no event; its configuration is that of the requested configuration's primary key, so it is the
    * requested one exactly when that key belongs to it. */
  lemma LinkEndsConnectedToItsTarget(s: State, id: SystemId, to: ConfigId)
    requires Inv(s) && Link(s, id, to, true, true, true).1.Accepted?
    ensures var owner, t := s.keys[s.configs[to].primary.value].config, LinkedAtOnce(s, id, to);
      && t.systems == s.systems[id := System(Connected, Some(owner), None)]
      && (t.systems[id].config == Some(to) <==> owner == to)
      && t.claims == s.claims + {id} && id !in t.events && t.jobs == s.jobs - {s.nextJob}
  {
    var job := Link(s, id, to, true, true, true).0.jobs[s.nextJob];
    var aimed := s.systems[id].(target := Some(to));
    assert Link(s, id, to, true, true, true).0 == Submit(s, id, aimed, job.jobType, job.keyTo, job.keyFrom, true);
    assert SystemOk(s, id);
    SubmittedEndsConnected(s, id, aimed, job.jobType, job.keyTo.value, job.keyFrom);
  }

  lemma SubmittedEndsConnected(s: State, id: SystemId, row: System, jobType: JobType,
                               keyTo: KeyId, keyFrom: Option<KeyId>)
    requires Inv(s) && id in s.systems && keyTo in s.keys
    requires jobType == SystemLink || (SwitchJob(jobType) && id in s.claims)
    ensures var t := Run(Submit(s, id, row, jobType, Some(keyTo), keyFrom, true), DoneAtOnce(s.nextJob, jobType));
      && t.systems == s.systems[id := System(Connected, Some(s.keys[keyTo].config), None)]
      && t.claims == s.claims + {id} && id !in t.events && t.jobs == s.jobs - {s.nextJob}
  {
    var s1 := Submit(s, id, row, jobType, Some(keyTo), keyFrom, true);
    DoneRunUnfolds(s1, s.nextJob);
    NewJobIsLast(s, s1, s1.jobs[s.nextJob]);
    assert SwitchJob(jobType) ==> s.claims + {id} == s.claims;
  }

  lemma NewJobIsLast(s: State, t: State, job: Job)
    requires Inv(s) && t.jobs == s.jobs[s.nextJob := job]
    ensures t.jobs - {s.nextJob} == s.jobs == s.jobs - {s.nextJob}
  {
    assert s.nextJob !in s.jobs;
  }

  /** An accepted unlink whose job is done ends Disconnected, claim inactive; the target stays. */
  lemma UnlinkEndsDisconnected(s: State, id: SystemId)
    requires Inv(s) && Unlink(s, id, false, true, true, true).1.Accepted?
    ensures var j := s.nextJob;
      var t := Run(Unlink(s, id, false, true, true, true).0, DoneAtOnce(j, SystemUnlink));
      && t.systems == s.systems[id := System(Disconnected, None, s.systems[id].target)]
      && t.claims == s.claims - {id} && id !in t.events && t.jobs == s.jobs - {j}
  {
    var j := s.nextJob;
    var s1 := Unlink(s, id, false, true, true, true).0;
    var primary := s.configs[s.systems[id].config.value].primary;
    assert s1 == Submit(s, id, s.systems[id], SystemUnlink, None, primary, true);
    DoneRunUnfolds(s1, j);
    NewJobIsLast(s, s1, s1.jobs[j]);
  }

  /** The steps of a job that is done and whose handler succeeds at once. */
  function DoneAtOnce(j: JobId, jobType: JobType): seq<Step> { [FinishJob(j, Done)] + DoneSteps(j, jobType, Ok, true) }

  lemma DoneRunUnfolds(s: State, j: JobId)
    requires j in s.jobs && s.jobs[j].outcome == Running && s.jobs[j].attempt.None? && UserJob(s.jobs[j].jobType)
    requires s.jobs[j].system in s.systems && KeyKnown(s, s.jobs[j])
    ensures var job := s.jobs[j];
      var claimed := if ClaimJob(job.jobType) then SetClaim(s, job.system, job.jobType == SystemLink) else s;
      Run(s, DoneAtOnce(j, job.jobType)) == Complete(claimed, j, DoneRow(s, job))
  {
    var steps := DoneAtOnce(j, s.jobs[j].jobType);
    var done := Next(s, FinishJob(j, Done));
    assert steps[1..] == DoneSteps(j, s.jobs[j].jobType, Ok, true);
    DoneHandlerIsItsSteps(done, j, Ok, true);
    DoneHandlerCompletes(s, j);
  }

  lemma DoneHandlerCompletes(s: State, j: JobId)
    requires j in s.jobs && s.jobs[j].outcome == Running && s.jobs[j].attempt.None? && UserJob(s.jobs[j].jobType)
    requires s.jobs[j].system in s.systems && KeyKnown(s, s.jobs[j])
    ensures var job := s.jobs[j];
      var claimed := if ClaimJob(job.jobType) then SetClaim(s, job.system, job.jobType == SystemLink) else s;
      DoneHandled(Next(s, FinishJob(j, Done)), j, Ok, true).0 == Complete(claimed, j, DoneRow(s, job))
  {
    var done, job := Next(s, FinishJob(j, Done)), s.jobs[j];
    assert done == s.(jobs := s.jobs[j := job.(outcome := Done)]);
    assert done.jobs - {j} == s.jobs - {j} && DoneRow(done, done.jobs[j]) == DoneRow(s, job);
  }

  // ---- whole handler calls keep the invariant ----

  predicate HandlerStep(step: Step) {
    step.BeginHandler? || step.SendClaim? || step.AbortHandler? || step.CommitHandler?
  }

  lemma {:induction false} HandlerStepsKeepInv(s: State, steps: seq<Step>)
    requires Inv(s) && forall i :: 0 <= i < |steps| ==> HandlerStep(steps[i])
    ensures Inv(Run(s, steps))
    decreases |steps|
  {
    if steps != [] {
      assert HandlerStep(steps[0]);
      StepKeepsInv(s, steps[0]);
      HandlerStepsKeepInv(Next(s, steps[0]), steps[1..]);
    }
  }

  /** One call of a done handler, however it ends. */
  lemma DoneHandlerKeepsInv(s: State, j: JobId, registry: Registry, txOk: bool)
    requires Inv(s) && Handleable(s, j)
    ensures Inv(DoneHandled(s, j, registry, txOk).0)
  {
    DoneHandlerIsItsSteps(s, j, registry, txOk);
    HandlerStepsKeepInv(s, DoneSteps(j, s.jobs[j].jobType, registry, txOk));
  }

  /** A job that failed or was canceled, and has not been handled yet. */
  ghost predicate NotDone(s: State, j: JobId) {
    && j in s.jobs && s.jobs[j].attempt.None? && UserJob(s.jobs[j].jobType)
    && (s.jobs[j].outcome.JobFailed? || s.jobs[j].outcome.JobCanceled?)
  }

  /** One call of its handler, whose transaction commits. */
  function NotDoneHandled(s: State, j: JobId): State
    requires j in s.jobs && (s.jobs[j].outcome.JobFailed? || s.jobs[j].outcome.JobCanceled?)
  {
    if s.jobs[j].system !in s.systems then Close(s, j)
    else Terminate(s, j, s.systems[s.jobs[j].system], s.jobs[j].outcome.message)
  }

  lemma NotDoneHandlerIsItsSteps(s: State, j: JobId)
    requires NotDone(s, j)
    ensures if s.jobs[j].system in s.systems then
        var begun := Begin(s, j);
        && j in begun.jobs && begun.jobs[j].attempt.Some?
        && CommitUserJob(begun, j, begun.jobs[j], begun.jobs[j].attempt.value) == NotDoneHandled(s, j)
      else Begin(s, j) == NotDoneHandled(s, j)
  {
    if s.jobs[j].system in s.systems { assert Begin(s, j).jobs - {j} == s.jobs - {j}; }
  }

  lemma NotDoneHandlerKeepsInv(s: State, j: JobId)
    requires Inv(s) && NotDone(s, j)
    ensures Inv(NotDoneHandled(s, j))
  {
    BeginKeepsInv(s, j);
    NotDoneHandlerIsItsSteps(s, j);
    if s.jobs[j].system in s.systems { CommitKeepsInv(Begin(s, j), j); }
  }

  /** The system waits for exactly this job. */
  ghost predicate WaitsFor(s: State, id: SystemId, j: JobId) {
    id in s.systems && s.systems[id].status == Processing && JobsOf(s, id) == {j}
  }

  /** The system waits for nothing, and its status, configuration and claim agree. */
  ghost predicate Settled(s: State, id: SystemId) {
    && id in s.systems && JobsOf(s, id) == {} && Agrees(s.systems[id].status, s.systems[id].config)
    && (id in s.claims <==> s.systems[id].config.Some?)
  }

  lemma ProcessingWaits(s: State, id: SystemId, j: JobId)
    requires Inv(s) && id in s.systems && s.systems[id].status == Processing && JobOf(s, j, id)
    ensures WaitsFor(s, id, j)
  {
    assert SystemOk(s, id);
    assert forall i :: i in JobsOf(s, id) ==> JobOf(s, i, id);
  }

  lemma NotProcessingIsSettled(s: State, id: SystemId)
    requires Inv(s) && id in s.systems && s.systems[id].status != Processing
    ensures Settled(s, id)
  {
    assert SystemOk(s, id);
    assert forall j :: j in JobsOf(s, id) ==> JobOf(s, j, id);
  }

  /** An accepted link, unlink or retry leaves its system waiting for exactly the new job. */
  lemma AcceptedRequestWaits(s: State, step: Step)
    requires Inv(s) && CreatesJob(step) && Admissible(s, step) && Submits(s, step)
    ensures Inv(Next(s, step)) && WaitsFor(Next(s, step), step.id, s.nextJob)
  {
    StepKeepsInv(s, step);
    AcceptedRequestIsProcessing(s, step);
    ProcessingWaits(Next(s, step), step.id, s.nextJob);
  }

  lemma AcceptedRequestIsProcessing(s: State, step: Step)
    requires Inv(s) && CreatesJob(step) && Submits(s, step)
    ensures var t := Next(s, step);
      step.id in t.systems && t.systems[step.id].status == Processing && JobOf(t, s.nextJob, step.id)
  {
    assert SystemOk(s, step.id);
  }

  /** A call of a done handler keeps the invariant, and one that succeeds settles its system. */
  lemma DoneHandlerSettles(s: State, j: JobId, registry: Registry, txOk: bool)
    requires Handleable(s, j)
    ensures var (t, ok) := DoneHandled(s, j, registry, txOk);
      Inv(s) ==> Inv(t) && (ok ==> Settled(t, s.jobs[j].system))
  {
    if Inv(s) {
      DoneHandlerKeepsInv(s, j, registry, txOk);
      var (t, ok) := DoneHandled(s, j, registry, txOk);
      if ok { NotProcessingIsSettled(t, s.jobs[j].system); }
    }
  }

  // ---- what each hypothesis is for ----

  /** A job ends with the given outcome and its handler succeeds at the first attempt. */
  function Settle(s: State, j: JobId, outcome: Outcome): State {
    Run(s, [FinishJob(j, outcome), BeginHandler(j), CommitHandler(j, true)])
  }

  lemma RunThree(s: State, a: Step, b: Step, c: Step)
    ensures Run(s, [a, b, c]) == Next(Next(Next(s, a), b), c)
  {
    assert [a, b] + [c] == [a, b, c];
    RunTriple(s, a, b, c);
  }

  lemma SettleUnfolds(s: State, j: JobId, outcome: Outcome)
    requires j in s.jobs && s.jobs[j].outcome == Running && s.jobs[j].attempt.None?
    requires s.jobs[j].system in s.systems && outcome != Running
    ensures var ready := s.jobs[j].(outcome := outcome, attempt := Some(Attempt(s.systems[s.jobs[j].system], false)));
      Settle(s, j, outcome) == Commit(s.(jobs := s.jobs[j := ready]), j, true)
  {
    RunThree(s, FinishJob(j, outcome), BeginHandler(j), CommitHandler(j, true));
    var s1 := Next(s, FinishJob(j, outcome));
    assert s.jobs[j := s1.jobs[j]] == s1.jobs;
    var ready := s.jobs[j].(outcome := outcome, attempt := Some(Attempt(s.systems[s.jobs[j].system], false)));
    assert Next(s1, BeginHandler(j)) == s.(jobs := s.jobs[j := ready]);
  }

  /** A failed or canceled user job: the system is Failed, the job is gone, and the event keeps all but
    * its error, which is now the job's. */
  lemma SettledFailure(s: State, j: JobId, outcome: Outcome)
    requires j in s.jobs && s.jobs[j].outcome == Running && s.jobs[j].attempt.None?
    requires s.jobs[j].system in s.systems && UserJob(s.jobs[j].jobType)
    requires outcome.JobFailed? || outcome.JobCanceled?
    ensures var t := Settle(s, j, outcome); var id := s.jobs[j].system;
      && t.systems == s.systems[id := s.systems[id].(status := Failed)]
      && t.jobs == s.jobs - {j} && t.nextJob == s.nextJob
      && t.configs == s.configs && t.keys == s.keys && t.claims == s.claims
      && t.events.Keys == s.events.Keys
      && (id in s.events ==>
            var e, parsed := s.events[id], Parse(outcome.message);
            t.events[id] == e.(errorCode := parsed.code,
                               errorMessage := if parsed.message == "" then e.errorMessage else parsed.message))
      && (forall other :: other in s.events && other != id ==> t.events[other] == s.events[other])
  {
    SettleUnfolds(s, j, outcome);
  }

  // ---- what follows a lost commit ----

  /** A job of a system that is not Processing is outside the protocol. */
  lemma StrayJobBreaksInv(t: State, j: JobId)
    requires j in t.jobs && t.jobs[j].system in t.systems && t.systems[t.jobs[j].system].status != Processing
    ensures !Inv(t)
  {
    assert JobOf(t, j, t.jobs[j].system);
    assert !SystemOk(t, t.jobs[j].system);
  }

  /** Such a job is canceled at its confirmation, and its handler then fails a system that was fine. */
  lemma LeftoverJobFailsItsSystem(s: State, j: JobId)
    requires j in s.jobs && s.jobs[j].outcome == Running && s.jobs[j].attempt.None? && UserJob(s.jobs[j].jobType)
    requires s.jobs[j].system in s.systems && s.systems[s.jobs[j].system].status != Processing
    ensures var id, t := s.jobs[j].system, Run(s, [ConfirmJob(j), BeginHandler(j), CommitHandler(j, true)]);
      t.systems == s.systems[id := s.systems[id].(status := Failed)] && t.jobs == s.jobs - {j}
  {
    var outcome := Confirmed(s, s.jobs[j]);
    SettledFailure(s, j, outcome);
    RunThree(s, ConfirmJob(j), BeginHandler(j), CommitHandler(j, true));
    RunThree(s, FinishJob(j, outcome), BeginHandler(j), CommitHandler(j, true));
  }

  /** The requests of the protocol that create a job. */
  predicate CreatesJob(step: Step) {
    step.LinkRequest? || step.UnlinkRequest? || step.SwitchPrimaryRequest? || step.RetryRequest?
  }

  /** The guards of these requests, over the tables and the arguments. */
  predicate Submits(s: State, step: Step)
    requires CreatesJob(step)
  {
    && step.id in s.systems && step.jobOk
    && var row := s.systems[step.id];
       match step
       case LinkRequest(_, to, authorized, _, _) =>
         && authorized && to in s.configs && CanConnect(s, s.configs[to]).Accepted?
         && (row.status == Connected || row.status == Disconnected)
         && (row.config.Some? && row.config.value != to ==> row.config.value in s.configs)
       case UnlinkRequest(_, authorized, _, _) =>
         && authorized && row.status != Processing && row.config.Some? && row.config.value in s.configs
         && s.configs[row.config.value].primary.Some?
       case RetryRequest(_, authorized, _) => authorized && row.status == Failed && step.id in s.events
       case _ => row.status != Processing
  }

  /** A request whose commit fails changes nothing, or is a lost commit: its job stays, its rows do not. */
  lemma UncommittedRequest(s: State, step: Step)
    requires CreatesJob(step)
    ensures var t := RolledBack(s, Next(s, step));
      if Submits(s, step) then
        && t.nextJob == s.nextJob + 1 && s.nextJob in t.jobs
        && var job := t.jobs[s.nextJob];
           t == Next(s, LostCommit(step.id, job.jobType, job.keyTo, job.keyFrom))
      else t == s
  {
  }

  /** A failing commit keeps the protocol's invariant exactly when the request was going to be refused. */
  lemma LostCommitKeepsInvIff(s: State, step: Step)
    requires Inv(s) && CreatesJob(step)
    ensures Inv(RolledBack(s, Next(s, step))) <==> !Submits(s, step)
  {
    UncommittedRequest(s, step);
    if Submits(s, step) { StrayJobBreaksInv(RolledBack(s, Next(s, step)), s.nextJob); }
  }

  /** After it the system is not Processing and has a job, which will mark it Failed. */
  lemma LostCommitFailsItsSystem(s: State, step: Step)
    requires Inv(s) && CreatesJob(step) && Submits(s, step)
    ensures var t, j := RolledBack(s, Next(s, step)), s.nextJob;
      && t.systems == s.systems && j in JobsOf(t, step.id) && t.systems[step.id].status != Processing
      && Run(t, [ConfirmJob(j), BeginHandler(j), CommitHandler(j, true)]).systems
         == s.systems[step.id := s.systems[step.id].(status := Failed)]
  {
    UncommittedRequest(s, step);
    assert SystemOk(s, step.id);
    LeftoverJobFailsItsSystem(RolledBack(s, Next(s, step)), s.nextJob);
  }

  // ---- a retry and a cancel between their load and their write ----

  /** The job of a retry fits the protocol exactly where it may be sent. */
  lemma RetryKeepsInvIff(s: State, id: SystemId, row: System, event: Event)
    requires Inv(s)
    ensures Inv(SentRetry(s, id, row, event)) <==> RetryFits(s, id, row, event)
  {
    var t, j := SentRetry(s, id, row, event), s.nextJob;
    if RetryFits(s, id, row, event) {
      SentRetryKeepsInv(s, id, row, event);
    } else if UserJob(event.jobType) {
      assert SystemOk(s, id);
      assert JobOf(t, j, id);
      if s.systems[id].status == Processing {
        var i :| JobOf(s, i, id);
        assert JobOf(t, i, id) && i != j;
        assert !SystemOk(t, id);
      } else {
        assert SystemOk(t, id) ==> JobOk(t, t.jobs[j]);
      }
    } else {
      assert j in t.jobs && !UserJob(t.jobs[j].jobType);
    }
  }

  /** A cancel fits the protocol exactly where it may be written; the status read is never Processing. */
  lemma CancelKeepsInvIff(s: State, id: SystemId, previous: Status)
    requires Inv(s) && previous != Processing
    ensures Inv(SentCancel(s, id, previous)) <==> CancelFits(s, id, previous)
  {
    var t := SentCancel(s, id, previous);
    if CancelFits(s, id, previous) {
      SentCancelKeepsInv(s, id, previous);
    } else {
      assert SystemOk(s, id);
      if s.systems[id].status == Processing {
        var j :| JobOf(s, j, id);
        StrayJobBreaksInv(t, j);
      } else {
        assert !SystemOk(t, id);
      }
    }
  }

  /** Two retries loaded the system Failed, and the second one is written when the first one's job is done.
    * That job has removed the event, so the system is Processing without one, and if the second job fails
    * it can be neither retried nor canceled. There is never more than one job of the system. */
  lemma LateRetryHasNoEvent(s: State, id: SystemId, message: string)
    requires Inv(s) && id in s.systems && s.systems[id].status == Failed && id in s.events
    requires s.events[id].jobType == SystemUnlink || (s.events[id].keyTo.Some? && s.events[id].keyTo.value in s.keys)
    ensures var done, j := RetriedAndDone(s, id), s.nextJob; var t := SentRetry(done, id, s.systems[id], s.events[id]);
      && Inv(done) && JobsOf(done, id) == {} && !Inv(t) && JobsOf(t, id) == {j + 1}
      && Unrecoverable(Settle(t, j + 1, JobFailed(message)), id)
  {
    assert SystemOk(s, id);
    RetriedJobIsDone(s, id);
    RetryWithoutEvent(RetriedAndDone(s, id), id, s.systems[id], s.events[id], message);
  }

  /** A retry and the handling of its successful job. */
  function RetriedAndDone(s: State, id: SystemId): State
    requires id in s.systems && id in s.events
  {
    Run(SentRetry(s, id, s.systems[id], s.events[id]), DoneAtOnce(s.nextJob, s.events[id].jobType))
  }

  /** Failed, and neither retry nor cancel is accepted. */
  ghost predicate Unrecoverable(s: State, id: SystemId) {
    && id in s.systems && s.systems[id].status == Failed
    && (forall authorized, jobOk :: Retry(s, id, authorized, jobOk).1.Refused?)
    && (forall authorized :: Cancel(s, id, authorized).1.Refused?)
  }

  lemma RetriedJobIsDone(s: State, id: SystemId)
    requires Inv(s) && id in s.systems && s.systems[id].status == Failed && id in s.events
    requires s.events[id].jobType == SystemUnlink || (s.events[id].keyTo.Some? && s.events[id].keyTo.value in s.keys)
    ensures var done := RetriedAndDone(s, id);
      && Inv(done) && id in done.systems && id !in done.events && JobsOf(done, id) == {}
      && done.nextJob == s.nextJob + 1
  {
    var s1, j, jobType := SentRetry(s, id, s.systems[id], s.events[id]), s.nextJob, s.events[id].jobType;
    assert SystemOk(s, id);
    FirstRetry(s, id);
    DoneRunUnfolds(s1, j);
    var finished := Next(s1, FinishJob(j, Done));
    StepKeepsInv(s1, FinishJob(j, Done));
    DoneHandlerIsItsSteps(finished, j, Ok, true);
    DoneHandlerKeepsInv(finished, j, Ok, true);
    assert DoneAtOnce(j, jobType)[1..] == DoneSteps(j, jobType, Ok, true);
    var done := Run(s1, DoneAtOnce(j, jobType));
    assert done.jobs == s1.jobs - {j};
    assert forall i :: i in JobsOf(done, id) ==> i in JobsOf(s1, id);
  }

  lemma RetryWithoutEvent(s: State, id: SystemId, row: System, event: Event, message: string)
    requires Inv(s) && id in s.systems && id !in s.events && JobsOf(s, id) == {} && UserJob(event.jobType)
    ensures var t, j := SentRetry(s, id, row, event), s.nextJob;
      !Inv(t) && JobsOf(t, id) == {j} && Unrecoverable(Settle(t, j, JobFailed(message)), id)
  {
    var t, j := SentRetry(s, id, row, event), s.nextJob;
    RetryKeepsInvIff(s, id, row, event);
    SentRetryAddsItsJob(s, id, row, event);
    SettledFailure(t, j, JobFailed(message));
  }

  lemma FirstRetry(s: State, id: SystemId)
    requires Inv(s) && id in s.systems && s.systems[id].status == Failed && id in s.events
    ensures var t := SentRetry(s, id, s.systems[id], s.events[id]);
      && Inv(t) && t.systems[id].status == Processing && t.nextJob == s.nextJob + 1
      && JobsOf(t, id) == {s.nextJob}
  {
    assert SystemOk(s, id);
    SentRetryKeepsInv(s, id, s.systems[id], s.events[id]);
    SentRetryAddsItsJob(s, id, s.systems[id], s.events[id]);
    assert forall j :: j in JobsOf(s, id) ==> JobOf(s, j, id);
  }

  lemma SentRetryAddsItsJob(s: State, id: SystemId, row: System, event: Event)
    requires s.nextJob !in s.jobs
    ensures JobsOf(SentRetry(s, id, row, event), id) == JobsOf(s, id) + {s.nextJob}
  {
  }

  // ---- what follows a failure ----

  /** A request whose job fails: the row as it was loaded, but Failed, and an event that remembers the request. */
  lemma FailedRequest(s: State, id: SystemId, row: System, jobType: JobType,
                      keyTo: Option<KeyId>, keyFrom: Option<KeyId>, message: string)
    requires Inv(s) && id in s.systems && UserJob(jobType)
    ensures var f := Settle(Submit(s, id, row, jobType, keyTo, keyFrom, true), s.nextJob, JobFailed(message));
      && f.systems == s.systems[id := row.(status := Failed)] && f.jobs == s.jobs && f.claims == s.claims
      && f.configs == s.configs && f.keys == s.keys && f.nextJob == s.nextJob + 1
      && id in f.events && f.events[id].jobType == jobType && f.events[id].previous == row.status
      && f.events[id].keyTo == keyTo && f.events[id].keyFrom == keyFrom && f.events[id].errorCode == Parse(message).code
  {
    var s1 := Submit(s, id, row, jobType, keyTo, keyFrom, true);
    SettledFailure(s1, s.nextJob, JobFailed(message));
    NewJobIsLast(s, s1, s1.jobs[s.nextJob]);
  }

  /** Cancel undoes a failed link: the system is as before the request, but for a cleared target. */
  lemma CancelUndoesAFailedLink(s: State, id: SystemId, to: ConfigId, message: string)
    requires Inv(s) && Link(s, id, to, true, true, true).1.Accepted?
    ensures var f := Settle(Link(s, id, to, true, true, true).0, s.nextJob, JobFailed(message));
      var (u, reply) := Cancel(f, id, true);
      && reply == Accepted && u.systems == s.systems[id := s.systems[id].(target := None)]
      && u.jobs == s.jobs && u.claims == s.claims
  {
    var job := Link(s, id, to, true, true, true).0.jobs[s.nextJob];
    var aimed := s.systems[id].(target := Some(to));
    assert Link(s, id, to, true, true, true).0 == Submit(s, id, aimed, job.jobType, job.keyTo, job.keyFrom, true);
    FailedRequest(s, id, aimed, job.jobType, job.keyTo, job.keyFrom, message);
  }

  /** Retry repeats a failed link: when its job is done the system is where the link would have brought it. */
  lemma RetriedLinkEndsConnectedToItsTarget(s: State, id: SystemId, to: ConfigId, message: string)
    requires Inv(s) && Link(s, id, to, true, true, true).1.Accepted?
    ensures var f := Settle(Link(s, id, to, true, true, true).0, s.nextJob, JobFailed(message));
      var owner := s.keys[s.configs[to].primary.value].config;
      var (r, reply) := Retry(f, id, true, true); var j := s.nextJob + 1;
      && reply == Accepted && j in r.jobs
      && var t := Run(r, DoneAtOnce(j, r.jobs[j].jobType));
         && t.systems == s.systems[id := System(Connected, Some(owner), None)]
         && t.claims == s.claims + {id} && id !in t.events && t.jobs == s.jobs
  {
    var job := Link(s, id, to, true, true, true).0.jobs[s.nextJob];
    var aimed := s.systems[id].(target := Some(to));
    assert Link(s, id, to, true, true, true).0 == Submit(s, id, aimed, job.jobType, job.keyTo, job.keyFrom, true);
    assert SystemOk(s, id);
    RetriedRequestEndsConnected(s, id, aimed, job.jobType, job.keyTo.value, job.keyFrom, message);
  }

  lemma RetriedRequestEndsConnected(s: State, id: SystemId, row: System, jobType: JobType, keyTo: KeyId,
                                    keyFrom: Option<KeyId>, message: string)
    requires Inv(s) && id in s.systems && keyTo in s.keys
    requires jobType == SystemLink || (SwitchJob(jobType) && id in s.claims)
    ensures var f := Settle(Submit(s, id, row, jobType, Some(keyTo), keyFrom, true), s.nextJob, JobFailed(message));
      var (r, reply) := Retry(f, id, true, true); var j := s.nextJob + 1;
      && reply == Accepted && j in r.jobs
      && var t := Run(r, DoneAtOnce(j, r.jobs[j].jobType));
         && t.systems == s.systems[id := System(Connected, Some(s.keys[keyTo].config), None)]
         && t.claims == s.claims + {id} && id !in t.events && t.jobs == s.jobs
  {
    FailedRequest(s, id, row, jobType, Some(keyTo), keyFrom, message);
    var f := Settle(Submit(s, id, row, jobType, Some(keyTo), keyFrom, true), s.nextJob, JobFailed(message));
    RetriedEndsConnected(s, f, id, keyTo);
  }

  lemma RetriedEndsConnected(s: State, f: State, id: SystemId, keyTo: KeyId)
    requires Inv(s) && f.jobs == s.jobs && f.nextJob == s.nextJob + 1 && f.keys == s.keys && f.claims == s.claims
    requires id in f.systems && f.systems[id].status == Failed && id in f.events && keyTo in f.keys
    requires f.events[id].keyTo == Some(keyTo)
    requires f.events[id].jobType == SystemLink || (SwitchJob(f.events[id].jobType) && id in s.claims)
    ensures var (r, reply) := Retry(f, id, true, true); var j := s.nextJob + 1;
      && reply == Accepted && j in r.jobs
      && var t := Run(r, DoneAtOnce(j, r.jobs[j].jobType));
         && t.systems == f.systems[id := System(Connected, Some(s.keys[keyTo].config), None)]
         && t.claims == s.claims + {id} && id !in t.events && t.jobs == s.jobs
  {
    var r := Retry(f, id, true, true).0;
    DoneRunUnfolds(r, s.nextJob + 1);
    assert s.nextJob + 1 !in s.jobs;
    assert r.jobs - {s.nextJob + 1} == s.jobs;
    assert SwitchJob(f.events[id].jobType) ==> s.claims + {id} == s.claims;
  }

  /** No request about this system is accepted. */
  ghost predicate Stranded(s: State, id: SystemId) {
    && (forall to, authorized, jobOk, stored :: Link(s, id, to, authorized, jobOk, stored).1.Refused?)
    && (forall authorized, jobOk, stored :: Unlink(s, id, false, authorized, jobOk, stored).1.Refused?)
    && (forall authorized, jobOk :: Retry(s, id, authorized, jobOk).1.Refused?)
    && (forall authorized :: Cancel(s, id, authorized).1.Refused?)
  }

  lemma NoEventStrands(s: State, id: SystemId)
    requires id in s.systems && id !in s.events
    requires s.systems[id].status == Processing || (s.systems[id].status == Failed && s.systems[id].config.None?)
    ensures Stranded(s, id)
  {
  }

  /** Without the event-row write: a failed link leaves the system Failed, and neither link nor unlink
    * nor retry nor cancel is possible any more. */
  lemma LostEventStrandsTheSystem(s: State, id: SystemId, to: ConfigId, message: string)
    requires id in s.systems && s.systems[id].status == Disconnected && s.systems[id].config.None?
    requires id !in s.events && to in s.configs && CanConnect(s, s.configs[to]).Accepted?
    ensures var t := Settle(Next(s, LinkRequest(id, to, true, true, false)), s.nextJob, JobFailed(message));
      id in t.systems && t.systems[id].status == Failed && Stranded(t, id)
  {
    var s1 := Next(s, LinkRequest(id, to, true, true, false));
    assert s1 == Submit(s, id, s.systems[id].(target := Some(to)), SystemLink, s.configs[to].primary, None, false);
    SettledFailure(s1, s.nextJob, JobFailed(message));
    NoEventStrands(Settle(s1, s.nextJob, JobFailed(message)), id);
  }

  /** The requests that write an event row. */
  predicate WritesEvent(step: Step) { step.LinkRequest? || step.UnlinkRequest? || step.SwitchPrimaryRequest? }

  /** The type of the job that such a request creates. */
  function RequestedType(s: State, step: Step): JobType
    requires WritesEvent(step) && Submits(s, step)
  {
    match step
    case LinkRequest(id, to, _, _, _) =>
      var config := s.systems[id].config;
      if config.None? || config.value == to || s.configs[config.value].primary.None? then SystemLink else SystemSwitch
    case UnlinkRequest(_, _, _, _) => SystemUnlink
    case _ => SystemSwitchNewPK
  }

  /** A request whose event write is lost keeps the invariant exactly when it is refused, or an event of
    * the same type is there already. */
  lemma LostEventKeepsInvIff(s: State, step: Step)
    requires Inv(s) && WritesEvent(step) && !step.stored
    ensures Inv(Next(s, step)) <==>
      !Submits(s, step) || (step.id in s.events && s.events[step.id].jobType == RequestedType(s, step))
  {
    var t, id, j := Next(s, step), step.id, s.nextJob;
    if Submits(s, step) {
      assert SystemOk(s, id);
      RequestWithoutEvent(s, step);
      if id in s.events && s.events[id].jobType == RequestedType(s, step) {
        NewJob(s, t, id);
      } else {
        assert JobOf(t, j, id) && !JobOk(t, t.jobs[j]);
        assert !SystemOk(t, id);
      }
    } else {
      assert t == s;
    }
  }

  lemma RequestWithoutEvent(s: State, step: Step)
    requires WritesEvent(step) && !step.stored && Submits(s, step)
    ensures var t, id, j := Next(s, step), step.id, s.nextJob;
      && t.systems.Keys == s.systems.Keys && t.claims == s.claims && t.events == s.events && t.nextJob == j + 1
      && t.jobs == s.jobs[j := t.jobs[j]]
      && t.systems == s.systems[id := s.systems[id].(status := Processing, target := t.systems[id].target)]
      && t.jobs[j].jobType == RequestedType(s, step) && t.jobs[j].system == id
      && t.jobs[j].outcome == Running && t.jobs[j].attempt.None?
  {
  }

  /** Without the guard on CANCEL: a system that was set back while its job is still running is
    * Disconnected with an outstanding job; that job is then canceled and marks the system Failed. */
  lemma CancelWhileProcessingLeavesAJobBehind(s: State, id: SystemId, to: ConfigId)
    requires id in s.systems && s.systems[id].status == Disconnected && s.systems[id].config.None?
    requires to in s.configs && CanConnect(s, s.configs[to]).Accepted?
    ensures var j := s.nextJob;
      var t := Next(Next(s, LinkRequest(id, to, true, true, true)), CancelRequest(id, true));
      && id in t.systems && t.systems[id].status == Disconnected
      && j in JobsOf(t, id) && Confirmed(t, t.jobs[j]).JobCanceled?
      && var u := Settle(t, j, Confirmed(t, t.jobs[j])); id in u.systems && u.systems[id].status == Failed
  {
    var j := s.nextJob;
    var s1 := Next(s, LinkRequest(id, to, true, true, true));
    assert s1 == Submit(s, id, s.systems[id].(target := Some(to)), SystemLink, s.configs[to].primary, None, true);
    var t := Next(s1, CancelRequest(id, true));
    assert t.jobs == s1.jobs && t.systems[id].status == Disconnected;
    SettledFailure(t, j, Confirmed(t, t.jobs[j]));
  }

  /** Without the ban on rotations: rotation overwrites the event of a switch with the status
    * Processing; a cancel after the switch failed restores Processing, the finished rotation removes
    * the event, and the system is Processing for ever with no job. */
  lemma RotationStrandsTheSystem(s: State, id: SystemId, keyTo: KeyId, keyFrom: KeyId, message: string)
    requires id in s.systems && s.systems[id].status == Connected && s.systems[id].config.Some?
    requires JobsOf(s, id) == {}
    ensures var j, r := s.nextJob, s.nextJob + 1;
      var s1 := Next(Next(s, SwitchPrimaryRequest(id, keyTo, keyFrom, true, true)), RotateRequest(id, keyTo));
      var s2 := Settle(s1, j, JobFailed(message));
      var t := Settle(Next(s2, CancelRequest(id, true)), r, Done);
      && id in s2.systems && s2.systems[id].status == Failed
      && id in t.systems && t.systems[id].status == Processing && JobsOf(t, id) == {} && Stranded(t, id)
  {
    var j, r := s.nextJob, s.nextJob + 1;
    var s0 := Next(s, SwitchPrimaryRequest(id, keyTo, keyFrom, true, true));
    assert s0 == Submit(s, id, s.systems[id], SystemSwitchNewPK, Some(keyTo), Some(keyFrom), true);
    var s1 := Next(s0, RotateRequest(id, keyTo));
    assert s1 == Rotate(s0, id, keyTo) && s1.jobs[j] == s0.jobs[j];
    SettledFailure(s1, j, JobFailed(message));
    RotationEndsAfterCancel(s, Settle(s1, j, JobFailed(message)), id);
  }

  /** The rest of that run, from the failure of the switch on. */
  lemma RotationEndsAfterCancel(s: State, f: State, id: SystemId)
    requires JobsOf(s, id) == {} && id in f.systems && id in f.events
    requires f.events[id].jobType == SystemKeyRotate && f.events[id].previous == Processing
    requires var r := s.nextJob + 1;
      && r in f.jobs && f.jobs[r].jobType == SystemKeyRotate && f.jobs[r].system == id
      && f.jobs[r].outcome == Running && f.jobs[r].attempt.None?
    requires forall i :: i in f.jobs && i != s.nextJob + 1 ==> i in s.jobs && f.jobs[i] == s.jobs[i]
    ensures var t := Settle(Next(f, CancelRequest(id, true)), s.nextJob + 1, Done);
      id in t.systems && t.systems[id].status == Processing && JobsOf(t, id) == {} && Stranded(t, id)
  {
    var c, r := Next(f, CancelRequest(id, true)), s.nextJob + 1;
    assert c == SentCancel(f, id, Processing);
    SettledRotation(c, r);
    var t := Settle(c, r, Done);
    NoEventStrands(t, id);
    assert forall i :: i in t.jobs && t.jobs[i].system == id ==> i in JobsOf(s, id);
  }

  lemma SettledRotation(s: State, r: JobId)
    requires r in s.jobs && s.jobs[r].jobType == SystemKeyRotate
    requires s.jobs[r].outcome == Running && s.jobs[r].attempt.None?
    requires var id := s.jobs[r].system; id in s.systems && id in s.events && s.events[id].jobType == SystemKeyRotate
    ensures var t := Settle(s, r, Done);
      t.systems == s.systems && t.jobs == s.jobs - {r} && s.jobs[r].system !in t.events
  {
    SettleUnfolds(s, r, Done);
  }

  /** Without the ban on decommissions: the event of an earlier canceled switch survives the
    * decommission, so the stored previous status no longer fits the configuration. */
  lemma DecommissionLeavesAStaleEvent(s: State, id: SystemId)
    requires id in s.systems && s.systems[id].status == Connected && s.systems[id].config.Some?
    requires s.systems[id].config.value in s.configs && s.configs[s.systems[id].config.value].primary.Some?
    requires id in s.events && s.events[id].previous == Connected
    ensures var t := Settle(Next(s, DecommissionRequest(id, true, true)), s.nextJob, Done);
      && id in t.systems && t.systems[id].status == Disconnected && t.systems[id].config.None?
      && id in t.events && t.events[id].previous == Connected && !Inv(t)
  {
    var s1 := Next(s, DecommissionRequest(id, true, true));
    var primary := s.configs[s.systems[id].config.value].primary;
    assert s1 == Submit(s, id, s.systems[id], SystemDecommission, None, primary, false);
    SettleUnfolds(s1, s.nextJob, Done);
    var t := Settle(s1, s.nextJob, Done);
    assert !RowOk(t, id);
  }
}
