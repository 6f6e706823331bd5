/** The requests and handlers as they work on the tables, step by step, each proved against its
  * transition in `Systems`, and to keep the link protocol's invariant under that protocol's hypotheses.
  * A transaction that fails restores what it had written. */
module SystemService {
  import opened Optional
  import opened Systems
  import opened Handlers
  import opened LinkProtocol
  import opened LinkRuns
  import OrbitalErrors

  /** What a request that may be refused does to the invariant and to its system. */
  lemma RequestMade(s: State, step: Step)
    requires Inv(s) && CreatesJob(step) && Admissible(s, step)
    ensures var t := Next(s, step); Inv(t) && (t.nextJob != s.nextJob ==> WaitsFor(t, step.id, s.nextJob))
  {
    StepKeepsInv(s, step);
    UncommittedRequest(s, step);
    if Submits(s, step) { AcceptedRequestWaits(s, step); }
  }

  class Service {
    var systems: map<SystemId, System>
    var events: map<SystemId, Event>
    var configs: map<ConfigId, Config>
    var keys: map<KeyId, Key>
    var jobs: map<JobId, Job>
    var nextJob: JobId
    var claims: set<SystemId>

    ghost function Snapshot(): State
      reads this
    {
      State(systems, events, configs, keys, jobs, nextJob, claims)
    }

    constructor ()
      ensures Snapshot() == State(map[], map[], map[], map[], map[], 0, {}) && Inv(Snapshot())
    {
      systems, events, configs, keys, jobs, nextJob, claims := map[], map[], map[], map[], map[], 0, {};
    }

    method SubmitEvent(id: SystemId, row: System, jobType: JobType, keyTo: Option<KeyId>, keyFrom: Option<KeyId>,
                       jobOk: bool, stored: bool) returns (reply: Reply)
      requires id in systems
      modifies this
      ensures (Snapshot(), reply)
              == HandleSystemStatus(old(Snapshot()), id, row, jobType, keyTo, keyFrom, jobOk, stored)
    {
      var previous := row.status;
      if row.status == Processing {
        return Refused(StillProcessing);
      }
      var saved := systems;
      systems := systems[id := row.(status := Processing)];
      if !jobOk {
        systems := saved;
        return Refused(JobRefused);
      }
      jobs := jobs[nextJob := Job(jobType, id, keyTo, keyFrom, Running, None)];
      nextJob := nextJob + 1;
      if stored {
        events := events[id := Event(jobType, keyTo, keyFrom, previous, "", "")];
      }
      reply := Accepted;
    }

    method LinkSystemAction(id: SystemId, to: ConfigId, authorized: bool, jobOk: bool, stored: bool)
      returns (reply: Reply)
      modifies this
      ensures (Snapshot(), reply) == Link(old(Snapshot()), id, to, authorized, jobOk, stored)
      ensures old(Inv(Snapshot())) && stored ==>
        Inv(Snapshot()) && (reply.Accepted? ==> WaitsFor(Snapshot(), id, old(nextJob)))
    {
      ghost var s := Snapshot();
      if id !in systems { return Refused(SystemNotFound); }
      var row := systems[id];
      if !authorized { return Refused(NotAuthorized); }
      if to !in configs { return Refused(ConfigNotFound); }
      var primary := configs[to].primary;
      if primary.None? { return Refused(NoPrimaryKey); }
      if primary.value !in keys { return Refused(KeyNotFound); }
      if keys[primary.value].state != Enabled { return Refused(NoPrimaryKey); }
      if row.status == Processing || row.status == Failed { return Refused(ProcessingOrFailed); }

      var oldConfig := row.config;
      var jobType, keyFrom := SystemLink, None;
      if oldConfig.Some? && oldConfig.value != to {
        if oldConfig.value !in configs { return Refused(ConfigNotFound); }
        if configs[oldConfig.value].primary.Some? {
          jobType, keyFrom := SystemSwitch, configs[oldConfig.value].primary;
        }
      }
      row := row.(target := Some(to));
      reply := SubmitEvent(id, row, jobType, primary, keyFrom, jobOk, stored);
      if Inv(s) && stored { RequestMade(s, LinkRequest(id, to, authorized, jobOk, stored)); }
    }

    method UnlinkSystemAction(id: SystemId, decommission: bool, authorized: bool, jobOk: bool, stored: bool)
      returns (reply: Reply)
      modifies this
      ensures (Snapshot(), reply) == Unlink(old(Snapshot()), id, decommission, authorized, jobOk, stored)
      ensures old(Inv(Snapshot())) && stored && !decommission ==>
        Inv(Snapshot()) && (reply.Accepted? ==> WaitsFor(Snapshot(), id, old(nextJob)))
    {
      ghost var s := Snapshot();
      if id !in systems { return Refused(SystemNotFound); }
      var row := systems[id];
      if row.config.None? { return Refused(NotLinked); }
      if !authorized { return Refused(NotAuthorized); }
      if row.config.value !in configs { return Refused(ConfigNotFound); }
      if row.status == Processing { return Refused(StillProcessing); }
      var primary := configs[row.config.value].primary;
      if primary.None? { return Refused(NoPrimaryKey); }
      if decommission {
        reply := SubmitEvent(id, row, SystemDecommission, None, primary, jobOk, false);
      } else {
        reply := SubmitEvent(id, row, SystemUnlink, None, primary, jobOk, stored);
        if Inv(s) && stored { RequestMade(s, UnlinkRequest(id, authorized, jobOk, stored)); }
      }
    }

    /** `row` and `event` are what the request loaded, each at some earlier time. */
    method RetrySystemAction(id: SystemId, row: Option<System>, event: Option<Event>, authorized: bool, jobOk: bool)
      returns (reply: Reply)
      modifies this
      ensures (Snapshot(), reply) == RetryLoaded(old(Snapshot()), id, row, event, authorized, jobOk)
      ensures old(Inv(Snapshot())) && reply.Accepted? ==>
        (Inv(Snapshot()) <==> RetryFits(old(Snapshot()), id, row.value, event.value))
      ensures old(Inv(Snapshot())) && row == Lookup(old(systems), id) && event == Lookup(old(events), id) ==>
        Inv(Snapshot()) && (reply.Accepted? ==> WaitsFor(Snapshot(), id, old(nextJob)))
    {
      ghost var s := Snapshot();
      if row.None? { return Refused(SystemNotFound); }
      if !authorized { return Refused(NotAuthorized); }
      if row.value.status != Failed { return Refused(RetryNonFailed); }
      if event.None? { return Refused(NoPreviousEvent); }
      reply := SendRetry(id, row.value, event.value, jobOk);
      if Inv(s) && row == Lookup(s.systems, id) && event == Lookup(s.events, id) {
        RequestMade(s, RetryRequest(id, authorized, jobOk));
      }
    }

    /** The transaction of a retry: the row and the event were loaded before it. */
    method SendRetry(id: SystemId, row: System, event: Event, jobOk: bool) returns (reply: Reply)
      modifies this
      ensures reply == if jobOk then Accepted else Refused(JobRefused)
      ensures Snapshot() == if jobOk then SentRetry(old(Snapshot()), id, row, event) else old(Snapshot())
      ensures old(Inv(Snapshot())) && jobOk ==> (Inv(Snapshot()) <==> RetryFits(old(Snapshot()), id, row, event))
    {
      ghost var s := Snapshot();
      var saved := systems;
      if event.jobType != SystemKeyRotate && id in systems {
        systems := systems[id := Merged(systems[id], row.(status := Processing))];
      }
      if !jobOk {
        systems := saved;
        return Refused(JobRefused);
      }
      jobs := jobs[nextJob := Job(event.jobType, id, event.keyTo, event.keyFrom, Running, None)];
      nextJob := nextJob + 1;
      reply := Accepted;
      if Inv(s) { RetryKeepsInvIff(s, id, row, event); }
    }

    /** `found` and `event` are what the request loaded, each at some earlier time. */
    method CancelSystemAction(id: SystemId, found: bool, event: Option<Event>, authorized: bool)
      returns (reply: Reply)
      modifies this
      ensures (Snapshot(), reply) == CancelLoaded(old(Snapshot()), id, found, event, authorized)
      ensures old(Inv(Snapshot())) && reply.Accepted? && event.value.previous != Processing ==>
        && (Inv(Snapshot()) <==> CancelFits(old(Snapshot()), id, event.value.previous))
        && (Inv(Snapshot()) && id in systems ==> Settled(Snapshot(), id))
      ensures old(Inv(Snapshot())) && reply.Accepted? && id in old(systems) && event == Lookup(old(events), id) ==>
        event.value.previous != Processing && (Inv(Snapshot()) <==> old(systems)[id].status != Processing)
    {
      ghost var s := Snapshot();
      if !found { return Refused(SystemNotFound); }
      if !authorized { return Refused(NotAuthorized); }
      if event.None? { return Refused(NoPreviousEvent); }
      if id in systems {
        systems := systems[id := systems[id].(status := event.value.previous, target := None)];
      }
      reply := Accepted;
      if Inv(s) {
        if id in s.systems { assert SystemOk(s, id); }
        if event.value.previous != Processing { CancelKeepsInvIff(s, id, event.value.previous); }
        if id in s.systems && Inv(Snapshot()) && event.value.previous != Processing {
          NotProcessingIsSettled(Snapshot(), id);
        }
      }
    }

    /** The done handlers of link, unlink and both switches: load, claim, find the key, write. */
    method HandleJobDone(j: JobId, registry: Registry, txOk: bool) returns (ok: bool)
      requires Handleable(Snapshot(), j)
      modifies this
      ensures (Snapshot(), ok) == DoneHandled(old(Snapshot()), j, registry, txOk)
      ensures !ok ==> Snapshot() == old(Snapshot()).(claims := claims)
      ensures old(Inv(Snapshot())) ==> Inv(Snapshot()) && (ok ==> Settled(Snapshot(), old(jobs)[j].system))
    {
      DoneHandlerSettles(Snapshot(), j, registry, txOk);
      var job := jobs[j];
      if job.system !in systems { return false; }
      var row := systems[job.system];
      if ClaimJob(job.jobType) {
        if registry == ErrorBeforeEffect { return false; }
        claims := if job.jobType == SystemLink then claims + {job.system} else claims - {job.system};
        if registry == ErrorAfterEffect { return false; }
      }
      if job.jobType == SystemUnlink {
        row := row.(status := Disconnected, config := None);
      } else {
        if job.keyTo.None? || job.keyTo.value !in keys { return false; }
        row := row.(status := Connected, config := Some(keys[job.keyTo.value].config), target := None);
      }
      if !txOk { return false; }
      systems := systems[job.system := row];
      if job.system in events && events[job.system].jobType == job.jobType {
        events := events - {job.system};
      }
      jobs := jobs - {j};
      ok := true;
    }

    /** terminateFailedSystemJob and terminateCanceledSystemJob: a system that is gone ends the job. */
    method HandleJobNotDone(j: JobId, txOk: bool) returns (ok: bool)
      requires NotDone(Snapshot(), j)
      modifies this
      ensures ok <==> txOk || old(jobs)[j].system !in old(systems)
      ensures Snapshot() == if ok then NotDoneHandled(old(Snapshot()), j) else old(Snapshot())
      ensures old(Inv(Snapshot())) ==> Inv(Snapshot())
    {
      if Inv(Snapshot()) { NotDoneHandlerKeepsInv(Snapshot(), j); }
      var job := jobs[j];
      if job.system !in systems {
        jobs := jobs - {j};
        return true;
      }
      var row := systems[job.system];
      if !txOk { return false; }
      if job.system in events {
        var parsed := OrbitalErrors.Parse(job.outcome.message);
        var event := events[job.system].(errorCode := parsed.code);
        if parsed.message != "" {
          event := event.(errorMessage := parsed.message);
        }
        events := events[job.system := event];
      }
      row := row.(status := Failed);
      systems := systems[job.system := row];
      jobs := jobs - {j};
      ok := true;
    }
  }
}
