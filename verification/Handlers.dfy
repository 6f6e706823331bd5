/** One call of a job handler, as a function of the state and of how its registry call and its
  * transaction end, and as the small steps of the protocol. */
module Handlers {
  import opened Optional
  import opened Systems

  /** How a registry call ends: it may take effect and still report an error. */
  datatype Registry = Ok | ErrorAfterEffect | ErrorBeforeEffect

  /** The steps one call of a done handler performs. */
  function DoneSteps(j: JobId, jobType: JobType, registry: Registry, txOk: bool): seq<Step> {
    if !ClaimJob(jobType) then
      [BeginHandler(j)] + [if txOk then CommitHandler(j, true) else AbortHandler(j)]
    else if registry == ErrorBeforeEffect then [BeginHandler(j), AbortHandler(j)]
    else [BeginHandler(j), SendClaim(j)] +
         [if registry == Ok && txOk then CommitHandler(j, true) else AbortHandler(j)]
  }

  lemma {:induction false} RunConcat(s: State, a: seq<Step>, b: seq<Step>)
    ensures Run(s, a + b) == Run(Run(s, a), b)
    decreases |a|
  {
    if a == [] {
      assert a + b == b;
    } else {
      assert (a + b)[0] == a[0] && (a + b)[1..] == a[1..] + b;
      RunConcat(Next(s, a[0]), a[1..], b);
    }
  }

  lemma RunTwo(s: State, a: Step, b: Step)
    ensures Run(s, [a, b]) == Next(Next(s, a), b)
  {
    assert [a, b][1..] == [b] && [b][1..] == [];
    assert Run(Next(s, a), [b]) == Run(Next(Next(s, a), b), []);
  }

  lemma RunTriple(s: State, a: Step, b: Step, c: Step)
    ensures Run(s, [a, b] + [c]) == Next(Next(Next(s, a), b), c)
  {
    assert ([a, b] + [c])[1..] == [b, c];
    RunTwo(Next(s, a), b, c);
  }

  predicate KeyKnown(s: State, job: Job) {
    job.jobType == SystemUnlink || (job.keyTo.Some? && job.keyTo.value in s.keys)
  }

  function DoneRow(s: State, job: Job): System
    requires job.system in s.systems && KeyKnown(s, job)
  {
    var row := s.systems[job.system];
    if job.jobType == SystemUnlink then row.(status := Disconnected, config := None)
    else row.(status := Connected, config := Some(s.keys[job.keyTo.value].config), target := None)
  }

  /** One call of a done handler and whether it succeeds. */
  function DoneHandled(s: State, j: JobId, registry: Registry, txOk: bool): (State, bool)
    requires j in s.jobs
  {
    var job := s.jobs[j];
    if job.system !in s.systems || (ClaimJob(job.jobType) && registry == ErrorBeforeEffect) then (s, false)
    else
      var claimed := if ClaimJob(job.jobType) then SetClaim(s, job.system, job.jobType == SystemLink) else s;
      if (ClaimJob(job.jobType) && registry != Ok) || !txOk || !KeyKnown(s, job) then (claimed, false)
      else (Complete(claimed, j, DoneRow(s, job)), true)
  }

  ghost predicate Handleable(s: State, j: JobId) {
    j in s.jobs && s.jobs[j].outcome == Done && s.jobs[j].attempt.None? && UserJob(s.jobs[j].jobType)
  }

  /** The row a handler has loaded for job `j`. */
  function Loaded(s: State, j: JobId, claimed: bool): State
    requires j in s.jobs && s.jobs[j].system in s.systems
  {
    s.(jobs := s.jobs[j := s.jobs[j].(attempt := Some(Attempt(s.systems[s.jobs[j].system], claimed)))])
  }

  lemma LoadedAndDropped(s: State, j: JobId)
    requires Handleable(s, j)
    ensures s.jobs[j].system !in s.systems ==> Begin(s, j) == s && Claim(s, j) == s
    ensures s.jobs[j].system in s.systems ==> Begin(s, j) == Loaded(s, j, false)
    ensures Abort(Begin(s, j), j) == s
    ensures forall claimed :: s.jobs[j].system in s.systems ==> Abort(Loaded(s, j, claimed), j) == s
  {
    assert s.jobs[j := s.jobs[j]] == s.jobs;
  }

  /** The transaction of a loaded done job. */
  lemma LoadedAndCommitted(s: State, j: JobId, claimed: bool)
    requires Handleable(s, j) && s.jobs[j].system in s.systems
    requires ClaimJob(s.jobs[j].jobType) ==> claimed
    ensures Commit(Loaded(s, j, claimed), j, true)
            == if KeyKnown(s, s.jobs[j]) then Complete(s, j, DoneRow(s, s.jobs[j])) else s
  {
    var t := Loaded(s, j, claimed);
    var job := t.jobs[j];
    assert t.jobs - {j} == s.jobs - {j} && t.jobs[j := s.jobs[j]] == s.jobs;
    assert Commit(t, j, true) == CommitUserJob(t, j, job, job.attempt.value);
    if KeyKnown(s, s.jobs[j]) {
      assert CommitUserJob(t, j, job, job.attempt.value) == Complete(t, j, DoneRow(s, s.jobs[j]));
    } else {
      assert CommitUserJob(t, j, job, job.attempt.value) == Retain(t, j);
    }
  }

  lemma SwitchHandlerIsItsSteps(s: State, j: JobId, registry: Registry, txOk: bool)
    requires Handleable(s, j) && !ClaimJob(s.jobs[j].jobType)
    ensures DoneHandled(s, j, registry, txOk).0 == Run(s, DoneSteps(j, s.jobs[j].jobType, registry, txOk))
  {
    var last := if txOk then CommitHandler(j, true) else AbortHandler(j);
    RunTwo(s, BeginHandler(j), last);
    assert [BeginHandler(j)] + [last] == [BeginHandler(j), last];
    LoadedAndDropped(s, j);
    if s.jobs[j].system in s.systems { LoadedAndCommitted(s, j, false); }
  }

  lemma ClaimSent(s: State, j: JobId)
    requires Handleable(s, j) && ClaimJob(s.jobs[j].jobType) && s.jobs[j].system in s.systems
    ensures Claim(Loaded(s, j, false), j)
            == Loaded(SetClaim(s, s.jobs[j].system, s.jobs[j].jobType == SystemLink), j, true)
  {
    assert Loaded(s, j, false).jobs[j := Loaded(s, j, true).jobs[j]] == Loaded(s, j, true).jobs;
  }

  lemma SentAndEnded(s: State, j: JobId, registry: Registry, txOk: bool)
    requires Handleable(s, j) && ClaimJob(s.jobs[j].jobType) && s.jobs[j].system in s.systems
    requires registry != ErrorBeforeEffect
    ensures var sent := Claim(Begin(s, j), j);
      DoneHandled(s, j, registry, txOk).0 == if registry == Ok && txOk then Commit(sent, j, true) else Abort(sent, j)
  {
    var claimed := SetClaim(s, s.jobs[j].system, s.jobs[j].jobType == SystemLink);
    LoadedAndDropped(s, j);
    ClaimSent(s, j);
    LoadedAndDropped(claimed, j);
    LoadedAndCommitted(claimed, j, true);
  }

  /** The registry call has had its effect, or there is no system to load. */
  lemma ClaimedHandlerIsItsSteps(s: State, j: JobId, registry: Registry, txOk: bool)
    requires Handleable(s, j) && ClaimJob(s.jobs[j].jobType) && registry != ErrorBeforeEffect
    ensures var sent := Claim(Begin(s, j), j);
      DoneHandled(s, j, registry, txOk).0 == if registry == Ok && txOk then Commit(sent, j, true) else Abort(sent, j)
  {
    LoadedAndDropped(s, j);
    if s.jobs[j].system in s.systems { SentAndEnded(s, j, registry, txOk); }
  }

  lemma ClaimRun(s: State, j: JobId, committed: bool)
    ensures var sent := Claim(Begin(s, j), j);
      Run(s, [BeginHandler(j), SendClaim(j)] + [if committed then CommitHandler(j, true) else AbortHandler(j)])
        == if committed then Commit(sent, j, true) else Abort(sent, j)
  {
    RunTriple(s, BeginHandler(j), SendClaim(j), if committed then CommitHandler(j, true) else AbortHandler(j));
  }

  lemma DroppedRun(s: State, j: JobId)
    ensures Run(s, [BeginHandler(j), AbortHandler(j)]) == Abort(Begin(s, j), j)
  {
    RunTwo(s, BeginHandler(j), AbortHandler(j));
  }

  lemma ClaimHandlerIsItsSteps(s: State, j: JobId, registry: Registry, txOk: bool)
    requires Handleable(s, j) && ClaimJob(s.jobs[j].jobType)
    ensures DoneHandled(s, j, registry, txOk).0 == Run(s, DoneSteps(j, s.jobs[j].jobType, registry, txOk))
  {
    if registry == ErrorBeforeEffect {
      LoadedAndDropped(s, j);
      DroppedRun(s, j);
    } else {
      ClaimedHandlerIsItsSteps(s, j, registry, txOk);
      ClaimRun(s, j, registry == Ok && txOk);
    }
  }

  /** A handler call is exactly the small steps the invariant and the replay theorem are about. */
  lemma DoneHandlerIsItsSteps(s: State, j: JobId, registry: Registry, txOk: bool)
    requires Handleable(s, j)
    ensures DoneHandled(s, j, registry, txOk).0 == Run(s, DoneSteps(j, s.jobs[j].jobType, registry, txOk))
  {
    if ClaimJob(s.jobs[j].jobType) {
      ClaimHandlerIsItsSteps(s, j, registry, txOk);
    } else {
      SwitchHandlerIsItsSteps(s, j, registry, txOk);
    }
  }

  // ---- replays ----

  /** How one call of a done handler goes: its registry call and its transaction. */
  datatype Attempted = Attempted(registry: Registry, txOk: bool)

  function Replayed(s: State, j: JobId, calls: seq<Attempted>): State
    requires j in s.jobs
    decreases |calls|
  {
    if calls == [] then s
    else
      var (t, ok) := DoneHandled(s, j, calls[0].registry, calls[0].txOk);
      if ok then t else Replayed(t, j, calls[1..])
  }

  function ReplaySteps(j: JobId, jobType: JobType, calls: seq<Attempted>): seq<Step> {
    if calls == [] then []
    else DoneSteps(j, jobType, calls[0].registry, calls[0].txOk) + ReplaySteps(j, jobType, calls[1..])
  }

  predicate Fails(jobType: JobType, call: Attempted) {
    !call.txOk || (ClaimJob(jobType) && call.registry != Ok)
  }

  /** A failed call leaves everything but the claim, and the claim is where success would put it. */
  lemma FailedCallOnlyClaims(s: State, j: JobId, call: Attempted)
    requires Handleable(s, j) && Fails(s.jobs[j].jobType, call)
    ensures var (t, ok) := DoneHandled(s, j, call.registry, call.txOk);
      && !ok && t == s.(claims := t.claims)
      && DoneHandled(t, j, Ok, true) == DoneHandled(s, j, Ok, true)
  {
    var id := s.jobs[j].system;
    assert s.claims + {id} + {id} == s.claims + {id} && s.claims - {id} - {id} == s.claims - {id};
    var t := DoneHandled(s, j, call.registry, call.txOk).0;
    assert SetClaim(t, id, s.jobs[j].jobType == SystemLink) == SetClaim(s, id, s.jobs[j].jobType == SystemLink);
  }

  /** Any number of failed calls, each stopping before the registry call, after it or at the
    * transaction, followed by one good call leaves the same state as one good call. */
  lemma {:induction false} ReplayedHandlerIsIdempotent(s: State, j: JobId, calls: seq<Attempted>)
    requires Handleable(s, j)
    requires forall i :: 0 <= i < |calls| ==> Fails(s.jobs[j].jobType, calls[i])
    ensures Replayed(s, j, calls).jobs == s.jobs
    ensures DoneHandled(Replayed(s, j, calls), j, Ok, true) == DoneHandled(s, j, Ok, true)
    ensures var jobType := s.jobs[j].jobType; var good := DoneSteps(j, jobType, Ok, true);
      Run(s, ReplaySteps(j, jobType, calls) + good) == Run(s, good)
    decreases |calls|
  {
    var jobType := s.jobs[j].jobType;
    var good := DoneSteps(j, jobType, Ok, true);
    if calls == [] {
      assert ReplaySteps(j, jobType, calls) + good == good;
    } else {
      FailedCallOnlyClaims(s, j, calls[0]);
      var t := DoneHandled(s, j, calls[0].registry, calls[0].txOk).0;
      ReplayedHandlerIsIdempotent(t, j, calls[1..]);
      DoneHandlerIsItsSteps(s, j, calls[0].registry, calls[0].txOk);
      DoneHandlerIsItsSteps(s, j, Ok, true);
      DoneHandlerIsItsSteps(t, j, Ok, true);
      var first, rest := DoneSteps(j, jobType, calls[0].registry, calls[0].txOk), ReplaySteps(j, jobType, calls[1..]);
      RunConcat(s, first, rest + good);
      assert first + rest + good == first + (rest + good);
    }
  }
}
