/** Offboarding as a protocol: the steps of the reconciler's passes, in any interleaving with the
  * outcomes of the decommission and detach jobs they start. */
module OffboardingRuns {
  import opened Optional
  import opened Systems
  import opened Offboarding
  import opened Tables
  import P = Pagination

  /** Where the reconciler is. `last` says that the current page was empty. */
  datatype Phase =
    | Idle
    | ListLinked(offset: nat)
    | UnlinkEach(offset: nat, systems: seq<SystemId>, last: bool)
    | CheckUnlinked
    | ListKeys(offset: nat)
    | DetachEach(offset: nat, keys: seq<KeyId>, last: bool)
    | CheckProcessed
    | Unmapping
    | CheckDetached
    | Deleting
    | Gone
    | Stopped

  datatype World = World(t: Tenant, phase: Phase)

  /** `Reconcile` is the next call of the current pass: `ok` is the store's or orbital's answer,
    * `verdict` what the unmap loop makes of the registry's answers. */
  datatype Move =
    | Reconcile(ok: bool, verdict: Verdict)
    | SystemJob(step: Step)
    | ConfirmKeyJob(key: KeyId)
    | FinishKeyJob(key: KeyId, outcome: Outcome)
    | HandleKeyJob(key: KeyId, closed: bool)
    | SyncKey(key: KeyId, state: KeyState)

  /** The steps of a decommission job and its handler. */
  predicate JobStep(step: Step) {
    step.ConfirmJob? || step.FinishJob? || step.BeginHandler? || step.AbortHandler? || step.CommitHandler?
  }

  function Reconciled(w: World, ok: bool, verdict: Verdict): World {
    var t := w.t;
    match w.phase
    case Idle => w.(phase := ListLinked(0))
    case ListLinked(offset) =>
      if !ok then w.(phase := Idle)
      else
        var page := P.Page(UnlinkRows(t), offset, P.DefaultLimit);
        w.(phase := UnlinkEach(offset, page, page == []))
    case UnlinkEach(offset, systems, last) =>
      if systems != [] then
        if ok && UnlinkOne(t, systems[0]).1
        then World(UnlinkOne(t, systems[0]).0, UnlinkEach(offset, systems[1..], last))
        else w.(phase := Idle)
      else if last then w.(phase := CheckUnlinked)
      else if !ok then w.(phase := Idle)
      else if |UnlinkRows(t)| <= offset + P.DefaultLimit then w.(phase := CheckUnlinked)
      else w.(phase := ListLinked(offset + P.DefaultLimit))
    case CheckUnlinked => w.(phase := if ok && Linked(t.s) == {} then ListKeys(0) else Idle)
    case ListKeys(offset) =>
      if !ok then w.(phase := Idle)
      else
        var page := P.Page(DetachRows(t), offset, P.DefaultLimit);
        w.(phase := DetachEach(offset, page, page == []))
    case DetachEach(offset, keys, last) =>
      if keys != [] then
        if ok && DetachOne(t, keys[0]).1 then World(DetachOne(t, keys[0]).0, DetachEach(offset, keys[1..], last))
        else w.(phase := Idle)
      else if last then w.(phase := CheckProcessed)
      else if !ok then w.(phase := Idle)
      else if |DetachRows(t)| <= offset + P.DefaultLimit then w.(phase := CheckProcessed)
      else w.(phase := ListKeys(offset + P.DefaultLimit))
    case CheckProcessed => w.(phase := if ok && Unprocessed(t.s) == {} then Unmapping else Idle)
    case Unmapping =>
      w.(phase := if verdict == NextStep then CheckDetached else if verdict == GiveUp then Stopped else Idle)
    case CheckDetached => w.(phase := if ok && Undetached(t.s) == {} then Deleting else Idle)
    case Deleting => w.(phase := if ok then Gone else Idle)
    case Gone => w
    case Stopped => w
  }

  function SetKey(t: Tenant, k: KeyId, state: KeyState): Tenant
    requires k in t.s.keys
  {
    t.(s := t.s.(keys := t.s.keys[k := t.s.keys[k].(state := state)]))
  }

  /** KeyDetachJobHandler: its confirmation, a terminal outcome, and its handler, which writes the row
    * and is called again unless the job was then closed. */
  function KeyJobMoved(t: Tenant, m: Move): Tenant
    requires m.ConfirmKeyJob? || m.FinishKeyJob? || m.HandleKeyJob?
  {
    if m.key !in t.keyJobs then t
    else
      match m
      case ConfirmKeyJob(k) =>
        if t.keyJobs[k] == Running && (k !in t.s.keys || t.s.keys[k].state != Detaching)
        then t.(keyJobs := t.keyJobs[k := JobCanceled("key is not in detaching status")]) else t
      case FinishKeyJob(k, outcome) =>
        if t.keyJobs[k] == Running then t.(keyJobs := t.keyJobs[k := outcome]) else t
      case HandleKeyJob(k, closed) =>
        if t.keyJobs[k] == Running || k !in t.s.keys then t
        else
          var written := SetKey(t, k, if t.keyJobs[k].JobCanceled? then Unknown else Detached);
          if closed then written.(keyJobs := t.keyJobs - {k}) else written
  }

  /** Nothing is left to step once the tenant is deleted. */
  function Moved(w: World, m: Move): World {
    if w.phase.Gone? then w
    else
      match m
      case Reconcile(ok, verdict) => Reconciled(w, ok, verdict)
      case SystemJob(step) => if JobStep(step) then w.(t := w.t.(s := Next(w.t.s, step))) else w
      case SyncKey(k, state) => if k in w.t.s.keys then w.(t := SetKey(w.t, k, state)) else w
      case _ => w.(t := KeyJobMoved(w.t, m))
  }

  /** The hypothesis about the environment: the key sync leaves Detached keys alone, and neither
    * Detaching nor Detached is a state it finds. */
  predicate Admissible(w: World, m: Move) {
    m.SyncKey? ==>
      && m.state != Detached && m.state != Detaching
      && (m.key in w.t.s.keys ==> w.t.s.keys[m.key].state != Detached)
  }

  predicate AdmissibleRun(w: World, moves: seq<Move>)
    decreases |moves|
  {
    moves == [] || (Admissible(w, moves[0]) && AdmissibleRun(Moved(w, moves[0]), moves[1..]))
  }

  function Played(w: World, moves: seq<Move>): World
    decreases |moves|
  {
    if moves == [] then w else Played(Moved(w, moves[0]), moves[1..])
  }

  // ---- what every step keeps about decommission jobs ----

  predicate JobFine(s: State, j: JobId)
    requires j in s.jobs
  {
    var job := s.jobs[j];
    && j < s.nextJob
    && job.jobType == SystemDecommission
    && job.system in s.systems
    && (s.systems[job.system].status == Processing || s.systems[job.system].config.None?)
    && (job.attempt.Some? ==> job.attempt.value.loaded == s.systems[job.system] && job.outcome != Running)
  }

  ghost predicate JobsFine(s: State) {
    && (forall j :: j in s.jobs ==> JobFine(s, j))
    && (forall i, j :: i in s.jobs && j in s.jobs && s.jobs[i].system == s.jobs[j].system ==> i == j)
  }

  /** A system keeps its configuration or loses it; nothing else moves but system rows and jobs. */
  ghost predicate OnlyUnlinks(s: State, s': State) {
    && s'.configs == s.configs && s'.keys == s.keys && s'.systems.Keys == s.systems.Keys
    && forall id :: id in s.systems ==>
         s'.systems[id].config == s.systems[id].config || s'.systems[id].config.None?
  }

  lemma UnlinkKeepsJobsFine(t: Tenant, id: SystemId)
    requires JobsFine(t.s)
    ensures var s' := UnlinkOne(t, id).0.s; JobsFine(s') && OnlyUnlinks(t.s, s')
  {
    var s, s' := t.s, UnlinkOne(t, id).0.s;
    if s' != s {
      forall j | j in s'.jobs ensures JobFine(s', j) { if j in s.jobs { assert JobFine(s, j); } }
      assert forall j :: j in s.jobs ==> JobFine(s, j) && s.jobs[j].system != id;
    }
  }

  /** Only job `j` and the row of its system moved. */
  lemma OneJobMoved(s: State, s': State, j: JobId)
    requires JobsFine(s) && j in s.jobs && s'.nextJob == s.nextJob
    requires s'.jobs.Keys <= s.jobs.Keys && (forall i :: i in s'.jobs && i != j ==> s'.jobs[i] == s.jobs[i])
    requires j in s'.jobs ==> s'.jobs[j].system == s.jobs[j].system && JobFine(s', j)
    requires s'.systems.Keys == s.systems.Keys
    requires forall id :: id in s.systems && id != s.jobs[j].system ==> s'.systems[id] == s.systems[id]
    ensures JobsFine(s')
  {
    forall i | i in s'.jobs ensures JobFine(s', i) { assert JobFine(s, i); }
  }

  lemma CommitKeepsJobsFine(s: State, j: JobId, answered: bool)
    requires JobsFine(s) && j in s.jobs && s.jobs[j].attempt.Some?
    ensures JobsFine(Commit(s, j, answered)) && OnlyUnlinks(s, Commit(s, j, answered))
  {
    assert JobFine(s, j);
    OneJobMoved(s, Commit(s, j, answered), j);
  }

  lemma JobReplaced(s: State, j: JobId, job: Job)
    requires JobsFine(s) && j in s.jobs && job.system == s.jobs[j].system && job.jobType == SystemDecommission
    requires job.attempt.Some? ==>
      job.outcome != Running && job.system in s.systems && job.attempt.value.loaded == s.systems[job.system]
    ensures JobsFine(s.(jobs := s.jobs[j := job]))
  {
    assert JobFine(s, j);
    OneJobMoved(s, s.(jobs := s.jobs[j := job]), j);
  }

  lemma JobStepKeepsJobsFine(s: State, step: Step)
    requires JobsFine(s) && JobStep(step)
    ensures JobsFine(Next(s, step)) && OnlyUnlinks(s, Next(s, step))
  {
    if step.CommitHandler? {
      if step.job in s.jobs && s.jobs[step.job].attempt.Some? { CommitKeepsJobsFine(s, step.job, step.answered); }
    } else {
      HandlerProgress(s, step);
    }
  }

  lemma HandlerProgress(s: State, step: Step)
    requires JobsFine(s) && (step.ConfirmJob? || step.FinishJob? || step.BeginHandler? || step.AbortHandler?)
    ensures JobsFine(Next(s, step)) && OnlyUnlinks(s, Next(s, step))
  {
    var s' := Next(s, step);
    if s' != s {
      assert JobFine(s, step.job);
      var job := s'.jobs[step.job];
      assert s' == s.(jobs := s.jobs[step.job := job]);
      JobReplaced(s, step.job, job);
    }
  }

  // ---- what every step keeps about detach jobs ----

  /** A job that may still put its key back to Unknown has a key that is not Detached. */
  predicate KeyJobFine(t: Tenant, k: KeyId)
    requires k in t.keyJobs
  {
    k in t.s.keys && (t.s.keys[k].state == Detached ==> t.keyJobs[k].Done? || t.keyJobs[k].JobFailed?)
  }

  predicate KeyJobsFine(t: Tenant) { forall k :: k in t.keyJobs ==> KeyJobFine(t, k) }

  // ---- safety ----

  predicate AfterUnlinking(p: Phase) {
    p.ListKeys? || p.DetachEach? || p.CheckProcessed? || p.Unmapping? || p.CheckDetached? || p.Deleting? || p.Gone?
  }

  ghost predicate Safe(w: World) {
    && JobsFine(w.t.s) && KeyJobsFine(w.t)
    && (AfterUnlinking(w.phase) ==> Linked(w.t.s) == {})
    && (w.phase.Deleting? || w.phase.Gone? ==> Undetached(w.t.s) == {})
  }

  lemma ReconcileKeepsSafe(w: World, ok: bool, verdict: Verdict)
    requires Safe(w)
    ensures Safe(Reconciled(w, ok, verdict))
  {
    if w.phase.UnlinkEach? && w.phase.systems != [] { UnlinkKeepsJobsFine(w.t, w.phase.systems[0]); }
  }

  lemma KeyJobKeepsSafe(w: World, m: Move)
    requires Safe(w) && (m.ConfirmKeyJob? || m.FinishKeyJob? || m.HandleKeyJob?)
    ensures Safe(w.(t := KeyJobMoved(w.t, m)))
  {
    var t' := KeyJobMoved(w.t, m);
    forall k | k in t'.keyJobs ensures KeyJobFine(t', k) { assert KeyJobFine(w.t, k); }
    if w.phase.Deleting? || w.phase.Gone? {
      forall k | k in t'.s.keys && Counts(t'.s, k) ensures t'.s.keys[k].state == Detached {
        assert k !in Undetached(w.t.s);
        if k in w.t.keyJobs { assert KeyJobFine(w.t, k); }
      }
    }
  }

  lemma SyncKeepsSafe(w: World, k: KeyId, state: KeyState)
    requires Safe(w) && Admissible(w, SyncKey(k, state)) && k in w.t.s.keys
    ensures Safe(w.(t := SetKey(w.t, k, state)))
  {
    var t' := SetKey(w.t, k, state);
    forall i | i in t'.keyJobs ensures KeyJobFine(t', i) { assert KeyJobFine(w.t, i); }
    if w.phase.Deleting? || w.phase.Gone? {
      assert k !in Undetached(w.t.s);
      assert Undetached(t'.s) == {};
    }
  }

  lemma MoveKeepsSafe(w: World, m: Move)
    requires Safe(w) && Admissible(w, m)
    ensures Safe(Moved(w, m))
  {
    if !w.phase.Gone? {
      match m
      case Reconcile(ok, verdict) => ReconcileKeepsSafe(w, ok, verdict);
      case SystemJob(step) => if JobStep(step) { JobStepKeepsJobsFine(w.t.s, step); }
      case SyncKey(k, state) => if k in w.t.s.keys { SyncKeepsSafe(w, k, state); }
      case _ => KeyJobKeepsSafe(w, m);
    }
  }

  lemma {:induction false} RunKeepsSafe(w: World, moves: seq<Move>)
    requires Safe(w) && AdmissibleRun(w, moves)
    ensures Safe(Played(w, moves))
    decreases |moves|
  {
    if moves != [] {
      MoveKeepsSafe(w, moves[0]);
      RunKeepsSafe(Moved(w, moves[0]), moves[1..]);
    }
  }

  /** Nothing in flight when offboarding starts. */
  predicate Fresh(w: World) { w.phase == Idle && w.t.s.jobs == map[] && w.t.keyJobs == map[] }

  /** Whatever the rows are when offboarding starts: when the tenant is deleted no system has a key
    * configuration, and every key of a configuration with a primary is Detached. */
  lemma DeletedTenantIsOffboarded(w: World, moves: seq<Move>)
    requires Fresh(w) && AdmissibleRun(w, moves) && Played(w, moves).phase.Gone?
    ensures var s := Played(w, moves).t.s;
      && (forall id :: id in s.systems ==> s.systems[id].config.None?)
      && (forall k :: k in s.keys && Counts(s, k) ==> s.keys[k].state == Detached)
  {
    RunKeepsSafe(w, moves);
    var s := Played(w, moves).t.s;
    assert forall id :: id in s.systems ==> id !in Linked(s);
    assert forall k :: k in s.keys ==> k !in Undetached(s);
  }

  // ---- nothing is lost ----

  ghost predicate HasJob(s: State, id: SystemId) { exists j :: j in s.jobs && s.jobs[j].system == id }

  /** Every linked system is in the next pass's query or has a job, and so has every undetached key. */
  ghost predicate NothingLost(t: Tenant) {
    && (forall id :: id in Linked(t.s) ==> id in LinkedIdle(t.s) || HasJob(t.s, id))
    && (forall k :: k in Undetached(t.s) ==> k in Unprocessed(t.s) || k in t.keyJobs)
  }

  lemma UnlinkLosesNothing(t: Tenant, id: SystemId)
    requires JobsFine(t.s) && NothingLost(t)
    ensures NothingLost(UnlinkOne(t, id).0)
  {
    var s, s' := t.s, UnlinkOne(t, id).0.s;
    if s' != s {
      assert s.nextJob !in s.jobs;
      forall i | i in Linked(s') ensures i in LinkedIdle(s') || HasJob(s', i) {
        if i == id {
          assert s.nextJob in s'.jobs && s'.jobs[s.nextJob].system == id;
        } else {
          assert i in Linked(s);
          if HasJob(s, i) {
            var j :| j in s.jobs && s.jobs[j].system == i;
            assert j in s'.jobs && s'.jobs[j].system == i;
          }
        }
      }
      assert Undetached(s') == Undetached(s) && Unprocessed(s') == Unprocessed(s);
    }
  }

  /** A job step leaves every other row and job alone, and either keeps its job and its system's row
    * or settles the system. */
  ghost predicate OneJobStep(s: State, s': State, j: JobId)
    requires j in s.jobs
  {
    var id := s.jobs[j].system;
    && s'.configs == s.configs && s'.keys == s.keys && s'.systems.Keys == s.systems.Keys
    && (forall i :: i in s.systems && i != id ==> s'.systems[i] == s.systems[i])
    && s'.jobs.Keys <= s.jobs.Keys
    && (forall i :: i in s.jobs && i != j ==> i in s'.jobs && s'.jobs[i] == s.jobs[i])
    && (j in s'.jobs ==> s'.jobs[j].system == id)
    && (j in s'.jobs || (id in s.systems && (s'.systems[id].config.None? || s'.systems[id].status != Processing)))
    && (id in s.systems ==> s'.systems[id].config == s.systems[id].config || s'.systems[id].config.None?)
    && (id in s.systems ==> s'.systems[id].status == s.systems[id].status || s'.systems[id].status != Processing)
  }

  lemma CommitMovesOneJob(s: State, j: JobId, answered: bool)
    requires JobsFine(s) && j in s.jobs && s.jobs[j].attempt.Some?
    ensures OneJobStep(s, Commit(s, j, answered), j)
  {
    assert JobFine(s, j);
    var job := s.jobs[j];
    assert Commit(s, j, answered) == CommitDecommission(s, j, job, job.attempt.value.loaded, answered);
  }

  lemma JobStepMovesOneJob(s: State, step: Step)
    requires JobsFine(s) && JobStep(step)
    ensures Next(s, step) == s || (step.job in s.jobs && OneJobStep(s, Next(s, step), step.job))
  {
    var s' := Next(s, step);
    if s' != s {
      if step.CommitHandler? {
        CommitMovesOneJob(s, step.job, step.answered);
      } else {
        assert JobFine(s, step.job);
        assert s' == s.(jobs := s.jobs[step.job := s'.jobs[step.job]]);
      }
    }
  }

  lemma JobStepLosesNothing(t: Tenant, step: Step)
    requires JobsFine(t.s) && NothingLost(t) && JobStep(step)
    ensures NothingLost(t.(s := Next(t.s, step)))
  {
    JobStepMovesOneJob(t.s, step);
    if Next(t.s, step) != t.s { OneJobStepLosesNothing(t, Next(t.s, step), step.job); }
  }

  lemma OneJobStepLosesNothing(t: Tenant, s': State, j: JobId)
    requires j in t.s.jobs && OneJobStep(t.s, s', j) && NothingLost(t)
    ensures NothingLost(t.(s := s'))
  {
    var s := t.s;
    assert Undetached(s') == Undetached(s) && Unprocessed(s') == Unprocessed(s);
    forall i | i in Linked(s') ensures i in LinkedIdle(s') || HasJob(s', i) {
      assert i in Linked(s);
      if HasJob(s, i) {
        var k :| k in s.jobs && s.jobs[k].system == i;
        assert k in s'.jobs ==> s'.jobs[k].system == i;
      }
    }
  }

  lemma KeyMovesLoseNothing(t: Tenant, m: Move)
    requires NothingLost(t) && (m.ConfirmKeyJob? || m.FinishKeyJob? || m.HandleKeyJob?)
    ensures NothingLost(KeyJobMoved(t, m))
  {
    var t' := KeyJobMoved(t, m);
    assert Linked(t'.s) == Linked(t.s) && LinkedIdle(t'.s) == LinkedIdle(t.s);
    assert forall id :: HasJob(t'.s, id) <==> HasJob(t.s, id);
    forall k | k in Undetached(t'.s) ensures k in Unprocessed(t'.s) || k in t'.keyJobs {
      if k != m.key { assert k in Undetached(t.s); }
      assert k in t.s.keys && Counts(t.s, k);
    }
  }

  lemma MoveLosesNothing(w: World, m: Move)
    requires Safe(w) && NothingLost(w.t) && Admissible(w, m)
    ensures NothingLost(Moved(w, m).t)
  {
    var w' := Moved(w, m);
    if w' != w {
      match m
      case SystemJob(step) => JobStepLosesNothing(w.t, step);
      case ConfirmKeyJob(_) => KeyMovesLoseNothing(w.t, m);
      case FinishKeyJob(_, _) => KeyMovesLoseNothing(w.t, m);
      case HandleKeyJob(_, _) => KeyMovesLoseNothing(w.t, m);
      case SyncKey(k, state) => SyncLosesNothing(w.t, k, state);
      case Reconcile(ok, verdict) =>
        if w'.t != w.t {
          if w.phase.UnlinkEach? { UnlinkLosesNothing(w.t, w.phase.systems[0]); }
          else { DetachLosesNothing(w.t, w.phase.keys[0]); }
        }
    }
  }

  lemma SyncLosesNothing(t: Tenant, k: KeyId, state: KeyState)
    requires NothingLost(t) && k in t.s.keys && state != Detached && state != Detaching
    ensures NothingLost(SetKey(t, k, state))
  {
    var s' := SetKey(t, k, state).s;
    assert Linked(s') == Linked(t.s) && LinkedIdle(s') == LinkedIdle(t.s);
    assert forall id :: HasJob(s', id) <==> HasJob(t.s, id);
    forall i | i in Undetached(s') ensures i in Unprocessed(s') || i in t.keyJobs {
      if i != k { assert i in Undetached(t.s); }
    }
  }

  lemma DetachLosesNothing(t: Tenant, k: KeyId)
    requires NothingLost(t)
    ensures NothingLost(DetachOne(t, k).0)
  {
    var t' := DetachOne(t, k).0;
    assert Linked(t'.s) == Linked(t.s) && LinkedIdle(t'.s) == LinkedIdle(t.s);
    assert forall id :: HasJob(t'.s, id) <==> HasJob(t.s, id);
    forall i | i in Undetached(t'.s) ensures i in Unprocessed(t'.s) || i in t'.keyJobs {
      if i != k { assert i in Undetached(t.s); }
    }
  }

  lemma {:induction false} RunLosesNothing(w: World, moves: seq<Move>)
    requires Safe(w) && NothingLost(w.t) && AdmissibleRun(w, moves)
    ensures Safe(Played(w, moves)) && NothingLost(Played(w, moves).t)
    decreases |moves|
  {
    if moves != [] {
      MoveKeepsSafe(w, moves[0]);
      MoveLosesNothing(w, moves[0]);
      RunLosesNothing(Moved(w, moves[0]), moves[1..]);
    }
  }

  /** At any point of any run a system that is still linked, or a key that still counts and is not
    * Detached, is either in the next pass's query or has an outstanding job, so a canceled job
    * puts it back into the query. */
  lemma NothingIsLost(w: World, moves: seq<Move>)
    requires Fresh(w) && AdmissibleRun(w, moves)
    requires forall id :: id in Linked(w.t.s) ==> w.t.s.systems[id].status != Processing
    requires forall k :: k in w.t.s.keys ==> w.t.s.keys[k].state != Detaching
    ensures var t := Played(w, moves).t;
      && (forall id :: id in Linked(t.s) ==>
            id in LinkedIdle(t.s) || exists j :: j in t.s.jobs && t.s.jobs[j].system == id)
      && (forall k :: k in Undetached(t.s) ==> k in Unprocessed(t.s) || k in t.keyJobs)
  {
    RunLosesNothing(w, moves);
    var t := Played(w, moves).t;
    forall id | id in Linked(t.s) && id !in LinkedIdle(t.s)
      ensures exists j :: j in t.s.jobs && t.s.jobs[j].system == id
    {
      assert HasJob(t.s, id);
    }
  }

  // ---- when offboarding can never end ----

  /** A linked system without a job that no pass can give one: it is Processing, or its configuration
    * has no primary key. */
  ghost predicate Blocks(w: World, id: SystemId) {
    && id in Linked(w.t.s)
    && (w.t.s.systems[id].status == Processing || !HasPrimary(w.t.s, id))
    && !HasJob(w.t.s, id)
    && !AfterUnlinking(w.phase)
  }

  lemma OthersKeepBlocking(w: World, w': World, id: SystemId)
    requires Blocks(w, id) && !AfterUnlinking(w'.phase)
    requires id in w'.t.s.systems && w'.t.s.systems[id] == w.t.s.systems[id] && w'.t.s.configs == w.t.s.configs
    requires forall j :: j in w'.t.s.jobs ==> w'.t.s.jobs[j].system != id
    ensures Blocks(w', id)
  {
  }

  /** The reconciler cannot unlink such a system, and cannot get past it. */
  lemma ReconcileKeepsBlocking(w: World, ok: bool, verdict: Verdict, id: SystemId)
    requires Blocks(w, id)
    ensures Blocks(Reconciled(w, ok, verdict), id)
  {
    assert !UnlinkOne(w.t, id).1;
    OthersKeepBlocking(w, Reconciled(w, ok, verdict), id);
  }

  lemma MoveKeepsBlocking(w: World, m: Move, id: SystemId)
    requires Safe(w) && Blocks(w, id)
    ensures Blocks(Moved(w, m), id)
  {
    match m {
      case Reconcile(ok, verdict) => ReconcileKeepsBlocking(w, ok, verdict, id);
      case SystemJob(step) =>
        if JobStep(step) { JobStepMovesOneJob(w.t.s, step); }
        OthersKeepBlocking(w, Moved(w, m), id);
      case _ => OthersKeepBlocking(w, Moved(w, m), id);
    }
  }

  /** Such a system is refused by every pass, so the tenant is never deleted. */
  lemma {:induction false} BlockingSystemPreventsDeletion(w: World, moves: seq<Move>, id: SystemId)
    requires Safe(w) && AdmissibleRun(w, moves) && Blocks(w, id)
    ensures Blocks(Played(w, moves), id) && !Played(w, moves).phase.Gone?
    decreases |moves|
  {
    if moves != [] {
      MoveKeepsSafe(w, moves[0]);
      MoveKeepsBlocking(w, moves[0], id);
      BlockingSystemPreventsDeletion(Moved(w, moves[0]), moves[1..], id);
    }
  }

  // ---- what the hypotheses are for ----

  const Go := Reconcile(true, NextStep)

  const ThreeCalls := [Go, Go, Go]

  const QuietPass := ThreeCalls + (ThreeCalls + ThreeCalls)

  lemma QuietUnlinking(w: World)
    requires w.phase == Idle && Linked(w.t.s) == {}
    ensures Played(w, ThreeCalls) == w.(phase := CheckUnlinked)
  {
    assert LinkedIdle(w.t.s) <= Linked(w.t.s);
    SelectNone(w.t.systemOrder, LinkedIdle(w.t.s));
    PlayedThree(w, Go, Go, Go);
  }

  lemma QuietDetaching(w: World)
    requires w.phase == CheckUnlinked && Linked(w.t.s) == {} && Undetached(w.t.s) == {}
    ensures Played(w, ThreeCalls) == w.(phase := CheckProcessed)
  {
    assert Unprocessed(w.t.s) <= Undetached(w.t.s);
    SelectNone(w.t.keyOrder, Unprocessed(w.t.s));
    PlayedThree(w, Go, Go, Go);
  }

  /** A pass that finds nothing to do gets as far as the deletion. */
  lemma QuietPassReachesDeletion(w: World)
    requires w.phase == Idle && Linked(w.t.s) == {} && Undetached(w.t.s) == {}
    ensures Played(w, QuietPass) == w.(phase := Deleting)
  {
    QuietUnlinking(w);
    QuietDetaching(w.(phase := CheckUnlinked));
    assert Unprocessed(w.t.s) <= Undetached(w.t.s);
    PlayedThree(w.(phase := CheckProcessed), Go, Go, Go);
    PlayedConcat(w, ThreeCalls, ThreeCalls + ThreeCalls);
    PlayedConcat(w.(phase := CheckUnlinked), ThreeCalls, ThreeCalls);
  }

  lemma PlayedThree(w: World, a: Move, b: Move, c: Move)
    ensures Played(w, [a, b, c]) == Moved(Moved(Moved(w, a), b), c)
  {
    assert [a, b, c][1..] == [b, c] && [b, c][1..] == [c] && [c][1..] == [];
    assert Played(Moved(Moved(w, a), b), [c]) == Moved(Moved(Moved(w, a), b), c);
  }

  lemma {:induction false} PlayedConcat(w: World, a: seq<Move>, b: seq<Move>)
    ensures Played(w, a + b) == Played(Played(w, a), b)
    decreases |a|
  {
    if a == [] {
      assert a + b == b;
    } else {
      assert (a + b)[0] == a[0] && (a + b)[1..] == a[1..] + b;
      PlayedConcat(Moved(w, a[0]), a[1..], b);
    }
  }

  lemma AfterTheLastCheck(w: World, m: Move)
    requires w.phase == Idle && Linked(w.t.s) == {} && Undetached(w.t.s) == {}
    ensures Played(w, QuietPass + [m, Go]) == Moved(Moved(w.(phase := Deleting), m), Go)
  {
    QuietPassReachesDeletion(w);
    PlayedConcat(w, QuietPass, [m, Go]);
    assert [m, Go][1..] == [Go] && [Go][1..] == [];
    assert Played(Moved(w.(phase := Deleting), m), [Go]) == Moved(Moved(w.(phase := Deleting), m), Go);
  }

  /** A link in flight is invisible to every check: its system has no configuration yet. When its
    * handler commits after the last check, the tenant is deleted with a linked system. */
  lemma LinkInFlightOutlivesTheTenant(w: World, j: JobId)
    requires w.phase == Idle && Linked(w.t.s) == {} && Undetached(w.t.s) == {} && j in w.t.s.jobs
    requires var job := w.t.s.jobs[j];
      && job.jobType == SystemLink && job.outcome == Done && job.system in w.t.s.systems
      && job.attempt == Some(Attempt(w.t.s.systems[job.system], true))
      && job.keyTo.Some? && job.keyTo.value in w.t.s.keys
    ensures var w' := Played(w, QuietPass + [SystemJob(CommitHandler(j, true)), Go]);
      w'.phase.Gone? && w.t.s.jobs[j].system in Linked(w'.t.s)
  {
    AfterTheLastCheck(w, SystemJob(CommitHandler(j, true)));
    LinkCommitsAfterTheCheck(w.t.s, j);
  }

  lemma LinkCommitsAfterTheCheck(s: State, j: JobId)
    requires j in s.jobs
    requires var job := s.jobs[j];
      && job.jobType == SystemLink && job.outcome == Done && job.system in s.systems
      && job.attempt.Some? && job.attempt.value.claimed
      && job.keyTo.Some? && job.keyTo.value in s.keys
    ensures s.jobs[j].system in Linked(Next(s, CommitHandler(j, true)))
  {
    var row := s.jobs[j].attempt.value.loaded;
    var config := Some(s.keys[s.jobs[j].keyTo.value].config);
    assert Commit(s, j, true) == Complete(s, j, row.(status := Connected, config := config, target := None));
  }

  /** The key sync may find a Detached key in another state after the last check. */
  lemma KeySyncOutlivesTheTenant(w: World, k: KeyId, state: KeyState)
    requires w.phase == Idle && Linked(w.t.s) == {} && Undetached(w.t.s) == {} && Counts(w.t.s, k)
    requires state != Detached
    ensures var w' := Played(w, QuietPass + [SyncKey(k, state), Go]); w'.phase.Gone? && k in Undetached(w'.t.s)
  {
    AfterTheLastCheck(w, SyncKey(k, state));
  }
}
