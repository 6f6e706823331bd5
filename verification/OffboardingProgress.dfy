/** Offboarding ends: a pass followed by the completion of the outstanding jobs at least halves what
  * is left of the current step. */
module OffboardingProgress {
  import opened Optional
  import opened Systems
  import opened LinkRuns
  import opened Offboarding
  import opened OffboardingRuns
  import opened Tables
  import opened Iteration
  import P = Pagination
  import L = PaginationLaws

  // ---- completing the outstanding jobs ----

  function Busy(s: State): set<SystemId> { set j | j in s.jobs :: s.jobs[j].system }

  function CompletedSystems(s: State): State {
    s.(systems := map id | id in s.systems ::
         if id in Busy(s) then s.systems[id].(status := Disconnected, config := None) else s.systems[id],
       jobs := map[],
       claims := s.claims - Busy(s))
  }

  function CompletedKeys(t: Tenant): Tenant {
    t.(s := t.s.(keys := map k | k in t.s.keys ::
                   if k in t.keyJobs then t.s.keys[k].(state := Detached) else t.s.keys[k]),
       keyJobs := map[])
  }

  /** Every outstanding job has ended without being canceled and its handler has succeeded. */
  function Completed(t: Tenant): Tenant { CompletedKeys(t.(s := CompletedSystems(t.s))) }

  /** A job that is not canceled, and how it ends if it is still running. */
  predicate Ends(job: Outcome, outcome: Outcome) {
    if job == Running then outcome.Done? || outcome.JobFailed? else !job.JobCanceled?
  }

  function AboutToCommit(s: State, j: JobId, outcome: Outcome): Job
    requires j in s.jobs && s.jobs[j].system in s.systems
  {
    var job := s.jobs[j];
    var claimed := if job.attempt.Some? then job.attempt.value.claimed else false;
    job.(outcome := if job.outcome == Running then outcome else job.outcome,
         attempt := Some(Attempt(s.systems[job.system], claimed)))
  }

  lemma HandlerLoads(s: State, j: JobId, outcome: Outcome)
    requires JobsFine(s) && j in s.jobs && Ends(s.jobs[j].outcome, outcome)
    ensures s.jobs[j].system in s.systems
    ensures Next(Next(s, FinishJob(j, outcome)), BeginHandler(j))
            == s.(jobs := s.jobs[j := AboutToCommit(s, j, outcome)])
  {
    assert JobFine(s, j);
    var s1 := Next(s, FinishJob(j, outcome));
    assert s1 == s.(jobs := s.jobs[j := s1.jobs[j]]);
    var s2 := Next(s1, BeginHandler(j));
    assert s2 == s.(jobs := s.jobs[j := s2.jobs[j]]);
  }

  function Decommissioned(s: State, j: JobId): State
    requires j in s.jobs && s.jobs[j].system in s.systems
  {
    var id := s.jobs[j].system;
    s.(systems := s.systems[id := s.systems[id].(status := Disconnected, config := None)],
       jobs := s.jobs - {j}, claims := s.claims - {id})
  }

  lemma HandlerCommits(s: State, j: JobId, outcome: Outcome)
    requires JobsFine(s) && j in s.jobs && Ends(s.jobs[j].outcome, outcome)
    ensures s.jobs[j].system in s.systems
    ensures Commit(s.(jobs := s.jobs[j := AboutToCommit(s, j, outcome)]), j, true) == Decommissioned(s, j)
  {
    assert JobFine(s, j);
    var ready := AboutToCommit(s, j, outcome);
    var s2 := s.(jobs := s.jobs[j := ready]);
    assert Commit(s2, j, true) == CommitDecommission(s2, j, ready, ready.attempt.value.loaded, true);
    assert s2.jobs - {j} == s.jobs - {j};
  }

  lemma SettledDecommission(s: State, j: JobId, outcome: Outcome)
    requires JobsFine(s) && j in s.jobs && Ends(s.jobs[j].outcome, outcome)
    ensures s.jobs[j].system in s.systems && Settle(s, j, outcome) == Decommissioned(s, j)
  {
    RunThree(s, FinishJob(j, outcome), BeginHandler(j), CommitHandler(j, true));
    HandlerLoads(s, j, outcome);
    HandlerCommits(s, j, outcome);
  }

  /** An outstanding job, of a system or of a key. */
  datatype Outstanding = OfSystem(job: JobId) | OfKey(key: KeyId)

  function AllOutstanding(t: Tenant): set<Outstanding> {
    (set j | j in t.s.jobs :: OfSystem(j)) + (set k | k in t.keyJobs :: OfKey(k))
  }

  function OutcomeOf(o: Outstanding, failed: set<Outstanding>): Outcome { if o in failed then JobFailed("") else Done }

  /** The job ends, done or failed, and its handler succeeds. */
  function SettleOne(t: Tenant, o: Outstanding, failed: set<Outstanding>): Tenant {
    match o
    case OfSystem(j) => t.(s := Settle(t.s, j, OutcomeOf(o, failed)))
    case OfKey(k) => KeyJobMoved(KeyJobMoved(t, FinishKeyJob(k, OutcomeOf(o, failed))), HandleKeyJob(k, true))
  }

  function SettleAll(t: Tenant, order: seq<Outstanding>, failed: set<Outstanding>): Tenant
    decreases |order|
  {
    if order == [] then t else SettleAll(SettleOne(t, order[0], failed), order[1..], failed)
  }

  predicate NoneCanceled(t: Tenant) {
    && (forall j :: j in t.s.jobs ==> !t.s.jobs[j].outcome.JobCanceled?)
    && (forall k :: k in t.keyJobs ==> !t.keyJobs[k].JobCanceled?)
  }

  lemma RestIsListed<T>(order: seq<T>, rows: set<T>)
    requires Lists(order, rows) && order != []
    ensures order[0] in rows && Lists(order[1..], rows - {order[0]})
  {
    assert order[0] in Elements(order);
    assert order == [order[0]] + order[1..] && order[0] !in order[1..];
    assert Elements(order[1..]) == rows - {order[0]};
  }

  lemma CompletedOneByOne(s: State, j: JobId)
    requires JobsFine(s) && j in s.jobs && s.jobs[j].system in s.systems
    ensures CompletedSystems(Decommissioned(s, j)) == CompletedSystems(s)
  {
    var s1, id := Decommissioned(s, j), s.jobs[j].system;
    assert Busy(s) == Busy(s1) + {id} by {
      forall i | i in Busy(s) && i != id ensures i in Busy(s1) {
        var k :| k in s.jobs && s.jobs[k].system == i;
        assert k in s1.jobs && s1.jobs[k].system == i;
      }
    }
    assert id !in Busy(s1);
    assert CompletedSystems(s1).systems == CompletedSystems(s).systems;
  }

  function Detach(t: Tenant, k: KeyId): Tenant
    requires k in t.s.keys
  {
    SetKey(t, k, Detached).(keyJobs := t.keyJobs - {k})
  }

  lemma SettledKey(t: Tenant, k: KeyId, failed: set<Outstanding>)
    requires k in t.keyJobs && k in t.s.keys && !t.keyJobs[k].JobCanceled?
    ensures SettleOne(t, OfKey(k), failed) == Detach(t, k)
  {
    var ended := KeyJobMoved(t, FinishKeyJob(k, OutcomeOf(OfKey(k), failed)));
    assert ended.keyJobs - {k} == t.keyJobs - {k};
  }

  /** Only jobs that can end well. */
  ghost predicate Endable(t: Tenant) { JobsFine(t.s) && KeyJobsFine(t) && NoneCanceled(t) }

  /** One job more or less makes no difference to what completion leads to. */
  lemma SystemJobSettles(t: Tenant, j: JobId, failed: set<Outstanding>)
    requires Endable(t) && j in t.s.jobs
    ensures var t1 := SettleOne(t, OfSystem(j), failed);
      Endable(t1) && AllOutstanding(t1) == AllOutstanding(t) - {OfSystem(j)} && Completed(t1) == Completed(t)
  {
    SettledDecommission(t.s, j, OutcomeOf(OfSystem(j), failed));
    var s1 := Decommissioned(t.s, j);
    OneJobMoved(t.s, s1, j);
    CompletedOneByOne(t.s, j);
    forall k | k in t.keyJobs ensures KeyJobFine(t.(s := s1), k) { assert KeyJobFine(t, k); }
    OneLessOutstanding(t, s1, j);
    assert Completed(t.(s := s1)) == CompletedKeys(t.(s := CompletedSystems(s1)));
  }

  lemma OneLessOutstanding(t: Tenant, s1: State, j: JobId)
    requires j in t.s.jobs && s1.jobs == t.s.jobs - {j}
    ensures AllOutstanding(t.(s := s1)) == AllOutstanding(t) - {OfSystem(j)}
  {
  }

  lemma KeyJobSettles(t: Tenant, k: KeyId, failed: set<Outstanding>)
    requires Endable(t) && k in t.keyJobs
    ensures var t1 := SettleOne(t, OfKey(k), failed);
      Endable(t1) && AllOutstanding(t1) == AllOutstanding(t) - {OfKey(k)} && Completed(t1) == Completed(t)
  {
    assert KeyJobFine(t, k);
    SettledKey(t, k, failed);
    var t1 := Detach(t, k);
    forall i | i in t1.keyJobs ensures KeyJobFine(t1, i) { assert KeyJobFine(t, i); }
    forall j | j in t1.s.jobs ensures JobFine(t1.s, j) { assert JobFine(t.s, j); }
    assert Completed(t1).s.systems == Completed(t).s.systems && Completed(t1).s.keys == Completed(t).s.keys;
  }

  lemma NothingOutstanding(t: Tenant)
    requires AllOutstanding(t) == {}
    ensures Completed(t) == t
  {
    assert forall j :: j in t.s.jobs ==> OfSystem(j) in AllOutstanding(t);
    assert forall k :: k in t.keyJobs ==> OfKey(k) in AllOutstanding(t);
    assert t.s.jobs == map[] && t.keyJobs == map[];
    assert Completed(t).s.systems == t.s.systems && Completed(t).s.keys == t.s.keys;
  }

  /** In whatever order the jobs of systems and keys end, and whether each is done or failed, the result is the same. */
  lemma {:induction false} AnyOrderCompletes(t: Tenant, order: seq<Outstanding>, failed: set<Outstanding>)
    requires Endable(t) && Lists(order, AllOutstanding(t))
    ensures SettleAll(t, order, failed) == Completed(t)
    decreases |order|
  {
    if order == [] {
      NothingOutstanding(t);
    } else {
      RestIsListed(order, AllOutstanding(t));
      match order[0] {
        case OfSystem(j) => SystemJobSettles(t, j, failed);
        case OfKey(k) => KeyJobSettles(t, k, failed);
      }
      AnyOrderCompletes(SettleOne(t, order[0], failed), order[1..], failed);
    }
  }

  // ---- what is left ----

  /** Whatever was idle is left, and nothing is in flight. */
  lemma CompletedLeavesTheIdle(t: Tenant)
    requires JobsFine(t.s) && NothingLost(t)
    ensures Linked(Completed(t).s) == LinkedIdle(Completed(t).s) == LinkedIdle(t.s)
    ensures Undetached(Completed(t).s) == Unprocessed(Completed(t).s) <= Unprocessed(t.s)
  {
    var s, s' := t.s, Completed(t).s;
    forall id | id in s.systems ensures id in LinkedIdle(s) <==> id in Linked(s') {
      if id in Busy(s) {
        var j :| j in s.jobs && s.jobs[j].system == id;
        assert JobFine(s, j);
      } else if id in Linked(s) {
        assert !HasJob(s, id);
      }
    }
    assert Linked(s') == LinkedIdle(s);
    forall id | id in Linked(s') ensures id in LinkedIdle(s') { assert id !in Busy(s); }
    forall k | k in Undetached(s') ensures k in Unprocessed(s') && k in Unprocessed(s) {
      assert k !in t.keyJobs && k in Undetached(s);
    }
  }

  // ---- a pass that meets no obstacle ----

  predicate IdleHavePrimary(s: State) { forall id :: id in LinkedIdle(s) ==> HasPrimary(s, id) }

  /** Every idle linked system's configuration has a primary key, nobody is refused a job, the registry
    * unmaps, no job was canceled, and nothing has been lost. */
  ghost predicate Cooperative(t: Tenant) {
    && Lists(t.systemOrder, t.s.systems.Keys) && Lists(t.keyOrder, t.s.keys.Keys)
    && t.refusing == {} && t.keysRefusing == {}
    && IdleHavePrimary(t.s)
    && (forall id :: id in t.s.systems ==> Judge(AnswerFor(t, id)) == NextStep)
    && JobsFine(t.s) && KeyJobsFine(t) && NothingLost(t) && NoneCanceled(t)
  }

  lemma {:induction false} UnlinkEffect(t: Tenant, ids: seq<SystemId>)
    requires UnlinkSeq(t, ids).1
    ensures var t' := UnlinkSeq(t, ids).0;
      && t' == t.(s := t'.s) && t'.s.keys == t.s.keys && t'.s.configs == t.s.configs
      && LinkedIdle(t'.s) == LinkedIdle(t.s) - Elements(ids) && Linked(t'.s) == Linked(t.s)
    decreases |ids|
  {
    if ids != [] {
      var t1 := UnlinkOne(t, ids[0]).0;
      assert LinkedIdle(t1.s) == LinkedIdle(t.s) - {ids[0]} && Linked(t1.s) == Linked(t.s);
      UnlinkEffect(t1, ids[1..]);
      assert Elements(ids) == {ids[0]} + Elements(ids[1..]);
    }
  }

  lemma UnlinkOneSucceeds(t: Tenant, id: SystemId)
    requires IdleHavePrimary(t.s) && id in LinkedIdle(t.s) && id !in t.refusing
    ensures var (t', ok) := UnlinkOne(t, id);
      && ok && IdleHavePrimary(t'.s) && LinkedIdle(t'.s) == LinkedIdle(t.s) - {id}
      && t' == t.(s := t'.s) && t'.s.systems.Keys == t.s.systems.Keys && t'.s.keys == t.s.keys
      && t'.s.jobs == t.s.jobs[t.s.nextJob := t'.s.jobs[t.s.nextJob]] && t'.s.jobs[t.s.nextJob].outcome == Running
  {
    assert HasPrimary(t.s, id);
    var t' := UnlinkOne(t, id).0;
    forall i | i in LinkedIdle(t'.s) ensures HasPrimary(t'.s, i) { assert i in LinkedIdle(t.s) && HasPrimary(t.s, i); }
  }

  lemma UnlinkOneCooperates(t: Tenant, id: SystemId)
    requires Cooperative(t) && id in LinkedIdle(t.s)
    ensures UnlinkOne(t, id).1 && Cooperative(UnlinkOne(t, id).0)
    ensures LinkedIdle(UnlinkOne(t, id).0.s) == LinkedIdle(t.s) - {id}
  {
    var t' := UnlinkOne(t, id).0;
    UnlinkOneSucceeds(t, id);
    UnlinkKeepsJobsFine(t, id);
    UnlinkLosesNothing(t, id);
    assert forall k :: k in t.keyJobs ==> KeyJobFine(t, k);
    assert forall i :: AnswerFor(t', i) == AnswerFor(t, i);
  }

  lemma {:induction false} UnlinkBatchCooperates(t: Tenant, ids: seq<SystemId>)
    requires Cooperative(t) && NoDuplicates(ids) && forall i :: 0 <= i < |ids| ==> ids[i] in LinkedIdle(t.s)
    ensures UnlinkSeq(t, ids).1 && Cooperative(UnlinkSeq(t, ids).0)
    decreases |ids|
  {
    if ids != [] {
      UnlinkOneCooperates(t, ids[0]);
      UnlinkBatchCooperates(UnlinkOne(t, ids[0]).0, ids[1..]);
    }
  }

  lemma UnlinkPageLeaves(t: Tenant, offset: nat)
    requires Cooperative(t) && offset <= |UnlinkRows(t)|
    ensures var call := UnlinkCall(L.AlwaysOk, L.AlwaysOk);
      && call.Accepts(t, offset) && Cooperative(call.After(t, offset))
      && call.query(call.After(t, offset))
         == call.query(t)[..offset] + call.query(t)[offset + |call.PageAt(t, offset)|..]
  {
    var call, page := UnlinkCall(L.AlwaysOk, L.AlwaysOk), P.Page(UnlinkRows(t), offset, P.DefaultLimit);
    assert call.After(t, offset) == UnlinkSeq(t, page).0 && call.Accepts(t, offset) == UnlinkSeq(t, page).1;
    UnlinkPage(t, offset);
  }

  lemma UnlinkCallLeaves()
    ensures var call := UnlinkCall(L.AlwaysOk, L.AlwaysOk);
      call.Stops() && L.Healthy(call) && L.Leaves(call, Cooperative)
  {
    var call := UnlinkCall(L.AlwaysOk, L.AlwaysOk);
    UnlinkCallStops(L.AlwaysOk, L.AlwaysOk);
    forall t: Tenant, offset: nat | Cooperative(t) && offset <= |call.query(t)|
      ensures call.Accepts(t, offset) && Cooperative(call.After(t, offset))
      ensures call.query(call.After(t, offset))
              == call.query(t)[..offset] + call.query(t)[offset + |call.PageAt(t, offset)|..]
    {
      UnlinkPageLeaves(t, offset);
    }
  }

  lemma UnlinkPage(t: Tenant, offset: nat)
    requires Cooperative(t) && offset <= |UnlinkRows(t)|
    ensures var page := P.Page(UnlinkRows(t), offset, P.DefaultLimit); var (t', ok) := UnlinkSeq(t, page);
      && ok && Cooperative(t') && Linked(t'.s) == Linked(t.s) && t'.s.keys == t.s.keys && t'.s.configs == t.s.configs
      && UnlinkRows(t') == UnlinkRows(t)[..offset] + UnlinkRows(t)[offset + |page|..]
  {
    var rows, idle := UnlinkRows(t), LinkedIdle(t.s);
    var page := P.Page(rows, offset, P.DefaultLimit);
    L.PageCuts(rows, offset, P.DefaultLimit);
    SelectMembers(t.systemOrder, idle);
    assert page == rows[offset..offset + |page|];
    UnlinkBatchCooperates(t, page);
    UnlinkEffect(t, page);
    SelectCut(t.systemOrder, idle, LinkedIdle(UnlinkSeq(t, page).0.s), offset, offset + |page|);
  }

  lemma {:induction false} DetachEffect(t: Tenant, ids: seq<KeyId>)
    requires DetachSeq(t, ids).1
    ensures var t' := DetachSeq(t, ids).0;
      && t'.s == t.s.(keys := t'.s.keys) && t' == t.(s := t'.s, keyJobs := t'.keyJobs)
      && Unprocessed(t'.s) == Unprocessed(t.s) - Elements(ids)
      && (NoDuplicates(ids) && (forall i :: 0 <= i < |ids| ==> ids[i] in Unprocessed(t.s)) ==>
            Undetached(t'.s) == Undetached(t.s))
    decreases |ids|
  {
    if ids != [] {
      var t1 := DetachOne(t, ids[0]).0;
      assert Unprocessed(t1.s) == Unprocessed(t.s) - {ids[0]};
      assert ids[0] in Unprocessed(t.s) ==> Undetached(t1.s) == Undetached(t.s);
      DetachEffect(t1, ids[1..]);
      assert Elements(ids) == {ids[0]} + Elements(ids[1..]);
    }
  }

  lemma DetachOneCooperates(t: Tenant, k: KeyId)
    requires Cooperative(t) && k in Unprocessed(t.s)
    ensures DetachOne(t, k).1 && Cooperative(DetachOne(t, k).0)
    ensures Unprocessed(DetachOne(t, k).0.s) == Unprocessed(t.s) - {k}
  {
    var t' := DetachOne(t, k).0;
    DetachLosesNothing(t, k);
    forall i | i in t'.keyJobs ensures KeyJobFine(t', i) { if i in t.keyJobs { assert KeyJobFine(t, i); } }
    assert forall i :: i in LinkedIdle(t'.s) ==> i in LinkedIdle(t.s) && HasPrimary(t.s, i) && HasPrimary(t'.s, i);
    assert forall i :: AnswerFor(t', i) == AnswerFor(t, i);
    assert t'.s.keys.Keys == t.s.keys.Keys;
    forall j | j in t'.s.jobs ensures JobFine(t'.s, j) { assert JobFine(t.s, j); }
  }

  lemma {:induction false} DetachBatchCooperates(t: Tenant, ids: seq<KeyId>)
    requires Cooperative(t) && NoDuplicates(ids) && forall i :: 0 <= i < |ids| ==> ids[i] in Unprocessed(t.s)
    ensures DetachSeq(t, ids).1 && Cooperative(DetachSeq(t, ids).0)
    decreases |ids|
  {
    if ids != [] {
      DetachOneCooperates(t, ids[0]);
      DetachBatchCooperates(DetachOne(t, ids[0]).0, ids[1..]);
    }
  }

  lemma DetachPage(t: Tenant, offset: nat)
    requires Cooperative(t) && offset <= |DetachRows(t)|
    ensures var page := P.Page(DetachRows(t), offset, P.DefaultLimit); var (t', ok) := DetachSeq(t, page);
      && ok && Cooperative(t') && Undetached(t'.s) == Undetached(t.s) && Linked(t'.s) == Linked(t.s)
      && DetachRows(t') == DetachRows(t)[..offset] + DetachRows(t)[offset + |page|..]
  {
    var rows, remaining := DetachRows(t), Unprocessed(t.s);
    var page := P.Page(rows, offset, P.DefaultLimit);
    L.PageCuts(rows, offset, P.DefaultLimit);
    SelectMembers(t.keyOrder, remaining);
    assert page == rows[offset..offset + |page|];
    DetachBatchCooperates(t, page);
    DetachEffect(t, page);
    SelectCut(t.keyOrder, remaining, Unprocessed(DetachSeq(t, page).0.s), offset, offset + |page|);
  }

  lemma DetachPageLeaves(t: Tenant, offset: nat)
    requires Cooperative(t) && offset <= |DetachRows(t)|
    ensures var call := DetachCall(L.AlwaysOk, L.AlwaysOk);
      && call.Accepts(t, offset) && Cooperative(call.After(t, offset))
      && call.query(call.After(t, offset))
         == call.query(t)[..offset] + call.query(t)[offset + |call.PageAt(t, offset)|..]
  {
    var call, page := DetachCall(L.AlwaysOk, L.AlwaysOk), P.Page(DetachRows(t), offset, P.DefaultLimit);
    assert call.After(t, offset) == DetachSeq(t, page).0 && call.Accepts(t, offset) == DetachSeq(t, page).1;
    DetachPage(t, offset);
  }

  lemma DetachCallLeaves()
    ensures var call := DetachCall(L.AlwaysOk, L.AlwaysOk);
      call.Stops() && L.Healthy(call) && L.Leaves(call, Cooperative)
  {
    var call := DetachCall(L.AlwaysOk, L.AlwaysOk);
    DetachCallStops(L.AlwaysOk, L.AlwaysOk);
    forall t: Tenant, offset: nat | Cooperative(t) && offset <= |call.query(t)|
      ensures call.Accepts(t, offset) && Cooperative(call.After(t, offset))
      ensures call.query(call.After(t, offset))
              == call.query(t)[..offset] + call.query(t)[offset + |call.PageAt(t, offset)|..]
    {
      DetachPageLeaves(t, offset);
    }
  }

  const Answering := Store(L.AlwaysOk, L.AlwaysOk, true, L.AlwaysOk, L.AlwaysOk, true, L.AlwaysOk, L.AlwaysOk, true)

  lemma {:induction false} UnlinkPassKeepsLinked(t: Tenant, offset: nat, round: nat)
    requires Cooperative(t) && offset <= |UnlinkRows(t)| && UnlinkCall(L.AlwaysOk, L.AlwaysOk).Stops()
    ensures var s := P.PassFrom(UnlinkCall(L.AlwaysOk, L.AlwaysOk), t, offset, round, false).db.s;
      Linked(s) == Linked(t.s) && s.keys == t.s.keys && s.configs == t.s.configs
    decreases |UnlinkRows(t)| - offset
  {
    var call := UnlinkCall(L.AlwaysOk, L.AlwaysOk);
    UnlinkPage(t, offset);
    if call.EndingAt(t, offset, round).Continues? {
      UnlinkPassKeepsLinked(call.After(t, offset), offset + call.size, round + 1);
    }
  }

  lemma {:induction false} DetachPassKeepsUndetached(t: Tenant, offset: nat, round: nat)
    requires Cooperative(t) && offset <= |DetachRows(t)| && DetachCall(L.AlwaysOk, L.AlwaysOk).Stops()
    ensures var t' := P.PassFrom(DetachCall(L.AlwaysOk, L.AlwaysOk), t, offset, round, false).db;
      Undetached(t'.s) == Undetached(t.s) && Linked(t'.s) == Linked(t.s)
    decreases |DetachRows(t)| - offset
  {
    var call := DetachCall(L.AlwaysOk, L.AlwaysOk);
    DetachPage(t, offset);
    if call.EndingAt(t, offset, round).Continues? {
      DetachPassKeepsUndetached(call.After(t, offset), offset + call.size, round + 1);
    }
  }

  /** The unlink step starts a job for at least half of the idle systems. */
  lemma UnlinkPassHalves(t: Tenant)
    requires Cooperative(t)
    ensures var pass := UnlinkPass(t, Answering);
      && pass.ending.Finished? && Cooperative(pass.db) && Linked(pass.db.s) == Linked(t.s)
      && pass.db.s.keys == t.s.keys && pass.db.s.configs == t.s.configs
      && |LinkedIdle(pass.db.s)| <= |LinkedIdle(t.s)| / 2
  {
    var call, rows := UnlinkCall(L.AlwaysOk, L.AlwaysOk), UnlinkRows(t);
    UnlinkCallLeaves();
    L.LeavingPassVisitsEvenBlocks(call, Cooperative, t);
    UnlinkPassKeepsLinked(t, 0, 0);
    L.OddBlocksAreAtMostHalf(rows, P.DefaultLimit);
    SelectCount(t.systemOrder, LinkedIdle(t.s));
    var t' := UnlinkPass(t, Answering).db;
    SelectCount(t'.systemOrder, LinkedIdle(t'.s));
  }

  lemma DetachPassHalves(t: Tenant)
    requires Cooperative(t)
    ensures var pass := DetachPass(t, Answering);
      && pass.ending.Finished? && Cooperative(pass.db)
      && Undetached(pass.db.s) == Undetached(t.s) && Linked(pass.db.s) == Linked(t.s)
      && |Unprocessed(pass.db.s)| <= |Unprocessed(t.s)| / 2
  {
    var call, rows := DetachCall(L.AlwaysOk, L.AlwaysOk), DetachRows(t);
    DetachCallLeaves();
    L.LeavingPassVisitsEvenBlocks(call, Cooperative, t);
    DetachPassKeepsUndetached(t, 0, 0);
    L.OddBlocksAreAtMostHalf(rows, P.DefaultLimit);
    SelectCount(t.keyOrder, Unprocessed(t.s));
    var t' := DetachPass(t, Answering).db;
    SelectCount(t'.keyOrder, Unprocessed(t'.s));
  }

  lemma UnmappingContinues(t: Tenant)
    requires Cooperative(t)
    ensures UnmapVerdict(t, Answering) == NextStep
  {
    UnmapCallIsSteady(L.AlwaysOk, L.AlwaysOk);
    UnmapPassIsOneLoop(t.(worst := NextStep), L.AlwaysOk, L.AlwaysOk, 0, 0);
    L.HealthyPassEnds(UnmapCall(L.AlwaysOk, L.AlwaysOk), t.(worst := NextStep), 0, 0, false);
    UnmapVerdictIsTheWorstAnswer(t, Answering);
  }

  // ---- rounds ----

  /** One pass, and then every outstanding job ends without being canceled. */
  ghost function Round(t: Tenant): (Tenant, Result) {
    var (t', result) := Offboarded(t, Answering);
    (Completed(t'), result)
  }

  lemma IdleIsLinked(s: State)
    ensures LinkedIdle(s) <= Linked(s) && |LinkedIdle(s)| <= |Linked(s)|
    ensures Unprocessed(s) <= Undetached(s) && |Unprocessed(s)| <= |Undetached(s)|
  {
    FewerInSubset(LinkedIdle(s), Linked(s));
    FewerInSubset(Unprocessed(s), Undetached(s));
  }

  lemma CompletedCooperates(t: Tenant)
    requires Cooperative(t)
    ensures Cooperative(Completed(t))
  {
    var t' := Completed(t);
    CompletedLeavesTheIdle(t);
    assert t'.s.systems.Keys == t.s.systems.Keys && t'.s.keys.Keys == t.s.keys.Keys;
    assert forall i :: AnswerFor(t', i) == AnswerFor(t, i);
    forall id | id in Linked(t'.s) ensures id in Linked(t.s) && t'.s.systems[id].config == t.s.systems[id].config {
      assert id in LinkedIdle(t.s);
    }
  }

  /** What the completion of all jobs leaves to do. */
  lemma CompletedIsAtRest(t: Tenant)
    requires Cooperative(t)
    ensures var s := Completed(t).s;
      && Cooperative(Completed(t)) && Linked(s) == LinkedIdle(s) == LinkedIdle(t.s) && Undetached(s) == Unprocessed(s)
      && |Undetached(s)| <= |Unprocessed(t.s)| <= |Undetached(t.s)|
  {
    CompletedLeavesTheIdle(t);
    CompletedCooperates(t);
    IdleIsLinked(t.s);
    FewerInSubset(Undetached(Completed(t).s), Unprocessed(t.s));
  }

  lemma LinkedRound(t: Tenant)
    requires Cooperative(t) && Linked(t.s) != {}
    ensures var (t', result) := Round(t);
      && result == Verdict(Wait) && Cooperative(t') && |Linked(t'.s)| <= |LinkedIdle(t.s)| / 2
      && Linked(t'.s) == LinkedIdle(t'.s) && |Undetached(t'.s)| <= |Undetached(t.s)|
  {
    UnlinkPassHalves(t);
    var u := UnlinkPass(t, Answering).db;
    assert Undetached(u.s) == Undetached(t.s);
    CompletedIsAtRest(u);
    assert Round(t) == (Completed(u), Verdict(Wait));
  }

  /** With no linked system the unlink step does nothing. */
  lemma NothingToUnlink(t: Tenant)
    requires Cooperative(t) && Linked(t.s) == {}
    ensures UnlinkPass(t, Answering).db == t && UnlinkPass(t, Answering).ending.Finished?
  {
    IdleIsLinked(t.s);
    SelectNone(t.systemOrder, LinkedIdle(t.s));
    UnlinkCallStops(L.AlwaysOk, L.AlwaysOk);
  }

  lemma UnlinkedRound(t: Tenant)
    requires Cooperative(t) && Linked(t.s) == {}
    ensures var (t', result) := Round(t);
      && Cooperative(t') && Linked(t'.s) == {} && |Undetached(t'.s)| <= |Unprocessed(t.s)| / 2
      && Undetached(t'.s) == Unprocessed(t'.s)
      && result == Verdict(if Undetached(t.s) == {} then Success else Wait)
  {
    NothingToUnlink(t);
    DetachPassHalves(t);
    var reached := DetachPass(t, Answering).db;
    UnmappingContinues(reached);
    IdleIsLinked(reached.s);
    CompletedIsAtRest(reached);
  }

  /** The pairs of counts a round works on, most significant first. */
  function Measure(t: Tenant): (nat, nat, nat, nat) {
    (|LinkedIdle(t.s)|, |Linked(t.s)|, |Unprocessed(t.s)|, |Undetached(t.s)|)
  }

  predicate Lower(a: (nat, nat, nat, nat), b: (nat, nat, nat, nat)) {
    || a.0 < b.0
    || (a.0 == b.0 && a.1 < b.1)
    || (a.0 == b.0 && a.1 == b.1 && a.2 < b.2)
    || (a.0 == b.0 && a.1 == b.1 && a.2 == b.2 && a.3 < b.3)
  }

  /** From any cooperative state, with jobs in flight or not: a round that is not yet a success lowers
    * the measure, and a success leaves nothing linked and nothing undetached. */
  lemma RoundLowersTheMeasure(t: Tenant)
    requires Cooperative(t)
    ensures var (t', result) := Round(t);
      && Cooperative(t')
      && (result == Verdict(Success) <==> Linked(t.s) == {} && Undetached(t.s) == {})
      && (result != Verdict(Success) ==> result == Verdict(Wait) && Lower(Measure(t'), Measure(t)))
  {
    IdleIsLinked(t.s);
    if Linked(t.s) != {} {
      LinkedRound(t);
    } else {
      UnlinkedRound(t);
      IdleIsLinked(Round(t).0.s);
    }
  }

  function BitsLeft(t: Tenant): nat { L.Bits(|Linked(t.s)|) + L.Bits(|Undetached(t.s)|) }

  ghost function NextRound(t: Tenant): Tenant { Round(t).0 }

  ghost predicate Succeeds(t: Tenant) { Round(t).1 == Verdict(Success) }

  lemma RoundShortensWhatIsLeft(t: Tenant)
    requires Cooperative(t) && !Succeeds(t)
    ensures Cooperative(NextRound(t)) && BitsLeft(NextRound(t)) < BitsLeft(t)
  {
    IdleIsLinked(t.s);
    if Linked(t.s) != {} {
      LinkedRound(t);
      L.BitsMonotone(|Linked(Round(t).0.s)|, |Linked(t.s)| / 2);
      L.BitsMonotone(|Undetached(Round(t).0.s)|, |Undetached(t.s)|);
    } else {
      UnlinkedRound(t);
      L.BitsMonotone(|Undetached(Round(t).0.s)|, |Undetached(t.s)| / 2);
    }
  }

  /** From any cooperative state offboarding succeeds in round n + 1, where n is at most
    * (floor(log2 linked) + 1) + (floor(log2 undetached) + 1), each term 0 when there is none. */
  lemma OffboardingEnds(t: Tenant) returns (n: nat)
    requires Cooperative(t)
    ensures n <= L.Bits(|Linked(t.s)|) + L.Bits(|Undetached(t.s)|)
    ensures Succeeds(Iterate(NextRound, t, n))
    ensures forall i :: 0 <= i < n ==> !Succeeds(Iterate(NextRound, t, i))
  {
    forall x: Tenant | Cooperative(x) && !Succeeds(x)
      ensures Cooperative(NextRound(x)) && BitsLeft(NextRound(x)) < BitsLeft(x)
    {
      RoundShortensWhatIsLeft(x);
    }
    n := ReachesGoal(NextRound, Succeeds, Cooperative, BitsLeft, t);
  }
}
