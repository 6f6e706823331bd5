/** One pass of tenant offboarding (internal/manager/tenant.go): unlink every linked system, detach the
  * keys, unmap the systems in the registry, and say whether the tenant can be deleted. */
module Offboarding {
  import opened Systems
  import opened Tables
  import P = Pagination
  import L = PaginationLaws

  datatype Verdict = NextStep | Wait | GiveUp | Success

  datatype Code = FailedPrecondition | NotFound | InvalidArgument | OtherCode

  /** The registry's answer to one unmap call. */
  datatype Answer = Unmapped | Error(code: Code, message: string)

  /** What a pass works on: the tables and jobs, the tables' row orders, the jobs of keys (orbital keeps
    * at most one per key), who is refused a job, the registry's answers, and the worst one so far. */
  datatype Tenant = Tenant(
    s: State, keyJobs: map<KeyId, Outcome>, systemOrder: seq<SystemId>, keyOrder: seq<KeyId>,
    refusing: set<SystemId>, keysRefusing: set<KeyId>, answers: map<SystemId, Answer>, worst: Verdict)

  // ---- step 1: decommission every linked system that is not already Processing ----

  function Linked(s: State): set<SystemId> { set id | id in s.systems && s.systems[id].config.Some? }

  function LinkedIdle(s: State): set<SystemId> {
    set id | id in s.systems && s.systems[id].config.Some? && s.systems[id].status != Processing
  }

  /** The key configuration of a linked system has a primary key. */
  predicate HasPrimary(s: State, id: SystemId)
    requires id in s.systems && s.systems[id].config.Some?
  {
    s.systems[id].config.value in s.configs && s.configs[s.systems[id].config.value].primary.Some?
  }

  function UnlinkRows(t: Tenant): seq<SystemId> { Select(t.systemOrder, LinkedIdle(t.s)) }

  function UnlinkOne(t: Tenant, id: SystemId): (Tenant, bool) {
    var (s, reply) := Unlink(t.s, id, true, true, id !in t.refusing, false);
    (t.(s := s), reply.Accepted?)
  }

  function UnlinkSeq(t: Tenant, ids: seq<SystemId>): (Tenant, bool)
    decreases |ids|
  {
    if ids == [] then (t, true)
    else if UnlinkOne(t, ids[0]).1 then UnlinkSeq(UnlinkOne(t, ids[0]).0, ids[1..])
    else (t, false)
  }

  function UnlinkCall(listOk: nat -> bool, countOk: nat -> bool): P.Call<Tenant, SystemId> {
    P.Call(UnlinkRows, UnlinkSeq, P.DefaultLimit, P.Normal, listOk, countOk)
  }

  lemma {:induction false} UnlinkNeverAddsRows(t: Tenant, ids: seq<SystemId>)
    ensures var t' := UnlinkSeq(t, ids).0;
      LinkedIdle(t'.s) <= LinkedIdle(t.s) && t'.systemOrder == t.systemOrder && |UnlinkRows(t')| <= |UnlinkRows(t)|
    decreases |ids|
  {
    if ids != [] && UnlinkOne(t, ids[0]).1 {
      var t1 := UnlinkOne(t, ids[0]).0;
      UnlinkNeverAddsRows(t1, ids[1..]);
      SelectFewer(t.systemOrder, LinkedIdle(t1.s), LinkedIdle(t.s));
    }
  }

  lemma UnlinkCallStops(listOk: nat -> bool, countOk: nat -> bool)
    ensures UnlinkCall(listOk, countOk).Stops()
  {
    var call := UnlinkCall(listOk, countOk);
    forall t: Tenant, offset: nat ensures |call.query(call.After(t, offset))| <= |call.query(t)| {
      UnlinkNeverAddsRows(t, call.PageAt(t, offset));
    }
  }

  // ---- step 2: detach every key of a configuration that has a primary key ----

  predicate Counts(s: State, k: KeyId) {
    k in s.keys && s.keys[k].config in s.configs && s.configs[s.keys[k].config].primary.Some?
  }

  function Undetached(s: State): set<KeyId> { set k | k in s.keys && Counts(s, k) && s.keys[k].state != Detached }

  function Unprocessed(s: State): set<KeyId> {
    set k | k in s.keys && Counts(s, k) && s.keys[k].state != Detached && s.keys[k].state != Detaching
  }

  function DetachRows(t: Tenant): seq<KeyId> { Select(t.keyOrder, Unprocessed(t.s)) }

  /** KeyManager.Detach: a detach job that already exists is not an error. */
  function DetachOne(t: Tenant, k: KeyId): (Tenant, bool) {
    if k !in t.s.keys || k in t.keysRefusing then (t, false)
    else (t.(s := t.s.(keys := t.s.keys[k := t.s.keys[k].(state := Detaching)]),
             keyJobs := if k in t.keyJobs then t.keyJobs else t.keyJobs[k := Running]), true)
  }

  function DetachSeq(t: Tenant, ids: seq<KeyId>): (Tenant, bool)
    decreases |ids|
  {
    if ids == [] then (t, true)
    else if DetachOne(t, ids[0]).1 then DetachSeq(DetachOne(t, ids[0]).0, ids[1..])
    else (t, false)
  }

  function DetachCall(listOk: nat -> bool, countOk: nat -> bool): P.Call<Tenant, KeyId> {
    P.Call(DetachRows, DetachSeq, P.DefaultLimit, P.Normal, listOk, countOk)
  }

  lemma {:induction false} DetachNeverAddsRows(t: Tenant, ids: seq<KeyId>)
    ensures var t' := DetachSeq(t, ids).0;
      Unprocessed(t'.s) <= Unprocessed(t.s) && t'.keyOrder == t.keyOrder && |DetachRows(t')| <= |DetachRows(t)|
    decreases |ids|
  {
    if ids != [] && DetachOne(t, ids[0]).1 {
      var t1 := DetachOne(t, ids[0]).0;
      DetachNeverAddsRows(t1, ids[1..]);
      SelectFewer(t.keyOrder, Unprocessed(t1.s), Unprocessed(t.s));
    }
  }

  lemma DetachCallStops(listOk: nat -> bool, countOk: nat -> bool)
    ensures DetachCall(listOk, countOk).Stops()
  {
    var call := DetachCall(listOk, countOk);
    forall t: Tenant, offset: nat ensures |call.query(call.After(t, offset))| <= |call.query(t)| {
      DetachNeverAddsRows(t, call.PageAt(t, offset));
    }
  }

  // ---- step 3: unmap every system in the registry ----

  predicate Contains(text: string, part: string) {
    part <= text || (text != "" && Contains(text[1..], part))
  }

  /** unmapSystemErrorCanContinue */
  function Judge(answer: Answer): Verdict {
    match answer
    case Unmapped => NextStep
    case Error(code, message) =>
      if code == FailedPrecondition && Contains(message, "system is not linked to the tenant") then NextStep
      else if code == NotFound && Contains(message, "system not found") then NextStep
      else if code == InvalidArgument then GiveUp
      else Wait
  }

  /** escalateOffboardingStatus */
  function Escalate(current: Verdict, target: Verdict): Verdict {
    if current == GiveUp || target == GiveUp then GiveUp
    else if current == Wait || target == Wait then Wait
    else NextStep
  }

  function AnswerFor(t: Tenant, id: SystemId): Answer { if id in t.answers then t.answers[id] else Unmapped }

  function UnmapRows(t: Tenant): seq<SystemId> { Select(t.systemOrder, t.s.systems.Keys) }

  function UnmapSeq(t: Tenant, ids: seq<SystemId>): (Tenant, bool)
    decreases |ids|
  {
    if ids == [] then (t, true)
    else UnmapSeq(t.(worst := Escalate(t.worst, Judge(AnswerFor(t, ids[0])))), ids[1..])
  }

  function UnmapCall(listOk: nat -> bool, countOk: nat -> bool): P.Call<Tenant, SystemId> {
    P.Call(UnmapRows, UnmapSeq, P.DefaultLimit, P.Normal, listOk, countOk)
  }

  ghost predicate Answered(t: Tenant, ids: seq<SystemId>, v: Verdict) {
    exists i :: 0 <= i < |ids| && Judge(AnswerFor(t, ids[i])) == v
  }

  /** The loop's verdict is the worst of all answers, whatever their order. */
  lemma {:induction false} UnmapEffect(t: Tenant, ids: seq<SystemId>)
    requires t.worst != Success
    ensures var (t', ok) := UnmapSeq(t, ids);
      && ok && t' == t.(worst := t'.worst) && t'.worst != Success
      && (t'.worst == GiveUp <==> t.worst == GiveUp || Answered(t, ids, GiveUp))
      && (t'.worst != GiveUp ==> (t'.worst == Wait <==> t.worst == Wait || Answered(t, ids, Wait)))
    decreases |ids|
  {
    if ids != [] {
      var v := Judge(AnswerFor(t, ids[0]));
      var t1 := t.(worst := Escalate(t.worst, v));
      UnmapEffect(t1, ids[1..]);
      forall w ensures Answered(t, ids, w) <==> v == w || Answered(t1, ids[1..], w) {
        if Answered(t1, ids[1..], w) {
          var i :| 0 <= i < |ids[1..]| && Judge(AnswerFor(t1, ids[1..][i])) == w;
          assert Judge(AnswerFor(t, ids[i + 1])) == w;
        }
        if Answered(t, ids, w) && v != w {
          var i :| 0 <= i < |ids| && Judge(AnswerFor(t, ids[i])) == w;
          assert ids[1..][i - 1] == ids[i];
        }
      }
    }
  }

  lemma {:induction false} UnmapKeepsRows(t: Tenant, ids: seq<SystemId>)
    ensures UnmapSeq(t, ids) == (t.(worst := UnmapSeq(t, ids).0.worst), true)
    decreases |ids|
  {
    if ids != [] { UnmapKeepsRows(t.(worst := Escalate(t.worst, Judge(AnswerFor(t, ids[0])))), ids[1..]); }
  }

  lemma {:induction false} UnmapConcat(t: Tenant, a: seq<SystemId>, b: seq<SystemId>)
    ensures UnmapSeq(t, a + b) == UnmapSeq(UnmapSeq(t, a).0, b)
    decreases |a|
  {
    if a == [] {
      assert a + b == b;
    } else {
      assert (a + b)[0] == a[0] && (a + b)[1..] == a[1..] + b;
      UnmapConcat(t.(worst := Escalate(t.worst, Judge(AnswerFor(t, a[0])))), a[1..], b);
    }
  }

  lemma UnmapCallIsSteady(listOk: nat -> bool, countOk: nat -> bool)
    ensures UnmapCall(listOk, countOk).Stops() && L.Steady(UnmapCall(listOk, countOk))
  {
    var call := UnmapCall(listOk, countOk);
    forall t: Tenant, offset: nat ensures call.query(call.After(t, offset)) == call.query(t) {
      UnmapKeepsRows(t, call.PageAt(t, offset));
    }
  }

  lemma {:induction false} UnmapPassIsOneLoop(t: Tenant, listOk: nat -> bool, countOk: nat -> bool,
                                              offset: nat, round: nat)
    requires UnmapCall(listOk, countOk).Stops()
    ensures var pass := P.PassFrom(UnmapCall(listOk, countOk), t, offset, round, false);
      pass.db == UnmapSeq(t, P.Concat(pass.batches)).0 && !pass.ending.ProcessError?
    decreases if offset < |UnmapRows(t)| then |UnmapRows(t)| - offset else 0
  {
    var call := UnmapCall(listOk, countOk);
    var batch, t' := call.PageAt(t, offset), call.After(t, offset);
    L.ConcatOne(batch);
    UnmapKeepsRows(t, batch);
    if call.EndingAt(t, offset, round).Continues? {
      UnmapPassIsOneLoop(t', listOk, countOk, offset + call.size, round + 1);
      var rest := P.PassFrom(call, t', offset + call.size, round + 1, false);
      L.ConcatCons(batch, rest.batches);
      UnmapConcat(t, batch, P.Concat(rest.batches));
    }
  }

  // ---- the whole pass ----

  /** The store's answers: to the List and Count calls of the three loops and to the three checks. */
  datatype Store = Store(
    linkedListed: nat -> bool, linkedCounted: nat -> bool, unlinkedChecked: bool,
    keysListed: nat -> bool, keysCounted: nat -> bool, processedChecked: bool,
    systemsListed: nat -> bool, systemsCounted: nat -> bool, detachedChecked: bool)

  datatype Result = Erred | Verdict(verdict: Verdict)

  ghost function UnlinkPass(t: Tenant, store: Store): P.Pass<Tenant, SystemId> {
    UnlinkCallStops(store.linkedListed, store.linkedCounted);
    P.PassFrom(UnlinkCall(store.linkedListed, store.linkedCounted), t, 0, 0, false)
  }

  ghost function DetachPass(t: Tenant, store: Store): P.Pass<Tenant, KeyId> {
    DetachCallStops(store.keysListed, store.keysCounted);
    P.PassFrom(DetachCall(store.keysListed, store.keysCounted), t, 0, 0, false)
  }

  ghost function UnmapPass(t: Tenant, store: Store): P.Pass<Tenant, SystemId> {
    UnmapCallIsSteady(store.systemsListed, store.systemsCounted);
    P.PassFrom(UnmapCall(store.systemsListed, store.systemsCounted), t.(worst := NextStep), 0, 0, false)
  }

  /** unmapAllSystemsFromRegistry: a broken loop hides the verdicts it had collected. */
  ghost function UnmapVerdict(t: Tenant, store: Store): Verdict {
    var pass := UnmapPass(t, store);
    if pass.ending.Finished? then pass.db.worst else Wait
  }

  /** Steps 2 to 4, once no system is linked. */
  ghost function DetachedAndUnmapped(t: Tenant, store: Store): (Tenant, Result) {
    var detaches := DetachPass(t, store);
    var reached := detaches.db;
    if !detaches.ending.Finished? || !store.processedChecked then (reached, Erred)
    else if Unprocessed(reached.s) != {} then (reached, Verdict(Wait))
    else if UnmapVerdict(reached, store) != NextStep then (reached, Verdict(UnmapVerdict(reached, store)))
    else if !store.detachedChecked then (reached, Erred)
    else if Undetached(reached.s) != {} then (reached, Verdict(Wait))
    else (reached, Verdict(Success))
  }

  ghost function Offboarded(t: Tenant, store: Store): (Tenant, Result) {
    var unlinks := UnlinkPass(t, store);
    if !unlinks.ending.Finished? || !store.unlinkedChecked then (unlinks.db, Erred)
    else if Linked(unlinks.db.s) != {} then (unlinks.db, Verdict(Wait))
    else DetachedAndUnmapped(unlinks.db, store)
  }

  method OffboardTenant(t: Tenant, store: Store) returns (t': Tenant, result: Result)
    ensures (t', result) == Offboarded(t, store)
  {
    UnlinkCallStops(store.linkedListed, store.linkedCounted);
    var unlinked, _, unlinks, _ :=
      P.ProcessInBatchWithOptions(UnlinkCall(store.linkedListed, store.linkedCounted), t);
    if !unlinks.Finished? || !store.unlinkedChecked { return unlinked, Erred; }
    if Linked(unlinked.s) != {} { return unlinked, Verdict(Wait); }

    DetachCallStops(store.keysListed, store.keysCounted);
    var reached, _, detaches, _ :=
      P.ProcessInBatchWithOptions(DetachCall(store.keysListed, store.keysCounted), unlinked);
    if !detaches.Finished? || !store.processedChecked { return reached, Erred; }
    if Unprocessed(reached.s) != {} { return reached, Verdict(Wait); }

    UnmapCallIsSteady(store.systemsListed, store.systemsCounted);
    var asked, _, unmaps, _ :=
      P.ProcessInBatchWithOptions(UnmapCall(store.systemsListed, store.systemsCounted), reached.(worst := NextStep));
    var verdict := if unmaps.Finished? then asked.worst else Wait;
    if verdict != NextStep { return reached, Verdict(verdict); }

    if !store.detachedChecked { return reached, Erred; }
    if Undetached(reached.s) != {} { return reached, Verdict(Wait); }
    return reached, Verdict(Success);
  }

  /** The unmap step gives up exactly when some stored system's answer says so, waits exactly when none
    * does but some answer can be retried, and is never a success of its own. */
  lemma UnmapVerdictIsTheWorstAnswer(t: Tenant, store: Store)
    requires Lists(t.systemOrder, t.s.systems.Keys) && UnmapPass(t, store).ending.Finished?
    ensures UnmapVerdict(t, store) == GiveUp <==> exists id :: id in t.s.systems && Judge(AnswerFor(t, id)) == GiveUp
    ensures UnmapVerdict(t, store) == Wait <==>
      && (forall id :: id in t.s.systems ==> Judge(AnswerFor(t, id)) != GiveUp)
      && (exists id :: id in t.s.systems && Judge(AnswerFor(t, id)) == Wait)
    ensures UnmapVerdict(t, store) != Success
  {
    var call, t0 := UnmapCall(store.systemsListed, store.systemsCounted), t.(worst := NextStep);
    var pass, rows := UnmapPass(t, store), UnmapRows(t);
    UnmapCallIsSteady(store.systemsListed, store.systemsCounted);
    UnmapPassIsOneLoop(t0, store.systemsListed, store.systemsCounted, 0, 0);
    L.SteadyPassVisitsEachRowOnce(call, t0, 0, 0, false);
    assert P.Concat(pass.batches) == rows[0..] == rows;
    UnmapEffect(t0, rows);
    SelectMembers(t.systemOrder, t.s.systems.Keys);
    forall v ensures Answered(t0, rows, v) <==> exists id :: id in t.s.systems && Judge(AnswerFor(t, id)) == v {
      AnsweredBySome(t, rows, v);
    }
  }

  lemma AnsweredBySome(t: Tenant, rows: seq<SystemId>, v: Verdict)
    requires Lists(t.systemOrder, t.s.systems.Keys)
    requires forall id :: id in rows <==> id in t.systemOrder && id in t.s.systems.Keys
    ensures Answered(t.(worst := NextStep), rows, v) <==> exists id :: id in t.s.systems && Judge(AnswerFor(t, id)) == v
  {
    var t0 := t.(worst := NextStep);
    if Answered(t0, rows, v) {
      var i :| 0 <= i < |rows| && Judge(AnswerFor(t0, rows[i])) == v;
      assert Judge(AnswerFor(t, rows[i])) == v;
    }
    if id :| id in t.s.systems && Judge(AnswerFor(t, id)) == v {
      assert id in Elements(t.systemOrder);
      var i :| 0 <= i < |rows| && rows[i] == id;
      assert Judge(AnswerFor(t0, rows[i])) == v;
    }
  }
}
