/** Changing the primary key of a key configuration (internal/manager/keyconfiguration.go): the
  * stored events that target the old key are retargeted, then every system of the configuration is
  * sent a switch event, all in one transaction. Orbital jobs live in another store, so a rolled
  * back transaction does not take back the jobs that were already created. */
module PrimarySwitch {
  import opened Optional
  import opened Systems
  import opened Tables
  import P = Pagination
  import L = PaginationLaws

  /** What the two batch loops of one change work on: the state, the tables' row orders, the change,
    * the systems for which orbital refuses a job, and those whose event cannot be decoded or patched. */
  datatype Change = Change(s: State, systemOrder: seq<SystemId>, eventOrder: seq<SystemId>,
                           config: ConfigId, keyTo: KeyId, keyFrom: KeyId,
                           refusing: set<SystemId>, broken: set<SystemId>)

  // ---- the systems of the configuration ----

  function Members(s: State, config: ConfigId): set<SystemId> {
    set id | id in s.systems && s.systems[id].config == Some(config)
  }

  function SystemRows(c: Change): seq<SystemId> { Select(c.systemOrder, Members(c.s, c.config)) }

  /** The callback's loop: switch events one system after the other, stopping at the first error. */
  function SwitchSeq(c: Change, ids: seq<SystemId>): (Change, bool)
    decreases |ids|
  {
    if ids == [] then (c, true)
    else
      var (t, reply) := SwitchNewPrimary(c.s, ids[0], c.keyTo, c.keyFrom, ids[0] !in c.refusing, true);
      if reply.Refused? then (c, false) else SwitchSeq(c.(s := t), ids[1..])
  }

  predicate Blocked(c: Change, id: SystemId) {
    id !in c.s.systems || c.s.systems[id].status == Processing || id in c.refusing
  }

  lemma {:induction false} SwitchKeepsMembers(c: Change, ids: seq<SystemId>)
    ensures var t := SwitchSeq(c, ids).0;
      t == c.(s := t.s) && Members(t.s, c.config) == Members(c.s, c.config) && t.s.systems.Keys == c.s.systems.Keys
    decreases |ids|
  {
    if ids != [] {
      var (t, reply) := SwitchNewPrimary(c.s, ids[0], c.keyTo, c.keyFrom, ids[0] !in c.refusing, true);
      if reply.Accepted? {
        assert Members(t, c.config) == Members(c.s, c.config);
        SwitchKeepsMembers(c.(s := t), ids[1..]);
      }
    }
  }

  lemma {:induction false} SwitchConcat(c: Change, a: seq<SystemId>, b: seq<SystemId>)
    ensures SwitchSeq(c, a + b) == if SwitchSeq(c, a).1 then SwitchSeq(SwitchSeq(c, a).0, b) else SwitchSeq(c, a)
    decreases |a|
  {
    if a == [] {
      assert a + b == b;
    } else {
      assert (a + b)[0] == a[0] && (a + b)[1..] == a[1..] + b;
      var (t, reply) := SwitchNewPrimary(c.s, a[0], c.keyTo, c.keyFrom, a[0] !in c.refusing, true);
      if reply.Accepted? { SwitchConcat(c.(s := t), a[1..], b); }
    }
  }

  function SwitchCall(listOk: nat -> bool, countOk: nat -> bool): P.Call<Change, SystemId> {
    P.Call(SystemRows, SwitchSeq, P.DefaultLimit, P.Normal, listOk, countOk)
  }

  lemma SwitchCallIsSteady(listOk: nat -> bool, countOk: nat -> bool)
    ensures SwitchCall(listOk, countOk).Stops() && L.Steady(SwitchCall(listOk, countOk))
  {
    var call := SwitchCall(listOk, countOk);
    forall c: Change, offset: nat ensures call.query(call.After(c, offset)) == call.query(c) {
      SwitchKeepsMembers(c, call.PageAt(c, offset));
    }
  }

  /** The batches of the pass amount to one loop over all their systems. */
  lemma {:induction false} SwitchPassIsOneLoop(c: Change, listOk: nat -> bool, countOk: nat -> bool,
                                               offset: nat, round: nat)
    requires SwitchCall(listOk, countOk).Stops()
    ensures var pass := P.PassFrom(SwitchCall(listOk, countOk), c, offset, round, false);
      && pass.db == SwitchSeq(c, P.Concat(pass.batches)).0
      && (pass.ending.ProcessError? <==> !SwitchSeq(c, P.Concat(pass.batches)).1)
    decreases if offset < |SystemRows(c)| then |SystemRows(c)| - offset else 0
  {
    var call := SwitchCall(listOk, countOk);
    var batch, t := call.PageAt(c, offset), call.After(c, offset);
    L.ConcatOne(batch);
    SwitchKeepsMembers(c, batch);
    if call.EndingAt(c, offset, round).Continues? {
      SwitchPassIsOneLoop(t, listOk, countOk, offset + call.size, round + 1);
      var rest := P.PassFrom(call, t, offset + call.size, round + 1, false);
      L.ConcatCons(batch, rest.batches);
      SwitchConcat(c, batch, P.Concat(rest.batches));
    }
  }

  function SwitchEvent(c: Change, previous: Status): Event {
    Event(SystemSwitchNewPK, Some(c.keyTo), Some(c.keyFrom), previous, "", "")
  }

  function SwitchJobFor(keyTo: KeyId, keyFrom: KeyId, id: SystemId): Job {
    Job(SystemSwitchNewPK, id, Some(keyTo), Some(keyFrom), Running, None)
  }

  ghost predicate SystemsSwitched(c: Change, t: State, ids: seq<SystemId>) {
    && t.systems.Keys == c.s.systems.Keys
    && t.configs == c.s.configs && t.keys == c.s.keys && t.claims == c.s.claims
    && forall id :: id in c.s.systems ==>
         t.systems[id] == if id in ids then c.s.systems[id].(status := Processing) else c.s.systems[id]
  }

  ghost predicate EventsSwitched(c: Change, t: State, ids: seq<SystemId>) {
    && (forall id :: id in ids ==>
          id in c.s.systems && id in t.events && t.events[id] == SwitchEvent(c, c.s.systems[id].status))
    && (forall id :: id !in ids ==> (id in t.events <==> id in c.s.events))
    && (forall id :: id !in ids && id in c.s.events ==> t.events[id] == c.s.events[id])
  }

  ghost predicate JobsAdded(c: Change, t: State, ids: seq<SystemId>) {
    JobsNumbered(c.s.jobs, c.s.nextJob, t.jobs, t.nextJob, c.keyTo, c.keyFrom, ids)
  }

  /** The new jobs are numbered from `first` on, one per switched system, in order. */
  ghost predicate JobsNumbered(before: map<JobId, Job>, first: JobId, after: map<JobId, Job>, next: JobId,
                               keyTo: KeyId, keyFrom: KeyId, ids: seq<SystemId>)
  {
    && next == first + |ids|
    && (forall j :: j in after <==> j in before || first <= j < next)
    && (forall j :: j in before ==> after[j] == before[j])
    && (forall i :: 0 <= i < |ids| ==> after[first + i] == SwitchJobFor(keyTo, keyFrom, ids[i]))
  }

  ghost predicate FreshJobIds(s: State) { forall j :: j in s.jobs ==> j < s.nextJob }

  function SubmitOne(c: Change, id: SystemId): Change
    requires id in c.s.systems
  {
    c.(s := Submit(c.s, id, c.s.systems[id], SystemSwitchNewPK, Some(c.keyTo), Some(c.keyFrom), true))
  }

  function SubmitAll(c: Change, ids: seq<SystemId>): Change
    requires forall i :: 0 <= i < |ids| ==> ids[i] in c.s.systems
    decreases |ids|
  {
    if ids == [] then c else SubmitAll(SubmitOne(c, ids[0]), ids[1..])
  }

  lemma {:induction false} SubmitAllSwitchesSystems(c: Change, ids: seq<SystemId>)
    requires forall i :: 0 <= i < |ids| ==> ids[i] in c.s.systems
    ensures SubmitAll(c, ids) == c.(s := SubmitAll(c, ids).s) && SystemsSwitched(c, SubmitAll(c, ids).s, ids)
    decreases |ids|
  {
    if ids != [] {
      SubmitAllSwitchesSystems(SubmitOne(c, ids[0]), ids[1..]);
      assert ids == [ids[0]] + ids[1..];
    }
  }

  lemma {:induction false} SubmitAllSwitchesEvents(c: Change, ids: seq<SystemId>)
    requires NoDuplicates(ids) && forall i :: 0 <= i < |ids| ==> ids[i] in c.s.systems
    ensures EventsSwitched(c, SubmitAll(c, ids).s, ids)
    decreases |ids|
  {
    if ids != [] {
      SubmitAllSwitchesEvents(SubmitOne(c, ids[0]), ids[1..]);
      assert ids == [ids[0]] + ids[1..] && ids[0] !in ids[1..];
    }
  }

  lemma {:induction false} SubmitAllAddsJobs(c: Change, ids: seq<SystemId>)
    requires FreshJobIds(c.s) && forall i :: 0 <= i < |ids| ==> ids[i] in c.s.systems
    ensures JobsAdded(c, SubmitAll(c, ids).s, ids)
    decreases |ids|
  {
    if ids != [] {
      var c', t := SubmitOne(c, ids[0]), SubmitAll(c, ids).s;
      SubmitAllAddsJobs(c', ids[1..]);
      forall i | 0 <= i < |ids| ensures t.jobs[c.s.nextJob + i] == SwitchJobFor(c.keyTo, c.keyFrom, ids[i]) {
        if i > 0 { assert ids[i] == ids[1..][i - 1] && c.s.nextJob + i == c'.s.nextJob + (i - 1); }
      }
    }
  }

  /** A loop over distinct systems submits exactly the systems before the first blocked one. */
  lemma {:induction false} SwitchSeqSubmits(c: Change, ids: seq<SystemId>) returns (m: nat)
    requires NoDuplicates(ids)
    ensures m <= |ids| && (SwitchSeq(c, ids).1 <==> m == |ids|)
    ensures forall i :: 0 <= i < m ==> !Blocked(c, ids[i])
    ensures m < |ids| ==> Blocked(c, ids[m])
    ensures forall i :: 0 <= i < |ids[..m]| ==> ids[..m][i] in c.s.systems
    ensures SwitchSeq(c, ids).0 == SubmitAll(c, ids[..m])
    decreases |ids|
  {
    m := 0;
    if ids != [] && !Blocked(c, ids[0]) {
      var c' := SubmitOne(c, ids[0]);
      var k := SwitchSeqSubmits(c', ids[1..]);
      m := k + 1;
      assert ids[..m][1..] == ids[1..][..k];
      forall i | 1 <= i < |ids| ensures Blocked(c, ids[i]) <==> Blocked(c', ids[i]) {}
      assert forall i :: 1 <= i < |ids| ==> ids[1..][i - 1] == ids[i];
    }
  }

  // ---- the stored events that target the old key ----

  function Targeting(s: State, key: KeyId): set<SystemId> {
    set id | id in s.events && s.events[id].keyTo == Some(key)
  }

  function EventRows(c: Change): seq<SystemId> { Select(c.eventOrder, Targeting(c.s, c.keyFrom)) }

  /** The callback's loop, which stops at the first event that cannot be decoded or patched. */
  function RetargetSeq(c: Change, ids: seq<SystemId>): (Change, bool)
    decreases |ids|
  {
    if ids == [] then (c, true)
    else if ids[0] in c.broken then (c, false)
    else RetargetSeq(c.(s := Next(c.s, RetargetEvent(ids[0], c.keyTo))), ids[1..])
  }

  function RetargetCall(listOk: nat -> bool, countOk: nat -> bool): P.Call<Change, SystemId> {
    P.Call(EventRows, RetargetSeq, P.DefaultLimit, P.Normal, listOk, countOk)
  }

  function BeforeBroken(ids: seq<SystemId>, broken: set<SystemId>): seq<SystemId> {
    if ids == [] || ids[0] in broken then [] else [ids[0]] + BeforeBroken(ids[1..], broken)
  }

  lemma {:induction false} BeforeBrokenIsPrefix(ids: seq<SystemId>, broken: set<SystemId>)
    ensures BeforeBroken(ids, broken) <= ids
    ensures broken == {} ==> BeforeBroken(ids, broken) == ids
    decreases |ids|
  {
    if ids != [] { BeforeBrokenIsPrefix(ids[1..], broken); }
  }

  lemma {:induction false} RetargetEffect(c: Change, ids: seq<SystemId>)
    ensures var (t, ok) := RetargetSeq(c, ids); var done := BeforeBroken(ids, c.broken);
      && (ok <==> done == ids) && t == c.(s := c.s.(events := t.s.events)) && t.s.events.Keys == c.s.events.Keys
      && forall id :: id in c.s.events ==>
           t.s.events[id] == if id in done then c.s.events[id].(keyTo := Some(c.keyTo)) else c.s.events[id]
    decreases |ids|
  {
    if ids != [] && ids[0] !in c.broken {
      RetargetEffect(c.(s := Next(c.s, RetargetEvent(ids[0], c.keyTo))), ids[1..]);
      var done := BeforeBroken(ids[1..], c.broken);
      assert forall id :: id in [ids[0]] + done <==> id == ids[0] || id in done;
      assert [ids[0]] + done == ids <==> done == ids[1..];
    }
  }

  predicate Retargeting(c: Change) { c.keyTo != c.keyFrom && NoDuplicates(c.eventOrder) && c.broken == {} }

  lemma RetargetedRows(c: Change, offset: nat)
    requires offset <= |EventRows(c)| && Retargeting(c)
    ensures var page := P.Page(EventRows(c), offset, P.DefaultLimit);
      EventRows(RetargetSeq(c, page).0) == EventRows(c)[..offset] + EventRows(c)[offset + |page|..]
  {
    var rows := EventRows(c);
    var page := P.Page(rows, offset, P.DefaultLimit);
    L.PageCuts(rows, offset, P.DefaultLimit);
    assert page == rows[offset..offset + |page|];
    RetargetEffect(c, page);
    BeforeBrokenIsPrefix(page, c.broken);
    SelectMembers(c.eventOrder, Targeting(c.s, c.keyFrom));
    SelectCut(c.eventOrder, Targeting(c.s, c.keyFrom), Targeting(RetargetSeq(c, page).0.s, c.keyFrom),
              offset, offset + |page|);
  }

  lemma RetargetingNeverAddsRows(c: Change, offset: nat)
    ensures |EventRows(RetargetSeq(c, P.Page(EventRows(c), offset, P.DefaultLimit)).0)| <= |EventRows(c)|
  {
    var page := P.Page(EventRows(c), offset, P.DefaultLimit);
    RetargetEffect(c, page);
    BeforeBrokenIsPrefix(page, c.broken);
    SelectMembers(c.eventOrder, Targeting(c.s, c.keyFrom));
    L.PageMembers(EventRows(c), offset, P.DefaultLimit);
    var t := RetargetSeq(c, page).0;
    assert Targeting(t.s, c.keyFrom) <= Targeting(c.s, c.keyFrom);
    SelectFewer(c.eventOrder, Targeting(t.s, c.keyFrom), Targeting(c.s, c.keyFrom));
  }

  lemma RetargetCallLeaves(listOk: nat -> bool, countOk: nat -> bool)
    ensures RetargetCall(listOk, countOk).Stops() && L.Leaves(RetargetCall(listOk, countOk), Retargeting)
  {
    var call := RetargetCall(listOk, countOk);
    forall c: Change, offset: nat ensures |call.query(call.After(c, offset))| <= |call.query(c)| {
      RetargetingNeverAddsRows(c, offset);
    }
    forall c: Change, offset: nat | Retargeting(c) && offset <= |call.query(c)|
      ensures call.Accepts(c, offset) && Retargeting(call.After(c, offset))
      ensures call.query(call.After(c, offset))
              == call.query(c)[..offset] + call.query(c)[offset + |call.PageAt(c, offset)|..]
    {
      RetargetEffect(c, call.PageAt(c, offset));
      BeforeBrokenIsPrefix(call.PageAt(c, offset), c.broken);
      RetargetedRows(c, offset);
    }
  }

  /** Some events that targeted the old key now target the new one, and nothing else changed. */
  ghost predicate OnlyRetargeted(s: State, t: State, keyFrom: KeyId, keyTo: KeyId) {
    && t == s.(events := t.events) && t.events.Keys == s.events.Keys
    && forall id :: id in s.events ==>
         || t.events[id] == s.events[id]
         || (s.events[id].keyTo == Some(keyFrom) && t.events[id] == s.events[id].(keyTo := Some(keyTo)))
  }

  lemma RetargetTargeting(c: Change, ids: seq<SystemId>)
    requires forall id :: id in ids ==> id in Targeting(c.s, c.keyFrom)
    ensures var (t, ok) := RetargetSeq(c, ids);
      && (c.broken == {} ==> ok)
      && t == c.(s := t.s) && OnlyRetargeted(c.s, t.s, c.keyFrom, c.keyTo)
  {
    RetargetEffect(c, ids);
    BeforeBrokenIsPrefix(ids, c.broken);
    assert forall id :: id in BeforeBroken(ids, c.broken) ==> id in ids;
  }

  lemma RetargetBatch(c: Change, listOk: nat -> bool, countOk: nat -> bool, offset: nat)
    ensures var call := RetargetCall(listOk, countOk); var t := call.After(c, offset);
      && (c.broken == {} ==> call.Accepts(c, offset))
      && t == c.(s := t.s) && OnlyRetargeted(c.s, t.s, c.keyFrom, c.keyTo)
  {
    SelectMembers(c.eventOrder, Targeting(c.s, c.keyFrom));
    L.PageMembers(EventRows(c), offset, P.DefaultLimit);
    RetargetTargeting(c, P.Page(EventRows(c), offset, P.DefaultLimit));
  }

  lemma RetargetedTwice(s: State, t: State, u: State, keyFrom: KeyId, keyTo: KeyId)
    requires OnlyRetargeted(s, t, keyFrom, keyTo) && OnlyRetargeted(t, u, keyFrom, keyTo)
    ensures OnlyRetargeted(s, u, keyFrom, keyTo)
  {
  }

  /** Whatever the store answers, the pass touches only events that targeted the old key. */
  lemma {:induction false} RetargetPassOnlyRetargets(c: Change, listOk: nat -> bool, countOk: nat -> bool,
                                                     offset: nat, round: nat)
    requires RetargetCall(listOk, countOk).Stops()
    ensures var pass := P.PassFrom(RetargetCall(listOk, countOk), c, offset, round, false);
      && pass.db == c.(s := pass.db.s)
      && OnlyRetargeted(c.s, pass.db.s, c.keyFrom, c.keyTo)
      && (c.broken == {} ==> !pass.ending.ProcessError?)
    decreases if offset < |EventRows(c)| then |EventRows(c)| - offset else 0
  {
    var call := RetargetCall(listOk, countOk);
    var t := call.After(c, offset);
    RetargetBatch(c, listOk, countOk, offset);
    if call.EndingAt(c, offset, round).Continues? {
      RetargetPassOnlyRetargets(t, listOk, countOk, offset + call.size, round + 1);
      var end := P.PassFrom(call, t, offset + call.size, round + 1, false).db;
      RetargetedTwice(c.s, t.s, end.s, c.keyFrom, c.keyTo);
    }
  }

  /** The promise that no stored event targets the old key afterwards holds exactly up to one batch:
    * patched events leave the query, so the loop skips every second block of 100. */
  lemma RetargetingIsCompleteIffOneBatch(c: Change)
    requires Retargeting(c) && Lists(c.eventOrder, c.s.events.Keys)
    ensures var call := RetargetCall(L.AlwaysOk, L.AlwaysOk);
      && call.Stops()
      && var t := P.PassFrom(call, c, 0, 0, false).db;
         && EventRows(t) == L.OddBlocks(EventRows(c), P.DefaultLimit)
         && (EventRows(t) == [] <==> |Targeting(c.s, c.keyFrom)| <= P.DefaultLimit)
  {
    var call := RetargetCall(L.AlwaysOk, L.AlwaysOk);
    RetargetCallLeaves(L.AlwaysOk, L.AlwaysOk);
    L.LeavingPassVisitsEvenBlocks(call, Retargeting, c);
    var rows := EventRows(c);
    L.OddBlocksAreAtMostHalf(rows, P.DefaultLimit);
    SelectCount(c.eventOrder, Targeting(c.s, c.keyFrom));
  }

  lemma {:induction false} UnbrokenBatch(c: Change, ids: seq<SystemId>)
    requires RetargetSeq(c, ids).1
    ensures RetargetSeq(c.(broken := {}), ids) == (RetargetSeq(c, ids).0.(broken := {}), true)
    decreases |ids|
  {
    if ids != [] { UnbrokenBatch(c.(s := Next(c.s, RetargetEvent(ids[0], c.keyTo))), ids[1..]); }
  }

  /** A pass that finishes met no broken event. */
  lemma {:induction false} UnbrokenPass(c: Change, listOk: nat -> bool, countOk: nat -> bool,
                                        offset: nat, round: nat)
    requires RetargetCall(listOk, countOk).Stops()
    requires P.PassFrom(RetargetCall(listOk, countOk), c, offset, round, false).ending.Finished?
    ensures var call := RetargetCall(listOk, countOk);
      var pass, unbroken := P.PassFrom(call, c, offset, round, false),
                            P.PassFrom(call, c.(broken := {}), offset, round, false);
      unbroken == pass.(db := pass.db.(broken := {}))
    decreases if offset < |EventRows(c)| then |EventRows(c)| - offset else 0
  {
    var call := RetargetCall(listOk, countOk);
    UnbrokenBatch(c, call.PageAt(c, offset));
    if call.EndingAt(c, offset, round).Continues? {
      UnbrokenPass(call.After(c, offset), listOk, countOk, offset + call.size, round + 1);
    }
  }

  /** Every pass that finishes leaves exactly the odd blocks. */
  lemma FinishedRetargetingLeavesOddBlocks(c: Change, listOk: nat -> bool, countOk: nat -> bool)
    requires c.keyTo != c.keyFrom && Lists(c.eventOrder, c.s.events.Keys)
    requires RetargetCall(listOk, countOk).Stops()
    requires P.PassFrom(RetargetCall(listOk, countOk), c, 0, 0, false).ending.Finished?
    ensures EventRows(P.PassFrom(RetargetCall(listOk, countOk), c, 0, 0, false).db)
            == L.OddBlocks(EventRows(c), P.DefaultLimit)
  {
    var call, unbroken := RetargetCall(listOk, countOk), c.(broken := {});
    UnbrokenPass(c, listOk, countOk, 0, 0);
    L.FinishedPassIsAnswered(call, unbroken, 0, 0, false);
    assert call.(listOk := L.AlwaysOk, countOk := L.AlwaysOk) == RetargetCall(L.AlwaysOk, L.AlwaysOk);
    RetargetingIsCompleteIffOneBatch(unbroken);
  }
}
