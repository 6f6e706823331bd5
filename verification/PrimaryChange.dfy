/** UpdateKeyConfigurationByID with a new primary key (internal/manager/keyconfiguration.go). */
module PrimaryChange {
  import opened Optional
  import opened Systems
  import opened LinkProtocol
  import opened LinkRuns
  import opened Tables
  import opened PrimarySwitch
  import P = Pagination
  import L = PaginationLaws

  datatype ChangeError =
    | NotAllowed | MissingConfig | MissingKey | KeyIsDeleted | KeyIsNotEnabled
    | EventsNotUpdated | SwitchNotSent | ConfigNotPatched

  /** The request and what the stores answer to it. */
  datatype Request = Request(
    config: ConfigId, keyTo: KeyId, authorized: bool,
    systemOrder: seq<SystemId>, eventOrder: seq<SystemId>, refusing: set<SystemId>, broken: set<SystemId>,
    eventsListed: nat -> bool, eventsCounted: nat -> bool,
    systemsListed: nat -> bool, systemsCounted: nat -> bool, patched: bool)

  /** Loading a key and validateKeyForPrimarySwitch. The key is looked up by its identifier alone. */
  function KeyProblem(s: State, key: KeyId): Option<ChangeError> {
    if key !in s.keys then Some(MissingKey)
    else if s.keys[key].state in {Deleted, PendingDeletion} then Some(KeyIsDeleted)
    else if s.keys[key].state != Enabled then Some(KeyIsNotEnabled)
    else None
  }

  function Started(s: State, r: Request, keyFrom: KeyId): Change {
    Change(s, r.systemOrder, r.eventOrder, r.config, r.keyTo, keyFrom, r.refusing, r.broken)
  }

  function Patched(s: State, r: Request, reached: State): (State, Option<ChangeError>) {
    if r.patched then (reached.(configs := reached.configs[r.config := Config(Some(r.keyTo))]), None)
    else (RolledBack(s, reached), Some(ConfigNotPatched))
  }

  ghost function EventsPass(s: State, r: Request, keyFrom: KeyId): P.Pass<Change, SystemId> {
    RetargetCallLeaves(r.eventsListed, r.eventsCounted);
    P.PassFrom(RetargetCall(r.eventsListed, r.eventsCounted), Started(s, r, keyFrom), 0, 0, false)
  }

  ghost function SystemsPass(c: Change, r: Request): P.Pass<Change, SystemId> {
    SwitchCallIsSteady(r.systemsListed, r.systemsCounted);
    P.PassFrom(SwitchCall(r.systemsListed, r.systemsCounted), c, 0, 0, false)
  }

  /** The refusal that comes before any row is touched. */
  function Refusal(s: State, r: Request): Option<ChangeError> {
    if !r.authorized then Some(NotAllowed)
    else if r.config !in s.configs then Some(MissingConfig)
    else if KeyProblem(s, r.keyTo).Some? then KeyProblem(s, r.keyTo)
    else if s.configs[r.config].primary.None? then None
    else KeyProblem(s, s.configs[r.config].primary.value)
  }

  ghost function Changed(s: State, r: Request): (State, Option<ChangeError>) {
    if Refusal(s, r).Some? then (s, Refusal(s, r))
    else if s.configs[r.config].primary.None? then Patched(s, r, s)
    else
      var events := EventsPass(s, r, s.configs[r.config].primary.value);
      if !events.ending.Finished? then (RolledBack(s, events.db.s), Some(EventsNotUpdated))
      else
        var systems := SystemsPass(events.db, r);
        if !systems.ending.Finished? then (RolledBack(s, systems.db.s), Some(SwitchNotSent))
        else Patched(s, r, systems.db.s)
  }

  method ChangePrimary(s: State, r: Request) returns (t: State, error: Option<ChangeError>)
    ensures (t, error) == Changed(s, r)
  {
    var refusal := Refusal(s, r);
    if refusal.Some? { return s, refusal; }
    if s.configs[r.config].primary.None? {
      var p := Patched(s, r, s);
      return p.0, p.1;
    }
    RetargetCallLeaves(r.eventsListed, r.eventsCounted);
    var c, _, ending, _ := P.ProcessInBatchWithOptions(
      RetargetCall(r.eventsListed, r.eventsCounted), Started(s, r, s.configs[r.config].primary.value));
    if !ending.Finished? { return RolledBack(s, c.s), Some(EventsNotUpdated); }
    SwitchCallIsSteady(r.systemsListed, r.systemsCounted);
    var switched, _, sent, _ := P.ProcessInBatchWithOptions(SwitchCall(r.systemsListed, r.systemsCounted), c);
    if !sent.Finished? { return RolledBack(s, switched.s), Some(SwitchNotSent); }
    var p := Patched(s, r, switched.s);
    return p.0, p.1;
  }

  /** The tables list each stored row once and orbital's job numbers are fresh. */
  ghost predicate Stored(s: State, r: Request) {
    Lists(r.systemOrder, s.systems.Keys) && Lists(r.eventOrder, s.events.Keys) && FreshJobIds(s)
  }

  lemma EventsPassOnlyRetargets(s: State, r: Request, keyFrom: KeyId)
    ensures var pass := EventsPass(s, r, keyFrom);
      pass.db == Started(pass.db.s, r, keyFrom) && OnlyRetargeted(s, pass.db.s, keyFrom, r.keyTo)
  {
    RetargetCallLeaves(r.eventsListed, r.eventsCounted);
    RetargetPassOnlyRetargets(Started(s, r, keyFrom), r.eventsListed, r.eventsCounted, 0, 0);
  }

  /** The systems pass submits a switch for exactly the first `m` member systems. */
  lemma SystemsPassSubmits(c: Change, r: Request) returns (m: nat)
    requires Lists(c.systemOrder, c.s.systems.Keys)
    ensures NoDuplicates(SystemRows(c)) && Elements(SystemRows(c)) == Members(c.s, c.config)
    ensures m <= |SystemRows(c)|
    ensures forall i :: 0 <= i < m ==> !Blocked(c, SystemRows(c)[i])
    ensures forall i :: 0 <= i < |SystemRows(c)[..m]| ==> SystemRows(c)[..m][i] in c.s.systems
    ensures var pass := SystemsPass(c, r);
      && pass.db == SubmitAll(c, SystemRows(c)[..m])
      && (pass.ending.Finished? ==> m == |SystemRows(c)|)
      && (pass.ending.ProcessError? ==> m < |SystemRows(c)| && Blocked(c, SystemRows(c)[m]))
  {
    var call, rows := SwitchCall(r.systemsListed, r.systemsCounted), SystemRows(c);
    SwitchCallIsSteady(r.systemsListed, r.systemsCounted);
    SelectCount(c.systemOrder, Members(c.s, c.config));
    SelectMembers(c.systemOrder, Members(c.s, c.config));
    var pass := SystemsPass(c, r);
    SwitchPassIsOneLoop(c, r.systemsListed, r.systemsCounted, 0, 0);
    L.SteadyPassVisitsEachRowOnce(call, c, 0, 0, false);
    var ids := P.Concat(pass.batches);
    assert rows[0..] == rows;
    assert ids == rows[..|ids|];
    m := SwitchSeqSubmits(c, ids);
    assert ids[..m] == rows[..m];
  }

  /** What a successful change away from `keyFrom` leaves behind. */
  ghost predicate AllSwitched(s: State, t: State, r: Request, keyFrom: KeyId)
    requires r.config in s.configs
  {
    var members := Members(s, r.config);
    && t.configs == s.configs[r.config := Config(Some(r.keyTo))] && t.keys == s.keys && t.claims == s.claims
    && t.systems.Keys == s.systems.Keys
    && (forall id :: id in members ==>
          && s.systems[id].status != Processing
          && t.systems[id] == s.systems[id].(status := Processing)
          && id in t.events
          && t.events[id] == Event(SystemSwitchNewPK, Some(r.keyTo), Some(keyFrom), s.systems[id].status, "", ""))
    && (forall id :: id in s.systems && id !in members ==> t.systems[id] == s.systems[id])
    && (forall id :: id !in members ==> (id in t.events <==> id in s.events))
    && (forall id :: id !in members && id in s.events ==>
          || t.events[id] == s.events[id]
          || (s.events[id].keyTo == Some(keyFrom) && t.events[id] == s.events[id].(keyTo := Some(r.keyTo))))
  }

  /** Every system of the configuration is Processing with one switch event and one new job; nothing
    * else changed but the primary key and the retargeted events. */
  lemma SuccessfulChangeSwitchesEveryMember(s: State, r: Request)
    requires Stored(s, r) && Changed(s, r).1.None? && s.configs[r.config].primary.Some?
    ensures var keyFrom, t := s.configs[r.config].primary.value, Changed(s, r).0;
      var ids := Select(r.systemOrder, Members(s, r.config));
      && AllSwitched(s, t, r, keyFrom)
      && Lists(ids, Members(s, r.config)) && JobsAdded(Started(s, r, keyFrom), t, ids)
  {
    var keyFrom := s.configs[r.config].primary.value;
    var c := EventsPass(s, r, keyFrom).db;
    EventsPassOnlyRetargets(s, r, keyFrom);
    SwitchedAndPatched(s, c, r);
    assert Changed(s, r).0 == Patched(s, r, SystemsPass(c, r).db.s).0;
  }

  lemma SwitchedAndPatched(s: State, c: Change, r: Request)
    requires r.config in s.configs && Stored(s, r) && r.patched
    requires c == Started(c.s, r, c.keyFrom) && OnlyRetargeted(s, c.s, c.keyFrom, r.keyTo)
    requires SystemsPass(c, r).ending.Finished?
    ensures var ids, t := Select(r.systemOrder, Members(s, r.config)), Patched(s, r, SystemsPass(c, r).db.s).0;
      && AllSwitched(s, t, r, c.keyFrom)
      && Lists(ids, Members(s, r.config)) && JobsAdded(Started(s, r, c.keyFrom), t, ids)
  {
    var ids, t := SystemRows(c), SystemsPass(c, r).db.s;
    assert Members(c.s, r.config) == Members(s, r.config);
    assert NoDuplicates(ids) && Elements(ids) == Members(s, r.config)
      && (forall i :: 0 <= i < |ids| ==> !Blocked(c, ids[i]))
      && SystemsPass(c, r).db == SubmitAll(c, ids)
    by {
      var m := SystemsPassSubmits(c, r);
      assert ids[..m] == ids;
    }
    SwitchedJobs(s, c, r, ids);
    SwitchedMembers(s, c, r, ids);
  }

  lemma SwitchedJobs(s: State, c: Change, r: Request, ids: seq<SystemId>)
    requires r.patched && FreshJobIds(s)
    requires c == Started(c.s, r, c.keyFrom) && OnlyRetargeted(s, c.s, c.keyFrom, r.keyTo)
    requires forall i :: 0 <= i < |ids| ==> !Blocked(c, ids[i])
    ensures forall i :: 0 <= i < |ids| ==> ids[i] in c.s.systems
    ensures JobsAdded(Started(s, r, c.keyFrom), Patched(s, r, SubmitAll(c, ids).s).0, ids)
  {
    SubmitAllAddsJobs(c, ids);
  }

  lemma SwitchedMembers(s: State, c: Change, r: Request, ids: seq<SystemId>)
    requires r.config in s.configs && r.patched
    requires c == Started(c.s, r, c.keyFrom) && OnlyRetargeted(s, c.s, c.keyFrom, r.keyTo)
    requires NoDuplicates(ids) && Elements(ids) == Members(s, r.config)
    requires forall i :: 0 <= i < |ids| ==> !Blocked(c, ids[i])
    ensures forall i :: 0 <= i < |ids| ==> ids[i] in c.s.systems
    ensures AllSwitched(s, Patched(s, r, SubmitAll(c, ids).s).0, r, c.keyFrom)
  {
    SubmitAllSwitchesSystems(c, ids);
    SubmitAllSwitchesEvents(c, ids);
    assert forall id :: id in ids <==> id in Elements(ids);
  }

  /** After a successful change to another key, the events that still target the old one are those of
    * the odd blocks of 100 whose system is not of the configuration. */
  lemma SuccessfulChangeLeavesOddForeignEvents(s: State, r: Request)
    requires Stored(s, r) && Changed(s, r).1.None? && s.configs[r.config].primary.Some?
    requires r.keyTo != s.configs[r.config].primary.value
    ensures var keyFrom := s.configs[r.config].primary.value;
      var events := Select(r.eventOrder, Targeting(s, keyFrom));
      && Targeting(Changed(s, r).0, keyFrom) == Elements(L.OddBlocks(events, P.DefaultLimit)) - Members(s, r.config)
      && (|Targeting(s, keyFrom)| <= P.DefaultLimit ==> Targeting(Changed(s, r).0, keyFrom) == {})
  {
    var keyFrom := s.configs[r.config].primary.value;
    var c0, c := Started(s, r, keyFrom), EventsPass(s, r, keyFrom).db;
    EventsPassOnlyRetargets(s, r, keyFrom);
    RetargetCallLeaves(r.eventsListed, r.eventsCounted);
    FinishedRetargetingLeavesOddBlocks(c0, r.eventsListed, r.eventsCounted);
    SelectCount(r.eventOrder, Targeting(c.s, keyFrom));
    SelectCount(r.eventOrder, Targeting(s, keyFrom));
    L.OddBlocksAreAtMostHalf(EventRows(c0), P.DefaultLimit);
    SwitchingRetargetsMembers(c, r);
    assert Members(c.s, r.config) == Members(s, r.config);
  }

  lemma SwitchingRetargetsMembers(c: Change, r: Request)
    requires Lists(c.systemOrder, c.s.systems.Keys) && SystemsPass(c, r).ending.Finished? && c.keyTo != c.keyFrom
    ensures Targeting(SystemsPass(c, r).db.s, c.keyFrom) == Targeting(c.s, c.keyFrom) - Members(c.s, c.config)
  {
    var ids := SystemRows(c);
    var m := SystemsPassSubmits(c, r);
    assert ids[..m] == ids;
    SubmitAllSwitchesEvents(c, ids);
    assert forall id :: id in ids <==> id in Members(c.s, c.config);
  }

  /** A refused change leaves every system, event, configuration and key row as it was. */
  lemma RefusedChangeKeepsRows(s: State, r: Request)
    requires Stored(s, r) && Changed(s, r).1.Some?
    ensures var t := Changed(s, r).0;
      && t == s.(jobs := t.jobs, nextJob := t.nextJob)
      && forall j :: j in s.jobs ==> j in t.jobs && t.jobs[j] == s.jobs[j]
  {
    if Refusal(s, r).None? && s.configs[r.config].primary.Some? {
      var keyFrom := s.configs[r.config].primary.value;
      var c := EventsPass(s, r, keyFrom).db;
      EventsPassOnlyRetargets(s, r, keyFrom);
      var m := SystemsPassSubmits(c, r);
      SubmitAllAddsJobs(c, SystemRows(c)[..m]);
    }
  }

  /** Every List and Count call of the request is answered and every event can be decoded and patched. */
  ghost predicate Answering(r: Request) {
    && r.eventsListed == L.AlwaysOk && r.eventsCounted == L.AlwaysOk
    && r.systemsListed == L.AlwaysOk && r.systemsCounted == L.AlwaysOk
    && r.broken == {}
  }

  /** With stores that answer, a change is made exactly when the caller may make it, both keys are
    * enabled, and no system of the configuration is Processing or refused its job. */
  lemma ChangeAcceptedIff(s: State, r: Request)
    requires Stored(s, r)
    requires Answering(r)
    ensures Changed(s, r).1.None? <==>
      && r.authorized && r.config in s.configs && r.patched
      && r.keyTo in s.keys && s.keys[r.keyTo].state == Enabled
      && (s.configs[r.config].primary.Some? ==>
            var from := s.configs[r.config].primary.value;
            && from in s.keys && s.keys[from].state == Enabled
            && forall id :: id in Members(s, r.config) ==> s.systems[id].status != Processing && id !in r.refusing)
  {
    if Refusal(s, r).None? && s.configs[r.config].primary.Some? {
      var keyFrom := s.configs[r.config].primary.value;
      var c := EventsPass(s, r, keyFrom).db;
      EventsPassOnlyRetargets(s, r, keyFrom);
      RetargetCallLeaves(L.AlwaysOk, L.AlwaysOk);
      RetargetPassOnlyRetargets(Started(s, r, keyFrom), L.AlwaysOk, L.AlwaysOk, 0, 0);
      L.HealthyPassEnds(RetargetCall(L.AlwaysOk, L.AlwaysOk), Started(s, r, keyFrom), 0, 0, false);
      var m := SystemsPassSubmits(c, r);
      SwitchCallIsSteady(L.AlwaysOk, L.AlwaysOk);
      L.HealthyPassEnds(SwitchCall(L.AlwaysOk, L.AlwaysOk), c, 0, 0, false);
      assert Members(c.s, r.config) == Members(s, r.config);
      forall id | id in Members(s, r.config) ensures exists i :: 0 <= i < |SystemRows(c)| && SystemRows(c)[i] == id {
        assert id in Elements(SystemRows(c));
      }
      forall i | 0 <= i < |SystemRows(c)| ensures SystemRows(c)[i] in Members(s, r.config) {
        assert SystemRows(c)[i] in Elements(SystemRows(c));
      }
    }
  }

  // ---- the jobs a refused change leaves behind ----

  /** A refused change leaves a job for exactly the first `m` systems of the configuration; none of
    * them is blocked, and if every store answered the next one is what blocked the change. */
  lemma RefusedChangeLeavesJobs(s: State, r: Request) returns (m: nat)
    requires Stored(s, r) && Refusal(s, r).None? && s.configs[r.config].primary.Some? && Changed(s, r).1.Some?
    ensures var keyFrom, t := s.configs[r.config].primary.value, Changed(s, r).0;
      var ids := Select(r.systemOrder, Members(s, r.config));
      && m <= |ids| && JobsAdded(Started(s, r, keyFrom), t, ids[..m])
      && (forall i :: 0 <= i < m ==> !Blocked(Started(s, r, keyFrom), ids[i]))
      && (Answering(r) && r.patched ==> m < |ids|)
      && (Answering(r) && m < |ids| ==> Blocked(Started(s, r, keyFrom), ids[m]))
  {
    var keyFrom := s.configs[r.config].primary.value;
    var c0, c := Started(s, r, keyFrom), EventsPass(s, r, keyFrom).db;
    EventsPassOnlyRetargets(s, r, keyFrom);
    RetargetCallLeaves(r.eventsListed, r.eventsCounted);
    RetargetPassOnlyRetargets(c0, r.eventsListed, r.eventsCounted, 0, 0);
    if Answering(r) {
      L.HealthyPassEnds(RetargetCall(L.AlwaysOk, L.AlwaysOk), c0, 0, 0, false);
    }
    assert Members(c.s, r.config) == Members(s, r.config);
    if EventsPass(s, r, keyFrom).ending.Finished? {
      m := SystemsPassSubmits(c, r);
      SubmitAllAddsJobs(c, SystemRows(c)[..m]);
      if r.systemsListed == L.AlwaysOk && r.systemsCounted == L.AlwaysOk {
        SwitchCallIsSteady(L.AlwaysOk, L.AlwaysOk);
        L.HealthyPassEnds(SwitchCall(L.AlwaysOk, L.AlwaysOk), c, 0, 0, false);
      }
    } else {
      m := 0;
    }
  }

  // ---- the link protocol's invariant ----

  lemma RetargetingKeepsInv(s: State, t: State, keyFrom: KeyId, keyTo: KeyId)
    requires Inv(s) && OnlyRetargeted(s, t, keyFrom, keyTo)
    ensures Inv(t)
  {
    forall id | id in t.systems ensures SystemOk(t, id) {
      assert SystemOk(s, id);
      assert forall j :: JobOf(s, j, id) <==> JobOf(t, j, id);
    }
  }

  lemma {:induction false} SubmitAllKeepsInv(c: Change, ids: seq<SystemId>)
    requires Inv(c.s) && NoDuplicates(ids)
    requires forall i :: 0 <= i < |ids| ==>
      ids[i] in c.s.systems && !Blocked(c, ids[i]) && c.s.systems[ids[i]].config.Some?
    ensures Inv(SubmitAll(c, ids).s)
    decreases |ids|
  {
    if ids != [] {
      SubmitKeepsInv(c.s, ids[0], c.s.systems[ids[0]], SystemSwitchNewPK, Some(c.keyTo), Some(c.keyFrom));
      SubmitAllKeepsInv(SubmitOne(c, ids[0]), ids[1..]);
    }
  }

  lemma FinishedPassKeepsInv(c: Change, r: Request)
    requires Inv(c.s) && Lists(c.systemOrder, c.s.systems.Keys) && SystemsPass(c, r).ending.Finished?
    ensures Inv(SystemsPass(c, r).db.s)
  {
    var m := SystemsPassSubmits(c, r);
    var ids := SystemRows(c);
    assert ids[..m] == ids;
    forall i | 0 <= i < |ids| ensures ids[i] in c.s.systems && c.s.systems[ids[i]].config.Some? {
      assert ids[i] in Elements(ids);
    }
    SubmitAllKeepsInv(c, ids);
  }

  lemma SuccessfulChangeKeepsInv(s: State, r: Request)
    requires Stored(s, r) && Inv(s) && Changed(s, r).1.None?
    ensures Inv(Changed(s, r).0)
  {
    var t := s;
    if s.configs[r.config].primary.Some? {
      var keyFrom := s.configs[r.config].primary.value;
      var c := EventsPass(s, r, keyFrom).db;
      EventsPassOnlyRetargets(s, r, keyFrom);
      RetargetingKeepsInv(s, c.s, keyFrom, r.keyTo);
      FinishedPassKeepsInv(c, r);
      t := SystemsPass(c, r).db.s;
    }
    TablesKeepInv(t, ChangeKeys(t.configs[r.config := Config(Some(r.keyTo))], t.keys));
  }

  lemma LeftoverJobs(s: State, t: State, c: Change, ids: seq<SystemId>)
    requires c.s == s && FreshJobIds(s) && JobsAdded(c, t, ids) && t == s.(jobs := t.jobs, nextJob := t.nextJob)
    requires forall i :: 0 <= i < |ids| ==> !Blocked(c, ids[i])
    ensures if ids == [] then t == s else !Inv(t)
  {
    if ids == [] {
      assert t.jobs == s.jobs;
    } else {
      assert t.jobs[s.nextJob + 0] == SwitchJobFor(c.keyTo, c.keyFrom, ids[0]);
      StrayJobBreaksInv(t, s.nextJob);
    }
  }

  /** Whatever the stores answer, the invariant survives exactly when nothing is left behind. */
  lemma InvSurvivesIffNothingIsLeft(s: State, r: Request)
    requires Stored(s, r) && Inv(s)
    ensures Inv(Changed(s, r).0) <==> Changed(s, r).1.None? || Changed(s, r).0 == s
  {
    if Changed(s, r).1.None? {
      SuccessfulChangeKeepsInv(s, r);
    } else if Refusal(s, r).None? && s.configs[r.config].primary.Some? {
      RefusedChangeKeepsRows(s, r);
      var m := RefusedChangeLeavesJobs(s, r);
      LeftoverJobs(s, Changed(s, r).0, Started(s, r, s.configs[r.config].primary.value),
                   Select(r.systemOrder, Members(s, r.config))[..m]);
    }
  }

  ghost predicate Unblocked(c: Change, ids: seq<SystemId>) { forall i :: 0 <= i < |ids| ==> !Blocked(c, ids[i]) }

  /** The systems of the configuration, in the order in which the change reaches them. */
  function Reached(s: State, r: Request): seq<SystemId> { Select(r.systemOrder, Members(s, r.config)) }

  /** The change leaves no job behind that it does not need: it is refused before it reaches the systems,
    * or there is none, or the first one blocks it, or none does and the configuration is patched. */
  ghost predicate LeavesNothing(s: State, r: Request) {
    || Refusal(s, r).Some?
    || s.configs[r.config].primary.None?
    || var c, ids := Started(s, r, s.configs[r.config].primary.value), Reached(s, r);
       ids == [] || Blocked(c, ids[0]) || (r.patched && Unblocked(c, ids))
  }

  /** With stores that answer, the link protocol's invariant survives a change exactly then. */
  lemma ChangeKeepsInvIff(s: State, r: Request)
    requires Stored(s, r) && Inv(s) && Answering(r)
    ensures Inv(Changed(s, r).0) <==> LeavesNothing(s, r)
  {
    InvSurvivesIffNothingIsLeft(s, r);
    NothingIsLeftIff(s, r);
  }

  lemma NothingIsLeftIff(s: State, r: Request)
    requires Stored(s, r) && Inv(s) && Answering(r)
    ensures Changed(s, r).1.None? || Changed(s, r).0 == s <==> LeavesNothing(s, r)
  {
    if Refusal(s, r).None? && s.configs[r.config].primary.Some? {
      AcceptedIffNoneBlocked(s, r);
      if Changed(s, r).1.Some? { RefusedLeavesNothingIff(s, r); }
    }
  }

  lemma RefusedLeavesNothingIff(s: State, r: Request)
    requires Stored(s, r) && Inv(s) && Answering(r) && Refusal(s, r).None? && s.configs[r.config].primary.Some?
    requires Changed(s, r).1.Some?
    ensures var c, ids := Started(s, r, s.configs[r.config].primary.value), Reached(s, r);
      Changed(s, r).0 == s <==> ids == [] || Blocked(c, ids[0])
  {
    var m := RefusedChangeLeavesJobs(s, r);
    RefusedChangeKeepsRows(s, r);
    LeftoverJobs(s, Changed(s, r).0, Started(s, r, s.configs[r.config].primary.value), Reached(s, r)[..m]);
  }

  lemma UnblockedMembers(s: State, c: Change, ids: seq<SystemId>)
    requires c.s == s && Elements(ids) <= s.systems.Keys
    ensures Unblocked(c, ids) <==>
      forall id :: id in Elements(ids) ==> s.systems[id].status != Processing && id !in c.refusing
  {
    if Unblocked(c, ids) {
      forall id | id in Elements(ids) ensures s.systems[id].status != Processing && id !in c.refusing {
        var i :| 0 <= i < |ids| && ids[i] == id;
        assert !Blocked(c, ids[i]);
      }
    }
    forall i | 0 <= i < |ids| ensures ids[i] in Elements(ids) {}
  }

  lemma AcceptedIffNoneBlocked(s: State, r: Request)
    requires Stored(s, r) && Answering(r) && Refusal(s, r).None? && s.configs[r.config].primary.Some?
    ensures var c := Started(s, r, s.configs[r.config].primary.value);
      Changed(s, r).1.None? <==> r.patched && Unblocked(c, Reached(s, r))
  {
    ChangeAcceptedIff(s, r);
    SelectCount(r.systemOrder, Members(s, r.config));
    assert Elements(Reached(s, r)) == Members(s, r.config);
    UnblockedMembers(s, Started(s, r, s.configs[r.config].primary.value), Reached(s, r));
  }

  // ---- a primary key of another configuration ----

  /** A link to the changed configuration ends where the new key belongs, so at that configuration
    * exactly when the key is one of its own. */
  lemma LinkAfterChangeGoesToTheKeysConfig(s: State, r: Request, id: SystemId)
    requires Stored(s, r) && Inv(s) && Changed(s, r).1.None?
    requires Link(Changed(s, r).0, id, r.config, true, true, true).1.Accepted?
    ensures r.keyTo in s.keys
    ensures var u := LinkedAtOnce(Changed(s, r).0, id, r.config);
      && id in u.systems && u.systems[id] == System(Connected, Some(s.keys[r.keyTo].config), None)
      && (u.systems[id].config == Some(r.config) <==> s.keys[r.keyTo].config == r.config)
  {
    SuccessfulChangeKeepsInv(s, r);
    ChangedKeys(s, r);
    LinkEndsConnectedToItsTarget(Changed(s, r).0, id, r.config);
  }

  lemma ChangedKeys(s: State, r: Request)
    requires Stored(s, r) && Changed(s, r).1.None?
    ensures var t := Changed(s, r).0; t.keys == s.keys && t.configs == s.configs[r.config := Config(Some(r.keyTo))]
  {
    if s.configs[r.config].primary.Some? { SuccessfulChangeSwitchesEveryMember(s, r); }
  }

  /** A configuration without a primary key accepts an enabled key of another configuration, and an
    * unlinked system that is then linked to it ends Connected to that other configuration. */
  lemma ForeignKeyBecomesPrimary(s: State, r: Request, id: SystemId)
    requires Stored(s, r) && Inv(s) && r.authorized && r.patched
    requires r.config in s.configs && s.configs[r.config].primary.None?
    requires r.keyTo in s.keys && s.keys[r.keyTo].state == Enabled && s.keys[r.keyTo].config != r.config
    requires id in s.systems && s.systems[id].status == Disconnected && s.systems[id].config.None?
    ensures Changed(s, r).1.None? && Link(Changed(s, r).0, id, r.config, true, true, true).1.Accepted?
    ensures var u := LinkedAtOnce(Changed(s, r).0, id, r.config);
      id in u.systems && u.systems[id].status == Connected && u.systems[id].config.Some?
      && u.systems[id].config.value == s.keys[r.keyTo].config != r.config
  {
    assert Refusal(s, r).None?;
    LinkAfterChangeGoesToTheKeysConfig(s, r, id);
  }
}
