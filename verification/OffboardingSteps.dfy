/** The reconciler's steps, when nothing comes between them, are one call of OffboardTenant. */
module OffboardingSteps {
  import opened Systems
  import opened Offboarding
  import opened OffboardingRuns
  import opened OffboardingProgress
  import P = Pagination
  import L = PaginationLaws

  /** The next `n` calls of the reconciler, each answered, with `v` for the unmap loop. */
  function Undisturbed(w: World, v: Verdict, n: nat): World
    decreases n
  {
    if n == 0 then w else Undisturbed(Reconciled(w, true, v), v, n - 1)
  }

  lemma {:induction false} UndisturbedTwice(w: World, v: Verdict, m: nat, n: nat)
    ensures Undisturbed(Undisturbed(w, v, m), v, n) == Undisturbed(w, v, m + n)
    decreases m
  {
    if m > 0 { UndisturbedTwice(Reconciled(w, true, v), v, m - 1, n); }
  }

  ghost predicate Leads(w: World, v: Verdict, w': World) { exists n: nat :: Undisturbed(w, v, n) == w' }

  lemma LeadsNowhere(w: World, v: Verdict)
    ensures Leads(w, v, w)
  {
    assert Undisturbed(w, v, 0) == w;
  }

  lemma LeadsOn(w: World, v: Verdict)
    ensures Leads(w, v, Reconciled(w, true, v))
  {
    assert Undisturbed(w, v, 1) == Undisturbed(Reconciled(w, true, v), v, 0);
  }

  lemma LeadsFurther(a: World, v: Verdict, b: World, c: World)
    requires Leads(a, v, b) && Leads(b, v, c)
    ensures Leads(a, v, c)
  {
    var m: nat :| Undisturbed(a, v, m) == b;
    var n: nat :| Undisturbed(b, v, n) == c;
    UndisturbedTwice(a, v, m, n);
  }

  // ---- the unlink step ----

  function AfterUnlinkRound(ending: P.Ending, offset: nat): Phase {
    if ending.ProcessError? then Idle
    else if ending.Continues? then ListLinked(offset + P.DefaultLimit)
    else CheckUnlinked
  }

  lemma {:induction false} UnlinkEachLeads(t: Tenant, offset: nat, ids: seq<SystemId>, last: bool, v: Verdict)
    ensures var (t', ok) := UnlinkSeq(t, ids);
      Leads(World(t, UnlinkEach(offset, ids, last)), v, World(t', if ok then UnlinkEach(offset, [], last) else Idle))
    decreases |ids|
  {
    var w := World(t, UnlinkEach(offset, ids, last));
    if ids == [] {
      LeadsNowhere(w, v);
    } else {
      LeadsOn(w, v);
      if UnlinkOne(t, ids[0]).1 {
        var (t', ok) := UnlinkSeq(t, ids);
        UnlinkEachLeads(UnlinkOne(t, ids[0]).0, offset, ids[1..], last, v);
        LeadsFurther(w, v, Reconciled(w, true, v), World(t', if ok then UnlinkEach(offset, [], last) else Idle));
      }
    }
  }

  lemma UnlinkCounted(t: Tenant, offset: nat, last: bool, v: Verdict)
    ensures Reconciled(World(t, UnlinkEach(offset, [], last)), true, v)
      == World(t, if last || |UnlinkRows(t)| <= offset + P.DefaultLimit then CheckUnlinked
                  else ListLinked(offset + P.DefaultLimit))
  {
  }

  lemma UnlinkRoundLeads(t: Tenant, offset: nat, round: nat, v: Verdict)
    ensures var call := UnlinkCall(L.AlwaysOk, L.AlwaysOk);
      Leads(World(t, ListLinked(offset)), v,
            World(call.After(t, offset), AfterUnlinkRound(call.EndingAt(t, offset, round), offset)))
  {
    var call := UnlinkCall(L.AlwaysOk, L.AlwaysOk);
    var page, t' := call.PageAt(t, offset), call.After(t, offset);
    var listed := World(t, ListLinked(offset));
    var w := Reconciled(listed, true, v);
    assert w == World(t, UnlinkEach(offset, page, page == []));
    LeadsOn(listed, v);
    UnlinkEachLeads(t, offset, page, page == [], v);
    if call.Accepts(t, offset) {
      var counted := World(t', UnlinkEach(offset, [], page == []));
      var end := World(t', AfterUnlinkRound(call.EndingAt(t, offset, round), offset));
      UnlinkCounted(t', offset, page == [], v);
      LeadsOn(counted, v);
      LeadsFurther(w, v, counted, end);
      LeadsFurther(listed, v, w, end);
    } else {
      LeadsFurther(listed, v, w, World(t', Idle));
    }
  }

  lemma {:induction false} UnlinkPassLeads(t: Tenant, offset: nat, round: nat, v: Verdict)
    requires UnlinkCall(L.AlwaysOk, L.AlwaysOk).Stops()
    ensures var pass := P.PassFrom(UnlinkCall(L.AlwaysOk, L.AlwaysOk), t, offset, round, false);
      Leads(World(t, ListLinked(offset)), v, World(pass.db, if pass.ending.Finished? then CheckUnlinked else Idle))
    decreases if offset < |UnlinkRows(t)| then |UnlinkRows(t)| - offset else 0
  {
    var call := UnlinkCall(L.AlwaysOk, L.AlwaysOk);
    var t' := call.After(t, offset);
    UnlinkRoundLeads(t, offset, round, v);
    if call.EndingAt(t, offset, round).Continues? {
      UnlinkPassLeads(t', offset + call.size, round + 1, v);
      var pass := P.PassFrom(call, t', offset + call.size, round + 1, false);
      LeadsFurther(World(t, ListLinked(offset)), v, World(t', ListLinked(offset + call.size)),
                   World(pass.db, if pass.ending.Finished? then CheckUnlinked else Idle));
    }
  }

  // ---- the detach step ----

  function AfterDetachRound(ending: P.Ending, offset: nat): Phase {
    if ending.ProcessError? then Idle
    else if ending.Continues? then ListKeys(offset + P.DefaultLimit)
    else CheckProcessed
  }

  lemma {:induction false} DetachEachLeads(t: Tenant, offset: nat, ids: seq<KeyId>, last: bool, v: Verdict)
    ensures var (t', ok) := DetachSeq(t, ids);
      Leads(World(t, DetachEach(offset, ids, last)), v, World(t', if ok then DetachEach(offset, [], last) else Idle))
    decreases |ids|
  {
    var w := World(t, DetachEach(offset, ids, last));
    if ids == [] {
      LeadsNowhere(w, v);
    } else {
      LeadsOn(w, v);
      if DetachOne(t, ids[0]).1 {
        var (t', ok) := DetachSeq(t, ids);
        DetachEachLeads(DetachOne(t, ids[0]).0, offset, ids[1..], last, v);
        LeadsFurther(w, v, Reconciled(w, true, v), World(t', if ok then DetachEach(offset, [], last) else Idle));
      }
    }
  }

  lemma DetachCounted(t: Tenant, offset: nat, last: bool, v: Verdict)
    ensures Reconciled(World(t, DetachEach(offset, [], last)), true, v)
      == World(t, if last || |DetachRows(t)| <= offset + P.DefaultLimit then CheckProcessed
                  else ListKeys(offset + P.DefaultLimit))
  {
  }

  lemma DetachRoundLeads(t: Tenant, offset: nat, round: nat, v: Verdict)
    ensures var call := DetachCall(L.AlwaysOk, L.AlwaysOk);
      Leads(World(t, ListKeys(offset)), v,
            World(call.After(t, offset), AfterDetachRound(call.EndingAt(t, offset, round), offset)))
  {
    var call := DetachCall(L.AlwaysOk, L.AlwaysOk);
    var page, t' := call.PageAt(t, offset), call.After(t, offset);
    var listed := World(t, ListKeys(offset));
    var w := Reconciled(listed, true, v);
    assert w == World(t, DetachEach(offset, page, page == []));
    LeadsOn(listed, v);
    DetachEachLeads(t, offset, page, page == [], v);
    if call.Accepts(t, offset) {
      var counted := World(t', DetachEach(offset, [], page == []));
      var end := World(t', AfterDetachRound(call.EndingAt(t, offset, round), offset));
      DetachCounted(t', offset, page == [], v);
      LeadsOn(counted, v);
      LeadsFurther(w, v, counted, end);
      LeadsFurther(listed, v, w, end);
    } else {
      LeadsFurther(listed, v, w, World(t', Idle));
    }
  }

  lemma {:induction false} DetachPassLeads(t: Tenant, offset: nat, round: nat, v: Verdict)
    requires DetachCall(L.AlwaysOk, L.AlwaysOk).Stops()
    ensures var pass := P.PassFrom(DetachCall(L.AlwaysOk, L.AlwaysOk), t, offset, round, false);
      Leads(World(t, ListKeys(offset)), v, World(pass.db, if pass.ending.Finished? then CheckProcessed else Idle))
    decreases if offset < |DetachRows(t)| then |DetachRows(t)| - offset else 0
  {
    var call := DetachCall(L.AlwaysOk, L.AlwaysOk);
    var t' := call.After(t, offset);
    DetachRoundLeads(t, offset, round, v);
    if call.EndingAt(t, offset, round).Continues? {
      DetachPassLeads(t', offset + call.size, round + 1, v);
      var pass := P.PassFrom(call, t', offset + call.size, round + 1, false);
      LeadsFurther(World(t, ListKeys(offset)), v, World(t', ListKeys(offset + call.size)),
                   World(pass.db, if pass.ending.Finished? then CheckProcessed else Idle));
    }
  }

  // ---- the whole pass ----

  function Checked(t: Tenant, v: Verdict): Phase {
    if Unprocessed(t.s) != {} then Idle
    else if v == GiveUp then Stopped
    else if v != NextStep || Undetached(t.s) != {} then Idle
    else Deleting
  }

  lemma FinalChecksLead(t: Tenant, v: Verdict)
    ensures Leads(World(t, CheckProcessed), v, World(t, Checked(t, v)))
  {
    var w := World(t, CheckProcessed);
    LeadsOn(w, v);
    if Unprocessed(t.s) == {} {
      var w1 := World(t, Unmapping);
      LeadsOn(w1, v);
      LeadsFurther(w, v, w1, Reconciled(w1, true, v));
      if v == NextStep {
        var w2 := World(t, CheckDetached);
        LeadsOn(w2, v);
        LeadsFurther(w, v, w2, Reconciled(w2, true, v));
      }
    }
  }

  lemma DetachAndChecksLead(t: Tenant, v: Verdict)
    requires Linked(t.s) == {}
    ensures var pass := DetachPass(t, Answering);
      Leads(World(t, CheckUnlinked), v, World(pass.db, if pass.ending.Finished? then Checked(pass.db, v) else Idle))
  {
    var w, w1 := World(t, CheckUnlinked), World(t, ListKeys(0));
    var pass := DetachPass(t, Answering);
    var end := World(pass.db, if pass.ending.Finished? then Checked(pass.db, v) else Idle);
    LeadsOn(w, v);
    DetachCallStops(L.AlwaysOk, L.AlwaysOk);
    DetachPassLeads(t, 0, 0, v);
    if pass.ending.Finished? {
      FinalChecksLead(pass.db, v);
      LeadsFurther(w1, v, World(pass.db, CheckProcessed), end);
    }
    LeadsFurther(w, v, w1, end);
  }

  /** Where a result of OffboardTenant leaves the reconciler. */
  function Reached(result: Result): Phase {
    match result
    case Verdict(v) => if v == Success then Deleting else if v == GiveUp then Stopped else Idle
    case Erred => Idle
  }

  lemma UnmappingIsNeverTheEnd(t: Tenant, store: Store)
    ensures UnmapVerdict(t, store) != Success
  {
    UnmapCallIsSteady(store.systemsListed, store.systemsCounted);
    UnmapPassIsOneLoop(t.(worst := NextStep), store.systemsListed, store.systemsCounted, 0, 0);
    UnmapEffect(t.(worst := NextStep), P.Concat(UnmapPass(t, store).batches));
  }

  lemma ResultAfterUnlinking(t: Tenant)
    ensures var pass := DetachPass(t, Answering);
      && DetachedAndUnmapped(t, Answering).0 == pass.db
      && Reached(DetachedAndUnmapped(t, Answering).1)
         == if pass.ending.Finished? then Checked(pass.db, UnmapVerdict(pass.db, Answering)) else Idle
  {
    UnmappingIsNeverTheEnd(DetachPass(t, Answering).db, Answering);
  }

  function Arrived(result: (Tenant, Result)): World { World(result.0, Reached(result.1)) }

  lemma DetachedAndUnmappedLeads(t: Tenant)
    requires Linked(t.s) == {}
    ensures Leads(World(t, CheckUnlinked), UnmapVerdict(DetachPass(t, Answering).db, Answering),
                  Arrived(DetachedAndUnmapped(t, Answering)))
  {
    ResultAfterUnlinking(t);
    DetachAndChecksLead(t, UnmapVerdict(DetachPass(t, Answering).db, Answering));
  }

  /** Left alone by the job outcomes and with stores that answer, the steps of a pass end where
    * OffboardTenant ends: with the same rows and jobs, and at the deletion exactly on success. */
  lemma StepsAreOffboardTenant(t: Tenant)
    ensures var v := UnmapVerdict(DetachPass(UnlinkPass(t, Answering).db, Answering).db, Answering);
      Leads(World(t, ListLinked(0)), v, Arrived(Offboarded(t, Answering)))
  {
    var unlinks := UnlinkPass(t, Answering);
    var u := unlinks.db;
    var v := UnmapVerdict(DetachPass(u, Answering).db, Answering);
    UnlinkCallStops(L.AlwaysOk, L.AlwaysOk);
    UnlinkPassLeads(t, 0, 0, v);
    if unlinks.ending.Finished? {
      if Linked(u.s) != {} { LeadsOn(World(u, CheckUnlinked), v); } else { DetachedAndUnmappedLeads(u); }
      LeadsFurther(World(t, ListLinked(0)), v, World(u, CheckUnlinked), Arrived(Offboarded(t, Answering)));
    }
  }
}
