/** Which tenants can be deleted: the rounds of `OffboardingProgress` as runs of the interleaved protocol. */
module OffboardingReach {
  import opened Systems
  import opened Offboarding
  import opened OffboardingRuns
  import opened OffboardingProgress
  import opened OffboardingSteps
  import opened Tables
  import LinkRuns

  ghost predicate Reaches(w: World, w': World) { exists moves :: AdmissibleRun(w, moves) && Played(w, moves) == w' }

  lemma {:induction false} AdmissibleConcat(w: World, a: seq<Move>, b: seq<Move>)
    requires AdmissibleRun(w, a) && AdmissibleRun(Played(w, a), b)
    ensures AdmissibleRun(w, a + b)
    decreases |a|
  {
    if a == [] {
      assert a + b == b;
    } else {
      assert (a + b)[0] == a[0] && (a + b)[1..] == a[1..] + b;
      AdmissibleConcat(Moved(w, a[0]), a[1..], b);
    }
  }

  lemma StaysThere(w: World)
    ensures Reaches(w, w)
  {
    assert AdmissibleRun(w, []) && Played(w, []) == w;
  }

  lemma ReachesBy(w: World, m: Move)
    requires Admissible(w, m)
    ensures Reaches(w, Moved(w, m))
  {
    assert [m][1..] == [];
    assert AdmissibleRun(w, [m]) && Played(w, [m]) == Moved(w, m);
  }

  lemma ReachesFurther(a: World, b: World, c: World)
    requires Reaches(a, b) && Reaches(b, c)
    ensures Reaches(a, c)
  {
    var m :| AdmissibleRun(a, m) && Played(a, m) == b;
    var n :| AdmissibleRun(b, n) && Played(b, n) == c;
    AdmissibleConcat(a, m, n);
    PlayedConcat(a, m, n);
    assert Played(a, m + n) == c;
  }

  lemma {:induction false} UndisturbedIsReached(w: World, v: Verdict, n: nat)
    ensures Reaches(w, Undisturbed(w, v, n))
    decreases n
  {
    if n == 0 {
      StaysThere(w);
    } else {
      assert Moved(w, Reconcile(true, v)) == Reconciled(w, true, v);
      ReachesBy(w, Reconcile(true, v));
      UndisturbedIsReached(Reconciled(w, true, v), v, n - 1);
      ReachesFurther(w, Reconciled(w, true, v), Undisturbed(w, v, n));
    }
  }

  // ---- jobs that end ----

  lemma SettledIsReached(t: Tenant, o: Outstanding)
    ensures Reaches(World(t, Idle), World(SettleOne(t, o, {}), Idle))
  {
    match o
    case OfSystem(j) =>
      var a, b, c := FinishJob(j, Done), BeginHandler(j), CommitHandler(j, true);
      LinkRuns.RunThree(t.s, a, b, c);
      var w := World(t, Idle);
      var w1 := Moved(w, SystemJob(a));
      var w2 := Moved(w1, SystemJob(b));
      ReachesBy(w, SystemJob(a));
      ReachesBy(w1, SystemJob(b));
      ReachesBy(w2, SystemJob(c));
      ReachesFurther(w, w1, w2);
      ReachesFurther(w, w2, Moved(w2, SystemJob(c)));
    case OfKey(k) =>
      var w := World(t, Idle);
      var w1 := Moved(w, FinishKeyJob(k, Done));
      ReachesBy(w, FinishKeyJob(k, Done));
      ReachesBy(w1, HandleKeyJob(k, true));
      ReachesFurther(w, w1, Moved(w1, HandleKeyJob(k, true)));
  }

  lemma {:induction false} AllSettledIsReached(t: Tenant, order: seq<Outstanding>)
    ensures Reaches(World(t, Idle), World(SettleAll(t, order, {}), Idle))
    decreases |order|
  {
    if order == [] {
      StaysThere(World(t, Idle));
    } else {
      SettledIsReached(t, order[0]);
      AllSettledIsReached(SettleOne(t, order[0], {}), order[1..]);
      ReachesFurther(World(t, Idle), World(SettleOne(t, order[0], {}), Idle), World(SettleAll(t, order, {}), Idle));
    }
  }

  lemma CompletionIsReached(t: Tenant)
    requires Endable(t)
    ensures Reaches(World(t, Idle), World(Completed(t), Idle))
  {
    var order := Listed(AllOutstanding(t));
    AnyOrderCompletes(t, order, {});
    AllSettledIsReached(t, order);
  }

  lemma {:induction false} Listed<T>(rows: set<T>) returns (order: seq<T>)
    ensures Lists(order, rows)
    decreases |rows|
  {
    order := [];
    if rows != {} {
      var x :| x in rows;
      var rest := Listed(rows - {x});
      order := [x] + rest;
      assert forall y :: y in rest <==> y in Elements(rest);
      assert Elements(order) == rows;
    }
  }

  // ---- rounds ----

  lemma PassIsReached(t: Tenant)
    ensures Reaches(World(t, Idle), Arrived(Offboarded(t, Answering)))
  {
    var v := UnmapVerdict(DetachPass(UnlinkPass(t, Answering).db, Answering).db, Answering);
    var w, w1 := World(t, Idle), World(t, ListLinked(0));
    ReachesBy(w, Reconcile(true, v));
    StepsAreOffboardTenant(t);
    var n: nat :| Undisturbed(w1, v, n) == Arrived(Offboarded(t, Answering));
    UndisturbedIsReached(w1, v, n);
    ReachesFurther(w, w1, Arrived(Offboarded(t, Answering)));
  }

  lemma PassCooperates(t: Tenant)
    requires Cooperative(t)
    ensures Cooperative(Offboarded(t, Answering).0)
  {
    UnlinkPassHalves(t);
    if Linked(t.s) == {} { DetachPassHalves(UnlinkPass(t, Answering).db); }
  }

  lemma CompletionFollows(t: Tenant, result: (Tenant, Result))
    requires Reaches(World(t, Idle), Arrived(result)) && result.1 == Verdict(Wait) && Endable(result.0)
    ensures Reaches(World(t, Idle), World(Completed(result.0), Idle))
  {
    CompletionIsReached(result.0);
    ReachesFurther(World(t, Idle), World(result.0, Idle), World(Completed(result.0), Idle));
  }

  lemma DeletionFollows(t: Tenant, result: (Tenant, Result))
    requires Reaches(World(t, Idle), Arrived(result)) && result.1 == Verdict(Success)
    ensures exists w :: Reaches(World(t, Idle), w) && w.phase.Gone?
  {
    var last := World(result.0, Deleting);
    ReachesBy(last, Reconcile(true, NextStep));
    ReachesFurther(World(t, Idle), last, last.(phase := Gone));
  }

  lemma RoundIsReached(t: Tenant)
    requires Cooperative(t) && !Succeeds(t)
    ensures Reaches(World(t, Idle), World(NextRound(t), Idle))
  {
    RoundLowersTheMeasure(t);
    PassIsReached(t);
    PassCooperates(t);
    CompletionFollows(t, Offboarded(t, Answering));
  }

  ghost predicate Deletable(w: World) { exists moves :: AdmissibleRun(w, moves) && Played(w, moves).phase.Gone? }

  lemma ReachesADeletable(w: World, w': World)
    requires Reaches(w, w') && w'.phase.Gone?
    ensures Deletable(w)
  {
    var moves :| AdmissibleRun(w, moves) && Played(w, moves) == w';
    assert Played(w, moves).phase.Gone?;
  }

  lemma {:induction false} CooperativeIsDeletable(t: Tenant)
    requires Cooperative(t)
    ensures exists w :: Reaches(World(t, Idle), w) && w.phase.Gone?
    decreases BitsLeft(t)
  {
    if Succeeds(t) {
      PassIsReached(t);
      DeletionFollows(t, Offboarded(t, Answering));
    } else {
      RoundShortensWhatIsLeft(t);
      RoundIsReached(t);
      CooperativeIsDeletable(NextRound(t));
      var gone :| Reaches(World(NextRound(t), Idle), gone) && gone.phase.Gone?;
      ReachesFurther(World(t, Idle), World(NextRound(t), Idle), gone);
    }
  }

  // ---- keys that were left DETACHING ----

  function DetachingKeys(s: State): set<KeyId> { set k | k in s.keys && s.keys[k].state == Detaching }

  /** The key sync can take every such key out of that state. */
  lemma {:induction false} DetachingIsLeft(t: Tenant) returns (t': Tenant)
    ensures Reaches(World(t, Idle), World(t', Idle))
    ensures t' == t.(s := t.s.(keys := t'.s.keys)) && t'.s.keys.Keys == t.s.keys.Keys && DetachingKeys(t'.s) == {}
    decreases |DetachingKeys(t.s)|
  {
    t' := t;
    if DetachingKeys(t.s) == {} {
      StaysThere(World(t, Idle));
    } else {
      var k :| k in DetachingKeys(t.s);
      var t1 := SetKey(t, k, Enabled);
      ReachesBy(World(t, Idle), SyncKey(k, Enabled));
      assert DetachingKeys(t1.s) == DetachingKeys(t.s) - {k};
      t' := DetachingIsLeft(t1);
      ReachesFurther(World(t, Idle), World(t1, Idle), World(t', Idle));
    }
  }

  // ---- exactly which tenants can be deleted ----

  /** The tables list each row once, nobody is refused a job, and the registry unmaps. */
  ghost predicate Willing(t: Tenant) {
    && Lists(t.systemOrder, t.s.systems.Keys) && Lists(t.keyOrder, t.s.keys.Keys)
    && t.refusing == {} && t.keysRefusing == {}
    && forall id :: id in t.s.systems ==> Judge(AnswerFor(t, id)) == NextStep
  }

  /** Nothing in flight: a tenant can be deleted exactly when no linked system is Processing or has a
    * configuration without a primary key. */
  lemma DeletableIff(w: World)
    requires Fresh(w) && Willing(w.t)
    ensures Deletable(w) <==>
      forall id :: id in Linked(w.t.s) ==> w.t.s.systems[id].status != Processing && HasPrimary(w.t.s, id)
  {
    if id :| id in Linked(w.t.s) && (w.t.s.systems[id].status == Processing || !HasPrimary(w.t.s, id)) {
      forall moves | AdmissibleRun(w, moves) ensures !Played(w, moves).phase.Gone? {
        BlockingSystemPreventsDeletion(w, moves, id);
      }
    } else {
      FreshIsDeletable(w);
    }
  }

  lemma FreshIsDeletable(w: World)
    requires Fresh(w) && Willing(w.t)
    requires forall id :: id in Linked(w.t.s) ==> w.t.s.systems[id].status != Processing && HasPrimary(w.t.s, id)
    ensures Deletable(w)
  {
    var t := DetachingIsLeft(w.t);
    assert forall id :: id in Linked(t.s) ==> id in Linked(w.t.s);
    assert forall id :: AnswerFor(t, id) == AnswerFor(w.t, id);
    assert forall k :: k in Undetached(t.s) ==> k !in DetachingKeys(t.s);
    assert Cooperative(t);
    CooperativeIsDeletable(t);
    var gone :| Reaches(World(t, Idle), gone) && gone.phase.Gone?;
    ReachesFurther(w, World(t, Idle), gone);
    ReachesADeletable(w, gone);
  }
}
