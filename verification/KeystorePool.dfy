/** The pool of prepared keystores and its assignment to tenants (internal/manager/keystorepool.go,
  * internal/manager/tenantconfigs.go, internal/manager/providerconfigmanager.go). */
module KeystorePool {
  import opened Optional
  import opened Tables

  type Keystore = nat
  type TenantId = nat

  // ---- the pool and its filling ----

  /** The pool table in order of creation. */
  class Pool {
    var keystores: seq<Keystore>

    constructor ()
      ensures keystores == []
    {
      keystores := [];
    }

    method Count(ok: bool) returns (count: Option<nat>)
      ensures count == if ok then Some(|keystores|) else None
    {
      count := if ok then Some(|keystores|) else None;
    }

    method Add(keystore: Keystore, ok: bool)
      modifies this
      ensures keystores == if ok then old(keystores) + [keystore] else old(keystores)
    {
      if ok { keystores := keystores + [keystore]; }
    }

    /** The youngest keystore leaves the pool; an empty pool or a failed delete is an error. */
    method Pop(ok: bool) returns (keystore: Option<Keystore>)
      modifies this
      ensures keystore.Some? <==> ok && old(keystores) != []
      ensures keystore.Some? ==> old(keystores) == keystores + [keystore.value]
      ensures keystore.None? ==> keystores == old(keystores)
    {
      if !ok || keystores == [] { return None; }
      keystore := Some(keystores[|keystores| - 1]);
      keystores := keystores[..|keystores| - 1];
    }
  }

  function Max(a: int, b: int): int { if a < b then b else a }

  /** FillKeystorePool with nobody else at the pool: `created(i)` and `added(i)` are the answers of round
    * `i`. It ends at max(old count, size), or at the first round that fails with what it has added so far. */
  method FillKeystorePool(pool: Pool, size: int, counted: bool, created: nat -> Option<Keystore>, added: nat -> bool)
    returns (ok: bool)
    modifies pool
    ensures old(pool.keystores) <= pool.keystores
    ensures forall i :: |old(pool.keystores)| <= i < |pool.keystores| ==>
      created(i) == Some(pool.keystores[i]) && added(i)
    ensures ok ==> |pool.keystores| == Max(|old(pool.keystores)|, size)
    ensures !ok ==>
      !counted || (|pool.keystores| < size && !(created(|pool.keystores|).Some? && added(|pool.keystores|)))
  {
    var count := pool.Count(counted);
    if count.None? { return false; }
    var i := count.value;
    while i < size
      invariant |old(pool.keystores)| <= i <= Max(|old(pool.keystores)|, size)
      invariant i == |pool.keystores|
      invariant old(pool.keystores) <= pool.keystores
      invariant forall j :: |old(pool.keystores)| <= j < i ==> created(j) == Some(pool.keystores[j]) && added(j)
    {
      var keystore := created(i);
      if keystore.None? { return false; }
      if !added(i) { return false; }
      pool.Add(keystore.value, true);
      i := i + 1;
    }
    return true;
  }

  // ---- tenants drawing from the pool, in any interleaving with fills ----

  /** Besides the tables: every keystore ever added, those that no row refers to any more with the
    * tenant they were drawn for, how often each tenant drew, and the callers that have found no stored
    * keystore and will draw one. */
  datatype World = World(
    pool: seq<Keystore>, stored: map<TenantId, Keystore>,
    added: set<Keystore>, lost: map<Keystore, TenantId>, draws: map<TenantId, nat>, drawing: map<nat, TenantId>)

  datatype Step =
    | AddNew(keystore: Keystore)
    | Look(caller: nat, tenant: TenantId)
    | Draw(caller: nat, committed: bool)

  function Drawn(w: World, t: TenantId): nat { if t in w.draws then w.draws[t] else 0 }

  /** initDefaultKeystoreFromPool: pop and store in one transaction; storing is an upsert. */
  function Drew(w: World, c: nat, committed: bool): World
    requires c in w.drawing
  {
    var t, w' := w.drawing[c], w.(drawing := w.drawing - {c});
    if w.pool == [] || !committed then w'
    else
      var keystore := w.pool[|w.pool| - 1];
      w'.(pool := w.pool[..|w.pool| - 1],
          stored := w.stored[t := keystore],
          lost := if t in w.stored then w.lost[w.stored[t] := t] else w.lost,
          draws := w.draws[t := Drawn(w, t) + 1])
  }

  function Next(w: World, step: Step): World {
    match step
    case AddNew(keystore) =>
      if keystore in w.added then w else w.(pool := w.pool + [keystore], added := w.added + {keystore})
    case Look(c, t) => if c in w.drawing || t in w.stored then w else w.(drawing := w.drawing[c := t])
    case Draw(c, committed) => if c in w.drawing then Drew(w, c, committed) else w
  }

  function Run(w: World, steps: seq<Step>): World
    decreases |steps|
  {
    if steps == [] then w else Run(Next(w, steps[0]), steps[1..])
  }

  function Held(w: World): set<Keystore> { set t | t in w.stored :: w.stored[t] }

  /** Every keystore is in exactly one place. */
  ghost predicate Conserved(w: World) {
    && NoDuplicates(w.pool)
    && (forall t, u :: t in w.stored && u in w.stored && w.stored[t] == w.stored[u] ==> t == u)
    && (forall x :: x in w.added <==> x in w.pool || x in Held(w) || x in w.lost)
    && (forall x :: !(x in w.pool && x in Held(w)) && !(x in w.pool && x in w.lost) && !(x in Held(w) && x in w.lost))
  }

  /** The drawn keystore is held, the tenant's former one is not, and the others stay. */
  lemma HeldAfterDraw(w: World, c: nat, x: Keystore, y: Keystore)
    requires Conserved(w) && c in w.drawing && w.pool != [] && x == w.pool[|w.pool| - 1]
    ensures var t := w.drawing[c];
      y in Held(Drew(w, c, true)) <==> y == x || (y in Held(w) && !(t in w.stored && y == w.stored[t]))
  {
    var w', t := Drew(w, c, true), w.drawing[c];
    assert t in w'.stored && w'.stored[t] == x;
    if y in Held(w) && !(t in w.stored && y == w.stored[t]) {
      var u :| u in w.stored && w.stored[u] == y;
      assert u in w'.stored && w'.stored[u] == y;
    }
  }

  lemma DrawnAreDistinct(w: World, c: nat, t: TenantId, u: TenantId)
    requires Conserved(w) && c in w.drawing && w.pool != []
    requires var w' := Drew(w, c, true); t in w'.stored && u in w'.stored && w'.stored[t] == w'.stored[u]
    ensures t == u
  {
    assert forall v :: v in w.stored ==> w.stored[v] in Held(w);
    assert w.pool[|w.pool| - 1] in w.pool;
  }

  /** Where a keystore is after a draw: the drawn one is held, the tenant's former one is lost. */
  lemma PlaceAfterDraw(w: World, c: nat, y: Keystore)
    requires Conserved(w) && c in w.drawing && w.pool != []
    ensures var w' := Drew(w, c, true);
      && (y in w'.added <==> y in w'.pool || y in Held(w') || y in w'.lost)
      && !(y in w'.pool && y in Held(w')) && !(y in w'.pool && y in w'.lost) && !(y in Held(w') && y in w'.lost)
  {
    var w', t, x := Drew(w, c, true), w.drawing[c], w.pool[|w.pool| - 1];
    assert w.pool == w'.pool + [x];
    assert x in w.pool && x !in w'.pool;
    HeldAfterDraw(w, c, x, y);
    assert t in w.stored ==> w.stored[t] in Held(w);
  }

  lemma DrawKeepsConserved(w: World, c: nat, committed: bool)
    requires Conserved(w) && c in w.drawing
    ensures Conserved(Drew(w, c, committed))
  {
    var w' := Drew(w, c, committed);
    if w.pool != [] && committed {
      forall t, u | t in w'.stored && u in w'.stored && w'.stored[t] == w'.stored[u] ensures t == u {
        DrawnAreDistinct(w, c, t, u);
      }
      forall y
        ensures y in w'.added <==> y in w'.pool || y in Held(w') || y in w'.lost
        ensures !(y in w'.pool && y in Held(w')) && !(y in w'.pool && y in w'.lost) && !(y in Held(w') && y in w'.lost)
      {
        PlaceAfterDraw(w, c, y);
      }
    } else {
      assert Held(w') == Held(w);
    }
  }

  lemma StepKeepsConserved(w: World, step: Step)
    requires Conserved(w)
    ensures Conserved(Next(w, step))
  {
    if step.Draw? && step.caller in w.drawing {
      DrawKeepsConserved(w, step.caller, step.committed);
    } else {
      assert Held(Next(w, step)) == Held(w);
    }
  }

  lemma {:induction false} RunKeepsConserved(w: World, steps: seq<Step>)
    requires Conserved(w)
    ensures Conserved(Run(w, steps))
    decreases |steps|
  {
    if steps != [] {
      StepKeepsConserved(w, steps[0]);
      RunKeepsConserved(Next(w, steps[0]), steps[1..]);
    }
  }

  const Empty := World([], map[], {}, map[], map[], map[])

  /** Over every run, without any hypothesis: the added keystores are the disjoint union of the pooled,
    * the assigned and the lost ones, and no keystore is assigned to two tenants. */
  lemma KeystoresAreConserved(steps: seq<Step>)
    ensures var w := Run(Empty, steps);
      && w.added == Elements(w.pool) + Held(w) + w.lost.Keys
      && Elements(w.pool) !! Held(w) && Elements(w.pool) !! w.lost.Keys && Held(w) !! w.lost.Keys
      && |Elements(w.pool)| == |w.pool|
      && (forall t, u :: t in w.stored && u in w.stored && t != u ==> w.stored[t] != w.stored[u])
  {
    RunKeepsConserved(Empty, steps);
    ElementsCount(Run(Empty, steps).pool);
    ConservedIsDisjointUnion(Run(Empty, steps));
  }

  lemma ConservedIsDisjointUnion(w: World)
    requires Conserved(w)
    ensures w.added == Elements(w.pool) + Held(w) + w.lost.Keys
    ensures Elements(w.pool) !! Held(w) && Elements(w.pool) !! w.lost.Keys && Held(w) !! w.lost.Keys
  {
    var pool, held, lost := Elements(w.pool), Held(w), w.lost.Keys;
    assert forall x :: x in w.added <==> x in pool || x in held || x in lost;
    assert forall x :: x in pool ==> x !in held && x !in lost;
  }

  // ---- what every tenant drew ----

  function LostBy(w: World, t: TenantId): set<Keystore> { set x | x in w.lost && w.lost[x] == t }

  /** A tenant's draws are its stored keystore and the ones it lost. */
  ghost predicate Accounted(w: World) {
    && (forall x :: x in w.lost ==> w.lost[x] in w.stored)
    && (forall t :: Drawn(w, t) == (if t in w.stored then 1 else 0) + |LostBy(w, t)|)
  }

  lemma LostByAfterDraw(w: World, c: nat, u: TenantId)
    requires Conserved(w) && c in w.drawing && w.pool != []
    ensures var t := w.drawing[c];
      |LostBy(Drew(w, c, true), u)| == |LostBy(w, u)| + if u == t && t in w.stored then 1 else 0
  {
    var w', t := Drew(w, c, true), w.drawing[c];
    if u == t && t in w.stored {
      assert w.stored[t] in Held(w) && w.stored[t] !in w.lost;
      assert LostBy(w', u) == LostBy(w, u) + {w.stored[t]};
    } else {
      assert t in w.stored ==> w.stored[t] in Held(w);
      assert LostBy(w', u) == LostBy(w, u);
    }
  }

  lemma DrawKeepsAccounts(w: World, c: nat)
    requires Conserved(w) && Accounted(w) && c in w.drawing && w.pool != []
    ensures Accounted(Drew(w, c, true))
  {
    var w' := Drew(w, c, true);
    forall u ensures Drawn(w', u) == (if u in w'.stored then 1 else 0) + |LostBy(w', u)| {
      LostByAfterDraw(w, c, u);
    }
  }

  lemma OtherStepsKeepAccounts(w: World, w': World)
    requires Accounted(w) && w'.lost == w.lost && w'.stored == w.stored && w'.draws == w.draws
    ensures Accounted(w')
  {
    forall t ensures Drawn(w', t) == (if t in w'.stored then 1 else 0) + |LostBy(w', t)| {
      assert LostBy(w', t) == LostBy(w, t) && Drawn(w', t) == Drawn(w, t);
    }
  }

  lemma StepKeepsAccounts(w: World, step: Step)
    requires Conserved(w) && Accounted(w)
    ensures Accounted(Next(w, step))
  {
    if step.Draw? && step.caller in w.drawing && w.pool != [] && step.committed {
      DrawKeepsAccounts(w, step.caller);
    } else {
      OtherStepsKeepAccounts(w, Next(w, step));
    }
  }

  lemma {:induction false} RunKeepsAccounts(w: World, steps: seq<Step>)
    requires Conserved(w) && Accounted(w)
    ensures Accounted(Run(w, steps))
    decreases |steps|
  {
    if steps != [] {
      StepKeepsConserved(w, steps[0]);
      StepKeepsAccounts(w, steps[0]);
      RunKeepsAccounts(Next(w, steps[0]), steps[1..]);
    }
  }

  /** Over every run: a tenant's draws are its stored keystore and the ones it lost, so nothing is lost
    * exactly when every tenant drew at most once. */
  lemma NothingIsLostIffNoTenantDrewTwice(steps: seq<Step>)
    ensures var w := Run(Empty, steps);
      && (forall t :: Drawn(w, t) == (if t in w.stored then 1 else 0) + |LostBy(w, t)|)
      && (w.lost == map[] <==> forall t :: Drawn(w, t) <= 1)
  {
    var w := Run(Empty, steps);
    assert forall t :: LostBy(Empty, t) == {};
    RunKeepsAccounts(Empty, steps);
    if w.lost == map[] {
      assert forall t :: LostBy(w, t) == {};
    } else {
      var x :| x in w.lost;
      assert x in LostBy(w, w.lost[x]);
      assert Drawn(w, w.lost[x]) >= 2;
    }
  }

  // ---- with one caller per tenant at a time ----

  /** A caller looks for a tenant's keystore only when no other caller is about to draw one for it. */
  predicate Serial(w: World, step: Step) {
    step.Look? ==> forall d :: d in w.drawing ==> w.drawing[d] != step.tenant
  }

  predicate SerialRun(w: World, steps: seq<Step>)
    decreases |steps|
  {
    steps == [] || (Serial(w, steps[0]) && SerialRun(Next(w, steps[0]), steps[1..]))
  }

  ghost predicate Tidy(w: World) {
    && w.lost == map[]
    && (forall c :: c in w.drawing ==> w.drawing[c] !in w.stored)
    && (forall c, d :: c in w.drawing && d in w.drawing && w.drawing[c] == w.drawing[d] ==> c == d)
    && (forall t :: Drawn(w, t) == if t in w.stored then 1 else 0)
  }

  lemma {:induction false} SerialRunKeepsTidy(w: World, steps: seq<Step>)
    requires Tidy(w) && SerialRun(w, steps)
    ensures Tidy(Run(w, steps))
    decreases |steps|
  {
    if steps != [] {
      SerialRunKeepsTidy(Next(w, steps[0]), steps[1..]);
    }
  }

  /** Then nothing is lost, and every tenant draws at most once. */
  lemma SerialDrawsLoseNothing(steps: seq<Step>)
    requires SerialRun(Empty, steps)
    ensures var w := Run(Empty, steps);
      && w.added == Elements(w.pool) + Held(w)
      && Elements(w.pool) !! Held(w)
      && forall t :: Drawn(w, t) <= 1 && (Drawn(w, t) == 1 <==> t in w.stored)
  {
    SerialRunKeepsTidy(Empty, steps);
    KeystoresAreConserved(steps);
  }

  /** The stored keystore is looked up before the transaction, so two callers of one tenant may both
    * draw, and the first keystore is lost. */
  lemma TwoCallersLoseAKeystore(w: World, c: nat, d: nat, t: TenantId)
    requires c != d && c !in w.drawing && d !in w.drawing && t !in w.stored && |w.pool| >= 2
    ensures var w' := Next(Next(Next(Next(w, Look(c, t)), Look(d, t)), Draw(c, true)), Draw(d, true));
      && w'.lost == w.lost[w.pool[|w.pool| - 1] := t]
      && w'.stored == w.stored[t := w.pool[|w.pool| - 2]]
      && Drawn(w', t) == Drawn(w, t) + 2
  {
    var w2 := Next(Next(w, Look(c, t)), Look(d, t));
    assert w2 == w.(drawing := w.drawing[c := t][d := t]);
    var w3 := Next(w2, Draw(c, true));
    assert w3.drawing[d] == t && w3.stored[t] == w.pool[|w.pool| - 1];
  }
}
