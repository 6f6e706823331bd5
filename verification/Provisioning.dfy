/** Tenant provisioning (internal/operator/operator.go, internal/operator/probe.go): the handler is
  * invoked again and again, possibly several times at once, until it completes or fails. */
module Provisioning {
  import opened Tables

  type TenantId = nat
  datatype Role = Admin | Auditor

  /** The tenant table, the groups in the tenants' schemas, and the tenants whose groups the registry
    * accepted. A tenant's schema name is an encoding of its identifier. */
  datatype Db = Db(tenants: seq<TenantId>, groups: seq<(TenantId, Role)>, accepted: set<TenantId>)

  datatype Response = Complete | Fail | Continue

  /** What the stores and validators answer to one invocation. */
  datatype Answers = Answers(
    parsed: bool, schemaProbed: bool, adminProbed: bool, auditorProbed: bool,
    schemaValid: bool, tenantValid: bool, created: bool, groupsValid: bool, grouped: bool, accepted: bool)

  predicate Provisioned(db: Db, id: TenantId) {
    id in db.tenants && (id, Admin) in db.groups && (id, Auditor) in db.groups
  }

  // ---- the two transactions ----

  datatype Created = Row | InProgress | Refused(response: Response)

  /** CreateTenant: a unique violation means another invocation is ahead; only a model validation
    * error cannot be recovered from. */
  function CreateTenant(db: Db, id: TenantId, a: Answers): (Db, Created) {
    if !a.schemaValid then (db, Refused(Continue))
    else if !a.tenantValid then (db, Refused(Fail))
    else if id in db.tenants then (db, InProgress)
    else if !a.created then (db, Refused(Continue))
    else (db.(tenants := db.tenants + [id]), Row)
  }

  /** CreateDefaultGroups: both groups or neither, in the tenant's schema. Here too a validation error,
    * of a group's name or IAM identifier, cannot be recovered from. */
  function CreateGroups(db: Db, id: TenantId, a: Answers): (Db, Response) {
    if id !in db.tenants then (db, Continue)
    else if !a.groupsValid then (db, Fail)
    else if !a.grouped || (id, Admin) in db.groups || (id, Auditor) in db.groups then (db, Continue)
    else (db.(groups := db.groups + [(id, Admin), (id, Auditor)]), Continue)
  }

  // ---- one invocation from start to end ----

  /** handleCreateTenant */
  function Handled(db: Db, id: TenantId, a: Answers): (Db, Response) {
    if !a.parsed then (db, Fail)
    else if !a.schemaProbed then (db, Continue)
    else if id !in db.tenants then
      var (db', created) := CreateTenant(db, id, a);
      if created.Refused? then (db', created.response) else CreateGroups(db', id, a)
    else if !a.adminProbed || !a.auditorProbed then (db, Continue)
    else if (id, Admin) in db.groups && (id, Auditor) in db.groups then
      if a.accepted then (db.(accepted := db.accepted + {id}), Complete) else (db, Continue)
    else CreateGroups(db, id, a)
  }

  datatype Probe = Probe(schema: bool, groups: bool)

  /** The handler as it changes the tables. */
  class TenantOperator {
    var tenants: seq<TenantId>
    var groups: seq<(TenantId, Role)>
    var accepted: set<TenantId>

    function Snapshot(): Db
      reads this
    {
      Db(tenants, groups, accepted)
    }

    constructor (db: Db)
      ensures Snapshot() == db
    {
      tenants, groups, accepted := db.tenants, db.groups, db.accepted;
    }

    /** TenantProbe.Check: the groups are looked up only in an existing schema. */
    method Check(id: TenantId, a: Answers) returns (probe: Probe, ok: bool)
      ensures ok <==> a.schemaProbed && (id in tenants ==> a.adminProbed && a.auditorProbed)
      ensures ok ==> probe.schema == (id in tenants)
      ensures ok ==> (probe.groups <==> id in tenants && (id, Admin) in groups && (id, Auditor) in groups)
    {
      probe := Probe(false, false);
      if !a.schemaProbed { return probe, false; }
      probe := Probe(id in tenants, false);
      if !probe.schema { return probe, true; }
      if !a.adminProbed || !a.auditorProbed { return probe, false; }
      probe := Probe(true, (id, Admin) in groups && (id, Auditor) in groups);
      return probe, true;
    }

    method HandleCreateTenant(id: TenantId, a: Answers) returns (response: Response)
      modifies this
      ensures (Snapshot(), response) == Handled(old(Snapshot()), id, a)
    {
      if !a.parsed { return Fail; }
      var probe, ok := Check(id, a);
      if !ok { return Continue; }
      if probe.schema && probe.groups {
        if !a.accepted { return Continue; }
        accepted := accepted + {id};
        return Complete;
      }
      if !probe.schema {
        var (db, created) := CreateTenant(Snapshot(), id, a);
        tenants := db.tenants;
        if created.Refused? { return created.response; }
      }
      if !probe.groups {
        var (db, response) := CreateGroups(Snapshot(), id, a);
        groups := db.groups;
        return response;
      }
      return Continue;
    }
  }

  // ---- any number of invocations at once ----

  datatype Pc =
    | AtSchema
    | AtAdmin
    | AtAuditor(admin: bool)
    | AtCreate
    | AtGroups
    | AtSend
    | Ended(response: Response)

  datatype Call = Call(id: TenantId, pc: Pc)

  datatype World = World(db: Db, calls: map<nat, Call>)

  datatype Step = Invoke(call: nat, id: TenantId) | Advance(call: nat, answers: Answers)

  /** The next database access of one invocation. */
  function Advanced(db: Db, c: Call, a: Answers): (Db, Pc) {
    match c.pc
    case AtSchema =>
      (db, if !a.parsed then Ended(Fail)
           else if !a.schemaProbed then Ended(Continue)
           else if c.id in db.tenants then AtAdmin
           else AtCreate)
    case AtAdmin => (db, if !a.adminProbed then Ended(Continue) else AtAuditor((c.id, Admin) in db.groups))
    case AtAuditor(admin) =>
      (db, if !a.auditorProbed then Ended(Continue)
           else if admin && (c.id, Auditor) in db.groups then AtSend
           else AtGroups)
    case AtCreate =>
      var (db', created) := CreateTenant(db, c.id, a);
      (db', if created.Refused? then Ended(created.response) else AtGroups)
    case AtGroups => (CreateGroups(db, c.id, a).0, Ended(CreateGroups(db, c.id, a).1))
    case AtSend =>
      if a.accepted then (db.(accepted := db.accepted + {c.id}), Ended(Complete)) else (db, Ended(Continue))
    case Ended(_) => (db, c.pc)
  }

  function Next(w: World, step: Step): World {
    match step
    case Invoke(c, id) =>
      if c in w.calls && !w.calls[c].pc.Ended? then w else w.(calls := w.calls[c := Call(id, AtSchema)])
    case Advance(c, a) =>
      if c !in w.calls then w
      else
        var (db, pc) := Advanced(w.db, w.calls[c], a);
        World(db, w.calls[c := w.calls[c].(pc := pc)])
  }

  function Run(w: World, steps: seq<Step>): World
    decreases |steps|
  {
    if steps == [] then w else Run(Next(w, steps[0]), steps[1..])
  }

  ghost predicate DbOk(db: Db) {
    && NoDuplicates(db.tenants) && NoDuplicates(db.groups)
    && (forall id :: (id, Admin) in db.groups <==> (id, Auditor) in db.groups)
    && (forall g :: g in db.groups ==> g.0 in db.tenants)
  }

  predicate CallOk(db: Db, c: Call) {
    && (c.pc.AtAdmin? || c.pc.AtAuditor? || c.pc.AtGroups? || c.pc.AtSend? ==> c.id in db.tenants)
    && (c.pc.AtAuditor? && c.pc.admin ==> (c.id, Admin) in db.groups)
    && (c.pc.AtSend? ==> Provisioned(db, c.id))
    && (c.pc == Ended(Complete) ==> Provisioned(db, c.id) && c.id in db.accepted)
  }

  ghost predicate Ok(w: World) { DbOk(w.db) && forall c :: c in w.calls ==> CallOk(w.db, w.calls[c]) }

  /** The tables only ever grow. */
  predicate Grows(db: Db, db': Db) {
    db.tenants <= db'.tenants && db.groups <= db'.groups && db.accepted <= db'.accepted
  }

  lemma AdvanceKeepsOk(db: Db, c: Call, a: Answers)
    requires DbOk(db) && CallOk(db, c)
    ensures var (db', pc) := Advanced(db, c, a); DbOk(db') && CallOk(db', c.(pc := pc)) && Grows(db, db')
  {
    var db' := Advanced(db, c, a).0;
    if c.pc.AtGroups? && db' != db {
      assert forall g :: g in db'.groups <==> g in db.groups || g == (c.id, Admin) || g == (c.id, Auditor);
    }
  }

  lemma GrowthKeepsCallOk(db: Db, db': Db, c: Call)
    requires CallOk(db, c) && Grows(db, db')
    ensures CallOk(db', c)
  {
  }

  lemma StepKeepsOk(w: World, step: Step)
    requires Ok(w)
    ensures Ok(Next(w, step)) && Grows(w.db, Next(w, step).db)
  {
    var w' := Next(w, step);
    if step.Advance? && step.call in w.calls {
      AdvanceKeepsOk(w.db, w.calls[step.call], step.answers);
      forall c | c in w'.calls ensures CallOk(w'.db, w'.calls[c]) {
        if c != step.call { GrowthKeepsCallOk(w.db, w'.db, w.calls[c]); }
      }
    }
  }

  lemma {:induction false} RunKeepsOk(w: World, steps: seq<Step>)
    requires Ok(w)
    ensures Ok(Run(w, steps))
    decreases |steps|
  {
    if steps != [] {
      StepKeepsOk(w, steps[0]);
      RunKeepsOk(Next(w, steps[0]), steps[1..]);
    }
  }

  /** In every interleaving of invocations: at most one row per tenant, both default groups or
    * neither and at most one of each, and a completed creation has its row, both groups and
    * the registry's acceptance. */
  lemma ProvisioningIsSafe(steps: seq<Step>)
    ensures var w := Run(World(Db([], [], {}), map[]), steps);
      && (forall i, j :: 0 <= i < j < |w.db.tenants| ==> w.db.tenants[i] != w.db.tenants[j])
      && (forall i, j :: 0 <= i < j < |w.db.groups| ==> w.db.groups[i] != w.db.groups[j])
      && (forall id :: (id, Admin) in w.db.groups <==> (id, Auditor) in w.db.groups)
      && (forall c :: c in w.calls && w.calls[c].pc == Ended(Complete) ==>
            Provisioned(w.db, w.calls[c].id) && w.calls[c].id in w.db.accepted)
  {
    RunKeepsOk(World(Db([], [], {}), map[]), steps);
  }

  // ---- an undisturbed invocation ----

  function Alone(db: Db, c: Call, a: Answers, n: nat): (Db, Pc)
    decreases n
  {
    if n == 0 then (db, c.pc)
    else var (db', pc) := Advanced(db, c, a); Alone(db', c.(pc := pc), a, n - 1)
  }

  /** Five accesses always bring an undisturbed invocation to its end, and it ends like the handler. */
  lemma AloneIsHandled(db: Db, id: TenantId, a: Answers)
    ensures Alone(db, Call(id, AtSchema), a, 5) == (Handled(db, id, a).0, Ended(Handled(db, id, a).1))
  {
    var c0 := Call(id, AtSchema);
    var (db1, pc1) := Advanced(db, c0, a);
    var (db2, pc2) := Advanced(db1, Call(id, pc1), a);
    var (db3, pc3) := Advanced(db2, Call(id, pc2), a);
    var (db4, pc4) := Advanced(db3, Call(id, pc3), a);
    var (db5, pc5) := Advanced(db4, Call(id, pc4), a);
    assert Alone(db3, Call(id, pc3), a, 2) == Alone(db4, Call(id, pc4), a, 1) == Alone(db5, Call(id, pc5), a, 0);
    assert Alone(db, c0, a, 5) == Alone(db1, Call(id, pc1), a, 4) == Alone(db2, Call(id, pc2), a, 3);
  }

  const AllWell := Answers(true, true, true, true, true, true, true, true, true, true)

  /** From any reachable state an undisturbed invocation with cooperating stores completes at once
    * exactly when everything is there, and otherwise the next one does. */
  lemma TwoInvocationsSuffice(db: Db, id: TenantId)
    requires DbOk(db)
    ensures Handled(db, id, AllWell).1 == if Provisioned(db, id) then Complete else Continue
    ensures var (db', response) := Handled(db, id, AllWell);
      Provisioned(db', id) && Handled(db', id, AllWell).1 == Complete
  {
  }

  /** Exactly when an undisturbed invocation ends the creation, for good or ill. */
  lemma ResponsesAre(db: Db, id: TenantId, a: Answers)
    ensures Handled(db, id, a).1 == Complete <==>
      a.parsed && a.schemaProbed && a.adminProbed && a.auditorProbed && Provisioned(db, id) && a.accepted
    ensures Handled(db, id, a).1 == Fail <==>
      || !a.parsed
      || (a.schemaProbed && id !in db.tenants && a.schemaValid && !a.tenantValid)
      || (a.schemaProbed && id !in db.tenants && a.schemaValid && a.created && !a.groupsValid)
      || (&& a.schemaProbed && a.adminProbed && a.auditorProbed
          && id in db.tenants && !Provisioned(db, id) && !a.groupsValid)
    ensures Handled(db, id, a).1 == Fail ==> Handled(db, id, a).0.groups == db.groups
    ensures Handled(db, id, a).1 == Fail && a.groupsValid ==> Handled(db, id, a).0 == db
  {
  }
}
