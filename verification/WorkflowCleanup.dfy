/** Deleting finished workflows after their retention period (internal/manager/workflow.go). */
module WorkflowCleanup {
  import opened Tables
  import P = Pagination
  import L = PaginationLaws

  type WorkflowId = nat

  datatype WorkflowState =
    | Initial | WaitApproval | WaitConfirmation | Executing
    | Revoked | Rejected | Expired | Successful | Failed

  /** WorkflowTerminalStates */
  predicate Terminal(s: WorkflowState) {
    s == Revoked || s == Rejected || s == Expired || s == Successful || s == Failed
  }

  datatype Workflow = Workflow(state: WorkflowState, created: int)

  /** The two tables, the workflow table's order, the cutoff date, and the rows the store will not delete. */
  datatype Db = Db(
    workflows: map<WorkflowId, Workflow>, approvers: set<(WorkflowId, nat)>,
    order: seq<WorkflowId>, cutoff: int, stuck: set<WorkflowId>)

  function Due(db: Db): set<WorkflowId> {
    set id | id in db.workflows && Terminal(db.workflows[id].state) && db.workflows[id].created < db.cutoff
  }

  function DueRows(db: Db): seq<WorkflowId> { Select(db.order, Due(db)) }

  /** The callback: one transaction per batch; a workflow takes its approvers with it. */
  function DeleteAll(db: Db, batch: seq<WorkflowId>): (Db, bool) {
    if Elements(batch) * db.stuck != {} then (db, false) else (Without(db, Elements(batch)), true)
  }

  function Without(db: Db, gone: set<WorkflowId>): Db {
    db.(workflows := db.workflows - gone, approvers := set a | a in db.approvers && a.0 !in gone)
  }

  function CleanupCall(listOk: nat -> bool, countOk: nat -> bool): P.Call<Db, WorkflowId> {
    P.Call(DueRows, DeleteAll, P.DefaultLimit, P.DeleteMode, listOk, countOk)
  }

  predicate Distinct(db: Db) { NoDuplicates(db.order) }

  lemma DeletingShrinks(db: Db, offset: nat)
    ensures var page := P.Page(DueRows(db), offset, P.DefaultLimit); var (db', ok) := DeleteAll(db, page);
      |DueRows(db')| <= |DueRows(db)| && (ok && page != [] ==> |DueRows(db')| < |DueRows(db)|)
  {
    var page := P.Page(DueRows(db), offset, P.DefaultLimit);
    var (db', ok) := DeleteAll(db, page);
    if ok {
      assert Due(db') <= Due(db);
      SelectFewer(db.order, Due(db'), Due(db));
      if page != [] {
        L.PageMembers(DueRows(db), offset, P.DefaultLimit);
        SelectMembers(db.order, Due(db));
        assert page[0] in page && page[0] in Elements(page);
        SelectStrictlyFewer(db.order, Due(db'), Due(db), page[0]);
      }
    }
  }

  lemma FirstPageGoes(db: Db)
    requires Distinct(db)
    ensures var page := P.Page(DueRows(db), 0, P.DefaultLimit); var (db', ok) := DeleteAll(db, page);
      Distinct(db') && (ok ==> DueRows(db') == DueRows(db)[|page|..])
  {
    var rows := DueRows(db);
    var page := P.Page(rows, 0, P.DefaultLimit);
    var (db', ok) := DeleteAll(db, page);
    if ok {
      L.PageCuts(rows, 0, P.DefaultLimit);
      assert page == rows[0..|page|];
      SelectMembers(db.order, Due(db));
      SelectCut(db.order, Due(db), Due(db'), 0, |page|);
    }
  }

  lemma CleanupCallWorks(listOk: nat -> bool, countOk: nat -> bool)
    ensures CleanupCall(listOk, countOk).Stops() && L.RemovesFirstPage(CleanupCall(listOk, countOk), Distinct)
  {
    var call := CleanupCall(listOk, countOk);
    forall db: Db, offset: nat
      ensures |call.query(call.After(db, offset))| <= |call.query(db)|
      ensures call.query(db) != [] && call.Accepts(db, 0) ==> |call.query(call.After(db, 0))| < |call.query(db)|
    {
      DeletingShrinks(db, offset);
      DeletingShrinks(db, 0);
    }
    forall db: Db | Distinct(db)
      ensures Distinct(call.After(db, 0))
      ensures call.Accepts(db, 0) ==> call.query(call.After(db, 0)) == call.query(db)[|call.PageAt(db, 0)|..]
    {
      FirstPageGoes(db);
    }
  }

  ghost function Cleaned(db: Db, listOk: nat -> bool, countOk: nat -> bool): P.Pass<Db, WorkflowId> {
    CleanupCallWorks(listOk, countOk);
    P.PassFrom(CleanupCall(listOk, countOk), db, 0, 0, false)
  }

  method CleanupTerminalWorkflows(db: Db, listOk: nat -> bool, countOk: nat -> bool) returns (db': Db, ok: bool)
    ensures db' == Cleaned(db, listOk, countOk).db && ok == Cleaned(db, listOk, countOk).ending.Finished?
  {
    CleanupCallWorks(listOk, countOk);
    var cleaned, _, ending, _ := P.ProcessInBatchWithOptions(CleanupCall(listOk, countOk), db);
    return cleaned, ending.Finished?;
  }

  lemma {:induction false} PassDeletesOnlyDue(db: Db, listOk: nat -> bool, countOk: nat -> bool, round: nat)
    returns (gone: set<WorkflowId>)
    requires CleanupCall(listOk, countOk).Stops()
    ensures gone <= Due(db) && gone !! db.stuck
    ensures P.PassFrom(CleanupCall(listOk, countOk), db, 0, round, false).db == Without(db, gone)
    decreases |DueRows(db)|
  {
    var call := CleanupCall(listOk, countOk);
    var page := call.PageAt(db, 0);
    L.PageMembers(DueRows(db), 0, P.DefaultLimit);
    SelectMembers(db.order, Due(db));
    assert Without(db, {}) == db;
    gone := if call.listOk(round) && call.Accepts(db, 0) then Elements(page) else {};
    if call.EndingAt(db, 0, round).Continues? {
      var rest := PassDeletesOnlyDue(call.After(db, 0), listOk, countOk, round + 1);
      assert Without(Without(db, gone), rest) == Without(db, gone + rest) by {
        assert (db.workflows - gone) - rest == db.workflows - (gone + rest);
      }
      gone := gone + rest;
    }
  }

  /** Cleanup deletes only terminal workflows older than the cutoff, with their approvers; when it
    * ends without error it has deleted all of them, and every other row is as it was. */
  lemma CleanupDeletesExactlyTheDue(db: Db, listOk: nat -> bool, countOk: nat -> bool)
    requires Lists(db.order, db.workflows.Keys)
    ensures var pass := Cleaned(db, listOk, countOk);
      && (exists gone :: gone <= Due(db) && pass.db == Without(db, gone))
      && (pass.ending.Finished? ==> pass.db == Without(db, Due(db)))
  {
    CleanupCallWorks(listOk, countOk);
    var gone := PassDeletesOnlyDue(db, listOk, countOk, 0);
    var pass := Cleaned(db, listOk, countOk);
    if pass.ending.Finished? {
      L.DeleteModeDrains(CleanupCall(listOk, countOk), Distinct, db, 0);
      SelectMembers(db.order, Due(pass.db));
      assert forall id :: id in Due(db) ==> id in Elements(db.order);
      assert gone == Due(db);
    }
  }

  lemma {:induction false} WillingPassFinishes(db: Db, round: nat)
    requires CleanupCall(L.AlwaysOk, L.AlwaysOk).Stops() && Due(db) !! db.stuck
    ensures P.PassFrom(CleanupCall(L.AlwaysOk, L.AlwaysOk), db, 0, round, false).ending.Finished?
    decreases |DueRows(db)|
  {
    var call := CleanupCall(L.AlwaysOk, L.AlwaysOk);
    L.PageMembers(DueRows(db), 0, P.DefaultLimit);
    SelectMembers(db.order, Due(db));
    assert Elements(call.PageAt(db, 0)) <= Due(db);
    if call.EndingAt(db, 0, round).Continues? {
      WillingPassFinishes(call.After(db, 0), round + 1);
    }
  }

  /** With stores that answer, cleanup succeeds exactly when every due workflow can be deleted. */
  lemma CleanupSucceedsIff(db: Db)
    requires Lists(db.order, db.workflows.Keys)
    ensures Cleaned(db, L.AlwaysOk, L.AlwaysOk).ending.Finished? <==> Due(db) !! db.stuck
  {
    CleanupCallWorks(L.AlwaysOk, L.AlwaysOk);
    if Due(db) !! db.stuck {
      WillingPassFinishes(db, 0);
    } else {
      var gone := PassDeletesOnlyDue(db, L.AlwaysOk, L.AlwaysOk, 0);
      CleanupDeletesExactlyTheDue(db, L.AlwaysOk, L.AlwaysOk);
      var id :| id in Due(db) && id in db.stuck;
      assert id in Without(db, gone).workflows && id !in Without(db, Due(db)).workflows;
    }
  }
}
