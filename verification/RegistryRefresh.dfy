/** Refreshing the stored systems from the registry (internal/manager/system.go): create what is
  * missing, then delete in batches what the registry no longer reports. */
module RegistryRefresh {
  import opened Tables
  import opened Iteration
  import P = Pagination
  import L = PaginationLaws

  /** A system is identified by its external identifier and its region. */
  datatype Identity = Identity(name: string, region: string)

  /** The key of the lookup map that the deletion uses. */
  function Key(i: Identity): string { i.name + ":" + i.region }

  function Keys(systems: seq<Identity>): set<string> { set i | i in systems :: Key(i) }

  predicate ColonFree(text: string) { forall i :: 0 <= i < |text| ==> text[i] != ':' }

  /** Without colons in regions the last colon of a key separates its parts. */
  lemma KeyIsInjective(a: Identity, b: Identity)
    requires ColonFree(a.region) && ColonFree(b.region) && Key(a) == Key(b)
    ensures a == b
  {
    var k, n := Key(a), |Key(a)|;
    assert k[n - |a.region| - 1] == ':' && k[n - |b.region| - 1] == ':';
    assert |a.region| == |b.region|;
    assert a.region == k[n - |a.region|..] == b.region;
    assert a.name == k[..n - |a.region| - 1] == b.name;
  }

  /** The stored systems in table order, what the registry reports, and the rows whose deletion or
    * creation the store refuses. */
  datatype Db = Db(rows: seq<Identity>, reported: seq<Identity>, stuck: set<Identity>)

  // ---- creating what is missing ----

  /** createSystemIfNotExists for each reported system, up to the first error. */
  function CreateAll(db: Db, systems: seq<Identity>): (Db, bool)
    decreases |systems|
  {
    if systems == [] then (db, true)
    else if systems[0] in db.rows then CreateAll(db, systems[1..])
    else if systems[0] in db.stuck then (db, false)
    else CreateAll(db.(rows := db.rows + [systems[0]]), systems[1..])
  }

  lemma {:induction false} CreateAllAdds(db: Db, systems: seq<Identity>)
    requires NoDuplicates(db.rows)
    ensures var (db', ok) := CreateAll(db, systems);
      && db' == db.(rows := db'.rows) && NoDuplicates(db'.rows) && db.rows <= db'.rows
      && (forall i :: i in db.rows ==> i in db'.rows)
      && (forall i :: i in db'.rows ==> i in db.rows || i in systems)
      && (ok ==> forall i :: i in systems ==> i in db'.rows)
      && (db.stuck == {} ==> ok)
    decreases |systems|
  {
    if systems != [] {
      if systems[0] in db.rows {
        CreateAllAdds(db, systems[1..]);
      } else if systems[0] !in db.stuck {
        CreateAllAdds(db.(rows := db.rows + [systems[0]]), systems[1..]);
      }
      assert systems == [systems[0]] + systems[1..];
    }
  }

  // ---- deleting what is stale ----

  function AllRows(db: Db): seq<Identity> { db.rows }

  /** The stored systems whose key the registry reports. */
  function Kept(db: Db): set<Identity> { set i | i in db.rows && Key(i) in Keys(db.reported) }

  function Doomed(db: Db, batch: seq<Identity>): set<Identity> { set i | i in batch && Key(i) !in Keys(db.reported) }

  /** The callback: one transaction per batch. */
  function DeleteStale(db: Db, batch: seq<Identity>): (Db, bool) {
    var doomed := Doomed(db, batch);
    if doomed * db.stuck != {} then (db, false)
    else (db.(rows := Select(db.rows, Elements(db.rows) - doomed)), true)
  }

  function StaleCall(listOk: nat -> bool, countOk: nat -> bool): P.Call<Db, Identity> {
    P.Call(AllRows, DeleteStale, P.DefaultLimit, P.Normal, listOk, countOk)
  }

  predicate Distinct(db: Db) { NoDuplicates(db.rows) }

  /** Only the middle of the table has unwanted rows. */
  lemma SelectMiddle(first: seq<Identity>, middle: seq<Identity>, back: seq<Identity>,
                     wanted: set<Identity>, keep: set<Identity>)
    requires forall x :: x in first || x in back ==> x in wanted
    requires forall x :: x in middle ==> (x in wanted <==> x in keep)
    ensures Select(first + middle + back, wanted) == first + Select(middle, keep) + back
  {
    SelectConcat(first + middle, back, wanted);
    SelectConcat(first, middle, wanted);
    SelectTwice(first, wanted);
    SelectTwice(back, wanted);
    SelectSame(middle, wanted, keep);
  }

  lemma DeleteStaleKeeps(db: Db, batch: seq<Identity>)
    requires Distinct(db)
    ensures Distinct(DeleteStale(db, batch).0) && Kept(DeleteStale(db, batch).0) == Kept(db)
  {
    SelectMembers(db.rows, Elements(db.rows) - Doomed(db, batch));
  }

  lemma DeleteStalePrunes(db: Db, offset: nat)
    requires Distinct(db) && offset <= |db.rows|
    ensures var page := P.Page(db.rows, offset, P.DefaultLimit); var (db', ok) := DeleteStale(db, page);
      db'.rows == L.Pruned(db.rows, offset, P.DefaultLimit, Kept(db), ok)
  {
    var rows := db.rows;
    var page := P.Page(rows, offset, P.DefaultLimit);
    if DeleteStale(db, page).1 {
      L.PageCuts(rows, offset, P.DefaultLimit);
      assert page == rows[offset..offset + |page|];
      DeleteStaleFromMiddle(db, offset, offset + |page|);
    }
  }

  lemma DeleteStaleFromMiddle(db: Db, lo: nat, hi: nat)
    requires Distinct(db) && lo <= hi <= |db.rows|
    ensures var rows := db.rows;
      Select(rows, Elements(rows) - Doomed(db, rows[lo..hi]))
      == rows[..lo] + Select(rows[lo..hi], Kept(db)) + rows[hi..]
  {
    var first, middle, back := db.rows[..lo], db.rows[lo..hi], db.rows[hi..];
    var wanted := Elements(db.rows) - Doomed(db, middle);
    assert db.rows == first + middle + back;
    DistinctParts(db.rows, lo, hi);
    forall x | x in first || x in back ensures x in wanted { assert x in db.rows && x !in middle; }
    forall x | x in middle ensures x in wanted <==> x in Kept(db) { assert x in db.rows; }
    SelectMiddle(first, middle, back, wanted, Kept(db));
  }

  lemma StaleCallPrunes(listOk: nat -> bool, countOk: nat -> bool)
    ensures StaleCall(listOk, countOk).Stops() && L.Prunes(StaleCall(listOk, countOk), Kept, Distinct)
  {
    var call := StaleCall(listOk, countOk);
    forall db: Db, offset: nat ensures |call.query(call.After(db, offset))| <= |call.query(db)| {
      SelectTwice(db.rows, Elements(db.rows) - Doomed(db, call.PageAt(db, offset)));
    }
    forall db: Db, offset: nat | Distinct(db) && offset <= |call.query(db)|
      ensures Distinct(call.After(db, offset)) && Kept(call.After(db, offset)) == Kept(db)
      ensures call.query(call.After(db, offset))
              == L.Pruned(call.query(db), offset, call.size, Kept(db), call.Accepts(db, offset))
    {
      DeleteStalePrunes(db, offset);
      DeleteStaleKeeps(db, call.PageAt(db, offset));
    }
  }

  ghost function StalePass(db: Db, listOk: nat -> bool, countOk: nat -> bool): P.Pass<Db, Identity> {
    StaleCallPrunes(listOk, countOk);
    P.PassFrom(StaleCall(listOk, countOk), db, 0, 0, false)
  }

  // ---- one refresh ----

  /** The registry's answer: `NotFound` counts as a report of no systems. */
  datatype Answer = Systems(systems: seq<Identity>) | NotFound | Unreachable

  ghost function Refreshed(rows: seq<Identity>, answer: Answer, stuck: set<Identity>,
                           listOk: nat -> bool, countOk: nat -> bool): (seq<Identity>, bool)
  {
    if answer.Unreachable? then (rows, false)
    else
      var reported := if answer.NotFound? then [] else answer.systems;
      var (created, ok) := CreateAll(Db(rows, reported, stuck), reported);
      if !ok then (created.rows, false)
      else
        var pass := StalePass(created, listOk, countOk);
        (pass.db.rows, pass.ending.Finished?)
  }

  /** The manager over its table of systems. */
  class SystemManager {
    var rows: seq<Identity>

    constructor ()
      ensures rows == []
    {
      rows := [];
    }

    method RefreshSystemsData(answer: Answer, stuck: set<Identity>, listOk: nat -> bool, countOk: nat -> bool)
      returns (ok: bool)
      modifies this
      ensures (rows, ok) == Refreshed(old(rows), answer, stuck, listOk, countOk)
    {
      if answer.Unreachable? { return false; }
      var reported := if answer.NotFound? then [] else answer.systems;
      var i := 0;
      while i < |reported|
        invariant 0 <= i <= |reported|
        invariant CreateAll(Db(rows, reported, stuck), reported[i..])
                  == CreateAll(Db(old(rows), reported, stuck), reported)
      {
        assert reported[i..][0] == reported[i] && reported[i..][1..] == reported[i + 1..];
        if reported[i] !in rows {
          if reported[i] in stuck { return false; }
          rows := rows + [reported[i]];
        }
        i := i + 1;
      }
      StaleCallPrunes(listOk, countOk);
      var db, _, ending, _ := P.ProcessInBatchWithOptions(StaleCall(listOk, countOk), Db(rows, reported, stuck));
      rows := db.rows;
      return ending.Finished?;
    }
  }

  /** Whatever the stores answer, even when the refresh fails halfway: no stored system that the registry
    * reports is deleted, and nothing is stored that was neither stored nor reported. */
  lemma RefreshTouchesOnlyStale(rows: seq<Identity>, systems: seq<Identity>, stuck: set<Identity>,
                                listOk: nat -> bool, countOk: nat -> bool)
    requires NoDuplicates(rows)
    ensures var rows' := Refreshed(rows, Systems(systems), stuck, listOk, countOk).0;
      && NoDuplicates(rows')
      && (forall i :: i in rows && Key(i) in Keys(systems) ==> i in rows')
      && (forall i :: i in rows' ==> i in rows || i in systems)
  {
    var db := Db(rows, systems, stuck);
    CreateAllAdds(db, systems);
    var created := CreateAll(db, systems).0;
    if CreateAll(db, systems).1 {
      var call := StaleCall(listOk, countOk);
      StaleCallPrunes(listOk, countOk);
      L.PruningPassKeepsKeptRows(call, Kept, Distinct, created, 0, 0);
      var pass := StalePass(created, listOk, countOk);
      SelectMembers(created.rows, Kept(created));
      SelectMembers(pass.db.rows, Kept(created));
    }
  }

  // ---- repeated refreshes ----

  function Stale(db: Db): set<Identity> { set i | i in db.rows && i !in db.reported }

  /** The registry reports the same systems each time and every store answers. */
  ghost function Again(db: Db): Db {
    db.(rows := Refreshed(db.rows, Systems(db.reported), db.stuck, L.AlwaysOk, L.AlwaysOk).0)
  }

  /** No stale system has the key of a reported one. */
  predicate NoneHidden(db: Db) { forall i :: i in db.rows && Key(i) in Keys(db.reported) ==> i in db.reported }

  /** Without colons in regions nothing is hidden. */
  lemma ColonFreeHidesNothing(db: Db)
    requires forall i :: i in db.rows ==> ColonFree(i.region)
    requires forall i :: i in db.reported ==> ColonFree(i.region)
    ensures NoneHidden(db)
  {
    forall i | i in db.rows && Key(i) in Keys(db.reported) ensures i in db.reported {
      var r :| r in db.reported && Key(r) == Key(i);
      KeyIsInjective(i, r);
    }
  }

  predicate Plain(db: Db) { NoDuplicates(db.rows) && db.stuck == {} && NoneHidden(db) }

  /** The rows that a pass is to drop are the stale ones. */
  lemma RejectedAreStale(db: Db)
    requires Plain(db)
    ensures Kept(db) == Elements(db.rows) - Stale(db)
    ensures L.Rejected(db.rows, Kept(db)) == |Stale(db)|
  {
    ElementsCount(db.rows);
    SelectCount(db.rows, Kept(db));
    assert Elements(db.rows) == Kept(db) + Stale(db) && Kept(db) * Stale(db) == {};
  }

  /** Distinct rows, and a store that refuses nothing. */
  predicate Willing(db: Db) { Distinct(db) && db.stuck == {} }

  lemma WillingCallPrunes()
    ensures var call := StaleCall(L.AlwaysOk, L.AlwaysOk);
      && call.Stops() && L.Prunes(call, Kept, Distinct) && L.Prunes(call, Kept, Willing) && L.Healthy(call)
      && forall d: Db, o: nat {:trigger call.Accepts(d, o)} :: Willing(d) ==> call.Accepts(d, o)
  {
    var call := StaleCall(L.AlwaysOk, L.AlwaysOk);
    StaleCallPrunes(L.AlwaysOk, L.AlwaysOk);
    forall db: Db, offset: nat | Willing(db) && offset <= |call.query(db)|
      ensures Willing(call.After(db, offset)) && Kept(call.After(db, offset)) == Kept(db)
      ensures call.query(call.After(db, offset))
              == L.Pruned(call.query(db), offset, call.size, Kept(db), call.Accepts(db, offset))
    {
      assert L.RoundAt(call, db, offset);
    }
  }

  /** The deletion pass removes the first stale system. */
  lemma PassDropsTheFirstStaleRow(db: Db, first: nat)
    requires Plain(db) && first < |db.rows| && db.rows[first] in Stale(db)
    requires forall i :: 0 <= i < first ==> db.rows[i] !in Stale(db)
    ensures db.rows[first] !in StalePass(db, L.AlwaysOk, L.AlwaysOk).db.rows
  {
    WillingCallPrunes();
    RejectedAreStale(db);
    L.PruningPassReachesFirstRejectedRow(StaleCall(L.AlwaysOk, L.AlwaysOk), Kept, Willing, db, 0, 0, first);
  }

  /** It removes at least half of the stale systems, and nothing else. */
  lemma PassHalvesTheStaleRows(db: Db)
    requires Plain(db)
    ensures var db' := StalePass(db, L.AlwaysOk, L.AlwaysOk).db;
      && db' == db.(rows := db'.rows) && Plain(db') && Kept(db') == Kept(db)
      && (forall i :: i in db'.rows ==> i in db.rows)
      && |Stale(db')| <= |Stale(db)| / 2
  {
    var call := StaleCall(L.AlwaysOk, L.AlwaysOk);
    WillingCallPrunes();
    L.PruningPassKeepsKeptRows(call, Kept, Distinct, db, 0, 0);
    PassKeepsReport(db, L.AlwaysOk, L.AlwaysOk, 0, 0);
    L.PruningPassHalvesRejectedRows(call, Kept, Willing, db);
    RejectedAreStale(db);
    RejectedAreStale(StalePass(db, L.AlwaysOk, L.AlwaysOk).db);
  }

  lemma {:induction false} PassKeepsReport(db: Db, listOk: nat -> bool, countOk: nat -> bool, offset: nat, round: nat)
    requires StaleCall(listOk, countOk).Stops()
    ensures var db' := P.PassFrom(StaleCall(listOk, countOk), db, offset, round, false).db; db' == db.(rows := db'.rows)
    decreases if offset < |db.rows| then |db.rows| - offset else 0
  {
    var call := StaleCall(listOk, countOk);
    if call.EndingAt(db, offset, round).Continues? {
      PassKeepsReport(call.After(db, offset), listOk, countOk, offset + call.size, round + 1);
    }
  }

  /** One refresh stores everything that is reported and removes at least half of the stale systems. */
  lemma RefreshHalvesTheStaleSystems(db: Db)
    requires Plain(db)
    ensures Plain(Again(db)) && Again(db) == db.(rows := Again(db).rows)
    ensures forall i :: i in db.reported ==> i in Again(db).rows
    ensures |Stale(Again(db))| <= |Stale(db)| / 2
  {
    CreateAllAdds(db, db.reported);
    var created := CreateAll(db, db.reported).0;
    assert Plain(created);
    PassHalvesTheStaleRows(created);
    assert Again(db) == StalePass(created, L.AlwaysOk, L.AlwaysOk).db;
    assert Stale(created) == Stale(db);
    forall i | i in db.reported ensures i in Again(db).rows { assert i in Kept(created); }
  }

  ghost predicate InStep(db: Db) { forall i :: i in db.rows <==> i in db.reported }

  predicate PlainAndComplete(db: Db) { Plain(db) && forall i :: i in db.reported ==> i in db.rows }

  function StaleBits(db: Db): nat { L.Bits(|Stale(db)|) }

  lemma RefreshShortensTheStale(db: Db)
    requires PlainAndComplete(db) && !InStep(db)
    ensures PlainAndComplete(Again(db)) && StaleBits(Again(db)) < StaleBits(db)
  {
    RefreshHalvesTheStaleSystems(db);
    var i :| i in db.rows && i !in db.reported;
    assert i in Stale(db);
    L.BitsMonotone(|Stale(Again(db))|, |Stale(db)| / 2);
  }

  lemma {:induction false} CompleteConverges(db: Db) returns (n: nat)
    requires PlainAndComplete(db)
    ensures n <= StaleBits(db) && InStep(Iterate(Again, db, n))
    decreases StaleBits(db)
  {
    n := 0;
    if !InStep(db) {
      RefreshShortensTheStale(db);
      var m := CompleteConverges(Again(db));
      n := m + 1;
    }
  }

  /** If nothing is hidden, one refresh, or floor(log2(stale)) + 1 of them if there are stale systems,
    * make the stored systems exactly the reported ones. */
  lemma RefreshesConverge(db: Db) returns (n: nat)
    requires Plain(db)
    ensures n <= if Stale(db) == {} then 1 else L.Bits(|Stale(db)|)
    ensures InStep(Iterate(Again, db, n))
  {
    RefreshHalvesTheStaleSystems(db);
    L.BitsMonotone(|Stale(Again(db))|, |Stale(db)| / 2);
    var m := CompleteConverges(Again(db));
    n := m + 1;
  }

  // ---- hidden systems ----

  /** A stored system whose key is reported survives any number of refreshes. */
  lemma {:induction false} ReportedKeySurvives(db: Db, i: Identity, n: nat)
    requires NoDuplicates(db.rows) && i in db.rows && Key(i) in Keys(db.reported)
    ensures var t := Iterate(Again, db, n); i in t.rows && t.reported == db.reported
    decreases n
  {
    if n > 0 {
      RefreshTouchesOnlyStale(db.rows, db.reported, db.stuck, L.AlwaysOk, L.AlwaysOk);
      ReportedKeySurvives(Again(db), i, n - 1);
    }
  }

  /** So a hidden one is never removed: the stored systems never become the reported ones. */
  lemma HiddenSystemIsNeverRemoved(db: Db, i: Identity, n: nat)
    requires NoDuplicates(db.rows) && i in db.rows && Key(i) in Keys(db.reported) && i !in db.reported
    ensures i in Iterate(Again, db, n).rows && !InStep(Iterate(Again, db, n))
  {
    ReportedKeySurvives(db, i, n);
  }

  ghost predicate InStepAfter(db: Db, n: nat) { InStep(Iterate(Again, db, n)) }

  /** With a store that refuses nothing, refreshes converge exactly when no stale system is hidden. */
  lemma RefreshesConvergeIff(db: Db)
    requires NoDuplicates(db.rows) && db.stuck == {}
    ensures (exists n: nat :: InStepAfter(db, n)) <==> NoneHidden(db)
  {
    if NoneHidden(db) {
      var n := RefreshesConverge(db);
      assert InStepAfter(db, n);
    } else {
      var i :| i in db.rows && Key(i) in Keys(db.reported) && i !in db.reported;
      forall n: nat ensures !InStepAfter(db, n) { HiddenSystemIsNeverRemoved(db, i, n); }
    }
  }

  /** Such a pair: identifier `a` in region `b:c` is stored, identifier `a:b` in region `c` is reported. */
  lemma ColonsHideAStaleSystem(n: nat)
    ensures var stored, reported := Identity("a", "b:c"), Identity("a:b", "c");
      var t := Iterate(Again, Db([stored], [reported], {}), n);
      stored in t.rows && stored !in t.reported
  {
    var stored, reported := Identity("a", "b:c"), Identity("a:b", "c");
    var db := Db([stored], [reported], {});
    assert "a" + ":" + "b:c" == "a:b:c" == "a:b" + ":" + "c";
    assert reported in db.reported && Key(stored) == Key(reported);
    ReportedKeySurvives(db, stored, n);
  }
}
