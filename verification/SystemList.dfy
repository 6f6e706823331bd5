/** The list of systems with their properties (internal/repo/repository.go): one page of systems, and
  * then the rows of a join with the property table, read in batches. */
module SystemList {
  import opened Optional
  import opened Tables
  import P = Pagination
  import L = PaginationLaws

  type SystemId = nat

  /** The columns that the join adds to a system, the same in each of its rows. */
  datatype Details = Details(configName: string, targetName: string, errorCode: string, errorMessage: string)

  /** One row of the join; a system without properties has one row with an empty key. */
  datatype Row = Row(id: SystemId, details: Details, key: string, value: string)

  datatype Enriched = Enriched(details: Details, properties: map<string, string>)

  /** The join's rows and the map that the callback fills. */
  datatype Load = Load(rows: seq<Row>, found: map<SystemId, Enriched>)

  function Absorb(found: map<SystemId, Enriched>, row: Row): map<SystemId, Enriched> {
    var system := if row.id in found then found[row.id] else Enriched(row.details, map[]);
    found[row.id := if row.key == "" then system else system.(properties := system.properties[row.key := row.value])]
  }

  function AbsorbAll(found: map<SystemId, Enriched>, rows: seq<Row>): map<SystemId, Enriched>
    decreases |rows|
  {
    if rows == [] then found else AbsorbAll(Absorb(found, rows[0]), rows[1..])
  }

  function JoinRows(load: Load): seq<Row> { load.rows }

  function AbsorbBatch(load: Load, batch: seq<Row>): (Load, bool) {
    (load.(found := AbsorbAll(load.found, batch)), true)
  }

  function LoadCall(listOk: nat -> bool, countOk: nat -> bool): P.Call<Load, Row> {
    P.Call(JoinRows, AbsorbBatch, P.DefaultLimit, P.Normal, listOk, countOk)
  }

  lemma LoadCallIsSteady(listOk: nat -> bool, countOk: nat -> bool)
    ensures LoadCall(listOk, countOk).Stops() && L.Steady(LoadCall(listOk, countOk))
  {
  }

  lemma {:induction false} AbsorbConcat(found: map<SystemId, Enriched>, a: seq<Row>, b: seq<Row>)
    ensures AbsorbAll(found, a + b) == AbsorbAll(AbsorbAll(found, a), b)
    decreases |a|
  {
    if a == [] {
      assert a + b == b;
    } else {
      assert (a + b)[0] == a[0] && (a + b)[1..] == a[1..] + b;
      AbsorbConcat(Absorb(found, a[0]), a[1..], b);
    }
  }

  /** However the rows are split into batches, the map is the one of a single loop over them. */
  lemma {:induction false} BatchesDoNotMatter(load: Load, listOk: nat -> bool, countOk: nat -> bool,
                                              offset: nat, round: nat)
    requires LoadCall(listOk, countOk).Stops()
    ensures var pass := P.PassFrom(LoadCall(listOk, countOk), load, offset, round, false);
      pass.db == load.(found := AbsorbAll(load.found, P.Concat(pass.batches)))
    decreases if offset < |load.rows| then |load.rows| - offset else 0
  {
    var call := LoadCall(listOk, countOk);
    var batch, load' := call.PageAt(load, offset), call.After(load, offset);
    L.ConcatOne(batch);
    if call.EndingAt(load, offset, round).Continues? {
      BatchesDoNotMatter(load', listOk, countOk, offset + call.size, round + 1);
      var rest := P.PassFrom(call, load', offset + call.size, round + 1, false);
      L.ConcatCons(batch, rest.batches);
      AbsorbConcat(load.found, batch, P.Concat(rest.batches));
    }
  }

  // ---- what a loop over the rows finds ----

  /** The rows are those of the join: they repeat their system's details and show its properties. */
  ghost predicate Joins(rows: seq<Row>, details: map<SystemId, Details>,
                        properties: map<SystemId, map<string, string>>)
  {
    && (forall r :: r in rows ==>
          && r.id in details && r.id in properties && r.details == details[r.id]
          && (r.key != "" ==> r.key in properties[r.id] && r.value == properties[r.id][r.key]))
    && (forall id, key :: id in properties && key in properties[id] && (exists r :: r in rows && r.id == id) ==>
          exists r :: r in rows && r.id == id && r.key == key)
  }

  /** What is known of one system after the rows. */
  ghost predicate Shows(found: map<SystemId, Enriched>, rows: seq<Row>, id: SystemId,
                        details: Details, properties: map<string, string>)
  {
    && (id in found <==> exists r :: r in rows && r.id == id)
    && (id in found ==>
          && found[id].details == details
          && (forall key :: key in found[id].properties <==>
                key != "" && exists r :: r in rows && r.id == id && r.key == key)
          && (forall key :: key in found[id].properties ==>
                key in properties && found[id].properties[key] == properties[key]))
  }

  lemma AbsorbShows(found: map<SystemId, Enriched>, rows: seq<Row>, row: Row, id: SystemId,
                    details: Details, properties: map<string, string>)
    requires Shows(found, rows, id, details, properties)
    requires row.id == id ==>
      row.details == details && (row.key != "" ==> row.key in properties && row.value == properties[row.key])
    ensures Shows(Absorb(found, row), rows + [row], id, details, properties)
  {
    var all := rows + [row];
    assert forall r :: r in all <==> r in rows || r == row;
  }

  lemma {:induction false} LoopShows(rows: seq<Row>, n: nat, id: SystemId,
                                     details: Details, properties: map<string, string>)
    requires n <= |rows|
    requires forall r :: r in rows && r.id == id ==>
      r.details == details && (r.key != "" ==> r.key in properties && r.value == properties[r.key])
    ensures Shows(AbsorbAll(map[], rows[..n]), rows[..n], id, details, properties)
    decreases n
  {
    if n > 0 {
      LoopShows(rows, n - 1, id, details, properties);
      assert rows[..n] == rows[..n - 1] + [rows[n - 1]];
      AbsorbConcat(map[], rows[..n - 1], [rows[n - 1]]);
      var found := AbsorbAll(map[], rows[..n - 1]);
      assert AbsorbAll(found, [rows[n - 1]]) == AbsorbAll(Absorb(found, rows[n - 1]), []);
      AbsorbShows(found, rows[..n - 1], rows[n - 1], id, details, properties);
    }
  }

  // ---- the list ----

  datatype Item = Item(id: SystemId, system: Enriched)

  function Listed(systems: seq<SystemId>, found: map<SystemId, Enriched>): seq<Item> {
    if systems == [] then []
    else if systems[0] in found then [Item(systems[0], found[systems[0]])] + Listed(systems[1..], found)
    else Listed(systems[1..], found)
  }

  lemma {:induction false} ListedSnoc(systems: seq<SystemId>, found: map<SystemId, Enriched>, id: SystemId)
    ensures Listed(systems + [id], found) == Listed(systems, found) + if id in found then [Item(id, found[id])] else []
  {
    if systems != [] {
      assert (systems + [id])[0] == systems[0] && (systems + [id])[1..] == systems[1..] + [id];
      ListedSnoc(systems[1..], found, id);
    } else {
      assert systems + [id] == [id];
    }
  }

  ghost function LoadPass(rows: seq<Row>, listOk: nat -> bool, countOk: nat -> bool): P.Pass<Load, Row> {
    LoadCallIsSteady(listOk, countOk);
    P.PassFrom(LoadCall(listOk, countOk), Load(rows, map[]), 0, 0, false)
  }

  /** ListAndCountSystemWithProperties after the page `systems` has been read; an empty page is
    * returned without a join. */
  method ListSystemsWithProperties(systems: seq<SystemId>, rows: seq<Row>, listOk: nat -> bool, countOk: nat -> bool)
    returns (list: Option<seq<Item>>)
    ensures systems == [] ==> list == Some([])
    ensures systems != [] ==> (list.Some? <==> LoadPass(rows, listOk, countOk).ending.Finished?)
    ensures list.Some? ==> list.value == Listed(systems, AbsorbAll(map[], rows))
  {
    if systems == [] { return Some([]); }
    LoadCallIsSteady(listOk, countOk);
    var load, _, ending, _ := P.ProcessInBatchWithOptions(LoadCall(listOk, countOk), Load(rows, map[]));
    if !ending.Finished? { return None; }
    FinishedLoadIsComplete(rows, listOk, countOk);
    var items: seq<Item> := [];
    for i := 0 to |systems|
      invariant items == Listed(systems[..i], load.found)
    {
      assert systems[..i + 1] == systems[..i] + [systems[i]];
      ListedSnoc(systems[..i], load.found, systems[i]);
      if systems[i] in load.found { items := items + [Item(systems[i], load.found[systems[i]])]; }
    }
    assert systems[..|systems|] == systems;
    return Some(items);
  }

  lemma FinishedLoadIsComplete(rows: seq<Row>, listOk: nat -> bool, countOk: nat -> bool)
    requires LoadPass(rows, listOk, countOk).ending.Finished?
    ensures LoadPass(rows, listOk, countOk).db.found == AbsorbAll(map[], rows)
  {
    var call, load := LoadCall(listOk, countOk), Load(rows, map[]);
    LoadCallIsSteady(listOk, countOk);
    BatchesDoNotMatter(load, listOk, countOk, 0, 0);
    L.SteadyPassVisitsEachRowOnce(call, load, 0, 0, false);
    assert rows[0..] == rows;
  }

  function Ids(list: seq<Item>): seq<SystemId> { if list == [] then [] else [list[0].id] + Ids(list[1..]) }

  lemma {:induction false} ListedAre(systems: seq<SystemId>, found: map<SystemId, Enriched>)
    ensures Ids(Listed(systems, found)) == Select(systems, found.Keys)
    ensures forall item :: item in Listed(systems, found) ==> item.id in found && item.system == found[item.id]
  {
    if systems != [] {
      ListedAre(systems[1..], found);
      if systems[0] in found {
        assert Listed(systems, found)[1..] == Listed(systems[1..], found);
      }
    }
  }

  function Present(rows: seq<Row>): set<SystemId> { set r | r in rows :: r.id }

  /** The list has the page's systems in the page's order, exactly those that have a row in the join,
    * and shows each one's details and all its properties. */
  lemma ListIsFaithful(systems: seq<SystemId>, rows: seq<Row>, details: map<SystemId, Details>,
                       properties: map<SystemId, map<string, string>>)
    requires Joins(rows, details, properties)
    requires forall id :: id in properties ==> "" !in properties[id]
    ensures var list := Listed(systems, AbsorbAll(map[], rows));
      && Ids(list) == Select(systems, Present(rows))
      && ((forall id :: id in systems ==> id in Present(rows)) ==> Ids(list) == systems)
      && forall item :: item in list ==>
           && item.id in details && item.id in properties
           && item.system == Enriched(details[item.id], properties[item.id])
  {
    var found := AbsorbAll(map[], rows);
    ListedAre(systems, found);
    forall id ensures id in found <==> id in Present(rows) { FoundIsShown(rows, details, properties, id); }
    assert found.Keys == Present(rows);
    SelectTwice(systems, Present(rows));
    forall item | item in Listed(systems, found)
      ensures item.id in details && item.id in properties
      ensures item.system == Enriched(details[item.id], properties[item.id])
    {
      FoundIsShown(rows, details, properties, item.id);
    }
  }

  lemma FoundIsShown(rows: seq<Row>, details: map<SystemId, Details>, properties: map<SystemId, map<string, string>>,
                     id: SystemId)
    requires Joins(rows, details, properties)
    requires forall i :: i in properties ==> "" !in properties[i]
    ensures var found := AbsorbAll(map[], rows);
      && (id in found <==> id in Present(rows))
      && (id in found ==> id in details && id in properties && found[id] == Enriched(details[id], properties[id]))
  {
    var found := AbsorbAll(map[], rows);
    assert rows[..|rows|] == rows;
    if id in details && id in properties {
      LoopShows(rows, |rows|, id, details[id], properties[id]);
      if id in found {
        assert found[id].properties == properties[id] by {
          assert found[id].properties.Keys == properties[id].Keys;
        }
      }
    } else {
      LoopShows(rows, |rows|, id, Details("", "", "", ""), map[]);
    }
  }
}
