/** The batch loop behind almost every bulk operation (internal/repo/repository.go).
  *
  * `Db` is whatever the callback may change, `query(db)` is the sequence of rows that match the
  * base query in the table's fixed order, and `process(db, batch)` is the callback: it returns the
  * new store and whether it succeeded. `listOk(i)` and `countOk(i)` are the store's answers to the
  * List and Count calls of round `i`.
  */
module Pagination {

  datatype Options = Options(deleteMode: bool, ignoreFailMode: bool)

  const Normal := Options(false, false)
  const DeleteMode := Options(true, false)
  const DefaultLimit: nat := 100

  /** The arguments of one call of the loop. */
  datatype Call<!Db(!new), !T(!new)> = Call(
    query: Db -> seq<T>,
    process: (Db, seq<T>) -> (Db, bool),
    size: nat,
    options: Options,
    listOk: nat -> bool,
    countOk: nat -> bool)
  {
    function PageAt(db: Db, offset: nat): seq<T> { Page(query(db), offset, size) }

    function After(db: Db, offset: nat): Db { process(db, PageAt(db, offset)).0 }

    predicate Accepts(db: Db, offset: nat) { process(db, PageAt(db, offset)).1 }

    function Next(offset: nat): nat { if options.deleteMode then 0 else offset + size }

    /** How the round at `offset` leaves the loop, if it does. */
    function EndingAt(db: Db, offset: nat, round: nat): Ending {
      if !listOk(round) then ListError
      else if !Accepts(db, offset) && !options.ignoreFailMode then ProcessError
      else if PageAt(db, offset) == [] then Finished
      else if !countOk(round) then CountError
      else if !options.deleteMode && |query(After(db, offset))| <= Next(offset) then Finished
      else Continues
    }

    /** What makes the loop stop: a positive batch size, a callback that never makes the query grow
      * and that, in delete mode, removes something from every non-empty first page, unless its
      * failure ends the loop. */
    ghost predicate Stops() {
      && 0 < size
      && (forall db, offset: nat {:trigger After(db, offset)} :: |query(After(db, offset))| <= |query(db)|)
      && (options.deleteMode ==>
            forall db {:trigger After(db, 0)} :: query(db) != [] && (Accepts(db, 0) || options.ignoreFailMode) ==>
              |query(After(db, 0))| < |query(db)|)
    }
  }

  /** How a round ended: `Finished` when the loop ran to its own end. */
  datatype Ending = Finished | ProcessError | ListError | CountError | Continues

  datatype Pass<Db, T> = Pass(db: Db, batches: seq<seq<T>>, ending: Ending, lastError: bool)

  /** OFFSET/LIMIT on a matching sequence. */
  function Page<T>(rows: seq<T>, offset: nat, limit: nat): (page: seq<T>)
    ensures |page| <= limit
    ensures page == [] <==> |rows| <= offset || limit == 0
    ensures offset <= |rows| ==> page <= rows[offset..]
  {
    if |rows| <= offset then []
    else if |rows| - offset <= limit then rows[offset..]
    else rows[offset..offset + limit]
  }

  function Concat<T>(batches: seq<seq<T>>): seq<T> {
    if batches == [] then [] else batches[0] + Concat(batches[1..])
  }

  /** The rounds of the loop from `offset` on; `round` numbers the List and Count calls. */
  ghost function PassFrom<Db(!new), T(!new)>(
    c: Call<Db, T>, db: Db, offset: nat, round: nat, lastError: bool): Pass<Db, T>
    requires c.Stops()
    requires c.options.deleteMode ==> offset == 0
    decreases if offset < |c.query(db)| then |c.query(db)| - offset else 0
  {
    if !c.listOk(round) then Pass(db, [], ListError, lastError)
    else
      var batch, db' := c.PageAt(db, offset), c.After(db, offset);
      var failed := lastError || !c.Accepts(db, offset);
      if !c.EndingAt(db, offset, round).Continues? then Pass(db', [batch], c.EndingAt(db, offset, round), failed)
      else
        var rest := PassFrom(c, db', c.Next(offset), round + 1, failed);
        rest.(batches := [batch] + rest.batches)
  }

  /** ProcessInBatchWithOptions. Generic in the store, so the store is threaded as a value. */
  method ProcessInBatchWithOptions<Db(!new), T(!new)>(c: Call<Db, T>, db0: Db)
    returns (db: Db, batches: seq<seq<T>>, ending: Ending, lastError: bool)
    requires c.Stops()
    ensures Pass(db, batches, ending, lastError) == PassFrom(c, db0, 0, 0, false)
  {
    var offset: nat, round: nat := 0, 0;
    db, batches, ending, lastError := db0, [], Finished, false;
    while true
      invariant c.options.deleteMode ==> offset == 0
      invariant var rest := PassFrom(c, db, offset, round, lastError);
        PassFrom(c, db0, 0, 0, false) == rest.(batches := batches + rest.batches)
      decreases if offset < |c.query(db)| then |c.query(db)| - offset else 0
    {
      ghost var before, rounds := batches, PassFrom(c, db, offset, round, lastError);
      if !c.listOk(round) {
        ending := ListError;
        return;
      }
      var items := Page(c.query(db), offset, c.size);
      var (after, ok) := c.process(db, items);
      assert items == c.PageAt(db, offset) && after == c.After(db, offset) && ok == c.Accepts(db, offset);
      ghost var ends := c.EndingAt(db, offset, round);
      assert !ends.Continues? ==> rounds == Pass(after, [items], ends, lastError || !ok);
      db, batches := after, batches + [items];
      if !ok {
        lastError := true;
        if !c.options.ignoreFailMode {
          ending := ProcessError;
          return;
        }
      }
      if |items| == 0 {
        ending := Finished;
        return;
      }
      if !c.options.deleteMode {
        offset := offset + c.size;
      }
      if !c.countOk(round) {
        ending := CountError;
        return;
      }
      if !c.options.deleteMode && offset >= |c.query(db)| {
        ending := Finished;
        return;
      }
      round := round + 1;
      ghost var rest := PassFrom(c, db, offset, round, lastError);
      assert before + ([items] + rest.batches) == batches + rest.batches;
    }
  }
}
