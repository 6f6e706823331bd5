/** What one pass of the batch loop visits, for the four ways a callback may treat its batch:
  * leave the query alone, make the whole batch leave it, delete it in delete mode, or drop only
  * some of its rows. */
module PaginationLaws {
  import opened Pagination
  import opened Tables

  predicate AlwaysOk(round: nat) { true }

  ghost predicate Healthy<Db(!new), T(!new)>(c: Call<Db, T>) {
    forall i: nat :: c.listOk(i) && c.countOk(i)
  }

  lemma ConcatOne<T>(batch: seq<T>)
    ensures Concat([batch]) == batch
  {
    assert Concat([batch]) == batch + Concat([]);
  }

  lemma ConcatCons<T>(batch: seq<T>, rest: seq<seq<T>>)
    ensures Concat([batch] + rest) == batch + Concat(rest)
  {
    assert ([batch] + rest)[1..] == rest;
  }

  lemma PageCuts<T>(rows: seq<T>, offset: nat, size: nat)
    requires 0 < size && offset <= |rows|
    ensures var page := Page(rows, offset, size);
      && offset + |page| <= |rows|
      && rows[offset..] == page + rows[offset + |page|..]
      && rows == rows[..offset] + page + rows[offset + |page|..]
      && (offset + size <= |rows| ==> |page| == size)
      && (|rows| <= offset + size ==> page == rows[offset..])
      && forall i :: 0 <= i < |page| ==> page[i] == rows[offset + i]
  {
  }

  lemma PageMembers<T>(rows: seq<T>, offset: nat, size: nat)
    ensures forall x :: x in Page(rows, offset, size) ==> x in rows
  {
    if 0 < size && offset <= |rows| { PageCuts(rows, offset, size); }
  }

  /** With a store that answers, only the callback can make a pass fail. */
  lemma {:induction false} HealthyPassEnds<Db(!new), T(!new)>(
    c: Call<Db, T>, db: Db, offset: nat, round: nat, lastError: bool)
    requires c.Stops() && Healthy(c) && !c.options.deleteMode
    ensures var ending := PassFrom(c, db, offset, round, lastError).ending; ending.Finished? || ending.ProcessError?
    decreases if offset < |c.query(db)| then |c.query(db)| - offset else 0
  {
    if c.EndingAt(db, offset, round).Continues? {
      HealthyPassEnds(c, c.After(db, offset), offset + c.size, round + 1, lastError || !c.Accepts(db, offset));
    }
  }

  // ---- a callback that leaves the query alone ----

  /** A pass that runs to its end is the pass over a store that always answers. */
  lemma {:induction false} FinishedPassIsAnswered<Db(!new), T(!new)>(
    c: Call<Db, T>, db: Db, offset: nat, round: nat, lastError: bool)
    requires c.Stops() && c.options == Normal && PassFrom(c, db, offset, round, lastError).ending.Finished?
    ensures var answered := c.(listOk := AlwaysOk, countOk := AlwaysOk);
      && answered.Stops()
      && PassFrom(answered, db, offset, round, lastError) == PassFrom(c, db, offset, round, lastError)
    decreases if offset < |c.query(db)| then |c.query(db)| - offset else 0
  {
    var answered := c.(listOk := AlwaysOk, countOk := AlwaysOk);
    forall d, o: nat ensures answered.After(d, o) == c.After(d, o) {}
    if c.EndingAt(db, offset, round).Continues? {
      FinishedPassIsAnswered(c, c.After(db, offset), c.Next(offset), round + 1, lastError || !c.Accepts(db, offset));
    }
  }

  ghost predicate Steady<Db(!new), T(!new)>(c: Call<Db, T>) {
    forall db, offset: nat :: c.query(c.After(db, offset)) == c.query(db)
  }

  /** Whatever the store answers, the batches are a prefix of the matching rows in order, each row
    * at most once; a pass that finishes has given the callback every row exactly once. */
  lemma {:induction false} SteadyPassVisitsEachRowOnce<Db(!new), T(!new)>(
    c: Call<Db, T>, db: Db, offset: nat, round: nat, lastError: bool)
    requires c.Stops() && Steady(c) && !c.options.deleteMode && offset <= |c.query(db)|
    ensures var pass := PassFrom(c, db, offset, round, lastError);
            && c.query(pass.db) == c.query(db)
            && Concat(pass.batches) <= c.query(db)[offset..]
            && (pass.ending.Finished? ==> Concat(pass.batches) == c.query(db)[offset..])
    decreases |c.query(db)| - offset
  {
    var pass := PassFrom(c, db, offset, round, lastError);
    var rows, batch, db' := c.query(db), c.PageAt(db, offset), c.After(db, offset);
    var failed := lastError || !c.Accepts(db, offset);
    PageCuts(rows, offset, c.size);
    ConcatOne(batch);
    if c.EndingAt(db, offset, round).Continues? {
      SteadyPassVisitsEachRowOnce(c, db', offset + c.size, round + 1, failed);
      ConcatCons(batch, PassFrom(c, db', offset + c.size, round + 1, failed).batches);
    }
  }

  // ---- a callback that makes its whole batch leave the query ----

  /** The parity of the number of the block of `size` rows that row `i` is in. */
  function BlockParity(i: nat, size: nat): nat
    requires 0 < size
  {
    if i < size then 0 else 1 - BlockParity(i - size, size)
  }

  lemma {:induction false} BlockParityIsOfTheQuotient(i: nat, size: nat)
    requires 0 < size
    ensures BlockParity(i, size) == i / size % 2
  {
    if i < size {
      QuotientIs(i, size, 0, i);
    } else {
      BlockParityIsOfTheQuotient(i - size, size);
      QuotientOneLess(i, size);
      ParityFlips((i - size) / size, i / size);
    }
  }

  lemma ParityFlips(q: nat, next: nat)
    requires next == q + 1
    ensures next % 2 == 1 - q % 2
  {
  }

  lemma QuotientOneLess(i: nat, size: nat)
    requires 0 < size <= i
    ensures i / size == (i - size) / size + 1
  {
    var q, r := (i - size) / size, (i - size) % size;
    assert (q + 1) * size == q * size + size;
    QuotientIs(i, size, q + 1, r);
  }

  lemma QuotientIs(n: nat, d: nat, q: nat, r: nat)
    requires 0 < d && n == q * d + r && r < d
    ensures n / d == q
  {
    var q' := n / d;
    if q' < q {
      MulMonotone(q' + 1, q, d);
      assert false;
    } else if q < q' {
      MulMonotone(q + 1, q', d);
      assert false;
    }
  }

  lemma MulMonotone(a: nat, b: nat, d: nat)
    requires a <= b
    ensures a * d <= b * d
  {
    assert b * d == a * d + (b - a) * d;
  }

  /** The rows of the blocks of `size` whose number has the given parity, from index `i` on. */
  ghost function Blocks<T>(rows: seq<T>, size: nat, parity: nat, i: nat): seq<T>
    requires 0 < size
    decreases |rows| - i
  {
    if |rows| <= i then []
    else (if BlockParity(i, size) == parity then [rows[i]] else []) + Blocks(rows, size, parity, i + 1)
  }

  ghost function EvenBlocks<T>(rows: seq<T>, size: nat): seq<T> requires 0 < size { Blocks(rows, size, 0, 0) }
  ghost function OddBlocks<T>(rows: seq<T>, size: nat): seq<T> requires 0 < size { Blocks(rows, size, 1, 0) }

  /** Within one block every row is taken ... */
  lemma {:induction false} TakenBlock<T>(rows: seq<T>, size: nat, parity: nat, i: nat, end: nat)
    requires 0 < size && i <= end <= |rows| && forall k: nat :: i <= k < end ==> BlockParity(k, size) == parity
    ensures Blocks(rows, size, parity, i) == rows[i..end] + Blocks(rows, size, parity, end)
    decreases end - i
  {
    if i < end {
      TakenBlock(rows, size, parity, i + 1, end);
      var first, block, rest := [rows[i]], rows[i + 1..end], Blocks(rows, size, parity, end);
      assert rows[i..end] == first + block;
      assert first + (block + rest) == (first + block) + rest;
    }
  }

  /** ... or none is. */
  lemma {:induction false} SkippedBlock<T>(rows: seq<T>, size: nat, parity: nat, i: nat, end: nat)
    requires 0 < size && i <= end <= |rows| && forall k: nat :: i <= k < end ==> BlockParity(k, size) != parity
    ensures Blocks(rows, size, parity, i) == Blocks(rows, size, parity, end)
    decreases end - i
  {
    if i < end { SkippedBlock(rows, size, parity, i + 1, end); }
  }

  lemma FirstTwoBlocks<T>(rows: seq<T>, size: nat, b1: nat, b2: nat)
    requires 0 < size && b1 == if |rows| < size then |rows| else size
    requires b2 == if |rows| < 2 * size then |rows| else 2 * size
    ensures EvenBlocks(rows, size) == rows[..b1] + Blocks(rows, size, 0, b2)
    ensures OddBlocks(rows, size) == rows[b1..b2] + Blocks(rows, size, 1, b2)
  {
    TakenBlock(rows, size, 0, 0, b1);
    SkippedBlock(rows, size, 0, b1, b2);
    SkippedBlock(rows, size, 1, 0, b1);
    TakenBlock(rows, size, 1, b1, b2);
  }

  lemma {:induction false} BlockShift<T>(rows: seq<T>, size: nat, parity: nat, i: nat)
    requires 0 < size && 2 * size <= |rows|
    ensures Blocks(rows, size, parity, i + 2 * size) == Blocks(rows[2 * size..], size, parity, i)
    decreases |rows| - i
  {
    var m := i + 2 * size;
    if m < |rows| {
      BlockShift(rows, size, parity, i + 1);
      assert BlockParity(m, size) == 1 - BlockParity(i + size, size) == BlockParity(i, size);
      var taken := if BlockParity(m, size) == parity then [rows[m]] else [];
      assert Blocks(rows, size, parity, m) == taken + Blocks(rows, size, parity, m + 1);
      assert Blocks(rows[2 * size..], size, parity, i) == taken + Blocks(rows[2 * size..], size, parity, i + 1);
    }
  }

  /** Both kinds of blocks, two blocks at a time. */
  lemma BlocksUnfold<T>(rows: seq<T>, size: nat)
    requires 0 < size
    ensures |rows| <= size ==> EvenBlocks(rows, size) == rows && OddBlocks(rows, size) == []
    ensures size < |rows| <= 2 * size ==>
      EvenBlocks(rows, size) == rows[..size] && OddBlocks(rows, size) == rows[size..]
    ensures 2 * size <= |rows| ==>
      && EvenBlocks(rows, size) == rows[..size] + EvenBlocks(rows[2 * size..], size)
      && OddBlocks(rows, size) == rows[size..2 * size] + OddBlocks(rows[2 * size..], size)
  {
    var b1, b2 := if |rows| < size then |rows| else size, if |rows| < 2 * size then |rows| else 2 * size;
    FirstTwoBlocks(rows, size, b1, b2);
    if b2 == 2 * size {
      BlockShift(rows, size, 0, 0);
      BlockShift(rows, size, 1, 0);
    }
  }

  /** A pass visits at least half of the rows. */
  lemma {:induction false} OddBlocksAreAtMostHalf<T>(rows: seq<T>, size: nat)
    requires 0 < size
    ensures |EvenBlocks(rows, size)| + |OddBlocks(rows, size)| == |rows|
    ensures |OddBlocks(rows, size)| <= |rows| / 2
    ensures OddBlocks(rows, size) == [] <==> |rows| <= size
    decreases |rows|
  {
    BlocksUnfold(rows, size);
    if 2 * size < |rows| {
      OddBlocksAreAtMostHalf(rows[2 * size..], size);
    }
  }

  /** Names the round of a pass that a law is applied to. */
  ghost predicate RoundAt<Db(!new), T(!new)>(c: Call<Db, T>, db: Db, offset: nat) { true }

  /** From any store where `inv` holds the callback succeeds, keeps `inv`, and makes exactly its
    * batch leave the query. */
  ghost predicate Leaves<Db(!new), T(!new)>(c: Call<Db, T>, inv: Db -> bool) {
    forall db, offset: nat {:trigger RoundAt(c, db, offset)} :: inv(db) && offset <= |c.query(db)| ==>
      && c.Accepts(db, offset)
      && inv(c.After(db, offset))
      && c.query(c.After(db, offset)) == c.query(db)[..offset] + c.query(db)[offset + |c.PageAt(db, offset)|..]
  }

  /** Every second block, cut off the front two blocks at a time: what a pass takes and what it steps over. */
  ghost function Taken<T>(rows: seq<T>, size: nat): seq<T>
    requires 0 < size
    decreases |rows|
  {
    if |rows| <= size then rows
    else if |rows| <= 2 * size then rows[..size]
    else rows[..size] + Taken(rows[2 * size..], size)
  }

  ghost function Skipped<T>(rows: seq<T>, size: nat): seq<T>
    requires 0 < size
    decreases |rows|
  {
    if |rows| <= size then []
    else if |rows| <= 2 * size then rows[size..]
    else rows[size..2 * size] + Skipped(rows[2 * size..], size)
  }

  lemma {:induction false} TakenAreEvenBlocks<T>(rows: seq<T>, size: nat)
    requires 0 < size
    ensures Taken(rows, size) == EvenBlocks(rows, size) && Skipped(rows, size) == OddBlocks(rows, size)
    decreases |rows|
  {
    BlocksUnfold(rows, size);
    if 2 * size < |rows| { TakenAreEvenBlocks(rows[2 * size..], size); }
  }

  /** The page behind `before`, and what is left when it goes. */
  lemma PageBehind<T>(before: seq<T>, tail: seq<T>, size: nat)
    requires 0 < size
    ensures var page := Page(before + tail, |before|, size); var k := if |tail| <= size then |tail| else size;
      && page == tail[..k] && |page| == k
      && (before + tail)[..|before|] + (before + tail)[|before| + |page|..] == before + tail[k..]
  {
    assert (before + tail)[|before|..] == tail;
  }

  lemma TwoBlocks<T>(before: seq<T>, tail: seq<T>, size: nat)
    requires 0 < size && 2 * size < |tail|
    ensures before + tail[size..] == (before + tail[size..2 * size]) + tail[2 * size..]
    ensures Taken(tail, size) == tail[..size] + Taken(tail[2 * size..], size)
    ensures before + Skipped(tail, size) == (before + tail[size..2 * size]) + Skipped(tail[2 * size..], size)
  {
    assert tail[size..] == tail[size..2 * size] + tail[2 * size..];
    var rest := Skipped(tail[2 * size..], size);
    assert before + (tail[size..2 * size] + rest) == (before + tail[size..2 * size]) + rest;
  }

  lemma LeavingRound<Db(!new), T(!new)>(
    c: Call<Db, T>, inv: Db -> bool, db: Db, before: seq<T>, tail: seq<T>, round: nat)
    requires c.Stops() && Leaves(c, inv) && Healthy(c) && c.options == Normal
    requires inv(db) && c.query(db) == before + tail
    ensures var k := if |tail| <= c.size then |tail| else c.size;
      && c.PageAt(db, |before|) == tail[..k] && c.query(c.After(db, |before|)) == before + tail[k..]
      && c.Accepts(db, |before|) && inv(c.After(db, |before|))
      && c.EndingAt(db, |before|, round) == if 2 * c.size < |tail| then Continues else Finished
  {
    assert RoundAt(c, db, |before|);
    PageBehind(before, tail, c.size);
  }

  lemma {:induction false} LeavingPass<Db(!new), T(!new)>(
    c: Call<Db, T>, inv: Db -> bool, db: Db, before: seq<T>, tail: seq<T>, round: nat)
    requires c.Stops() && Leaves(c, inv) && Healthy(c) && c.options == Normal
    requires inv(db) && c.query(db) == before + tail
    ensures var pass := PassFrom(c, db, |before|, round, false);
            && pass.ending.Finished? && !pass.lastError
            && inv(pass.db)
            && Concat(pass.batches) == Taken(tail, c.size)
            && c.query(pass.db) == before + Skipped(tail, c.size)
    decreases |tail|
  {
    var size, offset := c.size, |before|;
    var batch, db', pass := c.PageAt(db, offset), c.After(db, offset), PassFrom(c, db, offset, round, false);
    LeavingRound(c, inv, db, before, tail, round);
    if 2 * size < |tail| {
      var next, rest := before + tail[size..2 * size], PassFrom(c, db', offset + size, round + 1, false);
      assert pass == rest.(batches := [batch] + rest.batches);
      TwoBlocks(before, tail, size);
      LeavingPass(c, inv, db', next, tail[2 * size..], round + 1);
      ConcatCons(batch, rest.batches);
    } else {
      assert pass == Pass(db', [batch], Finished, false);
      ConcatOne(batch);
    }
  }

  /** One normal-mode pass then visits exactly the even-numbered blocks and leaves the odd ones. */
  lemma LeavingPassVisitsEvenBlocks<Db(!new), T(!new)>(c: Call<Db, T>, inv: Db -> bool, db: Db)
    requires c.Stops() && Leaves(c, inv) && Healthy(c) && c.options == Normal && inv(db)
    ensures var pass := PassFrom(c, db, 0, 0, false);
            && pass.ending.Finished? && !pass.lastError
            && inv(pass.db)
            && Concat(pass.batches) == EvenBlocks(c.query(db), c.size)
            && c.query(pass.db) == OddBlocks(c.query(db), c.size)
  {
    assert [] + c.query(db) == c.query(db);
    LeavingPass(c, inv, db, [], c.query(db), 0);
    TakenAreEvenBlocks(c.query(db), c.size);
  }

  function Bits(n: nat): nat { if n == 0 then 0 else 1 + Bits(n / 2) }

  function Pow2(k: nat): nat { if k == 0 then 1 else 2 * Pow2(k - 1) }

  lemma {:induction false} BitsIsLog2(n: nat)
    requires 0 < n
    ensures 0 < Bits(n) && Pow2(Bits(n) - 1) <= n < Pow2(Bits(n))
  {
    if n > 1 { BitsIsLog2(n / 2); }
  }

  lemma {:induction false} BitsMonotone(m: nat, n: nat)
    requires m <= n
    ensures Bits(m) <= Bits(n)
  {
    if m > 0 { BitsMonotone(m / 2, n / 2); }
  }

  ghost function Passes<Db(!new), T(!new)>(c: Call<Db, T>, db: Db, passes: nat): Db
    requires c.Stops()
    decreases passes
  {
    if passes == 0 then db else Passes(c, PassFrom(c, db, 0, 0, false).db, passes - 1)
  }

  /** Repeated passes drain n leaving rows in at most floor(log2 n) + 1 passes. */
  lemma {:induction false} PassesDrainLogarithmically<Db(!new), T(!new)>(
    c: Call<Db, T>, inv: Db -> bool, db: Db, passes: nat)
    requires c.Stops() && Leaves(c, inv) && Healthy(c) && c.options == Normal
    requires inv(db) && Bits(|c.query(db)|) <= passes
    ensures c.query(Passes(c, db, passes)) == []
    decreases passes
  {
    if passes > 0 {
      var rows, db' := c.query(db), PassFrom(c, db, 0, 0, false).db;
      LeavingPassVisitsEvenBlocks(c, inv, db);
      OddBlocksAreAtMostHalf(rows, c.size);
      BitsMonotone(|c.query(db')|, |rows| / 2);
      PassesDrainLogarithmically(c, inv, db', passes - 1);
    }
  }

  // ---- delete mode ----

  /** From any store where `inv` holds the callback keeps `inv` and, when it succeeds, removes exactly
    * the first page. */
  ghost predicate RemovesFirstPage<Db(!new), T(!new)>(c: Call<Db, T>, inv: Db -> bool) {
    forall db {:trigger c.After(db, 0)} :: inv(db) ==>
      && inv(c.After(db, 0))
      && (c.Accepts(db, 0) ==> c.query(c.After(db, 0)) == c.query(db)[|c.PageAt(db, 0)|..])
  }

  /** Whatever the store answers, what a delete-mode pass has visited and what is still stored make
    * up the original rows; a pass that finishes has emptied the query. */
  lemma {:induction false} DeleteModeDrains<Db(!new), T(!new)>(c: Call<Db, T>, inv: Db -> bool, db: Db, round: nat)
    requires c.Stops() && RemovesFirstPage(c, inv) && c.options == DeleteMode && inv(db)
    ensures var pass := PassFrom(c, db, 0, round, false);
            && inv(pass.db)
            && (!pass.ending.ProcessError? ==> Concat(pass.batches) + c.query(pass.db) == c.query(db))
            && (pass.ending.Finished? ==> c.query(pass.db) == [])
    decreases |c.query(db)|
  {
    var rows, batch, db' := c.query(db), c.PageAt(db, 0), c.After(db, 0);
    PageCuts(rows, 0, c.size);
    ConcatOne(batch);
    if c.EndingAt(db, 0, round).Continues? {
      DeleteModeDrains(c, inv, db', round + 1);
      var rest := PassFrom(c, db', 0, round + 1, false);
      ConcatCons(batch, rest.batches);
      assert batch + Concat(rest.batches) + c.query(rest.db) == batch + (Concat(rest.batches) + c.query(rest.db));
    }
  }

  // ---- a callback that drops only some rows of its batch ----

  /** From any store where `inv` holds the callback keeps `inv` and the rows to keep and, when it
    * succeeds, drops exactly the other rows of its batch. A failing one changes nothing (its
    * transaction is rolled back). */
  ghost predicate Prunes<Db(!new), T(!new)>(c: Call<Db, T>, keep: Db -> set<T>, inv: Db -> bool) {
    forall db, offset: nat {:trigger RoundAt(c, db, offset)} :: inv(db) && offset <= |c.query(db)| ==>
      && inv(c.After(db, offset)) && keep(c.After(db, offset)) == keep(db)
      && c.query(c.After(db, offset)) == Pruned(c.query(db), offset, c.size, keep(db), c.Accepts(db, offset))
  }

  function Pruned<T(==)>(rows: seq<T>, offset: nat, size: nat, keep: set<T>, ok: bool): seq<T>
    requires offset <= |rows|
  {
    var page := Page(rows, offset, size);
    if ok then rows[..offset] + Select(page, keep) + rows[offset + |page|..] else rows
  }

  lemma PrunedKeepsKeptRows<T(!new)>(rows: seq<T>, offset: nat, size: nat, keep: set<T>, ok: bool)
    requires 0 < size && offset <= |rows|
    ensures Select(Pruned(rows, offset, size, keep, ok), keep) == Select(rows, keep)
    ensures |Pruned(rows, offset, size, keep, ok)| <= |rows|
  {
    var page := Page(rows, offset, size);
    var back := rows[offset + |page|..];
    PageCuts(rows, offset, size);
    SelectTwice(page, keep);
    SelectConcat(rows[..offset] + page, back, keep);
    SelectConcat(rows[..offset], page, keep);
    SelectConcat(rows[..offset] + Select(page, keep), back, keep);
    SelectConcat(rows[..offset], Select(page, keep), keep);
  }

  lemma PruningRound<Db(!new), T(!new)>(c: Call<Db, T>, keep: Db -> set<T>, inv: Db -> bool, db: Db, offset: nat)
    requires c.Stops() && Prunes(c, keep, inv) && inv(db) && offset <= |c.query(db)|
    ensures var db' := c.After(db, offset);
      && inv(db') && keep(db') == keep(db) && |c.query(db')| <= |c.query(db)|
      && Select(c.query(db'), keep(db)) == Select(c.query(db), keep(db))
      && forall x :: x in c.query(db') ==> x in c.query(db)
  {
    assert RoundAt(c, db, offset);
    PrunedKeepsKeptRows(c.query(db), offset, c.size, keep(db), c.Accepts(db, offset));
    PageMembers(c.query(db), offset, c.size);
    SelectMembers(c.PageAt(db, offset), keep(db));
  }

  /** A pruning pass never drops a kept row, never reorders and never adds one, whatever the store answers. */
  lemma {:induction false} PruningPassKeepsKeptRows<Db(!new), T(!new)>(
    c: Call<Db, T>, keep: Db -> set<T>, inv: Db -> bool, db: Db, offset: nat, round: nat)
    requires c.Stops() && Prunes(c, keep, inv) && c.options == Normal
    requires inv(db) && offset <= |c.query(db)|
    ensures var end := PassFrom(c, db, offset, round, false).db;
            && inv(end) && keep(end) == keep(db) && |c.query(end)| <= |c.query(db)|
            && Select(c.query(end), keep(db)) == Select(c.query(db), keep(db))
            && forall x :: x in c.query(end) ==> x in c.query(db)
    decreases |c.query(db)| - offset
  {
    PruningRound(c, keep, inv, db, offset);
    if c.EndingAt(db, offset, round).Continues? {
      PruningPassKeepsKeptRows(c, keep, inv, c.After(db, offset), offset + c.size, round + 1);
    }
  }

  /** The pages before the first rejected row are full and unshifted. */
  lemma PrunedAtFirstRejectedRow<T(!new)>(rows: seq<T>, offset: nat, size: nat, keep: set<T>, first: nat)
    requires 0 < size && offset <= first < |rows|
    requires rows[first] !in keep && forall i :: 0 <= i < first ==> rows[i] in keep
    ensures offset + size <= first ==> Pruned(rows, offset, size, keep, true) == rows
    ensures first < offset + size ==> |Pruned(rows, offset, size, keep, true)| < |rows|
    ensures first < offset + size && NoDuplicates(rows) ==> rows[first] !in Pruned(rows, offset, size, keep, true)
  {
    var page := Page(rows, offset, size);
    PageCuts(rows, offset, size);
    SelectTwice(page, keep);
    if first < offset + size {
      assert page[first - offset] == rows[first];
      SelectMembers(page, keep);
      if NoDuplicates(rows) { DistinctParts(rows, offset, offset + |page|); }
    }
  }

  /** Deletions shift the rows behind the offset, yet a pass over a healthy store always reaches and
    * drops the first row to drop. */
  lemma {:induction false} PruningPassReachesFirstRejectedRow<Db(!new), T(!new)>(
    c: Call<Db, T>, keep: Db -> set<T>, inv: Db -> bool, db: Db, offset: nat, round: nat, first: nat)
    requires c.Stops() && Prunes(c, keep, inv) && Healthy(c) && c.options == Normal
    requires forall d, o: nat {:trigger c.Accepts(d, o)} :: inv(d) ==> c.Accepts(d, o)
    requires inv(db) && offset <= first < |c.query(db)|
    requires c.query(db)[first] !in keep(db) && forall i :: 0 <= i < first ==> c.query(db)[i] in keep(db)
    ensures var end := PassFrom(c, db, offset, round, false).db;
      |c.query(end)| < |c.query(db)| && (NoDuplicates(c.query(db)) ==> c.query(db)[first] !in c.query(end))
    decreases |c.query(db)| - offset
  {
    if offset + c.size <= first {
      RoundBeforeFirstRejectedRow(c, keep, inv, db, offset, first);
      if c.EndingAt(db, offset, round).Continues? {
        PruningPassReachesFirstRejectedRow(c, keep, inv, c.After(db, offset), offset + c.size, round + 1, first);
      }
    } else {
      RoundAtFirstRejectedRow(c, keep, inv, db, offset, first);
      if c.EndingAt(db, offset, round).Continues? {
        PruningPassKeepsKeptRows(c, keep, inv, c.After(db, offset), offset + c.size, round + 1);
      }
    }
  }

  lemma RoundBeforeFirstRejectedRow<Db(!new), T(!new)>(
    c: Call<Db, T>, keep: Db -> set<T>, inv: Db -> bool, db: Db, offset: nat, first: nat)
    requires 0 < c.size && Prunes(c, keep, inv) && inv(db) && c.Accepts(db, offset)
    requires offset + c.size <= first < |c.query(db)|
    requires c.query(db)[first] !in keep(db) && forall i :: 0 <= i < first ==> c.query(db)[i] in keep(db)
    ensures var db' := c.After(db, offset); c.query(db') == c.query(db) && keep(db') == keep(db) && inv(db')
  {
    assert RoundAt(c, db, offset);
    PrunedAtFirstRejectedRow(c.query(db), offset, c.size, keep(db), first);
  }

  lemma RoundAtFirstRejectedRow<Db(!new), T(!new)>(
    c: Call<Db, T>, keep: Db -> set<T>, inv: Db -> bool, db: Db, offset: nat, first: nat)
    requires 0 < c.size && Prunes(c, keep, inv) && inv(db) && c.Accepts(db, offset)
    requires offset <= first < |c.query(db)| && first < offset + c.size
    requires c.query(db)[first] !in keep(db) && forall i :: 0 <= i < first ==> c.query(db)[i] in keep(db)
    ensures var db' := c.After(db, offset);
      && inv(db') && |c.query(db')| < |c.query(db)|
      && (NoDuplicates(c.query(db)) ==> c.query(db)[first] !in c.query(db'))
  {
    assert RoundAt(c, db, offset);
    PrunedAtFirstRejectedRow(c.query(db), offset, c.size, keep(db), first);
  }

  /** How many rows are to go. */
  ghost function Rejected<T(!new)>(rows: seq<T>, keep: set<T>): (n: nat)
    ensures n <= |rows|
  {
    SelectTwice(rows, keep);
    |rows| - |Select(rows, keep)|
  }

  lemma RejectedConcat<T(!new)>(a: seq<T>, b: seq<T>, keep: set<T>)
    ensures Rejected(a + b, keep) == Rejected(a, keep) + Rejected(b, keep)
  {
    SelectConcat(a, b, keep);
  }

  /** The first page behind `before`, without the rows to drop. */
  lemma PrunedBehind<T(!new)>(before: seq<T>, tail: seq<T>, size: nat, k: nat, keep: set<T>)
    requires 0 < size && k == if |tail| <= size then |tail| else size
    ensures Pruned(before + tail, |before|, size, keep, true) == before + Select(tail[..k], keep) + tail[k..]
    ensures Rejected(before + Select(tail[..k], keep) + tail[k..], keep)
            == Rejected(before, keep) + Rejected(tail[k..], keep)
    ensures Rejected(tail, keep) == Rejected(tail[..k], keep) + Rejected(tail[k..], keep)
    ensures |Select(tail[..k], keep)| == k - Rejected(tail[..k], keep)
  {
    var page, back := tail[..k], tail[k..];
    PageBehind(before, tail, size);
    assert (before + tail)[..|before|] == before && (before + tail)[|before| + k..] == back;
    assert tail == page + back;
    RejectedConcat(page, back, keep);
    SelectTwice(page, keep);
    RejectedConcat(before + Select(page, keep), back, keep);
    RejectedConcat(before, Select(page, keep), keep);
  }

  /** The `d` rows that move up into the gap are stepped over. */
  lemma SteppedOver<T(!new)>(front: seq<T>, back: seq<T>, d: nat, keep: set<T>)
    requires d <= |back|
    ensures front + back == (front + back[..d]) + back[d..]
    ensures Rejected(front + back[..d], keep) == Rejected(front, keep) + Rejected(back[..d], keep)
    ensures Rejected(back, keep) == Rejected(back[..d], keep) + Rejected(back[d..], keep)
  {
    assert back == back[..d] + back[d..];
    RejectedConcat(back[..d], back[d..], keep);
    RejectedConcat(front, back[..d], keep);
  }

  /** One round: either it is the last and leaves no more rows to drop than it dropped, or it leaves
    * `next` behind it, with no more of them than it dropped, and `rest` before it. */
  lemma HalvingRound<Db(!new), T(!new)>(
    c: Call<Db, T>, keep: Db -> set<T>, inv: Db -> bool, db: Db, before: seq<T>, tail: seq<T>, round: nat)
    returns (next: seq<T>, rest: seq<T>)
    requires c.Stops() && Prunes(c, keep, inv) && Healthy(c) && c.options == Normal
    requires inv(db) && c.Accepts(db, |before|) && c.query(db) == before + tail
    ensures var db', r := c.After(db, |before|), keep(db);
      && inv(db') && keep(db') == r
      && if c.EndingAt(db, |before|, round).Continues? then
           && c.query(db') == next + rest && |next| == |before| + c.size && |rest| < |tail|
           && 2 * Rejected(next, r) + Rejected(rest, r) <= 2 * Rejected(before, r) + Rejected(tail, r)
         else
           && c.EndingAt(db, |before|, round).Finished?
           && 2 * Rejected(c.query(db'), r) <= 2 * Rejected(before, r) + Rejected(tail, r)
  {
    var size, r, k := c.size, keep(db), if |tail| <= c.size then |tail| else c.size;
    var d, front, back := Rejected(tail[..k], r), before + Select(tail[..k], r), tail[k..];
    assert RoundAt(c, db, |before|);
    PageBehind(before, tail, size);
    PrunedBehind(before, tail, size, k, r);
    SelectTwice(tail[..k], r);
    RejectedConcat(before, Select(tail[..k], r), r);
    assert c.query(c.After(db, |before|)) == front + back;
    next, rest := [], [];
    if c.EndingAt(db, |before|, round).Continues? {
      SteppedOver(front, back, d, r);
      next, rest := front + back[..d], back[d..];
    }
  }

  /** So a pass steps over at most as many rows to drop as it drops. */
  lemma {:induction false} PruningPass<Db(!new), T(!new)>(
    c: Call<Db, T>, keep: Db -> set<T>, inv: Db -> bool, db: Db, before: seq<T>, tail: seq<T>, round: nat)
    requires c.Stops() && Prunes(c, keep, inv) && Healthy(c) && c.options == Normal
    requires forall d, o: nat {:trigger c.Accepts(d, o)} :: inv(d) ==> c.Accepts(d, o)
    requires inv(db) && c.query(db) == before + tail
    ensures var end := PassFrom(c, db, |before|, round, false).db;
      2 * Rejected(c.query(end), keep(db)) <= 2 * Rejected(before, keep(db)) + Rejected(tail, keep(db))
    decreases |tail|
  {
    assert c.Accepts(db, |before|);
    var next, rest := HalvingRound(c, keep, inv, db, before, tail, round);
    if c.EndingAt(db, |before|, round).Continues? {
      PruningPass(c, keep, inv, c.After(db, |before|), next, rest, round + 1);
    }
  }

  /** At least half of the rows to drop go. */
  lemma PruningPassHalvesRejectedRows<Db(!new), T(!new)>(c: Call<Db, T>, keep: Db -> set<T>, inv: Db -> bool, db: Db)
    requires c.Stops() && Prunes(c, keep, inv) && Healthy(c) && c.options == Normal && inv(db)
    requires forall d, o: nat {:trigger c.Accepts(d, o)} :: inv(d) ==> c.Accepts(d, o)
    ensures Rejected(c.query(PassFrom(c, db, 0, 0, false).db), keep(db)) <= Rejected(c.query(db), keep(db)) / 2
  {
    assert [] + c.query(db) == c.query(db);
    PruningPass(c, keep, inv, db, [], c.query(db), 0);
  }
}
