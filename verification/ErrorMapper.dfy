/** Mapping an internal error to the one that is exposed (internal/errs/mapper.go). */
module ErrorMapper {
  import opened Optional

  type Sentinel = nat

  /** One mapping: the errors to look for, what to expose, and whether context is read from the error. */
  datatype Entry = Entry(chain: seq<Sentinel>, exposed: nat, hasContext: bool)

  datatype Mapper = Mapper(entries: seq<Entry>, priority: seq<Entry>)

  /** What is exposed: an entry's error, with context taken from the internal error or not, or the default. */
  datatype Exposed = Exposed(error: nat, context: bool) | Default

  /** An internal error is known by the sentinels that errors.Is finds in it. */
  type InternalError = set<Sentinel>

  function Count(err: InternalError, chain: seq<Sentinel>): (n: nat)
    ensures n <= |chain|
  {
    if chain == [] then 0 else (if chain[0] in err then 1 else 0) + Count(err, chain[1..])
  }

  predicate Matched(err: InternalError, chain: seq<Sentinel>) { forall i :: 0 <= i < |chain| ==> chain[i] in err }

  predicate Touched(err: InternalError, chain: seq<Sentinel>) { exists i :: 0 <= i < |chain| && chain[i] in err }

  lemma {:induction false} CountMeans(err: InternalError, chain: seq<Sentinel>)
    ensures Count(err, chain) == |chain| <==> Matched(err, chain)
    ensures Count(err, chain) > 0 <==> Touched(err, chain)
  {
    if chain != [] {
      CountMeans(err, chain[1..]);
      assert forall i :: 1 <= i < |chain| ==> chain[i] == chain[1..][i - 1];
      assert forall i :: 0 <= i < |chain[1..]| ==> chain[1..][i] == chain[i + 1];
    }
  }

  lemma {:induction false} CountSnoc(err: InternalError, chain: seq<Sentinel>, e: Sentinel)
    ensures Count(err, chain + [e]) == Count(err, chain) + if e in err then 1 else 0
  {
    if chain == [] {
      assert chain + [e] == [e];
    } else {
      assert (chain + [e])[0] == chain[0] && (chain + [e])[1..] == chain[1..] + [e];
      CountSnoc(err, chain[1..], e);
    }
  }

  method CountMatchingErrors(err: InternalError, candidates: seq<Sentinel>) returns (matchCount: nat)
    ensures matchCount == Count(err, candidates)
  {
    matchCount := 0;
    for i := 0 to |candidates|
      invariant matchCount == Count(err, candidates[..i])
    {
      assert candidates[..i + 1] == candidates[..i] + [candidates[i]];
      CountSnoc(err, candidates[..i], candidates[i]);
      if candidates[i] in err { matchCount := matchCount + 1; }
    }
    assert candidates[..|candidates|] == candidates;
  }

  // ---- the rules, stated without the loops ----

  /** The entry's whole chain is in the error; an entry with an empty chain never counts. */
  predicate Fits(err: InternalError, e: Entry) { e.chain != [] && Matched(err, e.chain) }

  /** Entry `i` fits, no fitting entry has a longer chain, and none before it has one as long. */
  predicate Best(err: InternalError, entries: seq<Entry>, i: nat) {
    && i < |entries| && Fits(err, entries[i])
    && (forall j :: 0 <= j < |entries| && Fits(err, entries[j]) ==> |entries[j].chain| <= |entries[i].chain|)
    && (forall j :: 0 <= j < i && Fits(err, entries[j]) ==> |entries[j].chain| < |entries[i].chain|)
  }

  predicate FirstTouched(err: InternalError, entries: seq<Entry>, i: nat) {
    && i < |entries| && Touched(err, entries[i].chain)
    && (forall j :: 0 <= j < i ==> !Touched(err, entries[j].chain))
  }

  /** `result` is what the rules expose for `err`. */
  ghost predicate Rules(m: Mapper, err: InternalError, result: Exposed) {
    if exists i: nat :: FirstTouched(err, m.priority, i) then
      exists i: nat :: FirstTouched(err, m.priority, i) && result == Exposed(m.priority[i].exposed, false)
    else if exists i: nat :: Best(err, m.entries, i) then
      exists i: nat :: Best(err, m.entries, i) && result == Exposed(m.entries[i].exposed, m.entries[i].hasContext)
    else result == Default
  }

  /** The rules leave no choice. */
  lemma RulesDecide(m: Mapper, err: InternalError, a: Exposed, b: Exposed)
    requires Rules(m, err, a) && Rules(m, err, b)
    ensures a == b
  {
    if exists i: nat :: FirstTouched(err, m.priority, i) {
      var i: nat :| FirstTouched(err, m.priority, i) && a == Exposed(m.priority[i].exposed, false);
      var j: nat :| FirstTouched(err, m.priority, j) && b == Exposed(m.priority[j].exposed, false);
      assert i == j;
    } else if exists i: nat :: Best(err, m.entries, i) {
      var i: nat :| Best(err, m.entries, i) && a == Exposed(m.entries[i].exposed, m.entries[i].hasContext);
      var j: nat :| Best(err, m.entries, j) && b == Exposed(m.entries[j].exposed, m.entries[j].hasContext);
      assert i == j;
    }
  }

  // ---- the loops ----

  method ContainsAsPriority(m: Mapper, err: InternalError) returns (exposed: Option<nat>)
    ensures exposed.Some? ==>
      exists i: nat :: FirstTouched(err, m.priority, i) && exposed.value == m.priority[i].exposed
    ensures exposed.None? ==> forall i :: 0 <= i < |m.priority| ==> !Touched(err, m.priority[i].chain)
  {
    for i := 0 to |m.priority|
      invariant forall j :: 0 <= j < i ==> !Touched(err, m.priority[j].chain)
    {
      var count := CountMatchingErrors(err, m.priority[i].chain);
      CountMeans(err, m.priority[i].chain);
      if count > 0 {
        assert FirstTouched(err, m.priority, i);
        return Some(m.priority[i].exposed);
      }
    }
    return None;
  }

  /** The fitting entries with a chain of length `n`, in table order. */
  function OfLength(err: InternalError, entries: seq<Entry>, n: nat): seq<Entry> {
    if entries == [] then []
    else
      var rest, last := OfLength(err, entries[..|entries| - 1], n), entries[|entries| - 1];
      if Fits(err, last) && |last.chain| == n then rest + [last] else rest
  }

  lemma {:induction false} NoneOfLength(err: InternalError, entries: seq<Entry>, n: nat)
    requires forall i :: 0 <= i < |entries| && Fits(err, entries[i]) ==> |entries[i].chain| != n
    ensures OfLength(err, entries, n) == []
  {
    if entries != [] { NoneOfLength(err, entries[..|entries| - 1], n); }
  }

  /** `result` is what the loop has found in `seen`: the fitting entries of length `n`, the best of them first. */
  ghost predicate Found(err: InternalError, seen: seq<Entry>, result: seq<Entry>, n: nat, at: nat) {
    && 1 <= n && result == OfLength(err, seen, n)
    && (result == [] ==> n == 1 && forall j :: 0 <= j < |seen| ==> !Fits(err, seen[j]))
    && (result != [] ==> Best(err, seen, at) && result[0] == seen[at] && n == |seen[at].chain|)
  }

  lemma PassedOver(err: InternalError, seen: seq<Entry>, e: Entry, result: seq<Entry>, n: nat, at: nat)
    requires Found(err, seen, result, n, at) && (!Fits(err, e) || |e.chain| < n)
    ensures Found(err, seen + [e], result, n, at)
  {
    assert (seen + [e])[..|seen|] == seen;
  }

  lemma AnotherFound(err: InternalError, seen: seq<Entry>, e: Entry, result: seq<Entry>, n: nat, at: nat)
    requires Found(err, seen, result, n, at) && Fits(err, e) && |e.chain| == n
    ensures Found(err, seen + [e], result + [e], n, if result == [] then |seen| else at)
  {
    assert (seen + [e])[..|seen|] == seen;
  }

  lemma LongerFound(err: InternalError, seen: seq<Entry>, e: Entry, result: seq<Entry>, n: nat, at: nat)
    requires Found(err, seen, result, n, at) && Fits(err, e) && |e.chain| > n
    ensures Found(err, seen + [e], [e], |e.chain|, |seen|)
  {
    forall i | 0 <= i < |seen| && Fits(err, seen[i]) ensures |seen[i].chain| < |e.chain| {
      if result != [] { assert |seen[i].chain| <= |seen[at].chain|; }
    }
    NoneOfLength(err, seen, |e.chain|);
    assert (seen + [e])[..|seen|] == seen;
  }

  /** Exactly the entries whose chain fits and is as long as the longest fitting one, in table order. */
  method GetBestMatches(m: Mapper, err: InternalError) returns (result: seq<Entry>)
    ensures result == [] <==> forall i :: 0 <= i < |m.entries| ==> !Fits(err, m.entries[i])
    ensures result != [] ==> exists i: nat ::
      Best(err, m.entries, i) && result[0] == m.entries[i] && result == OfLength(err, m.entries, |m.entries[i].chain|)
  {
    var minCount: nat := 1;
    ghost var at: nat := 0;
    result := [];
    for i := 0 to |m.entries|
      invariant Found(err, m.entries[..i], result, minCount, at)
    {
      var e := m.entries[i];
      ghost var seen := m.entries[..i];
      assert m.entries[..i + 1] == seen + [e];
      var count := CountMatchingErrors(err, e.chain);
      CountMeans(err, e.chain);
      if |e.chain| <= count && count == minCount {
        AnotherFound(err, seen, e, result, minCount, at);
        if result == [] { at := i; }
        result := result + [e];
      } else if |e.chain| <= count && count > minCount {
        LongerFound(err, seen, e, result, minCount, at);
        minCount, at, result := count, i, [e];
      } else {
        PassedOver(err, seen, e, result, minCount, at);
      }
    }
    assert m.entries[..|m.entries|] == m.entries;
  }

  /** Transform exposes what the rules say. */
  method Transform(m: Mapper, err: InternalError) returns (exposed: Exposed)
    ensures Rules(m, err, exposed)
  {
    var priority := ContainsAsPriority(m, err);
    if priority.Some? { return Exposed(priority.value, false); }
    var result := GetBestMatches(m, err);
    if |result| == 0 { return Default; }
    exposed := Exposed(result[0].exposed, result[0].hasContext);
  }

  // ---- growing the table ----

  function Inserted(entries: seq<Entry>, k: nat, e: Entry): seq<Entry>
    requires k <= |entries|
  {
    entries[..k] + [e] + entries[k..]
  }

  lemma BestAfterInsert(err: InternalError, entries: seq<Entry>, i: nat, k: nat, e: Entry)
    requires Best(err, entries, i) && k <= |entries| && |e.chain| < |entries[i].chain|
    ensures var at := if i < k then i else i + 1;
      Best(err, Inserted(entries, k, e), at) && Inserted(entries, k, e)[at] == entries[i]
  {
    var more := Inserted(entries, k, e);
    assert forall j :: 0 <= j < k ==> more[j] == entries[j];
    assert more[k] == e;
    assert forall j :: k < j < |more| ==> more[j] == entries[j - 1];
  }

  /** An entry with a shorter chain than the winner's never changes what is exposed, wherever it is put. */
  lemma ShorterEntryChangesNothing(m: Mapper, err: InternalError, result: Exposed, winner: nat, k: nat, e: Entry)
    requires Rules(m, err, result) && Best(err, m.entries, winner)
    requires k <= |m.entries| && |e.chain| < |m.entries[winner].chain|
    ensures Rules(m.(entries := Inserted(m.entries, k, e)), err, result)
  {
    BestAfterInsert(err, m.entries, winner, k, e);
    if !exists i: nat :: FirstTouched(err, m.priority, i) {
      var i: nat :| Best(err, m.entries, i) && result == Exposed(m.entries[i].exposed, m.entries[i].hasContext);
      assert i == winner;
    }
  }
}
