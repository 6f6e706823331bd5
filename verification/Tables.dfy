/** Rows of a table in a fixed order, and the queries on it: `Select(order, wanted)` lists the wanted
  * rows in table order. */
module Tables {

  predicate NoDuplicates<T(==)>(s: seq<T>) { forall i, j :: 0 <= i < j < |s| ==> s[i] != s[j] }

  function Elements<T>(s: seq<T>): set<T> { set x | x in s }

  function Select<T(==)>(order: seq<T>, wanted: set<T>): seq<T> {
    if order == [] then []
    else if order[0] in wanted then [order[0]] + Select(order[1..], wanted)
    else Select(order[1..], wanted)
  }

  lemma {:induction false} SelectMembers<T(!new)>(order: seq<T>, wanted: set<T>)
    ensures forall x :: x in Select(order, wanted) <==> x in order && x in wanted
    ensures NoDuplicates(order) ==> NoDuplicates(Select(order, wanted))
  {
    if order != [] {
      SelectMembers(order[1..], wanted);
      assert order == [order[0]] + order[1..];
      assert NoDuplicates(order) ==> order[0] !in order[1..];
    }
  }

  /** Rows outside the table do not matter. */
  lemma {:induction false} SelectSame<T(!new)>(order: seq<T>, a: set<T>, b: set<T>)
    requires forall x :: x in order ==> (x in a <==> x in b)
    ensures Select(order, a) == Select(order, b)
  {
    if order != [] {
      SelectSame(order[1..], a, b);
    }
  }

  /** Taking some wanted rows away shrinks the query. */
  lemma {:induction false} SelectFewer<T(!new)>(order: seq<T>, fewer: set<T>, wanted: set<T>)
    requires fewer <= wanted
    ensures |Select(order, fewer)| <= |Select(order, wanted)|
  {
    if order != [] {
      SelectFewer(order[1..], fewer, wanted);
    }
  }

  lemma {:induction false} SelectStrictlyFewer<T(!new)>(order: seq<T>, fewer: set<T>, wanted: set<T>, x: T)
    requires fewer <= wanted && x in order && x in wanted && x !in fewer
    ensures |Select(order, fewer)| < |Select(order, wanted)|
  {
    if order[0] == x {
      SelectFewer(order[1..], fewer, wanted);
    } else {
      SelectStrictlyFewer(order[1..], fewer, wanted, x);
    }
  }

  lemma {:induction false} SelectConcat<T(!new)>(a: seq<T>, b: seq<T>, wanted: set<T>)
    ensures Select(a + b, wanted) == Select(a, wanted) + Select(b, wanted)
  {
    if a == [] {
      assert a + b == b;
    } else {
      var s := a + b;
      assert s[0] == a[0] && s[1..] == a[1..] + b;
      SelectConcat(a[1..], b, wanted);
    }
  }

  /** Selecting is idempotent, and it keeps the length only when it drops nothing. */
  lemma {:induction false} SelectTwice<T(!new)>(order: seq<T>, wanted: set<T>)
    ensures Select(Select(order, wanted), wanted) == Select(order, wanted)
    ensures |Select(order, wanted)| <= |order|
    ensures |Select(order, wanted)| == |order| <==> forall i :: 0 <= i < |order| ==> order[i] in wanted
    ensures |Select(order, wanted)| == |order| ==> Select(order, wanted) == order
  {
    if order != [] {
      SelectTwice(order[1..], wanted);
      var rows := Select(order, wanted);
      assert order == [order[0]] + order[1..];
      assert forall i :: 0 <= i < |order[1..]| ==> order[1..][i] == order[i + 1];
      if order[0] in wanted {
        assert rows[0] == order[0] && rows[1..] == Select(order[1..], wanted);
      }
    }
  }

  /** The table can be cut where the query is cut. */
  lemma {:induction false} SelectSplit<T(!new)>(order: seq<T>, wanted: set<T>, k: nat) returns (p: nat)
    requires k <= |Select(order, wanted)|
    ensures p <= |order|
    ensures Select(order[..p], wanted) == Select(order, wanted)[..k]
    ensures Select(order[p..], wanted) == Select(order, wanted)[k..]
  {
    if k == 0 {
      p := 0;
      assert order[0..] == order;
    } else {
      var rows, rest := Select(order, wanted), Select(order[1..], wanted);
      var k' := if order[0] in wanted then k - 1 else k;
      var q := SelectSplit(order[1..], wanted, k');
      p := q + 1;
      assert order[..p][1..] == order[1..][..q] && order[p..] == order[1..][q..];
      if order[0] in wanted {
        assert rows[..k] == [order[0]] + rest[..k'] && rows[k..] == rest[k'..];
      }
    }
  }

  lemma {:induction false} SelectNone<T(!new)>(order: seq<T>, wanted: set<T>)
    requires forall x :: x in order ==> x !in wanted
    ensures Select(order, wanted) == []
  {
    if order != [] { SelectNone(order[1..], wanted); }
  }

  /** A part of the table whose rows are not concerned. */
  lemma SelectUnconcerned<T(!new)>(part: seq<T>, wanted: set<T>, left: set<T>, cut: seq<T>)
    requires forall x :: x in part ==> (x in left <==> x in wanted && x !in cut)
    requires forall x :: x in cut ==> x !in Select(part, wanted)
    ensures Select(part, left) == Select(part, wanted)
  {
    SelectMembers(part, wanted);
    SelectSame(part, left, wanted);
  }

  lemma DistinctParts<T>(rows: seq<T>, lo: nat, hi: nat)
    requires NoDuplicates(rows) && lo <= hi <= |rows|
    ensures forall x :: x in rows[lo..hi] ==> x !in rows[..lo] && x !in rows[hi..]
  {
  }

  lemma SelectCutParts<T(!new)>(first: seq<T>, middle: seq<T>, back: seq<T>, wanted: set<T>, left: set<T>, cut: seq<T>)
    requires forall x :: x in first || x in middle || x in back ==> (x in left <==> x in wanted && x !in cut)
    requires Select(middle, wanted) == cut
    requires forall x :: x in cut ==> x !in Select(first, wanted) && x !in Select(back, wanted)
    ensures Select(first + middle + back, left) == Select(first, wanted) + Select(back, wanted)
  {
    SelectUnconcerned(first, wanted, left, cut);
    SelectUnconcerned(back, wanted, left, cut);
    SelectMembers(middle, wanted);
    SelectNone(middle, left);
    SelectConcat(first + middle, back, left);
    SelectConcat(first, middle, left);
  }

  /** The table can be cut where two stretches of the query meet, twice. */
  lemma SelectSplitTwice<T(!new)>(order: seq<T>, wanted: set<T>, lo: nat, hi: nat)
    returns (first: seq<T>, middle: seq<T>, back: seq<T>)
    requires lo <= hi <= |Select(order, wanted)|
    ensures order == first + middle + back
    ensures var rows := Select(order, wanted);
      && Select(first, wanted) == rows[..lo]
      && Select(middle, wanted) == rows[lo..hi]
      && Select(back, wanted) == rows[hi..]
  {
    var rows := Select(order, wanted);
    var q := SelectSplit(order, wanted, hi);
    var p := SelectSplit(order[..q], wanted, lo);
    first, middle, back := order[..q][..p], order[..q][p..], order[q..];
    assert rows[..hi][..lo] == rows[..lo] && rows[..hi][lo..] == rows[lo..hi];
  }

  /** When exactly the rows of one stretch of the query stop being wanted, that stretch is cut out. */
  lemma SelectCut<T(!new)>(order: seq<T>, wanted: set<T>, left: set<T>, lo: nat, hi: nat)
    requires NoDuplicates(order) && lo <= hi <= |Select(order, wanted)|
    requires forall x :: x in order ==> (x in left <==> x in wanted && x !in Select(order, wanted)[lo..hi])
    ensures Select(order, left) == Select(order, wanted)[..lo] + Select(order, wanted)[hi..]
  {
    var rows := Select(order, wanted);
    var first, middle, back := SelectSplitTwice(order, wanted, lo, hi);
    assert forall x :: x in first || x in middle || x in back ==> x in order;
    SelectMembers(order, wanted);
    DistinctParts(rows, lo, hi);
    SelectCutParts(first, middle, back, wanted, left, rows[lo..hi]);
  }

  /** A table lists each of its rows once. */
  ghost predicate Lists<T>(order: seq<T>, rows: set<T>) {
    NoDuplicates(order) && Elements(order) == rows
  }

  lemma {:induction false} ElementsCount<T>(s: seq<T>)
    requires NoDuplicates(s)
    ensures |Elements(s)| == |s|
  {
    if s != [] {
      ElementsCount(s[1..]);
      assert Elements(s) == {s[0]} + Elements(s[1..]);
      assert s[0] !in s[1..];
    }
  }

  lemma SelectCount<T(!new)>(order: seq<T>, wanted: set<T>)
    requires NoDuplicates(order) && wanted <= Elements(order)
    ensures |Select(order, wanted)| == |wanted|
    ensures Elements(Select(order, wanted)) == wanted
  {
    SelectMembers(order, wanted);
    ElementsCount(Select(order, wanted));
    assert Elements(Select(order, wanted)) == wanted;
  }

  lemma {:induction false} FewerInSubset<T>(a: set<T>, b: set<T>)
    requires a <= b
    ensures |a| <= |b|
  {
    if x :| x in a { FewerInSubset(a - {x}, b - {x}); }
  }
}
