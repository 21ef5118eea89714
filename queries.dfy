/** The two query shapes the handlers in main.py run on a table:
    `query(T).filter(p).first()` and `query(T).filter(p).all()`, over rows
    kept in insertion order, plus the removal of one row by position. */
module Queries {

  datatype Option<T> = None | Some(value: T)

  /** Position of the first row that satisfies `p`, as `.first()` finds it. */
  function First<T>(s: seq<T>, p: T -> bool): (r: Option<nat>)
    ensures r.Some? ==> r.value < |s| && p(s[r.value])
    ensures r.Some? ==> forall j :: 0 <= j < r.value ==> !p(s[j])
    ensures r.None? <==> forall j :: 0 <= j < |s| ==> !p(s[j])
  {
    if |s| == 0 then None
    else if p(s[0]) then Some(0)
    else match First(s[1..], p)
      case None => None
      case Some(i) => Some(i + 1)
  }

  /** The rows that satisfy `p`, in table order, as `.all()` returns them. */
  function Filter<T(!new)>(s: seq<T>, p: T -> bool): (r: seq<T>)
    ensures |r| <= |s|
    ensures forall x :: x in r <==> x in s && p(x)
  {
    if |s| == 0 then []
    else
      var last := s[|s| - 1];
      assert s == s[..|s| - 1] + [last];
      Filter(s[..|s| - 1], p) + (if p(last) then [last] else [])
  }

  /** The table without the row at position `i`, as `db.delete(row)` leaves it. */
  function RemoveAt<T>(s: seq<T>, i: nat): (r: seq<T>)
    requires i < |s|
    ensures |r| == |s| - 1
    ensures multiset(r) == multiset(s) - multiset{s[i]}
    ensures forall j :: 0 <= j < i ==> r[j] == s[j]
    ensures forall j :: i <= j < |r| ==> r[j] == s[j + 1]
  {
    assert s == s[..i] + [s[i]] + s[i + 1..];
    s[..i] + s[i + 1..]
  }

  /** Selecting from a table that grew by one row selects what it selected
      before, plus that row when it qualifies. */
  lemma FilterAppend<T(!new)>(s: seq<T>, x: T, p: T -> bool)
    ensures Filter(s + [x], p) == Filter(s, p) + (if p(x) then [x] else [])
  {
    assert (s + [x])[..|s|] == s;
  }

  /** The positions of the rows that satisfy `p`, in increasing order. */
  function FilterIndices<T>(s: seq<T>, p: T -> bool): seq<nat>
  {
    if |s| == 0 then []
    else FilterIndices(s[..|s| - 1], p) + (if p(s[|s| - 1]) then [|s| - 1] else [])
  }

  /** The positions selected are valid, increasing, and exactly those whose
      row satisfies `p`. */
  lemma {:induction false} FilterIndicesExact<T>(s: seq<T>, p: T -> bool)
    ensures var idx := FilterIndices(s, p);
      && (forall i :: 0 <= i < |idx| ==> idx[i] < |s|)
      && (forall i, j :: 0 <= i < j < |idx| ==> idx[i] < idx[j])
      && (forall k :: 0 <= k < |s| ==> (k in idx <==> p(s[k])))
  {
    if |s| > 0 {
      var n := |s| - 1;
      var init := s[..n];
      FilterIndicesExact(init, p);
      var idx0 := FilterIndices(init, p);
      var idx := FilterIndices(s, p);
      assert idx == idx0 + (if p(s[n]) then [n] else []);
      assert n !in idx0;
      forall k | 0 <= k < n ensures (k in idx <==> p(s[k])) {
        assert init[k] == s[k];
      }
    }
  }

  /** Row `i` of the selection is the table row at the `i`-th selected
      position. */
  lemma {:induction false} FilterAtIndices<T(!new)>(s: seq<T>, p: T -> bool)
    ensures |Filter(s, p)| == |FilterIndices(s, p)|
    ensures forall i :: 0 <= i < |FilterIndices(s, p)| ==>
      FilterIndices(s, p)[i] < |s| && Filter(s, p)[i] == s[FilterIndices(s, p)[i]]
  {
    if |s| > 0 {
      var n := |s| - 1;
      var init := s[..n];
      FilterAtIndices(init, p);
      var idx0 := FilterIndices(init, p);
      var r0 := Filter(init, p);
      var idx := FilterIndices(s, p);
      var r := Filter(s, p);
      assert idx == idx0 + (if p(s[n]) then [n] else []);
      assert r == r0 + (if p(s[n]) then [s[n]] else []);
      forall i | 0 <= i < |idx0| ensures idx[i] < |s| && r[i] == s[idx[i]] {
        assert r[i] == r0[i] && idx[i] == idx0[i];
        assert init[idx0[i]] == s[idx0[i]];
      }
    }
  }

  /** `.all()` returns the qualifying rows in table order, each once: the
      selection is the subsequence of `s` at exactly the positions whose row
      satisfies `p`, taken in increasing order. */
  lemma FilterSelects<T(!new)>(s: seq<T>, p: T -> bool)
    ensures var idx := FilterIndices(s, p);
      && |Filter(s, p)| == |idx|
      && (forall i :: 0 <= i < |idx| ==> idx[i] < |s| && Filter(s, p)[i] == s[idx[i]])
      && (forall i, j :: 0 <= i < j < |idx| ==> idx[i] < idx[j])
      && (forall k :: 0 <= k < |s| ==> (k in idx <==> p(s[k])))
  {
    FilterAtIndices(s, p);
    FilterIndicesExact(s, p);
  }

  /** Every two rows of `s`, taken in table order, stand in relation `ok`:
      the shape of a uniqueness constraint on a table. */
  ghost predicate Pairwise<T>(s: seq<T>, ok: (T, T) -> bool)
  {
    forall i, j :: 0 <= i < j < |s| ==> ok(s[i], s[j])
  }

  /** Appending a row that agrees with every row already there keeps a
      uniqueness constraint. */
  lemma AppendPairwise<T>(s: seq<T>, x: T, ok: (T, T) -> bool)
    requires Pairwise(s, ok)
    requires forall i :: 0 <= i < |s| ==> ok(s[i], x)
    ensures Pairwise(s + [x], ok)
  {
  }

  /** Removing a row keeps a uniqueness constraint. */
  lemma RemoveAtPairwise<T>(s: seq<T>, k: nat, ok: (T, T) -> bool)
    requires k < |s| && Pairwise(s, ok)
    ensures Pairwise(RemoveAt(s, k), ok)
  {
    var r := RemoveAt(s, k);
    forall i, j | 0 <= i < j < |r| ensures ok(r[i], r[j]) {
      var i' := if i < k then i else i + 1;
      var j' := if j < k then j else j + 1;
      assert r[i] == s[i'] && r[j] == s[j'];
    }
  }

  /** Overwriting one row with a value that agrees with every other row
      keeps a uniqueness constraint. */
  lemma UpdatePairwise<T>(s: seq<T>, k: nat, x: T, ok: (T, T) -> bool)
    requires k < |s| && Pairwise(s, ok)
    requires forall i :: 0 <= i < k ==> ok(s[i], x)
    requires forall j :: k < j < |s| ==> ok(x, s[j])
    ensures Pairwise(s[k := x], ok)
  {
  }

  /** Selecting rows keeps a uniqueness constraint. */
  lemma {:induction false} FilterPairwise<T(!new)>(s: seq<T>, p: T -> bool, ok: (T, T) -> bool)
    ensures Pairwise(s, ok) ==> Pairwise(Filter(s, p), ok)
  {
    if |s| > 0 && Pairwise(s, ok) {
      var n := |s| - 1;
      var init := s[..n];
      var last := s[n];
      assert Pairwise(init, ok) by {
        forall i, j | 0 <= i < j < |init| ensures ok(init[i], init[j]) {
          assert init[i] == s[i] && init[j] == s[j];
        }
      }
      var front := Filter(init, p);
      FilterPairwise(init, p, ok);
      assert Filter(s, p) == front + (if p(last) then [last] else []);
      if p(last) {
        forall i | 0 <= i < |front| ensures ok(front[i], last) {
          assert front[i] in init;
          var m :| 0 <= m < n && init[m] == front[i];
          assert s[m] == front[i];
        }
        AppendPairwise(front, last, ok);
      }
    }
  }
}
