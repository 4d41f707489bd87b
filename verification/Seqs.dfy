/** Selections from tables kept as sequences of rows. */
module Seqs {
  function Filter<T>(keep: T -> bool, rows: seq<T>): (kept: seq<T>)
    ensures forall x :: x in kept ==> x in rows && keep(x)
    ensures forall x :: x in rows && keep(x) ==> x in kept
    ensures |kept| <= |rows|
  {
    if rows == [] then []
    else Filter(keep, rows[..|rows| - 1]) + if keep(rows[|rows| - 1]) then [rows[|rows| - 1]] else []
  }

  lemma {:induction false} FilterAppend<T>(keep: T -> bool, a: seq<T>, b: seq<T>)
    ensures Filter(keep, a + b) == Filter(keep, a) + Filter(keep, b)
    decreases |b|
  {
    if b == [] {
      assert a + b == a;
    } else {
      var front, last := b[..|b| - 1], b[|b| - 1];
      var tail := if keep(last) then [last] else [];
      FilterAppend(keep, a, front);
      assert (a + b)[..|a + b| - 1] == a + front;
      assert Filter(keep, a + b) == Filter(keep, a + front) + tail;
      assert (Filter(keep, a) + Filter(keep, front)) + tail == Filter(keep, a) + (Filter(keep, front) + tail);
    }
  }

  lemma {:induction false} FilterFilter<T>(f: T -> bool, g: T -> bool, rows: seq<T>)
    requires forall x :: x in rows && g(x) ==> f(x)
    ensures Filter(g, Filter(f, rows)) == Filter(g, rows)
    decreases |rows|
  {
    if rows != [] {
      var front, last := rows[..|rows| - 1], rows[|rows| - 1];
      FilterFilter(f, g, front);
      FilterAppend(g, Filter(f, front), if f(last) then [last] else []);
    }
  }

  lemma {:induction false} FilterNone<T>(keep: T -> bool, rows: seq<T>)
    requires forall x :: x in rows ==> !keep(x)
    ensures Filter(keep, rows) == []
    decreases |rows|
  {
    if rows != [] {
      FilterNone(keep, rows[..|rows| - 1]);
    }
  }

  lemma {:induction false} FilterAll<T>(keep: T -> bool, rows: seq<T>)
    requires forall x :: x in rows ==> keep(x)
    ensures Filter(keep, rows) == rows
    decreases |rows|
  {
    if rows != [] {
      var front, last := rows[..|rows| - 1], rows[|rows| - 1];
      FilterAll(keep, front);
      assert keep(last) && front + [last] == rows;
    }
  }

  /** Selection keeps row order. */
  lemma {:induction false} FilterOrder<T>(keep: T -> bool, rows: seq<T>)
    returns (index: seq<nat>)
    ensures |index| == |Filter(keep, rows)|
    ensures forall k :: 0 <= k < |index| ==> index[k] < |rows| && Filter(keep, rows)[k] == rows[index[k]]
    ensures forall j, k :: 0 <= j < k < |index| ==> index[j] < index[k]
    decreases |rows|
  {
    if rows == [] {
      index := [];
    } else {
      index := FilterOrder(keep, rows[..|rows| - 1]);
      if keep(rows[|rows| - 1]) {
        index := index + [|rows| - 1];
      }
    }
  }

  function Map<T, U>(f: T -> U, rows: seq<T>): (r: seq<U>)
    ensures |r| == |rows| && forall i :: 0 <= i < |rows| ==> r[i] == f(rows[i])
  {
    seq(|rows|, i requires 0 <= i < |rows| => f(rows[i]))
  }
}
