/** Sums of a measure over the rows of a table, taken from the last row backwards so that
    appending a row adds one term. */
module Sums {
  function Sum<T>(rows: seq<T>, f: T -> int): int {
    if rows == [] then 0 else Sum(rows[..|rows| - 1], f) + f(rows[|rows| - 1])
  }

  lemma SumAppend<T>(rows: seq<T>, x: T, f: T -> int)
    ensures Sum(rows + [x], f) == Sum(rows, f) + f(x)
  {
    assert (rows + [x])[..|rows|] == rows;
  }

  lemma {:induction false} SumConcat<T>(a: seq<T>, b: seq<T>, f: T -> int)
    ensures Sum(a + b, f) == Sum(a, f) + Sum(b, f)
  {
    if b == [] {
      assert a + b == a;
    } else {
      SumConcat(a, b[..|b| - 1], f);
      assert (a + b)[..|a + b| - 1] == a + b[..|b| - 1];
    }
  }

  lemma SumFront<T>(rows: seq<T>, f: T -> int)
    requires rows != []
    ensures Sum(rows, f) == f(rows[0]) + Sum(rows[1..], f)
  {
    SumConcat([rows[0]], rows[1..], f);
    assert rows == [rows[0]] + rows[1..];
    assert Sum([rows[0]], f) == f(rows[0]) by { SumAppend([], rows[0], f); }
  }

  lemma {:induction false} SumLe<T>(rows: seq<T>, f: T -> int, g: T -> int)
    requires forall x | x in rows :: f(x) <= g(x)
    ensures Sum(rows, f) <= Sum(rows, g)
  {
    if rows != [] {
      SumLe(rows[..|rows| - 1], f, g);
    }
  }

  lemma SumEq<T>(rows: seq<T>, f: T -> int, g: T -> int)
    requires forall x | x in rows :: f(x) == g(x)
    ensures Sum(rows, f) == Sum(rows, g)
  {
    SumLe(rows, f, g);
    SumLe(rows, g, f);
  }

  lemma {:induction false} SumNonNegative<T>(rows: seq<T>, f: T -> int)
    requires forall x | x in rows :: f(x) >= 0
    ensures Sum(rows, f) >= 0
  {
    if rows != [] {
      SumNonNegative(rows[..|rows| - 1], f);
    }
  }

  /** One row bounds the sum from below when no row is negative. */
  lemma {:induction false} SumAtLeast<T>(rows: seq<T>, f: T -> int, i: nat)
    requires i < |rows|
    requires forall x | x in rows :: f(x) >= 0
    ensures f(rows[i]) <= Sum(rows, f)
  {
    var front := rows[..|rows| - 1];
    if i == |rows| - 1 {
      SumNonNegative(front, f);
    } else {
      SumAtLeast(front, f, i);
      assert front[i] == rows[i];
    }
  }

  lemma {:induction false} SumPlus<T>(rows: seq<T>, f: T -> int, g: T -> int, h: T -> int)
    requires forall x | x in rows :: h(x) == f(x) + g(x)
    ensures Sum(rows, h) == Sum(rows, f) + Sum(rows, g)
  {
    if rows != [] {
      SumPlus(rows[..|rows| - 1], f, g, h);
    }
  }

  lemma {:induction false} SumUpdate<T>(rows: seq<T>, i: nat, x: T, f: T -> int)
    requires i < |rows|
    ensures Sum(rows[i := x], f) == Sum(rows, f) - f(rows[i]) + f(x)
  {
    var last := |rows| - 1;
    if i == last {
      assert rows[i := x][..last] == rows[..last];
    } else {
      SumUpdate(rows[..last], i, x, f);
      assert rows[i := x][..last] == rows[..last][i := x];
    }
  }

  lemma {:induction false} SumNothing<T>(rows: seq<T>, f: T -> int)
    requires forall x | x in rows :: f(x) == 0
    ensures Sum(rows, f) == 0
  {
    if rows != [] { SumNothing(rows[..|rows| - 1], f); }
  }

  /** A sum with one row that matters. */
  lemma {:induction false} SumSingle<T>(rows: seq<T>, f: T -> int, k: nat)
    requires k < |rows|
    requires forall j | 0 <= j < |rows| && j != k :: f(rows[j]) == 0
    ensures Sum(rows, f) == f(rows[k])
  {
    var front := rows[..|rows| - 1];
    if k == |rows| - 1 {
      assert forall j | 0 <= j < |front| :: f(front[j]) == 0;
      SumNothing(front, f);
    } else {
      SumSingle(front, f, k);
      assert f(rows[|rows| - 1]) == 0;
    }
  }
}
