/** Lookups in tables and totals over table rows, as SQL's SUM(...) computes
    them, with the few laws the ledgers need: what appending or updating one row
    does to a total, when a total is carried by at most one row, and the
    exchange of a double sum. */
module Tables {

  datatype Option<+T> = None | Some(value: T)

  /** The first row that satisfies p, or the table's length when none does. */
  function Find<T>(s: seq<T>, p: T -> bool): (k: nat)
    ensures k <= |s|
    ensures k < |s| ==> p(s[k])
    ensures forall i :: 0 <= i < k ==> !p(s[i])
  {
    if |s| == 0 then 0
    else
      var k := Find(s[..|s| - 1], p);
      if k < |s| - 1 || p(s[|s| - 1]) then k else |s|
  }

  function Sum<T>(s: seq<T>, f: T -> int): int {
    if |s| == 0 then 0 else Sum(s[..|s| - 1], f) + f(s[|s| - 1])
  }

  lemma {:induction false} SumAppend<T>(s: seq<T>, x: T, f: T -> int)
    ensures Sum(s + [x], f) == Sum(s, f) + f(x)
  {
    assert (s + [x])[..|s|] == s;
  }

  lemma SumStep<T>(s: seq<T>, n: nat, f: T -> int)
    requires n < |s|
    ensures Sum(s[..n + 1], f) == Sum(s[..n], f) + f(s[n])
  {
    assert s[..n + 1][..n] == s[..n];
  }

  lemma {:induction false} SumConcat<T>(a: seq<T>, b: seq<T>, f: T -> int)
    ensures Sum(a + b, f) == Sum(a, f) + Sum(b, f)
  {
    if |b| == 0 {
      assert a + b == a;
    } else {
      var front := b[..|b| - 1];
      SumConcat(a, front, f);
      assert (a + b)[..|a + b| - 1] == a + front;
    }
  }

  /** What a table grew by is the total of its new rows. */
  lemma {:induction false} SumGrowth<T>(before: seq<T>, after: seq<T>, f: T -> int)
    requires before <= after
    ensures Sum(after, f) == Sum(before, f) + Sum(after[|before|..], f)
  {
    SumConcat(before, after[|before|..], f);
    assert after == before + after[|before|..];
  }

  lemma {:induction false} SumUpdate<T>(s: seq<T>, k: nat, x: T, f: T -> int)
    requires k < |s|
    ensures Sum(s[k := x], f) == Sum(s, f) - f(s[k]) + f(x)
  {
    var n := |s| - 1;
    if k == n {
      assert s[k := x][..n] == s[..n];
    } else {
      SumUpdate(s[..n], k, x, f);
      assert s[k := x][..n] == s[..n][k := x];
    }
  }

  /** Two totals of row-by-row related tables are related the same way. */
  lemma {:induction false} SumPointwise<S, T>(s: seq<S>, f: S -> int, t: seq<T>, g: T -> int)
    requires |s| == |t|
    requires forall i :: 0 <= i < |s| ==> f(s[i]) == g(t[i])
    ensures Sum(s, f) == Sum(t, g)
  {
    if |s| > 0 {
      SumPointwise(s[..|s| - 1], f, t[..|s| - 1], g);
    }
  }

  lemma {:induction false} SumLe<T>(s: seq<T>, f: T -> int, g: T -> int)
    requires forall i :: 0 <= i < |s| ==> f(s[i]) <= g(s[i])
    ensures Sum(s, f) <= Sum(s, g)
  {
    if |s| > 0 {
      SumLe(s[..|s| - 1], f, g);
    }
  }

  lemma {:induction false} SumAdd<T>(s: seq<T>, f: T -> int, g: T -> int, h: T -> int)
    requires forall i :: 0 <= i < |s| ==> h(s[i]) == f(s[i]) + g(s[i])
    ensures Sum(s, h) == Sum(s, f) + Sum(s, g)
  {
    if |s| > 0 {
      SumAdd(s[..|s| - 1], f, g, h);
    }
  }

  lemma {:induction false} SumZero<T>(s: seq<T>, f: T -> int)
    requires forall i :: 0 <= i < |s| ==> f(s[i]) == 0
    ensures Sum(s, f) == 0
  {
    if |s| > 0 {
      SumZero(s[..|s| - 1], f);
    }
  }

  lemma {:induction false} SumNonneg<T>(s: seq<T>, f: T -> int)
    requires forall i :: 0 <= i < |s| ==> f(s[i]) >= 0
    ensures Sum(s, f) >= 0
    ensures forall i :: 0 <= i < |s| ==> f(s[i]) <= Sum(s, f)
  {
    if |s| > 0 {
      SumNonneg(s[..|s| - 1], f);
    }
  }

  /** A total carried by a single row. */
  lemma {:induction false} SumSingle<T>(s: seq<T>, k: nat, f: T -> int)
    requires k < |s|
    requires forall i :: 0 <= i < |s| && i != k ==> f(s[i]) == 0
    ensures Sum(s, f) == f(s[k])
  {
    var n := |s| - 1;
    if k == n {
      SumZero(s[..n], f);
    } else {
      SumSingle(s[..n], k, f);
    }
  }

  /** A total carried by two rows. */
  lemma {:induction false} SumPair<T>(s: seq<T>, j: nat, k: nat, f: T -> int)
    requires j < k < |s|
    requires forall i :: 0 <= i < |s| && i != j && i != k ==> f(s[i]) == 0
    ensures Sum(s, f) == f(s[j]) + f(s[k])
  {
    var n := |s| - 1;
    if k == n {
      SumSingle(s[..n], j, f);
    } else {
      SumPair(s[..n], j, k, f);
    }
  }

  /** A positive total has a positive row. */
  lemma {:induction false} PositiveRow<T>(s: seq<T>, f: T -> int) returns (k: nat)
    requires Sum(s, f) > 0
    ensures k < |s| && f(s[k]) > 0
  {
    k := |s| - 1;
    if f(s[k]) <= 0 {
      k := PositiveRow(s[..k], f);
    }
  }

  lemma WithoutOne<T>(a: seq<T>, b: seq<T>, k: nat)
    requires multiset(a) == multiset(b) && |a| > 0 && k < |b| && b[k] == a[|a| - 1]
    ensures multiset(a[..|a| - 1]) == multiset(b[..k] + b[k + 1..])
  {
    var n, x, front, back := |a| - 1, a[|a| - 1], b[..k], b[k + 1..];
    assert a == a[..n] + [x];
    assert b == front + [x] + back;
    assert multiset(a[..n]) == multiset(a) - multiset{x};
    assert multiset(front + back) == multiset(b) - multiset{x};
  }

  /** A total does not depend on the order of the rows. */
  lemma {:induction false} SumPermuted<T>(a: seq<T>, b: seq<T>, f: T -> int)
    requires multiset(a) == multiset(b)
    ensures Sum(a, f) == Sum(b, f)
  {
    if |a| == 0 {
      assert |multiset(b)| == 0;
    } else {
      var n, x := |a| - 1, a[|a| - 1];
      assert x in multiset(b);
      var k :| 0 <= k < |b| && b[k] == x;
      var front, back := b[..k], b[k + 1..];
      WithoutOne(a, b, k);
      SumPermuted(a[..n], front + back, f);
      assert b == front + [x] + back;
      SumConcat(front + [x], back, f);
      SumAppend(front, x, f);
      SumConcat(front, back, f);
    }
  }

  function Row<A, B>(w: (A, B) -> int, a: A): B -> int {
    (b: B) => w(a, b)
  }

  function Column<A, B>(w: (A, B) -> int, b: B): A -> int {
    (a: A) => w(a, b)
  }

  function Across<A, B>(bs: seq<B>, w: (A, B) -> int): A -> int {
    (a: A) => Sum(bs, Row(w, a))
  }

  function Down<A, B>(rows: seq<A>, w: (A, B) -> int): B -> int {
    (b: B) => Sum(rows, Column(w, b))
  }

  /** Summing a table of numbers by rows or by columns gives the same total. */
  lemma {:induction false} SumExchange<A, B>(rows: seq<A>, bs: seq<B>, w: (A, B) -> int)
    ensures Sum(rows, Across(bs, w)) == Sum(bs, Down(rows, w))
  {
    if |rows| == 0 {
      SumZero(bs, Down(rows, w));
    } else {
      var front, last := rows[..|rows| - 1], rows[|rows| - 1];
      SumExchange(front, bs, w);
      SumAdd(bs, Down(front, w), Row(w, last), Down(rows, w));
    }
  }

  /** The indices of a table, standing for its autoincrement ids. */
  function Ids(n: nat): (ids: seq<int>)
    ensures |ids| == n && forall i :: 0 <= i < n ==> ids[i] == i
  {
    seq(n, i => i)
  }
}
