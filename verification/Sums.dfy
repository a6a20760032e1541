/** Sums over finite sets, and counters: maps from keys to numbers in which an absent key is 0. */
module Sums {

  ghost function Sum<T>(s: set<T>, f: T -> int): int {
    if s == {} then 0 else
      var x :| x in s;
      f(x) + Sum(s - {x}, f)
  }

  /** The order in which elements are taken does not matter. */
  lemma {:induction false} SumTake<T>(s: set<T>, x: T, f: T -> int)
    requires x in s
    ensures Sum(s, f) == f(x) + Sum(s - {x}, f)
  {
    var y :| y in s && Sum(s, f) == f(y) + Sum(s - {y}, f);
    if y != x {
      SumTake(s - {y}, x, f);
      SumTake(s - {x}, y, f);
      assert s - {y} - {x} == s - {x} - {y};
    }
  }

  lemma SumAdd<T>(s: set<T>, x: T, f: T -> int)
    requires x !in s
    ensures Sum(s + {x}, f) == Sum(s, f) + f(x)
  {
    SumTake(s + {x}, x, f);
    assert s + {x} - {x} == s;
  }

  lemma {:induction false} SumSame<T>(s: set<T>, f: T -> int, g: T -> int)
    requires forall x <- s :: f(x) == g(x)
    ensures Sum(s, f) == Sum(s, g)
  {
    if s != {} {
      var x :| x in s;
      SumTake(s, x, f);
      SumTake(s, x, g);
      SumSame(s - {x}, f, g);
    }
  }

  lemma {:induction false} SumPlus<T>(s: set<T>, f: T -> int, g: T -> int, h: T -> int)
    requires forall x <- s :: h(x) == f(x) + g(x)
    ensures Sum(s, h) == Sum(s, f) + Sum(s, g)
  {
    if s != {} {
      var x :| x in s;
      SumTake(s, x, f);
      SumTake(s, x, g);
      SumTake(s, x, h);
      SumPlus(s - {x}, f, g, h);
    }
  }

  lemma {:induction false} SumConst<T>(s: set<T>, f: T -> int, c: int)
    requires forall x <- s :: f(x) == c
    ensures Sum(s, f) == c * |s|
  {
    if s != {} {
      var x :| x in s;
      SumTake(s, x, f);
      SumConst(s - {x}, f, c);
    }
  }

  /** Elements that contribute nothing can be left out. */
  lemma {:induction false} SumSupport<T>(s: set<T>, t: set<T>, f: T -> int)
    requires s <= t && forall x <- t :: x !in s ==> f(x) == 0
    ensures Sum(s, f) == Sum(t, f)
    decreases t
  {
    if s == t {
    } else {
      var x :| x in t && x !in s;
      SumTake(t, x, f);
      SumSupport(s, t - {x}, f);
    }
  }

  lemma {:induction false} SumDiffersAt<T>(s: set<T>, x: T, f: T -> int, g: T -> int)
    requires x in s && forall y <- s :: y != x ==> f(y) == g(y)
    ensures Sum(s, g) == Sum(s, f) - f(x) + g(x)
  {
    SumTake(s, x, f);
    SumTake(s, x, g);
    SumSame(s - {x}, f, g);
  }

  lemma {:induction false} SumAtMost<T>(s: set<T>, f: T -> int, g: T -> int)
    requires forall x <- s :: f(x) <= g(x)
    ensures Sum(s, f) <= Sum(s, g)
  {
    if s != {} {
      var x :| x in s;
      SumTake(s, x, f);
      SumTake(s, x, g);
      SumAtMost(s - {x}, f, g);
    }
  }

  lemma SumOfNaturals<T>(s: set<T>, f: T -> int)
    requires forall x <- s :: f(x) >= 0
    ensures Sum(s, f) >= 0 && forall x <- s :: Sum(s, f) >= f(x)
  {
    var zero := (_: T) => 0;
    SumConst(s, zero, 0);
    SumAtMost(s, zero, f);
    forall x | x in s
      ensures Sum(s, f) >= f(x)
    {
      SumTake(s, x, f);
      SumConst(s - {x}, zero, 0);
      SumAtMost(s - {x}, zero, f);
    }
  }

  lemma SumGrows<T>(s: set<T>, t: set<T>, x: T, f: T -> int)
    requires s <= t && x in t && x !in s && f(x) > 0 && forall y <- t :: f(y) >= 0
    ensures Sum(s, f) < Sum(t, f)
  {
    var g := y => if y in s then f(y) else 0;
    SumSame(s, f, g);
    SumSupport(s, t, g);
    SumTake(t, x, f);
    SumTake(t, x, g);
    SumAtMost(t - {x}, g, f);
  }

  ghost function RowSum<S, T>(t: set<T>, f: (S, T) -> int, x: S): int {
    Sum(t, y => f(x, y))
  }

  ghost function ColumnSum<S, T>(s: set<S>, f: (S, T) -> int, y: T): int {
    Sum(s, x => f(x, y))
  }

  lemma RowIs<S, T>(t: set<T>, f: (S, T) -> int, x: S, row: T -> int)
    requires forall y <- t :: row(y) == f(x, y)
    ensures RowSum(t, f, x) == Sum(t, row)
  {
    SumSame(t, row, y => f(x, y));
  }

  lemma ColumnIs<S, T>(s: set<S>, f: (S, T) -> int, y: T, column: S -> int)
    requires forall x <- s :: column(x) == f(x, y)
    ensures ColumnSum(s, f, y) == Sum(s, column)
  {
    SumSame(s, column, x => f(x, y));
  }

  /** Rows first or columns first. */
  lemma {:induction false} SumSwap<S, T>(s: set<S>, t: set<T>, f: (S, T) -> int, rows: S -> int, columns: T -> int)
    requires forall x <- s :: rows(x) == RowSum(t, f, x)
    requires forall y <- t :: columns(y) == ColumnSum(s, f, y)
    ensures Sum(s, rows) == Sum(t, columns)
    decreases s
  {
    if s == {} {
      SumConst(t, columns, 0);
    } else {
      var x :| x in s;
      var row := (y: T) => f(x, y);
      var columns' := (y: T) => ColumnSum(s - {x}, f, y);
      SumTake(s, x, rows);
      SumSwap(s - {x}, t, f, rows, columns');
      RowIs(t, f, x, row);
      forall y | y in t
        ensures columns(y) == row(y) + columns'(y)
      {
        SumTake(s, x, z => f(z, y));
      }
      SumPlus(t, row, columns', columns);
    }
  }

  ghost function SumSeq<T>(s: seq<T>, f: T -> int): int {
    if s == [] then 0 else SumSeq(s[..|s| - 1], f) + f(s[|s| - 1])
  }

  ghost function KeysOf<T, K>(s: seq<T>, key: T -> K): set<K> {
    set x | x in s :: key(x)
  }

  ghost predicate DistinctKeys<T, K>(s: seq<T>, key: T -> K) {
    forall i, j | 0 <= i < j < |s| :: key(s[i]) != key(s[j])
  }

  lemma LastKeyIsNew<T, K>(s: seq<T>, key: T -> K)
    requires s != [] && DistinctKeys(s, key)
    ensures KeysOf(s, key) == KeysOf(s[..|s| - 1], key) + {key(s[|s| - 1])}
    ensures key(s[|s| - 1]) !in KeysOf(s[..|s| - 1], key)
  {
    var init, last := s[..|s| - 1], s[|s| - 1];
    assert s == init + [last];
    forall x | x in init
      ensures key(x) != key(last)
    {
      var i :| 0 <= i < |init| && init[i] == x;
      assert s[i] == x;
    }
  }

  /** A sum over a list whose entries have distinct keys is a sum over the keys. */
  lemma {:induction false} SumSeqByKey<T, K>(s: seq<T>, key: T -> K, f: T -> int, g: K -> int)
    requires DistinctKeys(s, key)
    requires forall x <- s :: f(x) == g(key(x))
    ensures SumSeq(s, f) == Sum(KeysOf(s, key), g) && |KeysOf(s, key)| == |s|
  {
    if s != [] {
      LastKeyIsNew(s, key);
      SumSeqByKey(s[..|s| - 1], key, f, g);
      SumAdd(KeysOf(s[..|s| - 1], key), key(s[|s| - 1]), g);
    }
  }

  // ---------------------------------------------------------------- counters

  function At<K>(m: map<K, int>, k: K): int {
    if k in m then m[k] else 0
  }

  function Inc<K>(m: map<K, int>, k: K): map<K, int> {
    m[k := At(m, k) + 1]
  }
}
