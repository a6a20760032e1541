/** Go's byte order on strings, and sort.Slice for a comparator that is a strict weak order. */
module Sorting {

  function Elements<T>(s: seq<T>): set<T> {
    set x | x in s
  }

  ghost predicate Distinct<T>(s: seq<T>) {
    forall i, j | 0 <= i < j < |s| :: s[i] != s[j]
  }

  lemma {:induction false} NoMoreElements<T>(s: seq<T>)
    ensures |Elements(s)| <= |s|
  {
    if s != [] {
      NoMoreElements(s[1..]);
      assert s == [s[0]] + s[1..];
      assert Elements(s) == {s[0]} + Elements(s[1..]);
    }
  }

  /** A list as long as its set of elements has no repetitions. */
  lemma NoneToSpareIsDistinct<T>(s: seq<T>)
    requires |Elements(s)| == |s|
    ensures Distinct(s)
  {
    forall i, j | 0 <= i < j < |s|
      ensures s[i] != s[j]
    {
      if s[i] == s[j] {
        var less := s[..j] + s[j + 1..];
        assert less[i] == s[i];
        assert s == s[..j] + [s[j]] + s[j + 1..];
        assert Elements(s) == Elements(less);
        NoMoreElements(less);
        assert false;
      }
    }
  }

  /** Moving one element keeps a set split in two. */
  lemma MoveOne<T>(all: set<T>, done: set<T>, rest: set<T>, x: T)
    requires done !! rest && done + rest == all && x in rest
    ensures done + {x} !! rest - {x} && (done + {x}) + (rest - {x}) == all && |rest - {x}| < |rest|
  {
    assert (rest - {x}) + {x} == rest;
  }

  /** The elements of a set in some order. */
  method Listing<T(==)>(s: set<T>) returns (list: seq<T>)
    ensures Elements(list) == s && |list| == |s| && Distinct(list)
  {
    list := [];
    var rest := s;
    while rest != {}
      invariant Elements(list) !! rest && Elements(list) + rest == s && |list| + |rest| == |s|
      invariant Distinct(list)
    {
      var x :| x in rest;
      assert x !in Elements(list);
      list, rest := list + [x], rest - {x};
    }
  }

  predicate Less(a: string, b: string) {
    b != [] && (a == [] || a[0] < b[0] || (a[0] == b[0] && Less(a[1..], b[1..])))
  }

  lemma {:induction false} LessIsTotal(a: string, b: string)
    ensures if a == b then !Less(a, b) && !Less(b, a) else Less(a, b) <==> !Less(b, a)
    decreases |a|
  {
    if a != [] && b != [] && a[0] == b[0] {
      LessIsTotal(a[1..], b[1..]);
      assert a == [a[0]] + a[1..] && b == [b[0]] + b[1..];
    }
  }

  lemma {:induction false} LessIsTransitive(a: string, b: string, c: string)
    requires Less(a, b) && Less(b, c)
    ensures Less(a, c)
    decreases |a|
  {
    if a != [] && a[0] == b[0] && b[0] == c[0] {
      LessIsTransitive(a[1..], b[1..], c[1..]);
    }
  }

  lemma LessIsStrictWeak()
    ensures StrictWeakOrder(Less)
  {
    forall x, y
      ensures Less(x, y) ==> !Less(y, x)
    {
      LessIsTotal(x, y);
    }
    forall x, y, z | !Less(x, y) && !Less(y, z)
      ensures !Less(x, z)
    {
      LessIsTotal(x, y);
      LessIsTotal(y, z);
      LessIsTotal(x, z);
      if x != y && y != z {
        LessIsTransitive(z, y, x);
      }
    }
  }

  ghost predicate StrictWeakOrder<T(!new)>(lt: (T, T) -> bool) {
    && (forall x, y :: lt(x, y) ==> !lt(y, x))
    && (forall x, y, z :: !lt(x, y) && !lt(y, z) ==> !lt(x, z))
  }

  predicate SortedBy<T>(lt: (T, T) -> bool, s: seq<T>) {
    forall i, j | 0 <= i < j < |s| :: !lt(s[j], s[i])
  }

  function Insert<T>(lt: (T, T) -> bool, x: T, s: seq<T>): seq<T> {
    if s == [] || lt(x, s[0]) then [x] + s else [s[0]] + Insert(lt, x, s[1..])
  }

  /** The result of sort.Slice: some sorted permutation. */
  function SortSlice<T>(lt: (T, T) -> bool, s: seq<T>): seq<T> {
    if s == [] then [] else Insert(lt, s[0], SortSlice(lt, s[1..]))
  }

  lemma NotBelow<T(!new)>(lt: (T, T) -> bool, x: T, least: T, y: T)
    requires StrictWeakOrder(lt) && lt(x, least) && !lt(y, least)
    ensures !lt(y, x)
  {}

  lemma {:induction false} InsertPermutes<T>(lt: (T, T) -> bool, x: T, s: seq<T>)
    ensures multiset(Insert(lt, x, s)) == multiset(s) + multiset{x}
    ensures forall y :: y in Insert(lt, x, s) <==> y == x || y in s
  {
    if s != [] && !lt(x, s[0]) {
      InsertPermutes(lt, x, s[1..]);
      assert s == [s[0]] + s[1..];
    }
  }

  lemma {:induction false} InsertSorts<T(!new)>(lt: (T, T) -> bool, x: T, s: seq<T>)
    requires StrictWeakOrder(lt) && SortedBy(lt, s)
    ensures SortedBy(lt, Insert(lt, x, s))
  {
    if s == [] || lt(x, s[0]) {
      forall i | 0 <= i < |s|
        ensures !lt(s[i], x)
      {
        NotBelow(lt, x, s[0], s[i]);
      }
    } else {
      InsertSorts(lt, x, s[1..]);
      InsertPermutes(lt, x, s[1..]);
      forall y <- Insert(lt, x, s[1..])
        ensures !lt(y, s[0])
      {
      }
    }
  }

  lemma {:induction false} SortSliceSorts<T(!new)>(lt: (T, T) -> bool, s: seq<T>)
    requires StrictWeakOrder(lt)
    ensures SortedBy(lt, SortSlice(lt, s)) && multiset(SortSlice(lt, s)) == multiset(s)
  {
    if s != [] {
      SortSliceSorts(lt, s[1..]);
      InsertSorts(lt, s[0], SortSlice(lt, s[1..]));
      InsertPermutes(lt, s[0], SortSlice(lt, s[1..]));
      assert s == [s[0]] + s[1..];
    }
  }

  ghost predicate StrictlySorted<T(!new)>(lt: (T, T) -> bool, s: seq<T>) {
    forall i, j | 0 <= i < j < |s| :: lt(s[i], s[j])
  }

  lemma HeadIsLeast<T(!new)>(lt: (T, T) -> bool, s: seq<T>, x: T)
    requires StrictlySorted(lt, s) && x in s
    ensures x == s[0] || lt(s[0], x)
  {}

  /** Two strictly sorted lists with the same elements are the same list. */
  lemma {:induction false} StrictlySortedIsUnique<T(!new)>(lt: (T, T) -> bool, s: seq<T>, t: seq<T>)
    requires StrictWeakOrder(lt)
    requires StrictlySorted(lt, s) && StrictlySorted(lt, t)
    requires forall x :: x in s <==> x in t
    ensures s == t
    decreases |s|
  {
    if s == [] {
      assert forall k | 0 <= k < |t| :: t[k] in s;
    } else {
      assert s[0] in t && t != [];
      assert t[0] in s;
      HeadIsLeast(lt, s, t[0]);
      HeadIsLeast(lt, t, s[0]);
      forall x
        ensures x in s[1..] <==> x in t[1..]
      {
        if x in s[1..] {
          var k :| 1 <= k < |s| && s[k] == x;
          assert lt(s[0], s[k]);
          assert x in t && x != t[0];
        }
        if x in t[1..] {
          var k :| 1 <= k < |t| && t[k] == x;
          assert lt(t[0], t[k]);
          assert x in s && x != s[0];
        }
      }
      StrictlySortedIsUnique(lt, s[1..], t[1..]);
      assert s == [s[0]] + s[1..] && t == [t[0]] + t[1..];
    }
  }

  lemma {:induction false} CountInDistinct<T>(s: seq<T>, x: T)
    requires Distinct(s)
    ensures multiset(s)[x] <= 1
  {
    if s != [] {
      CountInDistinct(s[1..], x);
      assert s == [s[0]] + s[1..];
    }
  }

  lemma DistinctPermutes<T>(s: seq<T>, t: seq<T>)
    requires Distinct(s) && multiset(s) == multiset(t)
    ensures Distinct(t)
  {
    forall i, j | 0 <= i < j < |t|
      ensures t[i] != t[j]
    {
      CountInDistinct(s, t[j]);
      assert t == t[..j] + [t[j]] + t[j + 1..];
      assert multiset(t) == multiset(t[..j]) + multiset{t[j]} + multiset(t[j + 1..]);
      assert t[..j][i] == t[i] && t[..j][i] in multiset(t[..j]);
    }
  }

  /** Sorting a list without repetitions by an order that tells its elements apart gives the one
      strictly sorted list of the same elements. */
  lemma SortSliceIsStrict<T(!new)>(lt: (T, T) -> bool, s: seq<T>)
    requires StrictWeakOrder(lt) && Distinct(s)
    requires forall x, y | x in s && y in s && x != y :: lt(x, y) || lt(y, x)
    ensures StrictlySorted(lt, SortSlice(lt, s)) && multiset(SortSlice(lt, s)) == multiset(s)
    ensures forall x :: x in SortSlice(lt, s) <==> x in s
  {
    var t := SortSlice(lt, s);
    SortSliceSorts(lt, s);
    DistinctPermutes(s, t);
    forall x
      ensures x in t <==> x in s
    {
      assert x in t <==> x in multiset(t);
      assert x in s <==> x in multiset(s);
    }
    forall i, j | 0 <= i < j < |t|
      ensures lt(t[i], t[j])
    {
      assert t[i] in s && t[j] in s;
    }
  }
}
