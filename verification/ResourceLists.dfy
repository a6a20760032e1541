/** Resource lists, and the two ways in which their names are prefixed: the status code prefixes
    every name, the admission code only those without a dot. */
module ResourceLists {
  import opened Sums

  type ResourceList = map<string, int>

  /** Zero sums are dropped, as the library does. */
  function AddResourceList(x: ResourceList, y: ResourceList): (r: ResourceList)
    ensures forall n :: At(r, n) == At(x, n) + At(y, n)
    ensures forall n :: n in r <==> At(x, n) + At(y, n) != 0
  {
    map n | n in x.Keys + y.Keys && At(x, n) + At(y, n) != 0 :: At(x, n) + At(y, n)
  }

  /** Zero differences are kept. */
  function SubtractResourceList(x: ResourceList, y: ResourceList): (r: ResourceList)
    ensures forall n :: At(r, n) == At(x, n) - At(y, n)
    ensures r.Keys == x.Keys + y.Keys
  {
    map n | n in x.Keys + y.Keys :: At(x, n) - At(y, n)
  }

  /** What an object asks for. */
  datatype Usage = Usage(requests: ResourceList, limits: ResourceList)

  const REQUESTS := "requests."
  const LIMITS := "limits."

  /** The amount an object uses of a quota resource such as "requests.cpu". */
  function UsageAt(u: Usage, n: string): int {
    if REQUESTS <= n then At(u.requests, n[|REQUESTS|..])
    else if LIMITS <= n then At(u.limits, n[|LIMITS|..])
    else 0
  }

  function Prefixed(prefix: string, names: set<string>): set<string> {
    set k | k in names :: prefix + k
  }

  lemma PrefixedHas(prefix: string, names: set<string>, n: string)
    ensures n in Prefixed(prefix, names) <==> prefix <= n && n[|prefix|..] in names
  {
    if prefix <= n {
      assert n == prefix + n[|prefix|..];
    }
    forall k | n == prefix + k
      ensures n[|prefix|..] == k
    {}
  }

  lemma PrefixesDiffer(n: string)
    ensures !(REQUESTS <= n && LIMITS <= n)
  {
    assert REQUESTS <= n ==> n[0] == 'r';
    assert LIMITS <= n ==> n[0] == 'l';
  }

  // ---------------------------------------------------------------- every name prefixed

  function UsageNames(u: Usage): set<string> {
    Prefixed(REQUESTS, u.requests.Keys) + Prefixed(LIMITS, u.limits.Keys)
  }

  /** One loop of UsedQuota over an object's requests or limits. */
  method AddPrefixed(usage0: ResourceList, prefix: string, list: ResourceList) returns (usage: ResourceList)
    ensures usage.Keys == usage0.Keys + Prefixed(prefix, list.Keys)
    ensures forall n :: (At(usage, n) ==
              if n in Prefixed(prefix, list.Keys) then list[Unprefixed(prefix, list.Keys, n)] else At(usage0, n))
  {
    usage := usage0;
    var rest := list.Keys;
    ghost var done: set<string> := {};
    while rest != {}
      invariant done !! rest && done + rest == list.Keys
      invariant usage.Keys == usage0.Keys + Prefixed(prefix, done)
      invariant forall n ::
        (At(usage, n) == if n in Prefixed(prefix, done) then list[Unprefixed(prefix, done, n)] else At(usage0, n))
    {
      var k :| k in rest;
      ghost var before := usage;
      usage := usage[prefix + k := list[k]];
      assert Prefixed(prefix, done + {k}) == Prefixed(prefix, done) + {prefix + k};
      forall n
        ensures At(usage, n) ==
          if n in Prefixed(prefix, done + {k}) then list[Unprefixed(prefix, done + {k}, n)] else At(usage0, n)
      {
        PrefixedHas(prefix, done, n);
        PrefixedHas(prefix, done + {k}, n);
        PrefixedHas(prefix, {k}, n);
      }
      done, rest := done + {k}, rest - {k};
    }
    assert done == list.Keys;
  }

  /** The name behind a prefixed one. */
  ghost function Unprefixed(prefix: string, names: set<string>, n: string): (k: string)
    requires n in Prefixed(prefix, names)
    ensures k in names && n == prefix + k
  {
    PrefixedHas(prefix, names, n);
    n[|prefix|..]
  }

  /** What an object uses, every name prefixed. */
  function UsageList(u: Usage): ResourceList {
    map n | n in UsageNames(u) :: UsageAt(u, n)
  }

  lemma UsageListHas(u: Usage, n: string)
    ensures At(UsageList(u), n) == UsageAt(u, n)
  {
    PrefixedHas(REQUESTS, u.requests.Keys, n);
    PrefixedHas(LIMITS, u.limits.Keys, n);
  }

  method UsageOf(u: Usage) returns (usage: ResourceList)
    ensures usage == UsageList(u)
  {
    var requested := AddPrefixed(map[], REQUESTS, u.requests);
    usage := AddPrefixed(requested, LIMITS, u.limits);
    forall n | n in usage
      ensures usage[n] == At(UsageList(u), n)
    {
      UsageListHas(u, n);
      Amount(u, n);
    }
    SameList(usage, UsageList(u));
  }

  /** The amount comes from the loop that stored the name. */
  lemma Amount(u: Usage, n: string)
    ensures n in Prefixed(LIMITS, u.limits.Keys) ==> UsageAt(u, n) == u.limits[Unprefixed(LIMITS, u.limits.Keys, n)]
    ensures n in Prefixed(REQUESTS, u.requests.Keys) ==>
      UsageAt(u, n) == u.requests[Unprefixed(REQUESTS, u.requests.Keys, n)]
    ensures !(n in Prefixed(LIMITS, u.limits.Keys) && n in Prefixed(REQUESTS, u.requests.Keys))
  {
    PrefixedHas(REQUESTS, u.requests.Keys, n);
    PrefixedHas(LIMITS, u.limits.Keys, n);
    PrefixesDiffer(n);
  }

  lemma SameList(x: ResourceList, y: ResourceList)
    requires x.Keys == y.Keys && forall n <- x :: x[n] == At(y, n)
    ensures x == y
  {
    assert forall n <- x :: n in y.Keys && x[n] == y[n];
  }

  // ---------------------------------------------------------------- only names without a dot prefixed

  predicate Dotted(k: string) {
    '.' in k
  }

  predicate NoDots(u: Usage) {
    forall k <- u.requests.Keys + u.limits.Keys :: !Dotted(k)
  }

  function DemandName(prefix: string, k: string): string {
    if Dotted(k) then k else prefix + k
  }

  function DemandNames(u: Usage): set<string> {
    (set k | k in u.requests :: DemandName(REQUESTS, k)) + (set k | k in u.limits :: DemandName(LIMITS, k))
  }

  /** Some of the keys goes under the name. */
  predicate Named(prefix: string, keys: set<string>, n: string) {
    exists k :: k in keys && DemandName(prefix, k) == n
  }

  /** The amount is that of one of these keys. */
  predicate FromKey(prefix: string, keys: set<string>, list: ResourceList, n: string, amount: int) {
    exists k :: k in keys && k in list && DemandName(prefix, k) == n && list[k] == amount
  }

  /** A demand of the object. Where names collide, limits win over requests, and within one list any
      of the amounts may stay. */
  ghost predicate IsDemand(u: Usage, d: ResourceList) {
    && d.Keys == DemandNames(u)
    && forall n <- d ::
         if Named(LIMITS, u.limits.Keys, n) then FromKey(LIMITS, u.limits.Keys, u.limits, n, d[n])
         else FromKey(REQUESTS, u.requests.Keys, u.requests, n, d[n])
  }

  /** rl is rl0 with the given keys of the list stored under their names. */
  ghost predicate Stored(rl0: ResourceList, rl: ResourceList, prefix: string, keys: set<string>, list: ResourceList) {
    && (forall n :: n in rl <==> n in rl0 || Named(prefix, keys, n))
    && forall n <- rl ::
         if Named(prefix, keys, n) then FromKey(prefix, keys, list, n, rl[n]) else n in rl0 && rl[n] == rl0[n]
  }

  lemma StoreOne(rl0: ResourceList, rl: ResourceList, prefix: string, keys: set<string>, list: ResourceList, k: string)
    requires Stored(rl0, rl, prefix, keys, list) && k in list
    ensures Stored(rl0, rl[DemandName(prefix, k) := list[k]], prefix, keys + {k}, list)
  {
    var next := rl[DemandName(prefix, k) := list[k]];
    forall n
      ensures Named(prefix, keys + {k}, n) <==> Named(prefix, keys, n) || n == DemandName(prefix, k)
      ensures n in next && Named(prefix, keys + {k}, n) ==> FromKey(prefix, keys + {k}, list, n, next[n])
    {
      if j :| j in keys && DemandName(prefix, j) == n {
        assert j in keys + {k};
      }
      assert k in keys + {k};
      if n in rl && n != DemandName(prefix, k) && Named(prefix, keys, n) {
        var j :| j in keys && j in list && DemandName(prefix, j) == n && list[j] == rl[n];
        assert j in keys + {k};
      }
    }
  }

  /** One loop of mergeRequestsLimits; when names collide, the entry visited last stays. */
  method AddDemand(rl0: ResourceList, prefix: string, list: ResourceList) returns (rl: ResourceList)
    ensures Stored(rl0, rl, prefix, list.Keys, list)
  {
    rl := rl0;
    var rest := list.Keys;
    while rest != {}
      invariant rest <= list.Keys && Stored(rl0, rl, prefix, list.Keys - rest, list)
    {
      var k :| k in rest;
      StoreOne(rl0, rl, prefix, list.Keys - rest, list, k);
      assert list.Keys - rest + {k} == list.Keys - (rest - {k});
      rl := rl[DemandName(prefix, k) := list[k]];
      rest := rest - {k};
    }
    assert list.Keys - {} == list.Keys;
  }

  method MergeRequestsLimits(u: Usage) returns (rl: ResourceList)
    ensures IsDemand(u, rl)
    ensures NoDots(u) ==> rl == UsageList(u)
  {
    var requested := AddDemand(map[], REQUESTS, u.requests);
    rl := AddDemand(requested, LIMITS, u.limits);
    forall n
      ensures n in rl <==> n in DemandNames(u)
    {}
    if NoDots(u) {
      DemandIsUsage(u, rl);
    }
  }

  // ---------------------------------------------------------------- when the demand is the usage

  lemma UsageOfPrefixed(u: Usage, k: string)
    ensures UsageAt(u, REQUESTS + k) == At(u.requests, k) && UsageAt(u, LIMITS + k) == At(u.limits, k)
  {
    PrefixesDiffer(REQUESTS + k);
    PrefixesDiffer(LIMITS + k);
    assert (REQUESTS + k)[|REQUESTS|..] == k && (LIMITS + k)[|LIMITS|..] == k;
  }

  /** Without dots the demand that is compared is the usage that is charged. */
  lemma DemandIsUsage(u: Usage, d: ResourceList)
    requires NoDots(u) && IsDemand(u, d)
    ensures d == UsageList(u)
  {
    PrefixingAgrees(u);
    forall n | n in d
      ensures d[n] == UsageAt(u, n)
    {
      if Named(LIMITS, u.limits.Keys, n) {
        var k :| k in u.limits && DemandName(LIMITS, k) == n && u.limits[k] == d[n];
        UsageOfPrefixed(u, k);
      } else {
        var k :| k in u.requests && DemandName(REQUESTS, k) == n && u.requests[k] == d[n];
        UsageOfPrefixed(u, k);
      }
    }
    SameList(d, UsageList(u));
  }

  /** The two prefixing codes give an object the same names exactly when no name has a dot. */
  lemma PrefixingAgrees(u: Usage)
    ensures DemandNames(u) == UsageNames(u) <==> NoDots(u)
  {
    if NoDots(u) {
      assert DemandNames(u) == UsageNames(u);
    } else {
      var dotted := set k | k in u.requests.Keys + u.limits.Keys && Dotted(k);
      var d :| d in u.requests.Keys + u.limits.Keys && Dotted(d);
      assert d in dotted;
      var k := Longest(dotted);
      var n := if k in u.requests then REQUESTS + k else LIMITS + k;
      assert n in UsageNames(u);
      PrefixedDotIsNew(u, k, n);
    }
  }

  lemma {:induction false} Longest(s: set<string>) returns (k: string)
    requires s != {}
    ensures k in s && forall j <- s :: |j| <= |k|
    decreases s
  {
    k :| k in s;
    if s != {k} {
      var rest := Longest(s - {k});
      if |rest| > |k| {
        k := rest;
      }
      assert s == {k} + (s - {k});
    }
  }

  lemma SameAfterPrefix(prefix: string, j: string, k: string)
    requires j != k
    ensures prefix + j != prefix + k
  {
    assert (prefix + j)[|prefix|..] == j && (prefix + k)[|prefix|..] == k;
  }

  lemma PrefixesKeepApart(j: string, k: string)
    requires j != k
    ensures REQUESTS + j != REQUESTS + k && LIMITS + j != LIMITS + k
    ensures REQUESTS + j != LIMITS + k && LIMITS + j != REQUESTS + k
  {
    SameAfterPrefix(REQUESTS, j, k);
    SameAfterPrefix(LIMITS, j, k);
    PrefixesDiffer(REQUESTS + j);
    PrefixesDiffer(REQUESTS + k);
  }

  lemma PrefixedDotIsNew(u: Usage, k: string, n: string)
    requires Dotted(k) && (n == REQUESTS + k || n == LIMITS + k)
    requires forall j | j in u.requests.Keys + u.limits.Keys && Dotted(j) :: |j| <= |k|
    ensures n !in DemandNames(u)
  {
    forall j | !Dotted(j)
      ensures REQUESTS + j != n && LIMITS + j != n
    {
      PrefixesKeepApart(j, k);
    }
  }
}
