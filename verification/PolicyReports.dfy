/** Matching the violations of one constraint against a resource graph. The lookup of a resource id
    uses a binary search with an equality test, which finds only some of the ids: the theorems say
    which violations are kept, and when that is what a plain filter would keep. */
module PolicyReports {
  import opened Traversals
  import opened ResourceGraphs
  import opened Sorting

  type GVK = ResourceID

  datatype Meta = Meta(namespace: string, name: string)

  datatype Violation = Violation(gvk: GVK, meta: Meta)

  function MetaOf(p: ObjectPointer): Meta {
    Meta(p.namespace, p.name)
  }

  // ---------------------------------------------------------------- sort.Search with an equality test

  /** The position p is probed while the search only ever moves right. */
  ghost predicate OnSpine(lo: nat, n: nat, p: nat)
    decreases n - lo
  {
    lo < n && var h := (lo + n) / 2; p == h || (p > h && OnSpine(h + 1, n, p))
  }

  /** The id is in the list, at a position the search probes. */
  ghost predicate Found(needed: seq<int>, id: int) {
    exists p :: 0 <= p < |needed| && needed[p] == id && OnSpine(0, |needed|, p)
  }

  ghost predicate Ascending(s: seq<int>) {
    forall i, j | 0 <= i < j < |s| :: s[i] < s[j]
  }

  /** The library's binary search, run with "equals id" instead of a monotone test. */
  method Search(needed: seq<int>, id: int) returns (i: nat)
    requires Ascending(needed)
    ensures i <= |needed| && (i < |needed| && needed[i] == id <==> Found(needed, id))
  {
    var n := |needed|;
    i := 0;
    var j := n;
    ghost var hit := false;
    while i < j
      invariant 0 <= i <= j <= n
      invariant !hit ==> j == n && forall p | 0 <= p < n && needed[p] == id :: OnSpine(0, n, p) <==> OnSpine(i, n, p)
      invariant hit ==> j < n && needed[j] == id && OnSpine(0, n, j)
    {
      var h := (i + j) / 2;
      if needed[h] != id {
        i := h + 1;
      } else {
        j := h;
        hit := true;
      }
    }
  }

  function Halved(a: nat, k: nat): nat {
    if k == 0 then a else Halved(a / 2, k - 1)
  }

  lemma {:induction false} HalvedShrinks(a: nat, k: nat)
    requires k >= 1
    ensures Halved(a, k) <= a / 2
  {
    if k > 1 {
      HalvedShrinks(a / 2, k - 1);
    }
  }

  /** What is left of the range after k - 1 moves to the right starts at the probe p. */
  ghost predicate IsProbe(lo: nat, n: nat, p: nat, k: nat)
    requires lo <= n
  {
    k >= 1 && Halved(n - lo + 1, k) >= 1 && p == n - Halved(n - lo + 1, k)
  }

  /** In closed form: the positions probed are n - (n + 1) / 2, n - (n + 1) / 4 and so on. */
  lemma {:induction false} SpineIsHalving(lo: nat, n: nat, p: nat)
    requires lo <= n
    ensures OnSpine(lo, n, p) <==> exists k :: IsProbe(lo, n, p, k)
    decreases n - lo
  {
    var a := n - lo + 1;
    forall k: nat | k >= 1
      ensures Halved(a, k) == Halved(a / 2, k - 1) <= a / 2
    {
      HalvedShrinks(a, k);
    }
    if lo < n {
      var h := (lo + n) / 2;
      var next := h + 1;
      assert h == n - a / 2 && n - next + 1 == a / 2;
      SpineIsHalving(next, n, p);
      forall k: nat | k >= 2
        ensures IsProbe(lo, n, p, k) <==> IsProbe(next, n, p, k - 1)
      {}
      assert IsProbe(lo, n, p, 1) <==> p == h;
      if k: nat :| IsProbe(next, n, p, k) {
        assert IsProbe(lo, n, p, k + 1);
        HalvedShrinks(a / 2, k);
      }
      if k: nat :| IsProbe(lo, n, p, k) {
        assert k == 1 || IsProbe(next, n, p, k - 1);
      }
    }
  }

  /** Of several ids none of the lower half is found, and the largest is. */
  lemma LowerHalfIsNeverFound(needed: seq<int>, p: nat)
    requires Ascending(needed) && p < |needed| / 2
    ensures !Found(needed, needed[p])
  {}

  lemma {:induction false} LargestIsOnSpine(lo: nat, n: nat)
    requires lo < n
    ensures OnSpine(lo, n, n - 1)
    decreases n - lo
  {
    var h := (lo + n) / 2;
    if h + 1 < n {
      LargestIsOnSpine(h + 1, n);
    }
  }

  lemma LargestIsFound(needed: seq<int>)
    requires needed != []
    ensures Found(needed, needed[|needed| - 1])
  {
    LargestIsOnSpine(0, |needed|);
  }

  /** A single id is found. */
  lemma SingleIsFound(needed: seq<int>)
    requires |needed| == 1
    ensures Found(needed, needed[0])
  {
    assert OnSpine(0, 1, 0);
  }

  // ---------------------------------------------------------------- preprocess

  /** The id of a type: its last position in the list. */
  function LastIndex(resources: seq<ResourceID>, gvk: GVK): int {
    if resources == [] then -1
    else if resources[|resources| - 1] == gvk then |resources| - 1
    else LastIndex(resources[..|resources| - 1], gvk)
  }

  lemma {:induction false} LastIndexIs(resources: seq<ResourceID>, gvk: GVK)
    ensures -1 <= LastIndex(resources, gvk) < |resources|
    ensures LastIndex(resources, gvk) >= 0 ==> resources[LastIndex(resources, gvk)] == gvk
    ensures LastIndex(resources, gvk) >= 0 <==> gvk in resources
  {
    if resources != [] {
      LastIndexIs(resources[..|resources| - 1], gvk);
      assert resources == resources[..|resources| - 1] + [resources[|resources| - 1]];
    }
  }

  function GVKs(violations: seq<Violation>): set<GVK> {
    set v | v in violations :: v.gvk
  }

  /** The ids of the types that have violations, in ascending order. */
  ghost predicate IsNeeded(resources: seq<ResourceID>, violations: seq<Violation>, needed: seq<int>) {
    && Ascending(needed)
    && forall id :: id in needed <==>
         id >= 0 && exists gvk :: gvk in GVKs(violations) && LastIndex(resources, gvk) == id
  }

  ghost predicate IsIdMap(resources: seq<ResourceID>, violations: seq<Violation>, ids: map<GVK, int>) {
    && ids.Keys == (set gvk | gvk in GVKs(violations) && gvk in resources)
    && forall gvk <- ids :: ids[gvk] == LastIndex(resources, gvk)
  }

  method MarkTypes(resources: seq<ResourceID>, violations: seq<Violation>) returns (ids: map<GVK, int>)
    ensures ids.Keys == GVKs(violations) && forall gvk <- ids :: ids[gvk] == LastIndex(resources, gvk)
  {
    ids := map[];
    for i := 0 to |violations|
      invariant ids.Keys == GVKs(violations[..i]) && forall gvk <- ids :: ids[gvk] == -1
    {
      assert violations[..i + 1] == violations[..i] + [violations[i]];
      ids := ids[violations[i].gvk := -1];
    }
    assert violations[..|violations|] == violations;
    for id := 0 to |resources|
      invariant ids.Keys == GVKs(violations) && forall gvk <- ids :: ids[gvk] == LastIndex(resources[..id], gvk)
    {
      assert resources[..id + 1][..id] == resources[..id];
      if resources[id] in ids {
        ids := ids[resources[id] := id];
      }
    }
    assert resources[..|resources|] == resources;
  }

  predicate IntLess(a: int, b: int) {
    a < b
  }

  /** The ids of the marked types, in any order; types that are not in the list are unmarked. */
  method PickIds(resources: seq<ResourceID>, marks: map<GVK, int>) returns (ids: map<GVK, int>, list: seq<int>)
    requires forall gvk <- marks :: marks[gvk] == LastIndex(resources, gvk)
    ensures forall gvk <- ids :: gvk in marks && ids[gvk] == marks[gvk]
    ensures forall gvk <- marks :: gvk in ids <==> marks[gvk] != -1
    ensures Distinct(list) && forall id :: id in list <==> id != -1 && id in marks.Values
  {
    ids, list := marks, [];
    var rest := marks.Keys;
    while rest != {}
      invariant rest <= marks.Keys && forall gvk <- ids :: gvk in marks && ids[gvk] == marks[gvk]
      invariant forall gvk <- marks :: gvk in ids <==> gvk in rest || marks[gvk] != -1
      invariant Distinct(list)
      invariant forall id :: id in list <==> id != -1 && exists gvk :: gvk in marks.Keys - rest && marks[gvk] == id
    {
      var gvk :| gvk in rest;
      if marks[gvk] == -1 {
        ids := ids - {gvk};
      } else {
        NewId(resources, marks, rest, gvk, list);
        list := list + [marks[gvk]];
      }
      rest := rest - {gvk};
    }
  }

  method Preprocess(resources: seq<ResourceID>, violations: seq<Violation>)
    returns (ids: map<GVK, int>, needed: seq<int>)
    ensures IsIdMap(resources, violations, ids) && IsNeeded(resources, violations, needed)
  {
    var marks := MarkTypes(resources, violations);
    var list;
    ids, list := PickIds(resources, marks);
    SortSliceIsStrict(IntLess, list);
    needed := SortSlice(IntLess, list);
    NeededIs(resources, violations, marks, list, needed);
    forall gvk
      ensures gvk in ids <==> gvk in GVKs(violations) && gvk in resources
    {
      LastIndexIs(resources, gvk);
    }
  }

  /** Different types have different ids. */
  lemma NewId(resources: seq<ResourceID>, marks: map<GVK, int>, rest: set<GVK>, gvk: GVK, list: seq<int>)
    requires forall g <- marks :: marks[g] == LastIndex(resources, g)
    requires gvk in rest && gvk in marks && marks[gvk] != -1
    requires forall id <- list :: id != -1 && exists g :: g in marks.Keys - rest && marks[g] == id
    ensures marks[gvk] !in list
  {
    if marks[gvk] in list {
      var g :| g in marks.Keys - rest && marks[g] == marks[gvk];
      LastIndexIs(resources, g);
      LastIndexIs(resources, gvk);
      assert false;
    }
  }

  lemma NeededIs(resources: seq<ResourceID>, violations: seq<Violation>, marks: map<GVK, int>, list: seq<int>,
                 needed: seq<int>)
    requires marks.Keys == GVKs(violations) && forall gvk <- marks :: marks[gvk] == LastIndex(resources, gvk)
    requires forall id :: id in list <==> id != -1 && id in marks.Values
    requires StrictlySorted(IntLess, needed) && forall id :: id in needed <==> id in list
    ensures IsNeeded(resources, violations, needed)
  {
    forall i, j | 0 <= i < j < |needed|
      ensures needed[i] < needed[j]
    {
      assert IntLess(needed[i], needed[j]);
    }
    forall id
      ensures id in needed <==> id >= 0 && exists gvk :: gvk in GVKs(violations) && LastIndex(resources, gvk) == id
    {
      forall gvk
        ensures LastIndex(resources, gvk) >= -1
      {
        LastIndexIs(resources, gvk);
      }
    }
  }

  // ---------------------------------------------------------------- buildMapFromConnections

  ghost predicate HasEndpoint(connections: seq<ObjectConnection>, id: int, meta: Meta) {
    exists c :: c in connections && IsEndpoint(c, id, meta)
  }

  ghost predicate IsEndpoint(c: ObjectConnection, id: int, meta: Meta) {
    (c.source.resourceID == id && MetaOf(c.source) == meta) || (c.target.resourceID == id && MetaOf(c.target) == meta)
  }

  /** One set of endpoints per id up to the largest needed; an id that is not found stays empty. */
  ghost predicate IsMetaTable(connections: seq<ObjectConnection>, needed: seq<int>, table: seq<set<Meta>>) {
    && needed != [] && |table| == needed[|needed| - 1] + 1
    && forall id, meta | 0 <= id < |table| ::
         meta in table[id] <==> Found(needed, id) && HasEndpoint(connections, id, meta)
  }

  /** The table with one endpoint added, if its id is found. */
  ghost predicate EndpointAdded(table: seq<set<Meta>>, table': seq<set<Meta>>, needed: seq<int>, p: ObjectPointer) {
    && |table'| == |table|
    && forall id, meta | 0 <= id < |table| ::
        meta in table'[id] <==> meta in table[id] || (id == p.resourceID && Found(needed, id) && meta == MetaOf(p))
  }

  method AddEndpoint(table: seq<set<Meta>>, needed: seq<int>, p: ObjectPointer) returns (table': seq<set<Meta>>)
    requires Ascending(needed) && needed != [] && |table| == needed[|needed| - 1] + 1
    ensures EndpointAdded(table, table', needed, p)
  {
    table' := table;
    var i := Search(needed, p.resourceID);
    if i < |needed| && needed[i] == p.resourceID {
      table' := table[p.resourceID := table[p.resourceID] + {MetaOf(p)}];
    }
  }

  lemma TableNext(connections: seq<ObjectConnection>, c: ObjectConnection, needed: seq<int>, t0: seq<set<Meta>>,
                  t1: seq<set<Meta>>, t2: seq<set<Meta>>)
    requires IsMetaTable(connections, needed, t0)
    requires EndpointAdded(t0, t1, needed, c.source) && EndpointAdded(t1, t2, needed, c.target)
    ensures IsMetaTable(connections + [c], needed, t2)
  {
    forall id, meta | 0 <= id < |t2|
      ensures meta in t2[id] <==> Found(needed, id) && HasEndpoint(connections + [c], id, meta)
    {
      assert meta in t2[id] <==>
        meta in t1[id] || (id == c.target.resourceID && Found(needed, id) && meta == MetaOf(c.target));
      assert meta in t1[id] <==>
        meta in t0[id] || (id == c.source.resourceID && Found(needed, id) && meta == MetaOf(c.source));
      EndpointsNext(connections, c, id, meta);
    }
  }

  lemma EndpointsNext(connections: seq<ObjectConnection>, c: ObjectConnection, id: int, meta: Meta)
    ensures HasEndpoint(connections + [c], id, meta) <==> HasEndpoint(connections, id, meta) || IsEndpoint(c, id, meta)
  {
    if IsEndpoint(c, id, meta) {
      assert c in connections + [c];
    }
  }

  method BuildMapFromConnections(connections: seq<ObjectConnection>, needed: seq<int>) returns (table: seq<set<Meta>>)
    requires Ascending(needed) && needed != [] && needed[0] >= 0
    ensures IsMetaTable(connections, needed, table)
  {
    table := seq(needed[|needed| - 1] + 1, _ => {});
    for k := 0 to |connections|
      invariant IsMetaTable(connections[..k], needed, table)
    {
      var c := connections[k];
      assert connections[..k + 1] == connections[..k] + [c];
      var withSource := AddEndpoint(table, needed, c.source);
      var withBoth := AddEndpoint(withSource, needed, c.target);
      TableNext(connections[..k], c, needed, table, withSource, withBoth);
      table := withBoth;
    }
    assert connections[..|connections|] == connections;
  }

  // ---------------------------------------------------------------- evaluateForSingleConstraint

  datatype Scope = ClusterScope | NamespaceScope(namespace: string) | ResourceScope

  /** The entries that satisfy the test, in order. */
  ghost function Filter(violations: seq<Violation>, keep: Violation -> bool): seq<Violation> {
    if violations == [] then []
    else Filter(violations[..|violations| - 1], keep)
         + if keep(violations[|violations| - 1]) then [violations[|violations| - 1]] else []
  }

  /** The id a violation is looked up under; a type that is not in the graph reads as id 0. */
  function IdOf(resources: seq<ResourceID>, gvk: GVK): int {
    if gvk in resources then LastIndex(resources, gvk) else 0
  }

  /** What the code keeps. */
  ghost predicate Kept(gr: Response, needed: seq<int>, v: Violation) {
    && needed != []
    && Found(needed, IdOf(gr.resources, v.gvk))
    && HasEndpoint(gr.connections, IdOf(gr.resources, v.gvk), v.meta)
  }

  method KeepInNamespace(violations: seq<Violation>, ns: string) returns (kept: seq<Violation>)
    ensures kept == Filter(violations, (v: Violation) => v.meta.namespace == ns)
  {
    kept := [];
    for i := 0 to |violations|
      invariant kept == Filter(violations[..i], (v: Violation) => v.meta.namespace == ns)
    {
      assert violations[..i + 1][..i] == violations[..i];
      if violations[i].meta.namespace == ns {
        kept := kept + [violations[i]];
      }
    }
    assert violations[..|violations|] == violations;
  }

  method KeepInGraph(gr: Response, violations: seq<Violation>) returns (kept: seq<Violation>, ghost needed: seq<int>)
    ensures IsNeeded(gr.resources, violations, needed)
    ensures kept == Filter(violations, (v: Violation) => Kept(gr, needed, v))
  {
    var ids, list := Preprocess(gr.resources, violations);
    needed := list;
    kept := [];
    if list == [] {
      FilterNone(violations, (v: Violation) => Kept(gr, needed, v));
      return;
    }
    assert list[0] in list;
    var table := BuildMapFromConnections(gr.connections, list);
    for i := 0 to |violations|
      invariant kept == Filter(violations[..i], (v: Violation) => Kept(gr, needed, v))
    {
      var v := violations[i];
      assert violations[..i + 1][..i] == violations[..i];
      var id := if v.gvk in ids then ids[v.gvk] else 0;
      IdInTable(gr, violations, ids, list, v);
      if v.meta in table[id] {
        kept := kept + [v];
      }
    }
    assert violations[..|violations|] == violations;
  }

  lemma IdInTable(gr: Response, violations: seq<Violation>, ids: map<GVK, int>, needed: seq<int>, v: Violation)
    requires IsIdMap(gr.resources, violations, ids) && IsNeeded(gr.resources, violations, needed)
    requires needed != [] && v in violations
    ensures IdOf(gr.resources, v.gvk) == (if v.gvk in ids then ids[v.gvk] else 0)
    ensures 0 <= IdOf(gr.resources, v.gvk) <= needed[|needed| - 1]
  {
    LastIndexIs(gr.resources, v.gvk);
    assert v.gvk in GVKs(violations);
    if v.gvk in ids {
      assert ids[v.gvk] in needed;
    } else {
      assert needed[|needed| - 1] in needed;
    }
  }

  lemma {:induction false} FilterNone(violations: seq<Violation>, keep: Violation -> bool)
    requires forall v :: !keep(v)
    ensures Filter(violations, keep) == []
  {
    if violations != [] {
      FilterNone(violations[..|violations| - 1], keep);
    }
  }

  method EvaluateForSingleConstraint(gr: Response, violations: seq<Violation>, scope: Scope)
    returns (kept: seq<Violation>, ghost needed: seq<int>)
    ensures scope.ClusterScope? ==> kept == violations
    ensures scope.NamespaceScope? ==> kept == Filter(violations, (v: Violation) => v.meta.namespace == scope.namespace)
    ensures scope.ResourceScope? ==>
      IsNeeded(gr.resources, violations, needed) && kept == Filter(violations, (v: Violation) => Kept(gr, needed, v))
  {
    needed := [];
    match scope
    case ClusterScope => kept := violations;
    case NamespaceScope(ns) => kept := KeepInNamespace(violations, ns);
    case ResourceScope => kept, needed := KeepInGraph(gr, violations);
  }

  // ---------------------------------------------------------------- against the plain filter

  /** Some endpoint of the graph has the violation's type, namespace and name. */
  ghost predicate Plain(gr: Response, v: Violation) {
    exists id :: 0 <= id < |gr.resources| && gr.resources[id] == v.gvk && HasEndpoint(gr.connections, id, v.meta)
  }

  /** One end of a connection is an object of the violation's type, namespace and name. */
  lemma PlainIff(gr: Response, v: Violation)
    ensures Plain(gr, v) <==> exists c, p ::
      && c in gr.connections && (p == c.source || p == c.target)
      && p.resourceID < |gr.resources| && gr.resources[p.resourceID] == v.gvk
      && p.namespace == v.meta.namespace && p.name == v.meta.name
  {
    if Plain(gr, v) {
      var id :| 0 <= id < |gr.resources| && gr.resources[id] == v.gvk && HasEndpoint(gr.connections, id, v.meta);
      var c :| c in gr.connections && IsEndpoint(c, id, v.meta);
      var p := if c.source.resourceID == id && MetaOf(c.source) == v.meta then c.source else c.target;
      assert p == c.source || p == c.target;
    }
    if c, p :| c in gr.connections && (p == c.source || p == c.target)
               && p.resourceID < |gr.resources| && gr.resources[p.resourceID] == v.gvk
               && p.namespace == v.meta.namespace && p.name == v.meta.name {
      assert IsEndpoint(c, p.resourceID, v.meta);
    }
  }

  ghost predicate DistinctTypes(gr: Response) {
    Distinct(gr.resources)
  }

  /** A violation whose type is in the graph is kept exactly when the plain filter keeps it and the
      search finds its id. */
  lemma KeptOfKnownType(gr: Response, violations: seq<Violation>, needed: seq<int>, v: Violation)
    requires DistinctTypes(gr) && IsNeeded(gr.resources, violations, needed) && v in violations && v.gvk in gr.resources
    ensures Kept(gr, needed, v) <==> Plain(gr, v) && Found(needed, IdOf(gr.resources, v.gvk))
  {
    LastIndexIs(gr.resources, v.gvk);
    assert v.gvk in GVKs(violations);
    assert LastIndex(gr.resources, v.gvk) in needed;
    assert forall id | 0 <= id < |gr.resources| && gr.resources[id] == v.gvk :: id == LastIndex(gr.resources, v.gvk);
  }

  /** The two ways in which the code differs from the plain filter on one violation: an id the
      search misses, or a type that is not in the graph and is looked up as id 0. */
  ghost predicate Misjudged(gr: Response, needed: seq<int>, v: Violation) {
    if v.gvk in gr.resources
    then Plain(gr, v) && !Found(needed, LastIndex(gr.resources, v.gvk))
    else needed != [] && Found(needed, 0) && HasEndpoint(gr.connections, 0, v.meta)
  }

  /** The result is the plain filter's exactly when no violation is misjudged. */
  lemma EqualsPlainFilterIff(gr: Response, violations: seq<Violation>, needed: seq<int>)
    requires DistinctTypes(gr) && IsNeeded(gr.resources, violations, needed)
    ensures (Filter(violations, (v: Violation) => Kept(gr, needed, v)) ==
              Filter(violations, (v: Violation) => Plain(gr, v)))
       <==> forall v <- violations :: !Misjudged(gr, needed, v)
  {
    forall v | v in violations
      ensures Misjudged(gr, needed, v) <==> (Kept(gr, needed, v) != Plain(gr, v))
    {
      if v.gvk in gr.resources {
        KeptOfKnownType(gr, violations, needed, v);
      }
    }
    FiltersAgree(violations, (v: Violation) => Kept(gr, needed, v), (v: Violation) => Plain(gr, v));
  }

  /** Two filters give the same list exactly when they agree on its entries. */
  lemma {:induction false} FiltersAgree(violations: seq<Violation>, p: Violation -> bool, q: Violation -> bool)
    ensures Filter(violations, p) == Filter(violations, q) <==> forall v <- violations :: p(v) == q(v)
  {
    if forall v <- violations :: p(v) == q(v) {
      SameFilter(violations, p, q);
    } else {
      var v :| v in violations && p(v) != q(v);
      FilterHas(violations, p, v);
      FilterHas(violations, q, v);
    }
  }

  lemma {:induction false} SameFilter(violations: seq<Violation>, p: Violation -> bool, q: Violation -> bool)
    requires forall v <- violations :: p(v) == q(v)
    ensures Filter(violations, p) == Filter(violations, q)
  {
    if violations != [] {
      SameFilter(violations[..|violations| - 1], p, q);
    }
  }

  lemma {:induction false} FilterHas(violations: seq<Violation>, keep: Violation -> bool, v: Violation)
    ensures v in Filter(violations, keep) <==> v in violations && keep(v)
  {
    if violations != [] {
      FilterHas(violations[..|violations| - 1], keep, v);
      assert violations == violations[..|violations| - 1] + [violations[|violations| - 1]];
    }
  }

  lemma AllEqualIsSingle(needed: seq<int>, id: int)
    requires Ascending(needed) && id in needed && forall i | 0 <= i < |needed| :: needed[i] == id
    ensures |needed| == 1
  {
    if |needed| > 1 {
      Ascends(needed, 0, 1);
      assert false;
    }
  }

  lemma Ascends(s: seq<int>, i: int, j: int)
    requires Ascending(s) && 0 <= i < j < |s|
    ensures s[i] < s[j]
  {}

  /** When all violations have one type the result is the plain filter's. */
  lemma OneTypeIsPlain(gr: Response, violations: seq<Violation>, needed: seq<int>)
    requires DistinctTypes(gr) && IsNeeded(gr.resources, violations, needed)
    requires forall v, w | v in violations && w in violations :: v.gvk == w.gvk
    ensures Filter(violations, (v: Violation) => Kept(gr, needed, v)) ==
      Filter(violations, (v: Violation) => Plain(gr, v))
  {
    forall v | v in violations
      ensures !Misjudged(gr, needed, v)
    {
      LastIndexIs(gr.resources, v.gvk);
      assert v.gvk in GVKs(violations);
      assert forall id <- needed :: id == LastIndex(gr.resources, v.gvk);
      if v.gvk in gr.resources {
        assert LastIndex(gr.resources, v.gvk) in needed;
        assert forall i | 0 <= i < |needed| :: needed[i] in needed;
        AllEqualIsSingle(needed, LastIndex(gr.resources, v.gvk));
        SingleIsFound(needed);
      } else {
        assert forall i | 0 <= i < |needed| :: needed[i] in needed;
      }
    }
    EqualsPlainFilterIff(gr, violations, needed);
  }

  /** When violations of several types of the graph have to be told apart, every violation of a type
      in the lower half of the ids is dropped, whether or not the graph has its object. */
  lemma LowerHalfIsDropped(gr: Response, violations: seq<Violation>, needed: seq<int>, v: Violation, p: nat)
    requires DistinctTypes(gr) && IsNeeded(gr.resources, violations, needed) && p < |needed| / 2
    requires v in violations && v.gvk in gr.resources && LastIndex(gr.resources, v.gvk) == needed[p]
    ensures v !in Filter(violations, (w: Violation) => Kept(gr, needed, w))
  {
    LowerHalfIsNeverFound(needed, p);
    FilterHas(violations, (w: Violation) => Kept(gr, needed, w), v);
  }

  /** A violation of the type with the largest id is kept exactly when the plain filter keeps it. */
  lemma LargestTypeIsPlain(gr: Response, violations: seq<Violation>, needed: seq<int>, v: Violation)
    requires DistinctTypes(gr) && IsNeeded(gr.resources, violations, needed) && needed != []
    requires v in violations && v.gvk in gr.resources && LastIndex(gr.resources, v.gvk) == needed[|needed| - 1]
    ensures v in Filter(violations, (w: Violation) => Kept(gr, needed, w)) <==> Plain(gr, v)
  {
    LargestIsFound(needed);
    KeptOfKnownType(gr, violations, needed, v);
    FilterHas(violations, (w: Violation) => Kept(gr, needed, w), v);
  }

  // ---------------------------------------------------------------- when the types alone make it right

  ghost predicate EqualsPlainFilter(gr: Response, violations: seq<Violation>, needed: seq<int>) {
    Filter(violations, (v: Violation) => Kept(gr, needed, v)) == Filter(violations, (v: Violation) => Plain(gr, v))
  }

  /** At most one type of the graph has violations, and if it is the one with id 0 there are no
      violations of types that are not in the graph. */
  ghost predicate TypesSuffice(resources: seq<ResourceID>, violations: seq<Violation>, needed: seq<int>) {
    |needed| <= 1 && (needed == [0] ==> forall v <- violations :: v.gvk in resources)
  }

  /** What the resource graph answers: ids in range, and every resource listed is an endpoint's. */
  ghost predicate Answers(gr: Response) {
    InRange(gr) && forall id | 0 <= id < |gr.resources| :: Touched(gr.connections, id)
  }

  ghost predicate Touched(connections: seq<ObjectConnection>, id: nat) {
    exists c :: c in connections && (c.source.resourceID == id || c.target.resourceID == id)
  }

  /** This is exactly when the result is the plain filter's for all connections the graph may answer. */
  lemma PlainForAllConnectionsIff(resources: seq<ResourceID>, violations: seq<Violation>, needed: seq<int>)
    requires Distinct(resources) && IsNeeded(resources, violations, needed)
    ensures (forall conns | Answers(Response(resources, conns)) ::
              EqualsPlainFilter(Response(resources, conns), violations, needed))
       <==> TypesSuffice(resources, violations, needed)
  {
    if TypesSuffice(resources, violations, needed) {
      forall conns | Answers(Response(resources, conns))
        ensures EqualsPlainFilter(Response(resources, conns), violations, needed)
      {
        SufficientTypes(Response(resources, conns), violations, needed);
        EqualsPlainFilterIff(Response(resources, conns), violations, needed);
      }
    } else {
      var v, id := MisjudgedOne(resources, violations, needed);
      StarAnswers(resources, id, v.meta);
      EqualsPlainFilterIff(Response(resources, Star(|resources|, id, v.meta)), violations, needed);
    }
  }

  lemma SufficientTypes(gr: Response, violations: seq<Violation>, needed: seq<int>)
    requires DistinctTypes(gr) && IsNeeded(gr.resources, violations, needed)
    requires TypesSuffice(gr.resources, violations, needed)
    ensures forall v <- violations :: !Misjudged(gr, needed, v)
  {
    forall v | v in violations
      ensures !Misjudged(gr, needed, v)
    {
      LastIndexIs(gr.resources, v.gvk);
      assert v.gvk in GVKs(violations);
      if v.gvk in gr.resources {
        assert LastIndex(gr.resources, v.gvk) in needed;
        SingleIsFound(needed);
      }
    }
  }

  /** The object is connected to one other object of each type. */
  function Star(count: nat, id: nat, meta: Meta): seq<ObjectConnection> {
    seq(count, k requires 0 <= k < count =>
      ObjectConnection(ObjectPointer(id, meta.namespace, meta.name),
                       ObjectPointer(k, meta.namespace, meta.name + "-2"), {OFFSHOOT}))
  }

  lemma StarAnswers(resources: seq<ResourceID>, id: nat, meta: Meta)
    requires id < |resources|
    ensures Answers(Response(resources, Star(|resources|, id, meta)))
    ensures HasEndpoint(Star(|resources|, id, meta), id, meta)
  {
    var star := Star(|resources|, id, meta);
    forall k | 0 <= k < |resources|
      ensures Touched(star, k)
    {
      assert star[k] in star;
    }
    assert star[0] in star && IsEndpoint(star[0], id, meta);
  }

  lemma MisjudgedOne(resources: seq<ResourceID>, violations: seq<Violation>, needed: seq<int>)
    returns (v: Violation, id: nat)
    requires Distinct(resources) && IsNeeded(resources, violations, needed)
    requires !TypesSuffice(resources, violations, needed)
    ensures id < |resources| && v in violations
    ensures Misjudged(Response(resources, Star(|resources|, id, v.meta)), needed, v)
  {
    assert needed[0] in needed;
    var gvk :| gvk in GVKs(violations) && LastIndex(resources, gvk) == needed[0];
    LastIndexIs(resources, gvk);
    id := needed[0];
    if |needed| >= 2 {
      v :| v in violations && v.gvk == gvk;
      LowerHalfIsNeverFound(needed, 0);
    } else {
      v :| v in violations && v.gvk !in resources;
      SingleIsFound(needed);
    }
    StarAnswers(resources, id, v.meta);
  }
}
