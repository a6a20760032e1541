/** Following a path of edges from an object: List, Locate and the merging of result lists. How one
    edge is resolved is a function of the object and the edge. */
module ObjectPaths {
  import opened Connections
  import Sorting

  datatype Edge = Edge(src: GVK, dst: GVK, connection: string, forward: bool)

  // ---------------------------------------------------------------- appendObjects

  type Key = (string, string)

  function KeyOf(o: Obj): Key {
    (o.namespace, o.name)
  }

  ghost predicate DistinctKeys(s: seq<Obj>) {
    forall i, j :: 0 <= i < j < |s| ==> KeyOf(s[i]) != KeyOf(s[j])
  }

  /** o is in s and nothing after it has its key. */
  ghost predicate LastOfKey(s: seq<Obj>, o: Obj) {
    exists i :: 0 <= i < |s| && s[i] == o && forall j :: i < j < |s| ==> KeyOf(s[j]) != KeyOf(o)
  }

  function ByKey(s: seq<Obj>): map<Key, Obj> {
    if s == [] then map[] else ByKey(s[..|s| - 1])[KeyOf(s[|s| - 1]) := s[|s| - 1]]
  }

  lemma {:induction false} ByKeyIsLast(s: seq<Obj>, o: Obj)
    ensures (KeyOf(o) in ByKey(s) && ByKey(s)[KeyOf(o)] == o) <==> LastOfKey(s, o)
  {
    if s != [] {
      var init, last := s[..|s| - 1], s[|s| - 1];
      ByKeyIsLast(init, o);
      if LastOfKey(init, o) && KeyOf(last) != KeyOf(o) {
        var i :| 0 <= i < |init| && init[i] == o && forall j :: i < j < |init| ==> KeyOf(init[j]) != KeyOf(o);
        assert s[i] == o && forall j :: i < j < |s| ==> KeyOf(s[j]) != KeyOf(o);
      }
      if LastOfKey(s, o) && KeyOf(last) != KeyOf(o) {
        var i :| 0 <= i < |s| && s[i] == o && forall j :: i < j < |s| ==> KeyOf(s[j]) != KeyOf(o);
        assert init[i] == o && forall j :: i < j < |init| ==> KeyOf(init[j]) == KeyOf(s[j]);
      }
      if o == last {
        assert s[|s| - 1] == o;
      }
    }
  }

  lemma {:induction false} ByKeyKeys(s: seq<Obj>, k: Key)
    requires k in ByKey(s)
    ensures KeyOf(ByKey(s)[k]) == k
  {
    if s != [] && k != KeyOf(s[|s| - 1]) {
      ByKeyKeys(s[..|s| - 1], k);
    }
  }

  method AppendObjects(arr: seq<Obj>, items: seq<Obj>) returns (out: seq<Obj>)
    ensures DistinctKeys(out)
    ensures forall o :: o in out <==> LastOfKey(arr + items, o)
  {
    var all := arr + items;
    var m: map<Key, Obj> := map[];
    for i := 0 to |arr|
      invariant m == ByKey(all[..i])
    {
      assert all[..i + 1] == all[..i] + [arr[i]];
      m := m[KeyOf(arr[i]) := arr[i]];
    }
    for i := 0 to |items|
      invariant m == ByKey(all[..|arr| + i])
    {
      assert all[..|arr| + i + 1] == all[..|arr| + i] + [items[i]];
      m := m[KeyOf(items[i]) := items[i]];
    }
    assert all[..|all|] == all;
    out := ValuesOf(m, all);
    forall o
      ensures o in out <==> LastOfKey(all, o)
    {
      ByKeyIsLast(all, o);
    }
  }

  /** The values of the map, in any order. */
  method ValuesOf(m: map<Key, Obj>, ghost all: seq<Obj>) returns (out: seq<Obj>)
    requires m == ByKey(all)
    ensures DistinctKeys(out)
    ensures forall o :: o in out <==> KeyOf(o) in m && m[KeyOf(o)] == o
  {
    var keys := Sorting.Listing(m.Keys);
    out := [];
    for i := 0 to |keys|
      invariant |out| == i
      invariant forall j | 0 <= j < i :: keys[j] in m && out[j] == m[keys[j]] && KeyOf(out[j]) == keys[j]
    {
      assert keys[i] in Sorting.Elements(keys);
      ByKeyKeys(all, keys[i]);
      out := out + [m[keys[i]]];
    }
    forall o | KeyOf(o) in m && m[KeyOf(o)] == o
      ensures o in out
    {
      assert KeyOf(o) in Sorting.Elements(keys);
      var j :| 0 <= j < |keys| && keys[j] == KeyOf(o);
      assert out[j] == o;
    }
  }

  /** Merging loses nothing when a key stands for one object. */
  lemma MergingKeepsAll(s: seq<Obj>, o: Obj)
    requires forall p, q :: p in s && q in s && KeyOf(p) == KeyOf(q) ==> p == q
    ensures LastOfKey(s, o) <==> o in s
  {
    if o in s && s != [] {
      LastExists(s, o);
    }
  }

  lemma {:induction false} LastExists(s: seq<Obj>, o: Obj)
    requires o in s && forall p :: p in s && KeyOf(p) == KeyOf(o) ==> p == o
    ensures LastOfKey(s, o)
  {
    var i := |s| - 1;
    while s[i] != o
      decreases i
      invariant 0 <= i < |s| && o in s[..i + 1] && forall j :: i < j < |s| ==> s[j] != o
    {
      assert s[..i + 1] == s[..i] + [s[i]];
      i := i - 1;
    }
    forall j | i < j < |s|
      ensures KeyOf(s[j]) != KeyOf(o)
    {
      assert s[j] in s;
    }
  }

  // ---------------------------------------------------------------- List

  /** NotFound is an error of its own: List passes over it. */
  datatype Outcome = Objects(items: seq<Obj>) | NotFound | Failed

  type Resolver = (Obj, Edge) -> Outcome

  /** ResourcesFor refuses an object of another type than the edge's source. */
  function ResourcesFor(resolve: Resolver, o: Obj, e: Edge): Outcome {
    if e.src != o.gvk then Failed else resolve(o, e)
  }

  function Targets(resolve: Resolver, o: Obj, e: Edge): seq<Obj> {
    var r := ResourcesFor(resolve, o, e); if r.Objects? then r.items else []
  }

  /** Edges are resolved to objects of the store, of the edge's target type. */
  ghost predicate Resolves(s: Store, resolve: Resolver) {
    forall o, e, d :: resolve(o, e).Objects? && d in resolve(o, e).items ==> d in s.objects && d.gvk == e.dst
  }

  /** The iterated image of src under the edges of path. */
  ghost predicate Reached(resolve: Resolver, src: Obj, path: seq<Edge>, o: Obj) {
    if path == [] then o == src
    else var init, last := path[..|path| - 1], path[|path| - 1];
         exists m :: Reached(resolve, src, init, m) && o in Targets(resolve, m, last)
  }

  ghost predicate FailsAt(resolve: Resolver, src: Obj, path: seq<Edge>, k: int, m: Obj) {
    0 <= k < |path| && Reached(resolve, src, path[..k], m) && ResourcesFor(resolve, m, path[k]).Failed?
  }

  /** In plain terms: an object of another type than the edge's source is refused, an answer "not found"
      is passed over, and everything else is the resolver's answer. */
  lemma StepIsResolved(resolve: Resolver, src: Obj, path: seq<Edge>, k: int, m: Obj, e: Edge, d: Obj)
    ensures FailsAt(resolve, src, path, k, m) <==>
      0 <= k < |path| && Reached(resolve, src, path[..k], m) && (m.gvk != path[k].src || resolve(m, path[k]).Failed?)
    ensures Reached(resolve, src, path + [e], d) <==>
      exists x :: Reached(resolve, src, path, x) && x.gvk == e.src && resolve(x, e).Objects? && d in resolve(x, e).items
  {
    assert (path + [e])[..|path|] == path;
  }

  /** One level: the images of all objects of the level before. */
  method Follow(s: Store, resolve: Resolver, level: seq<Obj>, e: Edge) returns (r: Result<seq<Obj>>)
    requires StoreOk(s) && Resolves(s, resolve)
    ensures r.Err? <==> exists m :: m in level && ResourcesFor(resolve, m, e).Failed?
    ensures r.Ok? ==> DistinctKeys(r.value) && forall o :: o in r.value <==> InImage(resolve, level, e, o)
  {
    var out: seq<Obj> := [];
    for i := 0 to |level|
      invariant forall m <- level[..i] :: !ResourcesFor(resolve, m, e).Failed?
      invariant DistinctKeys(out) && forall o :: o in out <==> InImage(resolve, level[..i], e, o)
    {
      var result := ResourcesFor(resolve, level[i], e);
      assert level[..i + 1] == level[..i] + [level[i]];
      if result.Failed? {
        return Err;
      }
      ghost var before := out;
      out := AppendObjects(out, Targets(resolve, level[i], e));
      MergedLevel(s, resolve, level[..i], level[i], e, before, out);
    }
    assert level[..|level|] == level;
    r := Ok(out);
  }

  ghost predicate InImage(resolve: Resolver, level: seq<Obj>, e: Edge, o: Obj) {
    exists m :: m in level && o in Targets(resolve, m, e)
  }

  lemma MergedLevel(s: Store, resolve: Resolver, level: seq<Obj>, m: Obj, e: Edge, before: seq<Obj>, out: seq<Obj>)
    requires StoreOk(s) && Resolves(s, resolve)
    requires forall o :: o in before <==> InImage(resolve, level, e, o)
    requires forall o :: o in out <==> LastOfKey(before + Targets(resolve, m, e), o)
    ensures forall o :: o in out <==> InImage(resolve, level + [m], e, o)
  {
    var all := before + Targets(resolve, m, e);
    forall o
      ensures o in out <==> InImage(resolve, level + [m], e, o)
    {
      MergingKeepsAll(all, o);
      if InImage(resolve, level, e, o) {
        var x :| x in level && o in Targets(resolve, x, e);
        assert x in level + [m];
      }
      if o in Targets(resolve, m, e) {
        assert m in level + [m];
      }
    }
  }

  method List(s: Store, resolve: Resolver, src: Obj, path: seq<Edge>) returns (r: Result<seq<Obj>>)
    requires StoreOk(s) && Resolves(s, resolve)
    ensures r.Err? <==> exists k, m :: FailsAt(resolve, src, path, k, m)
    ensures r.Ok? ==> DistinctKeys(r.value) && forall o :: o in r.value <==> Reached(resolve, src, path, o)
  {
    var level := [src];
    for k := 0 to |path|
      invariant DistinctKeys(level) && forall o :: o in level <==> Reached(resolve, src, path[..k], o)
      invariant forall j, m :: 0 <= j < k ==> !FailsAt(resolve, src, path, j, m)
    {
      assert path[..k + 1][..k] == path[..k];
      var next := Follow(s, resolve, level, path[k]);
      if next.Err? {
        ghost var m :| m in level && ResourcesFor(resolve, m, path[k]).Failed?;
        assert FailsAt(resolve, src, path, k, m);
        return Err;
      }
      level := next.value;
    }
    assert path[..|path|] == path;
    r := Ok(level);
  }

  // ---------------------------------------------------------------- Locate

  datatype NamedEdge = NamedEdge(name: string, src: GVK, dst: GVK, connection: string)

  function ByName(edgeList: seq<NamedEdge>): map<string, NamedEdge> {
    if edgeList == [] then map[]
    else ByName(edgeList[..|edgeList| - 1])[edgeList[|edgeList| - 1].name := edgeList[|edgeList| - 1]]
  }

  /** edge goes over e from type `from`: along e if it starts there, otherwise against it. */
  predicate GoesOver(e: NamedEdge, from: GVK, edge: Edge) {
    && edge.src == from && edge.connection == e.connection
    && (if edge.forward then e.src == from && e.dst == edge.dst
        else e.src != from && e.dst == from && e.src == edge.dst)
  }

  /** The type before step k. */
  function Stop(start: GVK, edges: seq<Edge>, k: nat): GVK
    requires k <= |edges|
  {
    if k == 0 then start else edges[k - 1].dst
  }

  predicate IsStep(m: map<string, NamedEdge>, start: GVK, path: seq<string>, edges: seq<Edge>, k: nat)
    requires k < |path| == |edges|
  {
    path[k] in m && GoesOver(m[path[k]], Stop(start, edges, k), edges[k])
  }

  /** The edges go over the named ones, each starting where the one before ends. */
  ghost predicate IsWalk(m: map<string, NamedEdge>, start: GVK, path: seq<string>, edges: seq<Edge>) {
    |edges| == |path| && forall k :: 0 <= k < |path| ==> IsStep(m, start, path, edges, k)
  }

  lemma WalkExtends(m: map<string, NamedEdge>, start: GVK, path: seq<string>, edges: seq<Edge>, name: string, e: Edge)
    requires IsWalk(m, start, path, edges)
    requires name in m && GoesOver(m[name], Stop(start, edges, |edges|), e)
    ensures IsWalk(m, start, path + [name], edges + [e])
  {
    forall k | 0 <= k < |path| + 1
      ensures IsStep(m, start, path + [name], edges + [e], k)
    {
      if k < |path| {
        assert IsStep(m, start, path, edges, k);
      }
    }
  }

  method FindWalk(edgeList: seq<NamedEdge>, start: GVK, path: seq<string>) returns (r: Result<seq<Edge>>)
    ensures r.Ok? ==> IsWalk(ByName(edgeList), start, path, r.value)
    ensures r.Ok? ==> forall k | 0 <= k < |path| :: Follows(edgeList, start, path, r.value, k)
    ensures r.Err? ==> forall w :: !IsWalk(ByName(edgeList), start, path, w)
  {
    var m: map<string, NamedEdge> := map[];
    for i := 0 to |edgeList|
      invariant m == ByName(edgeList[..i])
    {
      assert edgeList[..i + 1] == edgeList[..i] + [edgeList[i]];
      m := m[edgeList[i].name := edgeList[i]];
    }
    assert edgeList[..|edgeList|] == edgeList;
    var from := start;
    var edges: seq<Edge> := [];
    for k := 0 to |path|
      invariant IsWalk(m, start, path[..k], edges) && from == Stop(start, edges, k)
      invariant forall w :: IsWalk(m, start, path, w) ==> w[..k] == edges
    {
      forall w | IsWalk(m, start, path, w)
        ensures path[k] in m && GoesOver(m[path[k]], from, w[k]) && w[..k + 1] == edges + [w[k]]
      {
        assert IsStep(m, start, path, w, k);
        assert k > 0 ==> w[k - 1] == w[..k][k - 1];
      }
      if path[k] !in m {
        return Err;
      }
      var e := m[path[k]];
      var edge;
      if e.src == from {
        edge := Edge(e.src, e.dst, e.connection, true);
      } else if e.dst == from {
        edge := Edge(e.dst, e.src, e.connection, false);
      } else {
        return Err;
      }
      WalkExtends(m, start, path[..k], edges, path[k], edge);
      assert path[..k + 1] == path[..k] + [path[k]];
      edges, from := edges + [edge], edge.dst;
    }
    assert path[..|path|] == path;
    r := Ok(edges);
    forall k | 0 <= k < |path|
      ensures Follows(edgeList, start, path, edges, k)
    {
      StepFollows(edgeList, start, path, edges, k);
    }
  }

  /** Edge k is the last named one of its name. It is taken forward exactly when that starts where the
      edges before it end, and otherwise backward, and then it ends there. */
  ghost predicate Follows(edgeList: seq<NamedEdge>, start: GVK, path: seq<string>, edges: seq<Edge>, k: nat) {
    k < |path| == |edges| &&
    var edge, from := edges[k], if k == 0 then start else edges[k - 1].dst;
    exists i: nat :: IsLastNamed(edgeList, path[k], i) && edge.src == from
      && edge.connection == edgeList[i].connection && (edge.forward <==> edgeList[i].src == from)
      && (if edge.forward then edge.dst == edgeList[i].dst else from == edgeList[i].dst && edge.dst == edgeList[i].src)
  }

  ghost predicate IsLastNamed(edgeList: seq<NamedEdge>, name: string, i: nat) {
    i < |edgeList| && edgeList[i].name == name && forall j | i < j < |edgeList| :: edgeList[j].name != name
  }

  lemma {:induction false} LastNamed(edgeList: seq<NamedEdge>, name: string) returns (i: nat)
    requires name in ByName(edgeList)
    ensures IsLastNamed(edgeList, name, i) && ByName(edgeList)[name] == edgeList[i]
  {
    var last := |edgeList| - 1;
    if edgeList[last].name == name {
      i := last;
    } else {
      i := LastNamed(edgeList[..last], name);
    }
  }

  lemma StepFollows(edgeList: seq<NamedEdge>, start: GVK, path: seq<string>, edges: seq<Edge>, k: nat)
    requires IsWalk(ByName(edgeList), start, path, edges) && k < |path|
    ensures Follows(edgeList, start, path, edges, k)
  {
    assert IsStep(ByName(edgeList), start, path, edges, k);
    var i := LastNamed(edgeList, path[k]);
  }

  /** Along a walk the type check of ResourcesFor never refuses: whatever is reached before edge k
      has that edge's source type. */
  lemma WalksAreNeverRefused(s: Store, resolve: Resolver, m: map<string, NamedEdge>, src: Obj, path: seq<string>,
                             edges: seq<Edge>, k: nat, o: Obj)
    requires Resolves(s, resolve)
    requires IsWalk(m, src.gvk, path, edges) && k < |edges| && Reached(resolve, src, edges[..k], o)
    ensures ResourcesFor(resolve, o, edges[k]) == resolve(o, edges[k])
  {
    assert IsStep(m, src.gvk, path, edges, k);
    if k > 0 {
      var before := edges[..k];
      var init, last := before[..k - 1], before[k - 1];
      var x :| Reached(resolve, src, init, x) && o in Targets(resolve, x, last);
    }
  }

  /** Resolving an edge fails, the type check aside. */
  ghost predicate ResolverFailsAt(resolve: Resolver, src: Obj, path: seq<Edge>, k: int, m: Obj) {
    0 <= k < |path| && Reached(resolve, src, path[..k], m) && resolve(m, path[k]).Failed?
  }

  datatype Located = TheObject(o: Obj) | NoneFound | Several | Refused

  /** What Locate returns, given the walk: the one object reached, if there is exactly one. */
  ghost predicate IsLocated(resolve: Resolver, src: Obj, walk: seq<Edge>, r: Located) {
    match r
    case TheObject(o) => forall p :: Reached(resolve, src, walk, p) <==> p == o
    case NoneFound => forall p :: !Reached(resolve, src, walk, p)
    case Several => exists o, p :: o != p && Reached(resolve, src, walk, o) && Reached(resolve, src, walk, p)
    case Refused => exists k, m :: ResolverFailsAt(resolve, src, walk, k, m)
  }

  /** Locate from the locator's own object src. */
  method Locate(s: Store, resolve: Resolver, edgeList: seq<NamedEdge>, src: Obj, path: seq<string>) returns (r: Located)
    requires StoreOk(s) && Resolves(s, resolve)
    ensures (forall w :: !IsWalk(ByName(edgeList), src.gvk, path, w)) ==> r.Refused?
    ensures forall w :: IsWalk(ByName(edgeList), src.gvk, path, w) ==>
      IsLocated(resolve, src, w, r) && (!r.Refused? ==> forall k, m :: !ResolverFailsAt(resolve, src, w, k, m))
  {
    if |path| == 0 {
      assert IsWalk(ByName(edgeList), src.gvk, path, []);
      return TheObject(src);
    }
    var walk := FindWalk(edgeList, src.gvk, path);
    if walk.Err? {
      return Refused;
    }
    var objects := List(s, resolve, src, walk.value);
    forall w | IsWalk(ByName(edgeList), src.gvk, path, w)
      ensures w == walk.value
      ensures forall k, m :: FailsAt(resolve, src, w, k, m) <==> ResolverFailsAt(resolve, src, w, k, m)
    {
      WalkIsUnique(ByName(edgeList), src.gvk, path, w, walk.value, |path|);
      FailuresAreTheResolvers(s, resolve, ByName(edgeList), src, path, w);
    }
    if objects.Err? {
      return Refused;
    }
    r := TheOne(objects.value);
  }

  method TheOne(objects: seq<Obj>) returns (r: Located)
    requires DistinctKeys(objects)
    ensures !r.Refused?
    ensures r.TheObject? ==> forall o :: o in objects <==> o == r.o
    ensures r.NoneFound? ==> forall o :: o !in objects
    ensures r.Several? ==> exists o, p :: o != p && o in objects && p in objects
  {
    if |objects| == 0 {
      return NoneFound;
    }
    if |objects| == 1 {
      return TheObject(objects[0]);
    }
    assert KeyOf(objects[0]) != KeyOf(objects[1]);
    assert objects[0] in objects && objects[1] in objects;
    r := Several;
  }

  lemma {:induction false} WalkIsUnique(m: map<string, NamedEdge>, start: GVK, path: seq<string>, v: seq<Edge>,
                                        w: seq<Edge>, k: nat)
    requires IsWalk(m, start, path, v) && IsWalk(m, start, path, w) && k <= |path|
    ensures v[..k] == w[..k]
  {
    if k > 0 {
      WalkIsUnique(m, start, path, v, w, k - 1);
      assert IsStep(m, start, path, v, k - 1) && IsStep(m, start, path, w, k - 1);
      assert k > 1 ==> v[k - 2] == v[..k - 1][k - 2] && w[k - 2] == w[..k - 1][k - 2];
      assert v[..k] == v[..k - 1] + [v[k - 1]] && w[..k] == w[..k - 1] + [w[k - 1]];
    }
  }

  lemma FailuresAreTheResolvers(s: Store, resolve: Resolver, m: map<string, NamedEdge>, src: Obj, path: seq<string>,
                                edges: seq<Edge>)
    requires Resolves(s, resolve) && IsWalk(m, src.gvk, path, edges)
    ensures forall k, x :: FailsAt(resolve, src, edges, k, x) <==> ResolverFailsAt(resolve, src, edges, k, x)
  {
    forall k, x | 0 <= k < |edges| && Reached(resolve, src, edges[..k], x)
      ensures ResourcesFor(resolve, x, edges[k]) == resolve(x, edges[k])
    {
      WalksAreNeverRefused(s, resolve, m, src, path, edges, k, x);
    }
  }
}
