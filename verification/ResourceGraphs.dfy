/** The resource graph of one object: its offshoot component, the edges that leave it under other
    labels, and the response that re-encodes the endpoints with integer resource ids. */
module ResourceGraphs {
  import opened ObjectIds
  import opened ObjectGraphs
  import opened Sorting
  import opened Traversals

  datatype ResourceID = ResourceID(group: string, version: string, kind: string) {
    function TypeKey(): GroupKind {
      GroupKind(group, kind)
    }
  }

  datatype ObjectPointer = ObjectPointer(resourceID: nat, namespace: string, name: string)

  datatype ObjectConnection = ObjectConnection(source: ObjectPointer, target: ObjectPointer, labels: set<Label>)

  datatype Response = Response(resources: seq<ResourceID>, connections: seq<ObjectConnection>)

  /** The cluster's types; a type that is not a key has no REST mapping. */
  type Mapper = m: map<GroupKind, ResourceID> | forall gk <- m :: m[gk].TypeKey() == gk witness map[]

  // ---------------------------------------------------------------- which edges are collected

  /** The label is shown on the pair k: an offshoot edge of the component, or an edge under one of
      the requested labels that is met when starting from the component and never entering one of
      its group-kinds. */
  ghost predicate Shows(e: EdgeMap, component: set<OID>, wanted: seq<Label>, k: Pair, l: Label) {
    || (l == OFFSHOOT && Touches(e, OFFSHOOT, {}, component, k))
    || (l in wanted && !Direct(l) && ShowsOther(e, component, k, l))
  }

  ghost predicate ShowsOther(e: EdgeMap, component: set<OID>, k: Pair, l: Label) {
    exists reach ::
      IsComponent(e, l, GKs(component), component, reach) && Touches(e, l, GKs(component), reach, k)
  }

  ghost predicate Collected(e: EdgeMap, component: set<OID>, wanted: seq<Label>, conns: Connections) {
    && (forall k <- conns :: conns[k] != {})
    && (forall k, l :: l in LabelsOf(conns, k) <==> Shows(e, component, wanted, k, l))
  }

  lemma ComponentIsUnique(e: EdgeMap, l: Label, skip: set<GroupKind>, seeds: set<OID>, T: set<OID>, U: set<OID>)
    requires IsComponent(e, l, skip, seeds, T) && IsComponent(e, l, skip, seeds, U)
    ensures T == U
  {}

  lemma CollectOneMore(e: EdgeMap, component: set<OID>, wanted: seq<Label>, l: Label, reach: set<OID>,
                       conns: Connections, conns': Connections)
    requires Collected(e, component, wanted, conns) && !Direct(l)
    requires IsComponent(e, l, GKs(component), component, reach)
    requires Labelled(e, l, GKs(component), reach, conns, conns')
    ensures Collected(e, component, wanted + [l], conns')
  {
    forall k
      ensures ShowsOther(e, component, k, l) <==> Touches(e, l, GKs(component), reach, k)
    {
      forall other | IsComponent(e, l, GKs(component), component, other)
        ensures other == reach
      {
        ComponentIsUnique(e, l, GKs(component), component, other, reach);
      }
    }
    forall k | k in conns'
      ensures conns'[k] != {}
    {
      assert conns'[k] == LabelsOf(conns', k);
      if k in conns {
        assert LabelsOf(conns, k) == conns[k] != {};
      }
    }
  }

  /** The component and the collected edges, for any order in which sets are visited. */
  method Collect(e: EdgeMap, src: OID, wanted: seq<Label>) returns (component: set<OID>, conns: Connections)
    ensures IsComponent(e, OFFSHOOT, {}, {src}, component)
    ensures Collected(e, component, wanted, conns)
  {
    component, conns := ConnectedEdges(e, [src], OFFSHOOT, {}, map[]);
    assert Elements([src]) == {src};
    var offshoots := Listing(component);
    var skipGKs := GKs(component);
    var i := 0;
    while i < |wanted|
      invariant 0 <= i <= |wanted|
      invariant Collected(e, component, wanted[..i], conns)
    {
      if !Direct(wanted[i]) {
        ghost var before := conns;
        var reach;
        reach, conns := ConnectedEdges(e, offshoots, wanted[i], skipGKs, conns);
        CollectOneMore(e, component, wanted[..i], wanted[i], reach, before, conns);
      }
      assert wanted[..i + 1] == wanted[..i] + [wanted[i]];
      i := i + 1;
    }
    assert wanted[..|wanted|] == wanted;
  }

  /** Offshoot edges are all and only the edges inside the component; an edge under any other label
      has an endpoint whose group-kind the component does not have. */
  lemma WhatIsShown(e: EdgeMap, src: OID, component: set<OID>, wanted: seq<Label>, conns: Connections, k: Pair,
                    l: Label)
    requires IsComponent(e, OFFSHOOT, {}, {src}, component) && Collected(e, component, wanted, conns)
    ensures OFFSHOOT in LabelsOf(conns, k) <==>
              exists x, y :: x in component && y in component && y in Nbrs(e, x, OFFSHOOT) && k == Norm(x, y)
    ensures l in LabelsOf(conns, k) && l != OFFSHOOT ==>
              l in wanted && (GK(k.source) !in GKs(component) || GK(k.target) !in GKs(component))
  {
    if Touches(e, OFFSHOOT, {}, component, k) {
      var x, y :| x in component && y in Nbrs(e, x, OFFSHOOT) && Allowed({}, y) && k == Norm(x, y);
      assert y in component;
    }
    if l in LabelsOf(conns, k) && l != OFFSHOOT {
      assert Shows(e, component, wanted, k, l);
      assert src in component && GK(src) in GKs(component);
    }
  }

  /** The path starts in the component and then visits foreign group-kinds only. */
  ghost predicate LeadsOut(e: EdgeMap, l: Label, component: set<OID>, p: seq<OID>) {
    p != [] && p[0] in component
    && forall i | 0 < i < |p| :: p[i] in Nbrs(e, p[i - 1], l) && GK(p[i]) !in GKs(component)
  }

  ghost predicate OnPath(e: EdgeMap, l: Label, component: set<OID>, x: OID) {
    exists p :: LeadsOut(e, l, component, p) && p[|p| - 1] == x
  }

  lemma {:induction false} PathsStayIn(e: EdgeMap, l: Label, component: set<OID>, reach: set<OID>, p: seq<OID>)
    requires component <= reach && Closed(e, l, GKs(component), reach) && LeadsOut(e, l, component, p)
    ensures p[|p| - 1] in reach
  {
    if |p| > 1 {
      PathsStayIn(e, l, component, reach, p[..|p| - 1]);
    }
  }

  /** The path ends with an edge between the two objects. */
  ghost predicate EndsWith(p: seq<OID>, k: Pair) {
    |p| > 1 && k == Norm(p[|p| - 2], p[|p| - 1])
  }

  lemma LongerPath(e: EdgeMap, l: Label, component: set<OID>, p: seq<OID>, y: OID)
    requires LeadsOut(e, l, component, p) && y in Nbrs(e, p[|p| - 1], l) && GK(y) !in GKs(component)
    ensures LeadsOut(e, l, component, p + [y]) && OnPath(e, l, component, y)
    ensures EndsWith(p + [y], Norm(p[|p| - 1], y))
  {
    var q := p + [y];
    forall i | 0 < i < |q|
      ensures q[i] in Nbrs(e, q[i - 1], l) && GK(q[i]) !in GKs(component)
    {
      var j := i - 1;
      assert q[j] == p[j];
      assert i < |p| ==> q[i] == p[i];
    }
    assert q[|q| - 1] == y;
  }

  lemma ShorterPath(e: EdgeMap, l: Label, component: set<OID>, p: seq<OID>)
    requires LeadsOut(e, l, component, p) && |p| > 1
    ensures OnPath(e, l, component, p[|p| - 2])
  {
    var q := p[..|p| - 1];
    assert LeadsOut(e, l, component, q) && q[|q| - 1] == p[|p| - 2];
  }

  lemma ComponentIsOnPaths(e: EdgeMap, l: Label, component: set<OID>, x: OID)
    requires x in component
    ensures OnPath(e, l, component, x) && GK(x) in GKs(component)
  {
    assert LeadsOut(e, l, component, [x]);
  }

  lemma AllowedIsForeign(component: set<OID>, y: OID)
    requires component != {}
    ensures Allowed(GKs(component), y) <==> GK(y) !in GKs(component)
  {
    var c :| c in component;
    assert GK(c) in GKs(component);
  }

  lemma NextOnPath(e: EdgeMap, l: Label, component: set<OID>, x: OID, y: OID)
    requires component != {} && OnPath(e, l, component, x) && y in Nbrs(e, x, l) && Allowed(GKs(component), y)
    ensures OnPath(e, l, component, y)
  {
    AllowedIsForeign(component, y);
    var p :| LeadsOut(e, l, component, p) && p[|p| - 1] == x;
    LongerPath(e, l, component, p, y);
  }

  lemma PathsAreClosed(e: EdgeMap, l: Label, component: set<OID>, reach: set<OID>, onPaths: set<OID>)
    requires component != {} && component <= reach && Closed(e, l, GKs(component), reach)
    requires forall x :: x in onPaths <==> x in reach && OnPath(e, l, component, x)
    ensures component <= onPaths && Closed(e, l, GKs(component), onPaths)
  {
    forall x | x in component
      ensures x in onPaths
    {
      ComponentIsOnPaths(e, l, component, x);
    }
    forall x, y | x in onPaths && y in Nbrs(e, x, l) && Allowed(GKs(component), y)
      ensures y in onPaths
    {
      NextOnPath(e, l, component, x, y);
    }
  }

  lemma ReachIsPaths(e: EdgeMap, l: Label, component: set<OID>, reach: set<OID>, x: OID)
    requires IsComponent(e, l, GKs(component), component, reach) && component != {}
    ensures x in reach <==> OnPath(e, l, component, x)
  {
    if p :| LeadsOut(e, l, component, p) && p[|p| - 1] == x {
      PathsStayIn(e, l, component, reach, p);
    }
    if x in reach {
      var onPaths := set z | z in reach && OnPath(e, l, component, z);
      PathsAreClosed(e, l, component, reach, onPaths);
      assert reach <= onPaths;
    }
  }

  /** Under any other label exactly the edges are shown that end a path out of the component, if the label
      is requested and not direct. */
  lemma OthersShownIff(e: EdgeMap, src: OID, component: set<OID>, wanted: seq<Label>, conns: Connections, k: Pair,
                       l: Label)
    requires IsComponent(e, OFFSHOOT, {}, {src}, component) && Collected(e, component, wanted, conns) && l != OFFSHOOT
    ensures l in LabelsOf(conns, k) <==>
      l in wanted && !Direct(l) && exists p :: LeadsOut(e, l, component, p) && EndsWith(p, k)
  {
    assert src in component && GK(src) in GKs(component);
    var reach := ComponentExists(e, l, GKs(component), component);
    forall x
      ensures x in reach <==> OnPath(e, l, component, x)
    {
      ReachIsPaths(e, l, component, reach, x);
    }
    forall other | IsComponent(e, l, GKs(component), component, other)
      ensures other == reach
    {
      ComponentIsUnique(e, l, GKs(component), component, other, reach);
    }
    TouchesIsPath(e, l, component, reach, k);
    assert l in LabelsOf(conns, k) <==> Shows(e, component, wanted, k, l);
  }

  lemma TouchesIsPath(e: EdgeMap, l: Label, component: set<OID>, reach: set<OID>, k: Pair)
    requires component != {} && forall x :: x in reach <==> OnPath(e, l, component, x)
    ensures Touches(e, l, GKs(component), reach, k) <==> exists p :: LeadsOut(e, l, component, p) && EndsWith(p, k)
  {
    if x, y :| x in reach && y in Nbrs(e, x, l) && Allowed(GKs(component), y) && k == Norm(x, y) {
      PathToEdge(e, l, component, x, y);
    }
    if p :| LeadsOut(e, l, component, p) && EndsWith(p, k) {
      ShorterPath(e, l, component, p);
      var x, y := p[|p| - 2], p[|p| - 1];
      assert x in reach && y in Nbrs(e, x, l) && Allowed(GKs(component), y);
    }
  }

  lemma PathToEdge(e: EdgeMap, l: Label, component: set<OID>, x: OID, y: OID)
    requires component != {} && OnPath(e, l, component, x) && y in Nbrs(e, x, l) && Allowed(GKs(component), y)
    ensures exists p :: LeadsOut(e, l, component, p) && EndsWith(p, Norm(x, y))
  {
    AllowedIsForeign(component, y);
    var p :| LeadsOut(e, l, component, p) && p[|p| - 1] == x;
    LongerPath(e, l, component, p, y);
  }

  // ---------------------------------------------------------------- encoding with resource ids

  ghost function EndpointGKs(conns: Connections): set<GroupKind> {
    (set k | k in conns :: GK(k.source)) + (set k | k in conns :: GK(k.target))
  }

  ghost predicate InRange(resp: Response) {
    forall c <- resp.connections :: c.source.resourceID < |resp.resources| && c.target.resourceID < |resp.resources|
  }

  function DecodePointer(resources: seq<ResourceID>, p: ObjectPointer): OID
    requires p.resourceID < |resources|
  {
    var r := resources[p.resourceID];
    ObjectID(r.group, r.kind, p.namespace, p.name).OID()
  }

  /** Reading the response back: the pairs it lists, with their labels. */
  ghost function Decode(resp: Response): Connections
    requires InRange(resp)
    decreases |resp.connections|
  {
    if resp.connections == [] then map[]
    else
      var n := |resp.connections| - 1;
      var c := resp.connections[n];
      Decode(Response(resp.resources, resp.connections[..n]))
        [Pair(DecodePointer(resp.resources, c.source), DecodePointer(resp.resources, c.target)) := c.labels]
  }

  ghost predicate EndpointsCanonical(conns: Connections) {
    forall k <- conns :: Canonical(k.source) && Canonical(k.target)
  }

  function Point(ids: map<GroupKind, nat>, key: OID): ObjectPointer
    requires Canonical(key) && GK(key) in ids
  {
    var id := ParseObjectID(key).value;
    ObjectPointer(ids[GK(key)], id.namespace, id.name)
  }

  lemma PointDecodes(resources: seq<ResourceID>, ids: map<GroupKind, nat>, key: OID)
    requires Canonical(key) && GK(key) in ids && ids[GK(key)] < |resources|
      && resources[ids[GK(key)]].TypeKey() == GK(key)
    ensures DecodePointer(resources, Point(ids, key)) == key
  {}

  method EndpointTypes(conns: Connections) returns (gkSet: set<GroupKind>)
    ensures gkSet == EndpointGKs(conns)
  {
    gkSet := {};
    ghost var done: set<Pair> := {};
    var rest := conns.Keys;
    while rest != {}
      invariant done + rest == conns.Keys
      invariant gkSet == (set k | k in done :: GK(k.source)) + (set k | k in done :: GK(k.target))
    {
      var k :| k in rest;
      gkSet, rest, done := gkSet + {GK(k.source), GK(k.target)}, rest - {k}, done + {k};
    }
    assert done == conns.Keys;
  }

  /** The ids are the positions in the list of resources. */
  ghost predicate Indexed(resources: seq<ResourceID>, ids: map<GroupKind, nat>) {
    forall gk <- ids :: ids[gk] < |resources| && resources[ids[gk]].TypeKey() == gk
  }

  ghost predicate Maps(mapper: Mapper, gks: seq<GroupKind>, resources: seq<ResourceID>) {
    |resources| == |gks| && forall j | 0 <= j < |gks| :: gks[j] in mapper && resources[j] == mapper[gks[j]]
  }

  method ResolveTypes(gks: seq<GroupKind>, mapper: Mapper)
    returns (ok: bool, resources: seq<ResourceID>, ids: map<GroupKind, nat>)
    ensures ok <==> Elements(gks) <= mapper.Keys
    ensures ok ==> Indexed(resources, ids) && ids.Keys == Elements(gks)
    ensures ok ==> Maps(mapper, gks, resources)
  {
    ok, resources, ids := true, [], map[];
    for i := 0 to |gks|
      invariant ids.Keys == Elements(gks[..i]) && Elements(gks[..i]) <= mapper.Keys
      invariant Indexed(resources, ids) && Maps(mapper, gks[..i], resources)
    {
      assert gks[..i + 1] == gks[..i] + [gks[i]];
      if gks[i] !in mapper {
        assert gks[i] in Elements(gks);
        return false, [], map[];
      }
      ids := ids[gks[i] := i];
      resources := resources + [mapper[gks[i]]];
    }
    assert gks[..|gks|] == gks;
  }

  lemma EncodeOneMore(resources: seq<ResourceID>, ids: map<GroupKind, nat>, list: seq<ObjectConnection>, k: Pair,
                      labels: set<Label>)
    requires Canonical(k.source) && Canonical(k.target) && GK(k.source) in ids && GK(k.target) in ids
    requires Indexed(resources, ids) && InRange(Response(resources, list))
    ensures var list' := list + [ObjectConnection(Point(ids, k.source), Point(ids, k.target), labels)];
            && InRange(Response(resources, list'))
            && Decode(Response(resources, list')) == Decode(Response(resources, list))[k := labels]
  {
    PointDecodes(resources, ids, k.source);
    PointDecodes(resources, ids, k.target);
    var list' := list + [ObjectConnection(Point(ids, k.source), Point(ids, k.target), labels)];
    assert list'[..|list|] == list;
  }

  lemma NothingLeft<K, V>(m: map<K, V>)
    ensures m - m.Keys == map[] && m - {} == m && |m.Keys| == |m|
  {}

  lemma OneLess<K, V>(m: map<K, V>, todo: set<K>, k: K)
    requires todo <= m.Keys && k in todo
    ensures (m - todo)[k := m[k]] == m - (todo - {k}) && |todo - {k}| == |todo| - 1
  {}

  method EncodeConnections(conns: Connections, resources: seq<ResourceID>, ids: map<GroupKind, nat>)
    returns (list: seq<ObjectConnection>)
    requires EndpointsCanonical(conns) && Indexed(resources, ids)
    requires forall k <- conns :: GK(k.source) in ids && GK(k.target) in ids
    ensures InRange(Response(resources, list)) && Decode(Response(resources, list)) == conns && |list| == |conns|
  {
    list := [];
    var todo := conns.Keys;
    NothingLeft(conns);
    while todo != {}
      invariant todo <= conns.Keys && |list| + |todo| == |conns|
      invariant InRange(Response(resources, list)) && Decode(Response(resources, list)) == conns - todo
    {
      var k :| k in todo;
      EncodeOneMore(resources, ids, list, k, conns[k]);
      OneLess(conns, todo, k);
      list := list + [ObjectConnection(Point(ids, k.source), Point(ids, k.target), conns[k])];
      todo := todo - {k};
    }
  }

  /** One resource for each of the types, the one it is mapped to. */
  ghost predicate ListsTypes(mapper: Mapper, resources: seq<ResourceID>, gks: set<GroupKind>) {
    && (set r | r in resources :: r.TypeKey()) == gks && |resources| == |gks|
    && forall r <- resources :: r.TypeKey() in mapper && r == mapper[r.TypeKey()]
  }

  /** One resource per group-kind that occurs, every id in range, and decoding the response gives
      the collected connections back, with no connection listed twice. Fails exactly when some
      endpoint's type has no mapping. */
  method Encode(conns: Connections, mapper: Mapper) returns (resp: Option<Response>)
    requires EndpointsCanonical(conns)
    ensures resp == None <==> !(EndpointGKs(conns) <= mapper.Keys)
    ensures resp.Some? ==>
      && InRange(resp.value)
      && Decode(resp.value) == conns
      && |resp.value.connections| == |conns|
      && ListsTypes(mapper, resp.value.resources, EndpointGKs(conns))
  {
    var gkSet := EndpointTypes(conns);
    var gks := Listing(gkSet);
    var ok, resources, ids := ResolveTypes(gks, mapper);
    if !ok {
      return None;
    }
    SameTypes(mapper, resources, gks);
    assert forall k <- conns :: GK(k.source) in EndpointGKs(conns) && GK(k.target) in EndpointGKs(conns);
    var list := EncodeConnections(conns, resources, ids);
    resp := Some(Response(resources, list));
  }

  lemma SameTypes(mapper: Mapper, resources: seq<ResourceID>, gks: seq<GroupKind>)
    requires Maps(mapper, gks, resources) && |gks| == |Elements(gks)|
    ensures ListsTypes(mapper, resources, Elements(gks))
  {
    forall gk | gk in gks
      ensures exists r :: r in resources && r.TypeKey() == gk
    {
      var j :| 0 <= j < |gks| && gks[j] == gk;
      assert resources[j] in resources;
    }
  }

  /** The resources are pairwise distinct: this is what matching policy violations relies on. */
  lemma TypesAreDistinct(mapper: Mapper, resources: seq<ResourceID>, gks: set<GroupKind>)
    requires ListsTypes(mapper, resources, gks)
    ensures Distinct(resources)
  {
    var keys := seq(|resources|, i requires 0 <= i < |resources| => resources[i].TypeKey());
    assert Elements(keys) == gks by {
      forall r | r in resources
        ensures r.TypeKey() in keys
      {
        var i :| 0 <= i < |resources| && resources[i] == r;
        assert keys[i] == r.TypeKey();
      }
    }
    NoneToSpareIsDistinct(keys);
    forall i, j | 0 <= i < j < |resources|
      ensures resources[i] != resources[j]
    {
      assert keys[i] != keys[j];
    }
  }

  // ---------------------------------------------------------------- the whole query

  ghost predicate GraphCanonical(e: EdgeMap) {
    forall x, l, y | y in Nbrs(e, x, l) :: Canonical(y)
  }

  lemma ComponentIsCanonical(e: EdgeMap, l: Label, skip: set<GroupKind>, seeds: set<OID>, T: set<OID>)
    requires GraphCanonical(e) && IsComponent(e, l, skip, seeds, T) && forall x <- seeds :: Canonical(x)
    ensures forall x <- T :: Canonical(x)
  {
    var U := set x | x in T && Canonical(x);
    assert seeds <= U && Closed(e, l, skip, U);
  }

  lemma ShownAreCanonical(e: EdgeMap, src: OID, component: set<OID>, wanted: seq<Label>, conns: Connections, k: Pair)
    requires GraphCanonical(e) && Canonical(src) && IsComponent(e, OFFSHOOT, {}, {src}, component)
    requires Collected(e, component, wanted, conns) && k in conns
    ensures Canonical(k.source) && Canonical(k.target)
  {
    ComponentIsCanonical(e, OFFSHOOT, {}, {src}, component);
    assert LabelsOf(conns, k) == conns[k] != {};
    var l :| l in LabelsOf(conns, k);
    assert Shows(e, component, wanted, k, l);
    if !Touches(e, OFFSHOOT, {}, component, k) {
      var reach :| IsComponent(e, l, GKs(component), component, reach) && Touches(e, l, GKs(component), reach, k);
      ComponentIsCanonical(e, l, GKs(component), component, reach);
    }
  }

  /** The component and the collected edges are determined by the graph. */
  lemma CollectedIsUnique(e: EdgeMap, component: set<OID>, wanted: seq<Label>, conns: Connections, other: Connections)
    requires Collected(e, component, wanted, conns) && Collected(e, component, wanted, other)
    ensures conns == other
  {
    forall k
      ensures LabelsOf(conns, k) == LabelsOf(other, k)
    {
      assert forall l :: l in LabelsOf(conns, k) <==> Shows(e, component, wanted, k, l);
      assert forall l :: l in LabelsOf(other, k) <==> Shows(e, component, wanted, k, l);
    }
    forall k
      ensures k in conns <==> k in other
      ensures k in conns && k in other ==> conns[k] == other[k]
    {
      assert LabelsOf(conns, k) == LabelsOf(other, k);
    }
  }

  /** conns are the edges to be shown for src. */
  ghost predicate ShownFor(e: EdgeMap, src: OID, wanted: seq<Label>, conns: Connections) {
    exists component :: IsComponent(e, OFFSHOOT, {}, {src}, component) && Collected(e, component, wanted, conns)
  }

  lemma ShownForIsUnique(e: EdgeMap, src: OID, wanted: seq<Label>, conns: Connections, other: Connections)
    requires ShownFor(e, src, wanted, conns) && ShownFor(e, src, wanted, other)
    ensures conns == other
  {
    var c :| IsComponent(e, OFFSHOOT, {}, {src}, c) && Collected(e, c, wanted, conns);
    var d :| IsComponent(e, OFFSHOOT, {}, {src}, d) && Collected(e, d, wanted, other);
    ComponentIsUnique(e, OFFSHOOT, {}, {src}, c, d);
    CollectedIsUnique(e, c, wanted, conns, other);
  }

  /** The response for an object holds exactly the edges that are to be shown for it; there is none
      exactly when one of them has an endpoint of an unmapped type. */
  method ResourceGraph(e: EdgeMap, mapper: Mapper, src: ObjectID, wanted: seq<Label>) returns (resp: Option<Response>)
    requires GraphCanonical(e) && Printable(src)
    ensures resp.Some? ==> InRange(resp.value) && ShownFor(e, src.OID(), wanted, Decode(resp.value))
    ensures resp.Some? ==> ListsTypes(mapper, resp.value.resources, EndpointGKs(Decode(resp.value)))
    ensures forall conns | ShownFor(e, src.OID(), wanted, conns) ::
      resp == None <==> !(EndpointGKs(conns) <= mapper.Keys)
  {
    KeysAreInjective(src, src);
    var component, conns := Collect(e, src.OID(), wanted);
    forall k | k in conns
      ensures Canonical(k.source) && Canonical(k.target)
    {
      ShownAreCanonical(e, src.OID(), component, wanted, conns, k);
    }
    resp := Encode(conns, mapper);
    assert ShownFor(e, src.OID(), wanted, conns);
    forall other | ShownFor(e, src.OID(), wanted, other)
      ensures other == conns
    {
      ShownForIsUnique(e, src.OID(), wanted, conns, other);
    }
  }
}
