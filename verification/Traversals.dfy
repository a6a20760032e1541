/** The worklist queries over the object graph. Both queues may hold an object several times, and
    the order in which a set of neighbours is appended is arbitrary. */
module Traversals {
  import opened ObjectIds
  import opened ObjectGraphs
  import opened Sorting

  function Nbrs(e: EdgeMap, x: OID, l: Label): set<OID> {
    if x in e && l in e[x] then e[x][l].Keys else {}
  }

  function GKs(ids: set<OID>): set<GroupKind> {
    set x | x in ids :: GK(x)
  }

  /** Every object the traversal can meet: the seeds and whatever the edge map mentions. */
  ghost function Universe(e: EdgeMap, seeds: seq<OID>, l: Label): set<OID> {
    Elements(seeds) + set x, y | x in e && y in Nbrs(e, x, l) :: y
  }

  // ---------------------------------------------------------------- queues with duplicates

  /** How many entries of the queue are already done with; with the set of what is not done yet
      this makes the measure of both worklist loops. */
  ghost function Waiting(queue: seq<OID>, done: iset<OID>): nat {
    if queue == [] then 0 else Waiting(queue[1..], done) + if queue[0] in done then 1 else 0
  }

  lemma {:induction false} WaitingAppend(a: seq<OID>, b: seq<OID>, done: iset<OID>)
    ensures Waiting(a + b, done) == Waiting(a, done) + Waiting(b, done)
  {
    if a == [] {
      assert a + b == b;
    } else {
      WaitingAppend(a[1..], b, done);
      assert (a + b)[1..] == a[1..] + b;
    }
  }

  lemma {:induction false} WaitingNone(a: seq<OID>, done: iset<OID>)
    requires forall x <- a :: x !in done
    ensures Waiting(a, done) == 0
  {
    if a != [] {
      WaitingNone(a[1..], done);
    }
  }

  /** Replacing a done head by entries that are not done shortens the waiting part. */
  lemma WaitingDrops(queue: seq<OID>, tail: seq<OID>, done: iset<OID>)
    requires queue != [] && queue[0] in done && forall y <- tail :: y !in done
    ensures Waiting(queue[1..] + tail, done) < Waiting(queue, done)
  {
    WaitingAppend(queue[1..], tail, done);
    WaitingNone(tail, done);
  }

  // ---------------------------------------------------------------- connectedOIDs

  /** A path along label edges on which a group-kind occurs at most twice, and then in
      consecutive positions. */
  ghost predicate TypedPath(e: EdgeMap, l: Label, p: seq<OID>) {
    p != [] && (forall i | 0 < i < |p| :: p[i] in Nbrs(e, p[i - 1], l)) && InPairs(p)
  }

  predicate InPairs(p: seq<OID>) {
    forall i, j | 0 <= i < j < |p| && GK(p[i]) == GK(p[j]) :: j == i + 1
  }

  ghost predicate ReachedBy(e: EdgeMap, l: Label, seeds: seq<OID>, p: seq<OID>, x: OID) {
    TypedPath(e, l, p) && p[0] in seeds && p[|p| - 1] == x
  }

  /** Each object seen so far has a typed path whose earlier group-kinds are all processed. */
  ghost predicate PathsTracked(e: EdgeMap, l: Label, seeds: seq<OID>, via: map<OID, seq<OID>>, done: set<GroupKind>) {
    forall x <- via :: ReachedBy(e, l, seeds, via[x], x) && FrontIn(via[x], done)
  }

  ghost predicate FrontIn(p: seq<OID>, done: set<GroupKind>) {
    forall k | 0 <= k < |p| - 1 :: GK(p[k]) in done
  }

  lemma ExtendPath(e: EdgeMap, l: Label, seeds: seq<OID>, p: seq<OID>, x: OID, y: OID, done: set<GroupKind>)
    requires ReachedBy(e, l, seeds, p, x) && FrontIn(p, done) && y in Nbrs(e, x, l) && GK(y) !in done
    ensures ReachedBy(e, l, seeds, p + [y], y) && FrontIn(p + [y], done + {GK(x)})
  {
    ExtendInPairs(p, y, done);
  }

  lemma ExtendInPairs(p: seq<OID>, y: OID, done: set<GroupKind>)
    requires InPairs(p) && FrontIn(p, done) && GK(y) !in done
    ensures InPairs(p + [y])
  {
    var q := p + [y];
    forall i, j | 0 <= i < j < |q| && GK(q[i]) == GK(q[j])
      ensures j == i + 1
    {
      if j < |p| {
        assert q[i] == p[i] && q[j] == p[j];
      } else if i < |p| - 1 {
        assert q[i] == p[i];
      }
    }
  }

  ghost function Track(via: map<OID, seq<OID>>, x: OID, edges: set<OID>): (r: map<OID, seq<OID>>)
    requires x in via
    ensures r.Keys == via.Keys + edges
  {
    map y | y in via.Keys + edges :: if y in edges then via[x] + [y] else via[y]
  }

  lemma TrackPaths(e: EdgeMap, l: Label, seeds: seq<OID>, via: map<OID, seq<OID>>, x: OID, edges: set<OID>,
                   done: set<GroupKind>)
    requires PathsTracked(e, l, seeds, via, done) && x in via && edges <= Nbrs(e, x, l)
    requires forall y <- edges :: GK(y) !in done
    ensures PathsTracked(e, l, seeds, Track(via, x, edges), done + {GK(x)})
  {
    forall y | y in edges
      ensures ReachedBy(e, l, seeds, via[x] + [y], y) && FrontIn(via[x] + [y], done + {GK(x)})
    {
      ExtendPath(e, l, seeds, via[x], x, y, done);
    }
  }

  /** What is known about the sets: nothing queued is lost, the first seed leads, and the
      neighbours of a processed object are covered by group-kind. */
  ghost predicate Covered(e: EdgeMap, l: Label, seeds: seq<OID>, queue: seq<OID>, processed: set<OID>,
                          result: set<OID>) {
    && result + Elements(seeds) == processed + Elements(queue)
    && (processed == {} ==> queue == seeds && result == {})
    && (processed != {} ==> seeds != [] && FirstSeedDone(e, l, seeds[0], processed, result))
    && (forall x <- processed, y <- Nbrs(e, x, l) :: GK(y) in GKs(result + Elements(seeds)))
  }

  ghost predicate FirstSeedDone(e: EdgeMap, l: Label, seed: OID, processed: set<OID>, result: set<OID>) {
    seed in processed && seed !in result && Nbrs(e, seed, l) - {seed} <= result
  }

  lemma CoverNext(e: EdgeMap, l: Label, seeds: seq<OID>, queue: seq<OID>, processed: set<OID>, result: set<OID>,
                  edges: set<OID>, tail: seq<OID>)
    requires Covered(e, l, seeds, queue, processed, result) && queue != []
    requires edges == set y | y in Nbrs(e, queue[0], l) && y !in processed + {queue[0]} && GK(y) !in GKs(processed)
    requires Elements(tail) == edges
    ensures Covered(e, l, seeds, queue[1..] + tail, processed + {queue[0]}, result + edges)
  {
    var x := queue[0];
    assert queue == [x] + queue[1..];
    assert Elements(queue) == {x} + Elements(queue[1..]);
    assert Elements(queue[1..] + tail) == Elements(queue[1..]) + edges;
    var found := result + edges + Elements(seeds);
    assert found == processed + {x} + Elements(queue[1..] + tail);
    forall z, y | z in processed + {x} && y in Nbrs(e, z, l)
      ensures GK(y) in GKs(found)
    {
      if z in processed {
        assert GK(y) in GKs(result + Elements(seeds));
      } else {
        assert y in edges || y in processed + {x} || GK(y) in GKs(processed);
      }
    }
  }

  /** For every order of iteration: each result is reached from a seed by a typed path; the first
      seed is never returned but all its other neighbours are; and no group-kind next to a visited
      object is missed, it is among the group-kinds visited. */
  method ConnectedOIDs(e: EdgeMap, seeds: seq<OID>, l: Label) returns (result: set<OID>)
    ensures forall x <- result :: exists p :: ReachedBy(e, l, seeds, p, x)
    ensures seeds != [] ==> seeds[0] !in result && Nbrs(e, seeds[0], l) - {seeds[0]} <= result
    ensures forall x <- result + Elements(seeds), y <- Nbrs(e, x, l) :: GK(y) in GKs(result + Elements(seeds))
  {
    var queue := seeds;
    var processed: set<OID> := {};
    var processedGK: set<GroupKind> := {};
    result := {};
    ghost var via: map<OID, seq<OID>> := map x | x in seeds :: [x];
    while queue != []
      invariant processedGK == GKs(processed)
      invariant PathsTracked(e, l, seeds, via, processedGK) && result <= via.Keys && Elements(seeds) <= via.Keys
      invariant Covered(e, l, seeds, queue, processed, result) && result <= Universe(e, seeds, l)
      decreases GKs(Universe(e, seeds, l)) - processedGK, Waiting(queue, OfType(processedGK))
    {
      var x := queue[0];
      HeadIsTracked(e, l, seeds, queue, processed, result);
      var edges := set y | y in Nbrs(e, x, l) && y !in processed + {x} && GK(y) !in processedGK;
      var tail := Listing(edges);
      CoverNext(e, l, seeds, queue, processed, result, edges, tail);
      TrackPaths(e, l, seeds, via, x, edges, processedGK);
      UniverseGrows(e, seeds, l, queue, processed, result, edges);
      MeasureDrops(GKs(Universe(e, seeds, l)), queue, tail, processedGK);
      GKsAdd(processed, x);
      processed := processed + {x};
      processedGK := processedGK + {GK(x)};
      result := result + edges;
      queue := queue[1..] + tail;
      via := Track(via, x, edges);
    }
    forall x | x in result
      ensures exists p :: ReachedBy(e, l, seeds, p, x)
    {
      assert ReachedBy(e, l, seeds, via[x], x);
    }
  }

  lemma HeadIsTracked(e: EdgeMap, l: Label, seeds: seq<OID>, queue: seq<OID>, processed: set<OID>, result: set<OID>)
    requires Covered(e, l, seeds, queue, processed, result) && queue != []
    ensures queue[0] in result || queue[0] in Elements(seeds)
  {
    assert queue[0] in processed + Elements(queue);
  }

  lemma UniverseGrows(e: EdgeMap, seeds: seq<OID>, l: Label, queue: seq<OID>, processed: set<OID>, result: set<OID>,
                      edges: set<OID>)
    requires Covered(e, l, seeds, queue, processed, result) && result <= Universe(e, seeds, l) && queue != []
    requires edges <= Nbrs(e, queue[0], l)
    ensures result + edges <= Universe(e, seeds, l) && GK(queue[0]) in GKs(Universe(e, seeds, l))
  {
    assert queue[0] in processed + Elements(queue);
  }

  lemma GKsAdd(ids: set<OID>, x: OID)
    ensures GKs(ids + {x}) == GKs(ids) + {GK(x)}
  {}

  ghost function OfType(gks: set<GroupKind>): iset<OID> {
    iset x: OID | GK(x) in gks
  }

  /** Taking the head either processes a new group-kind or shortens the part of the queue whose
      group-kinds are processed. */
  lemma MeasureDrops(all: set<GroupKind>, queue: seq<OID>, tail: seq<OID>, done: set<GroupKind>)
    requires queue != [] && GK(queue[0]) in all && forall y <- tail :: GK(y) !in done
    ensures if GK(queue[0]) in done
            then done + {GK(queue[0])} == done
                 && Waiting(queue[1..] + tail, OfType(done)) < Waiting(queue, OfType(done))
            else all - (done + {GK(queue[0])}) < all - done
  {
    if GK(queue[0]) in done {
      WaitingDrops(queue, tail, OfType(done));
    } else {
      assert GK(queue[0]) in all - done;
    }
  }

  lemma GKsOfPrefix(p: seq<OID>, k: nat, gk: GroupKind)
    requires k < |p| && forall i | k <= i < |p| :: GK(p[i]) == gk
    ensures GKs(Elements(p)) == GKs(Elements(p[..k])) + {gk}
  {
    forall x | x in p
      ensures x in Elements(p[..k]) || GK(x) == gk
    {
      var i :| 0 <= i < |p| && p[i] == x;
      assert i < k ==> p[..k][i] == x;
    }
    assert p[k] in Elements(p);
  }

  lemma LastKindIsNew(p: seq<OID>, k: nat)
    requires InPairs(p) && p != [] && k < |p| && (k == |p| - 1 ==> k == 0 || GK(p[k - 1]) != GK(p[k]))
    requires k >= |p| - 2 && GK(p[k]) == GK(p[|p| - 1])
    ensures GK(p[k]) !in GKs(Elements(p[..k])) && InPairs(p[..k])
  {
    forall i | 0 <= i < k
      ensures GK(p[i]) != GK(p[k])
    {
      if k == |p| - 2 {
        assert InPairs(p) && i + 1 != |p| - 1;
      }
    }
  }

  lemma {:induction false} InPairsIsShort(p: seq<OID>)
    requires InPairs(p) && p != []
    ensures |p| <= 2 * |GKs(Elements(p))|
    decreases |p|
  {
    var last := |p| - 1;
    var k := if last > 0 && GK(p[last - 1]) == GK(p[last]) then last - 1 else last;
    GKsOfPrefix(p, k, GK(p[k]));
    LastKindIsNew(p, k);
    if k > 0 {
      InPairsIsShort(p[..k]);
    }
  }

  /** A typed path is at most twice as long as there are group-kinds on it. */
  lemma TypedPathIsShort(e: EdgeMap, l: Label, p: seq<OID>)
    requires TypedPath(e, l, p)
    ensures |p| <= 2 * |GKs(Elements(p))|
  {
    InPairsIsShort(p);
  }

  // ---------------------------------------------------------------- Links

  const OFFSHOOT: Label := "offshoot"

  predicate Direct(l: Label) {
    l == OFFSHOOT || l == "view" || l == "ops" || l == "recommended_for"
  }

  ghost function InGroup(links: set<OID>, gk: GroupKind): set<OID> {
    set x | x in links && GK(x) == gk
  }

  /** The listed links, grouped: each id is under its own group-kind, once, and no group is empty. */
  ghost predicate Grouped(groups: map<GroupKind, seq<OID>>, links: set<OID>) {
    && (forall gk <- groups :: groups[gk] != [] && ListsGroup(groups[gk], links, gk))
    && (forall x <- links :: GK(x) in groups)
  }

  /** Everything that is listed. */
  function Ids(groups: map<GroupKind, seq<OID>>): set<OID> {
    set gk, x | gk in groups && x in groups[gk] :: x
  }

  lemma GroupedLists(groups: map<GroupKind, seq<OID>>, links: set<OID>)
    requires Grouped(groups, links)
    ensures Ids(groups) == links
  {
    forall x
      ensures x in Ids(groups) <==> x in links
    {
      if x in links {
        assert x in InGroup(links, GK(x)) && x in Elements(groups[GK(x)]);
      }
      if gk :| gk in groups && x in groups[gk] {
        assert x in Elements(groups[gk]);
      }
    }
  }

  ghost predicate ListsGroup(list: seq<OID>, links: set<OID>, gk: GroupKind) {
    Elements(list) == InGroup(links, gk) && |list| == |InGroup(links, gk)|
  }

  /** x is found from src: along the label from src itself or from one of its offshoots. */
  ghost predicate FoundFrom(e: EdgeMap, src: OID, l: Label, x: OID) {
    exists seed, p :: ReachedBy(e, l, [seed], p, x) && (seed == src || IsOffshoot(e, src, seed))
  }

  ghost predicate IsOffshoot(e: EdgeMap, src: OID, x: OID) {
    exists p :: ReachedBy(e, OFFSHOOT, [src], p, x)
  }

  /** The ids found from src and further seeds, grouped by type. */
  method LinksFrom(e: EdgeMap, src: OID, seeds: seq<OID>, l: Label) returns (groups: map<GroupKind, seq<OID>>)
    ensures Grouped(groups, Ids(groups)) && src !in Ids(groups) && Nbrs(e, src, l) - {src} <= Ids(groups)
    ensures forall x <- Ids(groups) :: exists p :: ReachedBy(e, l, [src] + seeds, p, x)
    ensures MissesNoType(e, l, Ids(groups) + {src} + Elements(seeds))
  {
    var found := ConnectedOIDs(e, [src] + seeds, l);
    assert found + Elements([src] + seeds) == found - {src} + {src} + Elements(seeds);
    found := found - {src};
    groups := GroupByType(found);
  }

  /** Every group-kind that occurs next to one of these objects occurs among them. */
  ghost predicate MissesNoType(e: EdgeMap, l: Label, ids: set<OID>) {
    forall x <- ids, y <- Nbrs(e, x, l) :: GK(y) in GKs(ids)
  }

  /** What the search used besides src: offshoots of it, all direct ones among them, that miss no type of
      offshoots. */
  ghost predicate AreOffshoots(e: EdgeMap, src: OID, seeds: set<OID>) {
    && (forall x <- seeds :: IsOffshoot(e, src, x))
    && Nbrs(e, src, OFFSHOOT) - {src} <= seeds && MissesNoType(e, OFFSHOOT, {src} + seeds)
  }

  method GroupByType(links: set<OID>) returns (groups: map<GroupKind, seq<OID>>)
    ensures Grouped(groups, links) && Ids(groups) == links
  {
    groups := map[];
    var rest := links;
    while rest != {}
      invariant rest <= links && Grouped(groups, links - rest)
    {
      var v :| v in rest;
      var gk := GK(v);
      ghost var before, seen := groups, links - rest;
      groups := groups[gk := (if gk in groups then groups[gk] else []) + [v]];
      rest := rest - {v};
      GroupOne(before, seen, v);
      assert links - rest == seen + {v};
    }
    assert links - {} == links;
    GroupedLists(groups, links);
  }

  lemma GroupOne(groups: map<GroupKind, seq<OID>>, links: set<OID>, v: OID)
    requires Grouped(groups, links) && v !in links
    ensures Grouped(groups[GK(v) := (if GK(v) in groups then groups[GK(v)] else []) + [v]], links + {v})
  {
    var list := if GK(v) in groups then groups[GK(v)] else [];
    assert ListsGroup(list, links, GK(v)) by {
      if GK(v) !in groups {
        assert InGroup(links, GK(v)) == {};
      }
    }
    AppendToGroup(list, links, v);
    forall gk | gk != GK(v)
      ensures InGroup(links + {v}, gk) == InGroup(links, gk)
    {}
  }

  lemma AppendToGroup(list: seq<OID>, links: set<OID>, v: OID)
    requires ListsGroup(list, links, GK(v)) && v !in links
    ensures ListsGroup(list + [v], links + {v}, GK(v))
  {
    assert Elements(list + [v]) == Elements(list) + {v};
    assert InGroup(links + {v}, GK(v)) == InGroup(links, GK(v)) + {v};
  }

  lemma OffshootsLead(e: EdgeMap, src: OID, seeds: seq<OID>, l: Label, x: OID)
    requires exists p :: ReachedBy(e, l, [src] + seeds, p, x)
    requires forall seed <- seeds :: IsOffshoot(e, src, seed)
    ensures FoundFrom(e, src, l, x)
  {
    var p :| ReachedBy(e, l, [src] + seeds, p, x);
    assert ReachedBy(e, l, [p[0]], p, x);
  }

  /** The links of an object under a label, grouped by type. For a direct label only src is a
      seed, otherwise its offshoots are seeds too. Whatever the order, no type is missed that
      occurs next to src, an offshoot used or a link listed. */
  method Links(e: EdgeMap, src: OID, l: Label) returns (groups: map<GroupKind, seq<OID>>)
    ensures Grouped(groups, Ids(groups)) && src !in Ids(groups) && Nbrs(e, src, l) - {src} <= Ids(groups)
    ensures forall x <- Ids(groups) :: FoundFrom(e, src, l, x)
    ensures Direct(l) ==> forall x <- Ids(groups) :: exists p :: ReachedBy(e, l, [src], p, x)
    ensures Direct(l) ==> MissesNoType(e, l, Ids(groups) + {src})
    ensures !Direct(l) ==> exists seeds ::
      AreOffshoots(e, src, seeds) && MissesNoType(e, l, Ids(groups) + {src} + seeds)
  {
    if Direct(l) {
      groups := LinksFrom(e, src, [], l);
      assert [src] + [] == [src];
      assert Ids(groups) + {src} + Elements([]) == Ids(groups) + {src};
      return;
    }
    var seeds := OffshootsOf(e, src);
    groups := LinksFrom(e, src, seeds, l);
    FoundFromOffshoots(e, src, seeds, l, Ids(groups));
  }

  method OffshootsOf(e: EdgeMap, src: OID) returns (seeds: seq<OID>)
    ensures AreOffshoots(e, src, Elements(seeds))
  {
    var offshoots := ConnectedOIDs(e, [src], OFFSHOOT);
    assert offshoots + Elements([src]) == {src} + (offshoots - {src});
    offshoots := offshoots - {src};
    seeds := Listing(offshoots);
  }

  lemma FoundFromOffshoots(e: EdgeMap, src: OID, seeds: seq<OID>, l: Label, ids: set<OID>)
    requires AreOffshoots(e, src, Elements(seeds))
    requires forall x <- ids :: exists p :: ReachedBy(e, l, [src] + seeds, p, x)
    ensures forall x <- ids :: FoundFrom(e, src, l, x)
  {
    forall seed | seed in seeds
      ensures IsOffshoot(e, src, seed)
    {
      assert seed in Elements(seeds);
    }
    forall x | x in ids
      ensures FoundFrom(e, src, l, x)
    {
      OffshootsLead(e, src, seeds, l, x);
    }
  }

  // ---------------------------------------------------------------- connectedEdges

  datatype Pair = Pair(source: OID, target: OID)

  type Connections = map<Pair, set<Label>>

  /** The unordered pair {x, y}, written with the smaller key first. */
  function Norm(x: OID, y: OID): Pair {
    if Less(x, y) then Pair(x, y) else Pair(y, x)
  }

  lemma NormIsUnordered(x: OID, y: OID, u: OID, v: OID)
    ensures Norm(x, y) == Norm(u, v) <==> (x == u && y == v) || (x == v && y == u)
  {
    LessIsTotal(x, y);
    LessIsTotal(u, v);
  }

  predicate Allowed(skip: set<GroupKind>, y: OID) {
    skip == {} || GK(y) !in skip
  }

  /** T is closed under label edges into group-kinds that are not skipped. */
  ghost predicate Closed(e: EdgeMap, l: Label, skip: set<GroupKind>, T: set<OID>) {
    forall x <- T, y <- Nbrs(e, x, l) :: Allowed(skip, y) ==> y in T
  }

  /** The least closed set that contains the seeds. */
  ghost predicate IsComponent(e: EdgeMap, l: Label, skip: set<GroupKind>, seeds: set<OID>, T: set<OID>) {
    && seeds <= T
    && Closed(e, l, skip, T)
    && forall U: set<OID> :: seeds <= U && Closed(e, l, skip, U) ==> T <= U
  }

  /** There is one: the objects that are in every closed set. */
  lemma ComponentExists(e: EdgeMap, l: Label, skip: set<GroupKind>, seeds: set<OID>) returns (T: set<OID>)
    ensures IsComponent(e, l, skip, seeds, T)
  {
    var all := seeds + set x, y | x in e && y in Nbrs(e, x, l) :: y;
    T := set x | x in all && forall U: set<OID> :: seeds <= U && Closed(e, l, skip, U) ==> x in U;
    forall x, y | x in T && y in Nbrs(e, x, l) && Allowed(skip, y)
      ensures y in T
    {
      assert y in all;
      forall U: set<OID> | seeds <= U && Closed(e, l, skip, U)
        ensures y in U
      {
        assert x in U;
      }
    }
  }

  /** k is the pair of some member of T and an allowed neighbour of it. */
  ghost predicate Touches(e: EdgeMap, l: Label, skip: set<GroupKind>, T: set<OID>, k: Pair) {
    exists x, y :: x in T && y in Nbrs(e, x, l) && Allowed(skip, y) && k == Norm(x, y)
  }

  ghost function LabelsOf(conns: Connections, k: Pair): set<Label> {
    if k in conns then conns[k] else {}
  }

  /** conns' is conns with the label added at exactly the pairs that T touches. */
  ghost predicate Labelled(e: EdgeMap, l: Label, skip: set<GroupKind>, T: set<OID>, conns: Connections,
                           conns': Connections) {
    forall k: Pair ::
      && (k in conns' <==> k in conns || Touches(e, l, skip, T, k))
      && LabelsOf(conns', k) == LabelsOf(conns, k) + (if Touches(e, l, skip, T, k) then {l} else {})
  }

  function AddLabel(conns: Connections, k: Pair, l: Label): Connections {
    conns[k := (if k in conns then conns[k] else {}) + {l}]
  }

  ghost predicate TouchesFrom(x: OID, ys: set<OID>, skip: set<GroupKind>, k: Pair) {
    exists y :: y in ys && Allowed(skip, y) && k == Norm(x, y)
  }

  ghost predicate LabelledFrom(x: OID, ys: set<OID>, skip: set<GroupKind>, l: Label, conns: Connections,
                               conns': Connections) {
    forall k: Pair ::
      && (k in conns' <==> k in conns || TouchesFrom(x, ys, skip, k))
      && LabelsOf(conns', k) == LabelsOf(conns, k) + (if TouchesFrom(x, ys, skip, k) then {l} else {})
  }

  lemma TouchesOneMore(x: OID, ys: set<OID>, skip: set<GroupKind>, y: OID, k: Pair)
    ensures TouchesFrom(x, ys + {y}, skip, k) <==> TouchesFrom(x, ys, skip, k) || (Allowed(skip, y) && k == Norm(x, y))
  {
    if Allowed(skip, y) && k == Norm(x, y) {
      assert y in ys + {y};
    }
  }

  lemma AddLabelAt(conns: Connections, at: Pair, l: Label, k: Pair)
    ensures k in AddLabel(conns, at, l) <==> k in conns || k == at
    ensures LabelsOf(AddLabel(conns, at, l), k) == LabelsOf(conns, k) + if k == at then {l} else {}
  {}

  lemma LabelOneMore(x: OID, ys: set<OID>, skip: set<GroupKind>, l: Label, c0: Connections, c1: Connections, y: OID)
    requires LabelledFrom(x, ys, skip, l, c0, c1)
    ensures LabelledFrom(x, ys + {y}, skip, l, c0, if Allowed(skip, y) then AddLabel(c1, Norm(x, y), l) else c1)
  {
    var c2 := if Allowed(skip, y) then AddLabel(c1, Norm(x, y), l) else c1;
    forall k: Pair
      ensures k in c2 <==> k in c0 || TouchesFrom(x, ys + {y}, skip, k)
      ensures LabelsOf(c2, k) == LabelsOf(c0, k) + (if TouchesFrom(x, ys + {y}, skip, k) then {l} else {})
    {
      TouchesOneMore(x, ys, skip, y, k);
      AddLabelAt(c1, Norm(x, y), l, k);
    }
  }

  function Unseen(ys: set<OID>, skip: set<GroupKind>, processed: set<OID>): set<OID> {
    set y | y in ys && Allowed(skip, y) && y !in processed
  }

  lemma UnseenOneMore(ys: set<OID>, skip: set<GroupKind>, processed: set<OID>, tail: seq<OID>, y: OID)
    requires Elements(tail) == Unseen(ys, skip, processed)
    ensures Elements(if Allowed(skip, y) && y !in processed then tail + [y] else tail) ==
      Unseen(ys + {y}, skip, processed)
  {
    assert Elements(tail + [y]) == Elements(tail) + {y};
  }

  /** The inner loop: label the pairs of x with its allowed neighbours, and queue those that are
      not processed. */
  method LabelEdges(e: EdgeMap, x: OID, l: Label, skip: set<GroupKind>, processed: set<OID>, conns: Connections)
    returns (conns': Connections, tail: seq<OID>)
    ensures Labelled(e, l, skip, {x}, conns, conns')
    ensures Elements(tail) == Unseen(Nbrs(e, x, l), skip, processed)
  {
    conns', tail := conns, [];
    ghost var done: set<OID> := {};
    var rest := Nbrs(e, x, l);
    while rest != {}
      invariant done + rest == Nbrs(e, x, l)
      invariant Elements(tail) == Unseen(done, skip, processed)
      invariant LabelledFrom(x, done, skip, l, conns, conns')
    {
      var y :| y in rest;
      LabelOneMore(x, done, skip, l, conns, conns', y);
      UnseenOneMore(done, skip, processed, tail, y);
      if Allowed(skip, y) {
        conns' := AddLabel(conns', Norm(x, y), l);
        if y !in processed {
          tail := tail + [y];
        }
      }
      done, rest := done + {y}, rest - {y};
    }
    assert done == Nbrs(e, x, l);
    forall k: Pair
      ensures Touches(e, l, skip, {x}, k) <==> TouchesFrom(x, done, skip, k)
    {}
  }

  /** What the outer loop knows: what is processed or queued is in every closed set that contains
      the seeds, and nothing next to a processed object is lost. */
  ghost predicate Exploring(e: EdgeMap, l: Label, skip: set<GroupKind>, seeds: set<OID>, processed: set<OID>,
                            queue: seq<OID>) {
    && seeds <= processed + Elements(queue)
    && (forall x <- processed, y <- Nbrs(e, x, l) :: Allowed(skip, y) ==> y in processed + Elements(queue))
    && (forall U: set<OID> :: seeds <= U && Closed(e, l, skip, U) ==> processed + Elements(queue) <= U)
  }

  lemma ExploreNext(e: EdgeMap, l: Label, skip: set<GroupKind>, seeds: set<OID>, processed: set<OID>, queue: seq<OID>,
                    tail: seq<OID>)
    requires Exploring(e, l, skip, seeds, processed, queue) && queue != []
    requires Elements(tail) == Unseen(Nbrs(e, queue[0], l), skip, processed + {queue[0]})
    ensures Exploring(e, l, skip, seeds, processed + {queue[0]}, queue[1..] + tail)
  {
    var x := queue[0];
    assert queue == [x] + queue[1..];
    assert processed + {x} + Elements(queue[1..] + tail) == processed + Elements(queue) + Elements(tail);
  }

  lemma LabelledNext(e: EdgeMap, l: Label, skip: set<GroupKind>, T: set<OID>, x: OID, c0: Connections,
                     c1: Connections, c2: Connections)
    requires Labelled(e, l, skip, T, c0, c1) && Labelled(e, l, skip, {x}, c1, c2)
    ensures Labelled(e, l, skip, T + {x}, c0, c2)
  {
    forall k: Pair
      ensures Touches(e, l, skip, T + {x}, k) <==> Touches(e, l, skip, T, k) || Touches(e, l, skip, {x}, k)
    {}
  }

  /** Returns the component of the seeds, and adds the label to exactly the pairs of a member and
      an allowed neighbour. */
  method ConnectedEdges(e: EdgeMap, seeds: seq<OID>, l: Label, skip: set<GroupKind>, conns: Connections)
    returns (processed: set<OID>, conns': Connections)
    ensures IsComponent(e, l, skip, Elements(seeds), processed)
    ensures Labelled(e, l, skip, processed, conns, conns')
  {
    processed, conns' := {}, conns;
    var queue := seeds;
    ghost var all := Universe(e, seeds, l);
    UniverseIsClosed(e, seeds, l, skip);
    while queue != []
      invariant Exploring(e, l, skip, Elements(seeds), processed, queue)
      invariant Labelled(e, l, skip, processed, conns, conns')
      decreases all - processed, Waiting(queue, Iset(processed))
    {
      var x := queue[0];
      assert x in processed + Elements(queue);
      ghost var before := conns';
      var tail;
      conns', tail := LabelEdges(e, x, l, skip, processed + {x}, conns');
      ExploreNext(e, l, skip, Elements(seeds), processed, queue, tail);
      LabelledNext(e, l, skip, processed, x, conns, before, conns');
      if x in processed {
        assert forall y <- tail :: y in Elements(tail);
        WaitingDrops(queue, tail, Iset(processed));
        assert processed + {x} == processed;
      } else {
        assert x in all - processed;
      }
      processed := processed + {x};
      queue := queue[1..] + tail;
    }
    assert processed + Elements([]) == processed;
  }

  ghost function Iset<T>(s: set<T>): iset<T> {
    iset x | x in s
  }

  lemma UniverseIsClosed(e: EdgeMap, seeds: seq<OID>, l: Label, skip: set<GroupKind>)
    ensures Elements(seeds) <= Universe(e, seeds, l) && Closed(e, l, skip, Universe(e, seeds, l))
  {}
}
