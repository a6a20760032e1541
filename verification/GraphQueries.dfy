/** What queries see of a graph that reconciles have built: its links, hence only the last claims. */
module GraphQueries {
  import opened ObjectIds
  import opened ObjectGraphs
  import opened GraphReconciler
  import opened Traversals
  import opened ResourceGraphs

  /** e and its claims are where a run of operations ends. */
  ghost predicate BuiltBy(ops: seq<Op>, e: EdgeMap, ids: map<OID, Conns>) {
    Mirrored(e) && ViewOf(e, ids) == Run(ops)
  }

  lemma NeighboursAreLinks(e: EdgeMap, ids: map<OID, Conns>, x: OID, l: Label, y: OID)
    requires Mirrored(e)
    ensures y in Nbrs(e, x, l) <==> Linked(ViewOf(e, ids), x, l, y)
  {
    if x != y {
      assert MarkAt(e, y, l, x) == Mirror(MarkAt(e, x, l, y));
    }
  }

  ghost predicate SameNeighbours(e: EdgeMap, e': EdgeMap) {
    forall x, l :: Nbrs(e, x, l) == Nbrs(e', x, l)
  }

  lemma SameComponents(e: EdgeMap, e': EdgeMap, l: Label, skip: set<GroupKind>, seeds: set<OID>, T: set<OID>)
    requires SameNeighbours(e, e') && IsComponent(e, l, skip, seeds, T)
    ensures IsComponent(e', l, skip, seeds, T)
  {
    forall U: set<OID>
      ensures Closed(e, l, skip, U) <==> Closed(e', l, skip, U)
    {}
  }

  lemma SameTouches(e: EdgeMap, e': EdgeMap, l: Label, skip: set<GroupKind>, T: set<OID>, k: Pair)
    requires SameNeighbours(e, e') && Touches(e, l, skip, T, k)
    ensures Touches(e', l, skip, T, k)
  {
    var x, y :| x in T && y in Nbrs(e, x, l) && Allowed(skip, y) && k == Norm(x, y);
    assert y in Nbrs(e', x, l);
  }

  lemma SameShows(e: EdgeMap, e': EdgeMap, component: set<OID>, wanted: seq<Label>, k: Pair, l: Label)
    requires SameNeighbours(e, e') && Shows(e, component, wanted, k, l)
    ensures Shows(e', component, wanted, k, l)
  {
    if l == OFFSHOOT && Touches(e, OFFSHOOT, {}, component, k) {
      SameTouches(e, e', OFFSHOOT, {}, component, k);
    } else {
      var reach :| IsComponent(e, l, GKs(component), component, reach) && Touches(e, l, GKs(component), reach, k);
      SameComponents(e, e', l, GKs(component), component, reach);
      SameTouches(e, e', l, GKs(component), reach, k);
    }
  }

  lemma SameShownFor(e: EdgeMap, e': EdgeMap, src: OID, wanted: seq<Label>, conns: Connections)
    requires SameNeighbours(e, e') && ShownFor(e, src, wanted, conns)
    ensures ShownFor(e', src, wanted, conns)
  {
    var component :| IsComponent(e, OFFSHOOT, {}, {src}, component) && Collected(e, component, wanted, conns);
    SameComponents(e, e', OFFSHOOT, {}, {src}, component);
    forall k, l
      ensures Shows(e, component, wanted, k, l) <==> Shows(e', component, wanted, k, l)
    {
      if Shows(e, component, wanted, k, l) {
        SameShows(e, e', component, wanted, k, l);
      }
      if Shows(e', component, wanted, k, l) {
        SameShows(e', e, component, wanted, k, l);
      }
    }
  }

  /** Runs that keep links and claims together and end with the same claims answer every resource-graph
      query alike, in whatever order the objects were reconciled. */
  lemma RunsAnswerAlike(ops: seq<Op>, ops': seq<Op>, e: EdgeMap, ids: map<OID, Conns>, e': EdgeMap,
                        ids': map<OID, Conns>, src: OID, wanted: seq<Label>, conns: Connections)
    requires CleanRun(ops) && CleanRun(ops') && forall a :: LastClaims(ops, a) == LastClaims(ops', a)
    requires BuiltBy(ops, e, ids) && BuiltBy(ops', e', ids')
    ensures SameNeighbours(e, e')
    ensures ShownFor(e, src, wanted, conns) <==> ShownFor(e', src, wanted, conns)
  {
    Confluence(ops, ops');
    forall x, l
      ensures Nbrs(e, x, l) == Nbrs(e', x, l)
    {
      forall y
        ensures y in Nbrs(e, x, l) <==> y in Nbrs(e', x, l)
      {
        NeighboursAreLinks(e, ids, x, l, y);
        NeighboursAreLinks(e', ids', x, l, y);
      }
    }
    if ShownFor(e, src, wanted, conns) {
      SameShownFor(e, e', src, wanted, conns);
    }
    if ShownFor(e', src, wanted, conns) {
      SameShownFor(e', e, src, wanted, conns);
    }
  }

  // ---------------------------------------------------------------- keys that parse

  ghost predicate CanonicalOp(op: Op) {
    op.Update? ==> Canonical(op.src) && forall l, b :: Wants(op.conns, l, b) ==> Canonical(b)
  }

  lemma {:induction false} LinksAreCanonical(ops: seq<Op>, a: OID, l: Label, b: OID)
    requires (forall op <- ops :: CanonicalOp(op)) && Linked(Run(ops), a, l, b)
    ensures Canonical(a) && Canonical(b)
  {
    var init, op := ops[..|ops| - 1], ops[|ops| - 1];
    assert CanonicalOp(op);
    if Linked(Run(init), a, l, b) {
      LinksAreCanonical(init, a, l, b);
    }
  }

  /** If all objects and claims are given by keys that parse, as printed ids are, so are all neighbours:
      the query for an object can parse what it meets. */
  lemma RunsAreCanonical(ops: seq<Op>, e: EdgeMap, ids: map<OID, Conns>)
    requires (forall op <- ops :: CanonicalOp(op)) && BuiltBy(ops, e, ids)
    ensures GraphCanonical(e)
  {
    forall x, l, y | y in Nbrs(e, x, l)
      ensures Canonical(y)
    {
      NeighboursAreLinks(e, ids, x, l, y);
      LinksAreCanonical(ops, x, l, y);
    }
  }
}
