/** The object graph. Every link is stored at both ends, and the stored flag says which end
    claims it. The class keeps the nested maps; `Rel` is what they mean, and the lemmas about
    runs of reconciles are stated on it. */
module ObjectGraphs {
  import opened ObjectIds

  type Label = string
  type EdgeMap = map<OID, map<Label, map<OID, bool>>>
  type Conns = map<Label, set<OID>>

  datatype Triple = Triple(src: OID, lbl: Label, dst: OID)

  /** What the nested maps hold at one position. */
  datatype Mark = Absent | Held | Own

  ghost function MarkAt(e: EdgeMap, a: OID, l: Label, b: OID): Mark {
    if a in e && l in e[a] && b in e[a][l] then (if e[a][l][b] then Own else Held) else Absent
  }

  ghost predicate Wants(conns: Conns, l: Label, b: OID) {
    l in conns && b in conns[l]
  }

  ghost predicate Claimed(ids: map<OID, Conns>, a: OID, l: Label, b: OID) {
    a in ids && Wants(ids[a], l, b)
  }

  // ---------------------------------------------------------------- meaning of the graph

  /** The links as a relation: who owns a link between distinct objects, which objects carry a
      link to themselves, and the raw claims. */
  datatype Rel = Rel(owned: iset<Triple>, loops: iset<Triple>, ids: map<OID, Conns>)

  ghost function EmptyRel(): Rel {
    Rel(iset{}, iset{}, map[])
  }

  ghost predicate Linked(r: Rel, a: OID, l: Label, b: OID) {
    Triple(a, l, b) in r.owned || Triple(b, l, a) in r.owned || Triple(a, l, b) in r.loops
  }

  /** What every reachable relation satisfies: a link has one owner, self-links are kept apart,
      and an owner still claims what it owns. */
  ghost predicate RelInv(r: Rel) {
    && (forall t <- r.owned :: t.src != t.dst && Triple(t.dst, t.lbl, t.src) !in r.owned)
    && (forall t <- r.owned :: Claimed(r.ids, t.src, t.lbl, t.dst))
    && (forall t <- r.loops :: t.src == t.dst)
  }

  ghost function UpdateIds(ids: map<OID, Conns>, src: OID, conns: Conns): map<OID, Conns> {
    if conns == map[] then ids - {src} else ids[src := conns]
  }

  /** Updating src gives up what src owned, takes over the links it now claims that were owned
      from the other end, and adds the rest of its claims. Self-links are only ever added. */
  ghost function UpdateRel(r: Rel, src: OID, conns: Conns): Rel {
    Rel((iset t: Triple |
           if t.src == src then t.dst != src && Wants(conns, t.lbl, t.dst)
           else t in r.owned && !(t.dst == src && Wants(conns, t.lbl, t.src))),
        (iset t: Triple | t in r.loops || (t.src == t.dst == src && Wants(conns, t.lbl, src))),
        UpdateIds(r.ids, src, conns))
  }

  /** Deleting src drops every link that touches it, and its own claims only. */
  ghost function DeleteRel(r: Rel, src: OID): Rel {
    Rel((iset t <- r.owned | t.src != src && t.dst != src),
        (iset t <- r.loops | t.src != src),
        r.ids - {src})
  }

  // ---------------------------------------------------------------- representation

  ghost function Mirror(m: Mark): Mark {
    match m case Absent => Absent case Held => Own case Own => Held
  }

  /** Both ends of a link are stored, exactly one end of a proper link is flagged true, and a
      self-link is flagged false. */
  ghost predicate Mirrored(e: EdgeMap) {
    && (forall a, l, b :: a != b ==> MarkAt(e, b, l, a) == Mirror(MarkAt(e, a, l, b)))
    && (forall a, l :: MarkAt(e, a, l, a) != Own)
  }

  /** A true flag is backed by a current claim. */
  ghost predicate Backed(e: EdgeMap, ids: map<OID, Conns>) {
    forall a, l, b :: MarkAt(e, a, l, b) == Own ==> Claimed(ids, a, l, b)
  }

  ghost function ViewOf(e: EdgeMap, ids: map<OID, Conns>): Rel {
    Rel((iset t: Triple | MarkAt(e, t.src, t.lbl, t.dst) == Own),
        (iset t: Triple | t.src == t.dst && MarkAt(e, t.src, t.lbl, t.dst) == Held),
        ids)
  }

  /** The entries the first loop of Update removes. */
  ghost predicate Dropped(e: EdgeMap, src: OID, a: OID, l: Label, b: OID) {
    (a == src && MarkAt(e, src, l, b) == Own) || (b == src && MarkAt(e, src, l, a) == Own)
  }

  /** The entries after the second loop of Update; for a claim on oneself the second store wins. */
  ghost function MarkWithClaims(e: EdgeMap, src: OID, conns: Conns, a: OID, l: Label, b: OID): Mark {
    if b == src && Wants(conns, l, a) then Held
    else if a == src && Wants(conns, l, b) then Own
    else MarkAt(e, a, l, b)
  }

  ghost predicate UpdatedEntries(e: EdgeMap, mid: EdgeMap, e': EdgeMap, src: OID, conns: Conns) {
    && (forall a, l, b :: (MarkAt(mid, a, l, b) == if Dropped(e, src, a, l, b) then Absent else MarkAt(e, a, l, b)))
    && (forall a, l, b :: MarkAt(e', a, l, b) == MarkWithClaims(mid, src, conns, a, l, b))
  }

  lemma UpdateKeepsMirrors(e: EdgeMap, mid: EdgeMap, e': EdgeMap, ids: map<OID, Conns>, src: OID, conns: Conns)
    requires Mirrored(e) && Backed(e, ids) && UpdatedEntries(e, mid, e', src, conns)
    ensures Mirrored(e') && Backed(e', UpdateIds(ids, src, conns))
  {
    forall a, l, b | a != b
      ensures MarkAt(e', b, l, a) == Mirror(MarkAt(e', a, l, b))
    {
      assert MarkAt(e, b, l, a) == Mirror(MarkAt(e, a, l, b));
    }
  }

  /** The entry-by-entry effect of Update is UpdateRel on the relation. */
  lemma UpdateMeaning(e: EdgeMap, mid: EdgeMap, e': EdgeMap, ids: map<OID, Conns>, src: OID, conns: Conns)
    requires Mirrored(e) && Backed(e, ids) && UpdatedEntries(e, mid, e', src, conns)
    ensures Mirrored(e') && Backed(e', UpdateIds(ids, src, conns))
    ensures ViewOf(e', UpdateIds(ids, src, conns)) == UpdateRel(ViewOf(e, ids), src, conns)
  {
    UpdateKeepsMirrors(e, mid, e', ids, src, conns);
    var got, spec := ViewOf(e', UpdateIds(ids, src, conns)), UpdateRel(ViewOf(e, ids), src, conns);
    forall t: Triple
      ensures t in got.owned <==> t in spec.owned
    {
      assert t.src != t.dst ==> MarkAt(e, t.dst, t.lbl, t.src) == Mirror(MarkAt(e, t.src, t.lbl, t.dst));
    }
    assert got.owned == spec.owned;
    assert got.loops == spec.loops;
  }

  /** The entry-by-entry effect of Delete is DeleteRel on the relation. */
  lemma DeleteMeaning(e: EdgeMap, e': EdgeMap, ids: map<OID, Conns>, src: OID)
    requires Mirrored(e) && Backed(e, ids)
    requires forall a, l, b :: (MarkAt(e', a, l, b) == if a == src || b == src then Absent else MarkAt(e, a, l, b))
    ensures Mirrored(e') && Backed(e', ids - {src})
    ensures ViewOf(e', ids - {src}) == DeleteRel(ViewOf(e, ids), src)
  {
    forall a, l, b | a != b
      ensures MarkAt(e', b, l, a) == Mirror(MarkAt(e', a, l, b))
    {
      assert MarkAt(e, b, l, a) == Mirror(MarkAt(e, a, l, b));
    }
    var got, spec := ViewOf(e', ids - {src}), DeleteRel(ViewOf(e, ids), src);
    assert got.owned == spec.owned;
    assert got.loops == spec.loops;
  }

  // ---------------------------------------------------------------- the mutable graph

  class ObjectGraph {
    var Edges: EdgeMap
    var IDs: map<OID, Conns>

    ghost predicate Valid()
      reads this
    {
      Mirrored(Edges) && Backed(Edges, IDs)
    }

    ghost function View(): Rel
      reads this
    {
      ViewOf(Edges, IDs)
    }

    constructor ()
      ensures Valid() && View() == EmptyRel()
    {
      Edges, IDs := map[], map[];
      new;
      assert View().owned == iset{} && View().loops == iset{};
    }

    method SetEdge(src: OID, to: OID, lbl: Label, self: bool)
      modifies this`Edges
      ensures forall a, l, b ::
        (MarkAt(Edges, a, l, b) ==
         if a == src && l == lbl && b == to then (if self then Own else Held) else MarkAt(old(Edges), a, l, b))
    {
      if src !in Edges {
        Edges := Edges[src := map[]];
      }
      if lbl !in Edges[src] {
        Edges := Edges[src := Edges[src][lbl := map[]]];
      }
      Edges := Edges[src := Edges[src][lbl := Edges[src][lbl][to := self]]];
    }

    method DelEdge(src: OID, to: OID, lbl: Label)
      modifies this`Edges
      ensures forall a, l, b ::
        (MarkAt(Edges, a, l, b) ==
         if a == src && l == lbl && b == to then Absent else MarkAt(old(Edges), a, l, b))
      ensures forall a :: a in old(Edges) ==> a in Edges && Edges[a].Keys == old(Edges)[a].Keys
    {
      if src !in Edges {
        return;
      }
      if lbl !in Edges[src] {
        return;
      }
      Edges := Edges[src := Edges[src][lbl := Edges[src][lbl] - {to}]];
    }

    /** The first loop of Update, for one label: drop the links that src owns, at both ends. */
    method DropOwnedUnder(src: OID, lbl: Label)
      requires src in Edges && lbl in Edges[src]
      modifies this`Edges
      ensures forall a, l, b ::
        (MarkAt(Edges, a, l, b) ==
         if l == lbl && Dropped(old(Edges), src, a, l, b) then Absent else MarkAt(old(Edges), a, l, b))
      ensures src in Edges && Edges[src].Keys == old(Edges)[src].Keys
    {
      ghost var was := Edges;
      var tos := Edges[src][lbl].Keys;
      assert forall b :: b in tos <==> MarkAt(Edges, src, lbl, b) != Absent;
      while tos != {}
        invariant src in Edges && Edges[src].Keys == was[src].Keys
        invariant forall a, l, b ::
          (MarkAt(Edges, a, l, b) ==
           if l == lbl && Dropped(was, src, a, l, b) && (if a == src then b else a) !in tos
           then Absent else MarkAt(was, a, l, b))
      {
        var to :| to in tos;
        if to in Edges[src][lbl] && Edges[src][lbl][to] {
          assert MarkAt(Edges, src, lbl, to) == Own;
          DelEdge(src, to, lbl);
          DelEdge(to, src, lbl);
        }
        tos := tos - {to};
      }
    }

    method DropOwned(src: OID)
      modifies this`Edges
      ensures forall a, l, b ::
        (MarkAt(Edges, a, l, b) == if Dropped(old(Edges), src, a, l, b) then Absent else MarkAt(old(Edges), a, l, b))
    {
      ghost var was := Edges;
      var lbls := if src in Edges then Edges[src].Keys else {};
      while lbls != {}
        invariant lbls != {} ==> src in Edges && lbls <= Edges[src].Keys
        invariant forall a, l, b ::
          (MarkAt(Edges, a, l, b) ==
           if l !in lbls && Dropped(was, src, a, l, b) then Absent else MarkAt(was, a, l, b))
      {
        var lbl :| lbl in lbls;
        DropOwnedUnder(src, lbl);
        lbls := lbls - {lbl};
      }
    }

    /** The second loop of Update: store every claim at both ends. */
    method AddClaims(src: OID, conns: Conns)
      modifies this`Edges
      ensures forall a, l, b :: MarkAt(Edges, a, l, b) == MarkWithClaims(old(Edges), src, conns, a, l, b)
    {
      ghost var was := Edges;
      var lbls := conns.Keys;
      while lbls != {}
        invariant lbls <= conns.Keys
        invariant forall a, l, b ::
          (MarkAt(Edges, a, l, b) ==
             if l in lbls then MarkAt(was, a, l, b) else MarkWithClaims(was, src, conns, a, l, b))
      {
        var lbl :| lbl in lbls;
        AddClaimsUnder(src, lbl, conns[lbl]);
        lbls := lbls - {lbl};
      }
    }

    method AddClaimsUnder(src: OID, lbl: Label, dsts: set<OID>)
      modifies this`Edges
      ensures forall a, l, b :: MarkAt(Edges, a, l, b) == MarkWithClaims(old(Edges), src, map[lbl := dsts], a, l, b)
    {
      ghost var was := Edges;
      var tos := dsts;
      while tos != {}
        invariant tos <= dsts
        invariant forall a, l, b :: MarkAt(Edges, a, l, b) == MarkWithClaims(was, src, map[lbl := dsts - tos], a, l, b)
      {
        var to :| to in tos;
        SetEdge(src, to, lbl, true);
        SetEdge(to, src, lbl, false);
        tos := tos - {to};
      }
    }

    /** The loops of Delete: drop the entries that other objects hold about src. */
    method DropIncoming(src: OID)
      modifies this`Edges
      ensures forall a, l, b ::
        (MarkAt(Edges, a, l, b) ==
         if b == src && MarkAt(old(Edges), src, l, a) != Absent then Absent else MarkAt(old(Edges), a, l, b))
    {
      ghost var was := Edges;
      var lbls := if src in Edges then Edges[src].Keys else {};
      while lbls != {}
        invariant lbls != {} ==> src in Edges && lbls <= Edges[src].Keys
        invariant forall a, l, b ::
          (MarkAt(Edges, a, l, b) ==
           if l !in lbls && b == src && MarkAt(was, src, l, a) != Absent then Absent else MarkAt(was, a, l, b))
      {
        var lbl :| lbl in lbls;
        var tos := Edges[src][lbl].Keys;
        ghost var before := Edges;
        assert forall b :: b in tos <==> MarkAt(was, src, lbl, b) != Absent by {
          assert forall b :: b in tos <==> MarkAt(Edges, src, lbl, b) != Absent;
        }
        while tos != {}
          invariant src in Edges && Edges[src].Keys == before[src].Keys
          invariant forall a, l, b ::
            (MarkAt(Edges, a, l, b) ==
             if l == lbl && b == src && MarkAt(was, src, l, a) != Absent && a !in tos then Absent
             else MarkAt(before, a, l, b))
        {
          var to :| to in tos;
          DelEdge(to, src, lbl);
          tos := tos - {to};
        }
        lbls := lbls - {lbl};
      }
    }

    method Update(src: OID, connsPerLabel: Conns)
      requires Valid()
      modifies this
      ensures Valid() && View() == UpdateRel(old(View()), src, connsPerLabel)
    {
      ghost var was := Edges;
      DropOwned(src);
      ghost var mid := Edges;
      AddClaims(src, connsPerLabel);
      UpdateMeaning(was, mid, Edges, IDs, src, connsPerLabel);
      if connsPerLabel == map[] {
        IDs := IDs - {src};
      } else {
        IDs := IDs[src := connsPerLabel];
      }
    }

    method Delete(src: OID)
      requires Valid()
      modifies this
      ensures Valid() && View() == DeleteRel(old(View()), src)
    {
      ghost var was := Edges;
      DropIncoming(src);
      ghost var mid := Edges;
      Edges := Edges - {src};
      forall a, l, b
        ensures MarkAt(Edges, a, l, b) == if a == src || b == src then Absent else MarkAt(was, a, l, b)
      {
        assert MarkAt(Edges, a, l, b) == if a == src then Absent else MarkAt(mid, a, l, b);
        assert a != src ==> MarkAt(was, src, l, a) == Mirror(MarkAt(was, a, l, src));
      }
      DeleteMeaning(was, Edges, IDs, src);
      IDs := IDs - {src};
    }
  }
}
