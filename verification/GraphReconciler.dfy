/** The reconcile step that drives the object graph, and what holds over whole runs of it. */
module GraphReconciler {
  import opened ObjectIds
  import opened ObjectGraphs

  // ---------------------------------------------------------------- one reconcile

  datatype ErrorKind = Discovery | OtherError

  /** What one reconcile finds out about its object. `failures` is the flattened error aggregate
      that the connection finder returns beside the edges it could resolve. */
  datatype Observation =
    | Missing
    | GetFailed
    | NoDescriptor
    | Found(isService: bool, resolved: Conns, failures: seq<ErrorKind>)

  datatype Outcome = Done | RequeueAfterMillis(delay: nat) | Failed

  const EXPOSED_BY: Label := "exposed_by"

  /** What the graph is told to do; a reconcile that must not touch the graph is Keep. */
  datatype Op = Update(src: OID, conns: Conns) | Delete(src: OID) | Keep

  function Exposed(conns: Conns): set<OID> {
    if EXPOSED_BY in conns then conns[EXPOSED_BY] else {}
  }

  ghost function OpFor(src: OID, seen: Observation): Op {
    match seen
    case Missing => Delete(src)
    case GetFailed => Keep
    case NoDescriptor => Keep
    case Found(isService, resolved, failures) =>
      if Discovery in failures || (isService && Exposed(resolved) == {}) then Keep else Update(src, resolved)
  }

  ghost function ApplyOp(r: Rel, op: Op): Rel {
    match op
    case Update(src, conns) => UpdateRel(r, src, conns)
    case Delete(src) => DeleteRel(r, src)
    case Keep => r
  }

  /** The object was found, no connection failed in discovery, and if it is a Service it is exposed by
      something; other failures do not matter. */
  predicate IsStored(seen: Observation) {
    && seen.Found? && Discovery !in seen.failures
    && (seen.isService ==> EXPOSED_BY in seen.resolved && seen.resolved[EXPOSED_BY] != {})
  }

  /** src has no link and no claims any more; nothing else changes. */
  ghost predicate Forgets(r: Rel, r': Rel, src: OID) {
    && src !in r'.ids && (forall l, b :: !Linked(r', src, l, b) && !Linked(r', b, l, src))
    && Untouched(r, r', src)
  }

  /** src claims exactly conns. All of these are links, and no other link remains that it claimed; what
      others claim of it stays, and nothing changes between other objects. */
  ghost predicate Stores(r: Rel, r': Rel, src: OID, conns: Conns) {
    && (forall l, b :: Claimed(r'.ids, src, l, b) <==> Wants(conns, l, b))
    && (src in r'.ids ==> r'.ids[src] == conns) && (src in r'.ids <==> conns != map[])
    && (forall l, b | b != src :: Triple(src, l, b) in r'.owned <==> Wants(conns, l, b))
    && (forall l, b | Wants(conns, l, b) :: Linked(r', src, l, b))
    && (forall l, b | b != src && !Wants(conns, l, b) ::
          Triple(b, l, src) in r'.owned <==> Triple(b, l, src) in r.owned)
    && Untouched(r, r', src)
  }

  /** The claims of other objects, and the links among them. */
  ghost predicate Untouched(r: Rel, r': Rel, src: OID) {
    && r'.ids - {src} == r.ids - {src}
    && forall a, l, b | a != src && b != src :: Linked(r', a, l, b) <==> Linked(r, a, l, b)
  }

  /** What a reconcile does to links and claims, said of the object and what was found out about it. */
  lemma ReconcileMeaning(r: Rel, src: OID, seen: Observation)
    requires RelInv(r)
    ensures seen.Missing? ==> Forgets(r, ApplyOp(r, OpFor(src, seen)), src)
    ensures IsStored(seen) ==> Stores(r, ApplyOp(r, OpFor(src, seen)), src, seen.resolved)
    ensures !seen.Missing? && !IsStored(seen) ==> ApplyOp(r, OpFor(src, seen)) == r
  {
    if IsStored(seen) {
      UpdateStores(r, src, seen.resolved);
    }
  }

  lemma UpdateStores(r: Rel, src: OID, conns: Conns)
    requires RelInv(r)
    ensures Stores(r, UpdateRel(r, src, conns), src, conns)
  {
    var r' := UpdateRel(r, src, conns);
    assert conns == map[] ==> forall l, b :: !Wants(conns, l, b);
    forall l, b | b != src
      ensures Triple(src, l, b) in r'.owned <==> Wants(conns, l, b)
    {}
    assert r'.ids - {src} == r.ids - {src};
  }

  /** An object that is gone is dropped; a failed lookup, a type without a descriptor, a discovery
      error and a Service nothing exposes yet leave the graph as it is; otherwise whatever resolved
      is stored, also when some connections failed. A result that is held back is looked for again
      after a fixed delay, and every other failure is returned. */
  method Reconcile(g: ObjectGraph, src: OID, seen: Observation) returns (outcome: Outcome)
    requires g.Valid()
    modifies g
    ensures g.Valid() && g.View() == ApplyOp(old(g.View()), OpFor(src, seen))
    ensures seen.Missing? ==> Forgets(old(g.View()), g.View(), src)
    ensures IsStored(seen) ==> Stores(old(g.View()), g.View(), src, seen.resolved)
    ensures !seen.Missing? && !IsStored(seen) ==> g.Edges == old(g.Edges) && g.IDs == old(g.IDs)
    ensures outcome == Done <==> seen.Missing? || seen.NoDescriptor? || (IsStored(seen) && seen.failures == [])
    ensures outcome.RequeueAfterMillis? <==> seen.Found? && !IsStored(seen)
    ensures outcome.RequeueAfterMillis? ==> outcome.delay == if Discovery in seen.failures then 500 else 120000
  {
    ReconcileMeaning(g.View(), src, seen);
    match seen
    case Missing =>
      g.Delete(src);
      outcome := Done;
    case GetFailed =>
      outcome := Failed;
    case NoDescriptor =>
      outcome := Done;
    case Found(isService, resolved, failures) =>
      if Discovery in failures {
        return RequeueAfterMillis(500);
      }
      if isService && Exposed(resolved) == {} {
        return RequeueAfterMillis(120000);
      }
      g.Update(src, resolved);
      outcome := if failures != [] then Failed else Done;
  }

  // ---------------------------------------------------------------- whole runs

  ghost function Run(ops: seq<Op>): Rel {
    if ops == [] then EmptyRel() else ApplyOp(Run(ops[..|ops| - 1]), ops[|ops| - 1])
  }

  ghost function OpsOf(events: seq<(OID, Observation)>): seq<Op> {
    if events == [] then []
    else OpsOf(events[..|events| - 1]) + [OpFor(events[|events| - 1].0, events[|events| - 1].1)]
  }

  lemma RunNext(events: seq<(OID, Observation)>, i: nat)
    requires i < |events|
    ensures Run(OpsOf(events[..i + 1])) == ApplyOp(Run(OpsOf(events[..i])), OpFor(events[i].0, events[i].1))
  {
    var ops, op := OpsOf(events[..i]), OpFor(events[i].0, events[i].1);
    assert events[..i + 1][..i] == events[..i];
    assert (ops + [op])[..|ops|] == ops;
  }

  /** A run of reconciles in any order leaves the graph at the relation the run of its operations
      computes. */
  method ReconcileAll(events: seq<(OID, Observation)>) returns (g: ObjectGraph)
    ensures fresh(g) && g.Valid() && g.View() == Run(OpsOf(events))
  {
    g := new ObjectGraph();
    for i := 0 to |events|
      invariant g.Valid() && fresh(g) && g.View() == Run(OpsOf(events[..i]))
    {
      var _ := Reconcile(g, events[i].0, events[i].1);
      RunNext(events, i);
    }
    assert events[..|events|] == events;
  }

  /** After every run a link has one owner, that owner currently claims it, and self-links are
      kept apart. */
  lemma {:induction false} RunInvariant(ops: seq<Op>)
    ensures RelInv(Run(ops))
  {
    if ops != [] {
      RunInvariant(ops[..|ops| - 1]);
    }
  }

  /** The claims an object made last, None once it is deleted or claims nothing. */
  ghost function LastClaims(ops: seq<Op>, a: OID): Option<Conns> {
    if ops == [] then None
    else match ops[|ops| - 1]
      case Update(src, conns) =>
        if src != a then LastClaims(ops[..|ops| - 1], a) else if conns == map[] then None else Some(conns)
      case Delete(src) => if src == a then None else LastClaims(ops[..|ops| - 1], a)
      case Keep => LastClaims(ops[..|ops| - 1], a)
  }

  lemma {:induction false} IdsAreLastClaims(ops: seq<Op>, a: OID)
    ensures LastClaims(ops, a) == if a in Run(ops).ids then Some(Run(ops).ids[a]) else None
  {
    if ops != [] {
      IdsAreLastClaims(ops[..|ops| - 1], a);
    }
  }

  // ---------------------------------------------------------------- links versus claims

  /** The links are exactly the claims, read in both directions. */
  ghost predicate Faithful(r: Rel) {
    forall a, l, b :: Linked(r, a, l, b) <==> Claimed(r.ids, a, l, b) || Claimed(r.ids, b, l, a)
  }

  /** When an operation keeps the links equal to the claims. An update must claim again its
      self-links and every link it owns that the other end also claims; a deleted object must
      not be claimed by anyone else. */
  ghost predicate Guard(r: Rel, op: Op) {
    match op
    case Update(src, conns) =>
      && (forall l | Triple(src, l, src) in r.loops :: Wants(conns, l, src))
      && (forall l, b | Triple(src, l, b) in r.owned && Claimed(r.ids, b, l, src) :: Wants(conns, l, b))
    case Delete(src) => forall l, b | b != src :: !Claimed(r.ids, b, l, src)
    case Keep => true
  }

  lemma UpdateKeepsFaithful(r: Rel, src: OID, conns: Conns)
    requires RelInv(r) && Faithful(r)
    ensures Faithful(UpdateRel(r, src, conns)) <==> Guard(r, Update(src, conns))
  {
    var r' := UpdateRel(r, src, conns);
    forall a, l, b
      ensures Claimed(r'.ids, a, l, b) <==> if a == src then Wants(conns, l, b) else Claimed(r.ids, a, l, b)
    {}
    if Guard(r, Update(src, conns)) {
      forall a, l, b
        ensures Linked(r', a, l, b) <==> Claimed(r'.ids, a, l, b) || Claimed(r'.ids, b, l, a)
      {
        assert Linked(r, a, l, b) <==> Claimed(r.ids, a, l, b) || Claimed(r.ids, b, l, a);
      }
    } else if l :| Triple(src, l, src) in r.loops && !Wants(conns, l, src) {
      assert Linked(r', src, l, src);
    } else {
      var l, b :| Triple(src, l, b) in r.owned && Claimed(r.ids, b, l, src) && !Wants(conns, l, b);
      assert !Linked(r', src, l, b) && Claimed(r'.ids, b, l, src);
    }
  }

  lemma DeleteKeepsFaithful(r: Rel, src: OID)
    requires RelInv(r) && Faithful(r)
    ensures Faithful(DeleteRel(r, src)) <==> Guard(r, Delete(src))
  {
    var r' := DeleteRel(r, src);
    if Guard(r, Delete(src)) {
      forall a, l, b
        ensures Linked(r', a, l, b) <==> Claimed(r'.ids, a, l, b) || Claimed(r'.ids, b, l, a)
      {
        assert Linked(r, a, l, b) <==> Claimed(r.ids, a, l, b) || Claimed(r.ids, b, l, a);
        assert (b != src ==> !Claimed(r.ids, b, l, src)) && (a != src ==> !Claimed(r.ids, a, l, src));
      }
    } else {
      var l, b :| b != src && Claimed(r.ids, b, l, src);
      assert !Linked(r', src, l, b) && Claimed(r'.ids, b, l, src);
    }
  }

  ghost predicate CleanRun(ops: seq<Op>) {
    ops != [] ==> CleanRun(ops[..|ops| - 1]) && Guard(Run(ops[..|ops| - 1]), ops[|ops| - 1])
  }

  lemma {:induction false} CleanRunIsFaithful(ops: seq<Op>)
    requires CleanRun(ops)
    ensures Faithful(Run(ops))
  {
    if ops == [] {
    } else {
      var before := ops[..|ops| - 1];
      CleanRunIsFaithful(before);
      RunInvariant(before);
      match ops[|ops| - 1]
      case Update(src, conns) => UpdateKeepsFaithful(Run(before), src, conns);
      case Delete(src) => DeleteKeepsFaithful(Run(before), src);
      case Keep =>
    }
  }

  /** Reconcile order does not matter: clean runs that end with the same claims end with the same
      links, and a link that only one end claims has the same owner. */
  lemma Confluence(ops: seq<Op>, ops': seq<Op>)
    requires CleanRun(ops) && CleanRun(ops')
    requires forall a :: LastClaims(ops, a) == LastClaims(ops', a)
    ensures forall a, l, b :: Linked(Run(ops), a, l, b) <==> Linked(Run(ops'), a, l, b)
    ensures forall a, l, b | a != b && Claimed(Run(ops).ids, a, l, b) && !Claimed(Run(ops).ids, b, l, a) ::
              Triple(a, l, b) in Run(ops).owned && Triple(a, l, b) in Run(ops').owned
  {
    CleanRunIsFaithful(ops);
    CleanRunIsFaithful(ops');
    RunInvariant(ops);
    RunInvariant(ops');
    forall a, l, b
      ensures Claimed(Run(ops).ids, a, l, b) <==> Claimed(Run(ops').ids, a, l, b)
    {
      IdsAreLastClaims(ops, a);
      IdsAreLastClaims(ops', a);
    }
    forall a, l, b
      ensures Linked(Run(ops), a, l, b) <==> Linked(Run(ops'), a, l, b)
      ensures a != b && Claimed(Run(ops).ids, a, l, b) && !Claimed(Run(ops).ids, b, l, a) ==>
                Triple(a, l, b) in Run(ops).owned && Triple(a, l, b) in Run(ops').owned
    {
      assert Linked(Run(ops), a, l, b) <==> Claimed(Run(ops).ids, a, l, b) || Claimed(Run(ops).ids, b, l, a);
      assert Linked(Run(ops'), a, l, b) <==> Claimed(Run(ops').ids, a, l, b) || Claimed(Run(ops').ids, b, l, a);
    }
  }

  /** Neither a self-claim nor a claim on an object that currently claims src back. */
  ghost predicate Uncontested(ids: map<OID, Conns>, src: OID, conns: Conns) {
    forall l, b | Wants(conns, l, b) :: b != src && !Claimed(ids, b, l, src)
  }

  ghost predicate OneSided(r: Rel) {
    r.loops == iset{} && forall a, l, b | Claimed(r.ids, a, l, b) :: !Claimed(r.ids, b, l, a)
  }

  ghost predicate UncontestedRun(ops: seq<Op>) {
    ops != [] ==>
      var before, op := ops[..|ops| - 1], ops[|ops| - 1];
      UncontestedRun(before) && !op.Delete? && (op.Update? ==> Uncontested(Run(before).ids, op.src, op.conns))
  }

  lemma UncontestedStep(r: Rel, src: OID, conns: Conns)
    requires RelInv(r) && OneSided(r) && Uncontested(r.ids, src, conns)
    ensures Guard(r, Update(src, conns)) && OneSided(UpdateRel(r, src, conns))
  {
    var r' := UpdateRel(r, src, conns);
    assert r'.loops == iset{};
    forall a, l, b | Claimed(r'.ids, a, l, b)
      ensures !Claimed(r'.ids, b, l, a)
    {
      assert Claimed(r'.ids, a, l, b) <==> if a == src then Wants(conns, l, b) else Claimed(r.ids, a, l, b);
      assert Claimed(r'.ids, b, l, a) <==> if b == src then Wants(conns, l, a) else Claimed(r.ids, b, l, a);
    }
  }

  /** Runs of updates in which nobody claims itself or claims back are clean. */
  lemma {:induction false} UncontestedRunIsClean(ops: seq<Op>)
    requires UncontestedRun(ops)
    ensures CleanRun(ops) && OneSided(Run(ops))
  {
    if ops != [] {
      var before := ops[..|ops| - 1];
      UncontestedRunIsClean(before);
      RunInvariant(before);
      if ops[|ops| - 1].Update? {
        UncontestedStep(Run(before), ops[|ops| - 1].src, ops[|ops| - 1].conns);
      }
    }
  }

  /** So the whole relation, owners included, depends on each object's last claims only. */
  lemma UncontestedRunsConverge(ops: seq<Op>, ops': seq<Op>)
    requires UncontestedRun(ops) && UncontestedRun(ops')
    requires forall a :: LastClaims(ops, a) == LastClaims(ops', a)
    ensures Run(ops) == Run(ops')
    ensures forall t: Triple :: t in Run(ops).owned <==> Claimed(Run(ops).ids, t.src, t.lbl, t.dst)
  {
    UncontestedRunIsClean(ops);
    UncontestedRunIsClean(ops');
    OwnersAreClaimants(ops);
    OwnersAreClaimants(ops');
    SameClaims(ops, ops');
    assert Run(ops).owned == Run(ops').owned;
  }

  lemma SameClaims(ops: seq<Op>, ops': seq<Op>)
    requires forall a :: LastClaims(ops, a) == LastClaims(ops', a)
    ensures Run(ops).ids == Run(ops').ids
  {
    var ids, ids' := Run(ops).ids, Run(ops').ids;
    forall a
      ensures a in ids <==> a in ids'
      ensures a in ids ==> ids[a] == ids'[a]
    {
      IdsAreLastClaims(ops, a);
      IdsAreLastClaims(ops', a);
    }
  }

  lemma OwnersAreClaimants(ops: seq<Op>)
    requires CleanRun(ops) && OneSided(Run(ops))
    ensures forall t: Triple :: t in Run(ops).owned <==> Claimed(Run(ops).ids, t.src, t.lbl, t.dst)
  {
    CleanRunIsFaithful(ops);
    RunInvariant(ops);
    forall t: Triple | Claimed(Run(ops).ids, t.src, t.lbl, t.dst)
      ensures t in Run(ops).owned
    {
      assert Linked(Run(ops), t.src, t.lbl, t.dst);
      assert t == Triple(t.src, t.lbl, t.dst);
      assert !Claimed(Run(ops).ids, t.dst, t.lbl, t.src);
    }
  }

  /** Repeating an update changes nothing, and right after it every claim of src is a link. */
  lemma UpdateIsIdempotent(r: Rel, src: OID, conns: Conns)
    requires RelInv(r)
    ensures UpdateRel(UpdateRel(r, src, conns), src, conns) == UpdateRel(r, src, conns)
    ensures forall l, b | Wants(conns, l, b) :: Linked(UpdateRel(r, src, conns), src, l, b)
  {
    var once := UpdateRel(r, src, conns);
    var twice := UpdateRel(once, src, conns);
    assert once.owned == twice.owned;
    assert once.loops == twice.loops;
    assert once.ids == twice.ids;
  }

  /** Why the guard is needed: b and a claim each other, a withdraws, and b's claim has no link. */
  lemma WithdrawnMutualClaim()
    ensures var ops :=
              [Update("b", map["offshoot" := {"a"}]), Update("a", map["offshoot" := {"b"}]), Update("a", map[])];
            !Faithful(Run(ops)) && Claimed(Run(ops).ids, "b", "offshoot", "a")
            && !Linked(Run(ops), "b", "offshoot", "a")
  {
    var ops := [Update("b", map["offshoot" := {"a"}]), Update("a", map["offshoot" := {"b"}]), Update("a", map[])];
    var one, two := ops[..1], ops[..2];
    assert ops[..|ops| - 1] == two && two[..|two| - 1] == one && one[..|one| - 1] == [];
    assert "offshoot" in map["offshoot" := {"a"}] && "offshoot" in map["offshoot" := {"b"}];
    assert Run(one).ids == map["b" := map["offshoot" := {"a"}]];
    assert Triple("b", "offshoot", "a") !in Run(two).owned;
    assert Triple("b", "offshoot", "a") !in Run(ops).owned && Triple("a", "offshoot", "b") !in Run(ops).owned;
    assert Claimed(Run(ops).ids, "b", "offshoot", "a");
    RunInvariant(ops);
  }
}
