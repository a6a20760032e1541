/** ResourcesFor for reference connections, both ways. What a reference path of the connection gives
    on an object, parsed, is a function of the object. */
module References {
  import opened ObjectIds
  import opened Connections
  import opened ObjectPaths

  datatype Ref = Ref(name: string, namespace: string, kind: string, group: string)

  datatype RefConnection = RefConnection(references: seq<Obj -> Result<seq<Ref>>>, namespace: Option<NamespaceRef>,
                                         level: Level)

  predicate TypeFits(ref: Ref, gvk: GVK) {
    (ref.group == "" || ref.group == gvk.group) && (ref.kind == "" || ref.kind == gvk.kind)
  }

  // ---------------------------------------------------------------- forward

  /** The namespace a reference of o points into: its own if it has one, else that of o. */
  function PointedNamespace(ref: Ref, o: Obj): string {
    if ref.namespace == "" then o.namespace else ref.namespace
  }

  predicate Unresolvable(s: Store, ref: Ref, o: Obj, dst: GVK) {
    TypeFits(ref, dst) && (dst !in s.namespaced || (s.namespaced[dst] && PointedNamespace(ref, o) == ""))
  }

  /** ref, read on o, points at d. */
  predicate PointsAt(s: Store, ref: Ref, o: Obj, d: Obj) {
    && TypeFits(ref, d.gvk) && ref.name == d.name
    && d.gvk in s.namespaced && (s.namespaced[d.gvk] ==> PointedNamespace(ref, o) == d.namespace)
  }

  function Get(objects: seq<Obj>, gvk: GVK, namespace: string, name: string): Option<Obj> {
    if objects == [] then None
    else if objects[0].gvk == gvk && objects[0].namespace == namespace && objects[0].name == name then Some(objects[0])
    else Get(objects[1..], gvk, namespace, name)
  }

  lemma {:induction false} GetFinds(objects: seq<Obj>, gvk: GVK, namespace: string, name: string)
    ensures match Get(objects, gvk, namespace, name)
            case Some(o) => o in objects && o.gvk == gvk && o.namespace == namespace && o.name == name
            case None => forall o <- objects :: !(o.gvk == gvk && o.namespace == namespace && o.name == name)
  {
    if objects != [] {
      GetFinds(objects[1..], gvk, namespace, name);
      assert objects == [objects[0]] + objects[1..];
    }
  }

  lemma GetPointsAt(s: Store, ref: Ref, o: Obj, dst: GVK, ns: string)
    requires StoreOk(s) && TypeFits(ref, dst) && dst in s.namespaced
    requires ns == if s.namespaced[dst] then PointedNamespace(ref, o) else ""
    ensures forall d ::
      d in s.objects && d.gvk == dst && PointsAt(s, ref, o, d) <==> Get(s.objects, dst, ns, ref.name) == Some(d)
  {
    GetFinds(s.objects, dst, ns, ref.name);
  }

  ghost predicate InRefs(s: Store, c: RefConnection, o: Obj, refs: seq<Ref>, dst: GVK, d: Obj) {
    && d in s.objects && d.gvk == dst && IsConnected(c.level, d, o)
    && exists ref :: ref in refs && PointsAt(s, ref, o, d)
  }

  /** The inner loop: the references found under one path. */
  method ForwardRefs(s: Store, c: RefConnection, src: Obj, refs: seq<Ref>, dst: GVK) returns (r: Result<seq<Obj>>)
    requires StoreOk(s)
    ensures r.Err? <==> exists ref :: ref in refs && Unresolvable(s, ref, src, dst)
    ensures r.Ok? ==> forall d :: d in r.value <==> InRefs(s, c, src, refs, dst, d)
  {
    var objects: seq<Obj> := [];
    for i := 0 to |refs|
      invariant forall ref <- refs[..i] :: !Unresolvable(s, ref, src, dst)
      invariant forall d :: d in objects <==> InRefs(s, c, src, refs[..i], dst, d)
    {
      var ref := refs[i];
      assert refs[..i + 1] == refs[..i] + [ref];
      assert ref in refs;
      OneMoreRef(s, c, src, refs[..i], ref, dst);
      if TypeFits(ref, dst) {
        if dst !in s.namespaced {
          return Err;
        }
        var ns := "";
        if s.namespaced[dst] {
          ns := PointedNamespace(ref, src);
          if ns == "" {
            assert Unresolvable(s, ref, src, dst);
            return Err;
          }
        }
        GetPointsAt(s, ref, src, dst, ns);
        var rs := Get(s.objects, dst, ns, ref.name);
        if rs.Some? && IsConnected(c.level, rs.value, src) {
          objects := objects + [rs.value];
        }
      }
    }
    assert refs[..|refs|] == refs;
    r := Ok(objects);
  }

  lemma OneMoreRef(s: Store, c: RefConnection, o: Obj, refs: seq<Ref>, ref: Ref, dst: GVK)
    ensures forall d :: InRefs(s, c, o, refs + [ref], dst, d) <==>
      (InRefs(s, c, o, refs, dst, d)
       || (d in s.objects && d.gvk == dst && IsConnected(c.level, d, o) && PointsAt(s, ref, o, d)))
  {
    forall d | d in s.objects && d.gvk == dst
      ensures (exists x :: x in refs + [ref] && PointsAt(s, x, o, d))
         <==> (exists x :: x in refs && PointsAt(s, x, o, d)) || PointsAt(s, ref, o, d)
    {
      if x :| x in refs && PointsAt(s, x, o, d) {
        assert x in refs + [ref];
      }
      assert ref in refs + [ref];
    }
  }

  /** Some reference of o, under one of the first n paths, points at d. */
  ghost predicate RefersTo(s: Store, c: RefConnection, o: Obj, d: Obj, n: nat) {
    exists k, ref :: 0 <= k < n && Under(c, o, k, ref) && PointsAt(s, ref, o, d)
  }

  predicate Under(c: RefConnection, o: Obj, k: int, ref: Ref) {
    0 <= k < |c.references| && c.references[k](o).Ok? && ref in c.references[k](o).value
  }

  ghost predicate ForwardRelated(s: Store, c: RefConnection, o: Obj, dst: GVK, d: Obj) {
    d in s.objects && d.gvk == dst && IsConnected(c.level, d, o) && RefersTo(s, c, o, d, |c.references|)
  }

  ghost predicate ForwardFailsAt(s: Store, c: RefConnection, o: Obj, dst: GVK, k: int) {
    && 0 <= k < |c.references|
    && (c.references[k](o).Err? || exists ref :: ref in c.references[k](o).value && Unresolvable(s, ref, o, dst))
  }

  method ForwardReferences(s: Store, c: RefConnection, src: Obj, dst: GVK) returns (r: Result<seq<Obj>>)
    requires StoreOk(s)
    ensures r.Err? <==> exists k :: ForwardFailsAt(s, c, src, dst, k)
    ensures r.Ok? ==> forall d :: d in r.value <==> ForwardRelated(s, c, src, dst, d)
  {
    var out: seq<Obj> := [];
    for k := 0 to |c.references|
      invariant forall j :: 0 <= j < k ==> !ForwardFailsAt(s, c, src, dst, j)
      invariant forall d :: d in out <==>
        (d in s.objects && d.gvk == dst && IsConnected(c.level, d, src) && RefersTo(s, c, src, d, k))
    {
      var refs := c.references[k](src);
      if refs.Err? {
        assert ForwardFailsAt(s, c, src, dst, k);
        return Err;
      }
      var objects := ForwardRefs(s, c, src, refs.value, dst);
      if objects.Err? {
        assert ForwardFailsAt(s, c, src, dst, k);
        return Err;
      }
      ghost var before := out;
      out := AppendObjects(out, objects.value);
      OneMorePath(s, c, src, dst, k, before, objects.value, out);
    }
    r := Ok(out);
  }

  lemma OneMorePath(s: Store, c: RefConnection, o: Obj, dst: GVK, k: nat, before: seq<Obj>, more: seq<Obj>,
                    out: seq<Obj>)
    requires StoreOk(s) && k < |c.references| && c.references[k](o).Ok?
    requires forall d :: d in before <==>
      (d in s.objects && d.gvk == dst && IsConnected(c.level, d, o) && RefersTo(s, c, o, d, k))
    requires forall d :: d in more <==> InRefs(s, c, o, c.references[k](o).value, dst, d)
    requires forall d :: d in out <==> LastOfKey(before + more, d)
    ensures forall d :: d in out <==>
      (d in s.objects && d.gvk == dst && IsConnected(c.level, d, o) && RefersTo(s, c, o, d, k + 1))
  {
    forall d
      ensures d in out <==> d in before || d in more
    {
      MergingKeepsAll(before + more, d);
    }
    forall d | d in s.objects && d.gvk == dst
      ensures RefersTo(s, c, o, d, k + 1) <==>
        RefersTo(s, c, o, d, k) || exists ref :: ref in c.references[k](o).value && PointsAt(s, ref, o, d)
    {
      if ref :| ref in c.references[k](o).value && PointsAt(s, ref, o, d) {
        assert Under(c, o, k, ref);
      }
    }
  }

  // ---------------------------------------------------------------- backward

  /** The test of the backward code: the namespace is compared only where the reference has none. */
  predicate Matches(s: Store, ref: Ref, o: Obj, d: Obj) {
    && TypeFits(ref, d.gvk) && ref.name == d.name && d.gvk in s.namespaced
    && (ref.namespace == "" && s.namespaced[d.gvk] ==> o.namespace == d.namespace)
  }

  predicate NamespaceUndefined(s: Store, ref: Ref, o: Obj, d: Obj) {
    && TypeFits(ref, d.gvk)
    && (d.gvk !in s.namespaced || (ref.namespace == "" && s.namespaced[d.gvk] && o.namespace == ""))
  }

  /** None of the references ends the scan. */
  ghost predicate Quiet(s: Store, refs: seq<Ref>, o: Obj, d: Obj) {
    forall ref <- refs :: !Matches(s, ref, o, d) && !NamespaceUndefined(s, ref, o, d)
  }

  ghost predicate QuietPaths(s: Store, c: RefConnection, o: Obj, d: Obj, n: int) {
    forall k | 0 <= k < n && k < |c.references| ::
      c.references[k](o).Ok? && Quiet(s, c.references[k](o).value, o, d)
  }

  /** The scan of one source meets something that cannot be read or resolved, before any match. */
  ghost predicate SourceFails(s: Store, c: RefConnection, o: Obj, d: Obj) {
    exists k :: FailsInPath(s, c, o, d, k)
  }

  ghost predicate FailsInPath(s: Store, c: RefConnection, o: Obj, d: Obj, k: int) {
    && 0 <= k < |c.references| && QuietPaths(s, c, o, d, k)
    && (c.references[k](o).Err? || FailsInRefs(s, c.references[k](o).value, o, d))
  }

  ghost predicate FailsInRefs(s: Store, refs: seq<Ref>, o: Obj, d: Obj) {
    exists i :: 0 <= i < |refs| && NamespaceUndefined(s, refs[i], o, d) && Quiet(s, refs[..i], o, d)
  }

  ghost predicate SomeMatches(s: Store, refs: seq<Ref>, o: Obj, d: Obj) {
    exists ref :: ref in refs && Matches(s, ref, o, d)
  }

  /** The inner loop: the references under one path. */
  method ScanPath(s: Store, refs: seq<Ref>, o: Obj, d: Obj) returns (failed: bool, matched: bool)
    ensures failed <==> FailsInRefs(s, refs, o, d)
    ensures !failed && matched ==> SomeMatches(s, refs, o, d)
    ensures !failed && !matched ==> Quiet(s, refs, o, d)
  {
    for i := 0 to |refs|
      invariant Quiet(s, refs[..i], o, d)
    {
      var ref := refs[i];
      assert refs[..i + 1] == refs[..i] + [ref] && ref in refs;
      if NamespaceUndefined(s, ref, o, d) {
        return true, false;
      }
      if Matches(s, ref, o, d) {
        FirstMatchWins(s, refs, o, d, i);
        return false, true;
      }
    }
    assert refs[..|refs|] == refs;
    return false, false;
  }

  lemma FirstMatchWins(s: Store, refs: seq<Ref>, o: Obj, d: Obj, i: nat)
    requires i < |refs| && Quiet(s, refs[..i], o, d)
    requires Matches(s, refs[i], o, d) && !NamespaceUndefined(s, refs[i], o, d)
    ensures !FailsInRefs(s, refs, o, d) && !Quiet(s, refs, o, d)
  {
    assert refs[i] in refs;
    forall j | 0 <= j < |refs| && NamespaceUndefined(s, refs[j], o, d)
      ensures !Quiet(s, refs[..j], o, d)
    {
      if j < i {
        InTake(refs, j, i);
      } else {
        InTake(refs, i, j);
      }
    }
  }

  lemma InTake(refs: seq<Ref>, j: int, i: int)
    requires 0 <= j < i <= |refs|
    ensures refs[j] in refs[..i]
  {
    assert refs[..i][j] == refs[j];
  }

  /** A path in which the scan ends with a match settles the source. */
  lemma MatchSettles(s: Store, c: RefConnection, o: Obj, d: Obj, k: nat)
    requires k < |c.references| && QuietPaths(s, c, o, d, k) && c.references[k](o).Ok?
    requires SomeMatches(s, c.references[k](o).value, o, d) && !FailsInRefs(s, c.references[k](o).value, o, d)
    ensures !SourceFails(s, c, o, d) && exists j, ref :: Under(c, o, j, ref) && Matches(s, ref, o, d)
  {
    var ref :| ref in c.references[k](o).value && Matches(s, ref, o, d);
    assert Under(c, o, k, ref) && !Quiet(s, c.references[k](o).value, o, d);
  }

  /** When all paths are quiet there is neither a failure nor a match. */
  lemma QuietSettles(s: Store, c: RefConnection, o: Obj, d: Obj)
    requires QuietPaths(s, c, o, d, |c.references|)
    ensures !SourceFails(s, c, o, d) && forall k, ref :: Under(c, o, k, ref) ==> !Matches(s, ref, o, d)
  {
    forall k | 0 <= k < |c.references|
      ensures c.references[k](o).Ok? && Quiet(s, c.references[k](o).value, o, d)
    {}
  }

  /** What scanning the references of one source gives: an error, or whether one matches. The scan
      stops at the first match. */
  method ScanSource(s: Store, c: RefConnection, o: Obj, d: Obj) returns (r: Result<bool>)
    ensures r.Err? <==> SourceFails(s, c, o, d)
    ensures r.Ok? ==> (r.value <==> exists k, ref :: Under(c, o, k, ref) && Matches(s, ref, o, d))
  {
    for k := 0 to |c.references|
      invariant QuietPaths(s, c, o, d, k)
    {
      var refs := c.references[k](o);
      if refs.Err? {
        assert FailsInPath(s, c, o, d, k);
        return Err;
      }
      var failed, matched := ScanPath(s, refs.value, o, d);
      if failed {
        assert FailsInPath(s, c, o, d, k);
        return Err;
      }
      if matched {
        MatchSettles(s, c, o, d, k);
        return Ok(true);
      }
    }
    QuietSettles(s, c, o, d);
    r := Ok(false);
  }

  ghost predicate BackwardRelated(s: Store, c: RefConnection, d: Obj, src: GVK, o: Obj)
    requires src in s.namespaced
  {
    && o in SourcesOf(s, c, d, src) && IsConnected(c.level, d, o)
    && exists k, ref :: Under(c, o, k, ref) && Matches(s, ref, o, d)
  }

  ghost function SourcesOf(s: Store, c: RefConnection, d: Obj, src: GVK): iset<Obj>
    requires src in s.namespaced
  {
    Listed(s, src, if s.namespaced[src] && OwnsNamespace(c.namespace) then d.namespace else "")
  }

  method BackwardReferences(s: Store, c: RefConnection, d: Obj, src: GVK) returns (r: Result<seq<Obj>>)
    ensures r.Err? <==> src !in s.namespaced || exists o :: o in SourcesOf(s, c, d, src) && SourceFails(s, c, o, d)
    ensures r.Ok? ==> src in s.namespaced && forall o :: o in r.value <==> BackwardRelated(s, c, d, src, o)
  {
    if src !in s.namespaced {
      return Err;
    }
    var ns := if s.namespaced[src] && OwnsNamespace(c.namespace) then d.namespace else "";
    var items := ListObjects(s.objects, src, ns);
    forall o
      ensures o in items <==> o in SourcesOf(s, c, d, src)
    {
      ListHas(s.objects, src, ns, o);
    }
    var out: seq<Obj> := [];
    for i := 0 to |items|
      invariant forall o <- items[..i] :: !SourceFails(s, c, o, d)
      invariant forall o :: o in out <==>
        (o in items[..i] && IsConnected(c.level, d, o) && exists k, ref :: Under(c, o, k, ref) && Matches(s, ref, o, d))
    {
      var rs := items[i];
      assert items[..i + 1] == items[..i] + [rs];
      assert rs in items && rs in SourcesOf(s, c, d, src);
      var found := ScanSource(s, c, rs, d);
      if found.Err? {
        return Err;
      }
      if found.value && IsConnected(c.level, d, rs) {
        out := out + [rs];
      }
    }
    assert items[..|items|] == items;
    r := Ok(out);
  }

  // ---------------------------------------------------------------- in plain terms

  /** What is found forward: connected objects of the type that some reference names, in the namespace it
      gives or else in that of o. */
  lemma ForwardIff(s: Store, c: RefConnection, o: Obj, d: Obj)
    requires d in s.objects && d.gvk in s.namespaced
    ensures ForwardRelated(s, c, o, d.gvk, d) <==> IsConnected(c.level, d, o) && exists k, ref ::
      && 0 <= k < |c.references| && c.references[k](o).Ok? && ref in c.references[k](o).value
      && ref.name == d.name && ref.group in {"", d.gvk.group} && ref.kind in {"", d.gvk.kind}
      && (s.namespaced[d.gvk] ==> d.namespace == if ref.namespace == "" then o.namespace else ref.namespace)
  {
    if k, ref :| && 0 <= k < |c.references| && c.references[k](o).Ok? && ref in c.references[k](o).value
                 && ref.name == d.name && ref.group in {"", d.gvk.group} && ref.kind in {"", d.gvk.kind}
                 && (s.namespaced[d.gvk] ==>
                       d.namespace == if ref.namespace == "" then o.namespace else ref.namespace) {
      assert Under(c, o, k, ref) && PointsAt(s, ref, o, d);
    }
  }

  /** What is found backward: a namespace is compared only for references that give none. */
  lemma BackwardIff(s: Store, c: RefConnection, d: Obj, o: Obj)
    requires o in s.objects && o.gvk in s.namespaced && d.gvk in s.namespaced
    ensures BackwardRelated(s, c, d, o.gvk, o) <==>
      && IsConnected(c.level, d, o) && IsListed(s, c, o, d) && exists k, ref ::
      && 0 <= k < |c.references| && c.references[k](o).Ok? && ref in c.references[k](o).value
      && ref.name == d.name && ref.group in {"", d.gvk.group} && ref.kind in {"", d.gvk.kind}
      && (s.namespaced[d.gvk] && ref.namespace == "" ==> d.namespace == o.namespace)
  {
    if k, ref :| && 0 <= k < |c.references| && c.references[k](o).Ok? && ref in c.references[k](o).value
                 && ref.name == d.name && ref.group in {"", d.gvk.group} && ref.kind in {"", d.gvk.kind}
                 && (s.namespaced[d.gvk] && ref.namespace == "" ==> d.namespace == o.namespace) {
      assert Under(c, o, k, ref) && Matches(s, ref, o, d);
    }
  }

  // ---------------------------------------------------------------- the two directions

  /** Of the references that match backward, one names the target's namespace, or none. */
  ghost predicate SomeMatchIsLocal(s: Store, c: RefConnection, o: Obj, d: Obj) {
    exists k, ref ::
      Under(c, o, k, ref) && Matches(s, ref, o, d) && (ref.namespace == "" || ref.namespace == d.namespace)
  }

  /** The backward code lists o at all. It does not only if the connection's namespace is the object's
      own and those of o and d differ. */
  predicate IsListed(s: Store, c: RefConnection, o: Obj, d: Obj)
    requires o.gvk in s.namespaced
  {
    OwnsNamespace(c.namespace) && s.namespaced[o.gvk] && d.namespace != "" ==> o.namespace == d.namespace
  }

  /** A target found forward finds its source backward exactly when the source is listed. A source found
      backward finds the target forward exactly when some matching reference leaves the namespace out
      or names the target's. Targets without a namespace are found both ways or neither. */
  lemma ReferenceDirections(s: Store, c: RefConnection, o: Obj, d: Obj)
    requires StoreOk(s) && o in s.objects && d in s.objects
    ensures ForwardRelated(s, c, o, d.gvk, d) ==> (BackwardRelated(s, c, d, o.gvk, o) <==> IsListed(s, c, o, d))
    ensures !s.namespaced[d.gvk] ==> (ForwardRelated(s, c, o, d.gvk, d) <==> BackwardRelated(s, c, d, o.gvk, o))
    ensures s.namespaced[d.gvk] && BackwardRelated(s, c, d, o.gvk, o) ==>
      (ForwardRelated(s, c, o, d.gvk, d) <==> SomeMatchIsLocal(s, c, o, d))
  {
    forall ref
      ensures PointsAt(s, ref, o, d) <==>
        Matches(s, ref, o, d) && (s.namespaced[d.gvk] ==> ref.namespace == "" || ref.namespace == d.namespace)
    {
    }
  }

  /** A single reference into a namespace that is not d's is matched backward all the same. */
  lemma ForeignReference(s: Store, c: RefConnection, o: Obj, d: Obj, ref: Ref)
    requires o in s.objects && d in s.objects && c.namespace == None && c.level == AnyLevel
    requires o.gvk in s.namespaced && d.gvk in s.namespaced && s.namespaced[d.gvk]
    requires |c.references| == 1 && c.references[0](o) == Ok([ref])
    requires TypeFits(ref, d.gvk) && ref.name == d.name && ref.namespace != "" && ref.namespace != d.namespace
    ensures BackwardRelated(s, c, d, o.gvk, o) && !ForwardRelated(s, c, o, d.gvk, d)
  {
    assert Under(c, o, 0, ref) && Matches(s, ref, o, d);
  }

  /** So the converse does fail: a reference into one namespace finds, backward, the object of the
      same name in another. */
  lemma ForeignNamespaceMatches()
    ensures exists s: Store, c: RefConnection, o: Obj, d: Obj :: (
      && StoreOk(s) && o in s.objects && d in s.objects && c.namespace == None
      && BackwardRelated(s, c, d, o.gvk, o) && !ForwardRelated(s, c, o, d.gvk, d))
  {
    var pod, secret := GVK("", "v1", "Pod"), GVK("", "v1", "Secret");
    var o, d := Obj(pod, "a", "app", "1", map[], []), Obj(secret, "b", "key", "2", map[], []);
    var ref := Ref("key", "c", "", "");
    var c := RefConnection([(x: Obj) => Ok([ref])], None, AnyLevel);
    var s := Store([o, d], map[pod := true, secret := true]);
    ForeignReference(s, c, o, d, ref);
  }
}
