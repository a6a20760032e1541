/** ResourcesFor: the forward and the backward code for selector and reference connections. What a
    field path, a label selector or a reference evaluates to is a function of the object. */
module Connections {
  import opened ObjectIds

  datatype GVK = GVK(group: string, version: string, kind: string)

  type Labels = map<string, string>

  datatype Result<+T> = Ok(value: T) | Err

  /** What looking up a field gives. */
  datatype Lookup<+T> = Found(value: T) | Absent | Bad

  datatype OwnerRef = OwnerRef(uid: string, controller: bool)

  datatype Obj = Obj(gvk: GVK, namespace: string, name: string, uid: string, labels: Labels, owners: seq<OwnerRef>)

  /** The store of the cluster; a type without an entry in `namespaced` has no REST mapping. */
  datatype Store = Store(objects: seq<Obj>, namespaced: map<GVK, bool>)

  /** A namespaced type's objects have a namespace, the others have none, and an object is
      determined by its type, namespace and name. */
  ghost predicate StoreOk(s: Store) {
    && (forall o <- s.objects :: o.gvk in s.namespaced && (s.namespaced[o.gvk] <==> o.namespace != ""))
    && (forall o, p | o in s.objects && p in s.objects && SameKey(o, p) :: o == p)
  }

  predicate SameKey(o: Obj, p: Obj) {
    o.gvk == p.gvk && o.namespace == p.namespace && o.name == p.name
  }

  // ---------------------------------------------------------------- ownership

  datatype Level = AnyLevel | Owner | Controller

  function ControllerOf(owners: seq<OwnerRef>): Option<OwnerRef> {
    if owners == [] then None else if owners[0].controller then Some(owners[0]) else ControllerOf(owners[1..])
  }

  predicate IsConnected(level: Level, obj: Obj, owner: Obj) {
    match level
    case Controller => (var c := ControllerOf(obj.owners); c.Some? && c.value.uid == owner.uid)
    case Owner => exists i :: 0 <= i < |obj.owners| && obj.owners[i].uid == owner.uid
    case AnyLevel => true
  }

  // ---------------------------------------------------------------- selectors and namespaces

  /** A selector that selects nothing has no requirements to list by. */
  datatype Selector = Nothing | Requirements(matches: Labels -> bool)

  datatype NamespaceChoice = NamespaceChoice(any: bool, names: seq<string>)

  datatype NamespaceRef =
    | OwnNamespace
    | FieldNamespace(get: Obj -> Lookup<string>)
    | LabelNamespaces(select: Obj -> Lookup<Selector>)
    | ChosenNamespaces(choose: Obj -> Lookup<NamespaceChoice>)
    | Unspecified

  /** The namespaces a connection of ref is limited to; "" stands for all. A label selector over
      namespaces is evaluated but its result is not used. */
  function Namespaces(ref: Obj, ns: Option<NamespaceRef>): Result<seq<string>> {
    match ns
    case None => Ok([""])
    case Some(OwnNamespace) => Ok([ref.namespace])
    case Some(FieldNamespace(get)) => (match get(ref) case Found(v) => Ok([v]) case Absent => Ok([]) case Bad => Err)
    case Some(LabelNamespaces(select)) => if select(ref).Bad? then Err else Ok([""])
    case Some(ChosenNamespaces(choose)) =>
      (match choose(ref)
       case Found(c) => if !c.any && c.names == [] then Ok([ref.namespace]) else Ok(c.names)
       case Absent => Ok([""])
       case Bad => Err)
    case Some(Unspecified) => Ok([""])
  }

  /** `targetLabels` is set when the labels to match are not the object's own. */
  datatype SelectorConnection = SelectorConnection(
    selector: Obj -> Result<Selector>,
    namespace: Option<NamespaceRef>,
    targetLabels: Option<Obj -> Lookup<Labels>>,
    level: Level)

  function TargetLabels(c: SelectorConnection, o: Obj): Lookup<Labels> {
    match c.targetLabels case None => Found(o.labels) case Some(get) => get(o)
  }

  function ListObjects(objects: seq<Obj>, gvk: GVK, ns: string): seq<Obj> {
    if objects == [] then []
    else ListObjects(objects[..|objects| - 1], gvk, ns)
         + var o := objects[|objects| - 1]; if o.gvk == gvk && (ns == "" || o.namespace == ns) then [o] else []
  }

  lemma {:induction false} ListHas(objects: seq<Obj>, gvk: GVK, ns: string, o: Obj)
    ensures o in ListObjects(objects, gvk, ns) <==> o in objects && o.gvk == gvk && (ns == "" || o.namespace == ns)
  {
    if objects != [] {
      ListHas(objects[..|objects| - 1], gvk, ns, o);
      assert objects == objects[..|objects| - 1] + [objects[|objects| - 1]];
    }
  }

  // ---------------------------------------------------------------- MatchSelector, forward

  /** The labels and the ownership fit, whatever the namespaces. */
  ghost predicate Selected(c: SelectorConnection, o: Obj, d: Obj) {
    && c.selector(o).Ok? && c.selector(o).value.Requirements?
    && TargetLabels(c, d).Found? && c.selector(o).value.matches(TargetLabels(c, d).value)
    && IsConnected(c.level, d, o)
  }

  /** One of the objects listed has labels that cannot be read. */
  ghost predicate HasBadLabels(c: SelectorConnection, listed: iset<Obj>) {
    exists d :: d in listed && TargetLabels(c, d).Bad?
  }

  ghost function Listed(s: Store, gvk: GVK, ns: string): iset<Obj> {
    iset d | d in s.objects && d.gvk == gvk && (ns == "" || d.namespace == ns)
  }

  /** The inner loop: what one namespace contributes. */
  method ForwardIn(s: Store, c: SelectorConnection, src: Obj, dst: GVK, ns: string) returns (r: Result<seq<Obj>>)
    requires c.selector(src).Ok? && c.selector(src).value.Requirements?
    ensures r.Err? <==> HasBadLabels(c, Listed(s, dst, ns))
    ensures r.Ok? ==> forall d :: d in r.value <==> d in Listed(s, dst, ns) && Selected(c, src, d)
  {
    var items := ListObjects(s.objects, dst, ns);
    var sel := c.selector(src).value;
    var out: seq<Obj> := [];
    forall d
      ensures d in items <==> d in Listed(s, dst, ns)
    {
      ListHas(s.objects, dst, ns, d);
    }
    for i := 0 to |items|
      invariant forall d :: d in out <==> d in items[..i] && Selected(c, src, d)
      invariant forall d <- items[..i] :: !TargetLabels(c, d).Bad?
    {
      var rs := items[i];
      assert items[..i + 1] == items[..i] + [rs];
      match TargetLabels(c, rs)
      case Bad => return Err;
      case Absent =>
      case Found(lbl) =>
        if sel.matches(lbl) && IsConnected(c.level, rs, src) {
          out := out + [rs];
        }
    }
    assert items[..|items|] == items;
    r := Ok(out);
  }

  /** Some listed namespace covers d; for a type without namespaces any entry does. */
  predicate Covered(namespaces: seq<string>, namespaced: bool, d: Obj) {
    if namespaced then "" in namespaces || d.namespace in namespaces else namespaces != []
  }

  ghost predicate ForwardRelated(s: Store, c: SelectorConnection, o: Obj, dst: GVK, d: Obj)
    requires dst in s.namespaced
  {
    && d in s.objects && d.gvk == dst && Selected(c, o, d)
    && Namespaces(o, c.namespace).Ok? && Covered(Namespaces(o, c.namespace).value, s.namespaced[dst], d)
  }

  lemma OneMoreNamespace(s: Store, namespaces: seq<string>, i: nat, dst: GVK)
    requires i < |namespaces| && dst in s.namespaced
    ensures InReach(s, namespaces[..i + 1], dst)
         == InReach(s, namespaces[..i], dst) + Listed(s, dst, if s.namespaced[dst] then namespaces[i] else "")
    ensures InReach(s, namespaces[..i + 1], dst) <= InReach(s, namespaces, dst)
  {
    assert namespaces[..i + 1] == namespaces[..i] + [namespaces[i]];
  }

  /** What is read on the way: the selector, the namespaces and, if there is anything to list by,
      the type's scope and the labels of everything in reach. */
  ghost predicate ForwardFails(s: Store, c: SelectorConnection, o: Obj, dst: GVK) {
    || c.selector(o).Err? || Namespaces(o, c.namespace).Err?
    || (&& c.selector(o).value.Requirements? && Namespaces(o, c.namespace).value != []
        && (dst !in s.namespaced || HasBadLabels(c, InReach(s, Namespaces(o, c.namespace).value, dst))))
  }

  ghost function InReach(s: Store, namespaces: seq<string>, dst: GVK): iset<Obj>
    requires dst in s.namespaced
  {
    iset d | d in s.objects && d.gvk == dst && Covered(namespaces, s.namespaced[dst], d)
  }

  method ForwardSelector(s: Store, c: SelectorConnection, src: Obj, dst: GVK) returns (r: Result<seq<Obj>>)
    ensures r.Err? <==> ForwardFails(s, c, src, dst)
    ensures r.Ok? && dst !in s.namespaced ==> r.value == []
    ensures r.Ok? && dst in s.namespaced ==> forall d :: d in r.value <==> ForwardRelated(s, c, src, dst, d)
  {
    var selector := c.selector(src);
    if selector.Err? {
      return Err;
    }
    var namespaces := Namespaces(src, c.namespace);
    if namespaces.Err? {
      return Err;
    }
    if selector.value.Nothing? {
      return Ok([]);
    }
    var out: seq<Obj> := [];
    for i := 0 to |namespaces.value|
      invariant i > 0 ==> dst in s.namespaced
      invariant dst !in s.namespaced ==> out == []
      invariant dst in s.namespaced ==> !HasBadLabels(c, InReach(s, namespaces.value[..i], dst))
      invariant dst in s.namespaced ==> (forall d :: d in out <==>
        (d in InReach(s, namespaces.value[..i], dst) && Selected(c, src, d)))
    {
      var ns := namespaces.value[i];
      assert namespaces.value[..i + 1] == namespaces.value[..i] + [ns];
      if dst !in s.namespaced {
        return Err;
      }
      var more := ForwardIn(s, c, src, dst, if s.namespaced[dst] then ns else "");
      OneMoreNamespace(s, namespaces.value, i, dst);
      if more.Err? {
        return Err;
      }
      out := out + more.value;
    }
    assert namespaces.value[..|namespaces.value|] == namespaces.value;
    r := Ok(out);
  }

  // ---------------------------------------------------------------- MatchSelector, backward

  predicate NamespaceFits(namespaces: seq<string>, ns: string) {
    ns in namespaces || namespaces == [""]
  }

  predicate ChecksNamespaces(ns: Option<NamespaceRef>) {
    ns.Some? && !ns.value.OwnNamespace?
  }

  /** The check made on each source, unless the namespace is the object's own. */
  predicate NamespaceAllows(c: SelectorConnection, o: Obj, d: Obj) {
    ChecksNamespaces(c.namespace) ==>
      Namespaces(o, c.namespace).Ok? && NamespaceFits(Namespaces(o, c.namespace).value, d.namespace)
  }

  ghost predicate BackwardRelated(s: Store, c: SelectorConnection, d: Obj, src: GVK, o: Obj)
    requires src in s.namespaced
  {
    && o in s.objects && o.gvk == src && Selected(c, o, d)
    && (s.namespaced[src] && OwnsNamespace(c.namespace) ==> d.namespace == "" || o.namespace == d.namespace)
    && NamespaceAllows(c, o, d)
  }

  predicate OwnsNamespace(ns: Option<NamespaceRef>) {
    ns.Some? && ns.value.OwnNamespace?
  }

  /** The target's labels, the source type's scope, and for each source listed its namespaces and,
      where these fit, its selector are read. */
  ghost predicate BackwardFails(s: Store, c: SelectorConnection, d: Obj, src: GVK) {
    || TargetLabels(c, d).Bad?
    || (&& TargetLabels(c, d).Found?
        && (src !in s.namespaced || exists o :: o in Sources(s, c, d, src) && SourceFails(c, o, d)))
  }

  ghost function Sources(s: Store, c: SelectorConnection, d: Obj, src: GVK): iset<Obj>
    requires src in s.namespaced
  {
    Listed(s, src, if s.namespaced[src] && OwnsNamespace(c.namespace) then d.namespace else "")
  }

  predicate SourceFails(c: SelectorConnection, o: Obj, d: Obj) {
    || (ChecksNamespaces(c.namespace) && Namespaces(o, c.namespace).Err?)
    || (NamespaceAllows(c, o, d) && c.selector(o).Err?)
  }

  method BackwardSelector(s: Store, c: SelectorConnection, d: Obj, src: GVK) returns (r: Result<seq<Obj>>)
    ensures r.Err? <==> BackwardFails(s, c, d, src)
    ensures r.Ok? && src !in s.namespaced ==> r.value == []
    ensures r.Ok? && src in s.namespaced ==> forall o :: o in r.value <==> BackwardRelated(s, c, d, src, o)
  {
    var lbl := TargetLabels(c, d);
    if lbl.Bad? {
      return Err;
    }
    if lbl.Absent? {
      return Ok([]);
    }
    if src !in s.namespaced {
      return Err;
    }
    var ns := if s.namespaced[src] && OwnsNamespace(c.namespace) then d.namespace else "";
    var items := ListObjects(s.objects, src, ns);
    forall o
      ensures o in items <==> o in Sources(s, c, d, src)
    {
      ListHas(s.objects, src, ns, o);
    }
    var out: seq<Obj> := [];
    for i := 0 to |items|
      invariant forall o :: o in out <==> (o in items[..i] && Selected(c, o, d) && NamespaceAllows(c, o, d))
      invariant forall o <- items[..i] :: !SourceFails(c, o, d)
    {
      var rs := items[i];
      assert items[..i + 1] == items[..i] + [rs];
      assert rs in items && rs in Sources(s, c, d, src);
      var found := true;
      if ChecksNamespaces(c.namespace) {
        var namespaces := Namespaces(rs, c.namespace);
        if namespaces.Err? {
          return Err;
        }
        found := NamespaceFits(namespaces.value, d.namespace);
      }
      if found {
        var selector := c.selector(rs);
        if selector.Err? {
          return Err;
        }
        if selector.value.Requirements? && selector.value.matches(lbl.value) && IsConnected(c.level, d, rs) {
          out := out + [rs];
        }
      }
    }
    assert items[..|items|] == items;
    r := Ok(out);
  }

  // ---------------------------------------------------------------- in plain terms

  /** The first owner that is a controller, any owner, or anyone. */
  lemma {:induction false} ConnectedIff(obj: Obj, owner: Obj)
    ensures IsConnected(AnyLevel, obj, owner)
    ensures IsConnected(Owner, obj, owner) <==> exists r :: r in obj.owners && r.uid == owner.uid
    ensures IsConnected(Controller, obj, owner) <==> exists i ::
      && 0 <= i < |obj.owners| && obj.owners[i].controller && obj.owners[i].uid == owner.uid
      && forall j :: 0 <= j < i ==> !obj.owners[j].controller
    ensures IsConnected(Controller, obj, owner) ==> IsConnected(Owner, obj, owner)
  {
    FirstController(obj.owners);
    if r :| r in obj.owners && r.uid == owner.uid {
      var i :| 0 <= i < |obj.owners| && obj.owners[i] == r;
    }
  }

  lemma {:induction false} FirstController(owners: seq<OwnerRef>)
    ensures ControllerOf(owners) == None ==> forall j :: 0 <= j < |owners| ==> !owners[j].controller
    ensures ControllerOf(owners).Some? ==> exists i ::
      && 0 <= i < |owners| && owners[i].controller && owners[i] == ControllerOf(owners).value
      && forall j :: 0 <= j < i ==> !owners[j].controller
  {
    if owners != [] && !owners[0].controller {
      FirstController(owners[1..]);
      if ControllerOf(owners).Some? {
        var i :| 0 <= i < |owners[1..]| && owners[1..][i].controller
                 && owners[1..][i] == ControllerOf(owners[1..]).value
                 && forall j :: 0 <= j < i ==> !owners[1..][j].controller;
        var next := i + 1;
        assert owners[next] == owners[1..][i];
        forall j | 0 <= j < next
          ensures !owners[j].controller
        {
          assert j > 0 ==> owners[j] == owners[1..][j - 1];
        }
      }
    }
  }

  /** Whether the connection reaches the target, by the kind of namespace it has; the namespaces matter
      to a target of a namespaced type only. */
  ghost predicate IsReached(ns: Option<NamespaceRef>, o: Obj, d: Obj, namespaced: bool) {
    match ns
    case None => true
    case Some(Unspecified) => true
    case Some(OwnNamespace) => namespaced ==> o.namespace == "" || d.namespace == o.namespace
    case Some(FieldNamespace(get)) =>
      get(o).Found? && (namespaced ==> get(o).value == "" || d.namespace == get(o).value)
    case Some(LabelNamespaces(select)) => !select(o).Bad?
    case Some(ChosenNamespaces(choose)) =>
      match choose(o)
      case Bad => false
      case Absent => true
      case Found(c) =>
        if c.names == [] then !c.any && (namespaced ==> o.namespace == "" || d.namespace == o.namespace)
        else namespaced ==> "" in c.names || d.namespace in c.names
  }

  /** What is found forward: the objects of the type whose labels the selector matches, that are connected
      and that the connection reaches. */
  lemma ForwardIff(s: Store, c: SelectorConnection, o: Obj, dst: GVK, d: Obj)
    requires dst in s.namespaced
    ensures ForwardRelated(s, c, o, dst, d) <==>
      && d in s.objects && d.gvk == dst && IsConnected(c.level, d, o)
      && IsReached(c.namespace, o, d, s.namespaced[dst])
      && c.selector(o).Ok? && c.selector(o).value.Requirements?
      && (match c.targetLabels
          case None => c.selector(o).value.matches(d.labels)
          case Some(get) => get(d).Found? && c.selector(o).value.matches(get(d).value))
  {
    assert forall x: string, y :: y in [x] <==> y == x;
  }

  // ---------------------------------------------------------------- the two directions agree

  /** The lists of namespaces that the two codes read differently. For a namespaced target it is "" among
      other namespaces, none of them the target's own: forward it means all namespaces, backward it is
      just a name. For a target without a namespace it is a list without "": forward any entry will do,
      backward the list is searched for the target's empty namespace. */
  predicate ReadDifferently(ns: Option<NamespaceRef>, namespaces: seq<string>, namespaced: bool, d: Obj) {
    if namespaced then "" in namespaces && namespaces != [""] && d.namespace !in namespaces
    else ChecksNamespaces(ns) && namespaces != [] && "" !in namespaces
  }

  /** Resolving forward and backward relates the same pairs exactly when no pair that otherwise fits has
      a list that is read differently. */
  lemma SelectorDirectionsAgree(s: Store, c: SelectorConnection, o: Obj, d: Obj)
    requires StoreOk(s) && o in s.objects && d in s.objects && Namespaces(o, c.namespace).Ok?
    ensures (ForwardRelated(s, c, o, d.gvk, d) <==> BackwardRelated(s, c, d, o.gvk, o))
       <==> !(Selected(c, o, d)
              && ReadDifferently(c.namespace, Namespaces(o, c.namespace).value, s.namespaced[d.gvk], d))
  {
    var nss := Namespaces(o, c.namespace).value;
    if nss == [""] {
      assert "" in nss;
    }
  }

  /** The same for what the two methods return, when neither fails. */
  lemma SelectorResultsAgree(s: Store, c: SelectorConnection, o: Obj, d: Obj, targets: seq<Obj>, sources: seq<Obj>)
    requires StoreOk(s) && o in s.objects && d in s.objects && !ForwardFails(s, c, o, d.gvk)
    requires !ReadDifferently(c.namespace, Namespaces(o, c.namespace).value, s.namespaced[d.gvk], d)
    requires forall x :: x in targets <==> ForwardRelated(s, c, o, d.gvk, x)
    requires forall x :: x in sources <==> BackwardRelated(s, c, d, o.gvk, x)
    ensures d in targets <==> o in sources
  {
    SelectorDirectionsAgree(s, c, o, d);
  }

  /** An empty list of namespaces means none: nothing is related, in either direction. */
  lemma EmptyListRelatesNothing(s: Store, c: SelectorConnection, o: Obj, d: Obj)
    requires StoreOk(s) && o in s.objects && d in s.objects && Namespaces(o, c.namespace) == Ok([])
    ensures !ForwardRelated(s, c, o, d.gvk, d) && !BackwardRelated(s, c, d, o.gvk, o)
  {
    assert ChecksNamespaces(c.namespace);
  }

  /** A connection that selects everything in the namespaces listed. */
  function SelectAll(namespaces: seq<string>): SelectorConnection {
    SelectorConnection((o: Obj) => Ok(Requirements((l: Labels) => true)),
                       Some(ChosenNamespaces((o: Obj) => Found(NamespaceChoice(false, namespaces)))), None, AnyLevel)
  }

  /** Inputs found forward and not backward: "" beside "a" for an object in "b", and "a" for an object
      without a namespace. */
  lemma WildcardAmongOthers(s: Store, o: Obj, d: Obj)
    requires StoreOk(s) && o in s.objects && d in s.objects
    ensures d.namespace == "b" ==>
      ForwardRelated(s, SelectAll(["", "a"]), o, d.gvk, d) && !BackwardRelated(s, SelectAll(["", "a"]), d, o.gvk, o)
    ensures d.namespace == "" ==>
      ForwardRelated(s, SelectAll(["a"]), o, d.gvk, d) && !BackwardRelated(s, SelectAll(["a"]), d, o.gvk, o)
  {
    var two, one := ["", "a"], ["a"];
    assert two[0] == "" && |two| == 2 && "" in two && "b" !in two && "" !in one;
    assert Selected(SelectAll(two), o, d) && Selected(SelectAll(one), o, d);
    assert Namespaces(o, SelectAll(two).namespace) == Ok(two) && Namespaces(o, SelectAll(one).namespace) == Ok(one);
  }
}
