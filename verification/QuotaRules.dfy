/** The cluster that project quotas are about, what the objects of a type use in a namespace, and
    what a rule is to be charged. */
module QuotaRules {
  import opened ObjectIds
  import opened Sums
  import opened ResourceLists
  import opened Calculators

  datatype APIType = APIType(versions: seq<string>, namespaced: bool)

  datatype Key = Key(gk: GroupKind, ns: string, name: string)

  /** An object whose usage cannot be computed makes the whole calculation fail. */
  datatype Obj = Obj(resources: Resources) | Malformed

  /** The cluster during one calculation, with the versions that have a calculator and the roles it
      counts. Every type has at least one version and no empty kind. */
  datatype Cluster = Cluster(objects: map<Key, Obj>, apiTypes: map<GroupKind, APIType>,
                             registered: set<(GroupKind, string)>, roles: map<GroupKind, AppRoles>)

  function RolesOf(c: Cluster, gk: GroupKind): AppRoles {
    if gk in c.roles then c.roles[gk] else [DEFAULT]
  }

  predicate TypesOk(c: Cluster) {
    forall gk <- c.apiTypes :: gk.kind != "" && c.apiTypes[gk].versions != []
  }

  datatype Reason = NonNamespaced | NoCalculator | UnknownGroup | UnknownType

  datatype QuotaResult = Success | Error(reason: Reason)

  datatype Result<T> = Ok(value: T) | Err

  /** A rule with an empty kind is for its whole group. */
  datatype RuleStatus = RuleStatus(rule: GroupKind, result: QuotaResult, used: ResourceList)

  datatype TypeStatus = TypeStatus(result: QuotaResult, used: ResourceList)

  // ---------------------------------------------------------------- what is to be computed

  predicate Registered(c: Cluster, gk: GroupKind)
    requires gk in c.apiTypes
  {
    exists i | 0 <= i < |c.apiTypes[gk].versions| :: (gk, c.apiTypes[gk].versions[i]) in c.registered
  }

  function ObjectsOf(c: Cluster, ns: string, gk: GroupKind): set<Key> {
    set k | k in c.objects && k.gk == gk && k.ns == ns
  }

  function ObjectUses(c: Cluster, k: Key, n: string): int {
    if k in c.objects && c.objects[k].Obj? then UsageAt(RolesUsage(c.objects[k].resources, RolesOf(c, k.gk)), n) else 0
  }

  /** The sum over the objects of one type in one namespace. */
  ghost function ObjectsUse(c: Cluster, ns: string, gk: GroupKind, n: string): int {
    Sum(ObjectsOf(c, ns, gk), k => ObjectUses(c, k, n))
  }

  ghost function TypeResult(c: Cluster, ns: string, gk: GroupKind): QuotaResult
    requires gk in c.apiTypes
  {
    if !c.apiTypes[gk].namespaced then Error(NonNamespaced)
    else if !Registered(c, gk) && ObjectsOf(c, ns, gk) != {} then Error(NoCalculator)
    else Success
  }

  ghost function TypeUses(c: Cluster, ns: string, gk: GroupKind, n: string): int {
    if gk in c.apiTypes && c.apiTypes[gk].namespaced && Registered(c, gk) then ObjectsUse(c, ns, gk, n) else 0
  }

  /** The type has an object whose usage is to be computed and cannot be. */
  ghost predicate Broken(c: Cluster, ns: string, gk: GroupKind)
    requires gk in c.apiTypes
  {
    c.apiTypes[gk].namespaced && Registered(c, gk) && SomeMalformed(c, ns, gk)
  }

  predicate SomeMalformed(c: Cluster, ns: string, gk: GroupKind) {
    exists k :: k in ObjectsOf(c, ns, gk) && c.objects[k].Malformed?
  }

  ghost predicate IsTypeStatus(c: Cluster, ns: string, gk: GroupKind, ts: TypeStatus) {
    && gk in c.apiTypes && !Broken(c, ns, gk)
    && ts.result == TypeResult(c, ns, gk)
    && forall n :: At(ts.used, n) == TypeUses(c, ns, gk, n)
  }

  /** Read off the cluster: the type is namespaced and has a calculator in some version, or no object
      in the namespace. */
  lemma TypeResultIff(c: Cluster, ns: string, gk: GroupKind)
    requires gk in c.apiTypes
    ensures TypeResult(c, ns, gk) == Success <==>
      && c.apiTypes[gk].namespaced
      && ((exists v :: v in c.apiTypes[gk].versions && (gk, v) in c.registered)
          || (forall k :: k in c.objects ==> k.gk != gk || k.ns != ns))
    ensures TypeResult(c, ns, gk).Error? ==>
      TypeResult(c, ns, gk).reason == if c.apiTypes[gk].namespaced then NoCalculator else NonNamespaced
  {
    RegisteredIff(c, gk);
    if k :| k in c.objects && k.gk == gk && k.ns == ns {
      assert k in ObjectsOf(c, ns, gk);
    }
  }

  lemma RegisteredIff(c: Cluster, gk: GroupKind)
    requires gk in c.apiTypes
    ensures Registered(c, gk) <==> exists v :: v in c.apiTypes[gk].versions && (gk, v) in c.registered
  {
    if v :| v in c.apiTypes[gk].versions && (gk, v) in c.registered {
      var i :| 0 <= i < |c.apiTypes[gk].versions| && c.apiTypes[gk].versions[i] == v;
    }
  }

  /** A type with a calculator is charged the sum over its objects in the namespace, any other nothing. */
  lemma TypeUsesIs(c: Cluster, ns: string, gk: GroupKind, n: string)
    requires gk in c.apiTypes
    ensures var countable := c.apiTypes[gk].namespaced
              && exists v :: v in c.apiTypes[gk].versions && (gk, v) in c.registered;
            TypeUses(c, ns, gk, n) ==
              if !countable then 0
              else Sum(set k | k in c.objects && k.gk == gk && k.ns == ns && c.objects[k].Obj?,
                       (k: Key) => if k in c.objects && c.objects[k].Obj?
                                   then UsageAt(RolesUsage(c.objects[k].resources, RolesOf(c, gk)), n) else 0)
  {
    RegisteredIff(c, gk);
    var computed := set k | k in c.objects && k.gk == gk && k.ns == ns && c.objects[k].Obj?;
    SumSupport(computed, ObjectsOf(c, ns, gk), k => ObjectUses(c, k, n));
    SumSame(computed, k => ObjectUses(c, k, n),
            (k: Key) => if k in c.objects && c.objects[k].Obj?
                        then UsageAt(RolesUsage(c.objects[k].resources, RolesOf(c, gk)), n) else 0);
  }

  // ---------------------------------------------------------------- UsedQuota

  method SumObjects(c: Cluster, ns: string, gk: GroupKind) returns (r: Result<ResourceList>)
    ensures r.Ok? ==> forall n :: At(r.value, n) == ObjectsUse(c, ns, gk, n)
    ensures r.Err? <==> SomeMalformed(c, ns, gk)
  {
    var used: ResourceList := map[];
    var rest := ObjectsOf(c, ns, gk);
    ghost var done: set<Key> := {};
    while rest != {}
      invariant done !! rest && done + rest == ObjectsOf(c, ns, gk)
      invariant forall k <- done :: !c.objects[k].Malformed?
      invariant forall n :: At(used, n) == Sum(done, k => ObjectUses(c, k, n))
    {
      var k :| k in rest;
      if c.objects[k].Malformed? {
        return Err;
      }
      var u := AppResources(c.objects[k].resources, RolesOf(c, gk));
      var usage := UsageOf(u);
      forall n
        ensures Sum(done + {k}, j => ObjectUses(c, j, n)) == Sum(done, j => ObjectUses(c, j, n)) + At(usage, n)
      {
        SumAdd(done, k, j => ObjectUses(c, j, n));
        UsageListHas(u, n);
      }
      used := AddResourceList(used, usage);
      done, rest := done + {k}, rest - {k};
    }
    assert done == ObjectsOf(c, ns, gk);
    r := Ok(used);
  }

  method UsedQuota(c: Cluster, ns: string, gk: GroupKind) returns (r: Result<TypeStatus>)
    requires gk in c.apiTypes
    ensures r.Ok? ==> IsTypeStatus(c, ns, gk, r.value)
    ensures r.Ok? ==> (r.value.result == Success <==>
              && c.apiTypes[gk].namespaced
              && ((exists v :: v in c.apiTypes[gk].versions && (gk, v) in c.registered)
                  || (forall k :: k in c.objects ==> k.gk != gk || k.ns != ns)))
    ensures r.Ok? && r.value.result.Error? ==>
      r.value.result.reason == if c.apiTypes[gk].namespaced then NoCalculator else NonNamespaced
    ensures r.Err? <==> Broken(c, ns, gk)
  {
    TypeResultIff(c, ns, gk);
    var typeInfo := c.apiTypes[gk];
    if !typeInfo.namespaced {
      return Ok(TypeStatus(Error(NonNamespaced), map[]));
    }
    for i := 0 to |typeInfo.versions|
      invariant forall j | 0 <= j < i :: (gk, typeInfo.versions[j]) !in c.registered
    {
      if (gk, typeInfo.versions[i]) in c.registered {
        var used := SumObjects(c, ns, gk);
        if used.Err? {
          return Err;
        }
        return Ok(TypeStatus(Success, used.value));
      }
    }
    if ObjectsOf(c, ns, gk) != {} {
      return Ok(TypeStatus(Error(NoCalculator), map[]));
    }
    r := Ok(TypeStatus(Success, map[]));
  }

  // ---------------------------------------------------------------- what a rule is to be charged

  function GroupTypes(c: Cluster, group: string): set<GroupKind> {
    set gk | gk in c.apiTypes && gk.group == group
  }

  /** The types a rule is about. */
  function RuleTypes(c: Cluster, rule: GroupKind): set<GroupKind> {
    if rule.kind == "" then GroupTypes(c, rule.group) else if rule in c.apiTypes then {rule} else {}
  }

  ghost function NamespaceUses(c: Cluster, ns: string, rule: GroupKind, n: string): int {
    TypesUse(c, ns, RuleTypes(c, rule), n)
  }

  ghost function TypesUse(c: Cluster, ns: string, types: set<GroupKind>, n: string): int {
    Sum(types, gk => TypeUses(c, ns, gk, n))
  }

  /** The direct sum, over the namespaces and the rule's types. */
  ghost function RuleUses(c: Cluster, namespaces: seq<string>, rule: GroupKind, n: string): int {
    if namespaces == [] then 0
    else RuleUses(c, namespaces[..|namespaces| - 1], rule, n) + NamespaceUses(c, namespaces[|namespaces| - 1], rule, n)
  }

  /** In this namespace nothing invalidates the rule. Only a group-wide rule is invalidated by the
      result of one of its types. */
  ghost predicate RuleOkIn(c: Cluster, ns: string, rule: GroupKind) {
    && RuleTypes(c, rule) != {}
    && (rule.kind == "" ==> forall gk <- RuleTypes(c, rule) :: TypeResult(c, ns, gk) == Success)
  }

  ghost predicate RuleOk(c: Cluster, namespaces: seq<string>, rule: GroupKind) {
    forall ns <- namespaces :: RuleOkIn(c, ns, rule)
  }

  /** The usage of everything the rule is charged with in these namespaces can be computed. */
  ghost predicate Computable(c: Cluster, namespaces: seq<string>, rule: GroupKind) {
    forall ns <- namespaces :: ComputableIn(c, ns, rule)
  }

  ghost predicate ComputableIn(c: Cluster, ns: string, rule: GroupKind) {
    forall gk <- RuleTypes(c, rule) :: !Broken(c, ns, gk)
  }

  /** In this namespace the rule is invalid for this reason: that of one of its types, or it has none. */
  ghost predicate InvalidIn(c: Cluster, ns: string, rule: GroupKind, result: QuotaResult) {
    || (RuleTypes(c, rule) == {} && result == Error(if rule.kind == "" then UnknownGroup else UnknownType))
    || SomeTypeIs(c, ns, RuleTypes(c, rule), result)
  }

  ghost predicate SomeTypeIs(c: Cluster, ns: string, types: set<GroupKind>, result: QuotaResult) {
    exists gk :: gk in types && gk in c.apiTypes && TypeResult(c, ns, gk) == result
  }

  ghost predicate Invalid(c: Cluster, namespaces: seq<string>, rule: GroupKind, result: QuotaResult) {
    exists ns :: ns in namespaces && InvalidIn(c, ns, rule, result)
  }

  lemma InvalidNext(c: Cluster, before: seq<string>, ns: string, rule: GroupKind, result: QuotaResult)
    requires Invalid(c, before, rule, result) || InvalidIn(c, ns, rule, result)
    ensures Invalid(c, before + [ns], rule, result)
  {
    assert ns in before + [ns];
    if x :| x in before && InvalidIn(c, x, rule, result) {
      assert x in before + [ns];
    }
  }

  lemma ChargeOneMore(c: Cluster, ns: string, done: set<GroupKind>, gk: GroupKind)
    requires gk !in done
    ensures forall n :: (TypesUse(c, ns, done + {gk}, n) == TypesUse(c, ns, done, n) + TypeUses(c, ns, gk, n))
  {
    forall n
      ensures TypesUse(c, ns, done + {gk}, n) == TypesUse(c, ns, done, n) + TypeUses(c, ns, gk, n)
    {
      SumAdd(done, gk, t => TypeUses(c, ns, t, n));
    }
  }

  lemma RuleOkNext(c: Cluster, before: seq<string>, ns: string, rule: GroupKind)
    ensures RuleOk(c, before + [ns], rule) <==> RuleOk(c, before, rule) && RuleOkIn(c, ns, rule)
    ensures Computable(c, before + [ns], rule) <==> Computable(c, before, rule) && ComputableIn(c, ns, rule)
    ensures rule in c.apiTypes ==>
      ((forall x <- before + [ns] :: TypeResult(c, x, rule) == Success) <==>
       (forall x <- before :: TypeResult(c, x, rule) == Success) && TypeResult(c, ns, rule) == Success)
  {
    assert forall x :: x in before + [ns] <==> x in before || x == ns;
  }

  /** The rule for a type that is there is never invalidated. */
  lemma KindRuleIsOk(c: Cluster, namespaces: seq<string>, rule: GroupKind)
    requires TypesOk(c)
    ensures rule in c.apiTypes ==> RuleOk(c, namespaces, rule)
  {
    assert rule in c.apiTypes ==> RuleTypes(c, rule) == {rule};
  }

  lemma SingleType(c: Cluster, ns: string, rule: GroupKind)
    ensures rule.kind != "" && rule in c.apiTypes ==>
      forall n :: NamespaceUses(c, ns, rule, n) == TypeUses(c, ns, rule, n)
  {
    if rule.kind != "" && rule in c.apiTypes {
      forall n
        ensures NamespaceUses(c, ns, rule, n) == TypeUses(c, ns, rule, n)
      {
        var f := gk => TypeUses(c, ns, gk, n);
        SumTake({rule}, rule, f);
        assert {rule} - {rule} == {};
      }
    }
  }
}
