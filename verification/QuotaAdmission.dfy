/** Admission against project quotas: deduct what is replaced, add what is requested, compare with
    the hard limits. The theorems relate the decision to the status computed afterwards. */
module QuotaAdmission {
  import opened ObjectIds
  import opened Sums
  import opened Sorting
  import opened ResourceLists
  import opened Calculators
  import opened QuotaRules
  import opened QuotaTurns
  import opened ProjectQuotas

  predicate Matches(rule: GroupKind, gk: GroupKind) {
    rule.group == gk.group && (rule.kind == "" || rule.kind == gk.kind)
  }

  /** The request creates an object, edits one, or is an operation on a referenced database object;
      `key` is the object whose usage changes and `resources` what it will ask for. */
  datatype Mode = CreateNew | Edit | Operation

  datatype Request = Request(mode: Mode, key: Key, resources: Resources)

  /** What admission counts of a request: an operation has a calculator of its own, which reads the
      scaled object but counts the default role only. */
  function DemandedRoles(c: Cluster, req: Request): seq<Role> {
    if req.mode == Operation then [DEFAULT] else RolesOf(c, req.key.gk)
  }

  function Demanded(c: Cluster, req: Request): Usage {
    RolesUsage(req.resources, DemandedRoles(c, req))
  }

  /** What the status charges once the request is applied. */
  function NewUsage(c: Cluster, req: Request): Usage {
    RolesUsage(req.resources, RolesOf(c, req.key.gk))
  }

  datatype Decision = Allow | Deny

  function DeductedRule(st: RuleStatus, gk: GroupKind, demand: ResourceList): RuleStatus {
    if st.result == Success && Matches(st.rule, gk) then st.(used := SubtractResourceList(st.used, demand)) else st
  }

  function Deducted(status: seq<RuleStatus>, gk: GroupKind, demand: ResourceList): seq<RuleStatus> {
    seq(|status|, i requires 0 <= i < |status| => DeductedRule(status[i], gk, demand))
  }

  /** No limited resource would be exceeded. A resource whose new amount is zero is not compared:
      it is missing from the sum. */
  ghost predicate Within(used: ResourceList, demand: ResourceList, hard: ResourceList) {
    forall n <- hard :: At(used, n) + At(demand, n) != 0 ==> At(used, n) + At(demand, n) <= hard[n]
  }

  ghost predicate Admits(status: seq<RuleStatus>, hard: seq<ResourceList>, gk: GroupKind, demand: ResourceList)
    requires |hard| == |status|
  {
    forall i | 0 <= i < |status| && status[i].result == Success && Matches(status[i].rule, gk) ::
      Within(status[i].used, demand, hard[i])
  }

  // ---------------------------------------------------------------- the code

  method DemandOf(resources: Resources, roles: seq<Role>) returns (demand: ResourceList)
    ensures demand == UsageList(RolesUsage(resources, roles))
  {
    var u := AppResources(resources, roles);
    demand := MergeRequestsLimits(u);
  }

  class ProjectQuota {
    var Status: seq<RuleStatus>
    const Hard: seq<ResourceList>

    constructor (status: seq<RuleStatus>, hard: seq<ResourceList>)
      requires |hard| == |status|
      ensures Status == status && Hard == hard
    {
      Status, Hard := status, hard;
    }

    ghost predicate Valid()
      reads this
    {
      |Hard| == |Status|
    }

    /** Take an object's demand off the rules it is charged to. */
    method Deduct(gk: GroupKind, resources: Resources, roles: seq<Role>)
      requires Valid()
      modifies this
      ensures Valid() && Status == Deducted(old(Status), gk, UsageList(RolesUsage(resources, roles)))
    {
      var d := DemandOf(resources, roles);
      for i := 0 to |Status|
        invariant |Status| == |old(Status)|
        invariant forall j | 0 <= j < |Status| ::
          (Status[j] == if j < i then DeductedRule(old(Status)[j], gk, d) else old(Status)[j])
      {
        var quota := Status[i];
        if quota.result == Success {
          if quota.rule.group == gk.group {
            if quota.rule.kind == "" || quota.rule.kind == gk.kind {
              quota := quota.(used := SubtractResourceList(quota.used, d));
            }
          }
          Status := Status[i := quota];
        }
      }
    }

    /** Compare every matching rule; the violations are the rules and resources exceeded. */
    method Check(gk: GroupKind, resources: Resources, roles: seq<Role>)
      returns (decision: Decision, violations: set<(nat, string)>)
      requires Valid()
      ensures decision == Allow <==> Admits(Status, Hard, gk, UsageList(RolesUsage(resources, roles)))
      ensures decision == Allow <==> violations == {}
      ensures forall i: nat, n :: (i, n) in violations <==>
        && i < |Status| && Applies(Status[i], gk)
        && Exceeds(Status[i].used, UsageList(RolesUsage(resources, roles)), Hard[i], n)
    {
      var d := DemandOf(resources, roles);
      decision, violations := Allow, {};
      for i := 0 to |Status|
        invariant forall j: nat, n :: (j, n) in violations <==>
          j < i && Applies(Status[j], gk) && Exceeds(Status[j].used, d, Hard[j], n)
        invariant decision == Allow <==> violations == {}
        invariant decision == Allow <==> Admits(Status[..i], Hard[..i], gk, d)
      {
        var quota := Status[i];
        if quota.result == Success && quota.rule.group == gk.group
          && (quota.rule.kind == "" || quota.rule.kind == gk.kind) {
          var names := Exceeded(quota.used, d, Hard[i]);
          violations := violations + NumberAll(i, names);
          if names != {} {
            decision := Deny;
          }
        }
        AdmitsOneMore(Status, Hard, gk, d, i);
      }
      assert Status[..|Status|] == Status && Hard[..|Status|] == Hard;
    }
  }

  predicate Applies(q: RuleStatus, gk: GroupKind) {
    q.result == Success && Matches(q.rule, gk)
  }

  predicate Exceeds(used: ResourceList, demand: ResourceList, hard: ResourceList, n: string) {
    n in hard && At(used, n) + At(demand, n) != 0 && At(used, n) + At(demand, n) > hard[n]
  }

  method Exceeded(used: ResourceList, demand: ResourceList, hard: ResourceList) returns (names: set<string>)
    ensures forall n :: n in names <==> Exceeds(used, demand, hard, n)
    ensures names == {} <==> Within(used, demand, hard)
  {
    var newUsed := AddResourceList(used, demand);
    names := set n | n in newUsed && n in hard && newUsed[n] > hard[n];
    assert forall n :: n in names <==> Exceeds(used, demand, hard, n);
    forall n <- hard
      ensures n in names <==> Exceeds(used, demand, hard, n)
    {}
    if names == {} {
      assert forall n <- hard :: !Exceeds(used, demand, hard, n);
    } else {
      var n :| n in names;
      assert Exceeds(used, demand, hard, n);
    }
  }

  function NumberAll(i: nat, names: set<string>): (r: set<(nat, string)>)
    ensures forall j: nat, n :: (j, n) in r <==> j == i && n in names
    ensures r == {} <==> names == {}
  {
    var r := set n | n in names :: (i, n);
    assert names != {} ==> exists n :: n in names && (i, n) in r;
    r
  }

  lemma AdmitsOneMore(status: seq<RuleStatus>, hard: seq<ResourceList>, gk: GroupKind, demand: ResourceList, i: nat)
    requires i < |status| == |hard|
    ensures Admits(status[..i + 1], hard[..i + 1], gk, demand) <==>
      Admits(status[..i], hard[..i], gk, demand) && (Applies(status[i], gk) ==> Within(status[i].used, demand, hard[i]))
  {
    assert status[..i + 1] == status[..i] + [status[i]] && hard[..i + 1] == hard[..i] + [hard[i]];
  }

  datatype Outcome = Failed | Undecided | Decided(decision: Decision)

  /** The object that the request replaces is there. */
  predicate HasOld(c: Cluster, req: Request) {
    req.key in c.objects && c.objects[req.key].Obj?
  }

  function OldUsage(c: Cluster, req: Request): Usage
    requires HasOld(c, req)
  {
    RolesUsage(c.objects[req.key].resources, RolesOf(c, req.key.gk))
  }

  /** The status that is compared: the replaced object is deducted, unless the request creates one. */
  function Compared(c: Cluster, req: Request, status: seq<RuleStatus>): seq<RuleStatus>
    requires req.mode != CreateNew ==> HasOld(c, req)
  {
    if req.mode == CreateNew then status else Deducted(status, req.key.gk, UsageList(OldUsage(c, req)))
  }

  /** The status admits the request. */
  ghost predicate AdmittedBy(c: Cluster, req: Request, status: seq<RuleStatus>, hard: seq<ResourceList>)
    requires |hard| == |status|
  {
    && (req.mode != CreateNew ==> HasOld(c, req))
    && Admits(Compared(c, req, status), hard, req.key.gk, UsageList(Demanded(c, req)))
  }

  /** One quota: deduct what is replaced, then compare. */
  method Decide(c: Cluster, req: Request, pq: ProjectQuota) returns (decision: Decision)
    requires pq.Valid() && (req.mode != CreateNew ==> HasOld(c, req))
    modifies pq
    ensures pq.Valid()
    ensures decision == Allow <==> AdmittedBy(c, req, old(pq.Status), pq.Hard)
  {
    if req.mode != CreateNew {
      pq.Deduct(req.key.gk, c.objects[req.key].resources, RolesOf(c, req.key.gk));
    }
    var violations;
    decision, violations := pq.Check(req.key.gk, req.resources, DemandedRoles(c, req));
  }

  /** What the loop over the applicable quotas decides: allowed only if each of them admits the request,
      denied only if one does not, undecided without quotas, and failed if the object to be replaced is
      missing. */
  ghost predicate IsOutcome(c: Cluster, req: Request, statuses: seq<seq<RuleStatus>>, hards: seq<seq<ResourceList>>,
                            r: Outcome) {
    SameShape(statuses, hards) &&
    match r
    case Decided(Allow) => statuses != [] && forall i | 0 <= i < |statuses| :: AdmittedBy(c, req, statuses[i], hards[i])
    case Decided(Deny) =>
      CanDeduct(c, req) && exists i | 0 <= i < |statuses| :: !AdmittedBy(c, req, statuses[i], hards[i])
    case Undecided => statuses == []
    case Failed => statuses != [] && req.mode != CreateNew && !HasOld(c, req)
  }

  ghost predicate SameShape(statuses: seq<seq<RuleStatus>>, hards: seq<seq<ResourceList>>) {
    |statuses| == |hards| && forall i | 0 <= i < |statuses| :: |hards[i]| == |statuses[i]|
  }

  ghost function Statuses(quotas: seq<ProjectQuota>): seq<seq<RuleStatus>>
    reads quotas
  {
    seq(|quotas|, i requires 0 <= i < |quotas| reads quotas => quotas[i].Status)
  }

  ghost function Hards(quotas: seq<ProjectQuota>): seq<seq<ResourceList>> {
    seq(|quotas|, i requires 0 <= i < |quotas| => quotas[i].Hard)
  }

  lemma Shapes(quotas: seq<ProjectQuota>)
    requires forall q <- quotas :: q.Valid()
    ensures SameShape(Statuses(quotas), Hards(quotas))
  {
    forall i | 0 <= i < |quotas|
      ensures |Hards(quotas)[i]| == |Statuses(quotas)[i]|
    {
      assert quotas[i] in quotas;
    }
  }

  /** The object that the request needs is there, unless it creates one. */
  predicate CanDeduct(c: Cluster, req: Request) {
    req.mode != CreateNew ==> HasOld(c, req)
  }

  /** The first i quotas admit the request. */
  ghost predicate AllAdmit(c: Cluster, req: Request, statuses: seq<seq<RuleStatus>>, hards: seq<seq<ResourceList>>,
                           i: nat)
    requires SameShape(statuses, hards) && i <= |statuses|
  {
    i == 0 || (AllAdmit(c, req, statuses, hards, i - 1) && AdmittedBy(c, req, statuses[i - 1], hards[i - 1]))
  }

  lemma {:induction false} EachAdmits(c: Cluster, req: Request, statuses: seq<seq<RuleStatus>>,
                                      hards: seq<seq<ResourceList>>, i: nat)
    requires SameShape(statuses, hards) && i <= |statuses| && AllAdmit(c, req, statuses, hards, i)
    ensures forall j | 0 <= j < i :: AdmittedBy(c, req, statuses[j], hards[j])
  {
    if i > 0 {
      EachAdmits(c, req, statuses, hards, i - 1);
    }
  }

  /** What the loop ends with when no quota denies. */
  lemma NoneDenies(c: Cluster, req: Request, statuses: seq<seq<RuleStatus>>, hards: seq<seq<ResourceList>>)
    requires SameShape(statuses, hards) && AllAdmit(c, req, statuses, hards, |statuses|)
    ensures IsOutcome(c, req, statuses, hards, if statuses == [] then Undecided else Decided(Allow))
  {
    EachAdmits(c, req, statuses, hards, |statuses|);
  }

  lemma DeniedAt(c: Cluster, req: Request, statuses: seq<seq<RuleStatus>>, hards: seq<seq<ResourceList>>, i: nat)
    requires i < |statuses| && SameShape(statuses, hards) && CanDeduct(c, req)
    requires !AdmittedBy(c, req, statuses[i], hards[i])
    ensures IsOutcome(c, req, statuses, hards, Decided(Deny))
  {}

  /** The loop over the applicable quotas; it stops at the first that denies. */
  method Create(c: Cluster, req: Request, quotas: seq<ProjectQuota>) returns (r: Outcome)
    requires Distinct(quotas) && forall q <- quotas :: q.Valid()
    modifies quotas
    ensures IsOutcome(c, req, old(Statuses(quotas)), Hards(quotas), r)
    ensures r == Failed <==> quotas != [] && req.mode != CreateNew
                             && (req.key !in c.objects || c.objects[req.key].Malformed?)
    ensures forall q <- quotas :: q.Valid()
  {
    ghost var statuses, hards := Statuses(quotas), Hards(quotas);
    Shapes(quotas);
    var ready := CanDeduct(c, req);
    r := Undecided;
    for i := 0 to |quotas|
      invariant forall q <- quotas :: q.Valid()
      invariant forall j | i <= j < |quotas| :: quotas[j].Status == statuses[j]
      invariant AllAdmit(c, req, statuses, hards, i)
      invariant r == if i == 0 then Undecided else Decided(Allow)
      invariant i > 0 ==> ready
    {
      if !ready {
        return Failed;
      }
      var decision := Decide(c, req, quotas[i]);
      r := Decided(decision);
      if decision == Deny {
        DeniedAt(c, req, statuses, hards, i);
        return;
      }
    }
    NoneDenies(c, req, statuses, hards);
  }

  // ---------------------------------------------------------------- applying the request

  /** The request stands for a real change: it replaces an object exactly when it is not a creation,
      and its type is namespaced with a registered calculator. */
  ghost predicate Sensible(c: Cluster, req: Request) {
    && (req.mode == CreateNew <==> req.key !in c.objects)
    && (req.mode != CreateNew ==> HasOld(c, req))
    && req.key.gk in c.apiTypes && c.apiTypes[req.key.gk].namespaced && Registered(c, req.key.gk)
  }

  function Applied(c: Cluster, req: Request): Cluster {
    c.(objects := c.objects[req.key := Obj(req.resources)])
  }

  function OldUse(c: Cluster, req: Request, n: string): int {
    ObjectUses(c, req.key, n)
  }

  function UseChange(c: Cluster, req: Request, n: string): int {
    UsageAt(NewUsage(c, req), n) - OldUse(c, req, n)
  }

  lemma ObjectsAfter(c: Cluster, req: Request, ns: string, n: string)
    ensures ObjectsUse(Applied(c, req), ns, req.key.gk, n) ==
              ObjectsUse(c, ns, req.key.gk, n) + if ns == req.key.ns then UseChange(c, req, n) else 0
  {
    var c', k := Applied(c, req), req.key;
    var f, g := (j: Key) => ObjectUses(c, j, n), (j: Key) => ObjectUses(c', j, n);
    var before, after := ObjectsOf(c, ns, k.gk), ObjectsOf(c', ns, k.gk);
    if ns == k.ns {
      assert after == before + {k};
      SumSupport(before, after, f);
      SumDiffersAt(after, k, f, g);
    } else {
      assert after == before;
      SumSame(before, f, g);
    }
  }

  lemma OtherObjectsStay(c: Cluster, req: Request, ns: string, gk: GroupKind, n: string)
    requires gk != req.key.gk
    ensures ObjectsUse(Applied(c, req), ns, gk, n) == ObjectsUse(c, ns, gk, n)
  {
    var c' := Applied(c, req);
    assert ObjectsOf(c', ns, gk) == ObjectsOf(c, ns, gk);
    SumSame(ObjectsOf(c, ns, gk), k => ObjectUses(c, k, n), k => ObjectUses(c', k, n));
  }

  /** The charge of a rule in one namespace moves by the change of the object, if the rule is about
      its type. */
  lemma NamespaceAfter(c: Cluster, req: Request, ns: string, rule: GroupKind, n: string)
    requires Sensible(c, req)
    ensures NamespaceUses(Applied(c, req), ns, rule, n) ==
              NamespaceUses(c, ns, rule, n)
              + if ns == req.key.ns && req.key.gk in RuleTypes(c, rule) then UseChange(c, req, n) else 0
  {
    var c', k, types := Applied(c, req), req.key, RuleTypes(c, rule);
    assert RuleTypes(c', rule) == types;
    var f, g := (gk: GroupKind) => TypeUses(c, ns, gk, n), (gk: GroupKind) => TypeUses(c', ns, gk, n);
    forall gk | gk != k.gk
      ensures f(gk) == g(gk)
    {
      OtherObjectsStay(c, req, ns, gk, n);
      assert gk in c.apiTypes ==> (Registered(c, gk) <==> Registered(c', gk));
    }
    if k.gk in types {
      ObjectsAfter(c, req, ns, n);
      assert Registered(c', k.gk);
      SumDiffersAt(types, k.gk, f, g);
    } else {
      SumSame(types, f, g);
    }
  }

  lemma {:induction false} RuleAfter(c: Cluster, req: Request, namespaces: seq<string>, rule: GroupKind, n: string)
    requires Sensible(c, req) && Distinct(namespaces)
    ensures RuleUses(Applied(c, req), namespaces, rule, n) ==
              RuleUses(c, namespaces, rule, n)
              + if req.key.ns in namespaces && req.key.gk in RuleTypes(c, rule) then UseChange(c, req, n) else 0
  {
    if namespaces != [] {
      var init, last := namespaces[..|namespaces| - 1], namespaces[|namespaces| - 1];
      assert namespaces == init + [last];
      RuleAfter(c, req, init, rule, n);
      NamespaceAfter(c, req, last, rule, n);
    }
  }

  /** Applying a request for a registered type invalidates no rule and repairs none. */
  lemma RuleOkAfter(c: Cluster, req: Request, namespaces: seq<string>, rule: GroupKind)
    requires Sensible(c, req)
    ensures RuleOk(Applied(c, req), namespaces, rule) <==> RuleOk(c, namespaces, rule)
  {
    var c' := Applied(c, req);
    assert RuleTypes(c', rule) == RuleTypes(c, rule);
    forall ns, gk | gk in c.apiTypes
      ensures TypeResult(c', ns, gk) == TypeResult(c, ns, gk)
    {
      assert Registered(c', gk) <==> Registered(c, gk);
      if gk != req.key.gk {
        assert ObjectsOf(c', ns, gk) == ObjectsOf(c, ns, gk);
      }
    }
  }

  // ---------------------------------------------------------------- the decision is right

  predicate HardIsNatural(hard: ResourceList) {
    forall n <- hard :: hard[n] >= 0
  }

  /** The request is no operation, or the scaled object uses nothing outside its default role. */
  predicate CountsAll(c: Cluster, req: Request) {
    req.mode == Operation ==> DefaultRoleOnly(req.resources, RolesOf(c, req.key.gk))
  }

  /** The demand that is compared is what will be charged exactly then. */
  lemma DemandIsCompleteIff(c: Cluster, req: Request)
    ensures Demanded(c, req) == NewUsage(c, req) <==> CountsAll(c, req)
  {
    DefaultRoleIsAllIff(req.resources, RolesOf(c, req.key.gk));
  }

  /** Within the hard limits, read off the objects themselves. */
  ghost predicate RuleWithinHard(c: Cluster, namespaces: seq<string>, rule: GroupKind, hard: ResourceList) {
    forall n <- hard :: RuleUses(c, namespaces, rule, n) <= hard[n]
  }

  lemma MatchesIsRuleTypes(c: Cluster, rule: GroupKind, gk: GroupKind)
    requires TypesOk(c) && gk in c.apiTypes
    ensures Matches(rule, gk) <==> gk in RuleTypes(c, rule)
  {}

  ghost predicate SafeAfter(c: Cluster, req: Request, namespaces: seq<string>, rules: seq<GroupKind>,
                            hard: seq<ResourceList>)
    requires |hard| == |rules|
  {
    forall i | 0 <= i < |rules| && RuleOk(Applied(c, req), namespaces, rules[i]) && Matches(rules[i], req.key.gk) ::
      RuleWithinHard(Applied(c, req), namespaces, rules[i], hard[i])
  }

  ghost predicate NaturalLimits(hard: seq<ResourceList>) {
    forall h <- hard :: HardIsNatural(h)
  }

  /** For a freshly computed status, the quota admits a creation, an edit or an operation that counts
      everything exactly when every valid rule about the object's type stays within its hard limits
      once the request is applied. */
  lemma AdmissionIsExact(c: Cluster, req: Request, namespaces: seq<string>, rules: seq<GroupKind>,
                         status: seq<RuleStatus>, hard: seq<ResourceList>)
    requires TypesOk(c) && Sensible(c, req) && CountsAll(c, req) && Distinct(namespaces) && req.key.ns in namespaces
    requires Distinct(rules) && AllCharged(c, namespaces, rules, status) && |hard| == |rules| && NaturalLimits(hard)
    ensures AdmittedBy(c, req, status, hard) <==> SafeAfter(c, req, namespaces, rules, hard)
  {
    DemandIsCompleteIff(c, req);
    forall i | 0 <= i < |rules|
      ensures AdmittedByRule(c, req, status, hard, i) <==>
        (IsBound(c, req, namespaces, rules, i) ==> RuleWithinHard(Applied(c, req), namespaces, rules[i], hard[i]))
      ensures RuleOk(Applied(c, req), namespaces, rules[i]) <==> RuleOk(c, namespaces, rules[i])
    {
      RuleComparison(c, req, namespaces, rules, status, hard, i);
      RuleOkAfter(c, req, namespaces, rules[i]);
    }
    AdmittedRuleByRule(c, req, status, hard);
  }

  /** Rule i does not stand in the way of the request. */
  ghost predicate AdmittedByRule(c: Cluster, req: Request, status: seq<RuleStatus>, hard: seq<ResourceList>, i: nat)
    requires |hard| == |status| && (req.mode != CreateNew ==> HasOld(c, req))
  {
    i < |status| && Applies(status[i], req.key.gk) ==>
      Within(Compared(c, req, status)[i].used, UsageList(Demanded(c, req)), hard[i])
  }

  lemma AdmittedRuleByRule(c: Cluster, req: Request, status: seq<RuleStatus>, hard: seq<ResourceList>)
    requires |hard| == |status| && (req.mode != CreateNew ==> HasOld(c, req))
    ensures AdmittedBy(c, req, status, hard) <==>
      forall i | 0 <= i < |status| :: AdmittedByRule(c, req, status, hard, i)
  {
    var compared := Compared(c, req, status);
    assert forall i | 0 <= i < |status| :: Applies(compared[i], req.key.gk) <==> Applies(status[i], req.key.gk);
    if AdmittedBy(c, req, status, hard) {
      forall i | 0 <= i < |status|
        ensures AdmittedByRule(c, req, status, hard, i)
      {}
    } else {
      var i :| 0 <= i < |status| && Applies(compared[i], req.key.gk)
               && !Within(compared[i].used, UsageList(Demanded(c, req)), hard[i]);
      assert !AdmittedByRule(c, req, status, hard, i);
    }
  }

  /** What is compared of a limited resource: the present use without the replaced object, and the demand. */
  ghost function ComparedUse(c: Cluster, req: Request, namespaces: seq<string>, rule: GroupKind, n: string): int {
    RuleUses(c, namespaces, rule, n) - OldUse(c, req, n) + UsageAt(Demanded(c, req), n)
  }

  lemma ComparedIsUse(c: Cluster, req: Request, namespaces: seq<string>, rules: seq<GroupKind>,
                      status: seq<RuleStatus>, i: nat, n: string)
    requires TypesOk(c) && Sensible(c, req) && Distinct(rules) && AllCharged(c, namespaces, rules, status)
    requires i < |rules| && Applies(status[i], req.key.gk)
    ensures At(Compared(c, req, status)[i].used, n) + At(UsageList(Demanded(c, req)), n) ==
              ComparedUse(c, req, namespaces, rules[i], n)
  {
    FreshStatus(c, namespaces, rules, status, i);
    UsageListHas(Demanded(c, req), n);
    if req.mode != CreateNew {
      UsageListHas(OldUsage(c, req), n);
    }
  }

  lemma FreshStatus(c: Cluster, namespaces: seq<string>, rules: seq<GroupKind>, status: seq<RuleStatus>, i: nat)
    requires Distinct(rules) && AllCharged(c, namespaces, rules, status) && i < |rules|
    ensures status[i].rule == rules[i] && (status[i].result == Success <==> RuleOk(c, namespaces, rules[i]))
    ensures status[i].result == Success ==> forall n :: At(status[i].used, n) == RuleUses(c, namespaces, rules[i], n)
  {
    assert First(rules, i);
    FirstIsChargedInFull(c, namespaces, rules, status, i);
  }

  ghost predicate IsBound(c: Cluster, req: Request, namespaces: seq<string>, rules: seq<GroupKind>, i: nat) {
    i < |rules| && RuleOk(c, namespaces, rules[i]) && Matches(rules[i], req.key.gk)
  }

  /** A valid rule about the type compares the amount the object will be charged. */
  lemma RuleComparison(c: Cluster, req: Request, namespaces: seq<string>, rules: seq<GroupKind>,
                       status: seq<RuleStatus>, hard: seq<ResourceList>, i: nat)
    requires TypesOk(c) && Sensible(c, req) && Demanded(c, req) == NewUsage(c, req)
    requires Distinct(namespaces) && req.key.ns in namespaces
    requires Distinct(rules) && AllCharged(c, namespaces, rules, status) && |hard| == |rules| && NaturalLimits(hard)
    requires i < |rules|
    ensures AdmittedByRule(c, req, status, hard, i) <==>
      (IsBound(c, req, namespaces, rules, i) ==> RuleWithinHard(Applied(c, req), namespaces, rules[i], hard[i]))
  {
    FreshStatus(c, namespaces, rules, status, i);
    if Applies(status[i], req.key.gk) {
      MatchesIsRuleTypes(c, rules[i], req.key.gk);
      forall n
        ensures At(Compared(c, req, status)[i].used, n) + At(UsageList(Demanded(c, req)), n) ==
                  RuleUses(Applied(c, req), namespaces, rules[i], n)
      {
        ComparedIsUse(c, req, namespaces, rules, status, i, n);
        RuleAfter(c, req, namespaces, rules[i], n);
      }
      assert hard[i] in hard;
      WithinIsWithinHard(Applied(c, req), namespaces, rules[i], Compared(c, req, status)[i].used,
                         UsageList(Demanded(c, req)), hard[i]);
    }
  }

  lemma WithinIsWithinHard(c: Cluster, namespaces: seq<string>, rule: GroupKind, used: ResourceList,
                           demand: ResourceList, hard: ResourceList)
    requires HardIsNatural(hard)
    requires forall n :: At(used, n) + At(demand, n) == RuleUses(c, namespaces, rule, n)
    ensures Within(used, demand, hard) <==> RuleWithinHard(c, namespaces, rule, hard)
  {}

  // ---------------------------------------------------------------- operations count one role

  /** On this status, whatever the limits, a request is admitted exactly when it is safe. */
  ghost predicate ExactForAllLimits(c: Cluster, req: Request, namespaces: seq<string>, rules: seq<GroupKind>,
                                    status: seq<RuleStatus>)
    requires |status| == |rules|
  {
    forall hard: seq<ResourceList> | |hard| == |rules| && NaturalLimits(hard) ::
      AdmittedBy(c, req, status, hard) <==> SafeAfter(c, req, namespaces, rules, hard)
  }

  ghost predicate IsNatural(u: Usage) {
    forall n :: UsageAt(u, n) >= 0
  }

  ghost predicate UsesAreNatural(c: Cluster) {
    forall k, n :: ObjectUses(c, k, n) >= 0
  }

  /** A request is judged rightly under all limits exactly when no valid rule is about its type or it
      counts everything: it is no operation, or one on an object that uses nothing outside its default
      role. */
  lemma AdmissionIsExactIff(c: Cluster, req: Request, namespaces: seq<string>, rules: seq<GroupKind>,
                            status: seq<RuleStatus>)
    requires TypesOk(c) && Sensible(c, req) && Distinct(namespaces) && req.key.ns in namespaces
    requires Distinct(rules) && AllCharged(c, namespaces, rules, status)
    requires UsesAreNatural(c) && IsNatural(Demanded(c, req)) && IsNatural(NewUsage(c, req))
    ensures ExactForAllLimits(c, req, namespaces, rules, status)
       <==> CountsAll(c, req) || forall i :: !IsBound(c, req, namespaces, rules, i)
  {
    if CountsAll(c, req) {
      forall hard: seq<ResourceList> | |hard| == |rules| && NaturalLimits(hard)
        ensures AdmittedBy(c, req, status, hard) <==> SafeAfter(c, req, namespaces, rules, hard)
      {
        AdmissionIsExact(c, req, namespaces, rules, status, hard);
      }
    } else if i :| IsBound(c, req, namespaces, rules, i) {
      var hard := MisjudgedLimits(c, req, namespaces, rules, status, i);
    } else {
      forall hard: seq<ResourceList> | |hard| == |rules| && NaturalLimits(hard)
        ensures AdmittedBy(c, req, status, hard) && SafeAfter(c, req, namespaces, rules, hard)
      {
        UnboundIsAdmitted(c, req, namespaces, rules, status, hard);
      }
    }
  }

  lemma UnboundIsAdmitted(c: Cluster, req: Request, namespaces: seq<string>, rules: seq<GroupKind>,
                          status: seq<RuleStatus>, hard: seq<ResourceList>)
    requires TypesOk(c) && Sensible(c, req) && Distinct(rules) && AllCharged(c, namespaces, rules, status)
    requires |hard| == |rules| && forall i :: !IsBound(c, req, namespaces, rules, i)
    ensures AdmittedBy(c, req, status, hard) && SafeAfter(c, req, namespaces, rules, hard)
  {
    forall i | 0 <= i < |rules|
      ensures AdmittedByRule(c, req, status, hard, i)
      ensures !(RuleOk(Applied(c, req), namespaces, rules[i]) && Matches(rules[i], req.key.gk))
    {
      assert !IsBound(c, req, namespaces, rules, i);
      FreshStatus(c, namespaces, rules, status, i);
      RuleOkAfter(c, req, namespaces, rules[i]);
    }
    AdmittedRuleByRule(c, req, status, hard);
  }

  /** Only rule i has a limit, for n. */
  ghost predicate LimitsOnly(hard: seq<ResourceList>, i: nat, n: string, limit: int) {
    i < |hard| && forall j | 0 <= j < |hard| :: (hard[j] == if j == i then map[n := limit] else map[])
  }

  function OneLimit(count: nat, i: nat, n: string, limit: int): (hard: seq<ResourceList>)
    requires i < count
    ensures |hard| == count && LimitsOnly(hard, i, n, limit) && (limit >= 0 ==> NaturalLimits(hard))
  {
    seq(count, j requires 0 <= j < count => if j == i then map[n := limit] else map[])
  }

  /** With one limit, admission and safety are two comparisons with it. */
  lemma OneLimitAdmits(c: Cluster, req: Request, namespaces: seq<string>, rules: seq<GroupKind>,
                       status: seq<RuleStatus>, i: nat, n: string, limit: int, hard: seq<ResourceList>)
    requires TypesOk(c) && Sensible(c, req)
    requires Distinct(rules) && AllCharged(c, namespaces, rules, status) && IsBound(c, req, namespaces, rules, i)
    requires |hard| == |rules| && LimitsOnly(hard, i, n, limit) && limit >= 0
    ensures AdmittedBy(c, req, status, hard) <==> ComparedUse(c, req, namespaces, rules[i], n) <= limit
  {
    FreshStatus(c, namespaces, rules, status, i);
    ComparedIsUse(c, req, namespaces, rules, status, i, n);
    OneLimitIsWithin(Compared(c, req, status)[i].used, UsageList(Demanded(c, req)), n, limit);
    forall j | 0 <= j < |rules| && j != i
      ensures AdmittedByRule(c, req, status, hard, j)
    {}
    AdmittedRuleByRule(c, req, status, hard);
  }

  lemma OneLimitIsWithin(used: ResourceList, demand: ResourceList, n: string, limit: int)
    requires limit >= 0
    ensures Within(used, demand, map[n := limit]) <==> At(used, n) + At(demand, n) <= limit
  {
    assert n in map[n := limit];
  }

  lemma OneLimitIsSafe(c: Cluster, req: Request, namespaces: seq<string>, rules: seq<GroupKind>, i: nat, n: string,
                       limit: int, hard: seq<ResourceList>)
    requires TypesOk(c) && Sensible(c, req) && Distinct(namespaces) && req.key.ns in namespaces
    requires IsBound(c, req, namespaces, rules, i) && |hard| == |rules| && LimitsOnly(hard, i, n, limit)
    ensures RuleWithinHard(Applied(c, req), namespaces, rules[i], hard[i]) <==>
              RuleUses(c, namespaces, rules[i], n) - OldUse(c, req, n) + UsageAt(NewUsage(c, req), n) <= limit
    ensures SafeAfter(c, req, namespaces, rules, hard) <==>
              RuleWithinHard(Applied(c, req), namespaces, rules[i], hard[i])
  {
    MatchesIsRuleTypes(c, rules[i], req.key.gk);
    RuleAfter(c, req, namespaces, rules[i], n);
    RuleOkAfter(c, req, namespaces, rules[i]);
    assert n in hard[i];
    forall j | 0 <= j < |rules| && j != i
      ensures RuleWithinHard(Applied(c, req), namespaces, rules[j], hard[j])
    {}
  }

  /** The present use of a rule without one of its objects is not negative. */
  lemma RestIsNatural(c: Cluster, req: Request, namespaces: seq<string>, rule: GroupKind, n: string)
    requires TypesOk(c) && Sensible(c, req) && Distinct(namespaces) && req.key.ns in namespaces
    requires UsesAreNatural(c) && Matches(rule, req.key.gk)
    ensures RuleUses(c, namespaces, rule, n) - OldUse(c, req, n) >= 0
  {
    var without := req.(resources := Resources(map[], map[]));
    UsesNothing(RolesOf(c, req.key.gk), n);
    forall k, m
      ensures ObjectUses(Applied(c, without), k, m) >= 0
    {
      UsesNothing(RolesOf(c, req.key.gk), m);
      assert ObjectUses(c, k, m) >= 0;
    }
    MatchesIsRuleTypes(c, rule, req.key.gk);
    RuleAfter(c, without, namespaces, rule, n);
    UsesStayNatural(Applied(c, without), namespaces, rule, n);
  }

  lemma UsesNothing(roles: seq<Role>, n: string)
    ensures UsageAt(RolesUsage(Resources(map[], map[]), roles), n) == 0
  {
    NoneUsed(roles);
  }

  lemma NoneUsed(roles: seq<Role>)
    ensures RolesList(map[], roles) == map[]
  {
    NothingIsUsedIff(map[], roles);
  }

  lemma {:induction false} UsesStayNatural(c: Cluster, namespaces: seq<string>, rule: GroupKind, n: string)
    requires UsesAreNatural(c)
    ensures RuleUses(c, namespaces, rule, n) >= 0
  {
    if namespaces != [] {
      var ns := namespaces[|namespaces| - 1];
      UsesStayNatural(c, namespaces[..|namespaces| - 1], rule, n);
      forall gk
        ensures TypeUses(c, ns, gk, n) >= 0
      {
        SumOfNaturals(ObjectsOf(c, ns, gk), k => ObjectUses(c, k, n));
      }
      SumOfNaturals(RuleTypes(c, rule), gk => TypeUses(c, ns, gk, n));
    }
  }

  /** A limit between what is compared and what will be charged is misjudged. */
  lemma MisjudgedLimits(c: Cluster, req: Request, namespaces: seq<string>, rules: seq<GroupKind>,
                        status: seq<RuleStatus>, i: nat)
    returns (hard: seq<ResourceList>)
    requires TypesOk(c) && Sensible(c, req) && Distinct(namespaces) && req.key.ns in namespaces
    requires Distinct(rules) && AllCharged(c, namespaces, rules, status) && IsBound(c, req, namespaces, rules, i)
    requires UsesAreNatural(c) && IsNatural(Demanded(c, req)) && IsNatural(NewUsage(c, req)) && !CountsAll(c, req)
    ensures |hard| == |rules| && NaturalLimits(hard)
    ensures AdmittedBy(c, req, status, hard) <==> !SafeAfter(c, req, namespaces, rules, hard)
  {
    var n := SomeUseDiffers(c, req);
    var rest := RuleUses(c, namespaces, rules[i], n) - OldUse(c, req, n);
    RestIsNatural(c, req, namespaces, rules[i], n);
    var demanded, charged := UsageAt(Demanded(c, req), n), UsageAt(NewUsage(c, req), n);
    var limit := rest + if demanded < charged then demanded else charged;
    hard := OneLimit(|rules|, i, n, limit);
    OneLimitAdmits(c, req, namespaces, rules, status, i, n, limit, hard);
    OneLimitIsSafe(c, req, namespaces, rules, i, n, limit, hard);
  }

  lemma SomeUseDiffers(c: Cluster, req: Request) returns (n: string)
    requires !CountsAll(c, req)
    ensures UsageAt(Demanded(c, req), n) != UsageAt(NewUsage(c, req), n)
  {
    DemandIsCompleteIff(c, req);
    n := UsagesDiffer(req.resources, DemandedRoles(c, req), RolesOf(c, req.key.gk));
  }

  // ---------------------------------------------------------------- scaling a sharded database

  const SHARDED := GroupKind("kubedb.com", "MongoDB")
  const SHARD := "total_shard"
  const SHARDED_ROLES: AppRoles := [DEFAULT, SHARD, "config_server", "mongos"]

  /** So many shard pods with one CPU each, and no pods of the default role. */
  function Shards(pods: nat): Resources {
    Resources(map[SHARD := PodInfo(map[CPU := 1], pods)], map[])
  }

  function ShardedCluster(pods: nat): Cluster {
    Cluster(map[Key(SHARDED, "a", "db") := Obj(Shards(pods))], map[SHARDED := APIType(["v1"], true)],
            {(SHARDED, "v1")}, map[SHARDED := SHARDED_ROLES])
  }

  /** With one CPU for each of the present pods as the limit, scaling to any number of pods is admitted,
      and the limit is exceeded exactly when there are more than before. */
  lemma ShardedScalingEscapes(pods: nat, more: nat, status: seq<RuleStatus>)
    requires AllCharged(ShardedCluster(pods), ["a"], [SHARDED], status)
    ensures var c, req := ShardedCluster(pods), Request(Operation, Key(SHARDED, "a", "db"), Shards(more));
            var hard := [map[CPU_REQUESTS := pods]];
            && TypesOk(c) && Sensible(c, req) && RuleOk(c, ["a"], SHARDED) && RuleWithinHard(c, ["a"], SHARDED, hard[0])
            && AdmittedBy(c, req, status, hard)
            && (RuleWithinHard(Applied(c, req), ["a"], SHARDED, hard[0]) <==> more <= pods)
  {
    var c, key := ShardedCluster(pods), Key(SHARDED, "a", "db");
    var req, hard := Request(Operation, key, Shards(more)), [map[CPU_REQUESTS := pods]];
    assert c.apiTypes[SHARDED].versions[0] == "v1" && Registered(c, SHARDED);
    assert RuleTypes(c, SHARDED) == {SHARDED};
    ShardUse(pods);
    ShardUse(more);
    ShardedUses(pods);
    assert IsBound(c, req, ["a"], [SHARDED], 0);
    OneLimitAdmits(c, req, ["a"], [SHARDED], status, 0, CPU_REQUESTS, pods, hard);
    OneLimitIsSafe(c, req, ["a"], [SHARDED], 0, CPU_REQUESTS, pods, hard);
  }

  lemma ShardUse(pods: nat)
    ensures UsageAt(RolesUsage(Shards(pods), [DEFAULT]), CPU_REQUESTS) == 0
    ensures UsageAt(RolesUsage(Shards(pods), SHARDED_ROLES), CPU_REQUESTS) == pods
  {
    var info, roles: seq<Role> := Shards(pods).requests, SHARDED_ROLES;
    assert |roles[0]| == 0 && |roles[1]| == 11 && |roles[2]| == 13 && |roles[3]| == 6;
    RolesUseNext(info, roles, 0, CPU);
    RolesUseNext(info, roles, 1, CPU);
    RolesUseNext(info, roles, 2, CPU);
    RolesUseNext(info, roles, 3, CPU);
    assert roles[..4] == roles;
    assert RoleUse(info, SHARD, CPU) == pods;
    UsageOfPrefixed(RolesUsage(Shards(pods), [DEFAULT]), CPU);
    UsageOfPrefixed(RolesUsage(Shards(pods), SHARDED_ROLES), CPU);
    RolesListAt(info, [DEFAULT], CPU);
    RolesListAt(info, SHARDED_ROLES, CPU);
  }

  lemma ShardedUses(pods: nat)
    ensures RuleUses(ShardedCluster(pods), ["a"], SHARDED, CPU_REQUESTS) == pods
    ensures OldUse(ShardedCluster(pods), Request(Operation, Key(SHARDED, "a", "db"), Shards(0)), CPU_REQUESTS) == pods
  {
    var c, key := ShardedCluster(pods), Key(SHARDED, "a", "db");
    ShardUse(pods);
    assert c.apiTypes[SHARDED].versions[0] == "v1" && Registered(c, SHARDED);
    TwoNamespaces(c, "a", "a", SHARDED, CPU_REQUESTS);
    SingleType(c, "a", SHARDED);
    assert ObjectsOf(c, "a", SHARDED) == {key};
    SumTake({key}, key, k => ObjectUses(c, k, CPU_REQUESTS));
    assert {key} - {key} == {};
  }

  // ---------------------------------------------------------------- safety over runs

  datatype Quota = Quota(namespaces: seq<string>, rules: seq<GroupKind>, hard: seq<ResourceList>)

  ghost predicate WellFormed(q: Quota) {
    Distinct(q.namespaces) && Distinct(q.rules) && |q.hard| == |q.rules| && forall h <- q.hard :: HardIsNatural(h)
  }

  /** Every valid rule of the quota is within its hard limits. */
  ghost predicate WithinQuota(c: Cluster, q: Quota)
    requires |q.hard| == |q.rules|
  {
    forall i | 0 <= i < |q.rules| && RuleOk(c, q.namespaces, q.rules[i]) ::
      RuleWithinHard(c, q.namespaces, q.rules[i], q.hard[i])
  }

  datatype Event = Admitted(req: Request) | Removed(key: Key)

  /** A request that counts everything is admitted by every quota of its namespace on a freshly
      computed status; an object that is removed is of a type with a calculator. */
  ghost predicate Happens(c: Cluster, quotas: seq<Quota>, e: Event) {
    match e
    case Admitted(req) =>
      && Sensible(c, req) && CountsAll(c, req) && IsNatural(NewUsage(c, req))
      && forall q | q in quotas && req.key.ns in q.namespaces ::
          exists status ::
            AllCharged(c, q.namespaces, q.rules, status) && |q.hard| == |status| && AdmittedBy(c, req, status, q.hard)
    case Removed(key) => key in c.objects && key.gk in c.apiTypes && Registered(c, key.gk)
  }

  function After(c: Cluster, e: Event): Cluster {
    match e
    case Admitted(req) => Applied(c, req)
    case Removed(key) => c.(objects := c.objects - {key})
  }

  lemma AdmittedStaysWithin(c: Cluster, quotas: seq<Quota>, req: Request, q: Quota)
    requires TypesOk(c) && Happens(c, quotas, Admitted(req)) && q in quotas && WellFormed(q) && WithinQuota(c, q)
    ensures WithinQuota(Applied(c, req), q)
  {
    var c' := Applied(c, req);
    if req.key.ns in q.namespaces {
      var status :| AllCharged(c, q.namespaces, q.rules, status) && |q.hard| == |status|
                    && AdmittedBy(c, req, status, q.hard);
      AdmissionIsExact(c, req, q.namespaces, q.rules, status, q.hard);
    }
    forall i | 0 <= i < |q.rules| && RuleOk(c', q.namespaces, q.rules[i])
      ensures RuleWithinHard(c', q.namespaces, q.rules[i], q.hard[i])
    {
      RuleOkAfter(c, req, q.namespaces, q.rules[i]);
      MatchesIsRuleTypes(c, q.rules[i], req.key.gk);
      if !Matches(q.rules[i], req.key.gk) || req.key.ns !in q.namespaces {
        forall n
          ensures RuleUses(c', q.namespaces, q.rules[i], n) == RuleUses(c, q.namespaces, q.rules[i], n)
        {
          RuleAfter(c, req, q.namespaces, q.rules[i], n);
        }
      }
    }
  }

  lemma ObjectsShrink(c: Cluster, key: Key, ns: string, gk: GroupKind, n: string)
    requires UsesAreNatural(c)
    ensures ObjectsUse(c.(objects := c.objects - {key}), ns, gk, n) <= ObjectsUse(c, ns, gk, n)
  {
    var c' := c.(objects := c.objects - {key});
    var f, g := (k: Key) => ObjectUses(c', k, n), (k: Key) => ObjectUses(c, k, n);
    var before, after := ObjectsOf(c, ns, gk), ObjectsOf(c', ns, gk);
    SumAtMost(after, f, g);
    if after != before {
      assert before == after + {key};
      SumAdd(after, key, g);
    }
  }

  lemma {:induction false} RuleShrinks(c: Cluster, key: Key, namespaces: seq<string>, rule: GroupKind, n: string)
    requires UsesAreNatural(c)
    ensures RuleUses(c.(objects := c.objects - {key}), namespaces, rule, n) <= RuleUses(c, namespaces, rule, n)
  {
    var c' := c.(objects := c.objects - {key});
    if namespaces != [] {
      var ns := namespaces[|namespaces| - 1];
      RuleShrinks(c, key, namespaces[..|namespaces| - 1], rule, n);
      assert RuleTypes(c', rule) == RuleTypes(c, rule);
      forall gk
        ensures TypeUses(c', ns, gk, n) <= TypeUses(c, ns, gk, n)
      {
        ObjectsShrink(c, key, ns, gk, n);
        assert gk in c.apiTypes ==> (Registered(c', gk) <==> Registered(c, gk));
      }
      SumAtMost(RuleTypes(c, rule), gk => TypeUses(c', ns, gk, n), gk => TypeUses(c, ns, gk, n));
    }
  }

  lemma RemovedStaysWithin(c: Cluster, key: Key, q: Quota)
    requires key.gk in c.apiTypes && Registered(c, key.gk) && UsesAreNatural(c) && WellFormed(q) && WithinQuota(c, q)
    ensures WithinQuota(c.(objects := c.objects - {key}), q)
  {
    var c' := c.(objects := c.objects - {key});
    forall i | 0 <= i < |q.rules| && RuleOk(c', q.namespaces, q.rules[i])
      ensures RuleWithinHard(c', q.namespaces, q.rules[i], q.hard[i])
    {
      assert RuleTypes(c', q.rules[i]) == RuleTypes(c, q.rules[i]);
      forall ns, gk | gk in c.apiTypes
        ensures TypeResult(c', ns, gk) == TypeResult(c, ns, gk)
      {
        assert Registered(c', gk) <==> Registered(c, gk);
        if gk != key.gk {
          assert ObjectsOf(c', ns, gk) == ObjectsOf(c, ns, gk);
        }
      }
      forall n
        ensures RuleUses(c', q.namespaces, q.rules[i], n) <= RuleUses(c, q.namespaces, q.rules[i], n)
      {
        RuleShrinks(c, key, q.namespaces, q.rules[i], n);
      }
    }
  }

  /** c' is where a run of events from c ends. */
  ghost predicate RunsTo(c: Cluster, quotas: seq<Quota>, events: seq<Event>, c': Cluster)
    decreases |events|
  {
    if events == [] then c' == c
    else Happens(c, quotas, events[0]) && RunsTo(After(c, events[0]), quotas, events[1..], c')
  }

  /** Over every run of admitted creations, edits and operations that count everything, and of removals,
      a cluster that starts within all its quotas stays within all of them. */
  lemma {:induction false} QuotaSafety(c: Cluster, quotas: seq<Quota>, events: seq<Event>, c': Cluster)
    requires TypesOk(c) && UsesAreNatural(c) && RunsTo(c, quotas, events, c')
    requires forall q <- quotas :: WellFormed(q) && WithinQuota(c, q)
    ensures forall q <- quotas :: |q.hard| == |q.rules| && WithinQuota(c', q)
    decreases |events|
  {
    if events == [] {
    } else {
      var e := events[0];
      var next := After(c, e);
      forall q | q in quotas
        ensures WithinQuota(next, q)
      {
        match e
        case Admitted(req) => AdmittedStaysWithin(c, quotas, req, q);
        case Removed(key) => RemovedStaysWithin(c, key, q);
      }
      assert UsesAreNatural(next) by {
        forall k, n
          ensures ObjectUses(next, k, n) >= 0
        {
          assert ObjectUses(c, k, n) >= 0;
        }
      }
      QuotaSafety(next, quotas, events[1..], c');
    }
  }
}
