/** What an object uses: its type's calculator reads the resources of each role, and those of the
    roles that run the application itself are added up. */
module Calculators {
  import opened Sums
  import opened ResourceLists

  type Role = string

  const DEFAULT: Role := ""

  /** What one pod of a role asks for, and how many pods there are. */
  datatype PodInfo = PodInfo(resource: ResourceList, replicas: int)

  type RoleInfo = map<Role, PodInfo>

  /** What the calculator reads off an object, for requests and for limits. */
  datatype Resources = Resources(requests: RoleInfo, limits: RoleInfo)

  /** The roles of the application; the default role is the first of them for every type. */
  type AppRoles = roles: seq<Role> | roles != [] && roles[0] == DEFAULT witness [DEFAULT]

  /** The resources that are looked at; all others are ignored. */
  const COMPUTE := [CPU, MEMORY, STORAGE]

  const CPU := "cpu"
  const MEMORY := "memory"
  const STORAGE := "storage"

  predicate Compute(n: string) {
    n in COMPUTE
  }

  function MulResourceList(x: ResourceList, multiplier: int): (r: ResourceList)
    ensures forall n :: At(r, n) == if Compute(n) then At(x, n) * multiplier else 0
    ensures forall n <- r :: Compute(n)
  {
    map n | n in x && Compute(n) && x[n] != 0 :: x[n] * multiplier
  }

  // ---------------------------------------------------------------- what is to be computed

  function RoleUse(info: RoleInfo, role: Role, n: string): int {
    if role in info && Compute(n) then At(info[role].resource, n) * info[role].replicas else 0
  }

  function RolesUse(info: RoleInfo, roles: seq<Role>, n: string): int {
    if roles == [] then 0 else RolesUse(info, roles[..|roles| - 1], n) + RoleUse(info, roles[|roles| - 1], n)
  }

  lemma RolesUseNext(info: RoleInfo, roles: seq<Role>, i: nat, n: string)
    requires i < |roles|
    ensures RolesUse(info, roles[..i + 1], n) == RolesUse(info, roles[..i], n) + RoleUse(info, roles[i], n)
  {
    assert roles[..i + 1][..i] == roles[..i];
  }

  /** The sums over the roles, without the resources of which nothing is used. */
  function RolesList(info: RoleInfo, roles: seq<Role>): ResourceList {
    map n | n in COMPUTE && RolesUse(info, roles, n) != 0 :: RolesUse(info, roles, n)
  }

  function RolesUsage(resources: Resources, roles: seq<Role>): Usage {
    Usage(RolesList(resources.requests, roles), RolesList(resources.limits, roles))
  }

  /** Of cpu, memory and storage the list has what one pod of each role asks for times its pods, added
      up over the roles; it has nothing else, and no zero. */
  ghost predicate AddsUpPods(info: RoleInfo, roles: seq<Role>, list: ResourceList) {
    && (forall n <- list :: n in ["cpu", "memory", "storage"] && list[n] != 0)
    && (forall n <- ["cpu", "memory", "storage"] :: At(list, n) ==
          SumSeq(roles, (role: Role) => if role in info then At(info[role].resource, n) * info[role].replicas else 0))
  }

  lemma UsageAddsUpPods(info: RoleInfo, roles: seq<Role>)
    ensures AddsUpPods(info, roles, RolesList(info, roles))
  {
    forall n <- ["cpu", "memory", "storage"]
      ensures At(RolesList(info, roles), n) == SumSeq(roles,
                (role: Role) => if role in info then At(info[role].resource, n) * info[role].replicas else 0)
    {
      PodsAddUp(info, roles, n);
    }
  }

  lemma {:induction false} PodsAddUp(info: RoleInfo, roles: seq<Role>, n: string)
    requires Compute(n)
    ensures RolesUse(info, roles, n) == SumSeq(roles,
              (role: Role) => if role in info then At(info[role].resource, n) * info[role].replicas else 0)
  {
    if roles != [] {
      PodsAddUp(info, roles[..|roles| - 1], n);
    }
  }

  // ---------------------------------------------------------------- the code

  ghost predicate AreRoleTotals(info: RoleInfo, totals: map<Role, ResourceList>) {
    totals.Keys == info.Keys && forall role, n :: At(RoleTotal(totals, role), n) == RoleUse(info, role, n)
  }

  function RoleTotal(totals: map<Role, ResourceList>, role: Role): ResourceList {
    if role in totals then totals[role] else map[]
  }

  /** RoleResourceRequests and RoleResourceLimits: pods times what one of them asks for. */
  method RoleTotals(info: RoleInfo) returns (totals: map<Role, ResourceList>)
    ensures AreRoleTotals(info, totals)
    ensures forall role <- info, n <- COMPUTE :: At(totals[role], n) == At(info[role].resource, n) * info[role].replicas
  {
    totals := map[];
    var rest := info.Keys;
    while rest != {}
      invariant rest <= info.Keys && totals.Keys == info.Keys - rest
      invariant forall role <- totals, n :: At(totals[role], n) == RoleUse(info, role, n)
    {
      var role :| role in rest;
      totals := totals[role := MulResourceList(info[role].resource, info[role].replicas)];
      rest := rest - {role};
    }
  }

  method SumOverRoles(totals: map<Role, ResourceList>, roles: seq<Role>, ghost info: RoleInfo)
    returns (cpu: int, memory: int, storage: int)
    requires AreRoleTotals(info, totals)
    ensures cpu == RolesUse(info, roles, CPU)
    ensures memory == RolesUse(info, roles, MEMORY)
    ensures storage == RolesUse(info, roles, STORAGE)
  {
    cpu, memory, storage := 0, 0, 0;
    for i := 0 to |roles|
      invariant cpu == RolesUse(info, roles[..i], CPU)
      invariant memory == RolesUse(info, roles[..i], MEMORY)
      invariant storage == RolesUse(info, roles[..i], STORAGE)
    {
      assert roles[..i + 1][..i] == roles[..i];
      var rl := RoleTotal(totals, roles[i]);
      cpu, memory, storage := cpu + At(rl, CPU), memory + At(rl, MEMORY), storage + At(rl, STORAGE);
    }
    assert roles[..|roles|] == roles;
  }

  function WithUnlessZero(rl: ResourceList, n: string, amount: int): (r: ResourceList)
    requires n !in rl
    ensures r.Keys == rl.Keys + (if amount != 0 then {n} else {})
    ensures forall m :: (At(r, m) == if m == n then amount else At(rl, m))
  {
    if amount != 0 then rl[n := amount] else rl
  }

  method ResourceListForRoles(totals: map<Role, ResourceList>, roles: seq<Role>, ghost info: RoleInfo)
    returns (result: ResourceList)
    requires AreRoleTotals(info, totals)
    ensures result == RolesList(info, roles)
  {
    var cpu, memory, storage := SumOverRoles(totals, roles, info);
    result := Assembled(cpu, memory, storage);
    forall n | Compute(n)
      ensures Chosen(n, cpu, memory, storage) == RolesUse(info, roles, n)
    {}
    SameList(result, RolesList(info, roles));
  }

  function Assembled(cpu: int, memory: int, storage: int): (r: ResourceList)
    ensures r.Keys == set n | n in COMPUTE && Chosen(n, cpu, memory, storage) != 0
    ensures forall n <- r :: r[n] == Chosen(n, cpu, memory, storage)
  {
    assert |CPU| == 3 && |MEMORY| == 6 && |STORAGE| == 7;
    WithUnlessZero(WithUnlessZero(WithUnlessZero(map[], CPU, cpu), MEMORY, memory), STORAGE, storage)
  }

  function Chosen(n: string, cpu: int, memory: int, storage: int): int {
    if n == CPU then cpu else if n == MEMORY then memory else storage
  }

  /** AppResourceRequests and AppResourceLimits of an object. */
  method AppResources(resources: Resources, roles: seq<Role>) returns (usage: Usage)
    ensures usage == RolesUsage(resources, roles) && NoDots(usage)
    ensures AddsUpPods(resources.requests, roles, usage.requests) && AddsUpPods(resources.limits, roles, usage.limits)
  {
    UsageAddsUpPods(resources.requests, roles);
    UsageAddsUpPods(resources.limits, roles);
    var requested := RoleTotals(resources.requests);
    var requests := ResourceListForRoles(requested, roles, resources.requests);
    var limited := RoleTotals(resources.limits);
    var limits := ResourceListForRoles(limited, roles, resources.limits);
    usage := Usage(requests, limits);
    UsageHasNoDots(resources, roles);
  }

  // ---------------------------------------------------------------- names and roles

  /** A calculator names no resource with a dot, whatever the object asks for. */
  lemma UsageHasNoDots(resources: Resources, roles: seq<Role>)
    ensures NoDots(RolesUsage(resources, roles))
  {
    assert !Dotted(CPU) && !Dotted(MEMORY) && !Dotted(STORAGE);
  }

  lemma {:induction false} RolesUseSplit(info: RoleInfo, x: seq<Role>, y: seq<Role>, n: string)
    ensures RolesUse(info, x + y, n) == RolesUse(info, x, n) + RolesUse(info, y, n)
  {
    if y == [] {
      assert x + y == x;
    } else {
      assert (x + y)[..|x + y| - 1] == x + y[..|y| - 1];
      RolesUseSplit(info, x, y[..|y| - 1], n);
    }
  }

  lemma {:induction false} IgnoredUse(info: RoleInfo, roles: seq<Role>, n: string)
    ensures !Compute(n) ==> RolesUse(info, roles, n) == 0
  {
    if roles != [] {
      IgnoredUse(info, roles[..|roles| - 1], n);
    }
  }

  lemma RolesListAt(info: RoleInfo, roles: seq<Role>, n: string)
    ensures At(RolesList(info, roles), n) == RolesUse(info, roles, n)
  {
    IgnoredUse(info, roles, n);
  }

  /** One role: pods times what one of them asks for. Several roles: what each uses, added up. */
  lemma UsageByRoles(resources: Resources, role: Role, x: seq<Role>, y: seq<Role>, n: string)
    requires n in ["cpu", "memory", "storage"]
    ensures UsageAt(RolesUsage(resources, [role]), REQUESTS + n) ==
      if role in resources.requests
      then At(resources.requests[role].resource, n) * resources.requests[role].replicas else 0
    ensures UsageAt(RolesUsage(resources, [role]), LIMITS + n) ==
      if role in resources.limits then At(resources.limits[role].resource, n) * resources.limits[role].replicas else 0
    ensures forall m :: UsageAt(RolesUsage(resources, x + y), m) ==
                          UsageAt(RolesUsage(resources, x), m) + UsageAt(RolesUsage(resources, y), m)
  {
    UsageOfPrefixed(RolesUsage(resources, [role]), n);
    RolesListAt(resources.requests, [role], n);
    RolesListAt(resources.limits, [role], n);
    assert [role][..0] == [];
    forall k
      ensures At(RolesList(resources.requests, x + y), k) ==
                At(RolesList(resources.requests, x), k) + At(RolesList(resources.requests, y), k)
      ensures At(RolesList(resources.limits, x + y), k) ==
                At(RolesList(resources.limits, x), k) + At(RolesList(resources.limits, y), k)
    {
      ListsAddUp(resources.requests, x, y, k);
      ListsAddUp(resources.limits, x, y, k);
    }
  }

  lemma ListsAddUp(info: RoleInfo, x: seq<Role>, y: seq<Role>, n: string)
    ensures At(RolesList(info, x + y), n) == At(RolesList(info, x), n) + At(RolesList(info, y), n)
  {
    RolesListAt(info, x, n);
    RolesListAt(info, y, n);
    RolesListAt(info, x + y, n);
    RolesUseSplit(info, x, y, n);
  }

  /** Nothing is used by the application's roles other than the default one. */
  predicate DefaultRoleOnly(resources: Resources, roles: AppRoles) {
    RolesUsage(resources, roles[1..]) == Usage(map[], map[])
  }

  /** What the default role uses is what the object uses exactly when its other roles use nothing. */
  lemma DefaultRoleIsAllIff(resources: Resources, roles: AppRoles)
    ensures RolesUsage(resources, [DEFAULT]) == RolesUsage(resources, roles) <==> DefaultRoleOnly(resources, roles)
  {
    DefaultListIsAllIff(resources.requests, roles);
    DefaultListIsAllIff(resources.limits, roles);
  }

  lemma DefaultListIsAllIff(info: RoleInfo, roles: AppRoles)
    ensures RolesList(info, [DEFAULT]) == RolesList(info, roles) <==> RolesList(info, roles[1..]) == map[]
  {
    assert [DEFAULT] + roles[1..] == roles;
    forall n
      ensures RolesUse(info, roles, n) == RolesUse(info, [DEFAULT], n) + RolesUse(info, roles[1..], n)
    {
      RolesUseSplit(info, [DEFAULT], roles[1..], n);
    }
    SameListIff(info, [DEFAULT], roles);
    SameListIff(info, roles[1..], []);
    assert RolesList(info, []) == map[] && forall n :: RolesUse(info, [], n) == 0;
  }

  ghost predicate SameUse(info: RoleInfo, x: seq<Role>, y: seq<Role>) {
    forall n :: RolesUse(info, x, n) == RolesUse(info, y, n)
  }

  lemma SameListIff(info: RoleInfo, x: seq<Role>, y: seq<Role>)
    ensures RolesList(info, x) == RolesList(info, y) <==> SameUse(info, x, y)
  {
    if RolesList(info, x) == RolesList(info, y) {
      forall n
        ensures RolesUse(info, x, n) == RolesUse(info, y, n)
      {
        RolesListAt(info, x, n);
        RolesListAt(info, y, n);
      }
    } else if SameUse(info, x, y) {
      SameList(RolesList(info, x), RolesList(info, y));
    }
  }

  lemma ListsDiffer(x: ResourceList, y: ResourceList) returns (n: string)
    requires x != y && (forall m <- x :: x[m] != 0) && (forall m <- y :: y[m] != 0)
    ensures At(x, n) != At(y, n)
  {
    if x.Keys == y.Keys {
      n :| n in x && x[n] != y[n];
    } else {
      n :| n in x.Keys + y.Keys && (n !in x || n !in y);
    }
  }

  /** Different usages differ in the amount of some quota resource. */
  lemma UsagesDiffer(resources: Resources, x: seq<Role>, y: seq<Role>) returns (n: string)
    requires RolesUsage(resources, x) != RolesUsage(resources, y)
    ensures UsageAt(RolesUsage(resources, x), n) != UsageAt(RolesUsage(resources, y), n)
  {
    var k: string;
    if RolesList(resources.requests, x) != RolesList(resources.requests, y) {
      k := ListsDiffer(RolesList(resources.requests, x), RolesList(resources.requests, y));
      n := REQUESTS + k;
    } else {
      k := ListsDiffer(RolesList(resources.limits, x), RolesList(resources.limits, y));
      n := LIMITS + k;
    }
    UsageOfPrefixed(RolesUsage(resources, x), k);
    UsageOfPrefixed(RolesUsage(resources, y), k);
  }

  /** None of the roles uses anything. */
  ghost predicate NoneUses(info: RoleInfo, roles: seq<Role>) {
    forall role <- roles, n :: RoleUse(info, role, n) == 0
  }

  /** The sums add up role by role, so for amounts that are not negative this means each of them. */
  lemma NothingIsUsedIff(info: RoleInfo, roles: seq<Role>)
    requires forall role, n :: RoleUse(info, role, n) >= 0
    ensures RolesList(info, roles) == map[] <==> NoneUses(info, roles)
  {
    SameListIff(info, roles, []);
    assert RolesList(info, []) == map[];
    if SameUse(info, roles, []) {
      forall role, n | role in roles
        ensures RoleUse(info, role, n) == 0
      {
        assert RolesUse(info, roles, n) == RolesUse(info, [], n);
        NoneIsUsedIff(info, roles, n);
      }
    } else {
      var n :| RolesUse(info, roles, n) != RolesUse(info, [], n);
      NoneIsUsedIff(info, roles, n);
      var role :| role in roles && RoleUse(info, role, n) != 0;
    }
  }

  lemma {:induction false} NoneIsUsedIff(info: RoleInfo, roles: seq<Role>, n: string)
    requires forall role :: RoleUse(info, role, n) >= 0
    ensures RolesUse(info, roles, n) >= 0
    ensures RolesUse(info, roles, n) == 0 <==> forall role <- roles :: RoleUse(info, role, n) == 0
  {
    if roles != [] {
      var init, last := roles[..|roles| - 1], roles[|roles| - 1];
      assert roles == init + [last];
      NoneIsUsedIff(info, init, n);
    }
  }
}
