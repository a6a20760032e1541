/** CalculateStatus: per namespace, every rule of a project quota is charged with what the objects
    of its types use; a memo table is shared by the rules of one namespace. */
module ProjectQuotas {
  import opened ObjectIds
  import opened Sums
  import opened Sorting
  import opened ResourceLists
  import opened Calculators
  import opened QuotaRules
  import opened QuotaTurns

  /** What is known of rule i after the given namespaces. A group-wide rule is charged by turns. One
      with a kind is charged the direct sum; if it repeats a rule for a type that is there, it takes
      over that type's status in the last namespace, which also invalidates it. */
  ghost predicate Charged(c: Cluster, namespaces: seq<string>, rules: seq<GroupKind>, picks: seq<Picks>, i: nat,
                          st: RuleStatus)
    requires i < |rules| && |picks| == |namespaces|
  {
    var rule := rules[i];
    && st.rule == rule
    && if rule.kind == "" then ChargedByTurns(c, namespaces, rules, rule, Count(rules[..i], rule), picks, st)
       else if First(rules, i) || rule !in c.apiTypes then ChargedInFull(c, namespaces, rule, st)
       else ChargedLastOnly(c, namespaces, rule, st)
  }

  ghost predicate ChargedByTurns(c: Cluster, namespaces: seq<string>, rules: seq<GroupKind>, rule: GroupKind,
                                 occurrence: nat, picks: seq<Picks>, st: RuleStatus)
    requires |picks| == |namespaces|
  {
    && (st.result == Success <==> Survives(c, namespaces, rules, rule, occurrence, picks))
    && (st.result.Error? ==> Invalid(c, namespaces, rule, st.result))
    && (st.result == Success ==> Computable(c, namespaces, rule))
    && (st.result == Success ==>
          forall n :: At(st.used, n) == Charge(c, namespaces, rules, rule, occurrence, picks, n))
  }

  ghost predicate ChargedInFull(c: Cluster, namespaces: seq<string>, rule: GroupKind, st: RuleStatus) {
    && (st.result == Success <==> RuleOk(c, namespaces, rule))
    && (st.result.Error? ==> Invalid(c, namespaces, rule, st.result))
    && (st.result == Success ==> Computable(c, namespaces, rule))
    && (st.result == Success ==> forall n :: At(st.used, n) == RuleUses(c, namespaces, rule, n))
  }

  ghost predicate ChargedLastOnly(c: Cluster, namespaces: seq<string>, rule: GroupKind, st: RuleStatus)
    requires rule in c.apiTypes
  {
    && (st.result == Success <==> forall ns <- namespaces :: TypeResult(c, ns, rule) == Success)
    && (st.result == Success && namespaces != [] ==>
          forall n :: At(st.used, n) == TypeUses(c, namespaces[|namespaces| - 1], rule, n))
  }

  // ---------------------------------------------------------------- the memo of one namespace

  type Memo = map<GroupKind, TypeStatus>

  /** After the first i rules, and the namespaces before this one: the memo has entries for those rules
      only. An entry of a type is that type's status, and every type with a rule of its own has one.
      An entry of a group is the status of the type picked; it is left behind by the occurrence whose
      turn it is, if that is valid, unless all types had entries. */
  ghost predicate MemoOk(c: Cluster, before: seq<string>, ns: string, rules: seq<GroupKind>, picks: seq<Picks>, i: nat,
                         memo: Memo, pick: Picks)
    requires i <= |rules| && |picks| == |before|
  {
    TypesMemoised(c, ns, rules, i, memo) && GroupsMemoised(c, before, ns, rules, picks, i, memo, pick)
  }

  ghost predicate TypesMemoised(c: Cluster, ns: string, rules: seq<GroupKind>, i: nat, memo: Memo)
    requires i <= |rules|
  {
    && (forall gk <- memo :: gk in rules[..i])
    && (forall gk <- memo :: gk.kind != "" ==> IsTypeStatus(c, ns, gk, memo[gk]))
    && (forall gk <- rules[..i] :: gk in c.apiTypes ==> gk in memo)
  }

  ghost predicate GroupsMemoised(c: Cluster, before: seq<string>, ns: string, rules: seq<GroupKind>, picks: seq<Picks>,
                                 i: nat, memo: Memo, pick: Picks)
    requires i <= |rules| && |picks| == |before|
  {
    && (forall rule <- memo :: rule.kind == "" ==>
          HadTurn(c, before, rules, i, rule) && IsGroupEntry(c, ns, rule, memo[rule], PickOf(pick, rule)))
    && (forall rule: GroupKind | rule.kind == "" && HadTurn(c, before, rules, i, rule) ::
          LeaderIsValid(c, before, rules, rule, picks) ==> rule in memo)
  }

  /** The occurrence whose turn it is in this namespace is one of the first i rules, and the group was
      not covered. */
  ghost predicate HadTurn(c: Cluster, before: seq<string>, rules: seq<GroupKind>, i: nat, rule: GroupKind)
    requires i <= |rules|
  {
    Turn(c, before, rule) < Count(rules[..i], rule) && !Covered(c, rules, rule, Turn(c, before, rule))
  }

  ghost predicate LeaderIsValid(c: Cluster, before: seq<string>, rules: seq<GroupKind>, rule: GroupKind,
                                picks: seq<Picks>)
    requires |picks| == |before|
  {
    Survives(c, before, rules, rule, Turn(c, before, rule), picks)
  }

  ghost predicate IsGroupEntry(c: Cluster, ns: string, rule: GroupKind, ts: TypeStatus, gk: GroupKind) {
    IsTypeStatus(c, ns, gk, ts) && ComputableIn(c, ns, rule)
  }

  // ---------------------------------------------------------------- the types of a group

  /** While the types of a group are visited: nothing is stored as long as all of them have entries. */
  ghost predicate GroupMemo(c: Cluster, ns: string, rule: GroupKind, memo0: Memo, memo: Memo, done: set<GroupKind>,
                            last: GroupKind) {
    || (memo == memo0 && done <= memo0.Keys)
    || (last in done && last !in memo0 && rule in memo && memo == memo0[rule := memo[rule]]
        && IsTypeStatus(c, ns, last, memo[rule]))
  }

  /** The status of one type of the group: its entry, or what is computed and stored under the rule's
      own key. */
  method LookUp(c: Cluster, ns: string, gk: GroupKind, memo: Memo, ghost memo0: Memo, ghost rules: seq<GroupKind>,
                ghost i: nat, ghost done: set<GroupKind>, ghost last0: GroupKind)
    returns (r: Result<(TypeStatus, Memo)>, ghost last: GroupKind)
    requires TypesOk(c) && i < |rules| && TypesMemoised(c, ns, rules, i, memo0)
    requires rules[i].kind == "" && gk in GroupTypes(c, rules[i].group)
    requires GroupMemo(c, ns, rules[i], memo0, memo, done, last0)
    ensures r.Ok? <==> !Broken(c, ns, gk)
    ensures r.Ok? ==> IsTypeStatus(c, ns, gk, r.value.0)
    ensures r.Ok? ==> GroupMemo(c, ns, rules[i], memo0, r.value.1, done + {gk}, last)
  {
    last := last0;
    if gk in memo {
      return Ok((memo[gk], memo)), last;
    }
    var computed := UsedQuota(c, ns, gk);
    if computed.Err? {
      return Err, last;
    }
    r, last := Ok((computed.value, memo[GroupKind(gk.group, "") := computed.value])), gk;
  }

  /** The rule's charge and result after some types of its group. */
  ghost predicate AddedTypes(c: Cluster, ns: string, st: RuleStatus, done: set<GroupKind>, out: RuleStatus) {
    && done <= c.apiTypes.Keys && (forall gk <- done :: !Broken(c, ns, gk))
    && out.rule == st.rule && (out.result == Success <==> forall gk <- done :: TypeResult(c, ns, gk) == Success)
    && (out.result.Error? ==> SomeTypeIs(c, ns, done, out.result))
    && forall n :: At(out.used, n) == At(st.used, n) + TypesUse(c, ns, done, n)
  }

  lemma OneMoreType(c: Cluster, ns: string, st: RuleStatus, done: set<GroupKind>, out: RuleStatus, gk: GroupKind,
                    ts: TypeStatus, next: RuleStatus)
    requires AddedTypes(c, ns, st, done, out) && gk !in done && IsTypeStatus(c, ns, gk, ts)
    requires next.rule == out.rule && next.result == (if ts.result.Error? then ts.result else out.result)
    requires forall n :: At(next.used, n) == At(out.used, n) + At(ts.used, n)
    ensures AddedTypes(c, ns, st, done + {gk}, next)
  {
    ChargeOneMore(c, ns, done, gk);
    if ts.result == Success && out.result.Error? {
      var x :| x in done && x in c.apiTypes && TypeResult(c, ns, x) == out.result;
      assert x in done + {gk};
    } else {
      assert gk in done + {gk};
    }
  }

  /** The loop over the types of a group, which ends with the type `last` without an entry, if any. */
  method ChargeGroup(c: Cluster, ns: string, st: RuleStatus, memo0: Memo, ghost rules: seq<GroupKind>, ghost i: nat)
    returns (r: Result<(RuleStatus, Memo)>, ghost last: GroupKind)
    requires TypesOk(c) && i < |rules| && st.rule == rules[i] && st.rule.kind == "" && st.result == Success
    requires TypesMemoised(c, ns, rules, i, memo0) && st.rule !in memo0
    ensures r.Ok? ==> AddedUp(c, ns, st, r.value.0)
    ensures r.Ok? ==> GroupMemo(c, ns, st.rule, memo0, r.value.1, GroupTypes(c, st.rule.group), last)
    ensures r.Ok? <==> ComputableIn(c, ns, st.rule)
  {
    var rule, memo := st.rule, memo0;
    var out := st;
    var isGroupFound := false;
    var rest := c.apiTypes.Keys;
    ghost var done: set<GroupKind> := {};
    last := rule;
    while rest != {}
      invariant rest <= c.apiTypes.Keys && done == GroupTypes(c, rule.group) - rest
      invariant isGroupFound <==> done != {}
      invariant AddedTypes(c, ns, st, done, out)
      invariant GroupMemo(c, ns, rule, memo0, memo, done, last)
    {
      var gk :| gk in rest;
      OneLessToVisit(GroupTypes(c, rule.group), rest, gk);
      rest := rest - {gk};
      if gk.group == rule.group {
        var found;
        found, last := LookUp(c, ns, gk, memo, memo0, rules, i, done, last);
        if found.Err? {
          return Err, last;
        }
        ghost var before := out;
        var ts := found.value.0;
        memo := found.value.1;
        out := out.(used := AddResourceList(out.used, ts.used));
        if ts.result.Error? {
          out := out.(result := ts.result);
        }
        isGroupFound := true;
        OneMoreType(c, ns, st, done, before, gk, ts, out);
        done := done + {gk};
      }
    }
    assert done == GroupTypes(c, rule.group);
    AllTypesAdded(c, ns, st, out);
    if !isGroupFound {
      out := out.(result := Error(UnknownGroup));
    }
    r := Ok((out, memo));
  }

  lemma OneLessToVisit(all: set<GroupKind>, rest: set<GroupKind>, gk: GroupKind)
    requires gk in rest
    ensures all - (rest - {gk}) == if gk in all then (all - rest) + {gk} else all - rest
    ensures gk !in all - rest && (gk in all ==> (all - rest) + {gk} != {})
  {}

  lemma AllTypesAdded(c: Cluster, ns: string, st: RuleStatus, out: RuleStatus)
    requires AddedTypes(c, ns, st, GroupTypes(c, st.rule.group), out) && st.rule.kind == ""
    ensures ComputableIn(c, ns, st.rule)
    ensures GroupTypes(c, st.rule.group) != {} ==> AddedUp(c, ns, st, out)
    ensures GroupTypes(c, st.rule.group) == {} ==> AddedUp(c, ns, st, out.(result := Error(UnknownGroup)))
  {
    assert RuleTypes(c, st.rule) == GroupTypes(c, st.rule.group);
  }

  /** The rule's charge and result after it added up what its types use in ns. */
  ghost predicate AddedUp(c: Cluster, ns: string, st: RuleStatus, out: RuleStatus) {
    && out.rule == st.rule
    && (out.result == Success <==> RuleOkIn(c, ns, st.rule))
    && (out.result.Error? ==> InvalidIn(c, ns, st.rule, out.result))
    && forall n :: At(out.used, n) == At(st.used, n) + NamespaceUses(c, ns, st.rule, n)
  }

  // ---------------------------------------------------------------- one rule in one namespace

  /** The picks after rule i; only a rule whose turn is not over can change its own. */
  ghost predicate Repicked(c: Cluster, before: seq<string>, rules: seq<GroupKind>, i: nat, pick: Picks, pick': Picks)
    requires i < |rules|
  {
    forall rule :: PickOf(pick', rule) != PickOf(pick, rule) ==>
      rule == rules[i] && Count(rules[..i], rule) <= Turn(c, before, rule)
  }

  /** What holds after rule i. */
  ghost predicate RuleDone(c: Cluster, before: seq<string>, ns: string, rules: seq<GroupKind>, picks: seq<Picks>,
                           i: nat, pick: Picks, out: RuleStatus, memo: Memo, pick': Picks)
    requires i < |rules| && |picks| == |before|
  {
    && MemoOk(c, before, ns, rules, picks, i + 1, memo, pick')
    && Charged(c, before + [ns], rules, picks + [pick'], i, out)
    && PicksFit(c, before, rules, pick') && Repicked(c, before, rules, i, pick, pick')
  }

  /** What holds before it. */
  ghost predicate RuleReady(c: Cluster, before: seq<string>, ns: string, rules: seq<GroupKind>, picks: seq<Picks>,
                            i: nat, pick: Picks, st: RuleStatus, memo: Memo)
    requires i < |rules| && |picks| == |before|
  {
    && TypesOk(c) && MemoOk(c, before, ns, rules, picks, i, memo, pick)
    && Charged(c, before, rules, picks, i, st)
    && PicksFit(c, before, rules, pick) && AllPicksFit(c, before, rules, picks)
  }

  method ChargeRule(c: Cluster, ns: string, st: RuleStatus, memo: Memo, ghost rules: seq<GroupKind>, ghost i: nat,
                    ghost before: seq<string>, ghost picks: seq<Picks>, ghost pick0: Picks)
    returns (r: Result<(RuleStatus, Memo)>, ghost pick: Picks)
    requires i < |rules| && |picks| == |before| && RuleReady(c, before, ns, rules, picks, i, pick0, st, memo)
    ensures r.Ok? ==> RuleDone(c, before, ns, rules, picks, i, pick0, r.value.0, r.value.1, pick)
    ensures r.Err? ==> !ComputableIn(c, ns, st.rule)
  {
    var rule := st.rule;
    pick := pick0;
    if st.result.Error? {
      SkippedRule(c, before, ns, rules, picks, i, pick, st, memo);
      return Ok((st, memo)), pick;
    }
    if rule in memo {
      r := Ok((RuleStatus(rule, memo[rule].result, memo[rule].used), memo));
      HitRule(c, before, ns, rules, picks, i, pick, st, memo, r.value.0);
      return;
    }
    if rule.kind == "" {
      ghost var last;
      r, last := ChargeGroup(c, ns, st, memo, rules, i);
      if r.Ok? {
        pick := GroupRule(c, before, ns, rules, picks, i, pick, st, memo, r.value.0, r.value.1, last);
      }
    } else if rule !in c.apiTypes {
      r := Ok((st.(result := Error(UnknownType)), memo));
      UnknownRule(c, before, ns, rules, picks, i, pick, st, memo, r.value.0);
    } else {
      var ts := UsedQuota(c, ns, rule);
      if ts.Err? {
        return Err, pick;
      }
      r := Ok((st.(used := AddResourceList(st.used, ts.value.used)), memo[rule := ts.value]));
      KindRule(c, before, ns, rules, picks, i, pick, st, memo, r.value.0, ts.value);
    }
  }

  /** The memo stays as it is: there is nothing to store for rule i. */
  lemma MemoStays(c: Cluster, before: seq<string>, ns: string, rules: seq<GroupKind>, picks: seq<Picks>, i: nat,
                  memo: Memo, pick: Picks)
    requires i < |rules| && |picks| == |before| && MemoOk(c, before, ns, rules, picks, i, memo, pick)
    requires rules[i] in c.apiTypes ==> rules[i] in memo
    requires rules[i].kind == "" && HadTurn(c, before, rules, i + 1, rules[i]) ==>
               LeaderIsValid(c, before, rules, rules[i], picks) ==> rules[i] in memo
    ensures MemoOk(c, before, ns, rules, picks, i + 1, memo, pick)
  {
    assert rules[..i + 1] == rules[..i] + [rules[i]];
    TurnsSoFar(c, before, rules, i);
  }

  lemma TurnsSoFar(c: Cluster, before: seq<string>, rules: seq<GroupKind>, i: nat)
    requires i < |rules|
    ensures forall rule ::
      rule != rules[i] ==> (HadTurn(c, before, rules, i + 1, rule) <==> HadTurn(c, before, rules, i, rule))
    ensures HadTurn(c, before, rules, i, rules[i]) ==> HadTurn(c, before, rules, i + 1, rules[i])
  {
    forall rule
      ensures Count(rules[..i + 1], rule) == Count(rules[..i], rule) + if rules[i] == rule then 1 else 0
    {
      CountNext(rules, i, rule);
    }
  }

  /** A rule that is invalid already stays so. */
  lemma SkippedRule(c: Cluster, before: seq<string>, ns: string, rules: seq<GroupKind>, picks: seq<Picks>, i: nat,
                    pick: Picks, st: RuleStatus, memo: Memo)
    requires i < |rules| && |picks| == |before| && RuleReady(c, before, ns, rules, picks, i, pick, st, memo)
    requires st.result.Error?
    ensures RuleDone(c, before, ns, rules, picks, i, pick, st, memo, pick)
  {
    SkippedStaysCharged(c, before, ns, rules, picks, i, pick, st);
    SkippedMemo(c, before, ns, rules, picks, i, pick, st, memo);
  }

  lemma SkippedStaysCharged(c: Cluster, before: seq<string>, ns: string, rules: seq<GroupKind>, picks: seq<Picks>,
                            i: nat, pick: Picks, st: RuleStatus)
    requires TypesOk(c) && i < |rules| && |picks| == |before|
    requires Charged(c, before, rules, picks, i, st) && st.result.Error?
    ensures Charged(c, before + [ns], rules, picks + [pick], i, st)
  {
    RuleOkNext(c, before, ns, rules[i]);
    SurvivesNext(c, before, ns, rules, rules[i], Count(rules[..i], rules[i]), picks, pick);
    if Invalid(c, before, rules[i], st.result) {
      InvalidNext(c, before, ns, rules[i], st.result);
    }
  }

  /** Rules for types are skipped only after a memo hit; a group-wide one may have had its turn. */
  lemma SkippedMemo(c: Cluster, before: seq<string>, ns: string, rules: seq<GroupKind>, picks: seq<Picks>, i: nat,
                    pick: Picks, st: RuleStatus, memo: Memo)
    requires i < |rules| && |picks| == |before| && RuleReady(c, before, ns, rules, picks, i, pick, st, memo)
    requires st.result.Error?
    ensures MemoOk(c, before, ns, rules, picks, i + 1, memo, pick)
  {
    SkippedIsRepeated(c, before, rules, picks, i, st);
    CountNext(rules, i, rules[i]);
    MemoStays(c, before, ns, rules, picks, i, memo, pick);
  }

  lemma SkippedIsRepeated(c: Cluster, before: seq<string>, rules: seq<GroupKind>, picks: seq<Picks>, i: nat,
                          st: RuleStatus)
    requires TypesOk(c) && i < |rules| && |picks| == |before|
    requires Charged(c, before, rules, picks, i, st) && st.result.Error?
    ensures rules[i] in c.apiTypes ==> rules[i] in rules[..i]
  {
    FirstIsNew(rules, i);
    KindRuleIsOk(c, before, rules[i]);
  }

  /** A repeated rule takes over the entry. */
  lemma HitRule(c: Cluster, before: seq<string>, ns: string, rules: seq<GroupKind>, picks: seq<Picks>, i: nat,
                pick: Picks, st: RuleStatus, memo: Memo, out: RuleStatus)
    requires i < |rules| && |picks| == |before| && RuleReady(c, before, ns, rules, picks, i, pick, st, memo)
    requires st.result == Success && rules[i] in memo
    requires out == RuleStatus(rules[i], memo[rules[i]].result, memo[rules[i]].used)
    ensures RuleDone(c, before, ns, rules, picks, i, pick, out, memo, pick)
  {
    FirstIsNew(rules, i);
    MemoStays(c, before, ns, rules, picks, i, memo, pick);
    if rules[i].kind == "" {
      HitGroupRule(c, before, ns, rules, picks, i, pick, st, memo[rules[i]], out);
    } else {
      HitKindRule(c, before, ns, rules[i], st, memo[rules[i]], out);
    }
  }

  lemma HitKindRule(c: Cluster, before: seq<string>, ns: string, rule: GroupKind, st: RuleStatus, ts: TypeStatus,
                    out: RuleStatus)
    requires IsTypeStatus(c, ns, rule, ts) && ChargedLastOnly(c, before, rule, st) && st.result == Success
    requires out.result == ts.result && out.used == ts.used
    ensures ChargedLastOnly(c, before + [ns], rule, out)
  {
    RuleOkNext(c, before, ns, rule);
  }

  lemma HitGroupRule(c: Cluster, before: seq<string>, ns: string, rules: seq<GroupKind>, picks: seq<Picks>, i: nat,
                     pick: Picks, st: RuleStatus, ts: TypeStatus, out: RuleStatus)
    requires TypesOk(c) && i < |rules| && |picks| == |before| && rules[i].kind == ""
    requires Charged(c, before, rules, picks, i, st) && st.result == Success && PicksFit(c, before, rules, pick)
    requires HadTurn(c, before, rules, i, rules[i]) && IsGroupEntry(c, ns, rules[i], ts, PickOf(pick, rules[i]))
    requires out == RuleStatus(rules[i], ts.result, ts.used)
    ensures Charged(c, before + [ns], rules, picks + [pick], i, out)
  {
    var rule, gk, occurrence := rules[i], PickOf(pick, rules[i]), Count(rules[..i], rules[i]);
    assert PickFits(c, before, rules, rule, gk);
    assert gk in RuleTypes(c, rule);
    RuleOkNext(c, before, ns, rule);
    SurvivesNext(c, before, ns, rules, rule, occurrence, picks, pick);
    forall n
      ensures Charge(c, before + [ns], rules, rule, occurrence, picks + [pick], n) == TypeUses(c, ns, gk, n)
    {
      ChargeNext(c, before, ns, rules, rule, occurrence, picks, pick, n);
    }
    if ts.result.Error? {
      assert SomeTypeIs(c, ns, RuleTypes(c, rule), ts.result);
      InvalidNext(c, before, ns, rule, ts.result);
    }
  }

  /** A valid group-wide rule without an entry adds up, whether it is its turn or the group is covered. */
  lemma NoEntryAddsUp(c: Cluster, before: seq<string>, ns: string, rules: seq<GroupKind>, picks: seq<Picks>, i: nat,
                      pick: Picks, st: RuleStatus, memo: Memo)
    requires i < |rules| && |picks| == |before| && RuleReady(c, before, ns, rules, picks, i, pick, st, memo)
    requires st.result == Success && rules[i].kind == "" && rules[i] !in memo
    ensures AddsUp(c, rules, rules[i], Count(rules[..i], rules[i]), Turn(c, before, rules[i]))
    ensures Turn(c, before, rules[i]) <= Count(rules[..i], rules[i])
  {
    var rule, occurrence, turn := rules[i], Count(rules[..i], rules[i]), Turn(c, before, rules[i]);
    SurvivorsAreLate(c, before, rules, rule, occurrence, picks);
    Together(c, before, rules, rule, occurrence, turn, picks);
  }

  /** A group-wide rule that adds up. */
  lemma GroupRule(c: Cluster, before: seq<string>, ns: string, rules: seq<GroupKind>, picks: seq<Picks>, i: nat,
                  pick0: Picks, st: RuleStatus, memo0: Memo, out: RuleStatus, memo: Memo, last: GroupKind)
    returns (pick: Picks)
    requires i < |rules| && |picks| == |before| && RuleReady(c, before, ns, rules, picks, i, pick0, st, memo0)
    requires st.result == Success && rules[i].kind == "" && rules[i] !in memo0
    requires AddedUp(c, ns, st, out) && ComputableIn(c, ns, rules[i])
    requires GroupMemo(c, ns, rules[i], memo0, memo, GroupTypes(c, rules[i].group), last)
    ensures RuleDone(c, before, ns, rules, picks, i, pick0, out, memo, pick)
  {
    NoEntryAddsUp(c, before, ns, rules, picks, i, pick0, st, memo0);
    if memo == memo0 && GroupTypes(c, rules[i].group) <= memo0.Keys {
      pick := pick0;
      NothingStored(c, before, ns, rules, picks, i, memo, pick);
    } else {
      pick := pick0[rules[i] := last];
      SomethingStored(c, before, ns, rules, picks, i, memo0, pick0, memo[rules[i]], last);
    }
    GroupIsCharged(c, before, ns, rules, picks, i, pick, st, out);
  }

  lemma GroupIsCharged(c: Cluster, before: seq<string>, ns: string, rules: seq<GroupKind>, picks: seq<Picks>, i: nat,
                       pick: Picks, st: RuleStatus, out: RuleStatus)
    requires i < |rules| && |picks| == |before| && rules[i].kind == ""
    requires Charged(c, before, rules, picks, i, st) && st.result == Success
    requires AddsUp(c, rules, rules[i], Count(rules[..i], rules[i]), Turn(c, before, rules[i]))
    requires AddedUp(c, ns, st, out) && ComputableIn(c, ns, rules[i])
    ensures Charged(c, before + [ns], rules, picks + [pick], i, out)
  {
    var rule, occurrence := rules[i], Count(rules[..i], rules[i]);
    RuleOkNext(c, before, ns, rule);
    SurvivesNext(c, before, ns, rules, rule, occurrence, picks, pick);
    forall n
      ensures Charge(c, before + [ns], rules, rule, occurrence, picks + [pick], n) ==
                Charge(c, before, rules, rule, occurrence, picks, n) + NamespaceUses(c, ns, rule, n)
    {
      ChargeNext(c, before, ns, rules, rule, occurrence, picks, pick, n);
    }
    if out.result.Error? {
      InvalidNext(c, before, ns, rule, out.result);
    }
  }

  lemma NothingStored(c: Cluster, before: seq<string>, ns: string, rules: seq<GroupKind>, picks: seq<Picks>, i: nat,
                      memo: Memo, pick: Picks)
    requires TypesOk(c) && i < |rules| && |picks| == |before| && MemoOk(c, before, ns, rules, picks, i, memo, pick)
    requires rules[i].kind == "" && rules[i] !in memo && GroupTypes(c, rules[i].group) <= memo.Keys
    requires AddsUp(c, rules, rules[i], Count(rules[..i], rules[i]), Turn(c, before, rules[i]))
    requires Turn(c, before, rules[i]) <= Count(rules[..i], rules[i])
    ensures MemoOk(c, before, ns, rules, picks, i + 1, memo, pick)
  {
    AllBefore(c, rules, i);
    MemoStays(c, before, ns, rules, picks, i, memo, pick);
  }

  /** It was its turn, and the group was not covered. */
  lemma SomethingStored(c: Cluster, before: seq<string>, ns: string, rules: seq<GroupKind>, picks: seq<Picks>, i: nat,
                        memo: Memo, pick: Picks, ts: TypeStatus, last: GroupKind)
    requires TypesOk(c) && i < |rules| && |picks| == |before| && MemoOk(c, before, ns, rules, picks, i, memo, pick)
    requires PicksFit(c, before, rules, pick) && rules[i].kind == "" && ComputableIn(c, ns, rules[i])
    requires last in GroupTypes(c, rules[i].group) && last !in memo && IsTypeStatus(c, ns, last, ts)
    requires AddsUp(c, rules, rules[i], Count(rules[..i], rules[i]), Turn(c, before, rules[i]))
    requires Turn(c, before, rules[i]) <= Count(rules[..i], rules[i])
    ensures MemoOk(c, before, ns, rules, picks, i + 1, memo[rules[i] := ts], pick[rules[i] := last])
    ensures PicksFit(c, before, rules, pick[rules[i] := last])
    ensures Repicked(c, before, rules, i, pick, pick[rules[i] := last])
  {
    StoredInTurn(c, before, rules, i, last);
    TypesStayMemoised(c, ns, rules, i, memo, ts);
    GroupsStayMemoised(c, before, ns, rules, picks, i, memo, pick, ts, last);
  }

  lemma TypesStayMemoised(c: Cluster, ns: string, rules: seq<GroupKind>, i: nat, memo: Memo, ts: TypeStatus)
    requires TypesOk(c) && i < |rules| && TypesMemoised(c, ns, rules, i, memo) && rules[i].kind == ""
    ensures TypesMemoised(c, ns, rules, i + 1, memo[rules[i] := ts])
  {
    assert rules[..i + 1] == rules[..i] + [rules[i]];
  }

  lemma StoredInTurn(c: Cluster, before: seq<string>, rules: seq<GroupKind>, i: nat, last: GroupKind)
    requires i < |rules| && last in GroupTypes(c, rules[i].group) && last !in rules[..i] && last != rules[i]
    requires AddsUp(c, rules, rules[i], Count(rules[..i], rules[i]), Turn(c, before, rules[i]))
    requires Turn(c, before, rules[i]) <= Count(rules[..i], rules[i])
    ensures Turn(c, before, rules[i]) == Count(rules[..i], rules[i])
    ensures HadTurn(c, before, rules, i + 1, rules[i]) && PickFits(c, before, rules, rules[i], last)
  {
    var rule, turn := rules[i], Turn(c, before, rules[i]);
    NotBefore(rules, i, last);
    assert Free(c, rules, rule, Count(rules[..i], rule), last);
    if Covered(c, rules, rule, turn) {
      CoveredStays(c, rules, rule, turn, Count(rules[..i], rule));
    }
    CountNext(rules, i, rule);
  }

  lemma GroupsStayMemoised(c: Cluster, before: seq<string>, ns: string, rules: seq<GroupKind>, picks: seq<Picks>,
                           i: nat, memo: Memo, pick: Picks, ts: TypeStatus, last: GroupKind)
    requires i < |rules| && |picks| == |before| && GroupsMemoised(c, before, ns, rules, picks, i, memo, pick)
    requires HadTurn(c, before, rules, i + 1, rules[i]) && IsGroupEntry(c, ns, rules[i], ts, last)
    ensures GroupsMemoised(c, before, ns, rules, picks, i + 1, memo[rules[i] := ts], pick[rules[i] := last])
  {
    TurnsSoFar(c, before, rules, i);
  }

  /** A rule for a type that is not there. */
  lemma UnknownRule(c: Cluster, before: seq<string>, ns: string, rules: seq<GroupKind>, picks: seq<Picks>, i: nat,
                    pick: Picks, st: RuleStatus, memo: Memo, out: RuleStatus)
    requires i < |rules| && |picks| == |before| && RuleReady(c, before, ns, rules, picks, i, pick, st, memo)
    requires rules[i].kind != "" && rules[i] !in c.apiTypes
    requires out.rule == rules[i] && out.result == Error(UnknownType)
    ensures RuleDone(c, before, ns, rules, picks, i, pick, out, memo, pick)
  {
    MemoStays(c, before, ns, rules, picks, i, memo, pick);
    assert RuleTypes(c, rules[i]) == {};
    RuleOkNext(c, before, ns, rules[i]);
    InvalidNext(c, before, ns, rules[i], out.result);
  }

  /** A rule for a type, computed: it is the first. */
  lemma KindRule(c: Cluster, before: seq<string>, ns: string, rules: seq<GroupKind>, picks: seq<Picks>, i: nat,
                 pick: Picks, st: RuleStatus, memo: Memo, out: RuleStatus, ts: TypeStatus)
    requires i < |rules| && |picks| == |before| && RuleReady(c, before, ns, rules, picks, i, pick, st, memo)
    requires rules[i].kind != "" && rules[i] !in memo && IsTypeStatus(c, ns, rules[i], ts)
    requires st.result == Success && out.rule == rules[i] && out.result == Success
    requires forall n :: At(out.used, n) == At(st.used, n) + At(ts.used, n)
    ensures RuleDone(c, before, ns, rules, picks, i, pick, out, memo[rules[i] := ts], pick)
  {
    FirstIsNew(rules, i);
    assert rules[..i + 1] == rules[..i] + [rules[i]];
    TurnsSoFar(c, before, rules, i);
    KindIsCharged(c, before, ns, rules[i], st, out, ts);
  }

  lemma KindIsCharged(c: Cluster, before: seq<string>, ns: string, rule: GroupKind, st: RuleStatus, out: RuleStatus,
                      ts: TypeStatus)
    requires TypesOk(c) && rule.kind != "" && IsTypeStatus(c, ns, rule, ts)
    requires ChargedInFull(c, before, rule, st) && st.result == Success && out.result == Success
    requires forall n :: At(out.used, n) == At(st.used, n) + At(ts.used, n)
    ensures ChargedInFull(c, before + [ns], rule, out)
  {
    RuleOkNext(c, before, ns, rule);
    KindRuleIsOk(c, before + [ns], rule);
    SingleType(c, ns, rule);
    assert (before + [ns])[..|before|] == before;
  }

  // ---------------------------------------------------------------- all rules

  ghost predicate ChargedWith(c: Cluster, namespaces: seq<string>, rules: seq<GroupKind>, picks: seq<Picks>,
                              status: seq<RuleStatus>) {
    && |status| == |rules| && AllPicksFit(c, namespaces, rules, picks)
    && forall i | 0 <= i < |rules| :: Charged(c, namespaces, rules, picks, i, status[i])
  }

  /** Every rule is charged, for some choice of the types visited last. */
  ghost predicate AllCharged(c: Cluster, namespaces: seq<string>, rules: seq<GroupKind>, status: seq<RuleStatus>) {
    exists picks :: ChargedWith(c, namespaces, rules, picks, status)
  }

  /** The first i rules are charged for ns too. */
  ghost predicate PartlyCharged(c: Cluster, before: seq<string>, ns: string, rules: seq<GroupKind>, picks: seq<Picks>,
                                pick: Picks, i: nat, status: seq<RuleStatus>)
    requires i <= |rules| && |picks| == |before|
  {
    && |status| == |rules|
    && (forall j | 0 <= j < i :: Charged(c, before + [ns], rules, picks + [pick], j, status[j]))
    && forall j | i <= j < |rules| :: Charged(c, before, rules, picks, j, status[j])
  }

  lemma ChargedAfterRepick(c: Cluster, before: seq<string>, ns: string, rules: seq<GroupKind>, picks: seq<Picks>,
                           pick: Picks, pick': Picks, i: nat, j: nat, st: RuleStatus)
    requires j < i < |rules| && |picks| == |before| && Repicked(c, before, rules, i, pick, pick')
    requires Charged(c, before + [ns], rules, picks + [pick], j, st)
    ensures Charged(c, before + [ns], rules, picks + [pick'], j, st)
  {
    var rule, occurrence := rules[j], Count(rules[..j], rules[j]);
    CountGrows(rules, j, i, rule);
    SurvivesNext(c, before, ns, rules, rule, occurrence, picks, pick);
    SurvivesNext(c, before, ns, rules, rule, occurrence, picks, pick');
    forall n
      ensures Charge(c, before + [ns], rules, rule, occurrence, picks + [pick], n) ==
                Charge(c, before + [ns], rules, rule, occurrence, picks + [pick'], n)
    {
      ChargeNext(c, before, ns, rules, rule, occurrence, picks, pick, n);
      ChargeNext(c, before, ns, rules, rule, occurrence, picks, pick', n);
    }
  }

  /** What holds in a namespace after the first i rules. */
  ghost predicate RulesDone(c: Cluster, before: seq<string>, ns: string, rules: seq<GroupKind>, picks: seq<Picks>,
                            pick: Picks, i: nat, status: seq<RuleStatus>, memo: Memo)
    requires i <= |rules| && |picks| == |before|
  {
    && PartlyCharged(c, before, ns, rules, picks, pick, i, status)
    && MemoOk(c, before, ns, rules, picks, i, memo, pick) && PicksFit(c, before, rules, pick)
  }

  lemma NothingYet(c: Cluster, before: seq<string>, ns: string, rules: seq<GroupKind>, picks: seq<Picks>,
                   status: seq<RuleStatus>)
    requires ChargedWith(c, before, rules, picks, status)
    ensures RulesDone(c, before, ns, rules, picks, BestPicks(c, before, ns, rules), 0, status, map[])
  {}

  lemma NextIsReady(c: Cluster, before: seq<string>, ns: string, rules: seq<GroupKind>, picks: seq<Picks>,
                    pick: Picks, i: nat, status: seq<RuleStatus>, memo: Memo)
    requires TypesOk(c) && AllPicksFit(c, before, rules, picks) && i < |rules|
    requires RulesDone(c, before, ns, rules, picks, pick, i, status, memo)
    ensures |status| == |rules| && status[i].rule == rules[i]
    ensures RuleReady(c, before, ns, rules, picks, i, pick, status[i], memo)
  {}

  lemma OneMoreDone(c: Cluster, before: seq<string>, ns: string, rules: seq<GroupKind>, picks: seq<Picks>,
                    pick: Picks, i: nat, status: seq<RuleStatus>, memo: Memo, out: RuleStatus, memo': Memo,
                    pick': Picks)
    requires |picks| == |before| && i < |rules|
    requires RulesDone(c, before, ns, rules, picks, pick, i, status, memo)
    requires RuleDone(c, before, ns, rules, picks, i, pick, out, memo', pick')
    ensures i < |status| && RulesDone(c, before, ns, rules, picks, pick', i + 1, status[i := out], memo')
  {
    forall j | 0 <= j < i
      ensures Charged(c, before + [ns], rules, picks + [pick'], j, status[j])
    {
      ChargedAfterRepick(c, before, ns, rules, picks, pick, pick', i, j, status[j]);
    }
  }

  lemma AllDone(c: Cluster, before: seq<string>, ns: string, rules: seq<GroupKind>, picks: seq<Picks>, pick: Picks,
                status: seq<RuleStatus>, memo: Memo)
    requires AllPicksFit(c, before, rules, picks)
    requires RulesDone(c, before, ns, rules, picks, pick, |rules|, status, memo)
    ensures ChargedWith(c, before + [ns], rules, picks + [pick], status)
  {
    PicksFitNext(c, before, ns, rules, picks, pick);
  }

  /** One namespace: all rules share one memo. */
  method ChargeNamespace(c: Cluster, ns: string, rules: seq<GroupKind>, status0: seq<RuleStatus>,
                         ghost before: seq<string>, ghost picks: seq<Picks>)
    returns (r: Result<seq<RuleStatus>>, ghost pick: Picks)
    requires TypesOk(c) && ChargedWith(c, before, rules, picks, status0)
    ensures r.Ok? ==> ChargedWith(c, before + [ns], rules, picks + [pick], r.value)
    ensures r.Err? ==> exists rule :: rule in rules && !ComputableIn(c, ns, rule)
  {
    var status := status0;
    var nsUsed: Memo := map[];
    pick := BestPicks(c, before, ns, rules);
    NothingYet(c, before, ns, rules, picks, status);
    for i := 0 to |rules|
      invariant RulesDone(c, before, ns, rules, picks, pick, i, status, nsUsed)
    {
      NextIsReady(c, before, ns, rules, picks, pick, i, status, nsUsed);
      ghost var pick0 := pick;
      var one;
      one, pick := ChargeRule(c, ns, status[i], nsUsed, rules, i, before, picks, pick);
      if one.Err? {
        return Err, pick;
      }
      OneMoreDone(c, before, ns, rules, picks, pick0, i, status, nsUsed, one.value.0, one.value.1, pick);
      status, nsUsed := status[i := one.value.0], one.value.1;
    }
    AllDone(c, before, ns, rules, picks, pick, status, nsUsed);
    r := Ok(status);
  }

  /** For every order of the types and every list of rules, each rule is charged as `Charged` says: the
      first for its types succeeds exactly when these are found and, if it is group-wide, none of them
      is invalid in any namespace, and is then charged the direct sum; otherwise the reason recorded is
      one of those. A repeated rule is charged what it takes over. The calculation fails only when
      the usage of some object a rule is about cannot be computed; when it does not fail, everything
      that valid rules are about has been computed. */
  method CalculateStatus(c: Cluster, namespaces: seq<string>, rules: seq<GroupKind>)
    returns (r: Result<seq<RuleStatus>>)
    requires TypesOk(c)
    ensures r.Ok? ==> AllCharged(c, namespaces, rules, r.value)
    ensures r.Err? ==> exists rule :: rule in rules && !Computable(c, namespaces, rule)
  {
    var status := seq(|rules|, i requires 0 <= i < |rules| => RuleStatus(rules[i], Success, map[]));
    ghost var picks: seq<Picks> := [];
    for m := 0 to |namespaces|
      invariant ChargedWith(c, namespaces[..m], rules, picks, status)
    {
      var next; ghost var pick;
      next, pick := ChargeNamespace(c, namespaces[m], rules, status, namespaces[..m], picks);
      if next.Err? {
        return Err;
      }
      status, picks := next.value, picks + [pick];
      assert namespaces[..m + 1] == namespaces[..m] + [namespaces[m]];
    }
    assert namespaces[..|namespaces|] == namespaces;
    r := Ok(status);
  }

  // ---------------------------------------------------------------- what repetitions change

  /** A rule that no earlier rule repeats is charged in full. */
  lemma FirstIsChargedInFull(c: Cluster, namespaces: seq<string>, rules: seq<GroupKind>, status: seq<RuleStatus>,
                             i: nat)
    requires AllCharged(c, namespaces, rules, status) && i < |rules| && First(rules, i)
    ensures status[i].rule == rules[i] && ChargedInFull(c, namespaces, rules[i], status[i])
  {
    var picks :| ChargedWith(c, namespaces, rules, picks, status);
    assert Charged(c, namespaces, rules, picks, i, status[i]);
    FirstIsNew(rules, i);
    if rules[i].kind == "" {
      ChargedDirectly(c, namespaces, rules, rules[i], 0, picks);
    }
  }

  /** Which first rules succeed, read off the cluster. One for a type only needs the type to be there;
      what is wrong with that type then only leaves it without a charge. */
  lemma FirstSucceedsIff(c: Cluster, namespaces: seq<string>, rules: seq<GroupKind>, status: seq<RuleStatus>, i: nat)
    requires AllCharged(c, namespaces, rules, status) && i < |rules| && First(rules, i)
    ensures rules[i].kind == "" ==> (status[i].result == Success <==>
              forall ns <- namespaces ::
                && (exists gk :: gk in c.apiTypes && gk.group == rules[i].group)
                && forall gk | gk in c.apiTypes && gk.group == rules[i].group ::
                     && c.apiTypes[gk].namespaced
                     && ((exists v :: v in c.apiTypes[gk].versions && (gk, v) in c.registered)
                         || (forall k :: k in c.objects ==> k.gk != gk || k.ns != ns)))
    ensures rules[i].kind != "" ==> (status[i].result == Success <==> namespaces == [] || rules[i] in c.apiTypes)
  {
    var rule := rules[i];
    FirstIsChargedInFull(c, namespaces, rules, status, i);
    forall ns
      ensures rule.kind == "" ==> (RuleOkIn(c, ns, rule) <==>
                && (exists gk :: gk in c.apiTypes && gk.group == rule.group)
                && forall gk | gk in c.apiTypes && gk.group == rule.group :: TypeResult(c, ns, gk) == Success)
    {
      assert forall gk :: gk in GroupTypes(c, rule.group) <==> gk in c.apiTypes && gk.group == rule.group;
    }
    forall ns, gk | gk in c.apiTypes
      ensures TypeResult(c, ns, gk) == Success <==>
        && c.apiTypes[gk].namespaced
        && ((exists v :: v in c.apiTypes[gk].versions && (gk, v) in c.registered)
            || (forall k :: k in c.objects ==> k.gk != gk || k.ns != ns))
    {
      TypeResultIff(c, ns, gk);
    }
    assert namespaces != [] ==> namespaces[0] in namespaces;
    assert rule in c.apiTypes ==> rule in RuleTypes(c, rule);
  }

  /** Reordering pairwise distinct rules reorders the outcome and changes nothing else: a rule's
      result and charge depend on the rule, not on its place. */
  lemma OrderOfRulesDoesNotMatter(c: Cluster, namespaces: seq<string>, rules: seq<GroupKind>, rules': seq<GroupKind>,
                                  status: seq<RuleStatus>, status': seq<RuleStatus>, i: nat, j: nat)
    requires Distinct(rules) && Distinct(rules')
    requires AllCharged(c, namespaces, rules, status) && AllCharged(c, namespaces, rules', status')
    requires i < |rules| && j < |rules'| && rules[i] == rules'[j]
    ensures status[i].result == Success <==> status'[j].result == Success
    ensures status[i].result == Success ==> forall n :: At(status[i].used, n) == At(status'[j].used, n)
  {
    FirstIsChargedInFull(c, namespaces, rules, status, i);
    FirstIsChargedInFull(c, namespaces, rules', status', j);
  }

  /** Why repetitions matter: a repeated rule with a kind is charged the direct sum exactly when all
      namespaces but the last together use none of the resource. */
  lemma RepeatedRuleUndercounts(c: Cluster, namespaces: seq<string>, rules: seq<GroupKind>, status: seq<RuleStatus>,
                                i: nat, n: string)
    requires AllCharged(c, namespaces, rules, status) && i < |rules| && !First(rules, i)
    requires rules[i] in c.apiTypes && rules[i].kind != "" && namespaces != [] && status[i].result == Success
    ensures At(status[i].used, n) == RuleUses(c, namespaces, rules[i], n)
       <==> RuleUses(c, namespaces[..|namespaces| - 1], rules[i], n) == 0
  {
    var picks :| ChargedWith(c, namespaces, rules, picks, status);
    assert Charged(c, namespaces, rules, picks, i, status[i]);
    SingleType(c, namespaces[|namespaces| - 1], rules[i]);
  }

  /** A repeated group-wide rule succeeds only if it may for some choice of types, which
      `QuotaTurns.MaySurviveIff` reads off the cluster. A valid rule does succeed. */
  lemma RepeatedGroupResult(c: Cluster, namespaces: seq<string>, rules: seq<GroupKind>, status: seq<RuleStatus>, i: nat)
    requires AllCharged(c, namespaces, rules, status) && i < |rules| && rules[i].kind == ""
    ensures status[i].result == Success ==> MaySurvive(c, namespaces, rules, rules[i], Count(rules[..i], rules[i]))
    ensures RuleOk(c, namespaces, rules[i]) ==> status[i].result == Success
  {
    var picks :| ChargedWith(c, namespaces, rules, picks, status);
    var rule, occurrence := rules[i], Count(rules[..i], rules[i]);
    assert Charged(c, namespaces, rules, picks, i, status[i]);
    if RuleOk(c, namespaces, rule) {
      SurvivesIff(c, namespaces, rules, rule, occurrence, picks);
      ValidHasFirstTurn(c, namespaces, rule);
      assert forall m | 0 <= m < |namespaces| :: Spares(c, namespaces, m, rules, rule, picks[m]);
    }
  }

  /** Its charge, if it is valid: what one type without an earlier rule of its own uses in the last
      namespace in which the occurrence does not add up, and the direct sum over the later ones. */
  lemma RepeatedGroupCharge(c: Cluster, before: seq<string>, ns: string, later: seq<string>, rules: seq<GroupKind>,
                            status: seq<RuleStatus>, i: nat)
    requires AllCharged(c, before + [ns] + later, rules, status) && i < |rules| && rules[i].kind == ""
    requires status[i].result == Success
    requires !AddsUp(c, rules, rules[i], Count(rules[..i], rules[i]), Turn(c, before, rules[i]))
    requires later != [] ==> AddsUp(c, rules, rules[i], Count(rules[..i], rules[i]), Turn(c, before + [ns], rules[i]))
    ensures exists gk ::
      Free(c, rules, rules[i], Turn(c, before, rules[i]), gk) && ChargedFor(c, ns, later, rules[i], gk, status[i])
  {
    var namespaces, rule, occurrence := before + [ns] + later, rules[i], Count(rules[..i], rules[i]);
    var picks :| ChargedWith(c, namespaces, rules, picks, status);
    assert Charged(c, namespaces, rules, picks, i, status[i]);
    var gk := PickOf(picks[|before|], rule);
    assert namespaces[..|before|] == before && PicksFit(c, before, rules, picks[|before|]);
    assert PickFits(c, before, rules, rule, gk);
    forall n
      ensures At(status[i].used, n) == TypeUses(c, ns, gk, n) + RuleUses(c, later, rule, n)
    {
      ChargedSince(c, before, ns, later, rules, rule, occurrence, picks, n);
    }
  }

  ghost predicate ChargedFor(c: Cluster, ns: string, later: seq<string>, rule: GroupKind, gk: GroupKind,
                             st: RuleStatus) {
    forall n :: At(st.used, n) == TypeUses(c, ns, gk, n) + RuleUses(c, later, rule, n)
  }

  /** What the namespaces but the last use, and in the last one the other types of the rule. */
  ghost function OtherUses(c: Cluster, namespaces: seq<string>, rule: GroupKind, gk: GroupKind, n: string): int
    requires namespaces != []
  {
    RuleUses(c, namespaces[..|namespaces| - 1], rule, n)
    + TypesUse(c, namespaces[|namespaces| - 1], RuleTypes(c, rule) - {gk}, n)
  }

  /** A repeated group-wide rule that is valid is charged the direct sum if every type of the group has
      a rule of its own before it. Otherwise it is charged what one type without one uses in the last
      namespace, which is the direct sum exactly when all else together uses none of the resource. */
  lemma RepeatedGroupRule(c: Cluster, namespaces: seq<string>, rules: seq<GroupKind>, status: seq<RuleStatus>, i: nat)
    requires AllCharged(c, namespaces, rules, status) && i < |rules| && !First(rules, i) && rules[i].kind == ""
    requires RuleOk(c, namespaces, rules[i]) && namespaces != []
    ensures status[i].result == Success
    ensures Covered(c, rules, rules[i], 0) ==>
      forall n :: At(status[i].used, n) == RuleUses(c, namespaces, rules[i], n)
    ensures !Covered(c, rules, rules[i], 0) ==> exists gk :: Free(c, rules, rules[i], 0, gk) && forall n ::
      && At(status[i].used, n) == TypeUses(c, namespaces[|namespaces| - 1], gk, n)
      && (At(status[i].used, n) == RuleUses(c, namespaces, rules[i], n) <==>
          OtherUses(c, namespaces, rules[i], gk, n) == 0)
  {
    RepeatedGroupResult(c, namespaces, rules, status, i);
    if Covered(c, rules, rules[i], 0) {
      CoveredIsChargedInFull(c, namespaces, rules, status, i);
    } else {
      var gk := UncoveredIsChargedOneType(c, namespaces, rules, status, i);
      forall n
        ensures RuleUses(c, namespaces, rules[i], n) ==
                  OtherUses(c, namespaces, rules[i], gk, n) + TypeUses(c, namespaces[|namespaces| - 1], gk, n)
      {
        SumTake(RuleTypes(c, rules[i]), gk, t => TypeUses(c, namespaces[|namespaces| - 1], t, n));
      }
    }
  }

  lemma CoveredIsChargedInFull(c: Cluster, namespaces: seq<string>, rules: seq<GroupKind>, status: seq<RuleStatus>,
                               i: nat)
    requires AllCharged(c, namespaces, rules, status) && i < |rules| && rules[i].kind == ""
    requires status[i].result == Success && Covered(c, rules, rules[i], 0)
    ensures forall n :: At(status[i].used, n) == RuleUses(c, namespaces, rules[i], n)
  {
    var picks :| ChargedWith(c, namespaces, rules, picks, status);
    assert Charged(c, namespaces, rules, picks, i, status[i]);
    ChargedDirectly(c, namespaces, rules, rules[i], Count(rules[..i], rules[i]), picks);
  }

  lemma UncoveredIsChargedOneType(c: Cluster, namespaces: seq<string>, rules: seq<GroupKind>, status: seq<RuleStatus>,
                                  i: nat)
    returns (gk: GroupKind)
    requires AllCharged(c, namespaces, rules, status) && i < |rules| && !First(rules, i) && rules[i].kind == ""
    requires status[i].result == Success && RuleOk(c, namespaces, rules[i]) && namespaces != []
    requires !Covered(c, rules, rules[i], 0)
    ensures Free(c, rules, rules[i], 0, gk)
    ensures forall n :: At(status[i].used, n) == TypeUses(c, namespaces[|namespaces| - 1], gk, n)
  {
    var init, ns := namespaces[..|namespaces| - 1], namespaces[|namespaces| - 1];
    FirstIsNew(rules, i);
    ValidHasFirstTurn(c, init, rules[i]);
    assert namespaces == init + [ns] + [];
    RepeatedGroupCharge(c, init, ns, [], rules, status, i);
    gk :| Free(c, rules, rules[i], 0, gk) && ChargedFor(c, ns, [], rules[i], gk, status[i]);
  }

  // ---------------------------------------------------------------- inputs

  const EXAMPLE_TYPE := GroupKind("kubedb.com", "Postgres")
  const OTHER_TYPE := GroupKind("kubedb.com", "Redis")
  const EXAMPLE_GROUP := GroupKind("kubedb.com", "")

  /** One pod with one CPU. */
  const ONE_CPU := Resources(map[DEFAULT := PodInfo(map[CPU := 1], 1)], map[])

  const CPU_REQUESTS := REQUESTS + CPU

  lemma OneCpuUse()
    ensures UsageAt(RolesUsage(ONE_CPU, [DEFAULT]), CPU_REQUESTS) == 1
  {
    UsageOfPrefixed(RolesUsage(ONE_CPU, [DEFAULT]), CPU);
    RolesListAt(ONE_CPU.requests, [DEFAULT], CPU);
    assert RolesUse(ONE_CPU.requests, [DEFAULT][..0], CPU) == 0;
  }

  function ExampleCluster(): Cluster {
    Cluster(map[Key(EXAMPLE_TYPE, "a", "db") := Obj(ONE_CPU)],
            map[EXAMPLE_TYPE := APIType(["v1"], true)], {(EXAMPLE_TYPE, "v1")}, map[])
  }

  /** An object of each of two types, one of which may not be namespaced. */
  function GroupExample(otherNamespaced: bool): Cluster {
    Cluster(map[Key(EXAMPLE_TYPE, "a", "db") := Obj(ONE_CPU), Key(OTHER_TYPE, "a", "db") := Obj(ONE_CPU)],
            map[EXAMPLE_TYPE := APIType(["v1"], true), OTHER_TYPE := APIType(["v1"], otherNamespaced)],
            {(EXAMPLE_TYPE, "v1"), (OTHER_TYPE, "v1")}, map[])
  }

  /** A type of which one object with one CPU is there. */
  lemma OneObjectUse(c: Cluster, ns: string, gk: GroupKind, key: Key)
    requires gk !in c.roles && ObjectsOf(c, ns, gk) == {key} && c.objects[key] == Obj(ONE_CPU)
    requires gk in c.apiTypes && c.apiTypes[gk] == APIType(["v1"], true) && (gk, "v1") in c.registered
    ensures TypeUses(c, ns, gk, CPU_REQUESTS) == 1 && TypeIsValid(c, ns, gk) && !Broken(c, ns, gk)
  {
    OneCpuUse();
    assert c.apiTypes[gk].versions[0] == "v1" && Registered(c, gk);
    SumTake({key}, key, k => ObjectUses(c, k, CPU_REQUESTS));
    assert {key} - {key} == {};
    assert key in ObjectsOf(c, ns, gk);
  }

  lemma TwoNamespaces(c: Cluster, x: string, y: string, rule: GroupKind, n: string)
    ensures RuleUses(c, [x], rule, n) == NamespaceUses(c, x, rule, n)
    ensures RuleUses(c, [x, y], rule, n) == NamespaceUses(c, x, rule, n) + NamespaceUses(c, y, rule, n)
  {
    assert [x, y][..1] == [x] && [x][..0] == [];
  }

  /** A use of 1 in the first of two namespaces is charged to a rule but not to its repetition. */
  lemma RepeatedRuleExample(status: seq<RuleStatus>)
    requires AllCharged(ExampleCluster(), ["a", "b"], [EXAMPLE_TYPE, EXAMPLE_TYPE], status)
    ensures status[0].result == status[1].result == Success
    ensures At(status[0].used, CPU_REQUESTS) == 1 && At(status[1].used, CPU_REQUESTS) == 0
  {
    var c, gk := ExampleCluster(), EXAMPLE_TYPE;
    assert ObjectsOf(c, "a", gk) == {Key(gk, "a", "db")} && ObjectsOf(c, "b", gk) == {};
    OneObjectUse(c, "a", gk, Key(gk, "a", "db"));
    assert ObjectsUse(c, "b", gk, CPU_REQUESTS) == 0;
    RepeatedKindRule(c, "a", "b", gk, CPU_REQUESTS, status);
  }

  lemma RepeatedKindRule(c: Cluster, x: string, y: string, gk: GroupKind, n: string, status: seq<RuleStatus>)
    requires AllCharged(c, [x, y], [gk, gk], status) && gk in c.apiTypes && gk.kind != ""
    requires TypeIsValid(c, x, gk) && TypeIsValid(c, y, gk)
    ensures status[0].result == status[1].result == Success
    ensures At(status[0].used, n) == TypeUses(c, x, gk, n) + TypeUses(c, y, gk, n)
    ensures At(status[1].used, n) == TypeUses(c, y, gk, n)
  {
    var namespaces, rules := [x, y], [gk, gk];
    var picks :| ChargedWith(c, namespaces, rules, picks, status);
    assert Charged(c, namespaces, rules, picks, 1, status[1]);
    assert First(rules, 0) && rules[0] == rules[1] && !First(rules, 1);
    FirstIsChargedInFull(c, namespaces, rules, status, 0);
    TwoNamespaces(c, x, y, gk, n);
    SingleType(c, x, gk);
    SingleType(c, y, gk);
  }

  lemma ExampleTypes(otherNamespaced: bool)
    ensures var c := GroupExample(otherNamespaced);
            && RuleTypes(c, EXAMPLE_GROUP) == {EXAMPLE_TYPE, OTHER_TYPE}
            && TypeUses(c, "a", EXAMPLE_TYPE, CPU_REQUESTS) == 1
            && TypeIsValid(c, "a", EXAMPLE_TYPE) && !Broken(c, "a", EXAMPLE_TYPE)
            && if otherNamespaced then
                 TypeUses(c, "a", OTHER_TYPE, CPU_REQUESTS) == 1 && TypeIsValid(c, "a", OTHER_TYPE)
               else TypeResult(c, "a", OTHER_TYPE) == Error(NonNamespaced) && !Broken(c, "a", OTHER_TYPE)
  {
    var c := GroupExample(otherNamespaced);
    assert EXAMPLE_TYPE != OTHER_TYPE;
    assert RuleTypes(c, EXAMPLE_GROUP) == {EXAMPLE_TYPE, OTHER_TYPE};
    forall gk | gk in RuleTypes(c, EXAMPLE_GROUP) && (gk == EXAMPLE_TYPE || otherNamespaced)
      ensures TypeUses(c, "a", gk, CPU_REQUESTS) == 1 && TypeIsValid(c, "a", gk) && !Broken(c, "a", gk)
    {
      assert ObjectsOf(c, "a", gk) == {Key(gk, "a", "db")};
      OneObjectUse(c, "a", gk, Key(gk, "a", "db"));
    }
  }

  /** Two types of a group use 1 each: the rule for the group is charged 2, its repetition 1. */
  lemma RepeatedGroupExample(status: seq<RuleStatus>)
    requires AllCharged(GroupExample(true), ["a"], [EXAMPLE_GROUP, EXAMPLE_GROUP], status)
    ensures status[0].result == status[1].result == Success
    ensures At(status[0].used, CPU_REQUESTS) == 2 && At(status[1].used, CPU_REQUESTS) == 1
  {
    var c, types := GroupExample(true), {EXAMPLE_TYPE, OTHER_TYPE};
    ExampleTypes(true);
    SumConst(types, gk => TypeUses(c, "a", gk, CPU_REQUESTS), 1);
    assert EXAMPLE_TYPE != OTHER_TYPE && |types| == 2;
    var gk := GroupRuleTwice(c, "a", EXAMPLE_GROUP, EXAMPLE_TYPE, status);
    assert gk in types;
  }

  /** A group-wide rule and its repetition, in one namespace that leaves them valid. */
  lemma GroupRuleTwice(c: Cluster, ns: string, rule: GroupKind, x: GroupKind, status: seq<RuleStatus>)
    returns (gk: GroupKind)
    requires AllCharged(c, [ns], [rule, rule], status) && RuleOkIn(c, ns, rule)
    requires rule.kind == "" && x in RuleTypes(c, rule) && x.kind != ""
    ensures status[0].result == status[1].result == Success && gk in RuleTypes(c, rule)
    ensures forall n :: At(status[0].used, n) == TypesUse(c, ns, RuleTypes(c, rule), n)
    ensures forall n :: At(status[1].used, n) == TypeUses(c, ns, gk, n)
  {
    var rules := [rule, rule];
    assert RuleOk(c, [ns], rule);
    assert First(rules, 0) && rules[0] == rules[1] && !First(rules, 1);
    FirstIsChargedInFull(c, [ns], rules, status, 0);
    forall n
      ensures RuleUses(c, [ns], rule, n) == TypesUse(c, ns, RuleTypes(c, rule), n)
    {
      TwoNamespaces(c, ns, ns, rule, n);
    }
    NotCovered(c, rules, rule, x);
    RepeatedGroupResult(c, [ns], rules, status, 1);
    gk := UncoveredIsChargedOneType(c, [ns], rules, status, 1);
  }

  lemma NotCovered(c: Cluster, rules: seq<GroupKind>, rule: GroupKind, gk: GroupKind)
    requires gk in GroupTypes(c, rule.group) && gk !in rules
    ensures Free(c, rules, rule, 0, gk) && !Covered(c, rules, rule, 0)
  {
    assert !Before(rules, gk, rule, 0);
  }

  /** One type uses 1 and the other is not namespaced, which invalidates the rule for the group. Its
      repetition may succeed all the same, and be charged 1. */
  lemma InvalidGroupExample() returns (status: seq<RuleStatus>)
    ensures AllCharged(GroupExample(false), ["a"], [EXAMPLE_GROUP, EXAMPLE_GROUP], status)
    ensures status[0].result == Error(NonNamespaced)
    ensures status[1].result == Success && At(status[1].used, CPU_REQUESTS) == 1
  {
    var c, key := GroupExample(false), Key(EXAMPLE_TYPE, "a", "db");
    ExampleTypes(false);
    assert ObjectsOf(c, "a", EXAMPLE_TYPE) == {key};
    var uses := UsageList(RolesUsage(c.objects[key].resources, RolesOf(c, EXAMPLE_TYPE)));
    forall n
      ensures At(uses, n) == TypeUses(c, "a", EXAMPLE_TYPE, n)
    {
      TypeUsesList(c, "a", EXAMPLE_TYPE, key, n);
    }
    status := InvalidGroupTwice(c, "a", EXAMPLE_GROUP, EXAMPLE_TYPE, OTHER_TYPE, uses);
  }

  /** A group-wide rule and its repetition, in one namespace that invalidates the rule because of y:
      the repetition may be charged the use of another type. */
  lemma InvalidGroupTwice(c: Cluster, ns: string, rule: GroupKind, x: GroupKind, y: GroupKind, uses: ResourceList)
    returns (status: seq<RuleStatus>)
    requires rule.kind == "" && ComputableIn(c, ns, rule)
    requires x in RuleTypes(c, rule) && x.kind != "" && TypeIsValid(c, ns, x)
    requires y in RuleTypes(c, rule) && TypeResult(c, ns, y).Error?
    requires forall n :: At(uses, n) == TypeUses(c, ns, x, n)
    ensures AllCharged(c, [ns], [rule, rule], status)
    ensures status == [RuleStatus(rule, TypeResult(c, ns, y), map[]), RuleStatus(rule, Success, uses)]
  {
    var rules, picks := [rule, rule], [map[rule := x]];
    status := [RuleStatus(rule, TypeResult(c, ns, y), map[]), RuleStatus(rule, Success, uses)];
    NotCovered(c, rules, rule, x);
    assert PickFits(c, [], rules, rule, x);
    PicksFitNext(c, [], ns, rules, [], picks[0]);
    assert [] + [ns] == [ns] && [] + [picks[0]] == picks;
    assert ns in [ns] && InvalidIn(c, ns, rule, TypeResult(c, ns, y)) && Computable(c, [ns], rule);
    ChargedDirectly(c, [ns], rules, rule, 0, picks);
    SurvivesNext(c, [], ns, rules, rule, 1, [], picks[0]);
    forall n
      ensures Charge(c, [ns], rules, rule, 1, picks, n) == TypeUses(c, ns, x, n)
    {
      ChargeNext(c, [], ns, rules, rule, 1, [], picks[0], n);
    }
    assert rules[..0] == [] && rules[..1] == [rule] && [rule][..0] == [];
    assert Charged(c, [ns], rules, picks, 0, status[0]);
    assert Charged(c, [ns], rules, picks, 1, status[1]);
    assert ChargedWith(c, [ns], rules, picks, status);
  }

  lemma TypeUsesList(c: Cluster, ns: string, gk: GroupKind, key: Key, n: string)
    requires ObjectsOf(c, ns, gk) == {key} && c.objects[key].Obj?
    requires gk in c.apiTypes && c.apiTypes[gk].namespaced && Registered(c, gk)
    ensures TypeUses(c, ns, gk, n) == At(UsageList(RolesUsage(c.objects[key].resources, RolesOf(c, gk))), n)
  {
    UsageListHas(RolesUsage(c.objects[key].resources, RolesOf(c, gk)), n);
    SumTake({key}, key, k => ObjectUses(c, k, n));
    assert {key} - {key} == {};
    assert key in ObjectsOf(c, ns, gk);
  }
}
