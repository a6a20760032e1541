/** Repeated group-wide rules. In each namespace the first occurrence that is still valid has its turn:
    it adds up what all types use and leaves the status of one type behind, the one visited last among
    those without an earlier rule of their own. Later occurrences take that status over. A namespace
    that invalidates the rule ends the turn of one occurrence. */
module QuotaTurns {
  import opened ObjectIds
  import opened Sums
  import opened ResourceLists
  import opened QuotaRules

  function Count(rules: seq<GroupKind>, rule: GroupKind): nat {
    if rules == [] then 0
    else Count(rules[..|rules| - 1], rule) + if rules[|rules| - 1] == rule then 1 else 0
  }

  lemma CountNext(rules: seq<GroupKind>, i: nat, rule: GroupKind)
    requires i < |rules|
    ensures Count(rules[..i + 1], rule) == Count(rules[..i], rule) + if rules[i] == rule then 1 else 0
  {
    assert rules[..i + 1][..i] == rules[..i];
  }

  lemma {:induction false} CountGrows(rules: seq<GroupKind>, i: nat, j: nat, rule: GroupKind)
    requires i <= j <= |rules|
    ensures Count(rules[..i], rule) <= Count(rules[..j], rule)
    decreases j
  {
    if i < j {
      CountGrows(rules, i, j - 1, rule);
      CountNext(rules, j - 1, rule);
    }
  }

  /** No earlier rule is for the same types. */
  ghost predicate First(rules: seq<GroupKind>, i: nat)
    requires i < |rules|
  {
    forall j | 0 <= j < i :: rules[j] != rules[i]
  }

  lemma {:induction false} FirstCountsNone(rules: seq<GroupKind>, rule: GroupKind)
    ensures Count(rules, rule) == 0 <==> rule !in rules
  {
    if rules != [] {
      var init, last := rules[..|rules| - 1], rules[|rules| - 1];
      assert rules == init + [last];
      FirstCountsNone(init, rule);
    }
  }

  lemma FirstIsNew(rules: seq<GroupKind>, i: nat)
    requires i < |rules|
    ensures First(rules, i) <==> rules[i] !in rules[..i]
    ensures First(rules, i) <==> Count(rules[..i], rules[i]) == 0
  {
    FirstCountsNone(rules[..i], rules[i]);
    if j :| 0 <= j < i && rules[j] == rules[i] {
      assert rules[..i][j] == rules[i];
    }
  }

  // ---------------------------------------------------------------- types with rules of their own

  /** The type has a rule of its own before the occurrence of the rule whose turn it is. */
  predicate Before(rules: seq<GroupKind>, gk: GroupKind, rule: GroupKind, turn: nat) {
    exists k | 0 <= k < |rules| :: rules[k] == gk && Count(rules[..k], rule) <= turn
  }

  /** Every type of the group has. */
  predicate Covered(c: Cluster, rules: seq<GroupKind>, rule: GroupKind, turn: nat) {
    forall gk <- GroupTypes(c, rule.group) :: Before(rules, gk, rule, turn)
  }

  /** A type of the group that has none. */
  predicate Free(c: Cluster, rules: seq<GroupKind>, rule: GroupKind, turn: nat, gk: GroupKind) {
    gk in GroupTypes(c, rule.group) && !Before(rules, gk, rule, turn)
  }

  lemma CoveredStays(c: Cluster, rules: seq<GroupKind>, rule: GroupKind, turn: nat, later: nat)
    requires turn <= later && Covered(c, rules, rule, turn)
    ensures Covered(c, rules, rule, later)
  {
    forall gk | gk in GroupTypes(c, rule.group)
      ensures Before(rules, gk, rule, later)
    {
      var k :| 0 <= k < |rules| && rules[k] == gk && Count(rules[..k], rule) <= turn;
    }
  }

  /** A type that the rules so far leave out has none when it is the turn of rule i. */
  lemma NotBefore(rules: seq<GroupKind>, i: nat, gk: GroupKind)
    requires i < |rules| && gk !in rules[..i] && gk != rules[i]
    ensures !Before(rules, gk, rules[i], Count(rules[..i], rules[i]))
  {
    forall k | 0 <= k < |rules| && rules[k] == gk
      ensures Count(rules[..k], rules[i]) > Count(rules[..i], rules[i])
    {
      if k < i {
        InPrefix(rules, k, i);
      }
      CountNext(rules, i, rules[i]);
      CountGrows(rules, i + 1, k, rules[i]);
    }
  }

  lemma InPrefix(rules: seq<GroupKind>, k: int, i: int)
    requires 0 <= k < i <= |rules|
    ensures rules[k] in rules[..i]
  {
    assert rules[..i][k] == rules[k];
  }

  /** If all types of the group have rules so far, it is covered when it is the turn of rule i. */
  lemma AllBefore(c: Cluster, rules: seq<GroupKind>, i: nat)
    requires i < |rules| && forall gk <- GroupTypes(c, rules[i].group) :: gk in rules[..i]
    ensures Covered(c, rules, rules[i], Count(rules[..i], rules[i]))
  {
    forall gk | gk in GroupTypes(c, rules[i].group)
      ensures Before(rules, gk, rules[i], Count(rules[..i], rules[i]))
    {
      var k :| 0 <= k < i && rules[..i][k] == gk;
      CountGrows(rules, k, i, rules[i]);
    }
  }

  // ---------------------------------------------------------------- turns

  /** The number of namespaces that invalidate the rule, and so of the occurrence whose turn comes next. */
  ghost function Turn(c: Cluster, namespaces: seq<string>, rule: GroupKind): nat {
    if namespaces == [] then 0
    else
      var init, last := namespaces[..|namespaces| - 1], namespaces[|namespaces| - 1];
      Turn(c, init, rule) + if RuleOkIn(c, last, rule) then 0 else 1
  }

  /** Per group-wide rule the type whose status it leaves behind in one namespace. */
  type Picks = map<GroupKind, GroupKind>

  function PickOf(picks: Picks, rule: GroupKind): GroupKind {
    if rule in picks then picks[rule] else rule
  }

  /** Each is a type that may be the last visited without a rule of its own. */
  ghost predicate PicksFit(c: Cluster, before: seq<string>, rules: seq<GroupKind>, picks: Picks) {
    forall rule <- rules :: rule.kind == "" ==> PickFits(c, before, rules, rule, PickOf(picks, rule))
  }

  ghost predicate PickFits(c: Cluster, before: seq<string>, rules: seq<GroupKind>, rule: GroupKind, gk: GroupKind) {
    var turn := Turn(c, before, rule);
    Covered(c, rules, rule, turn) || Free(c, rules, rule, turn, gk)
  }

  ghost predicate AllPicksFit(c: Cluster, namespaces: seq<string>, rules: seq<GroupKind>, picks: seq<Picks>) {
    && |picks| == |namespaces|
    && forall m | 0 <= m < |namespaces| :: PicksFit(c, namespaces[..m], rules, picks[m])
  }

  /** The occurrence adds up what the types use; otherwise it takes over what was left behind. */
  predicate AddsUp(c: Cluster, rules: seq<GroupKind>, rule: GroupKind, occurrence: nat, turn: nat) {
    occurrence <= turn || Covered(c, rules, rule, turn)
  }

  ghost predicate TypeIsValid(c: Cluster, ns: string, gk: GroupKind) {
    gk in c.apiTypes && TypeResult(c, ns, gk) == Success
  }

  ghost predicate SurvivesIn(c: Cluster, ns: string, rules: seq<GroupKind>, rule: GroupKind, occurrence: nat, turn: nat,
                             pick: GroupKind) {
    if AddsUp(c, rules, rule, occurrence, turn) then RuleOkIn(c, ns, rule) else TypeIsValid(c, ns, pick)
  }

  /** The occurrence is valid after these namespaces. */
  ghost predicate Survives(c: Cluster, namespaces: seq<string>, rules: seq<GroupKind>, rule: GroupKind, occurrence: nat,
                           picks: seq<Picks>)
    requires |picks| == |namespaces|
  {
    namespaces == [] ||
    var m := |namespaces| - 1;
    var init := namespaces[..m];
    && Survives(c, init, rules, rule, occurrence, picks[..m])
    && SurvivesIn(c, namespaces[m], rules, rule, occurrence, Turn(c, init, rule), PickOf(picks[m], rule))
  }

  /** What it is charged then. */
  ghost function Charge(c: Cluster, namespaces: seq<string>, rules: seq<GroupKind>, rule: GroupKind, occurrence: nat,
                        picks: seq<Picks>, n: string): int
    requires |picks| == |namespaces|
  {
    if namespaces == [] then 0
    else
      var m := |namespaces| - 1;
      var init := namespaces[..m];
      if AddsUp(c, rules, rule, occurrence, Turn(c, init, rule)) then
        Charge(c, init, rules, rule, occurrence, picks[..m], n) + NamespaceUses(c, namespaces[m], rule, n)
      else TypeUses(c, namespaces[m], PickOf(picks[m], rule), n)
  }

  lemma TurnNext(c: Cluster, before: seq<string>, ns: string, rule: GroupKind)
    ensures Turn(c, before + [ns], rule) == Turn(c, before, rule) + if RuleOkIn(c, ns, rule) then 0 else 1
  {
    assert (before + [ns])[..|before|] == before;
  }

  lemma SurvivesNext(c: Cluster, before: seq<string>, ns: string, rules: seq<GroupKind>, rule: GroupKind,
                     occurrence: nat, picks: seq<Picks>, pick: Picks)
    requires |picks| == |before|
    ensures Survives(c, before + [ns], rules, rule, occurrence, picks + [pick]) <==>
      && Survives(c, before, rules, rule, occurrence, picks)
      && SurvivesIn(c, ns, rules, rule, occurrence, Turn(c, before, rule), PickOf(pick, rule))
  {
    assert (before + [ns])[..|before|] == before && (picks + [pick])[..|before|] == picks;
  }

  lemma ChargeNext(c: Cluster, before: seq<string>, ns: string, rules: seq<GroupKind>, rule: GroupKind,
                   occurrence: nat, picks: seq<Picks>, pick: Picks, n: string)
    requires |picks| == |before|
    ensures Charge(c, before + [ns], rules, rule, occurrence, picks + [pick], n) ==
      if AddsUp(c, rules, rule, occurrence, Turn(c, before, rule)) then
        Charge(c, before, rules, rule, occurrence, picks, n) + NamespaceUses(c, ns, rule, n)
      else TypeUses(c, ns, PickOf(pick, rule), n)
  {
    assert (before + [ns])[..|before|] == before && (picks + [pick])[..|before|] == picks;
  }

  lemma PicksFitNext(c: Cluster, before: seq<string>, ns: string, rules: seq<GroupKind>, picks: seq<Picks>, pick: Picks)
    requires AllPicksFit(c, before, rules, picks) && PicksFit(c, before, rules, pick)
    ensures AllPicksFit(c, before + [ns], rules, picks + [pick])
  {
    forall m | 0 <= m <= |before|
      ensures PicksFit(c, (before + [ns])[..m], rules, (picks + [pick])[m])
    {
      assert (before + [ns])[..m] == before[..m];
      assert before[..|before|] == before;
    }
  }

  lemma PicksFitBefore(c: Cluster, namespaces: seq<string>, m: nat, rules: seq<GroupKind>, picks: seq<Picks>)
    requires AllPicksFit(c, namespaces, rules, picks) && m <= |namespaces|
    ensures AllPicksFit(c, namespaces[..m], rules, picks[..m])
  {
    forall k | 0 <= k < m
      ensures PicksFit(c, namespaces[..m][..k], rules, picks[..m][k])
    {
      assert namespaces[..m][..k] == namespaces[..k];
    }
  }

  /** In a namespace that does not invalidate the rule, nothing left behind does. */
  lemma FittingPickIsValid(c: Cluster, before: seq<string>, ns: string, rules: seq<GroupKind>, rule: GroupKind,
                           gk: GroupKind)
    requires rule.kind == "" && PickFits(c, before, rules, rule, gk) && RuleOkIn(c, ns, rule)
    requires !Covered(c, rules, rule, Turn(c, before, rule))
    ensures TypeIsValid(c, ns, gk)
  {
    assert gk in RuleTypes(c, rule);
  }

  /** Whoever is valid has not had its turn in a namespace that invalidates the rule. */
  lemma {:induction false} SurvivorsAreLate(c: Cluster, namespaces: seq<string>, rules: seq<GroupKind>,
                                            rule: GroupKind, occurrence: nat, picks: seq<Picks>)
    requires |picks| == |namespaces| && Survives(c, namespaces, rules, rule, occurrence, picks)
    ensures Turn(c, namespaces, rule) <= occurrence
  {
    if namespaces != [] {
      var m := |namespaces| - 1;
      SurvivorsAreLate(c, namespaces[..m], rules, rule, occurrence, picks[..m]);
    }
  }

  /** Those that have not had it are valid together or invalid together. */
  lemma {:induction false} Together(c: Cluster, namespaces: seq<string>, rules: seq<GroupKind>, rule: GroupKind,
                                    x: nat, y: nat, picks: seq<Picks>)
    requires AllPicksFit(c, namespaces, rules, picks) && rule in rules && rule.kind == ""
    requires Turn(c, namespaces, rule) <= x && Turn(c, namespaces, rule) <= y
    ensures Survives(c, namespaces, rules, rule, x, picks) <==> Survives(c, namespaces, rules, rule, y, picks)
  {
    if namespaces != [] {
      var m := |namespaces| - 1;
      var init, ns, pick := namespaces[..m], namespaces[m], PickOf(picks[m], rule);
      var turn := Turn(c, init, rule);
      PicksFitBefore(c, namespaces, m, rules, picks);
      Together(c, init, rules, rule, x, y, picks[..m]);
      if RuleOkIn(c, ns, rule) && !Covered(c, rules, rule, turn) {
        assert PicksFit(c, init, rules, picks[m]);
        FittingPickIsValid(c, init, ns, rules, rule, pick);
      }
    }
  }

  // ---------------------------------------------------------------- in closed form

  /** The namespace does not invalidate the rule, or what is left behind there is valid. */
  ghost predicate Spares(c: Cluster, namespaces: seq<string>, m: nat, rules: seq<GroupKind>, rule: GroupKind,
                         pick: Picks)
    requires m < |namespaces|
  {
    RuleOkIn(c, namespaces[m], rule) ||
    (!Covered(c, rules, rule, Turn(c, namespaces[..m], rule)) && TypeIsValid(c, namespaces[m], PickOf(pick, rule)))
  }

  ghost predicate AllSpared(c: Cluster, namespaces: seq<string>, rules: seq<GroupKind>, rule: GroupKind,
                            picks: seq<Picks>)
    requires |picks| == |namespaces|
  {
    forall m | 0 <= m < |namespaces| :: Spares(c, namespaces, m, rules, rule, picks[m])
  }

  lemma AllSparedNext(c: Cluster, namespaces: seq<string>, rules: seq<GroupKind>, rule: GroupKind, picks: seq<Picks>)
    requires |picks| == |namespaces| && namespaces != []
    ensures var m := |namespaces| - 1;
            AllSpared(c, namespaces, rules, rule, picks) <==>
              AllSpared(c, namespaces[..m], rules, rule, picks[..m]) && Spares(c, namespaces, m, rules, rule, picks[m])
  {
    var m := |namespaces| - 1;
    forall k | 0 <= k < m
      ensures Spares(c, namespaces[..m], k, rules, rule, picks[..m][k]) <==>
        Spares(c, namespaces, k, rules, rule, picks[k])
    {
      assert namespaces[..m][..k] == namespaces[..k];
    }
  }

  lemma SparedIn(c: Cluster, before: seq<string>, ns: string, rules: seq<GroupKind>, rule: GroupKind, occurrence: nat,
                 pick: GroupKind)
    requires rule.kind == "" && PickFits(c, before, rules, rule, pick) && Turn(c, before, rule) <= occurrence
    ensures var turn := Turn(c, before, rule);
            SurvivesIn(c, ns, rules, rule, occurrence, turn, pick) <==>
              || RuleOkIn(c, ns, rule)
              || (turn < occurrence && !Covered(c, rules, rule, turn) && TypeIsValid(c, ns, pick))
  {
    if RuleOkIn(c, ns, rule) && !Covered(c, rules, rule, Turn(c, before, rule)) {
      FittingPickIsValid(c, before, ns, rules, rule, pick);
    }
  }

  /** An occurrence is valid in the end exactly when its turn is not over and every namespace that
      invalidates the rule leaves the status of a valid type behind. */
  lemma {:induction false} SurvivesIff(c: Cluster, namespaces: seq<string>, rules: seq<GroupKind>, rule: GroupKind,
                                       occurrence: nat, picks: seq<Picks>)
    requires AllPicksFit(c, namespaces, rules, picks) && rule in rules && rule.kind == ""
    ensures Survives(c, namespaces, rules, rule, occurrence, picks) <==>
      Turn(c, namespaces, rule) <= occurrence && AllSpared(c, namespaces, rules, rule, picks)
  {
    if namespaces != [] {
      var m := |namespaces| - 1;
      PicksFitBefore(c, namespaces, m, rules, picks);
      SurvivesIff(c, namespaces[..m], rules, rule, occurrence, picks[..m]);
      AllSparedNext(c, namespaces, rules, rule, picks);
      if Turn(c, namespaces[..m], rule) <= occurrence {
        assert PicksFit(c, namespaces[..m], rules, picks[m]);
        SparedIn(c, namespaces[..m], namespaces[m], rules, rule, occurrence, PickOf(picks[m], rule));
      }
    }
  }

  // ---------------------------------------------------------------- which occurrences may be valid

  /** In the namespace, if it invalidates the rule, some type without a rule of its own before the
      occurrence whose turn it is is valid. */
  ghost predicate MaySpare(c: Cluster, namespaces: seq<string>, m: nat, rules: seq<GroupKind>, rule: GroupKind)
    requires m < |namespaces|
  {
    RuleOkIn(c, namespaces[m], rule) || SomeFreeIsValid(c, namespaces[m], rules, rule, Turn(c, namespaces[..m], rule))
  }

  ghost predicate SomeFreeIsValid(c: Cluster, ns: string, rules: seq<GroupKind>, rule: GroupKind, turn: nat) {
    exists gk :: Free(c, rules, rule, turn, gk) && TypeIsValid(c, ns, gk)
  }

  /** A type that may be left behind, a valid one if there is one. */
  ghost function BestPick(c: Cluster, before: seq<string>, ns: string, rules: seq<GroupKind>,
                          rule: GroupKind)
    : (gk: GroupKind)
    ensures PickFits(c, before, rules, rule, gk)
    ensures SomeFreeIsValid(c, ns, rules, rule, Turn(c, before, rule)) ==> TypeIsValid(c, ns, gk)
  {
    var turn := Turn(c, before, rule);
    if SomeFreeIsValid(c, ns, rules, rule, turn) then
      var gk :| Free(c, rules, rule, turn, gk) && TypeIsValid(c, ns, gk);
      gk
    else if Covered(c, rules, rule, turn) then rule
    else
      var gk :| gk in GroupTypes(c, rule.group) && !Before(rules, gk, rule, turn);
      gk
  }

  ghost function BestPicks(c: Cluster, before: seq<string>, ns: string, rules: seq<GroupKind>): (picks: Picks)
    ensures PicksFit(c, before, rules, picks)
    ensures forall rule <- rules :: PickOf(picks, rule) == BestPick(c, before, ns, rules, rule)
  {
    map rule | rule in rules :: BestPick(c, before, ns, rules, rule)
  }

  /** Some choice of types leaves the occurrence valid. */
  ghost predicate MaySurvive(c: Cluster, namespaces: seq<string>, rules: seq<GroupKind>, rule: GroupKind,
                             occurrence: nat) {
    exists picks :: AllPicksFit(c, namespaces, rules, picks) && Survives(c, namespaces, rules, rule, occurrence, picks)
  }

  /** An occurrence may be valid in the end exactly when no more namespaces invalidate the rule than
      occurrences come before it, and in each of those some type without an earlier rule of its own is
      valid. For the second occurrence that is at most one such namespace. */
  lemma MaySurviveIff(c: Cluster, namespaces: seq<string>, rules: seq<GroupKind>, rule: GroupKind, occurrence: nat)
    requires rule in rules && rule.kind == ""
    ensures MaySurvive(c, namespaces, rules, rule, occurrence) <==>
      && Turn(c, namespaces, rule) <= occurrence
      && forall m | 0 <= m < |namespaces| :: MaySpare(c, namespaces, m, rules, rule)
  {
    if picks :| AllPicksFit(c, namespaces, rules, picks) && Survives(c, namespaces, rules, rule, occurrence, picks) {
      SurvivesIff(c, namespaces, rules, rule, occurrence, picks);
      forall m | 0 <= m < |namespaces|
        ensures MaySpare(c, namespaces, m, rules, rule)
      {
        assert PicksFit(c, namespaces[..m], rules, picks[m]);
        assert Spares(c, namespaces, m, rules, rule, picks[m]);
      }
    } else {
      var picks := seq(|namespaces|,
                       m requires 0 <= m < |namespaces| => BestPicks(c, namespaces[..m], namespaces[m], rules));
      assert AllPicksFit(c, namespaces, rules, picks);
      SurvivesIff(c, namespaces, rules, rule, occurrence, picks);
      if forall m | 0 <= m < |namespaces| :: MaySpare(c, namespaces, m, rules, rule) {
        forall m | 0 <= m < |namespaces|
          ensures Spares(c, namespaces, m, rules, rule, picks[m])
        {
          assert MaySpare(c, namespaces, m, rules, rule);
          SparedByBest(c, namespaces, m, rules, rule);
        }
      }
    }
  }

  lemma SparedByBest(c: Cluster, namespaces: seq<string>, m: nat, rules: seq<GroupKind>, rule: GroupKind)
    requires rule in rules && m < |namespaces| && MaySpare(c, namespaces, m, rules, rule)
    ensures Spares(c, namespaces, m, rules, rule, BestPicks(c, namespaces[..m], namespaces[m], rules))
  {}

  // ---------------------------------------------------------------- what they are charged

  lemma AddsUpStays(c: Cluster, rules: seq<GroupKind>, rule: GroupKind, occurrence: nat, turn: nat, later: nat)
    requires turn <= later && AddsUp(c, rules, rule, occurrence, turn)
    ensures AddsUp(c, rules, rule, occurrence, later)
  {
    if Covered(c, rules, rule, turn) {
      CoveredStays(c, rules, rule, turn, later);
    }
  }

  /** An occurrence that adds up from the start is charged the direct sum and valid when the rule is. */
  lemma {:induction false} ChargedDirectly(c: Cluster, namespaces: seq<string>, rules: seq<GroupKind>, rule: GroupKind,
                                           occurrence: nat, picks: seq<Picks>)
    requires |picks| == |namespaces| && AddsUp(c, rules, rule, occurrence, 0)
    ensures Survives(c, namespaces, rules, rule, occurrence, picks) <==> RuleOk(c, namespaces, rule)
    ensures forall n :: Charge(c, namespaces, rules, rule, occurrence, picks, n) == RuleUses(c, namespaces, rule, n)
  {
    if namespaces != [] {
      var m := |namespaces| - 1;
      ChargedDirectly(c, namespaces[..m], rules, rule, occurrence, picks[..m]);
      assert namespaces == namespaces[..m] + [namespaces[m]];
      RuleOkNext(c, namespaces[..m], namespaces[m], rule);
      AddsUpStays(c, rules, rule, occurrence, 0, Turn(c, namespaces[..m], rule));
    }
  }

  /** Any other is charged what the type left behind uses in the last namespace in which it does not
      add up, and the direct sum over the namespaces after that. */
  lemma {:induction false} ChargedSince(c: Cluster, before: seq<string>, ns: string, later: seq<string>,
                                        rules: seq<GroupKind>, rule: GroupKind, occurrence: nat, picks: seq<Picks>,
                                        n: string)
    requires |picks| == |before| + 1 + |later| && !AddsUp(c, rules, rule, occurrence, Turn(c, before, rule))
    requires later != [] ==> AddsUp(c, rules, rule, occurrence, Turn(c, before + [ns], rule))
    ensures Charge(c, before + [ns] + later, rules, rule, occurrence, picks, n) ==
      TypeUses(c, ns, PickOf(picks[|before|], rule), n) + RuleUses(c, later, rule, n)
    decreases |later|
  {
    var namespaces, m := before + [ns] + later, |before| + |later|;
    if later == [] {
      assert namespaces[..m] == before;
    } else {
      var init := later[..|later| - 1];
      assert namespaces[..m] == before + [ns] + init;
      ChargedSince(c, before, ns, init, rules, rule, occurrence, picks[..m], n);
      TurnsAdd(c, before + [ns], init, rule);
      AddsUpStays(c, rules, rule, occurrence, Turn(c, before + [ns], rule), Turn(c, before + [ns] + init, rule));
    }
  }

  lemma {:induction false} TurnsAdd(c: Cluster, x: seq<string>, y: seq<string>, rule: GroupKind)
    ensures Turn(c, x + y, rule) == Turn(c, x, rule) + Turn(c, y, rule)
    decreases |y|
  {
    if y == [] {
      assert x + y == x;
    } else {
      assert (x + y)[..|x + y| - 1] == x + y[..|y| - 1];
      TurnsAdd(c, x, y[..|y| - 1], rule);
    }
  }

  lemma {:induction false} ValidHasFirstTurn(c: Cluster, namespaces: seq<string>, rule: GroupKind)
    ensures Turn(c, namespaces, rule) == 0 <==> RuleOk(c, namespaces, rule)
  {
    if namespaces != [] {
      var m := |namespaces| - 1;
      ValidHasFirstTurn(c, namespaces[..m], rule);
      assert namespaces == namespaces[..m] + [namespaces[m]];
      RuleOkNext(c, namespaces[..m], namespaces[m], rule);
    }
  }

  ghost predicate OthersAreOk(c: Cluster, namespaces: seq<string>, m: nat, rule: GroupKind) {
    forall k | 0 <= k < |namespaces| && k != m :: RuleOkIn(c, namespaces[k], rule)
  }

  /** One namespace invalidates the rule and leaves the status of a valid type behind; all others
      leave the rule valid. */
  ghost predicate SparedOnce(c: Cluster, namespaces: seq<string>, m: nat, rules: seq<GroupKind>, rule: GroupKind) {
    && m < |namespaces| && !RuleOkIn(c, namespaces[m], rule) && OthersAreOk(c, namespaces, m, rule)
    && SomeFreeIsValid(c, namespaces[m], rules, rule, 0)
  }

  /** The second occurrence may be valid exactly when the rule is, or only one namespace invalidates it
      and some type without a rule of its own before the first occurrence is valid there. */
  lemma SecondMaySurviveIff(c: Cluster, namespaces: seq<string>, rules: seq<GroupKind>, rule: GroupKind)
    requires rule in rules && rule.kind == ""
    ensures MaySurvive(c, namespaces, rules, rule, 1) <==>
      RuleOk(c, namespaces, rule) || exists m :: SparedOnce(c, namespaces, m, rules, rule)
  {
    MaySurviveIff(c, namespaces, rules, rule, 1);
    ValidHasFirstTurn(c, namespaces, rule);
    forall m | 0 <= m < |namespaces| && !RuleOkIn(c, namespaces[m], rule)
      ensures Turn(c, namespaces, rule) <= 1 <==> OthersAreOk(c, namespaces, m, rule)
      ensures Turn(c, namespaces, rule) <= 1 ==> Turn(c, namespaces[..m], rule) == 0
    {
      OneTurnIff(c, namespaces, m, rule);
    }
    if MaySurvive(c, namespaces, rules, rule, 1) && !RuleOk(c, namespaces, rule) {
      var ns :| ns in namespaces && !RuleOkIn(c, ns, rule);
      var m :| 0 <= m < |namespaces| && namespaces[m] == ns;
      assert MaySpare(c, namespaces, m, rules, rule);
      assert SparedOnce(c, namespaces, m, rules, rule);
    }
  }

  lemma OneTurnIff(c: Cluster, namespaces: seq<string>, m: nat, rule: GroupKind)
    requires m < |namespaces| && !RuleOkIn(c, namespaces[m], rule)
    ensures Turn(c, namespaces, rule) <= 1 <==> OthersAreOk(c, namespaces, m, rule)
    ensures Turn(c, namespaces, rule) <= 1 ==> Turn(c, namespaces[..m], rule) == 0
  {
    var before, later := namespaces[..m], namespaces[m + 1..];
    assert namespaces == before + ([namespaces[m]] + later);
    TurnsAdd(c, before, [namespaces[m]] + later, rule);
    TurnsAdd(c, [namespaces[m]], later, rule);
    assert [namespaces[m]] == [] + [namespaces[m]];
    TurnNext(c, [], namespaces[m], rule);
    ValidHasFirstTurn(c, before, rule);
    ValidHasFirstTurn(c, later, rule);
    OthersAreOkIff(c, namespaces, m, rule);
  }

  lemma OthersAreOkIff(c: Cluster, namespaces: seq<string>, m: nat, rule: GroupKind)
    requires m < |namespaces|
    ensures OthersAreOk(c, namespaces, m, rule) <==>
      RuleOk(c, namespaces[..m], rule) && RuleOk(c, namespaces[m + 1..], rule)
  {
    var before, later := namespaces[..m], namespaces[m + 1..];
    if RuleOk(c, before, rule) && RuleOk(c, later, rule) {
      forall k | 0 <= k < |namespaces| && k != m
        ensures RuleOkIn(c, namespaces[k], rule)
      {
        assert namespaces[k] == if k < m then before[k] else later[k - m - 1];
      }
    }
    if OthersAreOk(c, namespaces, m, rule) {
      forall k | 0 <= k < |later|
        ensures RuleOkIn(c, later[k], rule)
      {
        var next := m + 1 + k;
        assert later[k] == namespaces[next];
      }
    }
  }
}
