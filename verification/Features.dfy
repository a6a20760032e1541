/** The state a feature's reconciler keeps: its entry in the feature set and the status derived from
    all entries, the dependents of a feature set, and the check of required workloads. */
module Features {
  import opened ObjectIds
  import Sorting

  // ---------------------------------------------------------------- entries and status

  datatype ComponentStatus = ComponentStatus(name: string, enabled: Option<bool>, ready: Option<bool>,
                                             managed: Option<bool>)

  predicate IsEnabled(f: ComponentStatus) {
    f.enabled == Some(true)
  }

  /** The code's name for it: enabled, but not known to be ready. */
  predicate EnabledNotReady(f: ComponentStatus) {
    IsEnabled(f) && f.ready != Some(true)
  }

  ghost predicate UniqueNames(features: seq<ComponentStatus>) {
    forall i, j :: 0 <= i < j < |features| ==> features[i].name != features[j].name
  }

  ghost predicate AnyEnabled(features: seq<ComponentStatus>) {
    exists f :: f in features && IsEnabled(f)
  }

  /** None enabled, all enabled ones ready, or not. */
  ghost function Readiness(features: seq<ComponentStatus>): Option<bool> {
    if !AnyEnabled(features) then None else Some(forall f <- features :: !EnabledNotReady(f))
  }

  /** In plain terms. An entry without a word on being ready is not. */
  lemma ReadinessIs(features: seq<ComponentStatus>)
    ensures AnyEnabled(features) <==> exists i :: 0 <= i < |features| && features[i].enabled == Some(true)
    ensures Readiness(features) == None <==> forall f <- features :: f.enabled != Some(true)
    ensures Readiness(features) == Some(true) <==>
      && (exists f :: f in features && f.enabled == Some(true))
      && forall f <- features :: f.enabled == Some(true) ==> f.ready == Some(true)
  {
    if f :| f in features && f.enabled == Some(true) {
      var i :| 0 <= i < |features| && features[i] == f;
    }
  }

  const NONE_ENABLED := "No feature enabled yet for this feature set."

  function NotReadyNote(name: string): string {
    "Feature '" + name + "' is enabled but not ready."
  }

  class FeatureSet {
    var features: seq<ComponentStatus>
    var enabled: Option<bool>
    var ready: Option<bool>
    var note: string

    constructor ()
      ensures features == []
    {
      features, enabled, ready, note := [], None, None, "";
    }

    /** The three fields say exactly this about the entries. */
    ghost predicate StatusIsCurrent()
      reads this
    {
      && enabled == Some(AnyEnabled(features)) && ready == Readiness(features)
      && (ready == Some(true) ==> note == "")
      && (ready == Some(false) ==> IsNoteOf(note, features))
      && (ready == None ==> note == NONE_ENABLED)
    }

    method UpdateEntry(f: ComponentStatus)
      requires UniqueNames(features)
      modifies this
      ensures features == Entered(old(features), f)
      ensures UniqueNames(features) && StatusIsCurrent()
    {
      ghost var before := features;
      var found := false;
      for i := 0 to |features|
        invariant |features| == |before|
        invariant found <==> exists j :: 0 <= j < i && before[j].name == f.name
        invariant forall j :: 0 <= j < |before| ==>
          (features[j] == if j < i && before[j].name == f.name then f else before[j])
      {
        if features[i].name == f.name {
          features := features[i := features[i].(enabled := f.enabled, ready := f.ready, managed := f.managed)];
          found := true;
        }
      }
      if !found {
        features := features + [f];
      }
      EnteredIs(before, f, features);
      EnteredIsUnique(before, f);
      UpdateStatus();
    }

    method UpdateStatus()
      requires UniqueNames(features)
      modifies `enabled, `ready, `note
      ensures StatusIsCurrent()
    {
      enabled, ready, note := Some(true), Some(true), "";
      var any := AtLeastOneFeatureEnabled(features);
      if !any {
        enabled, ready, note := Some(false), None, NONE_ENABLED;
      }
      var all, reason := AllEnabledFeaturesReady(features);
      if !all {
        ready, note := Some(false), reason;
      }
    }
  }

  /** The note names the first feature that is enabled and not ready. */
  ghost predicate IsNoteOf(note: string, features: seq<ComponentStatus>) {
    exists i :: 0 <= i < |features| && IsFirstUnready(features, i) && note == NotReadyNote(features[i].name)
  }

  ghost predicate IsFirstUnready(features: seq<ComponentStatus>, i: nat)
    requires i < |features|
  {
    EnabledNotReady(features[i]) && forall j :: 0 <= j < i ==> !EnabledNotReady(features[j])
  }

  method AtLeastOneFeatureEnabled(status: seq<ComponentStatus>) returns (any: bool)
    ensures any <==> exists f :: f in status && IsEnabled(f)
  {
    for i := 0 to |status|
      invariant forall f <- status[..i] :: !IsEnabled(f)
    {
      if status[i].enabled == Some(true) {
        assert status[i] in status;
        return true;
      }
    }
    assert status[..|status|] == status;
    any := false;
  }

  method GetAllEnabledFeatures(features: seq<ComponentStatus>) returns (names: seq<string>, ghost at: seq<nat>)
    ensures |names| == |at| && forall k :: 0 <= k < |at| ==>
      at[k] < |features| && names[k] == features[at[k]].name && IsEnabled(features[at[k]])
    ensures forall j, k :: 0 <= j < k < |at| ==> at[j] < at[k]
    ensures forall i :: 0 <= i < |features| && IsEnabled(features[i]) ==> i in at
  {
    names, at := [], [];
    for i := 0 to |features|
      invariant |names| == |at| && forall k :: 0 <= k < |at| ==>
        at[k] < i && names[k] == features[at[k]].name && IsEnabled(features[at[k]])
      invariant forall j, k :: 0 <= j < k < |at| ==> at[j] < at[k]
      invariant forall j :: 0 <= j < i && IsEnabled(features[j]) ==> j in at
    {
      if features[i].enabled == Some(true) {
        names, at := names + [features[i].name], at + [i];
      }
    }
  }

  method IsFeatureReady(name: string, status: seq<ComponentStatus>) returns (ready: bool)
    ensures ready <==> exists i :: 0 <= i < |status| && status[i].name == name && status[i].ready == Some(true)
  {
    for i := 0 to |status|
      invariant forall j :: 0 <= j < i ==> !(status[j].name == name && status[j].ready == Some(true))
    {
      if status[i].name == name && status[i].ready == Some(true) {
        return true;
      }
    }
    ready := false;
  }

  method AllEnabledFeaturesReady(features: seq<ComponentStatus>) returns (all: bool, reason: string)
    requires UniqueNames(features)
    ensures all ==> reason == "" && forall f <- features :: !EnabledNotReady(f)
    ensures !all ==> IsNoteOf(reason, features)
  {
    var names; ghost var at;
    names, at := GetAllEnabledFeatures(features);
    for k := 0 to |names|
      invariant forall j :: 0 <= j < k ==> !EnabledNotReady(features[at[j]])
    {
      var ready := IsFeatureReady(names[k], features);
      assert ready <==> !EnabledNotReady(features[at[k]]);
      if !ready {
        forall j | 0 <= j < at[k]
          ensures !EnabledNotReady(features[j])
        {
          if IsEnabled(features[j]) {
            var l :| 0 <= l < |at| && at[l] == j;
          }
        }
        assert IsFirstUnready(features, at[k]);
        return false, NotReadyNote(names[k]);
      }
    }
    forall i | 0 <= i < |features|
      ensures !EnabledNotReady(features[i])
    {
      if IsEnabled(features[i]) {
        var l :| 0 <= l < |at| && at[l] == i;
      }
    }
    return true, "";
  }

  /** f takes the place of the entry of its name, or comes last. */
  function Entered(features: seq<ComponentStatus>, f: ComponentStatus): seq<ComponentStatus> {
    if features == [] then [f]
    else if features[0].name == f.name then [f] + features[1..]
    else [features[0]] + Entered(features[1..], f)
  }

  lemma {:induction false} EnteredIs(before: seq<ComponentStatus>, f: ComponentStatus, after: seq<ComponentStatus>)
    requires UniqueNames(before)
    requires
      if exists j :: 0 <= j < |before| && before[j].name == f.name then
        |after| == |before| && forall j :: 0 <= j < |before| ==>
          (after[j] == if before[j].name == f.name then f else before[j])
      else after == before + [f]
    ensures after == Entered(before, f)
  {
    if before != [] && before[0].name == f.name {
      assert after[1..] == before[1..];
    } else if before != [] {
      var rest := before[1..];
      if j :| 0 <= j < |before| && before[j].name == f.name {
        assert rest[j - 1].name == f.name;
      }
      assert (exists j :: 0 <= j < |rest| && rest[j].name == f.name) ==>
          exists j :: 0 <= j < |before| && before[j].name == f.name by {
        if j :| 0 <= j < |rest| && rest[j].name == f.name {
          assert before[j + 1].name == f.name;
        }
      }
      EnteredIs(rest, f, after[1..]);
    }
  }

  lemma {:induction false} EnteredHas(features: seq<ComponentStatus>, f: ComponentStatus, g: ComponentStatus)
    requires UniqueNames(features)
    ensures g in Entered(features, f) <==> g == f || (g in features && g.name != f.name)
  {
    if features != [] {
      EnteredHas(features[1..], f, g);
      assert features == [features[0]] + features[1..];
    }
  }

  lemma {:induction false} EnteredIsUnique(features: seq<ComponentStatus>, f: ComponentStatus)
    requires UniqueNames(features)
    ensures UniqueNames(Entered(features, f))
  {
    if features != [] && features[0].name != f.name {
      var rest := Entered(features[1..], f);
      EnteredIsUnique(features[1..], f);
      forall g <- rest
        ensures g.name != features[0].name
      {
        EnteredHas(features[1..], f, g);
        if g != f {
          var i :| 0 <= i < |features[1..]| && features[1..][i] == g;
        }
      }
    }
  }

  function EnterAll(features: seq<ComponentStatus>, reports: seq<ComponentStatus>): seq<ComponentStatus> {
    if reports == [] then features else Entered(EnterAll(features, reports[..|reports| - 1]), reports[|reports| - 1])
  }

  ghost predicate IsLastReport(reports: seq<ComponentStatus>, f: ComponentStatus) {
    exists i :: 0 <= i < |reports| && reports[i] == f && forall j :: i < j < |reports| ==> reports[j].name != f.name
  }

  lemma LastReportStep(init: seq<ComponentStatus>, last: ComponentStatus, f: ComponentStatus)
    ensures IsLastReport(init + [last], f) <==> f == last || (f.name != last.name && IsLastReport(init, f))
  {
    var reports := init + [last];
    assert reports[|init|] == last;
    if f == last {
      assert reports[|init|] == f;
    } else if f.name != last.name {
      if i :| 0 <= i < |init| && init[i] == f && forall j :: i < j < |init| ==> init[j].name != f.name {
        assert reports[i] == f;
      }
      if i :| 0 <= i < |reports| && reports[i] == f && forall j :: i < j < |reports| ==> reports[j].name != f.name {
        assert init[i] == f && forall j :: i < j < |init| ==> init[j] == reports[j];
      }
    }
  }

  /** Over any run of reports the entries stay unique by name and are, as a set, each name's last
      report and the old entries of the names not reported. */
  lemma {:induction false} EntriesAreLastReports(features: seq<ComponentStatus>, reports: seq<ComponentStatus>,
                                                 f: ComponentStatus)
    requires UniqueNames(features)
    ensures UniqueNames(EnterAll(features, reports))
    ensures f in EnterAll(features, reports) <==>
      IsLastReport(reports, f) || (f in features && forall g <- reports :: g.name != f.name)
  {
    if reports != [] {
      var init, last := reports[..|reports| - 1], reports[|reports| - 1];
      EntriesAreLastReports(features, init, f);
      EnteredHas(EnterAll(features, init), last, f);
      EnteredIsUnique(EnterAll(features, init), last);
      assert reports == init + [last];
      LastReportStep(init, last, f);
    }
  }

  /** The order in which different features report does not matter to whether the set is enabled and
      ready: it depends on each one's last report only. The note does depend on it, since it names the
      first entry that is not ready. */
  lemma OrderOfReportsDoesNotMatter(features: seq<ComponentStatus>, reports: seq<ComponentStatus>,
                                    reports': seq<ComponentStatus>)
    requires UniqueNames(features)
    requires forall f :: IsLastReport(reports, f) <==> IsLastReport(reports', f)
    ensures AnyEnabled(EnterAll(features, reports)) == AnyEnabled(EnterAll(features, reports'))
    ensures Readiness(EnterAll(features, reports)) == Readiness(EnterAll(features, reports'))
  {
    forall f
      ensures f in EnterAll(features, reports) <==> f in EnterAll(features, reports')
    {
      EntriesAreLastReports(features, reports, f);
      EntriesAreLastReports(features, reports', f);
      if g :| g in reports && g.name == f.name {
        var last := LastReportOf(reports, g);
      }
      if g :| g in reports' && g.name == f.name {
        var last := LastReportOf(reports', g);
      }
    }
  }

  lemma {:induction false} LastReportOf(reports: seq<ComponentStatus>, g: ComponentStatus) returns (f: ComponentStatus)
    requires g in reports
    ensures f in reports && f.name == g.name && IsLastReport(reports, f)
  {
    var init, last := reports[..|reports| - 1], reports[|reports| - 1];
    assert reports == init + [last];
    if last.name == g.name {
      f := last;
    } else {
      f := LastReportOf(init, g);
    }
    LastReportStep(init, last, f);
  }

  /** The reconcilers of a run, one after the other. */
  method UpdateEntries(fs: FeatureSet, reports: seq<ComponentStatus>)
    requires UniqueNames(fs.features)
    modifies fs
    ensures fs.features == EnterAll(old(fs.features), reports) && UniqueNames(fs.features)
    ensures reports != [] ==> fs.StatusIsCurrent()
  {
    for i := 0 to |reports|
      invariant fs.features == EnterAll(old(fs.features), reports[..i]) && UniqueNames(fs.features)
      invariant i > 0 ==> fs.StatusIsCurrent()
    {
      assert reports[..i + 1][..i] == reports[..i];
      fs.UpdateEntry(reports[i]);
    }
    assert reports[..|reports|] == reports;
  }

  // ---------------------------------------------------------------- dependents

  datatype Dependent = Dependent(name: string, features: seq<string>)

  /** The (feature set, feature) pairs listed. */
  ghost function Pairs(dependents: seq<Dependent>): iset<(string, string)> {
    iset d, f | d in dependents && f in d.features :: (d.name, f)
  }

  ghost predicate IsList(features: seq<string>) {
    features != [] && Sorting.StrictlySorted(Sorting.Less, features)
  }

  /** One entry for each feature set, none empty, each sorted without repetitions. */
  ghost predicate WellFormed(dependents: seq<Dependent>) {
    && (forall i, j :: 0 <= i < j < |dependents| ==> dependents[i].name != dependents[j].name)
    && forall d <- dependents :: IsList(d.features)
  }

  method SortedList(names: set<string>) returns (list: seq<string>)
    ensures Sorting.StrictlySorted(Sorting.Less, list) && forall x :: x in list <==> x in names
  {
    list := Sorting.Listing(names);
    Sorting.LessIsStrictWeak();
    forall x, y | x in list && y in list && x != y
      ensures Sorting.Less(x, y) || Sorting.Less(y, x)
    {
      Sorting.LessIsTotal(x, y);
    }
    assert forall x :: x in list <==> x in Sorting.Elements(list);
    Sorting.SortSliceIsStrict(Sorting.Less, list);
    list := Sorting.SortSlice(Sorting.Less, list);
  }

  method AddFeatureDependents(dependents: seq<Dependent>, featureSet: string, feature: string)
    returns (out: seq<Dependent>)
    ensures Pairs(out) == Pairs(dependents) + iset{(featureSet, feature)}
    ensures WellFormed(dependents) ==> WellFormed(out)
  {
    for i := 0 to |dependents|
      invariant forall j :: 0 <= j < i ==> dependents[j].name != featureSet
    {
      var fs := dependents[i];
      if fs.name == featureSet {
        var features := SortedList(Sorting.Elements(fs.features) + {feature});
        out := dependents[i := fs.(features := features)];
        ReplacedPairs(dependents, i, features, Pairs(dependents) + iset{(featureSet, feature)});
        return;
      }
    }
    var more := Dependent(featureSet, [feature]);
    out := dependents + [more];
    AppendedPairs(dependents, more);
  }

  lemma ReplacedPairs(dependents: seq<Dependent>, i: nat, features: seq<string>, expected: iset<(string, string)>)
    requires i < |dependents| && forall f <- dependents[i].features :: f in features
    requires expected == Pairs(dependents) + iset f | f in features :: (dependents[i].name, f)
    ensures Pairs(dependents[i := dependents[i].(features := features)]) == expected
  {
    var out := dependents[i := dependents[i].(features := features)];
    forall p
      ensures p in Pairs(out) <==> p in expected
    {
      if p in Pairs(out) {
        var d :| d in out && p.0 == d.name && p.1 in d.features;
        var j :| 0 <= j < |out| && out[j] == d;
        assert j != i ==> dependents[j] in dependents;
      }
      if p in expected {
        if d :| d in dependents && p.0 == d.name && p.1 in d.features {
          var j :| 0 <= j < |dependents| && dependents[j] == d;
          assert out[j] in out && p.1 in out[j].features;
        } else {
          assert out[i] in out;
        }
      }
    }
  }

  lemma AppendedPairs(dependents: seq<Dependent>, d: Dependent)
    ensures Pairs(dependents + [d]) == Pairs(dependents) + Pairs([d])
  {
    forall p
      ensures p in Pairs(dependents + [d]) <==> p in Pairs(dependents) || p in Pairs([d])
    {
      if x :| x in dependents && p.0 == x.name && p.1 in x.features {
        assert x in dependents + [d];
      }
      assert d in dependents + [d] && d in [d];
    }
  }

  method RemoveFeatureDependents(dependents: seq<Dependent>, featureSet: string, feature: string)
    returns (out: seq<Dependent>)
    ensures Pairs(out) == Pairs(dependents) - iset{(featureSet, feature)}
    ensures WellFormed(dependents) ==> WellFormed(out)
  {
    out := [];
    ghost var at: seq<nat> := [];
    for i := 0 to |dependents|
      invariant Pairs(out) == Pairs(dependents[..i]) - iset{(featureSet, feature)}
      invariant |at| == |out| && forall k :: 0 <= k < |at| ==> at[k] < i && dependents[at[k]].name == out[k].name
      invariant forall j, k :: 0 <= j < k < |at| ==> at[j] < at[k]
      invariant (forall d <- dependents :: IsList(d.features)) ==> forall d <- out :: IsList(d.features)
    {
      var fs := dependents[i];
      assert dependents[..i + 1] == dependents[..i] + [fs] && fs in dependents;
      AppendedPairs(dependents[..i], fs);
      var rest := fs;
      if fs.name == featureSet {
        var features := SortedList(Sorting.Elements(fs.features) - {feature});
        rest := fs.(features := features);
      }
      RemovedPairs(fs, rest, featureSet, feature);
      if fs.name != featureSet || |rest.features| > 0 {
        AppendedPairs(out, rest);
        out, at := out + [rest], at + [i];
      }
    }
    assert dependents[..|dependents|] == dependents;
  }

  lemma RemovedPairs(fs: Dependent, rest: Dependent, featureSet: string, feature: string)
    requires if fs.name == featureSet then
        rest.name == fs.name && forall f :: f in rest.features <==> f in fs.features && f != feature
      else rest == fs
    ensures Pairs([rest]) == Pairs([fs]) - iset{(featureSet, feature)}
  {
    assert rest in [rest] && fs in [fs];
  }

  datatype Change = Change(featureSet: string, feature: string, enabled: bool)

  /** The pairs after a run: those whose last change enabled them, and those never changed. */
  ghost function PairsAfter(pairs: iset<(string, string)>, run: seq<Change>): iset<(string, string)> {
    if run == [] then pairs
    else
      var before, c := PairsAfter(pairs, run[..|run| - 1]), run[|run| - 1];
      if c.enabled then before + iset{(c.featureSet, c.feature)} else before - iset{(c.featureSet, c.feature)}
  }

  /** The last change of a pair decides. */
  lemma {:induction false} LastChangeDecides(pairs: iset<(string, string)>, run: seq<Change>, i: nat, p: (string,
                                             string))
    requires i < |run| && p == (run[i].featureSet, run[i].feature)
    requires forall j :: i < j < |run| ==> p != (run[j].featureSet, run[j].feature)
    ensures p in PairsAfter(pairs, run) <==> run[i].enabled
  {
    if i < |run| - 1 {
      LastChangeDecides(pairs, run[..|run| - 1], i, p);
    }
  }

  method UpdateDependents(dependents: seq<Dependent>, run: seq<Change>) returns (out: seq<Dependent>)
    ensures Pairs(out) == PairsAfter(Pairs(dependents), run)
    ensures WellFormed(dependents) ==> WellFormed(out)
  {
    out := dependents;
    for i := 0 to |run|
      invariant Pairs(out) == PairsAfter(Pairs(dependents), run[..i])
      invariant WellFormed(dependents) ==> WellFormed(out)
    {
      assert run[..i + 1][..i] == run[..i];
      if run[i].enabled {
        out := AddFeatureDependents(out, run[i].featureSet, run[i].feature);
      } else {
        out := RemoveFeatureDependents(out, run[i].featureSet, run[i].feature);
      }
    }
    assert run[..|run|] == run;
  }

  // ---------------------------------------------------------------- required workloads

  datatype Workload = Workload(optional: string, id: string)

  /** What listing a workload's objects gives. */
  datatype Check = Missing | NotReady | Ready | Failed

  datatype Requirement = Requirement(found: bool, ready: bool) | CheckFailed

  predicate Exists(c: Check) {
    c == NotReady || c == Ready
  }

  predicate GroupFound(ws: seq<Workload>, check: Workload -> Check, group: string) {
    if group == "" then forall w <- ws :: w.optional == "" ==> Exists(check(w))
    else exists w :: w in ws && w.optional == group && Exists(check(w))
  }

  predicate GroupReady(ws: seq<Workload>, check: Workload -> Check, group: string) {
    if group == "" then forall w <- ws :: w.optional == "" ==> check(w) == Ready
    else exists w :: w in ws && w.optional == group && check(w) == Ready
  }

  ghost predicate Occurs(ws: seq<Workload>, group: string) {
    exists w :: w in ws && w.optional == group
  }

  function InGroup(ws: seq<Workload>, group: string): seq<Workload> {
    if ws == [] then []
    else InGroup(ws[..|ws| - 1], group) + if ws[|ws| - 1].optional == group then [ws[|ws| - 1]] else []
  }

  lemma {:induction false} InGroupHas(ws: seq<Workload>, group: string, w: Workload)
    ensures w in InGroup(ws, group) <==> w in ws && w.optional == group
  {
    if ws != [] {
      InGroupHas(ws[..|ws| - 1], group, w);
      assert ws == ws[..|ws| - 1] + [ws[|ws| - 1]];
    }
  }

  ghost predicate AreGroups(ws: seq<Workload>, groups: map<string, seq<Workload>>) {
    (forall g :: g in groups <==> Occurs(ws, g)) && forall g <- groups :: groups[g] == InGroup(ws, g)
  }

  lemma {:induction false} NoneInGroup(ws: seq<Workload>, group: string)
    requires !Occurs(ws, group)
    ensures InGroup(ws, group) == []
  {
    if InGroup(ws, group) != [] {
      InGroupHas(ws, group, InGroup(ws, group)[0]);
    }
  }

  lemma GroupStep(ws: seq<Workload>, w: Workload, g: string)
    ensures Occurs(ws + [w], g) <==> Occurs(ws, g) || g == w.optional
    ensures InGroup(ws + [w], g) == InGroup(ws, g) + if g == w.optional then [w] else []
  {
    assert (ws + [w])[..|ws|] == ws && w in ws + [w];
    if x :| x in ws && x.optional == g {
      assert x in ws + [w];
    }
  }

  function Grown(groups: map<string, seq<Workload>>, w: Workload): map<string, seq<Workload>> {
    groups[w.optional := (if w.optional in groups then groups[w.optional] else []) + [w]]
  }

  lemma GroupsStep(ws: seq<Workload>, w: Workload, groups: map<string, seq<Workload>>)
    requires AreGroups(ws, groups)
    ensures AreGroups(ws + [w], Grown(groups, w))
  {
    if w.optional !in groups {
      NoneInGroup(ws, w.optional);
    }
    forall g
      ensures g in Grown(groups, w) <==> Occurs(ws + [w], g)
      ensures g in Grown(groups, w) ==> Grown(groups, w)[g] == InGroup(ws + [w], g)
    {
      GroupStep(ws, w, g);
    }
  }

  method GroupWorkloads(ws: seq<Workload>) returns (groups: map<string, seq<Workload>>)
    ensures AreGroups(ws, groups)
  {
    groups := map[];
    for i := 0 to |ws|
      invariant AreGroups(ws[..i], groups)
    {
      var w := ws[i];
      GroupsStep(ws[..i], w, groups);
      assert ws[..i + 1] == ws[..i] + [w];
      groups := Grown(groups, w);
    }
    assert ws[..|ws|] == ws;
  }

  lemma GroupsAreParts(ws: seq<Workload>, check: Workload -> Check, group: string)
    ensures GroupFound(InGroup(ws, group), check, group) == GroupFound(ws, check, group)
    ensures GroupReady(InGroup(ws, group), check, group) == GroupReady(ws, check, group)
    ensures forall w :: w in InGroup(ws, group) <==> w in ws && w.optional == group
  {
    forall w
      ensures w in InGroup(ws, group) <==> w in ws && w.optional == group
    {
      InGroupHas(ws, group, w);
    }
  }

  ghost predicate SomeFails(ws: seq<Workload>, check: Workload -> Check, group: string) {
    exists w :: w in ws && w.optional == group && check(w) == Failed
  }

  lemma OneMoreChecked(ws: seq<Workload>, w: Workload, check: Workload -> Check, group: string)
    requires w.optional == group
    ensures var found, ready := GroupFound(ws, check, group), GroupReady(ws, check, group);
      && GroupFound(ws + [w], check, group) ==
        (if group == "" then found && Exists(check(w)) else found || Exists(check(w)))
      && GroupReady(ws + [w], check, group) ==
        (if group == "" then ready && check(w) == Ready else ready || check(w) == Ready)
  {
    assert w in ws + [w] && forall x :: x in ws + [w] <==> x in ws || x == w;
  }

  method CheckGroup(ghost all: seq<Workload>, ws: seq<Workload>, check: Workload -> Check, group: string)
    returns (failed: bool, found: bool, ready: bool)
    requires ws == InGroup(all, group)
    ensures failed <==> SomeFails(all, check, group)
    ensures !failed ==> found == GroupFound(all, check, group) && ready == GroupReady(all, check, group)
  {
    GroupsAreParts(all, check, group);
    found, ready := group == "", group == "";
    for i := 0 to |ws|
      invariant forall w <- ws[..i] :: check(w) != Failed
      invariant found == GroupFound(ws[..i], check, group) && ready == GroupReady(ws[..i], check, group)
    {
      var w := ws[i];
      assert ws[..i + 1] == ws[..i] + [w] && w in ws;
      OneMoreChecked(ws[..i], w, check, group);
      var status := check(w);
      if status == Failed {
        return true, false, false;
      }
      if group == "" {
        found, ready := found && Exists(status), ready && status == Ready;
      } else {
        found, ready := found || Exists(status), ready || status == Ready;
      }
    }
    assert ws[..|ws|] == ws;
    failed := false;
  }

  ghost predicate Passes(ws: seq<Workload>, check: Workload -> Check, group: string) {
    GroupReady(ws, check, group) && !SomeFails(ws, check, group)
  }

  ghost predicate AllReady(ws: seq<Workload>, check: Workload -> Check) {
    forall g :: Occurs(ws, g) ==> Passes(ws, check, g)
  }

  /** In plain terms: no check failed, every required workload is ready, and of every option one is. */
  lemma AllReadyIff(ws: seq<Workload>, check: Workload -> Check)
    ensures AllReady(ws, check) <==>
      && (forall w <- ws :: check(w) != Failed)
      && (forall w <- ws :: w.optional == "" ==> check(w) == Ready)
      && (forall w <- ws :: w.optional != "" ==> exists v :: v in ws && v.optional == w.optional && check(v) == Ready)
  {
    if AllReady(ws, check) {
      forall w | w in ws
        ensures Passes(ws, check, w.optional)
      {
        assert Occurs(ws, w.optional);
      }
    }
  }

  /** A workload does not exist and is required, or is of an option of which none exists. */
  ghost predicate LacksWorkload(ws: seq<Workload>, check: Workload -> Check, w: Workload) {
    && w in ws && check(w) == Missing
    && (w.optional != "" ==> forall v <- ws :: v.optional == w.optional ==> check(v) == Missing)
  }

  /** A workload exists and is not ready; all the required ones exist, or of its option none is ready. */
  ghost predicate AwaitsWorkload(ws: seq<Workload>, check: Workload -> Check, w: Workload) {
    && w in ws && check(w) == NotReady
    && forall v <- ws :: v.optional == w.optional ==>
         if w.optional == "" then check(v) == NotReady || check(v) == Ready
         else check(v) == NotReady || check(v) == Missing
  }

  /** What may be answered on account of one group. */
  lemma ExplainedAnswer(ws: seq<Workload>, check: Workload -> Check, g: string)
    requires Occurs(ws, g) && !SomeFails(ws, check, g)
    ensures !GroupFound(ws, check, g) ==> exists w :: LacksWorkload(ws, check, w)
    ensures GroupFound(ws, check, g) && !GroupReady(ws, check, g) ==> exists w :: AwaitsWorkload(ws, check, w)
  {
    if !GroupFound(ws, check, g) {
      var w :| w in ws && w.optional == g && !Exists(check(w));
      assert LacksWorkload(ws, check, w);
    } else if !GroupReady(ws, check, g) {
      var w :| w in ws && w.optional == g && check(w) == NotReady;
      assert AwaitsWorkload(ws, check, w);
    }
  }

  /** The groups in the order a map iteration happens to visit them. */
  method VisitingOrder(ws: seq<Workload>) returns (order: seq<string>, groups: map<string, seq<Workload>>)
    ensures AreGroups(ws, groups) && forall g :: g in order <==> Occurs(ws, g)
  {
    groups := GroupWorkloads(ws);
    order := Sorting.Listing(groups.Keys);
    assert forall g :: g in order <==> g in Sorting.Elements(order);
  }

  /** Whether the answer is "ready" does not depend on the order in which the groups are visited: every
      required workload is ready, every optional group has one that is, and no check failed. Which
      other answer comes back may depend on it. */
  method CheckRequiredWorkloads(ws: seq<Workload>, check: Workload -> Check) returns (r: Requirement)
    ensures r == Requirement(true, true) <==> AllReady(ws, check)
    ensures r != Requirement(false, true)
    ensures r == Requirement(false, false) ==> exists w :: LacksWorkload(ws, check, w)
    ensures r == Requirement(true, false) ==> exists w :: AwaitsWorkload(ws, check, w)
    ensures r.CheckFailed? ==> exists w :: w in ws && check(w) == Failed
  {
    var order, groups := VisitingOrder(ws);
    for i := 0 to |order|
      invariant forall j :: 0 <= j < i ==> Passes(ws, check, order[j])
    {
      assert order[i] in order && Occurs(ws, order[i]);
      var failed, found, ready := CheckGroup(ws, groups[order[i]], check, order[i]);
      if failed || !found || !ready {
        r := if failed then CheckFailed else Requirement(found, false);
        FoundFollows(ws, check, order[i]);
        if !failed {
          ExplainedAnswer(ws, check, order[i]);
        }
        return;
      }
    }
    r := Requirement(true, true);
  }

  /** A group that is ready is found. */
  lemma FoundFollows(ws: seq<Workload>, check: Workload -> Check, group: string)
    ensures GroupReady(ws, check, group) ==> GroupFound(ws, check, group)
  {}
}
