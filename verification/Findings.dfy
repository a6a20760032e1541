/** Scan results as the report and the metrics read them: a list of findings per image. */
module Findings {
  import opened Sums

  type Image = string
  type CVE = string
  type Severity = string

  datatype Vulnerability = Vulnerability(id: CVE, severity: Severity, title: string, installed: string, layer: string)

  /** One section of an image's scan report. */
  datatype Section = Section(target: string, class_: string, type_: string, vulnerabilities: seq<Vulnerability>)

  /** A missing report has no sections. */
  datatype ScanResult = ScanResult(missing: bool, sections: seq<Section>)

  datatype Target = Target(installed: string, target: string, class_: string, type_: string, layer: string)

  datatype Finding = Finding(vuln: Vulnerability, place: Target)

  function FindingAt(section: Section, v: Vulnerability): Finding {
    Finding(v, Target(v.installed, section.target, section.class_, section.type_, v.layer))
  }

  function InSection(section: Section, n: nat): (fs: seq<Finding>)
    requires n <= |section.vulnerabilities|
  {
    seq(n, i requires 0 <= i < n => FindingAt(section, section.vulnerabilities[i]))
  }

  /** The findings of the first n sections, in the order the loops meet them. */
  function InSections(sections: seq<Section>, n: nat): (fs: seq<Finding>)
    requires n <= |sections|
  {
    if n == 0 then [] else InSections(sections, n - 1) + InSection(sections[n - 1], |sections[n - 1].vulnerabilities|)
  }

  function FindingsOf(r: ScanResult): seq<Finding> {
    if r.missing then [] else InSections(r.sections, |r.sections|)
  }

  lemma {:induction false} SectionsHave(sections: seq<Section>, n: nat, f: Finding)
    requires n <= |sections|
    ensures f in InSections(sections, n) <==> exists i, j ::
      && 0 <= i < n && 0 <= j < |sections[i].vulnerabilities|
      && f == FindingAt(sections[i], sections[i].vulnerabilities[j])
  {
    if n > 0 {
      SectionsHave(sections, n - 1, f);
      var section := sections[n - 1];
      var last := InSection(section, |section.vulnerabilities|);
      if f in last {
        var j :| 0 <= j < |last| && last[j] == f;
        assert f == FindingAt(section, section.vulnerabilities[j]);
      }
      if v :| v in section.vulnerabilities && f == FindingAt(section, v) {
        var j :| 0 <= j < |last| && section.vulnerabilities[j] == v;
        assert last[j] == f;
      }
    }
  }

  ghost function TotalOf(sections: seq<Section>): int {
    SumSeq(sections, (s: Section) => |s.vulnerabilities|)
  }

  lemma {:induction false} SectionsAddUp(sections: seq<Section>, n: nat)
    requires n <= |sections|
    ensures |InSections(sections, n)| == TotalOf(sections[..n])
  {
    if n > 0 {
      SectionsAddUp(sections, n - 1);
      assert sections[..n][..n - 1] == sections[..n - 1];
    }
  }

  /** Of a report that is there, every vulnerability of every section is one finding, at the place the
      section and the vulnerability give; there are no others. */
  lemma FindingsAreAll(r: ScanResult, f: Finding)
    ensures r.missing ==> FindingsOf(r) == []
    ensures !r.missing ==> |FindingsOf(r)| == SumSeq(r.sections, (s: Section) => |s.vulnerabilities|)
    ensures f in FindingsOf(r) <==> !r.missing && exists s, v ::
      && s in r.sections && v in s.vulnerabilities && f.vuln == v
      && f.place == Target(v.installed, s.target, s.class_, s.type_, v.layer)
  {
    SectionsAddUp(r.sections, |r.sections|);
    assert r.sections[..|r.sections|] == r.sections;
    SectionsHave(r.sections, |r.sections|, f);
    if s, v :| s in r.sections && v in s.vulnerabilities && f.vuln == v
               && f.place == Target(v.installed, s.target, s.class_, s.type_, v.layer) {
      var i :| 0 <= i < |r.sections| && r.sections[i] == s;
      var j :| 0 <= j < |s.vulnerabilities| && s.vulnerabilities[j] == v;
      assert f == FindingAt(r.sections[i], r.sections[i].vulnerabilities[j]);
    }
  }

  // ---------------------------------------------------------------- which finding decides

  /** The first finding of the CVE has this severity. */
  ghost predicate FirstGives(fs: seq<Finding>, cve: CVE, sev: Severity) {
    exists k :: && 0 <= k < |fs| && fs[k].vuln.id == cve && fs[k].vuln.severity == sev
                && forall j :: 0 <= j < k ==> fs[j].vuln.id != cve
  }

  lemma FirstStays(fs: seq<Finding>, f: Finding, cve: CVE, sev: Severity)
    requires FirstGives(fs, cve, sev)
    ensures FirstGives(fs + [f], cve, sev)
  {
    var k :| && 0 <= k < |fs| && fs[k].vuln.id == cve && fs[k].vuln.severity == sev
             && forall j :: 0 <= j < k ==> fs[j].vuln.id != cve;
    assert (fs + [f])[k] == fs[k];
  }

  lemma FirstAppears(fs: seq<Finding>, f: Finding)
    requires f.vuln.id !in CVEs(fs)
    ensures FirstGives(fs + [f], f.vuln.id, f.vuln.severity)
  {
    var all := fs + [f];
    assert all[|fs|] == f;
    forall j | 0 <= j < |fs|
      ensures all[j].vuln.id != f.vuln.id
    {
      assert all[j] in fs;
    }
  }

  lemma FirstIsSome(fs: seq<Finding>, cve: CVE, sev: Severity) returns (f: Finding)
    requires FirstGives(fs, cve, sev)
    ensures f in fs && f.vuln.id == cve && f.vuln.severity == sev
  {
    var k :| 0 <= k < |fs| && fs[k].vuln.id == cve && fs[k].vuln.severity == sev;
    f := fs[k];
  }

  /** The risk of a CVE in an image is that of its last finding. */
  lemma {:induction false} LastFindingDecides(fs: seq<Finding>, k: nat)
    requires k < |fs| && forall j :: k < j < |fs| ==> fs[j].vuln.id != fs[k].vuln.id
    ensures fs[k].vuln.id in RiskByCVE(fs) && RiskByCVE(fs)[fs[k].vuln.id] == fs[k].vuln.severity
  {
    if k < |fs| - 1 {
      LastFindingDecides(fs[..|fs| - 1], k);
    }
  }

  // ---------------------------------------------------------------- what is counted

  function Severities(fs: seq<Finding>): set<Severity> {
    set f | f in fs :: f.vuln.severity
  }

  function CVEs(fs: seq<Finding>): set<CVE> {
    set f | f in fs :: f.vuln.id
  }

  function CountSeverity(fs: seq<Finding>, sev: Severity): nat {
    if fs == [] then 0
    else CountSeverity(fs[..|fs| - 1], sev) + if fs[|fs| - 1].vuln.severity == sev then 1 else 0
  }

  /** Where a CVE was found, in order. */
  function TargetsOf(fs: seq<Finding>, cve: CVE): seq<Target> {
    if fs == [] then []
    else TargetsOf(fs[..|fs| - 1], cve) + if fs[|fs| - 1].vuln.id == cve then [fs[|fs| - 1].place] else []
  }

  /** The severity of each CVE; the last finding wins. */
  function RiskByCVE(fs: seq<Finding>): (m: map<CVE, Severity>)
    ensures m.Keys == CVEs(fs)
  {
    if fs == [] then map[] else
      assert fs == fs[..|fs| - 1] + [fs[|fs| - 1]];
      RiskByCVE(fs[..|fs| - 1])[fs[|fs| - 1].vuln.id := fs[|fs| - 1].vuln.severity]
  }

  lemma {:induction false} CountSeverityZero(fs: seq<Finding>, sev: Severity)
    ensures CountSeverity(fs, sev) > 0 <==> sev in Severities(fs)
  {
    if fs != [] {
      assert fs == fs[..|fs| - 1] + [fs[|fs| - 1]];
      CountSeverityZero(fs[..|fs| - 1], sev);
    }
  }

  lemma {:induction false} TargetsOfEmpty(fs: seq<Finding>, cve: CVE)
    ensures TargetsOf(fs, cve) != [] <==> cve in CVEs(fs)
  {
    if fs != [] {
      assert fs == fs[..|fs| - 1] + [fs[|fs| - 1]];
      TargetsOfEmpty(fs[..|fs| - 1], cve);
    }
  }

  /** The counter is start plus the findings fs by severity. */
  ghost predicate CountsSeverities(fs: seq<Finding>, start: map<Severity, int>, counter: map<Severity, int>) {
    && (forall sev :: sev in counter <==> sev in start || CountSeverity(fs, sev) > 0)
    && (forall sev :: At(counter, sev) == At(start, sev) + CountSeverity(fs, sev))
  }

  lemma CountOneFinding(fs: seq<Finding>, f: Finding, start: map<Severity, int>, counter: map<Severity, int>)
    requires CountsSeverities(fs, start, counter)
    ensures CountsSeverities(fs + [f], start, Inc(counter, f.vuln.severity))
  {
    assert (fs + [f])[..|fs|] == fs;
  }

  lemma TargetsOfOneMore(fs: seq<Finding>, f: Finding, c: CVE)
    ensures TargetsOf(fs + [f], c) == TargetsOf(fs, c) + if f.vuln.id == c then [f.place] else []
  {
    assert (fs + [f])[..|fs|] == fs;
  }

  /** Counting by severity counts every finding once. */
  lemma {:induction false} SumOverSeverities(fs: seq<Finding>, sevs: set<Severity>)
    requires Severities(fs) <= sevs
    ensures Sum(sevs, sev => CountSeverity(fs, sev)) == |fs|
  {
    var f := (sev: Severity) => CountSeverity(fs, sev) as int;
    if fs == [] {
      SumConst(sevs, f, 0);
    } else {
      var init, last := fs[..|fs| - 1], fs[|fs| - 1];
      assert fs == init + [last];
      var g := (sev: Severity) => CountSeverity(init, sev) as int;
      SumOverSeverities(init, sevs);
      SumDiffersAt(sevs, last.vuln.severity, g, f);
    }
  }

  /** Counting by CVE counts every finding once. */
  lemma {:induction false} SumOverCVEs(fs: seq<Finding>, cves: set<CVE>)
    requires CVEs(fs) <= cves
    ensures Sum(cves, cve => |TargetsOf(fs, cve)|) == |fs|
  {
    var f := (cve: CVE) => |TargetsOf(fs, cve)|;
    if fs == [] {
      SumConst(cves, f, 0);
    } else {
      var init, last := fs[..|fs| - 1], fs[|fs| - 1];
      assert fs == init + [last];
      var g := (cve: CVE) => |TargetsOf(init, cve)|;
      SumOverCVEs(init, cves);
      SumDiffersAt(cves, last.vuln.id, g, f);
    }
  }

  // ---------------------------------------------------------------- counting keys by value

  /** How many of the given keys have the value. */
  ghost function CountAmong<K, V>(m: map<K, V>, keys: set<K>, v: V): nat {
    |set k | k in keys && k in m && m[k] == v|
  }

  lemma CountOneMore<K, V>(m: map<K, V>, keys: set<K>, k: K, v: V)
    requires k in m && k !in keys
    ensures CountAmong(m, keys + {k}, v) == CountAmong(m, keys, v) + if m[k] == v then 1 else 0
  {
    var before := set j | j in keys && j in m && m[j] == v;
    var after := set j | j in keys + {k} && j in m && m[j] == v;
    assert after == before + if m[k] == v then {k} else {};
  }

  ghost function CountValue<K, V>(m: map<K, V>, v: V): nat {
    CountAmong(m, m.Keys, v)
  }

  lemma CountSame<K, V>(m: map<K, V>, m': map<K, V>, v: V)
    requires forall k :: k in m && m[k] == v <==> k in m' && m'[k] == v
    ensures CountValue(m, v) == CountValue(m', v)
  {
    assert (set k | k in m.Keys && k in m && m[k] == v) == set k | k in m'.Keys && k in m' && m'[k] == v;
  }

  /** Counting the keys of a map by value counts every key once. */
  lemma {:induction false} SumOverValues<K, V>(m: map<K, V>, values: set<V>)
    requires m.Values <= values
    ensures Sum(values, v => CountValue(m, v)) == |m.Keys|
    decreases |m|
  {
    var f := (v: V) => CountValue(m, v) as int;
    if m == map[] {
      SumConst(values, f, 0);
    } else {
      var k :| k in m;
      var rest := m - {k};
      assert m.Keys == rest.Keys + {k};
      assert m[k] in m.Values;
      forall v | v in rest.Values
        ensures v in m.Values
      {
        var j :| j in rest && rest[j] == v;
        assert m[j] == v;
      }
      var g := (v: V) => CountValue(rest, v) as int;
      SumOverValues(rest, values);
      forall v: V
        ensures f(v) == g(v) + if v == m[k] then 1 else 0
      {
        CountOneMore(m, rest.Keys, k, v);
        assert (set j | j in rest.Keys && j in m && m[j] == v) == set j | j in rest.Keys && j in rest && rest[j] == v;
      }
      SumDiffersAt(values, m[k], g, f);
    }
  }

  /** counts is start with one more for the value of each of the given keys. */
  ghost predicate Counted(m: map<CVE, Severity>, keys: set<CVE>, start: map<Severity, int>,
                          counts: map<Severity, int>) {
    && (forall v :: v in counts <==> v in start || CountAmong(m, keys, v) > 0)
    && (forall v :: At(counts, v) == At(start, v) + CountAmong(m, keys, v))
  }

  lemma CountedOneMore(m: map<CVE, Severity>, keys: set<CVE>, start: map<Severity, int>, counts: map<Severity, int>,
                       k: CVE)
    requires Counted(m, keys, start, counts) && k in m && k !in keys
    ensures Counted(m, keys + {k}, start, Inc(counts, m[k]))
  {
    forall v: Severity
      ensures CountAmong(m, keys + {k}, v) == CountAmong(m, keys, v) + if m[k] == v then 1 else 0
    {
      CountOneMore(m, keys, k, v);
    }
  }

  lemma CountedNone(m: map<CVE, Severity>, start: map<Severity, int>)
    ensures Counted(m, {}, start, start)
  {
    forall v: Severity
      ensures CountAmong(m, {}, v) == 0
    {}
  }

  /** The loop that counts the values of a map into a counter. */
  method CountValues(m: map<CVE, Severity>, start: map<Severity, int>) returns (counts: map<Severity, int>)
    ensures Counted(m, m.Keys, start, counts)
  {
    counts := start;
    var rest := m.Keys;
    CountedNone(m, start);
    while rest != {}
      invariant rest <= m.Keys
      invariant Counted(m, m.Keys - rest, start, counts)
    {
      var k :| k in rest;
      CountedOneMore(m, m.Keys - rest, start, counts, k);
      assert m.Keys - rest + {k} == m.Keys - (rest - {k});
      counts := Inc(counts, m[k]);
      rest := rest - {k};
    }
    assert m.Keys - {} == m.Keys;
  }
}
