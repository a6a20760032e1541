/** collectNamespaceCVEMetrics: counters per namespace, merged from the images that have a report. */
module NamespaceMetrics {
  import opened Sums
  import opened Findings
  import Sorting

  type Namespace = string

  /** Where an image runs: one chain of owners per place, the last entry is the root. */
  datatype Lineage = Lineage(chain: seq<Namespace>)

  predicate Rooted(lineages: seq<Lineage>) {
    forall l <- lineages :: l.chain != []
  }

  type ImageLineages = m: map<Image, seq<Lineage>> | forall img <- m :: Rooted(m[img]) witness map[]

  const SEVERITIES: set<Severity> := {"CRITICAL", "HIGH", "MEDIUM", "LOW", "UNKNOWN"}

  function Roots(lineages: seq<Lineage>): set<Namespace>
    requires Rooted(lineages)
  {
    set l | l in lineages :: l.chain[|l.chain| - 1]
  }

  /** Some chain ends in the namespace. */
  predicate EndsIn(lineages: seq<Lineage>, ns: Namespace) {
    exists l :: l in lineages && |l.chain| > 0 && l.chain[|l.chain| - 1] == ns
  }

  lemma EndsInNext(lineages: seq<Lineage>, l: Lineage, ns: Namespace)
    requires l.chain != []
    ensures EndsIn(lineages + [l], ns) <==> EndsIn(lineages, ns) || ns == l.chain[|l.chain| - 1]
  {
    assert l in lineages + [l];
    if x :| x in lineages && |x.chain| > 0 && x.chain[|x.chain| - 1] == ns {
      assert x in lineages + [l];
    }
  }

  method RootNamespaces(lineages: seq<Lineage>) returns (namespaces: set<Namespace>)
    requires Rooted(lineages)
    ensures namespaces == Roots(lineages) && forall ns :: ns in namespaces <==> EndsIn(lineages, ns)
  {
    namespaces := {};
    for i := 0 to |lineages|
      invariant forall ns :: ns in namespaces <==> EndsIn(lineages[..i], ns)
    {
      var chain := lineages[i].chain;
      assert lineages[..i + 1] == lineages[..i] + [lineages[i]] && lineages[i] in lineages;
      forall ns
        ensures EndsIn(lineages[..i + 1], ns) <==> EndsIn(lineages[..i], ns) || ns == chain[|chain| - 1]
      {
        EndsInNext(lineages[..i], lineages[i], ns);
      }
      namespaces := namespaces + {chain[|chain| - 1]};
    }
    assert lineages[..|lineages|] == lineages;
  }

  // ---------------------------------------------------------------- the direct recount

  /** The image has a report and a root in the namespace. */
  predicate Counts(images: ImageLineages, results: map<Image, ScanResult>, img: Image, ns: Namespace) {
    img in images && img in results && !results[img].missing && ns in Roots(images[img])
  }

  function FindingsIn(images: ImageLineages, results: map<Image, ScanResult>, img: Image, ns: Namespace): seq<Finding> {
    if Counts(images, results, img, ns) then FindingsOf(results[img]) else []
  }

  /** An image counts for a namespace exactly when it has a report and some chain of it ends there, and
      then with all its findings. */
  lemma CountsIff(images: ImageLineages, results: map<Image, ScanResult>, img: Image, ns: Namespace)
    ensures Counts(images, results, img, ns) <==>
      && img in images && img in results && !results[img].missing
      && exists l :: l in images[img] && |l.chain| > 0 && l.chain[|l.chain| - 1] == ns
    ensures FindingsIn(images, results, img, ns) ==
      if Counts(images, results, img, ns) then FindingsOf(results[img]) else []
  {}

  ghost function SeverityTotal(images: ImageLineages, results: map<Image, ScanResult>, among: set<Image>,
                               ns: Namespace, sev: Severity): int {
    Sum(among, img => CountSeverity(FindingsIn(images, results, img, ns), sev))
  }

  ghost function CVETotal(images: ImageLineages, results: map<Image, ScanResult>, among: set<Image>, ns: Namespace,
                          cve: CVE): int {
    Sum(among, img => |TargetsOf(FindingsIn(images, results, img, ns), cve)|)
  }

  ghost function FindingsTotal(images: ImageLineages, results: map<Image, ScanResult>, ns: Namespace): int {
    Sum(images.Keys, img => |FindingsIn(images, results, img, ns)|)
  }

  // ---------------------------------------------------------------- counters of one image

  ghost predicate CountsCVEs(fs: seq<Finding>, counter: map<CVE, int>) {
    && (forall cve :: cve in counter <==> cve in CVEs(fs))
    && (forall cve :: At(counter, cve) == |TargetsOf(fs, cve)|)
  }

  ghost predicate CountsImage(fs: seq<Finding>, risk: map<Severity, int>, byCVE: map<CVE, Severity>,
                              vul: map<CVE, int>) {
    CountsSeverities(fs, map[], risk) && byCVE == RiskByCVE(fs) && CountsCVEs(fs, vul)
  }

  lemma RiskOneMore(fs: seq<Finding>, f: Finding)
    ensures RiskByCVE(fs + [f]) == RiskByCVE(fs)[f.vuln.id := f.vuln.severity]
  {
    assert (fs + [f])[..|fs|] == fs;
  }

  lemma CVEOneMore(fs: seq<Finding>, f: Finding, vul: map<CVE, int>)
    requires CountsCVEs(fs, vul)
    ensures CountsCVEs(fs + [f], Inc(vul, f.vuln.id))
  {
    assert CVEs(fs + [f]) == CVEs(fs) + {f.vuln.id} by {
      assert forall g :: g in fs + [f] <==> g in fs || g == f;
    }
    forall cve
      ensures |TargetsOf(fs + [f], cve)| == |TargetsOf(fs, cve)| + if f.vuln.id == cve then 1 else 0
    {
      TargetsOfOneMore(fs, f, cve);
    }
  }

  lemma CountsOneMore(fs: seq<Finding>, f: Finding, risk: map<Severity, int>, byCVE: map<CVE, Severity>,
                      vul: map<CVE, int>)
    requires CountsImage(fs, risk, byCVE, vul)
    ensures CountsImage(fs + [f], Inc(risk, f.vuln.severity), byCVE[f.vuln.id := f.vuln.severity], Inc(vul, f.vuln.id))
  {
    CountOneFinding(fs, f, map[], risk);
    RiskOneMore(fs, f);
    CVEOneMore(fs, f, vul);
  }

  lemma CountsNothing(r: ScanResult)
    ensures CountsImage(InSections(r.sections, 0), map[], map[], map[])
  {}

  method CountImage(r: ScanResult) returns (risk: map<Severity, int>, byCVE: map<CVE, Severity>, vul: map<CVE, int>)
    requires !r.missing
    ensures CountsImage(FindingsOf(r), risk, byCVE, vul)
  {
    risk, byCVE, vul := map[], map[], map[];
    CountsNothing(r);
    for i := 0 to |r.sections|
      invariant CountsImage(InSections(r.sections, i), risk, byCVE, vul)
    {
      risk, byCVE, vul := CountNextSection(r, i, risk, byCVE, vul);
    }
  }

  method CountNextSection(r: ScanResult, i: nat, risk0: map<Severity, int>, byCVE0: map<CVE, Severity>,
                          vul0: map<CVE, int>)
    returns (risk: map<Severity, int>, byCVE: map<CVE, Severity>, vul: map<CVE, int>)
    requires i < |r.sections| && CountsImage(InSections(r.sections, i), risk0, byCVE0, vul0)
    ensures CountsImage(InSections(r.sections, i + 1), risk, byCVE, vul)
  {
    risk, byCVE, vul := CountSection(r.sections[i], InSections(r.sections, i), risk0, byCVE0, vul0);
  }

  lemma SectionStarts(section: Section, before: seq<Finding>, risk: map<Severity, int>, byCVE: map<CVE, Severity>,
                      vul: map<CVE, int>)
    requires CountsImage(before, risk, byCVE, vul)
    ensures CountsImage(before + InSection(section, 0), risk, byCVE, vul)
  {
    assert before + InSection(section, 0) == before;
  }

  lemma SectionGoesOn(section: Section, before: seq<Finding>, j: nat, risk: map<Severity, int>,
                      byCVE: map<CVE, Severity>, vul: map<CVE, int>)
    requires j < |section.vulnerabilities| && CountsImage(before + InSection(section, j), risk, byCVE, vul)
    ensures var v := section.vulnerabilities[j];
      CountsImage(before + InSection(section, j + 1), Inc(risk, v.severity), byCVE[v.id := v.severity], Inc(vul, v.id))
  {
    var f := FindingAt(section, section.vulnerabilities[j]);
    assert before + InSection(section, j + 1) == before + InSection(section, j) + [f];
    CountsOneMore(before + InSection(section, j), f, risk, byCVE, vul);
  }

  method CountSection(section: Section, ghost before: seq<Finding>, risk0: map<Severity, int>,
                      byCVE0: map<CVE, Severity>, vul0: map<CVE, int>)
    returns (risk: map<Severity, int>, byCVE: map<CVE, Severity>, vul: map<CVE, int>)
    requires CountsImage(before, risk0, byCVE0, vul0)
    ensures CountsImage(before + InSection(section, |section.vulnerabilities|), risk, byCVE, vul)
  {
    risk, byCVE, vul := risk0, byCVE0, vul0;
    SectionStarts(section, before, risk, byCVE, vul);
    for j := 0 to |section.vulnerabilities|
      invariant CountsImage(before + InSection(section, j), risk, byCVE, vul)
    {
      var v := section.vulnerabilities[j];
      SectionGoesOn(section, before, j, risk, byCVE, vul);
      risk, byCVE, vul := Inc(risk, v.severity), byCVE[v.id := v.severity], Inc(vul, v.id);
    }
  }

  // ---------------------------------------------------------------- merging

  function Row<K, V>(table: map<Namespace, map<K, V>>, ns: Namespace): map<K, V> {
    if ns in table then table[ns] else map[]
  }

  /** The loop that adds one counter into another. */
  method AddCounter(counter: map<string, int>, delta: map<string, int>) returns (sum: map<string, int>)
    ensures sum.Keys == counter.Keys + delta.Keys
    ensures forall k :: At(sum, k) == At(counter, k) + At(delta, k)
  {
    sum := counter;
    var rest := delta.Keys;
    while rest != {}
      invariant rest <= delta.Keys && sum.Keys == counter.Keys + (delta.Keys - rest)
      invariant forall k :: (At(sum, k) == At(counter, k) + if k in rest then 0 else At(delta, k))
    {
      var k :| k in rest;
      sum := sum[k := At(sum, k) + delta[k]];
      rest := rest - {k};
    }
  }

  datatype Tables = Tables(
    risk: map<Namespace, map<Severity, int>>,
    byCVE: map<Namespace, map<CVE, Severity>>,
    vul: map<Namespace, map<CVE, int>>)

  /** Each of the given rows has the counter added to it. */
  ghost predicate RowsAdded(table: map<Namespace, map<string, int>>, table': map<Namespace, map<string, int>>,
                            namespaces: set<Namespace>, delta: map<string, int>) {
    && table'.Keys == table.Keys + namespaces
    && forall ns :: RowAdded(Row(table, ns), Row(table', ns), if ns in namespaces then delta else map[])
  }

  ghost predicate RowAdded(row: map<string, int>, row': map<string, int>, delta: map<string, int>) {
    row'.Keys == row.Keys + delta.Keys && forall k :: At(row', k) == At(row, k) + At(delta, k)
  }

  /** Each of the given rows has the entries copied into it. */
  ghost predicate RowsCopied(table: map<Namespace, map<CVE, Severity>>, table': map<Namespace, map<CVE, Severity>>,
                             namespaces: set<Namespace>, byCVE: map<CVE, Severity>) {
    && table'.Keys == table.Keys + namespaces
    && forall ns :: Row(table', ns) == Row(table, ns) + if ns in namespaces then byCVE else map[]
  }

  lemma AddOneRow(table: map<Namespace, map<string, int>>, table': map<Namespace, map<string, int>>,
                  done: set<Namespace>, delta: map<string, int>, ns: Namespace, row: map<string, int>)
    requires RowsAdded(table, table', done, delta) && ns !in done && RowAdded(Row(table', ns), row, delta)
    ensures RowsAdded(table, table'[ns := row], done + {ns}, delta)
  {
    var t := table'[ns := row];
    forall n
      ensures RowAdded(Row(table, n), Row(t, n), if n in done + {ns} then delta else map[])
    {
      assert RowAdded(Row(table, n), Row(table', n), if n in done then delta else map[]);
    }
  }

  lemma CopyOneRow(table: map<Namespace, map<CVE, Severity>>, table': map<Namespace, map<CVE, Severity>>,
                   done: set<Namespace>, byCVE: map<CVE, Severity>, ns: Namespace)
    requires RowsCopied(table, table', done, byCVE) && ns !in done
    ensures RowsCopied(table, table'[ns := Row(table', ns) + byCVE], done + {ns}, byCVE)
  {
    var t := table'[ns := Row(table', ns) + byCVE];
    forall n
      ensures Row(t, n) == Row(table, n) + if n in done + {ns} then byCVE else map[]
    {
      assert Row(table', n) == Row(table, n) + if n in done then byCVE else map[];
    }
  }

  ghost predicate Added(t: Tables, t': Tables, namespaces: set<Namespace>, risk: map<Severity, int>,
                        byCVE: map<CVE, Severity>, vul: map<CVE, int>) {
    && RowsAdded(t.risk, t'.risk, namespaces, risk)
    && RowsAdded(t.vul, t'.vul, namespaces, vul)
    && RowsCopied(t.byCVE, t'.byCVE, namespaces, byCVE)
  }

  lemma AddedNothing(t: Tables, risk: map<Severity, int>, byCVE: map<CVE, Severity>, vul: map<CVE, int>)
    ensures Added(t, t, {}, risk, byCVE, vul)
  {
    forall ns
      ensures Row(t.byCVE, ns) == Row(t.byCVE, ns) + map[]
    {}
  }

  method AddToNamespace(t: Tables, ns: Namespace, risk: map<Severity, int>, byCVE: map<CVE, Severity>,
                        vul: map<CVE, int>, ghost t0: Tables, ghost done: set<Namespace>)
    returns (t': Tables)
    requires Added(t0, t, done, risk, byCVE, vul) && ns !in done
    ensures Added(t0, t', done + {ns}, risk, byCVE, vul)
  {
    var riskRow := AddCounter(Row(t.risk, ns), risk);
    var vulRow := AddCounter(Row(t.vul, ns), vul);
    AddOneRow(t0.risk, t.risk, done, risk, ns, riskRow);
    AddOneRow(t0.vul, t.vul, done, vul, ns, vulRow);
    CopyOneRow(t0.byCVE, t.byCVE, done, byCVE, ns);
    t' := Tables(t.risk[ns := riskRow], t.byCVE[ns := Row(t.byCVE, ns) + byCVE], t.vul[ns := vulRow]);
  }

  method AddImage(t0: Tables, namespaces: set<Namespace>, risk: map<Severity, int>, byCVE: map<CVE, Severity>,
                  vul: map<CVE, int>)
    returns (t: Tables)
    ensures Added(t0, t, namespaces, risk, byCVE, vul)
  {
    t := t0;
    AddedNothing(t, risk, byCVE, vul);
    var rest := namespaces;
    ghost var done: set<Namespace> := {};
    while rest != {}
      invariant done !! rest && done + rest == namespaces
      invariant Added(t0, t, done, risk, byCVE, vul)
      decreases |rest|
    {
      var ns :| ns in rest;
      Sorting.MoveOne(namespaces, done, rest, ns);
      t := AddToNamespace(t, ns, risk, byCVE, vul, t0, done);
      done, rest := done + {ns}, rest - {ns};
    }
    assert done == namespaces;
  }

  // ---------------------------------------------------------------- the severity of a CVE in a namespace

  /** An order in which the images can be visited. */
  ghost predicate IsOrder(images: ImageLineages, order: seq<Image>) {
    Sorting.Elements(order) == images.Keys && Sorting.Distinct(order)
  }

  /** Visiting the images in this order: of the severities the counted images give a CVE, the last
      one stays. */
  ghost function MergedRisks(images: ImageLineages, results: map<Image, ScanResult>, order: seq<Image>, ns: Namespace)
    : map<CVE, Severity>
  {
    if order == [] then map[]
    else MergedRisks(images, results, order[..|order| - 1], ns)
         + RiskByCVE(FindingsIn(images, results, order[|order| - 1], ns))
  }

  ghost predicate RisksMerged(images: ImageLineages, results: map<Image, ScanResult>, order: seq<Image>,
                              byCVE: map<Namespace, map<CVE, Severity>>) {
    forall ns :: Row(byCVE, ns) == MergedRisks(images, results, order, ns)
  }

  lemma MergedOneMore(images: ImageLineages, results: map<Image, ScanResult>, order: seq<Image>, img: Image,
                      ns: Namespace)
    ensures MergedRisks(images, results, order + [img], ns)
         == MergedRisks(images, results, order, ns) + RiskByCVE(FindingsIn(images, results, img, ns))
  {
    assert (order + [img])[..|order|] == order;
  }

  lemma NothingToMerge(images: ImageLineages, results: map<Image, ScanResult>, img: Image, ns: Namespace,
                       risks: map<CVE, Severity>)
    requires !Counts(images, results, img, ns)
    ensures risks + RiskByCVE(FindingsIn(images, results, img, ns)) == risks
  {
    assert RiskByCVE([]) == map[];
  }

  lemma RisksSkip(images: ImageLineages, results: map<Image, ScanResult>, order: seq<Image>, img: Image,
                  byCVE: map<Namespace, map<CVE, Severity>>)
    requires RisksMerged(images, results, order, byCVE) && forall ns :: !Counts(images, results, img, ns)
    ensures RisksMerged(images, results, order + [img], byCVE)
  {
    forall ns
      ensures Row(byCVE, ns) == MergedRisks(images, results, order + [img], ns)
    {
      MergedOneMore(images, results, order, img, ns);
      NothingToMerge(images, results, img, ns, MergedRisks(images, results, order, ns));
    }
  }

  lemma RisksNext(images: ImageLineages, results: map<Image, ScanResult>, order: seq<Image>, img: Image,
                  table: map<Namespace, map<CVE, Severity>>, table': map<Namespace, map<CVE, Severity>>)
    requires RisksMerged(images, results, order, table) && img in images && img in results && !results[img].missing
    requires RowsCopied(table, table', Roots(images[img]), RiskByCVE(FindingsOf(results[img])))
    ensures RisksMerged(images, results, order + [img], table')
  {
    forall ns
      ensures Row(table', ns) == MergedRisks(images, results, order + [img], ns)
    {
      MergedOneMore(images, results, order, img, ns);
      assert RiskByCVE([]) == map[];
    }
  }

  // ---------------------------------------------------------------- the whole collection

  /** Per namespace and key, the tables hold the direct recount over the images in done. */
  ghost predicate Recounted(images: ImageLineages, results: map<Image, ScanResult>, done: set<Image>, t: Tables) {
    && (forall ns, key :: RecountedAt(images, results, done, t, ns, key))
    && (forall ns :: ns in t.risk <==> exists img :: img in done && Counts(images, results, img, ns))
  }

  ghost predicate RecountedAt(images: ImageLineages, results: map<Image, ScanResult>, done: set<Image>, t: Tables,
                              ns: Namespace, key: string) {
    && At(Row(t.risk, ns), key) == SeverityTotal(images, results, done, ns, key)
    && At(Row(t.vul, ns), key) == CVETotal(images, results, done, ns, key)
    && (key in Row(t.vul, ns) <==> Occurs(images, results, done, ns, key))
    && (key in Row(t.byCVE, ns) <==> Occurs(images, results, done, ns, key))
  }

  ghost predicate Occurs(images: ImageLineages, results: map<Image, ScanResult>, among: set<Image>, ns: Namespace,
                         cve: CVE) {
    exists img :: img in among && cve in CVEs(FindingsIn(images, results, img, ns))
  }

  lemma TotalsNext(images: ImageLineages, results: map<Image, ScanResult>, done: set<Image>, img: Image,
                   ns: Namespace, key: string)
    requires img !in done
    ensures SeverityTotal(images, results, done + {img}, ns, key)
         == SeverityTotal(images, results, done, ns, key) + CountSeverity(FindingsIn(images, results, img, ns), key)
    ensures CVETotal(images, results, done + {img}, ns, key)
         == CVETotal(images, results, done, ns, key) + |TargetsOf(FindingsIn(images, results, img, ns), key)|
    ensures Occurs(images, results, done + {img}, ns, key) <==>
              Occurs(images, results, done, ns, key) || key in CVEs(FindingsIn(images, results, img, ns))
  {
    SumAdd(done, img, i => CountSeverity(FindingsIn(images, results, i, ns), key));
    SumAdd(done, img, i => |TargetsOf(FindingsIn(images, results, i, ns), key)|);
  }

  lemma RecountSkip(images: ImageLineages, results: map<Image, ScanResult>, done: set<Image>, img: Image, t: Tables)
    requires Recounted(images, results, done, t) && img !in done && forall ns :: !Counts(images, results, img, ns)
    ensures Recounted(images, results, done + {img}, t)
  {
    forall ns, key
      ensures RecountedAt(images, results, done + {img}, t, ns, key)
    {
      assert RecountedAt(images, results, done, t, ns, key);
      TotalsNext(images, results, done, img, ns, key);
    }
  }

  lemma RecountKey(images: ImageLineages, results: map<Image, ScanResult>, done: set<Image>, img: Image, t: Tables,
                   t': Tables,
                   risk: map<Severity, int>, byCVE: map<CVE, Severity>, vul: map<CVE, int>, ns: Namespace, key: string)
    requires RecountedAt(images, results, done, t, ns, key) && img !in done
    requires CountsImage(FindingsIn(images, results, img, ns), risk, byCVE, vul)
    requires RowAdded(Row(t.risk, ns), Row(t'.risk, ns), risk) && RowAdded(Row(t.vul, ns), Row(t'.vul, ns), vul)
    requires Row(t'.byCVE, ns) == Row(t.byCVE, ns) + byCVE
    ensures RecountedAt(images, results, done + {img}, t', ns, key)
  {
    TotalsNext(images, results, done, img, ns, key);
  }

  lemma AddedAt(t: Tables, t': Tables, namespaces: set<Namespace>, risk: map<Severity, int>, byCVE: map<CVE, Severity>,
                vul: map<CVE, int>, ns: Namespace)
    requires Added(t, t', namespaces, risk, byCVE, vul)
    ensures RowAdded(Row(t.risk, ns), Row(t'.risk, ns), if ns in namespaces then risk else map[])
    ensures RowAdded(Row(t.vul, ns), Row(t'.vul, ns), if ns in namespaces then vul else map[])
    ensures Row(t'.byCVE, ns) == Row(t.byCVE, ns) + if ns in namespaces then byCVE else map[]
  {}

  lemma RecountRoot(images: ImageLineages, results: map<Image, ScanResult>, done: set<Image>, img: Image, t: Tables,
                    t': Tables,
                    risk: map<Severity, int>, byCVE: map<CVE, Severity>, vul: map<CVE, int>, ns: Namespace, key: string)
    requires RecountedAt(images, results, done, t, ns, key) && img !in done && Counts(images, results, img, ns)
    requires CountsImage(FindingsOf(results[img]), risk, byCVE, vul)
      && Added(t, t', Roots(images[img]), risk, byCVE, vul)
    ensures RecountedAt(images, results, done + {img}, t', ns, key)
  {
    AddedAt(t, t', Roots(images[img]), risk, byCVE, vul, ns);
    RecountKey(images, results, done, img, t, t', risk, byCVE, vul, ns, key);
  }

  lemma RecountOther(images: ImageLineages, results: map<Image, ScanResult>, done: set<Image>, img: Image, t: Tables,
                     t': Tables,
                     risk: map<Severity, int>, byCVE: map<CVE, Severity>, vul: map<CVE, int>, ns: Namespace,
                     key: string)
    requires RecountedAt(images, results, done, t, ns, key) && img !in done && img in images
      && ns !in Roots(images[img])
    requires Added(t, t', Roots(images[img]), risk, byCVE, vul)
    ensures RecountedAt(images, results, done + {img}, t', ns, key)
  {
    AddedAt(t, t', Roots(images[img]), risk, byCVE, vul, ns);
    RecountKey(images, results, done, img, t, t', map[], map[], map[], ns, key);
  }

  lemma RecountOne(images: ImageLineages, results: map<Image, ScanResult>, done: set<Image>, img: Image, t: Tables,
                   t': Tables, risk: map<Severity, int>, byCVE: map<CVE, Severity>, vul: map<CVE, int>)
    requires Recounted(images, results, done, t) && img !in done && img in images
    requires img in results && !results[img].missing
    requires CountsImage(FindingsOf(results[img]), risk, byCVE, vul)
      && Added(t, t', Roots(images[img]), risk, byCVE, vul)
    ensures Recounted(images, results, done + {img}, t')
  {
    forall ns, key
      ensures RecountedAt(images, results, done + {img}, t', ns, key)
    {
      if ns in Roots(images[img]) {
        RecountRoot(images, results, done, img, t, t', risk, byCVE, vul, ns, key);
      } else {
        RecountOther(images, results, done, img, t, t', risk, byCVE, vul, ns, key);
      }
    }
  }

  method CollectTables(images: ImageLineages, results: map<Image, ScanResult>)
    returns (t: Tables, ghost order: seq<Image>)
    ensures Recounted(images, results, images.Keys, t)
    ensures IsOrder(images, order) && RisksMerged(images, results, order, t.byCVE)
  {
    t, order := Tables(map[], map[], map[]), [];
    var rest := images.Keys;
    while rest != {}
      invariant Sorting.Elements(order) !! rest && Sorting.Elements(order) + rest == images.Keys
      invariant Sorting.Distinct(order)
      invariant Recounted(images, results, Sorting.Elements(order), t)
      invariant RisksMerged(images, results, order, t.byCVE)
      decreases |rest|
    {
      var img :| img in rest;
      Sorting.MoveOne(images.Keys, Sorting.Elements(order), rest, img);
      t := CollectImage(images, results, t, img, order);
      OneMoreElement(order, img);
      order, rest := order + [img], rest - {img};
    }
    assert Sorting.Elements(order) + {} == images.Keys;
  }

  lemma OneMoreElement(order: seq<Image>, img: Image)
    ensures Sorting.Elements(order + [img]) == Sorting.Elements(order) + {img}
    ensures Sorting.Distinct(order) && img !in Sorting.Elements(order) ==> Sorting.Distinct(order + [img])
  {}

  /** The loop body: one image, added to its namespaces if it has a report. */
  method CollectImage(images: ImageLineages, results: map<Image, ScanResult>, t0: Tables, img: Image,
                      ghost order: seq<Image>)
    returns (t: Tables)
    requires img in images && img !in Sorting.Elements(order)
    requires Recounted(images, results, Sorting.Elements(order), t0) && RisksMerged(images, results, order, t0.byCVE)
    ensures Recounted(images, results, Sorting.Elements(order) + {img}, t)
    ensures RisksMerged(images, results, order + [img], t.byCVE)
  {
    t := t0;
    if img in results && !results[img].missing {
      var risk, byCVE, vul := CountImage(results[img]);
      var namespaces := RootNamespaces(images[img]);
      t := AddImage(t, namespaces, risk, byCVE, vul);
      RecountOne(images, results, Sorting.Elements(order), img, t0, t, risk, byCVE, vul);
      RisksNext(images, results, order, img, t0.byCVE, t.byCVE);
    } else {
      RecountSkip(images, results, Sorting.Elements(order), img, t);
      RisksSkip(images, results, order, img, t.byCVE);
    }
  }

  // ---------------------------------------------------------------- the metric families

  /** The emitted values, by their label values. */
  datatype Families = Families(
    vulnerabilities: map<(Namespace, CVE), int>,
    occurrences: map<(Namespace, Severity), int>,
    counts: map<(Namespace, Severity), int>)

  /** A namespace with at least one counted image. */
  ghost predicate Present(images: ImageLineages, results: map<Image, ScanResult>, ns: Namespace) {
    exists img :: Counts(images, results, img, ns)
  }

  /** The families are the direct recount: a value per present namespace and occurring CVE, and per
      present namespace and each of the five severities. The counts are those of the CVEs by the
      severity that stays when the images are visited in this order. */
  ghost predicate AreRecounts(images: ImageLineages, results: map<Image, ScanResult>, order: seq<Image>, f: Families) {
    && VulnerabilitiesRecounted(images, results, f.vulnerabilities)
    && OccurrencesRecounted(images, results, f.occurrences)
    && CVEsRecounted(images, results, order, f.counts)
  }

  ghost predicate VulnerabilitiesRecounted(images: ImageLineages, results: map<Image, ScanResult>,
                                           m: map<(Namespace, CVE), int>) {
    && (forall ns, cve :: ((ns, cve) in m <==>
          Present(images, results, ns) && Occurs(images, results, images.Keys, ns, cve)))
    && (forall ns, cve | (ns, cve) in m :: m[(ns, cve)] == CVETotal(images, results, images.Keys, ns, cve))
  }

  ghost predicate OccurrencesRecounted(images: ImageLineages, results: map<Image, ScanResult>,
                                       m: map<(Namespace, Severity), int>) {
    && (forall ns, sev :: ((ns, sev) in m <==> Present(images, results, ns) && sev in SEVERITIES))
    && (forall ns, sev | (ns, sev) in m :: m[(ns, sev)] == SeverityTotal(images, results, images.Keys, ns, sev))
  }

  ghost predicate CVEsRecounted(images: ImageLineages, results: map<Image, ScanResult>, order: seq<Image>,
                                m: map<(Namespace, Severity), int>) {
    && (forall ns, sev :: ((ns, sev) in m <==> Present(images, results, ns) && sev in SEVERITIES))
    && (forall ns, sev | (ns, sev) in m :: m[(ns, sev)] == CountValue(MergedRisks(images, results, order, ns), sev))
  }

  /** For every order of images, namespaces and CVEs. `order` is the order in which the images were
      visited. */
  method CollectNamespaceCVEMetrics(images: ImageLineages, results: map<Image, ScanResult>)
    returns (f: Families, ghost order: seq<Image>)
    ensures IsOrder(images, order) && AreRecounts(images, results, order, f)
    ensures forall ns, cve ::
      cve in MergedRisks(images, results, order, ns) <==> Occurs(images, results, images.Keys, ns, cve)
  {
    var t;
    t, order := CollectTables(images, results);
    f := EmitFamilies(t);
    EmittedIsRecount(images, results, order, t, f);
  }

  method EmitFamilies(t: Tables) returns (f: Families)
    ensures EmittedFor(t, t.risk.Keys, f)
  {
    f := Families(map[], map[], map[]);
    var rest := t.risk.Keys;
    ghost var done: set<Namespace> := {};
    while rest != {}
      invariant done !! rest && done + rest == t.risk.Keys
      invariant EmittedFor(t, done, f)
    {
      var ns :| ns in rest;
      f := EmitNamespace(t, ns, f, done);
      done, rest := done + {ns}, rest - {ns};
    }
    assert done == t.risk.Keys;
  }

  lemma EmittedIsRecount(images: ImageLineages, results: map<Image, ScanResult>, order: seq<Image>, t: Tables,
                         f: Families)
    requires Recounted(images, results, images.Keys, t) && EmittedFor(t, t.risk.Keys, f)
    requires RisksMerged(images, results, order, t.byCVE)
    ensures AreRecounts(images, results, order, f)
    ensures forall ns, cve ::
      cve in MergedRisks(images, results, order, ns) <==> Occurs(images, results, images.Keys, ns, cve)
  {
    RowsArePresent(images, results, t);
    VulnerabilitiesAre(images, results, t, f.vulnerabilities);
    OccurrencesAre(images, results, t, f.occurrences);
    CountsAre(images, results, order, t, f.counts);
    forall ns, cve
      ensures cve in MergedRisks(images, results, order, ns) <==> Occurs(images, results, images.Keys, ns, cve)
    {
      assert RecountedAt(images, results, images.Keys, t, ns, cve);
    }
  }

  lemma RowsArePresent(images: ImageLineages, results: map<Image, ScanResult>, t: Tables)
    requires Recounted(images, results, images.Keys, t)
    ensures forall ns :: ns in t.risk <==> Present(images, results, ns)
  {}

  lemma VulnerabilitiesAre(images: ImageLineages, results: map<Image, ScanResult>, t: Tables,
                           m: map<(Namespace, CVE), int>)
    requires forall ns :: ns in t.risk <==> Present(images, results, ns)
    requires Recounted(images, results, images.Keys, t) && EmittedVulnerabilities(t, t.risk.Keys, m)
    ensures VulnerabilitiesRecounted(images, results, m)
  {
    forall ns, cve
      ensures (ns, cve) in m <==> Present(images, results, ns) && Occurs(images, results, images.Keys, ns, cve)
      ensures (ns, cve) in m ==> m[(ns, cve)] == CVETotal(images, results, images.Keys, ns, cve)
    {
      assert RecountedAt(images, results, images.Keys, t, ns, cve);
    }
  }

  lemma OccurrencesAre(images: ImageLineages, results: map<Image, ScanResult>, t: Tables,
                       m: map<(Namespace, Severity), int>)
    requires forall ns :: ns in t.risk <==> Present(images, results, ns)
    requires Recounted(images, results, images.Keys, t) && EmittedOccurrences(t, t.risk.Keys, m)
    ensures OccurrencesRecounted(images, results, m)
  {
    forall ns, sev | (ns, sev) in m
      ensures m[(ns, sev)] == SeverityTotal(images, results, images.Keys, ns, sev)
    {
      assert RecountedAt(images, results, images.Keys, t, ns, sev);
    }
  }

  lemma CountsAre(images: ImageLineages, results: map<Image, ScanResult>, order: seq<Image>, t: Tables,
                  m: map<(Namespace, Severity), int>)
    requires forall ns :: ns in t.risk <==> Present(images, results, ns)
    requires RisksMerged(images, results, order, t.byCVE) && EmittedCounts(t, t.risk.Keys, m)
    ensures CVEsRecounted(images, results, order, m)
  {
    forall ns
      ensures Row(t.byCVE, ns) == MergedRisks(images, results, order, ns)
    {}
  }

  /** The values of the tables, for the namespaces in done. */
  ghost predicate EmittedFor(t: Tables, done: set<Namespace>, f: Families) {
    EmittedVulnerabilities(t, done, f.vulnerabilities) && EmittedOccurrences(t, done, f.occurrences)
      && EmittedCounts(t, done, f.counts)
  }

  ghost predicate EmittedVulnerabilities(t: Tables, done: set<Namespace>, m: map<(Namespace, CVE), int>) {
    && (forall ns, cve :: ((ns, cve) in m <==> ns in done && cve in Row(t.vul, ns)))
    && (forall ns, cve | (ns, cve) in m :: m[(ns, cve)] == At(Row(t.vul, ns), cve))
  }

  ghost predicate EmittedOccurrences(t: Tables, done: set<Namespace>, m: map<(Namespace, Severity), int>) {
    && (forall ns, sev :: ((ns, sev) in m <==> ns in done && sev in SEVERITIES))
    && (forall ns, sev | (ns, sev) in m :: m[(ns, sev)] == At(Row(t.risk, ns), sev))
  }

  ghost predicate EmittedCounts(t: Tables, done: set<Namespace>, m: map<(Namespace, Severity), int>) {
    && (forall ns, sev :: ((ns, sev) in m <==> ns in done && sev in SEVERITIES))
    && (forall ns, sev | (ns, sev) in m :: m[(ns, sev)] == CountValue(Row(t.byCVE, ns), sev))
  }

  method EmitVulnerabilities(t: Tables, ns: Namespace, m: map<(Namespace, CVE), int>, ghost done: set<Namespace>)
    returns (m': map<(Namespace, CVE), int>)
    requires EmittedVulnerabilities(t, done, m) && ns !in done
    ensures EmittedVulnerabilities(t, done + {ns}, m')
  {
    var row := Row(t.vul, ns);
    m' := m + map cve | cve in row :: (ns, cve) := row[cve];
  }

  method EmitOccurrences(t: Tables, ns: Namespace, m: map<(Namespace, Severity), int>, ghost done: set<Namespace>)
    returns (m': map<(Namespace, Severity), int>)
    requires EmittedOccurrences(t, done, m) && ns !in done
    ensures EmittedOccurrences(t, done + {ns}, m')
  {
    var row := Row(t.risk, ns);
    m' := m + map sev | sev in SEVERITIES :: (ns, sev) := At(row, sev);
  }

  method EmitCounts(t: Tables, ns: Namespace, m: map<(Namespace, Severity), int>, ghost done: set<Namespace>)
    returns (m': map<(Namespace, Severity), int>)
    requires EmittedCounts(t, done, m) && ns !in done
    ensures EmittedCounts(t, done + {ns}, m')
  {
    var riskCount := CountValues(Row(t.byCVE, ns), map[]);
    m' := m + SeverityRow(ns, riskCount);
  }

  function SeverityRow(ns: Namespace, counts: map<Severity, int>): (r: map<(Namespace, Severity), int>)
    ensures forall x, sev :: (x, sev) in r <==> x == ns && sev in SEVERITIES
    ensures forall sev <- SEVERITIES :: r[(ns, sev)] == At(counts, sev)
  {
    map sev | sev in SEVERITIES :: (ns, sev) := At(counts, sev)
  }

  method EmitNamespace(t: Tables, ns: Namespace, f0: Families, ghost done: set<Namespace>) returns (f: Families)
    requires EmittedFor(t, done, f0) && ns !in done
    ensures EmittedFor(t, done + {ns}, f)
  {
    var vulnerabilities := EmitVulnerabilities(t, ns, f0.vulnerabilities, done);
    var occurrences := EmitOccurrences(t, ns, f0.occurrences, done);
    var counts := EmitCounts(t, ns, f0.counts, done);
    f := Families(vulnerabilities, occurrences, counts);
  }

  // ---------------------------------------------------------------- the totals of a namespace agree

  /** The per-CVE totals and the per-severity totals of a namespace both add up to its findings. */
  lemma NamespaceTotalsAgree(images: ImageLineages, results: map<Image, ScanResult>, ns: Namespace, cves: set<CVE>,
                             sevs: set<Severity>)
    requires forall img <- images :: CVEs(FindingsIn(images, results, img, ns)) <= cves
    requires forall img <- images :: Severities(FindingsIn(images, results, img, ns)) <= sevs
    ensures Sum(cves, cve => CVETotal(images, results, images.Keys, ns, cve)) == FindingsTotal(images, results, ns)
    ensures Sum(sevs, sev => SeverityTotal(images, results, images.Keys, ns, sev)) == FindingsTotal(images, results, ns)
  {
    CVEsAddUp(images, results, ns, cves);
    SeveritiesAddUp(images, results, ns, sevs);
  }

  lemma CVEsAddUp(images: ImageLineages, results: map<Image, ScanResult>, ns: Namespace, cves: set<CVE>)
    requires forall img <- images :: CVEs(FindingsIn(images, results, img, ns)) <= cves
    ensures Sum(cves, cve => CVETotal(images, results, images.Keys, ns, cve)) == FindingsTotal(images, results, ns)
  {
    var at := (cve, img) => |TargetsOf(FindingsIn(images, results, img, ns), cve)|;
    var byCVE := cve => CVETotal(images, results, images.Keys, ns, cve);
    var byImage := img => |FindingsIn(images, results, img, ns)|;
    forall img | img in images
      ensures byImage(img) == ColumnSum(cves, at, img)
    {
      SumOverCVEs(FindingsIn(images, results, img, ns), cves);
      ColumnIs(cves, at, img, cve => |TargetsOf(FindingsIn(images, results, img, ns), cve)|);
    }
    forall cve
      ensures byCVE(cve) == RowSum(images.Keys, at, cve)
    {
      RowIs(images.Keys, at, cve, img => |TargetsOf(FindingsIn(images, results, img, ns), cve)|);
    }
    SumSwap(cves, images.Keys, at, byCVE, byImage);
  }

  lemma SeveritiesAddUp(images: ImageLineages, results: map<Image, ScanResult>, ns: Namespace, sevs: set<Severity>)
    requires forall img <- images :: Severities(FindingsIn(images, results, img, ns)) <= sevs
    ensures Sum(sevs, sev => SeverityTotal(images, results, images.Keys, ns, sev)) == FindingsTotal(images, results, ns)
  {
    var at := (sev, img) => CountSeverity(FindingsIn(images, results, img, ns), sev) as int;
    var bySev := sev => SeverityTotal(images, results, images.Keys, ns, sev);
    var byImage := img => |FindingsIn(images, results, img, ns)|;
    forall img | img in images
      ensures byImage(img) == ColumnSum(sevs, at, img)
    {
      SumOverSeverities(FindingsIn(images, results, img, ns), sevs);
      ColumnIs(sevs, at, img, sev => CountSeverity(FindingsIn(images, results, img, ns), sev));
    }
    forall sev
      ensures bySev(sev) == RowSum(images.Keys, at, sev)
    {
      RowIs(images.Keys, at, sev, img => CountSeverity(FindingsIn(images, results, img, ns), sev));
    }
    SumSwap(sevs, images.Keys, at, bySev, byImage);
  }

  /** The emitted occurrences of a namespace add up to its findings exactly when every finding has
      one of the five severities; the metrics leave any other severity out. */
  lemma EmittedOccurrencesAreComplete(images: ImageLineages, results: map<Image, ScanResult>, ns: Namespace)
    ensures (Sum(SEVERITIES, sev => SeverityTotal(images, results, images.Keys, ns, sev)) ==
              FindingsTotal(images, results, ns))
       <==> forall img <- images :: Severities(FindingsIn(images, results, img, ns)) <= SEVERITIES
  {
    var all := SEVERITIES + set img, f | img in images && f in FindingsIn(images, results, img, ns) :: f.vuln.severity;
    var total := sev => SeverityTotal(images, results, images.Keys, ns, sev);
    SeveritiesAddUp(images, results, ns, all);
    if img, sev :| img in images && sev in Severities(FindingsIn(images, results, img, ns)) && sev !in SEVERITIES {
      CountSeverityZero(FindingsIn(images, results, img, ns), sev);
      TotalsAreNatural(images, results, images.Keys, ns, sev);
      forall s
        ensures total(s) >= 0
      {
        TotalsAreNatural(images, results, images.Keys, ns, s);
      }
      SumGrows(SEVERITIES, all, sev, total);
    } else {
      SeveritiesAddUp(images, results, ns, SEVERITIES);
    }
  }

  lemma TotalsAreNatural(images: ImageLineages, results: map<Image, ScanResult>, among: set<Image>, ns: Namespace,
                         sev: Severity)
    ensures SeverityTotal(images, results, among, ns, sev) >= 0
    ensures forall img <- among ::
      SeverityTotal(images, results, among, ns, sev) >= CountSeverity(FindingsIn(images, results, img, ns), sev)
  {
    SumOfNaturals(among, img => CountSeverity(FindingsIn(images, results, img, ns), sev));
  }

  /** Counting CVEs by the five severities counts each once exactly when all of them have one. */
  lemma CountsAddUp(risks: map<CVE, Severity>)
    ensures CountedCVEs(risks) == |risks| <==> risks.Values <= SEVERITIES
  {
    var count := sev => CountValue(risks, sev) as int;
    var all := SEVERITIES + risks.Values;
    SumOverValues(risks, all);
    if cve :| cve in risks && risks[cve] !in SEVERITIES {
      CountOneMore(risks, risks.Keys - {cve}, cve, risks[cve]);
      assert risks.Keys - {cve} + {cve} == risks.Keys;
      SumGrows(SEVERITIES, all, risks[cve], count);
    } else {
      assert all == SEVERITIES;
    }
  }

  ghost function CountedCVEs(risks: map<CVE, Severity>): int {
    Sum(SEVERITIES, sev => CountValue(risks, sev))
  }

  /** Each severity that stays is the last one of some image visited. */
  lemma {:induction false} MergedFromSome(images: ImageLineages, results: map<Image, ScanResult>, order: seq<Image>,
                                          ns: Namespace, cve: CVE)
    requires cve in MergedRisks(images, results, order, ns)
    ensures exists img ::
      img in order && Gives(images, results, img, ns, cve, MergedRisks(images, results, order, ns)[cve])
  {
    var init, last := order[..|order| - 1], order[|order| - 1];
    assert order == init + [last];
    if cve in RiskByCVE(FindingsIn(images, results, last, ns)) {
      assert Gives(images, results, last, ns, cve, MergedRisks(images, results, order, ns)[cve]);
    } else {
      MergedFromSome(images, results, init, ns, cve);
    }
  }

  /** The last finding of the CVE in the image, if it counts for the namespace, has the severity. */
  ghost predicate Gives(images: ImageLineages, results: map<Image, ScanResult>, img: Image, ns: Namespace, cve: CVE,
                        sev: Severity) {
    var risks := RiskByCVE(FindingsIn(images, results, img, ns));
    cve in risks && risks[cve] == sev
  }

  lemma {:induction false} SomeOrder(images: set<Image>) returns (order: seq<Image>)
    ensures Sorting.Elements(order) == images && Sorting.Distinct(order)
    decreases images
  {
    order := [];
    if img :| img in images {
      var rest := SomeOrder(images - {img});
      OneMoreElement(rest, img);
      order := rest + [img];
      assert images - {img} + {img} == images;
    }
  }

  /** Any severity that some image gives a CVE last is the one that stays, if that image is visited last. */
  lemma LastImageDecides(images: ImageLineages, results: map<Image, ScanResult>, img: Image, ns: Namespace, cve: CVE,
                         sev: Severity)
    returns (order: seq<Image>)
    requires img in images && Gives(images, results, img, ns, cve, sev)
    ensures IsOrder(images, order)
    ensures cve in MergedRisks(images, results, order, ns) && MergedRisks(images, results, order, ns)[cve] == sev
  {
    var others := SomeOrder(images.Keys - {img});
    OneMoreElement(others, img);
    MergedOneMore(images, results, others, img, ns);
    order := others + [img];
    assert images.Keys - {img} + {img} == images.Keys;
  }

  /** Any two images that give a CVE a severity give it the same. */
  ghost predicate ImagesAgree(images: ImageLineages, results: map<Image, ScanResult>, ns: Namespace) {
    forall x, y, cve, sev, sev' | x in images && y in images ::
      Gives(images, results, x, ns, cve, sev) && Gives(images, results, y, ns, cve, sev') ==> sev == sev'
  }

  lemma {:induction false} MergedHasAll(images: ImageLineages, results: map<Image, ScanResult>, order: seq<Image>,
                                        img: Image, ns: Namespace, cve: CVE)
    requires img in order && cve in RiskByCVE(FindingsIn(images, results, img, ns))
    ensures cve in MergedRisks(images, results, order, ns)
  {
    var init, last := order[..|order| - 1], order[|order| - 1];
    InitOrLast(order, img);
    MergedOneMore(images, results, init, last, ns);
    if img != last {
      MergedHasAll(images, results, init, img, ns, cve);
    }
  }

  lemma InitOrLast(order: seq<Image>, img: Image)
    requires img in order
    ensures order == order[..|order| - 1] + [order[|order| - 1]]
    ensures img == order[|order| - 1] || img in order[..|order| - 1]
  {}

  lemma MergedAlike(images: ImageLineages, results: map<Image, ScanResult>, ns: Namespace, order: seq<Image>,
                    order': seq<Image>, cve: CVE)
    requires IsOrder(images, order) && IsOrder(images, order') && ImagesAgree(images, results, ns)
    requires cve in MergedRisks(images, results, order, ns)
    ensures cve in MergedRisks(images, results, order', ns)
    ensures MergedRisks(images, results, order', ns)[cve] == MergedRisks(images, results, order, ns)[cve]
  {
    MergedFromSome(images, results, order, ns, cve);
    var x :| x in order && Gives(images, results, x, ns, cve, MergedRisks(images, results, order, ns)[cve]);
    assert x in Sorting.Elements(order) && x in Sorting.Elements(order');
    MergedHasAll(images, results, order', x, ns, cve);
    MergedFromSome(images, results, order', ns, cve);
    var y :| y in order' && Gives(images, results, y, ns, cve, MergedRisks(images, results, order', ns)[cve]);
    assert y in Sorting.Elements(order');
  }

  lemma SameEntries<K, V>(m: map<K, V>, m': map<K, V>)
    requires (forall k <- m :: k in m' && m'[k] == m[k]) && forall k <- m' :: k in m
    ensures m == m'
  {}

  lemma MergedSame(images: ImageLineages, results: map<Image, ScanResult>, ns: Namespace, order: seq<Image>,
                   order': seq<Image>)
    requires IsOrder(images, order) && IsOrder(images, order') && ImagesAgree(images, results, ns)
    ensures MergedRisks(images, results, order, ns) == MergedRisks(images, results, order', ns)
  {
    var risks, risks' := MergedRisks(images, results, order, ns), MergedRisks(images, results, order', ns);
    forall cve | cve in risks
      ensures cve in risks' && risks'[cve] == risks[cve]
    {
      MergedAlike(images, results, ns, order, order', cve);
    }
    forall cve | cve in risks'
      ensures cve in risks
    {
      MergedAlike(images, results, ns, order', order, cve);
    }
    SameEntries(risks, risks');
  }

  /** Two images that disagree leave different severities behind when they are visited last. */
  lemma MergedDiffers(images: ImageLineages, results: map<Image, ScanResult>, ns: Namespace)
    returns (order: seq<Image>, order': seq<Image>)
    requires !ImagesAgree(images, results, ns)
    ensures IsOrder(images, order) && IsOrder(images, order')
    ensures MergedRisks(images, results, order, ns) != MergedRisks(images, results, order', ns)
  {
    var x, y, cve, sev, sev' :| x in images && y in images && Gives(images, results, x, ns, cve, sev)
                                && Gives(images, results, y, ns, cve, sev') && sev != sev';
    order := LastImageDecides(images, results, x, ns, cve, sev);
    order' := LastImageDecides(images, results, y, ns, cve, sev');
  }

  /** The severities that stay are the same for all orders of the images exactly when the images agree. */
  lemma OrderDoesNotMatterIff(images: ImageLineages, results: map<Image, ScanResult>, ns: Namespace)
    ensures (forall order, order' | IsOrder(images, order) && IsOrder(images, order') ::
              MergedRisks(images, results, order, ns) == MergedRisks(images, results, order', ns))
       <==> ImagesAgree(images, results, ns)
  {
    if ImagesAgree(images, results, ns) {
      forall order, order' | IsOrder(images, order) && IsOrder(images, order')
        ensures MergedRisks(images, results, order, ns) == MergedRisks(images, results, order', ns)
      {
        MergedSame(images, results, ns, order, order');
      }
    } else {
      var order, order' := MergedDiffers(images, results, ns);
    }
  }

  /** The emitted severity counts of a namespace add up to its distinct CVEs, for every order of the
      images, exactly when each image's last severity of every CVE is one of the five. */
  lemma NamespaceCountsAddUp(images: ImageLineages, results: map<Image, ScanResult>, ns: Namespace)
    ensures (forall order | IsOrder(images, order) ::
              CountedCVEs(MergedRisks(images, results, order, ns)) == |MergedRisks(images, results, order, ns)|)
       <==> forall img, cve, sev | img in images && Gives(images, results, img, ns, cve, sev) :: sev in SEVERITIES
  {
    if img, cve, sev :| img in images && Gives(images, results, img, ns, cve, sev) && sev !in SEVERITIES {
      var order := LastImageDecides(images, results, img, ns, cve, sev);
      var risks := MergedRisks(images, results, order, ns);
      assert risks[cve] in risks.Values;
      CountsAddUp(risks);
    } else {
      forall order | IsOrder(images, order)
        ensures CountedCVEs(MergedRisks(images, results, order, ns)) == |MergedRisks(images, results, order, ns)|
      {
        AllKnown(images, results, order, ns);
        CountsAddUp(MergedRisks(images, results, order, ns));
      }
    }
  }

  lemma AllKnown(images: ImageLineages, results: map<Image, ScanResult>, order: seq<Image>, ns: Namespace)
    requires IsOrder(images, order)
    requires forall img, cve, sev | img in images && Gives(images, results, img, ns, cve, sev) :: sev in SEVERITIES
    ensures MergedRisks(images, results, order, ns).Values <= SEVERITIES
  {
    var risks := MergedRisks(images, results, order, ns);
    forall cve | cve in risks
      ensures risks[cve] in SEVERITIES
    {
      MergedFromSome(images, results, order, ns, cve);
      var img :| img in order && Gives(images, results, img, ns, cve, risks[cve]);
      assert img in Sorting.Elements(order);
    }
  }
}
