/** GenerateReports: folding scan results into totals, per-image statistics and per-CVE targets. */
module CveReports {
  import opened Sums
  import opened Findings
  import opened Sorting

  datatype Relevance = Everything | OnlyCVE(cve: CVE)

  predicate RelevantVuln(rel: Relevance, v: Vulnerability) {
    rel.Everything? || v.id == rel.cve
  }

  predicate RelevantResult(rel: Relevance, r: ScanResult) {
    rel.Everything?
    || (!r.missing && exists i, j ::
          0 <= i < |r.sections| && 0 <= j < |r.sections[i].vulnerabilities|
          && r.sections[i].vulnerabilities[j].id == rel.cve)
  }

  datatype RiskStats = RiskStats(occurrence: int, count: int)

  datatype ImageInfo = ImageInfo(image: Image, found: bool, stats: map<Severity, RiskStats>)

  /** One CVE: the severity of the finding that was met first, and the targets per image. */
  datatype VulnerabilityInfo = VulnerabilityInfo(id: CVE, severity: Severity, perImage: map<Image, seq<Target>>)

  type VulnerabilityMap = map<CVE, VulnerabilityInfo>

  // ---------------------------------------------------------------- what a report has to say

  function Keep(rel: Relevance, fs: seq<Finding>): seq<Finding> {
    if fs == [] then []
    else Keep(rel, fs[..|fs| - 1]) + if RelevantVuln(rel, fs[|fs| - 1].vuln) then [fs[|fs| - 1]] else []
  }

  /** The findings of an image that the report is about; none when the image is not listed. */
  function Shown(rel: Relevance, results: map<Image, ScanResult>, img: Image): seq<Finding> {
    if img in results && RelevantResult(rel, results[img]) then Keep(rel, FindingsOf(results[img])) else []
  }

  function TargetsIn(vuls: VulnerabilityMap, cve: CVE, img: Image): seq<Target> {
    if cve in vuls && img in vuls[cve].perImage then vuls[cve].perImage[img] else []
  }

  function OccurrenceOf(stats: map<Severity, RiskStats>, sev: Severity): int {
    if sev in stats then stats[sev].occurrence else 0
  }

  function CountOf(stats: map<Severity, RiskStats>, sev: Severity): int {
    if sev in stats then stats[sev].count else 0
  }

  /** What the loops have processed so far: the kept findings of each image. */
  type Seen = map<Image, seq<Finding>>

  function SeenOf(seen: Seen, img: Image): seq<Finding> {
    if img in seen then seen[img] else []
  }

  /** vuls holds, per CVE and image, the targets of the findings seen, and nothing else. */
  ghost predicate Merged(vuls: VulnerabilityMap, seen: Seen) {
    && (forall cve, img :: TargetsIn(vuls, cve, img) == TargetsOf(SeenOf(seen, img), cve))
    && (forall cve <- vuls :: WellKept(vuls[cve], cve) && SeverityFrom(seen, cve, vuls[cve].severity))
  }

  ghost predicate WellKept(info: VulnerabilityInfo, cve: CVE) {
    info.id == cve && info.perImage != map[] && forall img <- info.perImage :: info.perImage[img] != []
  }

  /** The first finding of the CVE in some image has this severity. */
  ghost predicate SeverityFrom(seen: Seen, cve: CVE, sev: Severity) {
    exists img :: FirstGives(SeenOf(seen, img), cve, sev)
  }

  ghost function SeeOne(seen: Seen, img: Image, f: Finding): Seen {
    seen[img := SeenOf(seen, img) + [f]]
  }

  // ---------------------------------------------------------------- the loops

  /** One vulnerability of one image is added to the per-CVE map. */
  method PopulateVulnerabilityInfoMap(vuls: VulnerabilityMap, img: Image, f: Finding, ghost seen: Seen)
    returns (vuls': VulnerabilityMap)
    requires Merged(vuls, seen)
    ensures Merged(vuls', SeeOne(seen, img, f))
  {
    var av := if f.vuln.id in vuls then vuls[f.vuln.id] else VulnerabilityInfo(f.vuln.id, f.vuln.severity, map[]);
    var targets := if img in av.perImage then av.perImage[img] else [];
    av := av.(perImage := av.perImage[img := targets + [f.place]]);
    vuls' := vuls[av.id := av];
    PopulateTargets(vuls, vuls', seen, img, f);
    PopulateEntries(vuls, vuls', seen, img, f);
  }

  /** vuls' is vuls with the place of f appended for its CVE and img. */
  ghost predicate PlaceAdded(vuls: VulnerabilityMap, vuls': VulnerabilityMap, img: Image, f: Finding) {
    var id := f.vuln.id;
    && vuls'.Keys == vuls.Keys + {id}
    && (forall cve <- vuls :: cve != id ==> vuls'[cve] == vuls[cve])
    && vuls'[id].id == id
    && vuls'[id].severity == (if id in vuls then vuls[id].severity else f.vuln.severity)
    && vuls'[id].perImage ==
      (if id in vuls then vuls[id].perImage else map[])[img := TargetsIn(vuls, id, img) + [f.place]]
  }

  lemma PopulateTargets(vuls: VulnerabilityMap, vuls': VulnerabilityMap, seen: Seen, img: Image, f: Finding)
    requires Merged(vuls, seen) && PlaceAdded(vuls, vuls', img, f)
    ensures forall c, i :: TargetsIn(vuls', c, i) == TargetsOf(SeenOf(SeeOne(seen, img, f), i), c)
  {
    forall c, i
      ensures TargetsIn(vuls', c, i) == TargetsOf(SeenOf(SeeOne(seen, img, f), i), c)
    {
      PopulateTarget(vuls, vuls', seen, img, f, c, i);
    }
  }

  lemma PopulateTarget(vuls: VulnerabilityMap, vuls': VulnerabilityMap, seen: Seen, img: Image, f: Finding, c: CVE,
                       i: Image)
    requires TargetsIn(vuls, c, i) == TargetsOf(SeenOf(seen, i), c) && PlaceAdded(vuls, vuls', img, f)
    ensures TargetsIn(vuls', c, i) == TargetsOf(SeenOf(SeeOne(seen, img, f), i), c)
  {
    TargetsOfOneMore(SeenOf(seen, img), f, c);
    if c == f.vuln.id {
      assert TargetsIn(vuls', c, i) == if i == img then TargetsIn(vuls, c, i) + [f.place] else TargetsIn(vuls, c, i);
    }
  }

  lemma PopulateKept(vuls: VulnerabilityMap, vuls': VulnerabilityMap, img: Image, f: Finding, cve: CVE)
    requires PlaceAdded(vuls, vuls', img, f) && cve in vuls' && (cve in vuls ==> WellKept(vuls[cve], cve))
    ensures WellKept(vuls'[cve], cve)
  {
    var targets := TargetsIn(vuls, f.vuln.id, img);
    assert vuls'[f.vuln.id].perImage[img] == targets + [f.place];
  }

  lemma PopulateSeverity(vuls: VulnerabilityMap, vuls': VulnerabilityMap, seen: Seen, img: Image, f: Finding, cve: CVE)
    requires PlaceAdded(vuls, vuls', img, f) && cve in vuls'
      && (cve in vuls ==> SeverityFrom(seen, cve, vuls[cve].severity))
    requires TargetsIn(vuls, cve, img) == TargetsOf(SeenOf(seen, img), cve)
    ensures SeverityFrom(SeeOne(seen, img, f), cve, vuls'[cve].severity)
  {
    if cve in vuls {
      SeverityStays(seen, img, f, cve, vuls[cve].severity);
    } else {
      TargetsOfEmpty(SeenOf(seen, img), cve);
      FirstAppears(SeenOf(seen, img), f);
      assert FirstGives(SeenOf(SeeOne(seen, img, f), img), cve, f.vuln.severity);
    }
  }

  lemma PopulateEntries(vuls: VulnerabilityMap, vuls': VulnerabilityMap, seen: Seen, img: Image, f: Finding)
    requires Merged(vuls, seen) && PlaceAdded(vuls, vuls', img, f)
    ensures forall c <- vuls' :: WellKept(vuls'[c], c) && SeverityFrom(SeeOne(seen, img, f), c, vuls'[c].severity)
  {
    forall c | c in vuls'
      ensures WellKept(vuls'[c], c) && SeverityFrom(SeeOne(seen, img, f), c, vuls'[c].severity)
    {
      PopulateKept(vuls, vuls', img, f, c);
      PopulateSeverity(vuls, vuls', seen, img, f, c);
    }
  }

  lemma SeverityStays(seen: Seen, img: Image, f: Finding, cve: CVE, sev: Severity)
    requires SeverityFrom(seen, cve, sev)
    ensures SeverityFrom(SeeOne(seen, img, f), cve, sev)
  {
    var i :| FirstGives(SeenOf(seen, i), cve, sev);
    if i == img {
      FirstStays(SeenOf(seen, i), f, cve, sev);
    }
    assert FirstGives(SeenOf(SeeOne(seen, img, f), i), cve, sev);
  }

  /** The counters after the findings fs: total from its start, risk and byCVE from nothing. */
  ghost predicate Tallied(fs: seq<Finding>, start: map<Severity, int>, total: map<Severity, int>,
                          risk: map<Severity, int>, byCVE: map<CVE, Severity>) {
    CountsSeverities(fs, start, total) && CountsSeverities(fs, map[], risk) && byCVE == RiskByCVE(fs)
  }

  lemma TallyOne(fs: seq<Finding>, f: Finding, start: map<Severity, int>, total: map<Severity, int>,
                 risk: map<Severity, int>, byCVE: map<CVE, Severity>)
    requires Tallied(fs, start, total, risk, byCVE)
    ensures Tallied(fs + [f], start, Inc(total, f.vuln.severity), Inc(risk, f.vuln.severity),
                    byCVE[f.vuln.id := f.vuln.severity])
  {
    CountOneFinding(fs, f, start, total);
    CountOneFinding(fs, f, map[], risk);
    assert (fs + [f])[..|fs|] == fs;
  }

  lemma KeepOne(rel: Relevance, fs: seq<Finding>, f: Finding)
    ensures Keep(rel, fs + [f]) == Keep(rel, fs) + if RelevantVuln(rel, f.vuln) then [f] else []
  {
    assert (fs + [f])[..|fs|] == fs;
  }

  /** The counters and the per-CVE map after the relevant ones of the raw findings of img. */
  ghost predicate Counting(rel: Relevance, img: Image, raw: seq<Finding>, start: map<Severity, int>, seen: Seen,
                           total: map<Severity, int>, risk: map<Severity, int>, byCVE: map<CVE, Severity>,
                           vuls: VulnerabilityMap) {
    Tallied(Keep(rel, raw), start, total, risk, byCVE) && Merged(vuls, seen[img := Keep(rel, raw)])
  }

  lemma SeeOneIs(seen: Seen, img: Image, kept: seq<Finding>, f: Finding)
    ensures SeeOne(seen[img := kept], img, f) == seen[img := kept + [f]]
  {}

  lemma CountingNext(rel: Relevance, img: Image, raw: seq<Finding>, f: Finding, start: map<Severity, int>, seen: Seen,
                     total: map<Severity, int>, risk: map<Severity, int>, byCVE: map<CVE, Severity>,
                     vuls: VulnerabilityMap, vuls': VulnerabilityMap)
    requires Counting(rel, img, raw, start, seen, total, risk, byCVE, vuls)
    requires RelevantVuln(rel, f.vuln) ==> Merged(vuls', SeeOne(seen[img := Keep(rel, raw)], img, f))
    ensures if RelevantVuln(rel, f.vuln)
            then Counting(rel, img, raw + [f], start, seen, Inc(total, f.vuln.severity), Inc(risk, f.vuln.severity),
                          byCVE[f.vuln.id := f.vuln.severity], vuls')
            else Counting(rel, img, raw + [f], start, seen, total, risk, byCVE, vuls)
  {
    KeepOne(rel, raw, f);
    var kept := Keep(rel, raw);
    if RelevantVuln(rel, f.vuln) {
      TallyOne(kept, f, start, total, risk, byCVE);
      SeeOneIs(seen, img, kept, f);
    } else {
      assert kept + [] == kept;
    }
  }

  lemma InSectionNext(raw: seq<Finding>, section: Section, j: nat)
    requires j < |section.vulnerabilities|
    ensures raw + InSection(section, j + 1) ==
      raw + InSection(section, j) + [FindingAt(section, section.vulnerabilities[j])]
  {}

  /** The innermost body: one finding, counted everywhere or nowhere. */
  method CountFinding(rel: Relevance, img: Image, f: Finding, total0: map<Severity, int>, risk0: map<Severity, int>,
                      byCVE0: map<CVE, Severity>, vuls0: VulnerabilityMap,
                      ghost raw: seq<Finding>, ghost start: map<Severity, int>, ghost seen: Seen)
    returns (total: map<Severity, int>, risk: map<Severity, int>, byCVE: map<CVE, Severity>, vuls: VulnerabilityMap)
    requires Counting(rel, img, raw, start, seen, total0, risk0, byCVE0, vuls0)
    ensures Counting(rel, img, raw + [f], start, seen, total, risk, byCVE, vuls)
  {
    total, risk, byCVE, vuls := total0, risk0, byCVE0, vuls0;
    if RelevantVuln(rel, f.vuln) {
      vuls := PopulateVulnerabilityInfoMap(vuls, img, f, seen[img := Keep(rel, raw)]);
      total, risk := Inc(total, f.vuln.severity), Inc(risk, f.vuln.severity);
      byCVE := byCVE[f.vuln.id := f.vuln.severity];
    }
    CountingNext(rel, img, raw, f, start, seen, total0, risk0, byCVE0, vuls0, vuls);
  }

  lemma CountingSection(rel: Relevance, img: Image, section: Section, raw: seq<Finding>, start: map<Severity, int>,
                        seen: Seen, total: map<Severity, int>, risk: map<Severity, int>, byCVE: map<CVE, Severity>,
                        vuls: VulnerabilityMap)
    requires Counting(rel, img, raw, start, seen, total, risk, byCVE, vuls)
    ensures Counting(rel, img, raw + InSection(section, 0), start, seen, total, risk, byCVE, vuls)
  {
    assert raw + InSection(section, 0) == raw;
  }

  method CountVulnerability(rel: Relevance, img: Image, section: Section, j: nat, total0: map<Severity, int>,
                            risk0: map<Severity, int>, byCVE0: map<CVE, Severity>, vuls0: VulnerabilityMap,
                            ghost raw: seq<Finding>, ghost start: map<Severity, int>, ghost seen: Seen)
    returns (total: map<Severity, int>, risk: map<Severity, int>, byCVE: map<CVE, Severity>, vuls: VulnerabilityMap)
    requires j < |section.vulnerabilities|
    requires Counting(rel, img, raw + InSection(section, j), start, seen, total0, risk0, byCVE0, vuls0)
    ensures Counting(rel, img, raw + InSection(section, j + 1), start, seen, total, risk, byCVE, vuls)
  {
    InSectionNext(raw, section, j);
    total, risk, byCVE, vuls :=
      CountFinding(rel, img, FindingAt(section, section.vulnerabilities[j]), total0, risk0, byCVE0, vuls0,
                   raw + InSection(section, j), start, seen);
  }

  method CountSection(rel: Relevance, img: Image, section: Section, total0: map<Severity, int>,
                      risk0: map<Severity, int>, byCVE0: map<CVE, Severity>, vuls0: VulnerabilityMap,
                      ghost raw: seq<Finding>, ghost start: map<Severity, int>, ghost seen: Seen)
    returns (total: map<Severity, int>, risk: map<Severity, int>, byCVE: map<CVE, Severity>, vuls: VulnerabilityMap)
    requires Counting(rel, img, raw, start, seen, total0, risk0, byCVE0, vuls0)
    ensures Counting(rel, img, raw + InSection(section, |section.vulnerabilities|), start, seen,
                     total, risk, byCVE, vuls)
  {
    total, risk, byCVE, vuls := total0, risk0, byCVE0, vuls0;
    CountingSection(rel, img, section, raw, start, seen, total, risk, byCVE, vuls);
    for j := 0 to |section.vulnerabilities|
      invariant Counting(rel, img, raw + InSection(section, j), start, seen, total, risk, byCVE, vuls)
    {
      total, risk, byCVE, vuls := CountVulnerability(rel, img, section, j, total, risk, byCVE, vuls, raw, start, seen);
    }
  }

  /** The two inner loops: every relevant finding of a report counts once in each counter. */
  method CountReport(rel: Relevance, img: Image, r: ScanResult, start: map<Severity, int>, vuls0: VulnerabilityMap,
                     ghost seen: Seen)
    returns (total: map<Severity, int>, risk: map<Severity, int>, byCVE: map<CVE, Severity>, vuls: VulnerabilityMap)
    requires !r.missing && Merged(vuls0, seen) && img !in seen
    ensures Counting(rel, img, FindingsOf(r), start, seen, total, risk, byCVE, vuls)
  {
    total, risk, byCVE, vuls := start, map[], map[], vuls0;
    CountingStart(rel, img, start, vuls, seen);
    for i := 0 to |r.sections|
      invariant Counting(rel, img, InSections(r.sections, i), start, seen, total, risk, byCVE, vuls)
    {
      total, risk, byCVE, vuls :=
        CountSection(rel, img, r.sections[i], total, risk, byCVE, vuls, InSections(r.sections, i), start, seen);
    }
  }

  lemma CountingStart(rel: Relevance, img: Image, start: map<Severity, int>, vuls: VulnerabilityMap, seen: Seen)
    requires Merged(vuls, seen) && img !in seen
    ensures Counting(rel, img, [], start, seen, start, map[], map[], vuls)
  {
    MergedNone(vuls, seen, img);
  }

  lemma MergedNone(vuls: VulnerabilityMap, seen: Seen, img: Image)
    requires Merged(vuls, seen) && img !in seen
    ensures Merged(vuls, seen[img := []])
  {
    forall i
      ensures SeenOf(seen[img := []], i) == SeenOf(seen, i)
    {}
    forall cve, sev | SeverityFrom(seen, cve, sev)
      ensures SeverityFrom(seen[img := []], cve, sev)
    {
      var i :| FirstGives(SeenOf(seen, i), cve, sev);
      assert FirstGives(SeenOf(seen[img := []], i), cve, sev);
    }
  }

  // ---------------------------------------------------------------- statistics

  /** Occurrences from one counter, and how many CVEs have each severity. */
  ghost predicate IsStats(stats: map<Severity, RiskStats>, occ: map<Severity, int>, risks: map<CVE, Severity>) {
    forall sev ::
      && (sev in stats <==> sev in occ || CountValue(risks, sev) > 0)
      && OccurrenceOf(stats, sev) == At(occ, sev)
      && CountOf(stats, sev) == CountValue(risks, sev)
  }

  method StatsFrom(occ: map<Severity, int>, risks: map<CVE, Severity>) returns (stats: map<Severity, RiskStats>)
    ensures IsStats(stats, occ, risks)
  {
    stats := map sev | sev in occ :: RiskStats(occ[sev], 0);
    var rest := risks.Keys;
    forall sev: Severity
      ensures CountAmong(risks, risks.Keys - rest, sev) == 0
    {}
    while rest != {}
      invariant rest <= risks.Keys
      invariant forall sev ::
        && (sev in stats <==> sev in occ || CountAmong(risks, risks.Keys - rest, sev) > 0)
        && OccurrenceOf(stats, sev) == At(occ, sev)
        && CountOf(stats, sev) == CountAmong(risks, risks.Keys - rest, sev)
    {
      var cve :| cve in rest;
      forall sev: Severity
        ensures CountAmong(risks, risks.Keys - (rest - {cve}), sev)
             == CountAmong(risks, risks.Keys - rest, sev) + if risks[cve] == sev then 1 else 0
      {
        CountOneMore(risks, risks.Keys - rest, cve, sev);
        assert risks.Keys - rest + {cve} == risks.Keys - (rest - {cve});
      }
      var rs := if risks[cve] in stats then stats[risks[cve]] else RiskStats(0, 0);
      stats := stats[risks[cve] := rs.(count := rs.count + 1)];
      rest := rest - {cve};
    }
    assert risks.Keys - {} == risks.Keys;
  }

  // ---------------------------------------------------------------- one CVE of the response

  /** The targets are a multiset: the source orders them with a comparator that fixes no order. */
  datatype ImageResult = ImageResult(image: Image, targets: multiset<Target>)

  datatype CVEInfo = CVEInfo(id: CVE, severity: Severity, occurrence: int, results: seq<ImageResult>)

  predicate ByImage(a: ImageResult, b: ImageResult) {
    Less(a.image, b.image)
  }

  lemma ByImageIsStrictWeak()
    ensures StrictWeakOrder(ByImage)
  {
    LessIsStrictWeak();
  }

  /** The result lists each image that has the CVE once, sorted by name, with all its targets, and
      counts the targets. */
  ghost predicate IsCVEInfo(out: CVEInfo, info: VulnerabilityInfo) {
    && out.id == info.id && out.severity == info.severity
    && StrictlySorted(ByImage, out.results)
    && (forall r :: r in out.results <==> r.image in info.perImage && r.targets == multiset(info.perImage[r.image]))
    && out.occurrence == Sum(info.perImage.Keys, img => if img in info.perImage then |info.perImage[img]| else 0)
  }

  method ListImages(info: VulnerabilityInfo) returns (results: seq<ImageResult>)
    ensures DistinctKeys(results, (r: ImageResult) => r.image)
    ensures forall r :: r in results <==> r.image in info.perImage && r.targets == multiset(info.perImage[r.image])
  {
    var imgs := Listing(info.perImage.Keys);
    results := [];
    for i := 0 to |imgs|
      invariant |results| == i
      invariant forall k | 0 <= k < i ::
        imgs[k] in info.perImage && results[k] == ImageResult(imgs[k], multiset(info.perImage[imgs[k]]))
    {
      assert imgs[i] in Elements(imgs);
      results := results + [ImageResult(imgs[i], multiset(info.perImage[imgs[i]]))];
    }
    ListedOnce(info, imgs, results);
  }

  method CountTargets(results: seq<ImageResult>) returns (occurrence: int)
    ensures occurrence == SumSeq(results, (r: ImageResult) => |r.targets|)
  {
    occurrence := 0;
    for i := 0 to |results|
      invariant occurrence == SumSeq(results[..i], (r: ImageResult) => |r.targets|)
    {
      assert results[..i + 1][..i] == results[..i];
      occurrence := occurrence + |results[i].targets|;
    }
    assert results[..|results|] == results;
  }

  method ProcessVulnerabilityInfo(info: VulnerabilityInfo) returns (out: CVEInfo)
    ensures IsCVEInfo(out, info)
  {
    var results := ListImages(info);
    SortByImage(results);
    results := SortSlice(ByImage, results);
    var occurrence := CountTargets(results);
    OccurrenceIsTotal(info, results);
    out := CVEInfo(info.id, info.severity, occurrence, results);
  }

  lemma ListedOnce(info: VulnerabilityInfo, imgs: seq<Image>, results: seq<ImageResult>)
    requires Elements(imgs) == info.perImage.Keys && Distinct(imgs) && |results| == |imgs|
    requires forall k | 0 <= k < |imgs| ::
      imgs[k] in info.perImage && results[k] == ImageResult(imgs[k], multiset(info.perImage[imgs[k]]))
    ensures DistinctKeys(results, (r: ImageResult) => r.image)
    ensures forall r :: r in results <==> r.image in info.perImage && r.targets == multiset(info.perImage[r.image])
  {
    forall r: ImageResult | r.image in info.perImage && r.targets == multiset(info.perImage[r.image])
      ensures r in results
    {
      assert r.image in Elements(imgs);
      var k :| 0 <= k < |imgs| && imgs[k] == r.image;
      assert results[k] == r;
    }
  }

  lemma SortByImage(results: seq<ImageResult>)
    requires DistinctKeys(results, (r: ImageResult) => r.image)
    ensures StrictlySorted(ByImage, SortSlice(ByImage, results))
    ensures forall r :: r in SortSlice(ByImage, results) <==> r in results
  {
    ByImageIsStrictWeak();
    forall x, y | x in results && y in results && x != y
      ensures ByImage(x, y) || ByImage(y, x)
    {
      var key := (r: ImageResult) => r.image;
      var i :| 0 <= i < |results| && results[i] == x;
      var j :| 0 <= j < |results| && results[j] == y;
      assert i != j && (i < j ==> key(results[i]) != key(results[j])) && (j < i ==> key(results[j]) != key(results[i]));
      LessIsTotal(x.image, y.image);
    }
    assert Distinct(results) by {
      forall i, j | 0 <= i < j < |results|
        ensures results[i] != results[j]
      {
        var key := (r: ImageResult) => r.image;
        assert key(results[i]) != key(results[j]);
      }
    }
    SortSliceIsStrict(ByImage, results);
  }

  lemma StrictImagesAreDistinct(results: seq<ImageResult>)
    requires StrictlySorted(ByImage, results)
    ensures DistinctKeys(results, (r: ImageResult) => r.image)
  {
    forall i, j | 0 <= i < j < |results|
      ensures results[i].image != results[j].image
    {
      assert ByImage(results[i], results[j]);
      LessIsTotal(results[i].image, results[j].image);
    }
  }

  lemma OccurrenceIsTotal(info: VulnerabilityInfo, results: seq<ImageResult>)
    requires StrictlySorted(ByImage, results)
    requires forall r :: r in results <==> r.image in info.perImage && r.targets == multiset(info.perImage[r.image])
    ensures SumSeq(results, (r: ImageResult) => |r.targets|)
         == Sum(info.perImage.Keys, img => if img in info.perImage then |info.perImage[img]| else 0)
  {
    var key := (r: ImageResult) => r.image;
    StrictImagesAreDistinct(results);
    SumSeqByKey(results, key, (r: ImageResult) => |r.targets|,
                img => if img in info.perImage then |info.perImage[img]| else 0);
    forall img | img in info.perImage
      ensures img in KeysOf(results, key)
    {
      assert ImageResult(img, multiset(info.perImage[img])) in results;
      assert key(ImageResult(img, multiset(info.perImage[img]))) == img;
    }
    assert KeysOf(results, key) == info.perImage.Keys;
  }

  // ---------------------------------------------------------------- the whole report

  datatype Response = Response(images: seq<ImageInfo>, stats: map<Severity, RiskStats>, cves: seq<CVEInfo>)

  /** The statistics of one image: its findings by severity, and its CVEs by their last severity. */
  ghost predicate IsImageStats(stats: map<Severity, RiskStats>, fs: seq<Finding>) {
    forall sev ::
      && (sev in stats <==> CountSeverity(fs, sev) > 0 || CountValue(RiskByCVE(fs), sev) > 0)
      && OccurrenceOf(stats, sev) == CountSeverity(fs, sev)
      && CountOf(stats, sev) == CountValue(RiskByCVE(fs), sev)
  }

  ghost function OccurrenceAmong(rel: Relevance, results: map<Image, ScanResult>, imgs: set<Image>,
                                 sev: Severity): int {
    Sum(imgs, img => CountSeverity(Shown(rel, results, img), sev))
  }

  predicate Listed(rel: Relevance, results: map<Image, ScanResult>, img: Image) {
    img in results && RelevantResult(rel, results[img])
  }

  ghost predicate IsImageInfo(rel: Relevance, results: map<Image, ScanResult>, img: Image, ii: ImageInfo) {
    && Listed(rel, results, img)
    && ii.image == img && ii.found == !results[img].missing && IsImageStats(ii.stats, Shown(rel, results, img))
  }

  ghost predicate SeenMatches(rel: Relevance, results: map<Image, ScanResult>, done: set<Image>, seen: Seen) {
    seen.Keys <= done && forall img <- done :: SeenOf(seen, img) == Shown(rel, results, img)
  }

  ghost predicate TotalsMatch(rel: Relevance, results: map<Image, ScanResult>, done: set<Image>,
                              total: map<Severity, int>) {
    && (forall sev :: At(total, sev) == OccurrenceAmong(rel, results, done, sev))
    && (forall sev <- total :: total[sev] > 0)
  }

  ghost predicate InfosMatch(rel: Relevance, results: map<Image, ScanResult>, done: set<Image>,
                             imginfos: map<Image, ImageInfo>) {
    && (forall img :: img in imginfos <==> img in done && Listed(rel, results, img))
    && (forall img <- imginfos :: IsImageInfo(rel, results, img, imginfos[img]))
  }

  /** The state of the outer loop after the images in done. */
  ghost predicate Folded(rel: Relevance, results: map<Image, ScanResult>, done: set<Image>, total: map<Severity, int>,
                         imginfos: map<Image, ImageInfo>, vuls: VulnerabilityMap, seen: Seen) {
    && SeenMatches(rel, results, done, seen) && Merged(vuls, seen)
    && TotalsMatch(rel, results, done, total) && InfosMatch(rel, results, done, imginfos)
  }

  lemma TotalsNext(rel: Relevance, results: map<Image, ScanResult>, done: set<Image>, total: map<Severity, int>,
                   img: Image, total': map<Severity, int>)
    requires TotalsMatch(rel, results, done, total) && img !in done
    requires CountsSeverities(Shown(rel, results, img), total, total')
    ensures TotalsMatch(rel, results, done + {img}, total')
  {
    forall sev: Severity
      ensures At(total', sev) == OccurrenceAmong(rel, results, done + {img}, sev)
    {
      SumAdd(done, img, i => CountSeverity(Shown(rel, results, i), sev));
    }
    forall sev | sev in total'
      ensures total'[sev] > 0
    {
      assert At(total', sev) == At(total, sev) + CountSeverity(Shown(rel, results, img), sev);
    }
  }

  lemma SeenNext(rel: Relevance, results: map<Image, ScanResult>, done: set<Image>, seen: Seen, img: Image)
    requires SeenMatches(rel, results, done, seen) && img !in done
    ensures SeenMatches(rel, results, done + {img}, seen[img := Shown(rel, results, img)])
  {}

  lemma InfosNext(rel: Relevance, results: map<Image, ScanResult>, done: set<Image>, imginfos: map<Image, ImageInfo>,
                  img: Image, ii: ImageInfo)
    requires InfosMatch(rel, results, done, imginfos) && img !in done && IsImageInfo(rel, results, img, ii)
    ensures InfosMatch(rel, results, done + {img}, imginfos[img := ii])
  {
    var next := imginfos[img := ii];
    forall i
      ensures i in next <==> i in done + {img} && Listed(rel, results, i)
      ensures i in next ==> IsImageInfo(rel, results, i, next[i])
    {
      assert i != img ==> (i in next <==> i in imginfos);
    }
  }

  lemma FoldSkip(rel: Relevance, results: map<Image, ScanResult>, done: set<Image>, total: map<Severity, int>,
                 imginfos: map<Image, ImageInfo>, vuls: VulnerabilityMap, seen: Seen, img: Image)
    requires Folded(rel, results, done, total, imginfos, vuls, seen) && img !in done && !Listed(rel, results, img)
    ensures Folded(rel, results, done + {img}, total, imginfos, vuls, seen)
  {
    assert CountsSeverities([], total, total);
    TotalsNext(rel, results, done, total, img, total);
  }

  /** The body of the outer loop for a listed image. */
  method ReportImage(rel: Relevance, img: Image, r: ScanResult, total0: map<Severity, int>, vuls0: VulnerabilityMap,
                     ghost seen: Seen)
    returns (total: map<Severity, int>, vuls: VulnerabilityMap, ii: ImageInfo)
    requires Merged(vuls0, seen) && img !in seen
    ensures CountsSeverities(Keep(rel, FindingsOf(r)), total0, total)
    ensures Merged(vuls, seen[img := Keep(rel, FindingsOf(r))])
    ensures ii.image == img && ii.found == !r.missing && IsImageStats(ii.stats, Keep(rel, FindingsOf(r)))
  {
    total, vuls := total0, vuls0;
    var risk: map<Severity, int>, byCVE: map<CVE, Severity> := map[], map[];
    if r.missing {
      CountingStart(rel, img, total, vuls, seen);
    } else {
      total, risk, byCVE, vuls := CountReport(rel, img, r, total, vuls, seen);
    }
    assert Counting(rel, img, FindingsOf(r), total0, seen, total, risk, byCVE, vuls);
    var stats := StatsFrom(risk, byCVE);
    StatsOfImage(Keep(rel, FindingsOf(r)), risk, byCVE, stats);
    ii := ImageInfo(img, !r.missing, stats);
  }

  lemma StatsOfImage(fs: seq<Finding>, risk: map<Severity, int>, byCVE: map<CVE, Severity>,
                     stats: map<Severity, RiskStats>)
    requires CountsSeverities(fs, map[], risk) && byCVE == RiskByCVE(fs) && IsStats(stats, risk, byCVE)
    ensures IsImageStats(stats, fs)
  {}

  /** One iteration of the outer loop, for a listed image. */
  method FoldImage(rel: Relevance, results: map<Image, ScanResult>, img: Image, total0: map<Severity, int>,
                   imginfos0: map<Image, ImageInfo>, vuls0: VulnerabilityMap, ghost done: set<Image>, ghost seen0: Seen)
    returns (total: map<Severity, int>, imginfos: map<Image, ImageInfo>, vuls: VulnerabilityMap, ghost seen: Seen)
    requires Listed(rel, results, img) && img !in done && Folded(rel, results, done, total0, imginfos0, vuls0, seen0)
    ensures Folded(rel, results, done + {img}, total, imginfos, vuls, seen)
  {
    var ii;
    total, vuls, ii := ReportImage(rel, img, results[img], total0, vuls0, seen0);
    TotalsNext(rel, results, done, total0, img, total);
    SeenNext(rel, results, done, seen0, img);
    InfosNext(rel, results, done, imginfos0, img, ii);
    imginfos := imginfos0[img := ii];
    seen := seen0[img := Shown(rel, results, img)];
  }

  lemma FoldedNone(rel: Relevance, results: map<Image, ScanResult>)
    ensures Folded(rel, results, {}, map[], map[], map[], map[])
  {}

  /** The outer loop over the results, in any order. */
  method FoldResults(rel: Relevance, results: map<Image, ScanResult>)
    returns (total: map<Severity, int>, imginfos: map<Image, ImageInfo>, vuls: VulnerabilityMap, ghost seen: Seen)
    ensures Folded(rel, results, results.Keys, total, imginfos, vuls, seen)
  {
    total, imginfos, vuls, seen := map[], map[], map[], map[];
    FoldedNone(rel, results);
    ghost var done: set<Image> := {};
    var rest := results.Keys;
    while rest != {}
      invariant done !! rest && done + rest == results.Keys
      invariant Folded(rel, results, done, total, imginfos, vuls, seen)
    {
      var img :| img in rest;
      if RelevantResult(rel, results[img]) {
        total, imginfos, vuls, seen := FoldImage(rel, results, img, total, imginfos, vuls, done, seen);
      } else {
        FoldSkip(rel, results, done, total, imginfos, vuls, seen, img);
      }
      done, rest := done + {img}, rest - {img};
    }
    assert done == results.Keys;
  }

  // ---------------------------------------------------------------- sorting the images

  function CalculateVulnerabilities(stats: map<Severity, RiskStats>): int {
    CountOf(stats, "HIGH") + CountOf(stats, "LOW") + CountOf(stats, "MEDIUM") + CountOf(stats, "CRITICAL")
      + CountOf(stats, "UNKNOWN")
  }

  predicate FewerVulnerabilities(a: ImageInfo, b: ImageInfo) {
    CalculateVulnerabilities(a.stats) < CalculateVulnerabilities(b.stats)
  }

  /** Each image once, by increasing number of CVEs of the known severities. */
  ghost predicate ImagesListed(images: seq<ImageInfo>, imginfos: map<Image, ImageInfo>) {
    && SortedBy(FewerVulnerabilities, images)
    && Distinct(images)
    && forall ii :: ii in images <==> ii.image in imginfos && imginfos[ii.image] == ii
  }

  method ListInfos(imginfos: map<Image, ImageInfo>) returns (list: seq<ImageInfo>)
    requires forall img <- imginfos :: imginfos[img].image == img
    ensures Distinct(list) && forall ii :: ii in list <==> ii.image in imginfos && imginfos[ii.image] == ii
  {
    var imgs := Listing(imginfos.Keys);
    list := [];
    for i := 0 to |imgs|
      invariant |list| == i && forall k | 0 <= k < i :: imgs[k] in imginfos && list[k] == imginfos[imgs[k]]
    {
      assert imgs[i] in Elements(imgs);
      list := list + [imginfos[imgs[i]]];
    }
    forall ii: ImageInfo | ii.image in imginfos && imginfos[ii.image] == ii
      ensures ii in list
    {
      assert ii.image in Elements(imgs);
      var k :| 0 <= k < |imgs| && imgs[k] == ii.image;
      assert list[k] == ii;
    }
  }

  lemma SortInfos(list: seq<ImageInfo>)
    requires Distinct(list)
    ensures SortedBy(FewerVulnerabilities, SortSlice(FewerVulnerabilities, list))
    ensures Distinct(SortSlice(FewerVulnerabilities, list))
    ensures forall ii :: ii in SortSlice(FewerVulnerabilities, list) <==> ii in list
  {
    var images := SortSlice(FewerVulnerabilities, list);
    SortSliceSorts(FewerVulnerabilities, list);
    DistinctPermutes(list, images);
    forall ii
      ensures ii in images <==> ii in list
    {
      assert ii in images <==> ii in multiset(images);
      assert ii in list <==> ii in multiset(list);
    }
  }

  method SortImageInfos(imginfos: map<Image, ImageInfo>) returns (images: seq<ImageInfo>)
    requires forall img <- imginfos :: imginfos[img].image == img
    ensures ImagesListed(images, imginfos)
  {
    var list := ListInfos(imginfos);
    SortInfos(list);
    images := SortSlice(FewerVulnerabilities, list);
  }

  // ---------------------------------------------------------------- sorting the CVEs

  /** A severity that is not known ranks with CRITICAL: it is absent from the rank table. */
  function Rank(sev: Severity): int {
    if sev == "HIGH" then 1
    else if sev == "MEDIUM" then 2
    else if sev == "LOW" then 3
    else if sev == "UNKNOWN" then 4
    else 0
  }

  predicate ByRank(a: CVEInfo, b: CVEInfo) {
    if Rank(a.severity) != Rank(b.severity) then Rank(a.severity) < Rank(b.severity) else Less(a.id, b.id)
  }

  lemma ByRankIsStrictWeak()
    ensures StrictWeakOrder(ByRank)
  {
    LessIsStrictWeak();
  }

  /** The CVEs of the response: sorted by rank and then id, one entry for each key of vuls. */
  ghost predicate CVEsListed(cves: seq<CVEInfo>, vuls: VulnerabilityMap) {
    && StrictlySorted(ByRank, cves)
    && DistinctKeys(cves, (c: CVEInfo) => c.id)
    && KeysOf(cves, (c: CVEInfo) => c.id) == vuls.Keys
    && forall c <- cves :: c.id in vuls && IsCVEInfo(c, vuls[c.id])
  }

  method ListCVEs(vuls: VulnerabilityMap) returns (list: seq<CVEInfo>)
    requires forall cve <- vuls :: vuls[cve].id == cve
    ensures DistinctKeys(list, (c: CVEInfo) => c.id) && KeysOf(list, (c: CVEInfo) => c.id) == vuls.Keys
    ensures forall c <- list :: c.id in vuls && IsCVEInfo(c, vuls[c.id])
  {
    var ids := Listing(vuls.Keys);
    list := [];
    for i := 0 to |ids|
      invariant |list| == i && forall k | 0 <= k < i ::
        ids[k] in vuls && list[k].id == ids[k] && IsCVEInfo(list[k], vuls[ids[k]])
    {
      assert ids[i] in Elements(ids);
      var info := ProcessVulnerabilityInfo(vuls[ids[i]]);
      list := list + [info];
    }
    IdsListed(ids, list, vuls.Keys);
  }

  lemma IdsListed(ids: seq<CVE>, list: seq<CVEInfo>, keys: set<CVE>)
    requires Elements(ids) == keys && Distinct(ids)
    requires |list| == |ids| && forall k | 0 <= k < |ids| :: list[k].id == ids[k]
    ensures DistinctKeys(list, (c: CVEInfo) => c.id) && KeysOf(list, (c: CVEInfo) => c.id) == keys
  {
    var key := (c: CVEInfo) => c.id;
    forall cve | cve in keys
      ensures cve in KeysOf(list, key)
    {
      var k :| 0 <= k < |ids| && ids[k] == cve;
      assert list[k] in list && key(list[k]) == cve;
    }
  }

  method SortCVEs(vuls: VulnerabilityMap) returns (cves: seq<CVEInfo>)
    requires forall cve <- vuls :: vuls[cve].id == cve
    ensures CVEsListed(cves, vuls)
  {
    var list := ListCVEs(vuls);
    cves := SortSlice(ByRank, list);
    SortByRank(list);
  }

  lemma SortByRank(list: seq<CVEInfo>)
    requires DistinctKeys(list, (c: CVEInfo) => c.id)
    ensures var cves := SortSlice(ByRank, list);
            && StrictlySorted(ByRank, cves) && DistinctKeys(cves, (c: CVEInfo) => c.id)
            && KeysOf(cves, (c: CVEInfo) => c.id) == KeysOf(list, (c: CVEInfo) => c.id)
            && forall c :: c in cves <==> c in list
  {
    var key := (c: CVEInfo) => c.id;
    var cves := SortSlice(ByRank, list);
    ByRankIsStrictWeak();
    forall x, y | x in list && y in list && x != y
      ensures x.id != y.id && (ByRank(x, y) || ByRank(y, x))
    {
      var i :| 0 <= i < |list| && list[i] == x;
      var j :| 0 <= j < |list| && list[j] == y;
      assert i != j && (i < j ==> key(list[i]) != key(list[j])) && (j < i ==> key(list[j]) != key(list[i]));
      LessIsTotal(x.id, y.id);
    }
    assert Distinct(list) by {
      forall i, j | 0 <= i < j < |list|
        ensures list[i] != list[j]
      {
        assert key(list[i]) != key(list[j]);
      }
    }
    SortSliceIsStrict(ByRank, list);
    DistinctPermutes(list, cves);
    forall i, j | 0 <= i < j < |cves|
      ensures key(cves[i]) != key(cves[j])
    {
      assert cves[i] in list && cves[j] in list;
    }
  }

  // ---------------------------------------------------------------- what the report says

  /** One entry per listed image, with its own statistics, by increasing number of CVEs. */
  ghost predicate ReportsImages(rel: Relevance, results: map<Image, ScanResult>, images: seq<ImageInfo>) {
    && SortedBy(FewerVulnerabilities, images)
    && DistinctKeys(images, (ii: ImageInfo) => ii.image)
    && (forall ii <- images :: IsImageInfo(rel, results, ii.image, ii))
    && (forall img :: Listed(rel, results, img) ==> img in KeysOf(images, (ii: ImageInfo) => ii.image))
  }

  /** All the places of one CVE, image by image, and how many there are. */
  ghost predicate ReportsCVE(rel: Relevance, results: map<Image, ScanResult>, c: CVEInfo) {
    && (exists img :: FirstGives(Shown(rel, results, img), c.id, c.severity))
    && StrictlySorted(ByImage, c.results)
    && (forall r :: r in c.results <==>
          && TargetsOf(Shown(rel, results, r.image), c.id) != []
          && r.targets == multiset(TargetsOf(Shown(rel, results, r.image), c.id)))
    && c.occurrence == CVEOccurrence(rel, results, c.id)
  }

  ghost function CVEOccurrence(rel: Relevance, results: map<Image, ScanResult>, cve: CVE): int {
    Sum(results.Keys, img => |TargetsOf(Shown(rel, results, img), cve)|)
  }

  /** One entry per CVE that occurs, by rank and id. */
  ghost predicate ReportsCVEs(rel: Relevance, results: map<Image, ScanResult>, cves: seq<CVEInfo>) {
    && StrictlySorted(ByRank, cves)
    && DistinctKeys(cves, (c: CVEInfo) => c.id)
    && (forall c <- cves :: ReportsCVE(rel, results, c))
    && (forall img :: CVEs(Shown(rel, results, img)) <= KeysOf(cves, (c: CVEInfo) => c.id))
  }

  ghost function CountCVEs(cves: seq<CVEInfo>, sev: Severity): int {
    SumSeq(cves, (c: CVEInfo) => if c.severity == sev then 1 else 0)
  }

  ghost predicate ReportsStats(rel: Relevance, results: map<Image, ScanResult>, cves: seq<CVEInfo>,
                               stats: map<Severity, RiskStats>) {
    forall sev ::
      && OccurrenceOf(stats, sev) == OccurrenceAmong(rel, results, results.Keys, sev)
      && CountOf(stats, sev) == CountCVEs(cves, sev)
      && (sev in stats <==> OccurrenceOf(stats, sev) > 0 || CountOf(stats, sev) > 0)
  }

  ghost predicate IsReport(rel: Relevance, results: map<Image, ScanResult>, resp: Response) {
    && ReportsImages(rel, results, resp.images)
    && ReportsCVEs(rel, results, resp.cves)
    && ReportsStats(rel, results, resp.cves, resp.stats)
  }

  lemma ImagesAreReported(rel: Relevance, results: map<Image, ScanResult>, imginfos: map<Image, ImageInfo>,
                          images: seq<ImageInfo>)
    requires InfosMatch(rel, results, results.Keys, imginfos) && ImagesListed(images, imginfos)
    ensures ReportsImages(rel, results, images)
  {
    var key := (ii: ImageInfo) => ii.image;
    forall i, j | 0 <= i < j < |images|
      ensures key(images[i]) != key(images[j])
    {
      assert images[i] in images && images[j] in images;
    }
    forall img | Listed(rel, results, img)
      ensures img in KeysOf(images, key)
    {
      assert IsImageInfo(rel, results, img, imginfos[img]);
      assert imginfos[img] in images && key(imginfos[img]) == img;
    }
  }

  lemma SeenIsShown(rel: Relevance, results: map<Image, ScanResult>, seen: Seen, img: Image)
    requires SeenMatches(rel, results, results.Keys, seen)
    ensures SeenOf(seen, img) == Shown(rel, results, img)
  {}

  lemma TargetsAreShown(rel: Relevance, results: map<Image, ScanResult>, vuls: VulnerabilityMap, seen: Seen, cve: CVE)
    requires SeenMatches(rel, results, results.Keys, seen) && Merged(vuls, seen) && cve in vuls
    ensures forall img :: TargetsIn(vuls, cve, img) == TargetsOf(Shown(rel, results, img), cve)
    ensures exists img :: FirstGives(Shown(rel, results, img), cve, vuls[cve].severity)
  {
    forall img
      ensures TargetsIn(vuls, cve, img) == TargetsOf(Shown(rel, results, img), cve)
    {
      SeenIsShown(rel, results, seen, img);
    }
    assert SeverityFrom(seen, cve, vuls[cve].severity);
    var i :| FirstGives(SeenOf(seen, i), cve, vuls[cve].severity);
    SeenIsShown(rel, results, seen, i);
  }

  lemma CVEIsReported(rel: Relevance, results: map<Image, ScanResult>, vuls: VulnerabilityMap, seen: Seen, c: CVEInfo)
    requires SeenMatches(rel, results, results.Keys, seen) && Merged(vuls, seen)
    requires c.id in vuls && IsCVEInfo(c, vuls[c.id])
    ensures ReportsCVE(rel, results, c)
  {
    assert WellKept(vuls[c.id], c.id);
    TargetsAreShown(rel, results, vuls, seen, c.id);
    InfoIsReported(rel, results, vuls, c);
  }

  lemma InfoIsReported(rel: Relevance, results: map<Image, ScanResult>, vuls: VulnerabilityMap, c: CVEInfo)
    requires c.id in vuls && WellKept(vuls[c.id], c.id) && IsCVEInfo(c, vuls[c.id])
    requires forall img :: TargetsIn(vuls, c.id, img) == TargetsOf(Shown(rel, results, img), c.id)
    requires exists img :: FirstGives(Shown(rel, results, img), c.id, c.severity)
    ensures ReportsCVE(rel, results, c)
  {
    OccurrenceOverResults(rel, results, vuls, c.id);
    forall r: ImageResult
      ensures r in c.results <==>
        && TargetsOf(Shown(rel, results, r.image), c.id) != []
        && r.targets == multiset(TargetsOf(Shown(rel, results, r.image), c.id))
    {
      ImageIsReported(rel, results, vuls, c, r);
    }
  }

  lemma ImageIsReported(rel: Relevance, results: map<Image, ScanResult>, vuls: VulnerabilityMap, c: CVEInfo,
                        r: ImageResult)
    requires c.id in vuls && WellKept(vuls[c.id], c.id) && IsCVEInfo(c, vuls[c.id])
    requires TargetsIn(vuls, c.id, r.image) == TargetsOf(Shown(rel, results, r.image), c.id)
    ensures r in c.results <==>
      && TargetsOf(Shown(rel, results, r.image), c.id) != []
      && r.targets == multiset(TargetsOf(Shown(rel, results, r.image), c.id))
  {}

  lemma OccurrenceOverResults(rel: Relevance, results: map<Image, ScanResult>, vuls: VulnerabilityMap, cve: CVE)
    requires cve in vuls && WellKept(vuls[cve], cve)
    requires forall img :: TargetsIn(vuls, cve, img) == TargetsOf(Shown(rel, results, img), cve)
    ensures Sum(vuls[cve].perImage.Keys, img => if img in vuls[cve].perImage then |vuls[cve].perImage[img]| else 0)
         == CVEOccurrence(rel, results, cve)
  {
    var perImage := vuls[cve].perImage;
    var f := img => if img in perImage then |perImage[img]| else 0;
    var g := img => |TargetsOf(Shown(rel, results, img), cve)|;
    forall img
      ensures f(img) == g(img) && (img in perImage ==> img in results)
    {
      assert TargetsIn(vuls, cve, img) == TargetsOf(Shown(rel, results, img), cve);
    }
    SumSame(perImage.Keys, f, g);
    SumSupport(perImage.Keys, results.Keys, g);
  }

  lemma CVEsAreReported(rel: Relevance, results: map<Image, ScanResult>, vuls: VulnerabilityMap, seen: Seen,
                        cves: seq<CVEInfo>)
    requires SeenMatches(rel, results, results.Keys, seen) && Merged(vuls, seen) && CVEsListed(cves, vuls)
    ensures ReportsCVEs(rel, results, cves)
  {
    forall c | c in cves
      ensures ReportsCVE(rel, results, c)
    {
      CVEIsReported(rel, results, vuls, seen, c);
    }
    forall img, cve | cve in CVEs(Shown(rel, results, img))
      ensures cve in vuls
    {
      SeenIsShown(rel, results, seen, img);
      TargetsOfEmpty(Shown(rel, results, img), cve);
      assert TargetsIn(vuls, cve, img) != [];
    }
  }

  /** Counting the values of a map is summing one per key. */
  lemma {:induction false} CountIsSum(risks: map<CVE, Severity>, keys: set<CVE>, sev: Severity)
    requires keys <= risks.Keys
    ensures CountAmong(risks, keys, sev) == Sum(keys, cve => if cve in risks && risks[cve] == sev then 1 else 0)
    decreases keys
  {
    var f := (cve: CVE) => if cve in risks && risks[cve] == sev then 1 else 0;
    if keys == {} {
    } else {
      var cve :| cve in keys;
      CountIsSum(risks, keys - {cve}, sev);
      CountOneMore(risks, keys - {cve}, cve, sev);
      assert keys - {cve} + {cve} == keys;
      SumTake(keys, cve, f);
    }
  }

  lemma CountsAreReported(vuls: VulnerabilityMap, cves: seq<CVEInfo>, sev: Severity)
    requires CVEsListed(cves, vuls)
    ensures CountCVEs(cves, sev) == CountValue(map c | c in vuls :: vuls[c].severity, sev)
  {
    var risks := map c | c in vuls :: vuls[c].severity;
    var one := (c: CVEInfo) => if c.severity == sev then 1 else 0;
    var g := (cve: CVE) => if cve in risks && risks[cve] == sev then 1 else 0;
    var key := (c: CVEInfo) => c.id;
    assert risks.Keys == vuls.Keys;
    SumSeqByKey(cves, key, one, g);
    CountIsSum(risks, risks.Keys, sev);
  }

  lemma OccurrencesAreNatural(rel: Relevance, results: map<Image, ScanResult>, imgs: set<Image>, sev: Severity)
    ensures OccurrenceAmong(rel, results, imgs, sev) >= 0
    ensures forall img <- imgs ::
      OccurrenceAmong(rel, results, imgs, sev) >= CountSeverity(Shown(rel, results, img), sev)
  {
    SumOfNaturals(imgs, img => CountSeverity(Shown(rel, results, img), sev));
  }

  lemma StatsAreReported(rel: Relevance, results: map<Image, ScanResult>, total: map<Severity, int>,
                         vuls: VulnerabilityMap, cves: seq<CVEInfo>, stats: map<Severity, RiskStats>)
    requires TotalsMatch(rel, results, results.Keys, total) && CVEsListed(cves, vuls)
    requires IsStats(stats, total, map c | c in vuls :: vuls[c].severity)
    ensures ReportsStats(rel, results, cves, stats)
  {
    forall sev: Severity
      ensures CountOf(stats, sev) == CountCVEs(cves, sev)
      ensures sev in stats <==> OccurrenceOf(stats, sev) > 0 || CountOf(stats, sev) > 0
    {
      CountsAreReported(vuls, cves, sev);
      assert sev in total <==> At(total, sev) > 0;
    }
  }

  /** The response for every order in which the results, the CVEs and their images are visited. */
  method GenerateReports(rel: Relevance, results: map<Image, ScanResult>) returns (resp: Response)
    ensures IsReport(rel, results, resp)
  {
    var total, imginfos, vuls;
    ghost var seen;
    total, imginfos, vuls, seen := FoldResults(rel, results);
    KeysAreOwnNames(rel, results, imginfos, vuls, seen);
    var images := SortImageInfos(imginfos);
    var stats := StatsFrom(total, map c | c in vuls :: vuls[c].severity);
    var cves := SortCVEs(vuls);
    ImagesAreReported(rel, results, imginfos, images);
    CVEsAreReported(rel, results, vuls, seen, cves);
    StatsAreReported(rel, results, total, vuls, cves, stats);
    resp := Response(images, stats, cves);
  }

  lemma KeysAreOwnNames(rel: Relevance, results: map<Image, ScanResult>, imginfos: map<Image, ImageInfo>,
                        vuls: VulnerabilityMap, seen: Seen)
    requires InfosMatch(rel, results, results.Keys, imginfos) && Merged(vuls, seen)
    ensures forall img <- imginfos :: imginfos[img].image == img
    ensures forall cve <- vuls :: vuls[cve].id == cve
  {
    forall img | img in imginfos
      ensures imginfos[img].image == img
    {
      assert IsImageInfo(rel, results, img, imginfos[img]);
    }
    forall cve | cve in vuls
      ensures vuls[cve].id == cve
    {
      assert WellKept(vuls[cve], cve);
    }
  }

  // ---------------------------------------------------------------- conservation

  /** For every severity the total is the sum over the listed images. */
  lemma TotalIsSumOverImages(rel: Relevance, results: map<Image, ScanResult>, resp: Response, sev: Severity)
    requires IsReport(rel, results, resp)
    ensures OccurrenceOf(resp.stats, sev) == SumSeq(resp.images, (ii: ImageInfo) => OccurrenceOf(ii.stats, sev))
  {
    var key := (ii: ImageInfo) => ii.image;
    var f := (ii: ImageInfo) => OccurrenceOf(ii.stats, sev);
    var g := img => CountSeverity(Shown(rel, results, img), sev) as int;
    forall ii | ii in resp.images
      ensures f(ii) == g(key(ii)) && key(ii) in results
    {
      assert IsImageInfo(rel, results, ii.image, ii);
    }
    SumSeqByKey(resp.images, key, f, g);
    forall img | img !in KeysOf(resp.images, key)
      ensures g(img) == 0
    {
      assert !Listed(rel, results, img);
    }
    SumSupport(KeysOf(resp.images, key), results.Keys, g);
    SumSame(results.Keys, g, img => CountSeverity(Shown(rel, results, img), sev));
  }

  /** The number of findings the report is about. */
  ghost function AllFindings(rel: Relevance, results: map<Image, ScanResult>): int {
    Sum(results.Keys, img => |Shown(rel, results, img)|)
  }

  /** The total over all severities is the total over all CVEs: both count every finding once. */
  lemma SeveritiesAndCVEsAgree(rel: Relevance, results: map<Image, ScanResult>, resp: Response)
    requires IsReport(rel, results, resp)
    ensures Sum(resp.stats.Keys, sev => OccurrenceOf(resp.stats, sev)) == AllFindings(rel, results)
    ensures SumSeq(resp.cves, (c: CVEInfo) => c.occurrence) == AllFindings(rel, results)
  {
    SeveritiesCountFindings(rel, results, resp.stats.Keys) by {
      forall img | img in results
        ensures Severities(Shown(rel, results, img)) <= resp.stats.Keys
      {
        SeveritiesAreKeys(rel, results, resp, img);
      }
    }
    SumSame(resp.stats.Keys, sev => OccurrenceOf(resp.stats, sev),
            sev => OccurrenceAmong(rel, results, results.Keys, sev));
    var key := (c: CVEInfo) => c.id;
    CVEsCountFindings(rel, results, KeysOf(resp.cves, key));
    SumSeqByKey(resp.cves, key, (c: CVEInfo) => c.occurrence, cve => CVEOccurrence(rel, results, cve));
  }

  lemma SeveritiesCountFindings(rel: Relevance, results: map<Image, ScanResult>, sevs: set<Severity>)
    requires forall img <- results :: Severities(Shown(rel, results, img)) <= sevs
    ensures Sum(sevs, sev => OccurrenceAmong(rel, results, results.Keys, sev)) == AllFindings(rel, results)
  {
    var at := (sev, img) => CountSeverity(Shown(rel, results, img), sev) as int;
    var bySev := sev => OccurrenceAmong(rel, results, results.Keys, sev);
    var byImage := img => |Shown(rel, results, img)|;
    forall img | img in results
      ensures byImage(img) == ColumnSum(sevs, at, img)
    {
      SumOverSeverities(Shown(rel, results, img), sevs);
      ColumnIs(sevs, at, img, sev => CountSeverity(Shown(rel, results, img), sev));
    }
    forall sev
      ensures bySev(sev) == RowSum(results.Keys, at, sev)
    {
      RowIs(results.Keys, at, sev, img => CountSeverity(Shown(rel, results, img), sev));
    }
    SumSwap(sevs, results.Keys, at, bySev, byImage);
  }

  lemma SeveritiesAreKeys(rel: Relevance, results: map<Image, ScanResult>, resp: Response, img: Image)
    requires ReportsStats(rel, results, resp.cves, resp.stats) && img in results
    ensures Severities(Shown(rel, results, img)) <= resp.stats.Keys
  {
    forall sev | sev in Severities(Shown(rel, results, img))
      ensures sev in resp.stats
    {
      CountSeverityZero(Shown(rel, results, img), sev);
      OccurrencesAreNatural(rel, results, results.Keys, sev);
    }
  }

  lemma CVEsCountFindings(rel: Relevance, results: map<Image, ScanResult>, ids: set<CVE>)
    requires forall img :: CVEs(Shown(rel, results, img)) <= ids
    ensures Sum(ids, cve => CVEOccurrence(rel, results, cve)) == AllFindings(rel, results)
  {
    var at := (cve, img) => |TargetsOf(Shown(rel, results, img), cve)|;
    var byCVE := cve => CVEOccurrence(rel, results, cve);
    var byImage := img => |Shown(rel, results, img)|;
    forall img
      ensures byImage(img) == ColumnSum(ids, at, img)
    {
      SumOverCVEs(Shown(rel, results, img), ids);
      ColumnIs(ids, at, img, cve => |TargetsOf(Shown(rel, results, img), cve)|);
    }
    forall cve
      ensures byCVE(cve) == RowSum(results.Keys, at, cve)
    {
      RowIs(results.Keys, at, cve, img => |TargetsOf(Shown(rel, results, img), cve)|);
    }
    SumSwap(ids, results.Keys, at, byCVE, byImage);
  }

  /** The counts over all severities add up to the number of distinct CVEs, in the totals and in
      every image. */
  lemma CountsAddUp(rel: Relevance, results: map<Image, ScanResult>, resp: Response)
    requires IsReport(rel, results, resp)
    ensures Sum(resp.stats.Keys, sev => CountOf(resp.stats, sev)) == |resp.cves|
    ensures forall ii <- resp.images ::
      Sum(ii.stats.Keys, sev => CountOf(ii.stats, sev)) == |CVEs(Shown(rel, results, ii.image))|
  {
    forall c | c in resp.cves
      ensures c.severity in resp.stats
    {
      CVEHasSeverity(rel, results, resp, c);
    }
    CountCVEsAddUp(resp.cves, resp.stats.Keys);
    SumSame(resp.stats.Keys, sev => CountOf(resp.stats, sev), sev => CountCVEs(resp.cves, sev));
    forall ii | ii in resp.images
      ensures Sum(ii.stats.Keys, sev => CountOf(ii.stats, sev)) == |CVEs(Shown(rel, results, ii.image))|
    {
      assert IsImageInfo(rel, results, ii.image, ii);
      ImageCountsAddUp(ii.stats, Shown(rel, results, ii.image));
    }
  }

  lemma CVEHasSeverity(rel: Relevance, results: map<Image, ScanResult>, resp: Response, c: CVEInfo)
    requires IsReport(rel, results, resp) && c in resp.cves
    ensures c.severity in resp.stats
  {
    assert ReportsCVE(rel, results, c);
    var img :| FirstGives(Shown(rel, results, img), c.id, c.severity);
    var f := FirstIsSome(Shown(rel, results, img), c.id, c.severity);
    SeveritiesAreKeys(rel, results, resp, img);
  }

  lemma ImageCountsAddUp(stats: map<Severity, RiskStats>, fs: seq<Finding>)
    requires IsImageStats(stats, fs)
    ensures Sum(stats.Keys, sev => CountOf(stats, sev)) == |CVEs(fs)|
  {
    var risks := RiskByCVE(fs);
    ValuesAreKeys(risks, stats);
    SumOverValues(risks, stats.Keys);
    SumSame(stats.Keys, sev => CountOf(stats, sev), sev => CountValue(risks, sev));
  }

  lemma ValuesAreKeys(risks: map<CVE, Severity>, stats: map<Severity, RiskStats>)
    requires forall sev :: CountValue(risks, sev) > 0 ==> sev in stats
    ensures risks.Values <= stats.Keys
  {
    forall sev | sev in risks.Values
      ensures sev in stats
    {
      var cve :| cve in risks && risks[cve] == sev;
      CountOneMore(risks, risks.Keys - {cve}, cve, sev);
      assert risks.Keys - {cve} + {cve} == risks.Keys;
    }
  }

  lemma {:induction false} CountCVEsAddUp(cves: seq<CVEInfo>, sevs: set<Severity>)
    requires forall c <- cves :: c.severity in sevs
    ensures Sum(sevs, sev => CountCVEs(cves, sev)) == |cves|
  {
    var f := sev => CountCVEs(cves, sev);
    if cves == [] {
      SumConst(sevs, f, 0);
    } else {
      var init, last := cves[..|cves| - 1], cves[|cves| - 1];
      assert cves == init + [last];
      var g := sev => CountCVEs(init, sev);
      CountCVEsAddUp(init, sevs);
      SumDiffersAt(sevs, last.severity, g, f);
    }
  }

  // ---------------------------------------------------------------- one CVE against the full report

  lemma {:induction false} KeepEverything(fs: seq<Finding>)
    ensures Keep(Everything, fs) == fs
  {
    if fs != [] {
      KeepEverything(fs[..|fs| - 1]);
      assert fs == fs[..|fs| - 1] + [fs[|fs| - 1]];
    }
  }

  lemma KeepOnlyOneMore(fs: seq<Finding>, f: Finding, cve: CVE, other: CVE)
    ensures TargetsOf(Keep(OnlyCVE(cve), fs + [f]), other) ==
              TargetsOf(Keep(OnlyCVE(cve), fs), other) + if f.vuln.id == cve == other then [f.place] else []
  {
    KeepOne(OnlyCVE(cve), fs, f);
    if f.vuln.id == cve {
      TargetsOfOneMore(Keep(OnlyCVE(cve), fs), f, other);
    } else {
      assert Keep(OnlyCVE(cve), fs) + [] == Keep(OnlyCVE(cve), fs);
    }
  }

  lemma {:induction false} KeepOnlyCVE(fs: seq<Finding>, cve: CVE, other: CVE)
    ensures TargetsOf(Keep(OnlyCVE(cve), fs), other) == if other == cve then TargetsOf(fs, cve) else []
  {
    if fs != [] {
      var init, last := fs[..|fs| - 1], fs[|fs| - 1];
      assert fs == init + [last];
      KeepOnlyCVE(init, cve, other);
      KeepOnlyOneMore(init, last, cve, other);
      TargetsOfOneMore(init, last, cve);
    }
  }

  lemma {:induction false} InSectionsHas(sections: seq<Section>, n: nat, cve: CVE)
    requires n <= |sections|
    ensures cve in CVEs(InSections(sections, n)) <==>
      exists i, j :: 0 <= i < n && 0 <= j < |sections[i].vulnerabilities| && sections[i].vulnerabilities[j].id == cve
  {
    if n > 0 {
      InSectionsHas(sections, n - 1, cve);
      var last := sections[n - 1];
      var tail := InSection(last, |last.vulnerabilities|);
      assert CVEs(InSections(sections, n)) == CVEs(InSections(sections, n - 1)) + CVEs(tail);
      if j :| 0 <= j < |last.vulnerabilities| && last.vulnerabilities[j].id == cve {
        assert tail[j] in tail;
      }
    }
  }

  /** An image is listed for one CVE exactly when its report is there and has the CVE. */
  lemma ListedForCVE(results: map<Image, ScanResult>, img: Image, cve: CVE)
    ensures Listed(OnlyCVE(cve), results, img) <==> img in results && cve in CVEs(FindingsOf(results[img]))
  {
    if img in results && !results[img].missing {
      InSectionsHas(results[img].sections, |results[img].sections|, cve);
    }
  }

  lemma ShownForCVE(results: map<Image, ScanResult>, img: Image, cve: CVE, other: CVE)
    ensures TargetsOf(Shown(OnlyCVE(cve), results, img), other) ==
              if other == cve then TargetsOf(Shown(Everything, results, img), cve) else []
    ensures Listed(OnlyCVE(cve), results, img) <==> TargetsOf(Shown(Everything, results, img), cve) != []
  {
    ListedForCVE(results, img, cve);
    if img in results {
      var fs := FindingsOf(results[img]);
      KeepEverything(fs);
      KeepOnlyCVE(fs, cve, other);
      TargetsOfEmpty(fs, cve);
    }
  }

  /** The report for one CVE lists no other CVE; it has the entry of the full report, with the same
      images, targets and occurrence, if the full report has one; and it lists exactly the images
      in which the full report places the CVE. */
  lemma FilteringCommutes(results: map<Image, ScanResult>, cve: CVE, full: Response, one: Response)
    requires IsReport(Everything, results, full) && IsReport(OnlyCVE(cve), results, one)
    ensures forall c <- one.cves :: c.id == cve
    ensures forall c <- full.cves :: c.id == cve ==>
              exists d <- one.cves :: d.occurrence == c.occurrence && d.results == c.results
    ensures one.cves != [] ==> exists c <- full.cves :: c.id == cve
    ensures forall img :: img in KeysOf(one.images, (ii: ImageInfo) => ii.image) <==>
              TargetsOf(Shown(Everything, results, img), cve) != []
  {
    forall c | c in one.cves
      ensures c.id == cve && exists d :: d in full.cves && d.id == cve
    {
      OnlyThatCVE(results, cve, full, one, c);
    }
    forall c | c in full.cves && c.id == cve
      ensures exists d :: d in one.cves && d.occurrence == c.occurrence && d.results == c.results
    {
      var d := SameEntry(results, cve, full, one, c);
    }
    if one.cves != [] {
      assert one.cves[0] in one.cves;
    }
    ImagesWithCVE(results, cve, one);
  }

  lemma OnlyThatCVE(results: map<Image, ScanResult>, cve: CVE, full: Response, one: Response, c: CVEInfo)
    requires IsReport(Everything, results, full) && IsReport(OnlyCVE(cve), results, one) && c in one.cves
    ensures c.id == cve && exists d :: d in full.cves && d.id == cve
  {
    assert ReportsCVE(OnlyCVE(cve), results, c);
    var img :| FirstGives(Shown(OnlyCVE(cve), results, img), c.id, c.severity);
    var f := FirstIsSome(Shown(OnlyCVE(cve), results, img), c.id, c.severity);
    TargetsOfEmpty(Shown(OnlyCVE(cve), results, img), c.id);
    ShownForCVE(results, img, cve, c.id);
    TargetsOfEmpty(Shown(Everything, results, img), cve);
    assert cve in KeysOf(full.cves, (c: CVEInfo) => c.id);
  }

  lemma SameEntry(results: map<Image, ScanResult>, cve: CVE, full: Response, one: Response, c: CVEInfo)
    returns (d: CVEInfo)
    requires IsReport(Everything, results, full) && IsReport(OnlyCVE(cve), results, one)
    requires c in full.cves && c.id == cve
    ensures d in one.cves && d.occurrence == c.occurrence && d.results == c.results
  {
    assert ReportsCVE(Everything, results, c);
    var img :| FirstGives(Shown(Everything, results, img), c.id, c.severity);
    var f := FirstIsSome(Shown(Everything, results, img), c.id, c.severity);
    TargetsOfEmpty(Shown(Everything, results, img), cve);
    ShownForCVE(results, img, cve, cve);
    TargetsOfEmpty(Shown(OnlyCVE(cve), results, img), cve);
    assert cve in KeysOf(one.cves, (c: CVEInfo) => c.id);
    d :| d in one.cves && d.id == cve;
    assert ReportsCVE(OnlyCVE(cve), results, d);
    assert SameTargets(OnlyCVE(cve), Everything, results, cve) by {
      forall i
        ensures TargetsOf(Shown(OnlyCVE(cve), results, i), cve) == TargetsOf(Shown(Everything, results, i), cve)
      {
        ShownForCVE(results, i, cve, cve);
      }
    }
    SameTargetsSameInfo(OnlyCVE(cve), Everything, results, d, c);
  }

  /** The full report lists every image, found or not, and shows every finding. */
  lemma FullReportIsComplete(results: map<Image, ScanResult>, resp: Response, img: Image)
    requires IsReport(Everything, results, resp)
    ensures KeysOf(resp.images, (ii: ImageInfo) => ii.image) == results.Keys
    ensures forall ii <- resp.images :: ii.image in results && (ii.found <==> !results[ii.image].missing)
    ensures img in results ==> Shown(Everything, results, img) == FindingsOf(results[img])
    ensures img in results ==> CVEs(FindingsOf(results[img])) <= KeysOf(resp.cves, (c: CVEInfo) => c.id)
  {
    forall x | x in results
      ensures x in KeysOf(resp.images, (ii: ImageInfo) => ii.image)
    {
      assert Listed(Everything, results, x);
    }
    forall ii | ii in resp.images
      ensures ii.image in results && (ii.found <==> !results[ii.image].missing)
    {
      assert IsImageInfo(Everything, results, ii.image, ii);
    }
    if img in results {
      KeepEverything(FindingsOf(results[img]));
    }
  }

  // ---------------------------------------------------------------- in what order

  const LEVELS: seq<Severity> := ["CRITICAL", "HIGH", "MEDIUM", "LOW", "UNKNOWN"]

  /** More severe CVEs come first, and by id within a level. A severity that is none of these is
      sorted with the critical ones. */
  lemma CVEsBySeverity(rel: Relevance, results: map<Image, ScanResult>, resp: Response, i: nat, j: nat)
    requires IsReport(rel, results, resp) && i < j < |resp.cves|
    ensures forall k, m | 0 <= k < |LEVELS| && 0 <= m < |LEVELS| ::
      resp.cves[i].severity == LEVELS[k] && resp.cves[j].severity == LEVELS[m] ==>
        k < m || (k == m && Less(resp.cves[i].id, resp.cves[j].id))
    ensures resp.cves[j].severity !in LEVELS ==>
      (resp.cves[i].severity !in LEVELS || resp.cves[i].severity == LEVELS[0]) && Less(resp.cves[i].id, resp.cves[j].id)
  {
    assert ByRank(resp.cves[i], resp.cves[j]);
    LevelsAreRanks();
    RankOfOthers(resp.cves[i].severity);
    RankOfOthers(resp.cves[j].severity);
  }

  lemma LevelsAreRanks()
    ensures forall k | 0 <= k < |LEVELS| :: Rank(LEVELS[k]) == k
  {
    assert LEVELS[0][0] == 'C' && LEVELS[1][0] == 'H' && LEVELS[2][0] == 'M';
    assert LEVELS[3][0] == 'L' && LEVELS[4][0] == 'U';
  }

  lemma RankOfOthers(sev: Severity)
    ensures sev !in LEVELS ==> Rank(sev) == 0
    ensures Rank(sev) == 0 ==> sev !in LEVELS || sev == LEVELS[0]
  {
    LevelsAreRanks();
    if sev in LEVELS {
      var k :| 0 <= k < |LEVELS| && LEVELS[k] == sev;
    } else {
      assert sev != LEVELS[1] && sev != LEVELS[2] && sev != LEVELS[3] && sev != LEVELS[4];
    }
  }

  /** Images are sorted by how many distinct CVEs they have whose last finding has one of the levels. */
  lemma ImagesByCVEs(stats: map<Severity, RiskStats>, fs: seq<Finding>)
    requires IsImageStats(stats, fs)
    ensures CalculateVulnerabilities(stats) == |set cve | cve in CVEs(fs) && RiskByCVE(fs)[cve] in LEVELS|
  {
    var risks := RiskByCVE(fs);
    var levels: set<Severity> := {LEVELS[0], LEVELS[1], LEVELS[2], LEVELS[3], LEVELS[4]};
    KnownValues(risks, levels);
    SumOverValues(Known(risks), levels);
    forall sev | sev in levels
      ensures CountValue(Known(risks), sev) == CountOf(stats, sev)
    {
      CountKnown(risks, sev);
    }
    SumSame(levels, sev => CountValue(Known(risks), sev), sev => CountOf(stats, sev));
    LevelsDiffer();
    SumOverFive(LEVELS[0], LEVELS[1], LEVELS[2], LEVELS[3], LEVELS[4], sev => CountOf(stats, sev));
    assert Known(risks).Keys == set cve | cve in CVEs(fs) && RiskByCVE(fs)[cve] in LEVELS;
  }

  function Known(risks: map<CVE, Severity>): map<CVE, Severity> {
    map cve | cve in risks && risks[cve] in LEVELS :: risks[cve]
  }

  lemma KnownValues(risks: map<CVE, Severity>, levels: set<Severity>)
    requires forall sev <- LEVELS :: sev in levels
    ensures Known(risks).Values <= levels
  {}

  lemma CountKnown(risks: map<CVE, Severity>, sev: Severity)
    requires sev in LEVELS
    ensures CountValue(Known(risks), sev) == CountValue(risks, sev)
  {
    CountSame(Known(risks), risks, sev);
  }

  lemma LevelsDiffer()
    ensures forall j, k | 0 <= j < k < |LEVELS| :: LEVELS[j] != LEVELS[k]
  {
    LevelsAreRanks();
  }

  lemma SumOverFive<T(!new)>(a: T, b: T, c: T, d: T, e: T, f: T -> int)
    requires Distinct([a, b, c, d, e])
    ensures Sum({a, b, c, d, e}, f) == f(a) + f(b) + f(c) + f(d) + f(e)
  {
    var all := [a, b, c, d, e];
    assert all[0] != all[1] && all[0] != all[2] && all[0] != all[3] && all[0] != all[4] && all[1] != all[2];
    assert all[1] != all[3] && all[1] != all[4] && all[2] != all[3] && all[2] != all[4] && all[3] != all[4];
    assert Sum({}, f) == 0;
    SumAdd({}, a, f);
    SumAdd({a}, b, f);
    SumAdd({a, b}, c, f);
    SumAdd({a, b, c}, d, f);
    SumAdd({a, b, c, d}, e, f);
    assert {} + {a} == {a} && {a} + {b} == {a, b} && {a, b} + {c} == {a, b, c};
    assert {a, b, c} + {d} == {a, b, c, d} && {a, b, c, d} + {e} == {a, b, c, d, e};
  }

  /** The two reports find the same targets of the CVE in every image. */
  ghost predicate SameTargets(rel: Relevance, rel': Relevance, results: map<Image, ScanResult>, cve: CVE) {
    forall img :: TargetsOf(Shown(rel, results, img), cve) == TargetsOf(Shown(rel', results, img), cve)
  }

  lemma SameTargetsSameOccurrence(rel: Relevance, rel': Relevance, results: map<Image, ScanResult>, cve: CVE)
    requires SameTargets(rel, rel', results, cve)
    ensures CVEOccurrence(rel, results, cve) == CVEOccurrence(rel', results, cve)
  {
    SumSame(results.Keys, img => |TargetsOf(Shown(rel, results, img), cve)|,
            img => |TargetsOf(Shown(rel', results, img), cve)|);
  }

  lemma SameTargetsSameImages(rel: Relevance, rel': Relevance, results: map<Image, ScanResult>, c: CVEInfo, d: CVEInfo)
    requires ReportsCVE(rel, results, c) && ReportsCVE(rel', results, d) && c.id == d.id
    requires SameTargets(rel, rel', results, c.id)
    ensures forall r :: r in c.results <==> r in d.results
  {
    forall r
      ensures r in c.results <==> r in d.results
    {
      assert TargetsOf(Shown(rel, results, r.image), c.id) == TargetsOf(Shown(rel', results, r.image), c.id);
    }
  }

  /** What is reported of a CVE depends on its targets only. */
  lemma SameTargetsSameInfo(rel: Relevance, rel': Relevance, results: map<Image, ScanResult>, c: CVEInfo, d: CVEInfo)
    requires ReportsCVE(rel, results, c) && ReportsCVE(rel', results, d) && c.id == d.id
    requires SameTargets(rel, rel', results, c.id)
    ensures c.occurrence == d.occurrence && c.results == d.results
  {
    SameTargetsSameOccurrence(rel, rel', results, c.id);
    SameTargetsSameImages(rel, rel', results, c, d);
    SameList(c.results, d.results);
  }

  lemma SameList(a: seq<ImageResult>, b: seq<ImageResult>)
    requires StrictlySorted(ByImage, a) && StrictlySorted(ByImage, b) && forall r :: r in a <==> r in b
    ensures a == b
  {
    ByImageIsStrictWeak();
    StrictlySortedIsUnique(ByImage, a, b);
  }

  lemma ImagesWithCVE(results: map<Image, ScanResult>, cve: CVE, one: Response)
    requires IsReport(OnlyCVE(cve), results, one)
    ensures forall img :: img in KeysOf(one.images, (ii: ImageInfo) => ii.image) <==>
              TargetsOf(Shown(Everything, results, img), cve) != []
  {
    forall img
      ensures img in KeysOf(one.images, (ii: ImageInfo) => ii.image) <==>
        TargetsOf(Shown(Everything, results, img), cve) != []
    {
      ShownForCVE(results, img, cve, cve);
      assert forall ii <- one.images :: IsImageInfo(OnlyCVE(cve), results, ii.image, ii);
    }
  }

  /** The order of the CVE list is fixed by what it contains: two reports that give each CVE the
      same severity list the same CVEs, with the same images and numbers, in the same order. */
  lemma CVEOrderIsFixed(rel: Relevance, results: map<Image, ScanResult>, a: Response, b: Response)
    requires IsReport(rel, results, a) && IsReport(rel, results, b)
    requires forall c, d | c in a.cves && d in b.cves && c.id == d.id :: c.severity == d.severity
    ensures a.cves == b.cves
  {
    SameCVEs(rel, results, a, b);
    SameCVEs(rel, results, b, a);
    ByRankIsStrictWeak();
    StrictlySortedIsUnique(ByRank, a.cves, b.cves);
  }

  lemma SameCVEs(rel: Relevance, results: map<Image, ScanResult>, a: Response, b: Response)
    requires IsReport(rel, results, a) && IsReport(rel, results, b)
    requires forall c, d | c in a.cves && d in b.cves && c.id == d.id :: c.severity == d.severity
    ensures forall c <- a.cves :: c in b.cves
  {
    forall c | c in a.cves
      ensures c in b.cves
    {
      assert ReportsCVE(rel, results, c);
      var img :| FirstGives(Shown(rel, results, img), c.id, c.severity);
      var f := FirstIsSome(Shown(rel, results, img), c.id, c.severity);
      assert f.vuln.id in KeysOf(b.cves, (c: CVEInfo) => c.id);
      var d :| d in b.cves && d.id == c.id;
      assert ReportsCVE(rel, results, d);
      SameTargetsSameInfo(rel, rel, results, c, d);
    }
  }
}
