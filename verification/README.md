# Verification of the UI server's graph, reports, quotas and feature state

A Dafny model of the parts of the repository that keep state or compute something that several
places must agree on, with proofs of what they promise. `dafny verify dfyconfig.toml` checks all of it.

| module | models |
|---|---|
| `ObjectIds` | object identifiers: printing an id as a key and parsing the key back |
| `ObjectGraphs`, `GraphReconciler` | the mutable adjacency index, `Update` and `Delete`, and whole runs of reconciles |
| `Traversals`, `ResourceGraphs` | the two worklist traversals, `Links`, and the response of `resourceGraph` |
| `GraphQueries` | what these queries see of a graph that reconciles have built |
| `ScanPipeline` | `collectReports` as a protocol: producer, workers, waiter, collector, cancel on the first error |
| `Findings`, `CveReports` | `GenerateReports`: totals, per-image statistics, per-CVE targets, sorting |
| `NamespaceMetrics` | the per-namespace CVE counters of the metrics handler |
| `ResourceLists`, `Calculators` | resource arithmetic, and what an object uses, role by role |
| `QuotaRules`, `QuotaTurns`, `ProjectQuotas` | the memoised quota status, and the turns of repeated group-wide rules |
| `QuotaAdmission` | admission against the status |
| `Connections`, `References` | `ResourcesFor` for selector and reference connections, forward and backward |
| `NameTemplates` | filling a name template and reading the name back with `ExtractName` |
| `ObjectPaths` | `appendObjects`, `List` and `Locate`: following a path of edges |
| `PolicyReports` | matching policy violations against a resource graph |
| `Features` | feature set entries and status, dependents, required workloads |
| `Sums`, `Sorting` | finite sums over sets; Go's string order and `sort.Slice` |

Conventions. Go map iteration is an arbitrary choice, so every result holds for every order. Code
that changes state is a class or a method with loops, proved against a relation or a function; the
theorems are lemmas about those. Quantities are unbounded integers. What a client call, a field
path, a label selector or a reference expression gives is a function parameter or part of an
immutable store, errors included.

Where the code does not do what its comments or its callers expect, the model follows the code, a
lemma gives the exact condition, and where helpful a second one gives an input:

- A mutual claim under one label loses its link when the current owner withdraws
  (`GraphReconciler.UpdateKeepsFaithful`, `GraphReconciler.WithdrawnMutualClaim`). No two of the shipped resource
  descriptors claim each other under one label, so this takes descriptors that are added.
- A repeated quota rule for a type is charged only what the last namespace uses, and an invalid type invalidates
  it, though not the first rule that names the type (`ProjectQuotas.RepeatedRuleUndercounts`,
  `ProjectQuotas.CalculateStatus`).
- Repeated rules for a group take turns. The first that is still valid adds up what all types use and leaves the
  status of one of them behind, the last visited without a rule of its own before; the later ones take that over
  (`ProjectQuotas.RepeatedGroupRule`, `ProjectQuotas.RepeatedGroupCharge`). So an invalid type invalidates the
  first of them but need not invalidate the next: that depends on the order in which types are visited
  (`QuotaTurns.MaySurviveIff`, `QuotaTurns.SecondMaySurviveIff`, `ProjectQuotas.InvalidGroupExample`).
- An operation on a database is admitted by what its default role will use, while the status charges all roles of
  the application. Whatever the other roles use is not held against the limits, so a sharded database can be scaled
  past them (`QuotaAdmission.AdmissionIsExactIff`, `QuotaAdmission.ShardedScalingEscapes`).
- Status and admission prefix resource names differently when they contain a dot (`ResourceLists.PrefixingAgrees`),
  but that branch is never taken: calculators give cpu, memory and storage only (`Calculators.UsageHasNoDots`).
- The violation filter searches a list with a predicate that is not monotone, so it misses the lower half
  of the types and more (`PolicyReports.SpineIsHalving`, `PolicyReports.LowerHalfIsDropped`,
  `PolicyReports.PlainForAllConnectionsIff`).
- An empty namespace list means "no namespace", although the comment above `Namespaces` says all
  (`Connections.EmptyListRelatesNothing`); and "" beside other names, or a list without "" for a target
  that has no namespace, is read differently in the two directions (`Connections.SelectorDirectionsAgree`,
  `Connections.WildcardAmongOthers`).
- An explicit namespace in a reference is not compared backward (`References.ReferenceDirections`,
  `References.ForeignNamespaceMatches`).
- A template with dots reads names it would not produce (`NameTemplates.ReadingInvertsIff`).
- The namespace metrics leave out findings of unknown severities
  (`NamespaceMetrics.EmittedOccurrencesAreComplete`), and which severity a CVE counts under depends on the
  order in which the images are visited, unless they agree (`NamespaceMetrics.OrderDoesNotMatterIff`).

## Model

| member | source | states |
|---|---|---|
| ObjectIds.RoundTrip | vendor/kmodules.xyz/client-go/api/v1/object.go:87-151 | parsing a printed key gives the id back exactly when kind and name are set and no field has a comma, '=' or space |
| ObjectIds.KeysAreInjective | vendor/kmodules.xyz/client-go/api/v1/object.go:87-159 | distinct printable ids have distinct keys, and the group-kind read from a key is the id's own |
| ObjectGraphs.ObjectGraph.Update | pkg/graph/graph.go:81-106 | symmetric storage with exactly one true end survives, and the owned links become: src's dropped, reversed ones taken over, the new ones added |
| ObjectGraphs.ObjectGraph.Delete | pkg/graph/graph.go:67-79 | the invariant survives, and every link that touches src is gone with src's own claims and no others |
| ObjectGraphs.ObjectGraph.SetEdge | pkg/graph/graph.go:108-119 | one position of the nested maps changes, all others stay |
| ObjectGraphs.ObjectGraph.DelEdge | pkg/graph/graph.go:121-129 | one position of the nested maps becomes absent, all others stay |
| ObjectGraphs.UpdateMeaning | pkg/graph/graph.go:81-106 | the entry-by-entry effect of the two loops is the simple relation's, and true flags stay backed by claims |
| ObjectGraphs.DeleteMeaning | pkg/graph/graph.go:67-79 | likewise for deletion |
| GraphReconciler.Reconcile | pkg/graph/reconciler.go:49-101 | a missing object loses its links and claims; one that is found, without discovery errors and, if a Service, exposed, claims exactly what resolved, and all of it is linked; otherwise the graph is untouched; and when the object is looked for again, after which delay, and when an error is returned |
| GraphReconciler.ReconcileMeaning | pkg/graph/reconciler.go:49-101 | the same on the relation, with what stays: links and claims of other objects |
| GraphReconciler.ReconcileAll | pkg/graph/reconciler.go:49-101 | any run of reconciles leaves the graph at the relation its operations compute |
| GraphReconciler.RunInvariant | pkg/graph/graph.go:67-129 | after every run a link has one owner, which currently claims it, and self-links are apart |
| GraphReconciler.IdsAreLastClaims | pkg/graph/graph.go:67-106 | the claims table holds each object's last claims |
| GraphReconciler.UpdateKeepsFaithful | pkg/graph/graph.go:81-106 | an update keeps the links equal to the claims exactly when src claims again its self-links and the links it owns that are also claimed from the other end |
| GraphReconciler.DeleteKeepsFaithful | pkg/graph/graph.go:67-79 | a deletion does exactly when nobody else claims the deleted object |
| GraphReconciler.CleanRunIsFaithful | pkg/graph/graph.go:67-129 | after a run that meets these conditions the links are the symmetric closure of the claims |
| GraphReconciler.Confluence | pkg/graph/graph.go:67-129 | such runs that end with the same claims end with the same links, whatever the order |
| GraphReconciler.UncontestedRunIsClean | pkg/graph/graph.go:81-106 | update-only runs in which nobody claims itself or claims back meet the conditions |
| GraphReconciler.UncontestedRunsConverge | pkg/graph/graph.go:81-106 | after such runs the whole graph, owners included, depends only on each object's last claims |
| GraphReconciler.UpdateIsIdempotent | pkg/graph/graph.go:81-106 | repeating an update changes nothing, and right after it every claim is a link |
| GraphReconciler.WithdrawnMutualClaim | pkg/graph/graph.go:81-106 | a run after which a current claim has no link |
| Traversals.ConnectedOIDs | pkg/graph/graph.go:162-187 | terminates; for every order each result has a typed path from a seed, the first seed is not returned, all its other neighbours are, and no neighbouring group-kind is missed |
| Traversals.TypedPathIsShort | pkg/graph/graph.go:162-187 | such a path is at most twice as long as there are group-kinds on it |
| Traversals.Links | pkg/graph/graph.go:131-160 | the links found are grouped by type, each once; direct labels start from src alone, others from its offshoots too, all direct ones among them; no type is missed that occurs next to src, an offshoot used or a link listed |
| Traversals.LinksFrom | pkg/graph/graph.go:145-160 | everything listed is found from src or a seed, each id once under its own type, src is left out, its direct neighbours are in, and no type next to any of these is missed |
| Traversals.NormIsUnordered | pkg/graph/graph.go:293-307 | the key of an edge stands for the unordered pair |
| Traversals.LabelEdges | pkg/graph/graph.go:288-317 | one node's allowed pairs get the label and exactly its unprocessed allowed neighbours are queued |
| Traversals.ConnectedEdges | pkg/graph/graph.go:279-320 | terminates with duplicates in the queue, returns the least closed set, and labels exactly the pairs of a member and an allowed neighbour |
| ResourceGraphs.Collect | pkg/graph/graph.go:208-227 | the offshoot component of src, and exactly the edges to be shown for the requested labels |
| ResourceGraphs.WhatIsShown | pkg/graph/graph.go:208-227 | offshoot edges are all and only those inside the component; every other edge is under a requested label and has an endpoint of a foreign group-kind |
| ResourceGraphs.OthersShownIff | pkg/graph/graph.go:208-227 | under any other label exactly the edges are shown that end a path from the component through foreign group-kinds, if the label is requested and not direct |
| ResourceGraphs.Encode | pkg/graph/graph.go:229-277 | decoding the response gives the collected connections back, one resource per group-kind, ids in range; it fails exactly when a type has no mapping |
| ResourceGraphs.ResolveTypes | pkg/graph/graph.go:245-256 | ids are positions in the list of mapped types, and resolution fails exactly at an unmapped type |
| ResourceGraphs.TypesAreDistinct | pkg/graph/graph.go:229-256 | no resource is listed twice |
| ResourceGraphs.ShownAreCanonical | pkg/graph/graph.go:258-272 | every endpoint shown parses, so encoding it cannot fail |
| ResourceGraphs.ResourceGraph | pkg/graph/graph.go:208-277 | the whole query: the decoded response is exactly what is to be shown for src, over one mapped resource per type, and there is none exactly when a type shown has no mapping |
| ResourceGraphs.ShownForIsUnique | pkg/graph/graph.go:208-227 | what is to be shown does not depend on the order of visits |
| GraphQueries.NeighboursAreLinks | pkg/graph/graph.go:108-129 | the stored neighbours are exactly the links of the relation |
| GraphQueries.RunsAnswerAlike | pkg/graph/graph.go:67-277 | runs of reconciles that keep links and claims together and end with equal claims answer every resource-graph query alike |
| GraphQueries.RunsAreCanonical | pkg/graph/graph.go:67-277 | if objects and claims are given by keys that parse, so are all neighbours, as the queries assume |
| ScanPipeline.StepInv | pkg/registry/scanner/reports/storage.go:143-216 | every step of producer, workers, waiter and collector keeps the protocol's invariant |
| ScanPipeline.Progress | pkg/registry/scanner/reports/storage.go:143-216 | with a worker, no state that has not returned is stuck |
| ScanPipeline.NoWorkersIsStuck | pkg/registry/scanner/reports/storage.go:143-216 | without workers only an outside cancellation helps |
| ScanPipeline.VariantDrops | pkg/registry/scanner/reports/storage.go:143-216 | every step lowers a variant |
| ScanPipeline.EveryRunReturns | pkg/registry/scanner/reports/storage.go:143-216 | every run takes at most 5 steps per image, 2 per worker and 5 more, and can only stop by returning |
| ScanPipeline.CollectReportsIsCorrect | pkg/registry/scanner/reports/storage.go:143-216 | at most one scan request per image; without an error the results are for exactly the images, missing exactly where the lookup answered that there is no report, with one request exactly there; a failed lookup never ends in reports, and an error comes only from a failed lookup or a cancellation from outside |
| ScanPipeline.OneWorkerPerImage | pkg/registry/scanner/reports/storage.go:143-216 | no image is in the hands of two workers, or in hand and also waiting or collected |
| ScanPipeline.FailureStays | vendor/golang.org/x/sync/errgroup/errgroup.go:55-102 | an error that occurred is never forgotten |
| Findings.FindingsAreAll | pkg/registry/scanner/reports/storage.go:284-296 | every vulnerability of every section of a report is one finding at its place, and there are no others |
| Findings.LastFindingDecides | pkg/registry/scanner/reports/storage.go:284-296 | the severity of a CVE in an image is that of its last finding |
| Findings.SumOverSeverities | pkg/registry/scanner/reports/storage.go:259-308 | the counts per severity add up to the findings |
| Findings.SumOverCVEs | pkg/registry/scanner/reports/storage.go:364-397 | the targets per CVE add up to the findings |
| CveReports.PopulateVulnerabilityInfoMap | pkg/registry/scanner/reports/storage.go:364-397 | the per-CVE, per-image target lists hold exactly the places of the findings seen, and the severity kept is that of the first finding in some image |
| CveReports.CountFinding | pkg/registry/scanner/reports/storage.go:286-293 | one finding is counted in every counter or, when it is not relevant, in none |
| CveReports.CountReport | pkg/registry/scanner/reports/storage.go:284-296 | one report's findings are counted into totals, image statistics and target lists together |
| CveReports.StatsFrom | pkg/registry/scanner/reports/storage.go:349-362 | occurrences and CVE counts per severity, with an entry exactly where one is positive |
| CveReports.ProcessVulnerabilityInfo | pkg/registry/scanner/reports/storage.go:462-483 | the images of a CVE in order, each once with its targets, and the occurrence as their total |
| CveReports.SortImageInfos | pkg/registry/scanner/reports/storage.go:415-434 | all images, sorted by their number of CVEs |
| CveReports.SortCVEs | pkg/registry/scanner/reports/storage.go:436-460 | all CVEs, strictly sorted by rank and id |
| CveReports.GenerateReports | pkg/registry/scanner/reports/storage.go:259-308 | for every iteration order the response is what a direct recount of the results says: images, CVEs and totals |
| CveReports.TotalIsSumOverImages | pkg/registry/scanner/reports/storage.go:259-308 | for every severity the total occurrence is the sum over the images |
| CveReports.SeveritiesAndCVEsAgree | pkg/registry/scanner/reports/storage.go:259-308 | the totals over severities and over CVEs count the same findings |
| CveReports.CountsAddUp | pkg/registry/scanner/reports/storage.go:349-413 | the counts add up to the number of distinct CVEs, in total and per image |
| CveReports.ListedForCVE | pkg/registry/scanner/reports/storage.go:241-257 | an image is listed for a CVE exactly when its report is there and has the CVE |
| CveReports.FullReportIsComplete | pkg/registry/scanner/reports/storage.go:259-308 | the full report lists every image, found or not, and every CVE of every report |
| CveReports.FilteringCommutes | pkg/registry/scanner/reports/storage.go:227-308 | the report for one CVE is the full report's entry for it, over exactly the images where the full report places it |
| CveReports.CVEsBySeverity | pkg/registry/scanner/reports/storage.go:436-460 | critical, high, medium, low and unknown CVEs come in this order, by id within a level; any other severity is sorted with the critical ones |
| CveReports.ImagesByCVEs | pkg/registry/scanner/reports/storage.go:426-434 | the number by which images are sorted is that of their distinct CVEs of these levels |
| CveReports.CVEOrderIsFixed | pkg/registry/scanner/reports/storage.go:436-460 | reports that agree on severities have equal CVE lists, order included |
| NamespaceMetrics.RootNamespaces | pkg/metricshandler/handler_scanner.go:246-250 | exactly the namespaces in which some chain ends |
| NamespaceMetrics.CountsIff | pkg/metricshandler/handler_scanner.go:246-252 | an image counts for a namespace exactly when it has a report and a chain that ends there |
| NamespaceMetrics.CountImage | pkg/metricshandler/handler_scanner.go:252-263 | one image's counters per severity and per CVE |
| NamespaceMetrics.CollectTables | pkg/metricshandler/handler_scanner.go:236-286 | per namespace and key the merged tables equal the recount over images with a report and a lineage root there, and the severity kept for a CVE is that of the last such image visited |
| NamespaceMetrics.CollectNamespaceCVEMetrics | pkg/metricshandler/handler_scanner.go:236-341 | the emitted values are that recount for every order of images and namespaces; the counts are those of the CVEs by the severity that stays in the order of the images |
| NamespaceMetrics.NamespaceTotalsAgree | pkg/metricshandler/handler_scanner.go:245-286 | per-CVE and per-severity totals of a namespace are both its number of findings |
| NamespaceMetrics.EmittedOccurrencesAreComplete | pkg/metricshandler/handler_scanner.go:288-341 | the emitted occurrences add up to the findings exactly when all severities are known ones |
| NamespaceMetrics.NamespaceCountsAddUp | pkg/metricshandler/handler_scanner.go:304-341 | the emitted counts add up to the distinct CVEs for every order of the images exactly when each image's last severity of every CVE is a known one |
| NamespaceMetrics.LastImageDecides | pkg/metricshandler/handler_scanner.go:265-276 | every severity some image gives a CVE is the one that stays in some order |
| NamespaceMetrics.MergedFromSome | pkg/metricshandler/handler_scanner.go:265-276 | and the one that stays is given by some image |
| NamespaceMetrics.OrderDoesNotMatterIff | pkg/metricshandler/handler_scanner.go:265-276 | the severities that stay are the same for all orders exactly when any two images that give a CVE give it the same severity |
| ResourceLists.AddResourceList | vendor/kmodules.xyz/resource-metrics/api/utils.go:60-87 | addition per resource, an absent resource counting as zero |
| ResourceLists.SubtractResourceList | vendor/kmodules.xyz/resource-metrics/api/utils.go:89-114 | subtraction per resource |
| ResourceLists.UsageOf | pkg/controllers/projectquota/projectquota_controller.go:319-341 | the status charges every request and limit under its prefixed name |
| ResourceLists.MergeRequestsLimits | pkg/registry/meta/resourcecalculator/helpers.go:81-101 | the demand holds every name with the amount of an entry stored under it, limits winning over requests; without dots it is the list the status charges |
| ResourceLists.PrefixingAgrees | pkg/registry/meta/resourcecalculator/helpers.go:81-101 | the two prefixings give the same names exactly when no resource name has a dot |
| Calculators.ResourceListForRoles | vendor/kmodules.xyz/resource-metrics/api/utils.go:34-58 | cpu, memory and storage summed over the roles, each absent where the sum is zero |
| Calculators.AppResources | vendor/kmodules.xyz/resource-metrics/api/interface.go:125-163 | of cpu, memory and storage what one pod of each application role asks for times its pods, added up, for requests and for limits; other resources are ignored, and zeros left out |
| Calculators.RoleTotals | vendor/kmodules.xyz/resource-metrics/api/interface.go:141-163 | per role the product of the two |
| Calculators.UsageByRoles | vendor/kmodules.xyz/resource-metrics/api/utils.go:34-58 | one role uses pods times what one asks for, and several use what each does, added up |
| Calculators.UsageHasNoDots | vendor/kmodules.xyz/resource-metrics/api/utils.go:34-58 | no name in what a calculator gives has a dot, whatever the object asks for |
| Calculators.DefaultRoleIsAllIff | vendor/kmodules.xyz/resource-metrics/ops.kubedb.com/v1alpha1/calculator.go:26-27 | what an operation counts is what the object uses exactly when its other roles use nothing |
| Calculators.NothingIsUsedIff | vendor/kmodules.xyz/resource-metrics/api/utils.go:34-58 | for amounts that are not negative, roles together use nothing exactly when each of them does |
| QuotaRules.UsedQuota | pkg/controllers/projectquota/projectquota_controller.go:291-361 | succeeds exactly when the type is namespaced and has a version with a calculator or no object there, with the true reason otherwise; the usage is the sum over its objects, and it fails exactly when one of them is broken |
| QuotaRules.TypeUsesIs | pkg/controllers/projectquota/projectquota_controller.go:319-341 | a type with a calculator is charged the sum over its objects, any other nothing |
| ProjectQuotas.CalculateStatus | pkg/controllers/projectquota/projectquota_controller.go:168-266 | with the memo and for every order of types, a rule no earlier rule repeats is charged the direct sum over namespaces and types or records a true reason; a repeated one, valid or not, has the result and charge of what it takes over |
| ProjectQuotas.FirstIsChargedInFull | pkg/controllers/projectquota/projectquota_controller.go:168-266 | the first rule for its types succeeds exactly when no namespace invalidates it, and is then charged the direct sum |
| ProjectQuotas.FirstSucceedsIff | pkg/controllers/projectquota/projectquota_controller.go:168-266 | a first group-wide rule succeeds exactly when in every namespace its types are there and each is namespaced and has a calculator or no object; one for a type when the type is there |
| ProjectQuotas.ChargeGroup | pkg/controllers/projectquota/projectquota_controller.go:209-242 | a group-wide rule reads the entries left by kind rules, is charged the sum over the group and leaves an entry of one type without one, unless all had one |
| ProjectQuotas.ChargeRule | pkg/controllers/projectquota/projectquota_controller.go:192-262 | one rule in one namespace: skipped, taken over from the memo or computed, with the memo it leaves |
| ProjectQuotas.OrderOfRulesDoesNotMatter | pkg/controllers/projectquota/projectquota_controller.go:168-266 | distinct rules get the same result and charge in any order |
| ProjectQuotas.RepeatedRuleUndercounts | pkg/controllers/projectquota/projectquota_controller.go:203-207 | a repeated kind rule is charged right exactly when all namespaces but the last use nothing |
| ProjectQuotas.RepeatedRuleExample | pkg/controllers/projectquota/projectquota_controller.go:203-207 | an input on which it is not |
| QuotaTurns.SurvivesIff | pkg/controllers/projectquota/projectquota_controller.go:203-236 | an occurrence of a group-wide rule is valid exactly when no more namespaces invalidate the rule than occurrences come before it and each of those leaves the status of a valid type behind |
| QuotaTurns.MaySurviveIff | pkg/controllers/projectquota/projectquota_controller.go:203-236 | for some order of types it is valid exactly when in each of those namespaces some type without an earlier rule of its own is valid |
| QuotaTurns.SecondMaySurviveIff | pkg/controllers/projectquota/projectquota_controller.go:203-236 | the second occurrence may be valid exactly when the rule is, or one namespace alone invalidates it and a type without an earlier rule is valid there |
| ProjectQuotas.RepeatedGroupResult | pkg/controllers/projectquota/projectquota_controller.go:203-236 | a repeated group-wide rule succeeds only if it may, and does when the rule is valid |
| ProjectQuotas.RepeatedGroupCharge | pkg/controllers/projectquota/projectquota_controller.go:203-236 | it is charged what one such type uses in the last namespace where it takes over, and the direct sum after that |
| ProjectQuotas.RepeatedGroupRule | pkg/controllers/projectquota/projectquota_controller.go:203-236 | a repeated valid group-wide rule is charged in full if all types had rules of their own before it; otherwise what one type uses in the last namespace, right exactly when all else uses nothing |
| ProjectQuotas.RepeatedGroupExample | pkg/controllers/projectquota/projectquota_controller.go:203-236 | one namespace and two types: the rule is charged 2 and its repetition 1 |
| ProjectQuotas.InvalidGroupExample | pkg/controllers/projectquota/projectquota_controller.go:203-236 | one namespace, one valid type and one not namespaced: the rule is invalid and its repetition succeeds with a charge of 1 |
| QuotaAdmission.ProjectQuota.Deduct | pkg/registry/meta/resourcecalculator/helpers.go:49-79 | the replaced object's demand is taken off exactly the valid rules about its type |
| QuotaAdmission.ProjectQuota.Check | pkg/registry/meta/resourcecalculator/storage.go:232-301 | allowed exactly when no limited resource of a matching rule is exceeded; the violations are exactly those exceeded |
| QuotaAdmission.Create | pkg/registry/meta/resourcecalculator/storage.go:127-144 | allowed means every applicable quota admits, denied that one does not; it fails exactly when there are quotas, the request is no creation and the object to be replaced is missing |
| QuotaAdmission.RuleAfter | pkg/controllers/projectquota/projectquota_controller.go:168-266 | applying a request moves a rule's direct sum by the change of the one object |
| QuotaAdmission.AdmissionIsExact | pkg/registry/meta/resourcecalculator/storage.go:127-301 | on a fresh status a quota admits a creation, an edit, or an operation on an object that uses its default role only, exactly when its valid rules about the type stay within their hard limits after it |
| QuotaAdmission.AdmissionIsExactIff | pkg/registry/meta/resourcecalculator/storage.go:232-301 | this holds under all limits exactly for those requests, or when no valid rule is about the type |
| QuotaAdmission.ShardedScalingEscapes | vendor/kmodules.xyz/resource-metrics/kubedb.com/v1/mongodb.go:44-52 | scaling a sharded MongoDB to any number of shards is admitted, and exceeds the limit exactly when there are more than before |
| QuotaAdmission.Decide | pkg/registry/meta/resourcecalculator/storage.go:127-144 | one quota: what is replaced is deducted with all its roles, then the demand is compared, for an operation that of the default role |
| QuotaAdmission.QuotaSafety | pkg/registry/meta/resourcecalculator/storage.go:127-301 | over every run of removals and admitted requests, of operations only those on objects that use their default role only, a cluster within its quotas stays within them |
| Connections.ForwardSelector | pkg/graph/lib.go:203-274 | fails exactly when something it reads is bad, and otherwise returns exactly the selected, connected objects in reach |
| Connections.BackwardSelector | pkg/graph/lib.go:384-462 | likewise for the sources of an object |
| Connections.ForwardIff | pkg/graph/lib.go:203-274 | what is found forward, by the kind of namespace the connection has |
| Connections.ConnectedIff | pkg/graph/lib.go:590-604 | the first controller is the owner, some owner is, or nothing is asked |
| Connections.SelectorDirectionsAgree | pkg/graph/lib.go:203-462 | the two directions relate the same pairs exactly when no fitting pair has a list read differently: "" beside other names and not the target's, or no "" for a target without a namespace |
| Connections.SelectorResultsAgree | pkg/graph/lib.go:203-462 | otherwise d is found from o forward exactly when o is found from d backward |
| Connections.EmptyListRelatesNothing | pkg/graph/lib.go:203-462 | an empty list of namespaces relates nothing in either direction |
| Connections.WildcardAmongOthers | pkg/graph/lib.go:203-462 | inputs of both kinds found forward and not backward |
| References.ForwardReferences | pkg/graph/lib.go:309-381 | exactly the existing, connected objects the references point at; fails exactly when a reference cannot be read or resolved |
| References.BackwardReferences | pkg/graph/lib.go:492-583 | exactly the listed sources with a matching reference; fails exactly when some source has an unreadable or unresolvable reference before its first match |
| References.ForwardIff | pkg/graph/lib.go:309-381 | found forward exactly when connected and named by a reference of the right type, in its namespace or else the source's |
| References.BackwardIff | pkg/graph/lib.go:492-583 | found backward exactly when listed, connected and named by such a reference; a namespace is compared only for references without one |
| References.ReferenceDirections | pkg/graph/lib.go:309-583 | for every connection: found forward implies found backward exactly when the source is listed; the converse exactly when a matching reference names no namespace or the target's; both or neither for targets without namespaces |
| References.ForeignNamespaceMatches | pkg/graph/lib.go:542-575 | an input found backward and not forward |
| NameTemplates.ReplacingFillsTheGaps | pkg/graph/lib.go:279 | ReplaceAll puts the name at every placeholder and changes nothing else |
| NameTemplates.ExtractsExactly | pkg/graph/lib.go:867-874 | exactly which names a template with one placeholder reads which name from |
| NameTemplates.RoundTrip | pkg/graph/lib.go:867-874 | the name put in is recovered exactly when it is within one line |
| NameTemplates.ReadingInvertsIff | pkg/graph/lib.go:867-874 | every name read would produce the object's name exactly when the template has no dot |
| NameTemplates.OnlyOnePlaceholderIsRead | pkg/graph/lib.go:867-874 | nothing is read with no placeholder or with several |
| ObjectPaths.AppendObjects | pkg/graph/lib.go:51-66 | one object per namespace and name, the last one |
| ObjectPaths.List | pkg/graph/lib.go:72-92 | exactly the iterated image of the start under the edges, without duplicate keys; fails exactly when resolving fails on the way |
| ObjectPaths.FindWalk | pkg/graph/lib.go:988-1024 | the named edges oriented into a connected walk from the locator's type, each forward exactly when it starts where the one before ends, or an error exactly when there is no walk |
| ObjectPaths.StepIsResolved | pkg/graph/lib.go:72-92 | an object of another type than the edge's source is refused, "not found" is passed over, everything else is the resolver's answer |
| ObjectPaths.WalksAreNeverRefused | pkg/graph/lib.go:196-199 | along such a walk the source-type check never fires |
| ObjectPaths.WalkIsUnique | pkg/graph/lib.go:995-1024 | there is at most one such walk |
| ObjectPaths.Locate | pkg/graph/lib.go:979-1054 | the object returned is the only one reached; none, several and failure are told apart |
| PolicyReports.Search | pkg/registry/policy/reports/storage.go:352-373 | binary search with an equality predicate finds an id exactly at the positions it probes |
| PolicyReports.SpineIsHalving | pkg/registry/policy/reports/storage.go:361-367 | in closed form these are n - (n+1)/2, n - (n+1)/4 and so on |
| PolicyReports.LowerHalfIsNeverFound | pkg/registry/policy/reports/storage.go:361-367 | no id in the lower half of the list is found |
| PolicyReports.LargestIsFound | pkg/registry/policy/reports/storage.go:361-367 | the largest id is |
| PolicyReports.Preprocess | pkg/registry/policy/reports/storage.go:327-350 | the map holds the last position of each violation type that is listed, and the list ascends through exactly these ids |
| PolicyReports.BuildMapFromConnections | pkg/registry/policy/reports/storage.go:352-373 | per id found by the search, exactly the endpoints with that id |
| PolicyReports.EvaluateForSingleConstraint | pkg/registry/policy/reports/storage.go:293-325 | in each scope the violations kept, in order |
| PolicyReports.KeptOfKnownType | pkg/registry/policy/reports/storage.go:293-315 | a violation of a known type is kept exactly when the plain filter keeps it and the search finds its id |
| PolicyReports.PlainIff | pkg/registry/policy/reports/storage.go:293-315 | the plain filter keeps a violation exactly when one end of a connection is its object |
| PolicyReports.EqualsPlainFilterIff | pkg/registry/policy/reports/storage.go:293-373 | the result is the plain filter's exactly when no violation is misjudged |
| PolicyReports.OneTypeIsPlain | pkg/registry/policy/reports/storage.go:293-373 | with one type the result is the plain filter's |
| PolicyReports.PlainForAllConnectionsIff | pkg/registry/policy/reports/storage.go:293-373 | the result is the plain filter's for all connections a resource graph may answer exactly when at most one type of the graph has violations and, if it has id 0, no violation is of a foreign type |
| PolicyReports.LowerHalfIsDropped | pkg/registry/policy/reports/storage.go:361-367 | every violation of a type in the lower half of the ids is dropped |
| PolicyReports.LargestTypeIsPlain | pkg/registry/policy/reports/storage.go:361-367 | violations of the type with the largest id are judged as by the plain filter |
| Features.FeatureSet.UpdateEntry | pkg/controllers/feature/feature_controller.go:444-469 | the entry of the feature is replaced or appended, names stay unique, and the status is recomputed |
| Features.FeatureSet.UpdateStatus | pkg/controllers/feature/feature_controller.go:471-484 | enabled, ready and note say exactly: some enabled; none enabled, all enabled ready, or the first that is not |
| Features.AllEnabledFeaturesReady | pkg/controllers/feature/helpers.go:83-110 | ready exactly when every enabled feature is, otherwise the first that is not is named |
| Features.ReadinessIs | pkg/controllers/feature/feature_controller.go:471-484 | ready is unset when nothing is enabled, and true exactly when every enabled feature says so |
| Features.EntriesAreLastReports | pkg/controllers/feature/feature_controller.go:444-469 | over any run of reports names stay unique and the entries are each feature's last report |
| Features.OrderOfReportsDoesNotMatter | pkg/controllers/feature/feature_controller.go:444-484 | enabled and ready depend on the last reports only, not on the order of the features |
| Features.UpdateEntries | pkg/controllers/feature/feature_controller.go:444-484 | the status is current after every run |
| Features.AddFeatureDependents | pkg/controllers/feature/dependency.go:78-92 | the (feature set, feature) pair is inserted, well-formedness kept |
| Features.RemoveFeatureDependents | pkg/controllers/feature/dependency.go:94-109 | the pair is deleted, well-formedness kept |
| Features.UpdateDependents | pkg/controllers/feature/dependency.go:57-109 | a run of changes inserts and deletes exactly its pairs |
| Features.LastChangeDecides | pkg/controllers/feature/dependency.go:57-109 | a pair is present exactly when its last change enabled it |
| Features.CheckGroup | pkg/controllers/feature/feature_controller.go:353-372 | required workloads are all needed, of an optional group one is |
| Features.CheckRequiredWorkloads | pkg/controllers/feature/feature_controller.go:346-391 | the answer is "ready" exactly when every group passes, in whatever order groups are visited; "not found" means a missing workload that is required or of an option with none, "not ready" one that exists in a group that is found, and an error a failed check |
| Features.AllReadyIff | pkg/controllers/feature/feature_controller.go:346-391 | groups pass exactly when no check failed, all required workloads are ready, and of each option one is |

## Left out

- API server wiring, storage boilerplate, flags, HTTP, rendering of metrics and dashboards, menus, layouts, licences and identity clients: plumbing over libraries.
- GraphQL, JSONPath, CSV, label-selector parsing and `ParseResourceRefs`: selectors, references and namespace fields are functions of an object.
- Client behaviour: lookups and lists are answered from an immutable store; apart from `GetFailed` in `Reconcile`, `LookupError` in the pipeline, malformed objects in the quota status, bad labels or fields and failed workload checks, client errors are not modelled.
- The lock of the object graph: each public method is one step.
- `links` and `render` hand out parsed ids; the model keeps the keys, which determine them for printable ids.
- Label lists of connections are sets here; the source sorts them. The caller's label slice is also modified in place by `resourceGraph`, which the model does not capture.
- Empty inner maps that deletion leaves behind are not told apart from absent ones.
- GK: the source panics on a key that does not parse; the model gives it the empty group-kind.
- Determinism of `connectedOIDs`: false in general, because pruning by group-kind depends on the order of visits.
- The exact set `connectedOIDs` returns beyond these bounds depends on that order, so `Links` is stated with paths and direct neighbours.
- Two-element string keys ("G=..,V=..,K=..", "NS=..,N=..") of the policy report are tuples here.
- Titles, URLs and image metadata of reports; of the images that disagree on the severity of a CVE any may decide.
- ProcessVulnerabilityInfo: keeps the targets of one image as a multiset, because the comparator that sorts them is not a weak order.
- collectClusterCVEMetrics, image and lineage metrics, and the order in which metrics are emitted.
- ListKinds: the API types are given; so are the namespaces of a quota and the quotas applicable to a request.
- The text of quota violations; the model names the rule and the resource.
- QuotaSafety: each admission sees a freshly computed status, removals are of types with a calculator (removing the last object of another type can make a rule valid again), and uses are not negative; operations on objects that use other roles are left out because they do not keep the limits.
- CalculateStatus: of several reasons that make a rule invalid any may be recorded.
- AdmissionIsExact: assumes pairwise distinct rules and namespaces and limits that are not negative.
- Calculators of the single types: the resources and pods per role are given; a type has the same application roles in all versions; of errors, a malformed object and a type without a calculator in the status are modelled. Requests whose own object is malformed or has no calculator, which fail, are not. Quantities are whole milli-units.
- Owner references: `findOwners` and `findChildren`; and fetching the object for a MatchName connection once its name is known.
- Namespaces: the label-selector mode lists namespaces and then discards the list, which the model leaves out beyond the error.
- ExtractName: is modelled for templates whose text is regex-literal or dots; other templates are regular expressions, and an invalid one panics.
- CheckRequiredWorkloads: which of "not found", "not ready" and "failed" is answered depends on the order of groups.
- Locate: the lookup of the locator's own object is a parameter; types are compared as parsed group-version-kinds.
- Feature reconciliation beyond the feature set entry: enabling conditions, dependencies, exclusion groups, finalizers and writing the status back.
