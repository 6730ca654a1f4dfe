# infra-deployments change-impact tools, modelled in Dafny

This project models the change-impact pipeline under `infra-tools/` and two maintenance scripts. It proves properties of each part.

The pipeline has three stages:
- it decides which environments and clusters a pull request affects;
- it labels the pull request accordingly;
- it renders every affected component on the head and base refs and reports the differences.

The scripts are the Kueue VM quota updater and the Quay image pruner.

Each Go or Python source file becomes one Dafny module:

- `AppSet` (`appset.dfy`): ApplicationSet path extraction: component paths and the cluster→paths map (`internal/appset/parse.go`).
- `Deptree` (`deptree.dfy`): the kustomize dependency walk over an in-memory file system (`internal/deptree/resolve.go`).
- `Detector` (`detector.dfy`): overlay validation, overlay render comparison, component resolution, change matching, cluster attribution and the static root-apps rule (`internal/detector/detector.go`).
- `DetectorLabels` (`detector_labels.dfy`): the sorted label projection of a detection result and its merged stream (`internal/detector/labels.go`).
- `GithubLabels` (`github_labels.dfy`): managed labels, label colours and `SyncLabels` over a recording issues service (`internal/github/labels.go`).
- `GithubComments` (`github_comments.dfy`): the marked-comment search over pages and the edit-or-create upsert over a comment list (`internal/github/comments.go`).
- `Normalize` (`normalize.dfy`): YAML stream normalisation by a stable sort on resource identity (`internal/renderdiff/normalize.go`).
- `RenderDiff` (`diff.dfy`): the per-component diff, its line counts and `FromComponentPath` (`internal/renderdiff/diff.go`).
- `RenderEngine` (`engine.dfy`): the render-diff engine: jobs, `buildPair`, collection and totals (`internal/renderdiff/engine.go`).
- `RenderDiffCli` (`render_diff_cli.dfy`): diff file names, their de-duplication, report order and the flag checks of `render-diff` (`cmd/render-diff/files.go`, `cmd/render-diff/main.go`).
- `EnvDetector` (`env_detector.dfy`): the required flags and the label list of `env-detector` (`cmd/env-detector/main.go`).
- `KueueQuotas` (`kueue_quotas.dfy`): host-config parsing, quota aggregation, grouping and the ClusterQueue rewrite (`hack/kueue-vm-quotas/update-kueue-vm-quotas.py`).
- `ImagePruner` (`image_pruner.dfy`): tag retention, artifact cascade and leftover cleanup (`.../image_pruner/prune_images.py`).

Shared modules:
- Wrappers: `Option`, `Result` and `Outcome`.
- Strs: Go `strings` and Python `str` operations.
- Ordering: code-point string order and lexicographic tuple keys. It also holds one stable sort, `SortBy`, that stands for every sort of the system.
- Paths: `filepath.Clean`, `Join`, `Rel` and `Ext` on Unix paths.
- Yaml: the decoded YAML value and node trees.

How the model is built:
- Objects whose fields the source updates in place are classes: the dependency resolver with its `deps` and `visited` maps, the detection result, the component diff, the engine, the fake issues and comments services, the `seen` counter, the quota table and the Quay repository.
- Their methods are proved against specification functions, and lemmas state what the source promises about those functions.
- External effects are inputs or recorded outputs:
  - the YAML library, kustomize and difflib are function parameters;
  - git and the file system are in-memory maps;
  - GitHub and Quay are objects that record their calls.

`Detect` has no early return when no file changed: it runs the full detection on an empty change list. Only the command-line tools stop early (see `Detector.NoChangedFilesStillDetects` and `EnvDetector.LabelsToSync`).

## Model

| member | source | states |
|---|---|---|
| AppSet.AppendCluster | infra-tools/internal/appset/parse.go:73 | the cluster map gains the key and exactly that key's list is extended, in order |
| AppSet.MergeClusters | infra-tools/internal/appset/parse.go:72-74 | merging two cluster maps appends every key's list of the second to the same key of the first, with the union of keys |
| AppSet.ClustersEqual | infra-tools/internal/appset/parse.go:32 | cluster maps are determined by their keys and per-key lists |
| AppSet.MergeClustersAssoc | infra-tools/internal/appset/parse.go:72-74 | folding successive documents' clusters is associative, so the per-cluster order is document order |
| AppSet.MergeClustersEmpty | infra-tools/internal/appset/parse.go:39 | the empty cluster map created at the start is neutral for the merge |
| AppSet.MergeStep | infra-tools/internal/appset/parse.go:139-141 | appending one pending key keeps the loop's state "every other key merged" |
| AppSet.MergeDone | infra-tools/internal/appset/parse.go:139-141 | once no key is pending the loop has produced exactly the merge |
| AppSet.MergeInto | infra-tools/internal/appset/parse.go:72-74 | the map-range loop that appends each cluster list yields the per-key merge whatever the iteration order |
| AppSet.CombineAssoc | infra-tools/internal/appset/parse.go:71-74 | combining results document by document is associative |
| AppSet.LastValue | infra-tools/internal/appset/parse.go:175-187 | a found base value comes from some clusters generator among the sub-generators (later generators overwrite) |
| AppSet.NamedPathsSound | infra-tools/internal/appset/parse.go:225-238 | under {{nameNormalized}} every element with an override, or else a name, contributes sourceRoot/env/dir with ClusterDir dir and nothing else is contributed; that path is appended to its name's cluster list (an empty name included), and every entry of a name's list is the path of an element with that name |
| AppSet.OverridePathsSound | infra-tools/internal/appset/parse.go:267-278 | every element with a non-empty values.clusterDir contributes sourceRoot/env/clusterDir and nothing else is contributed; that path is appended to the cluster list of its nameNormalized when the name is non-empty, and every entry of a name's list is the override path of an element with that name |
| AppSet.OverridePathsCount | infra-tools/internal/appset/parse.go:267-278 | exactly one override path per element with a non-empty clusterDir (two overrides give two extra paths) |
| AppSet.StructuredBase | infra-tools/internal/appset/parse.go:246-264 | clusterDir present and non-empty gives sourceRoot/env/clusterDir with ClusterDir set; present-but-empty or absent gives sourceRoot/env with no ClusterDir |
| AppSet.CollectElements | infra-tools/internal/appset/parse.go:190-204 | list elements that are mappings are collected in order, missing fields read as "" |
| AppSet.ScanMergeGenerators | infra-tools/internal/appset/parse.go:159-206 | the first pass yields the last clusters generator's sourceRoot/environment/clusterDir, whether a clusterDir was seen, and all list elements in order |
| AppSet.AddNamedPaths | infra-tools/internal/appset/parse.go:219-238 | the {{nameNormalized}} loop appends exactly NamedPaths to the paths and builds its clusters |
| AppSet.AddOverridePaths | infra-tools/internal/appset/parse.go:266-278 | the override loop appends exactly OverridePaths to the paths and builds its clusters |
| AppSet.ProcessMergeGenerators | infra-tools/internal/appset/parse.go:157-281 | processMergeGenerators returns the merge specification and never fails |
| AppSet.ResolveClusterGenerator | infra-tools/internal/appset/parse.go:284-297 | a direct clusters generator yields the single path sourceRoot/environment iff sourceRoot is non-empty, else nothing |
| AppSet.ExtractTemplatedPaths | infra-tools/internal/appset/parse.go:121-154 | the contributions of merge and clusters generators are combined in generator order; other generators contribute nothing |
| AppSet.ExtractFromAppSet | infra-tools/internal/appset/parse.go:81-118 | extractFromAppSet returns its specification: nothing without a string source path or generators, the literal path when it has no "{{", else the templated paths |
| AppSet.ParseApplicationSets | infra-tools/internal/appset/parse.go:37-78 | the decode loop returns the parse of the document stream: null and non-ApplicationSet documents skipped, the first decode error ends it |
| AppSet.ParseFailureStays | infra-tools/internal/appset/parse.go:49-51 | once a document fails to decode the parse returns that error whatever follows |
| AppSet.ParseFailsIffDecodeFails | infra-tools/internal/appset/parse.go:49-70 | the parse fails iff some document fails to decode, and the error is that document's; no extraction error is possible |
| AppSet.ParseConcat | infra-tools/internal/appset/parse.go:71-74 | the parse of two streams is the paths concatenated and the cluster lists appended per cluster, in document order |
| AppSet.SkippedDocumentIgnored | infra-tools/internal/appset/parse.go:52-59 | a null document or one whose kind is not the string "ApplicationSet" can be dropped without changing the result |
| AppSet.FailurePrefix | infra-tools/internal/appset/parse.go:49-51 | a failing prefix decides the result of any longer stream |
| AppSet.FirstFailure | infra-tools/internal/appset/parse.go:43-51 | after a successful prefix, the stream fails iff its remainder fails, with the remainder's error |
| AppSet.StructuredMerge | infra-tools/internal/appset/parse.go:242-280 | a structured template yields the base path first, then one path per element with an override; clusters are keyed only by non-empty names, and each override path is in the list of its element's non-empty name |
| AppSet.NameNormalizedMerge | infra-tools/internal/appset/parse.go:218-240 | with {{nameNormalized}} the result starts with sourceRoot/env/ and holds sourceRoot/env/dir for each element with a directory, and that path is in the cluster list of the element's name |
| Deptree.LoadAtSpec | infra-tools/internal/deptree/resolve.go:241-257 | the names are tried in order: a loaded kustomization is the first of them that exists, and "not found" is returned iff none of them exists |
| Deptree.LoadKustomization | infra-tools/internal/deptree/resolve.go:241-258 | a kustomization can only be loaded from a directory |
| Deptree.HasKustomizationIffFound | infra-tools/internal/deptree/resolve.go:45-52 | in a directory, hasKustomization is true iff the lookup does not end with "no kustomization file found" |
| Deptree.FirstNameWins | infra-tools/internal/deptree/resolve.go:242-255 | a valid kustomization.yaml is used and the other names are never looked at |
| Deptree.SecondNameFallback | infra-tools/internal/deptree/resolve.go:242-255 | kustomization.yml is used when kustomization.yaml is absent |
| Deptree.FileSourcePath | infra-tools/internal/deptree/resolve.go:214-220 | a file source "key=path" contributes the text after the first "=", one without "=" is taken whole |
| Deptree.RemotePluginNotAdded | infra-tools/internal/deptree/resolve.go:169-190 | a reference starting with http://, https://, ssh://, git@ or git:// in generators, transformers or validators is never added |
| Deptree.ResourcesCoveredGrow | infra-tools/internal/deptree/resolve.go:97-118 | a resource list covered by the walk stays covered as visited and deps grow |
| Deptree.UnvisitedShrinks | infra-tools/internal/deptree/resolve.go:56-59 | marking directories visited never increases the number left unvisited, the measure that makes the walk terminate |
| Deptree.Walk | infra-tools/internal/deptree/resolve.go:54-87 | resolve as a function of the walk's state: the directory ends up visited and the visited set only grows |
| Deptree.WalkLoaded | infra-tools/internal/deptree/resolve.go:89-118 | the walk after a successful load (kustomization file, then resources) only grows the visited set |
| Deptree.WalkPatched | infra-tools/internal/deptree/resolve.go:120-210 | the walk after the resources (patches, components, generators and the other files) only grows the visited set |
| Deptree.Resources | infra-tools/internal/deptree/resolve.go:96-118 | the resources loop as a function of the state only grows the visited set |
| Deptree.Components | infra-tools/internal/deptree/resolve.go:145-154 | the components loop as a function of the state only grows the visited set |
| Deptree.Fallback | infra-tools/internal/deptree/resolve.go:67-86 | the fallback scan records one outcome per listed entry and only grows the visited set |
| Deptree.WalkSpec | infra-tools/internal/deptree/resolve.go:54-87 | from a state where every recorded success keeps its promises and every dependency comes from a visited kustomization, a walk keeps both, only adds to visited, deps and the record, changes nothing on a revisit, and on a first visit records its own end, which keeps the promises of Walked: the kustomization file recorded; on success every local resource walked or recorded, every patch, generator and other file recorded, every local component walked; a failure to load is returned unless the fallback found a sub-directory |
| Deptree.WalkLoadedSpec | infra-tools/internal/deptree/resolve.go:89-210 | the walk of a loaded kustomization keeps the invariant, only grows the state and keeps the promises of Walked for its directory |
| Deptree.WalkPatchedSpec | infra-tools/internal/deptree/resolve.go:120-210 | after the resources, a successful walk has recorded every patch, generator source, plugin configuration, configuration, CRD and OpenAPI file and walked every local component |
| Deptree.ResourcesSpec | infra-tools/internal/deptree/resolve.go:96-118 | the resources loop keeps the invariant, only grows the state, and on success every existing local resource was walked (a directory) or recorded (a file) |
| Deptree.ComponentsSpec | infra-tools/internal/deptree/resolve.go:145-154 | the components loop keeps the invariant, only grows the state, and on success every local component was walked |
| Deptree.FallbackSpec | infra-tools/internal/deptree/resolve.go:71-82 | the fallback scan keeps the invariant and only grows the state; an entry was walked iff it is a sub-directory holding a kustomization, a walked entry is visited, and a failed walk's error is its recorded end |
| Deptree.FallbackStepSpec | infra-tools/internal/deptree/resolve.go:72-81 | one more listed entry keeps the invariant, the growth and the per-entry record of the fallback scan |
| Deptree.FinalState | infra-tools/internal/deptree/resolve.go:38-41 | every recorded success still keeps its promises in the walk's final visited and deps sets |
| Deptree.Resolver.constructor | infra-tools/internal/deptree/resolve.go:28-29 | a walk starts with empty deps and visited sets |
| Deptree.Resolver.AddFiles | infra-tools/internal/deptree/resolve.go:231-238 | addFile records the repo-relative path of each reference resolved against the directory, and nothing else |
| Deptree.Resolver.Resolve | infra-tools/internal/deptree/resolve.go:54-210 | the method's result and its new deps, visited and record are exactly those of Walk from the old state |
| Deptree.Resolver.ResolveLoaded | infra-tools/internal/deptree/resolve.go:89-210 | the rest of resolve after a successful load ends exactly as WalkLoaded from the old state |
| Deptree.Resolver.ResolveFallback | infra-tools/internal/deptree/resolve.go:67-86 | a path that cannot be read as a directory returns the original lookup error with no change; otherwise the scan ends as Fallback, and it succeeds iff some walked sub-directory returned success, else it returns the original lookup error |
| Deptree.Resolver.ResolveResources | infra-tools/internal/deptree/resolve.go:96-118 | the resources loop ends exactly as Resources from the old state: remote and missing entries skipped, directories walked with the first error returned, files recorded |
| Deptree.Resolver.ResolveComponents | infra-tools/internal/deptree/resolve.go:145-154 | the components loop ends exactly as Components from the old state: every local component walked, the first error returned |
| Deptree.Resolve | infra-tools/internal/deptree/resolve.go:27-42 | on success the requested directory keeps the promises of Walked, every visited directory has a recorded end, every successful walk keeps its promises in the final sets, and every returned path is a visited directory's kustomization file or a file that kustomization names; on failure the error is the requested directory's recorded end, and a failed lookup there returns the lookup's error |
| Detector.OverlayEnvironmentCoversAll | infra-tools/internal/detector/detector.go:26-32 | the overlay map's environments are exactly development, staging and production |
| Detector.UnionNames | infra-tools/internal/detector/detector.go:68-82 | the names set is the union of the head and base listings |
| Detector.ValidateNames | infra-tools/internal/detector/detector.go:85-92 | validation succeeds iff every name is a known overlay, mapping each to its environment; otherwise an unknown-overlay error naming the directory |
| Detector.NewDetector | infra-tools/internal/detector/detector.go:66-100 | a head listing error is fatal; a base listing error is ignored; the detector is built iff every overlay on head or base is known |
| Detector.BuildOverlay | infra-tools/internal/detector/detector.go:170-196 | an overlay job fails iff its head build fails (or its base build fails when the directory exists on base); an overlay absent on base gets an empty base render |
| Detector.BuildAppSetOverlays | infra-tools/internal/detector/detector.go:158-210 | the overlays listed on head are built in listing order and the first failure is returned |
| Detector.BuildsFailureStays | infra-tools/internal/detector/detector.go:200-202 | once an overlay build fails the whole call fails with that error |
| Detector.ExtractFailureStays | infra-tools/internal/detector/detector.go:249-252 | once a head render fails to parse the extraction fails with that error |
| Detector.ExtractPathsFromOverlays | infra-tools/internal/detector/detector.go:244-261 | each head render's paths are appended to its overlay's environment and its clusters merged; the first parse failure aborts |
| Detector.ResolvedForSound | infra-tools/internal/detector/detector.go:282-306 | each resolved entry is a path of the environment whose directory exists on head, with its dependency set, or none when ResolveDeps fails |
| Detector.ResolvedForDistinct | infra-tools/internal/detector/detector.go:283-287 | no path of an environment is resolved twice |
| Detector.ResolvedForComplete | infra-tools/internal/detector/detector.go:282-306 | every path of the environment whose directory exists on head is resolved |
| Detector.ResolvedInSound | infra-tools/internal/detector/detector.go:281-306 | every resolved entry is a path of a walked environment whose directory exists on head |
| Detector.ResolvedInDistinct | infra-tools/internal/detector/detector.go:278-287 | each (environment, path) pair is resolved at most once |
| Detector.ResolvedInComplete | infra-tools/internal/detector/detector.go:281-306 | every existing path of every walked environment is resolved |
| Detector.ResolvedForStep | infra-tools/internal/detector/detector.go:283-294 | one iteration adds the path to seen and appends its entry only on first occurrence |
| Detector.ResolveEnv | infra-tools/internal/detector/detector.go:282-306 | the inner loop appends exactly the environment's resolved entries and only adds pairs of that environment to seen |
| Detector.ResolveComponentDeps | infra-tools/internal/detector/detector.go:273-309 | resolveComponentDeps returns the resolved entries of every environment |
| Detector.SiblingNeverMatches | infra-tools/internal/detector/detector.go:357-363 | "components/foo-extra/x" never matches "components/foo" |
| Detector.MatchByPrefix | infra-tools/internal/detector/detector.go:356-367 | true iff some changed file equals the path or starts with the path plus one "/" (none added when it already ends with "/") |
| Detector.MatchDepTree | infra-tools/internal/detector/detector.go:370-377 | true iff some changed file is in the dependency set |
| Detector.ClustersFor | infra-tools/internal/detector/detector.go:381-398 | a reserved name (base, overlay) is never attributed |
| Detector.MatchedEnvsIff | infra-tools/internal/detector/detector.go:320-332 | an environment is marked iff one of its components matches (dependency-set intersection, or prefix when it has none) |
| Detector.MatchedClustersIff | infra-tools/internal/detector/detector.go:381-398 | a cluster is attributed iff a matching component attributes it, never a reserved name |
| Detector.MatchedMonotone | infra-tools/internal/detector/detector.go:314-334 | more changed files never match fewer components |
| Detector.NothingMatchesNoChange | infra-tools/internal/detector/detector.go:314-334 | no changed file marks nothing |
| Detector.DetectResult.constructor | infra-tools/internal/detector/detector.go:118-122 | detection starts with empty affected sets and the given changed files |
| Detector.DetectRemovedAppSetOverlays | infra-tools/internal/detector/detector.go:214-228 | adds the environment of every base overlay missing on head (none when base cannot list), and nothing else changes |
| Detector.DetectOverlayDiffs | infra-tools/internal/detector/detector.go:232-239 | adds the environment of every overlay whose head and base renders differ byte for byte, and nothing else |
| Detector.AnyRegisteredUnder | infra-tools/internal/detector/detector.go:392-396 | true iff a registered path equals the component path or lies below it |
| Detector.MatchClusters | infra-tools/internal/detector/detector.go:381-398 | adds exactly ClusterDir when it is non-empty and not reserved; otherwise every non-reserved cluster with a registered path at or under the component |
| Detector.MatchChangedFiles | infra-tools/internal/detector/detector.go:314-334 | adds exactly the matched environments and the clusters of matched components |
| Detector.ApplyStaticRules | infra-tools/internal/detector/detector.go:338-349 | a changed file under argo-cd-apps/app-of-app-sets/ marks every environment of the overlay map; nothing else changes |
| Detector.Detect | infra-tools/internal/detector/detector.go:117-152 | Detect returns the phase-by-phase specification: the first build or parse failure, or the union of removed, differing, matched and static environments with the matched clusters |
| Detector.NoChangedFilesStillDetects | infra-tools/internal/detector/detector.go:117-152 | with no changed files, removed overlays and differing renders are still reported: Detect itself has no empty-input shortcut |
| Detector.AppOfAppSetsAffectsAll | infra-tools/internal/detector/detector.go:338-349 | a change under the root ApplicationSets directory affects every environment |
| Detector.DetectMonotone | infra-tools/internal/detector/detector.go:117-152 | every phase only adds, so more changed files never remove an affected environment or cluster |
| DetectorLabels.LabelsInjective | infra-tools/internal/detector/labels.go:35-38 | distinct environments, and distinct clusters, get distinct labels |
| DetectorLabels.CategoriesDisjoint | infra-tools/internal/detector/labels.go:35-38 | an environment label starts with "environment/", a cluster label with "cluster/", and the two never coincide |
| DetectorLabels.CollectEnvLabels | infra-tools/internal/detector/labels.go:34-36 | one "environment/"+e label per affected environment, no duplicates |
| DetectorLabels.CollectClusterLabels | infra-tools/internal/detector/labels.go:37-39 | one "cluster/"+c label per affected cluster, no duplicates |
| DetectorLabels.Labels | infra-tools/internal/detector/labels.go:32-43 | Environments and Clusters are strictly sorted and hold exactly the labels of the affected environments and clusters, whatever the map order |
| DetectorLabels.AllSorted | infra-tools/internal/detector/labels.go:19-22 | All's list holds exactly the labels of both lists, in sorted order |
| DetectorLabels.AllStrictlySorted | infra-tools/internal/detector/labels.go:17-29 | for a result's label set the merged list has no duplicates |
| DetectorLabels.All | infra-tools/internal/detector/labels.go:23-27 | the labels are yielded in sorted order and the stream stops right after the first label the consumer refuses |
| EnvDetector.FlagsError | infra-tools/cmd/env-detector/main.go:49-53 | start-up fails iff not a dry run and the PR number is 0, the token is empty or the repo is empty |
| EnvDetector.DryRunNeedsNoCredentials | infra-tools/cmd/env-detector/main.go:49 | a dry run never requires the GitHub flags |
| EnvDetector.ExtrasAreFresh | infra-tools/cmd/env-detector/main.go:126-134 | "environment/none" and the hold label are neither environment nor cluster labels, nor each other |
| EnvDetector.AssembledLabelsManaged | infra-tools/cmd/env-detector/main.go:115-134 | every label the command syncs is a managed label |
| EnvDetector.ExtrasComplete | infra-tools/cmd/env-detector/main.go:124-134 | appending "environment/none" when no environment is affected, then the hold label when production is, gives the promised label list |
| EnvDetector.ChooseBase | infra-tools/cmd/env-detector/main.go:117-122 | with --cluster-labels the base list is All() (sorted environment and cluster labels), otherwise only the environment labels |
| EnvDetector.NoEnvLabelsIffNoEnvs | infra-tools/cmd/env-detector/main.go:126 | the environment list is empty iff no environment is affected |
| EnvDetector.AssembleLabels | infra-tools/cmd/env-detector/main.go:115-134 | the labels are one per affected environment, cluster labels only when asked, "environment/none" exactly when no environment is affected, the hold label exactly when production is and then last, nothing twice |
| EnvDetector.LabelsToSync | infra-tools/cmd/env-detector/main.go:81-134 | no changed files gives exactly ["environment/none"] without running detection; otherwise detection failure is fatal and a result gives the assembled labels |
| GithubLabels.HasAnyPrefix | infra-tools/internal/github/labels.go:158-163 | true iff some prefix of the list starts the name |
| GithubLabels.ManagedIff | infra-tools/internal/github/labels.go:157-164 | a label is managed iff it starts with "environment/", "cluster/" or "infra/" |
| GithubLabels.NearMissesUnmanaged | infra-tools/internal/github/labels.go:157-164 | "environments/production", "clusters/foo", "environ" and "" are unmanaged; the hold label is managed |
| GithubLabels.LabelColor | infra-tools/internal/github/labels.go:137-154 | a production label is red; grey exactly when no rule matches |
| GithubLabels.ToolLabelColors | infra-tools/internal/github/labels.go:139-150 | staging yellow, development green, none light blue, the hold label bright red, every cluster label blue |
| GithubLabels.UnmanagedNeverRemoved | infra-tools/internal/github/labels.go:66-88 | a label without a managed prefix is never removed |
| GithubLabels.AlreadySynced | infra-tools/internal/github/labels.go:80-97 | when the managed labels already equal the desired set, nothing is removed or added |
| GithubLabels.SyncConverges | infra-tools/internal/github/labels.go:58-114 | after a sync a second sync with the same list changes nothing when all desired labels are managed; an unmanaged desired label is added again on every run |
| GithubLabels.Issues.constructor | infra-tools/internal/github/labels_test.go:12-19 | the fake starts with the PR's labels and no recorded calls |
| GithubLabels.Issues.ListLabels | infra-tools/internal/github/labels_test.go:21-23 | listing returns the PR's labels, or fails when configured to |
| GithubLabels.Issues.RemoveLabel | infra-tools/internal/github/labels_test.go:25-28 | every removal call is recorded; it fails for the configured labels |
| GithubLabels.Issues.GetLabel | infra-tools/internal/github/labels.go:118-122 | a lookup finds existing labels; a failed lookup reports 404 unless configured to fail otherwise |
| GithubLabels.Issues.CreateLabel | infra-tools/internal/github/labels.go:124-130 | a successful creation adds the label to the repository and records it; a failed one changes nothing |
| GithubLabels.Issues.AddLabels | infra-tools/internal/github/labels_test.go:30-33 | every add call is recorded with its labels |
| GithubLabels.EnsureLabelExists | infra-tools/internal/github/labels.go:117-134 | an existing label needs nothing; a 404 lookup creates the label; any other lookup error or a creation error fails |
| GithubLabels.RemoveStale | infra-tools/internal/github/labels.go:80-88 | one removal call per stale label, each once, stopping at the first that fails |
| GithubLabels.EnsureAll | infra-tools/internal/github/labels.go:101-105 | fails iff ensuring some label to add fails; on success all of them exist |
| GithubLabels.Listing | infra-tools/internal/github/labels.go:91-96 | the set of labels to add is listed once each |
| GithubLabels.SyncLabels | infra-tools/internal/github/labels.go:58-114 | on success exactly the present managed labels that are not desired were removed, one add call carried exactly the desired labels not already present as managed ones, and no add call was made when there were none; it fails iff the listing, a removal, a lookup or creation, or the add fails |
| GithubComments.FirstMarked | infra-tools/internal/github/comments.go:84-88 | the first comment, in page order, whose non-nil body contains the marker; -1 iff none does |
| GithubComments.EditBody | infra-tools/internal/github/comments_test.go:38-46 | the comments with the edited id get the new body and the others are unchanged |
| GithubComments.SecondUpsertEdits | infra-tools/internal/github/comments.go:46-72 | once a marked body has been upserted the next upsert edits it instead of creating another comment |
| GithubComments.UnmarkedUntouched | infra-tools/internal/github/comments.go:53-71 | comments other than the first marked one are never edited |
| GithubComments.SplitRepo | infra-tools/internal/github/comments.go:31-35 | "owner/repo" is split at the first "/", and a name without "/" is rejected |
| GithubComments.SplitRepoRoundTrip | infra-tools/internal/github/comments.go:32 | splitting an owner without "/" joined to any repository name gives them back |
| GithubComments.Comments.constructor | infra-tools/internal/github/comments_test.go:12-24 | the fake starts with the given comments, nothing created or edited |
| GithubComments.Comments.List | infra-tools/internal/github/comments.go:76-80 | a page holds the next PerPage comments and a next-page number that is 0 on the last page; the configured page fails |
| GithubComments.Comments.Edit | infra-tools/internal/github/comments_test.go:38-46 | an edit records the body under the id and sets it on the comments with that id |
| GithubComments.Comments.Create | infra-tools/internal/github/comments_test.go:30-36 | a creation appends a comment with the next id and the body and records it |
| GithubComments.FirstMarkedAt | infra-tools/internal/github/comments.go:84-88 | a marked comment with only unmarked ones before it is the first marked |
| GithubComments.PageOf | infra-tools/internal/github/comments.go:77-92 | the comment at position k lies on page k / 100 + 1 |
| GithubComments.PagesAtLeast | infra-tools/internal/github/comments.go:89-92 | a page that starts before the end of the list exists |
| GithubComments.LastPage | infra-tools/internal/github/comments.go:89-91 | the page reaching the last comment is the last page |
| GithubComments.FindMarkedComment | infra-tools/internal/github/comments.go:75-95 | returns the first marked comment's id (0 when none), stops after the page whose next page is 0, and returns a listing error at once |
| GithubComments.UpsertComment | infra-tools/internal/github/comments.go:46-72 | a listing error aborts with no change; a marked comment is edited with the new body and none is created; otherwise exactly one comment is created with the next id and the others are untouched; any error leaves the comments, edits, creations and next id as they were, and the next id advances only on a creation; each error is wrapped with the step it came from, "finding existing comment: ", "updating comment <id>: " or "creating comment: " |
| Normalize.ScanMetadata | infra-tools/internal/renderdiff/normalize.go:106-120 | the metadata loop takes scalar name and namespace values, later pairs overriding earlier ones |
| Normalize.ExtractKey | infra-tools/internal/renderdiff/normalize.go:80-124 | extractKey walks the root mapping's pairs; a non-document or non-mapping root gives the empty key |
| Normalize.MetaScanKeeps | infra-tools/internal/renderdiff/normalize.go:105-120 | the metadata walk never sets apiVersion or kind |
| Normalize.TopScanSource | infra-tools/internal/renderdiff/normalize.go:96-104 | a set apiVersion or kind comes from a scalar pair of the root mapping |
| Normalize.TopScanNoMetadata | infra-tools/internal/renderdiff/normalize.go:105-106 | without a mapping-valued metadata pair, name and namespace stay unset |
| Normalize.KeyDefaults | infra-tools/internal/renderdiff/normalize.go:80-124 | key fields that are missing or non-scalar are ""; name and namespace are read only from a mapping-valued metadata |
| Normalize.Docs | infra-tools/internal/renderdiff/normalize.go:36-47 | the decoder run yields the documents in order iff no call failed |
| Normalize.AsStream | infra-tools/internal/renderdiff/normalize.go:36-47 | a list of documents read back as a decoder run |
| Normalize.NormalizeChangesOnlyBySorting | infra-tools/internal/renderdiff/normalize.go:24-77 | the output differs from the input only when the input is non-empty, decodes into two or more documents and the encoder wrote them in key order; empty input, a decode error, one document or an encode error return the input |
| Normalize.NormalizeYAML | infra-tools/internal/renderdiff/normalize.go:24-77 | normalizeYAML returns its specification: the input on every failure path, otherwise the documents encoded in stable key order |
| Normalize.FailureStays | infra-tools/internal/renderdiff/normalize.go:42-45 | a decode error anywhere makes the whole input come back unchanged |
| Normalize.NormalizedDocs | infra-tools/internal/renderdiff/normalize.go:53-65 | the output documents are a permutation of the input documents, ordered by (apiVersion, kind, namespace, name), with equal keys in input order |
| Normalize.ReorderedRendersAgree | infra-tools/internal/renderdiff/normalize.go:20-65 | two renders differing only in how differently keyed resources are interleaved normalise to the same output |
| Normalize.NormalizeIdempotent | infra-tools/internal/renderdiff/normalize.go:53-76 | normalising twice is normalising once, given the YAML library reads back what it wrote |
| Normalize.ReadBack | infra-tools/internal/renderdiff/normalize.go:67-76 | what the encoder wrote for two or more documents decodes to those documents, under that assumption |
| RenderDiff.FromComponentPath | infra-tools/internal/renderdiff/diff.go:72-78 | copies Path and ClusterDir, sets Env, and leaves every other field zero |
| RenderDiff.CountStats | infra-tools/internal/renderdiff/diff.go:81-98 | countStats counts the added and removed lines of the text split on "\n" |
| RenderDiff.CountLines | infra-tools/internal/renderdiff/diff.go:82-96 | the counting loop yields the counts of the lines seen |
| RenderDiff.StatsConcat | infra-tools/internal/renderdiff/diff.go:82-96 | the counts of two stretches of lines add up |
| RenderDiff.StatsOfLine | infra-tools/internal/renderdiff/diff.go:83-95 | a line counts as added iff it starts with '+' but not "+++", as removed iff it starts with '-' but not "---", and never as both |
| RenderDiff.StatsBound | infra-tools/internal/renderdiff/diff.go:82-96 | added + removed never exceeds the number of lines |
| RenderDiff.TextStatsBound | infra-tools/internal/renderdiff/diff.go:82 | added + removed is at most the number of "\n"-separated lines of the text |
| RenderDiff.CountExample | infra-tools/internal/renderdiff/diff.go:81-98 | the example diff counts two added and one removed line, headers not counted |
| RenderDiff.HeaderLookalikesUncounted | infra-tools/internal/renderdiff/diff.go:88-92 | a removed line whose content starts with "--", or an added line whose content starts with "++", is never counted |
| RenderDiff.EmptyDiffStats | infra-tools/internal/renderdiff/diff.go:82-96 | the empty diff counts nothing |
| RenderDiff.Text | infra-tools/internal/renderdiff/diff.go:41-42 | a render's text has one character per byte |
| RenderDiff.TextInjective | infra-tools/internal/renderdiff/diff.go:44 | two renders compare equal as strings iff they are the same bytes |
| RenderDiff.NilIsEmpty | infra-tools/internal/renderdiff/diff.go:22-42 | a nil render and an empty render normalise to the same text |
| RenderDiff.ComputeDiffFresh | infra-tools/internal/renderdiff/diff.go:40-64 | a successful computeDiff changes only Diff, Added and Removed; the counts are countStats of the diff text; equal normalised sides leave Diff empty and the counts 0, so HasDiff is false |
| RenderDiff.SameRenderNoDiff | infra-tools/internal/renderdiff/diff.go:44-69 | identical renders give no diff and HasDiff is false |
| RenderDiff.ReorderOnlyNoDiff | infra-tools/internal/renderdiff/diff.go:38-46 | renders that differ only in the order of differently keyed resources give no diff and the generator is never asked |
| RenderDiff.Component.FromPath | infra-tools/internal/renderdiff/diff.go:72-78 | the component starts as FromComponentPath of its path and environment |
| RenderDiff.Component.ComputeDiff | infra-tools/internal/renderdiff/diff.go:40-64 | the component is updated in place to the computeDiff specification, or unchanged on a generator error |
| RenderEngine.JobsFor | infra-tools/internal/renderdiff/engine.go:92-93 | one job per path of the environment, in path order |
| RenderEngine.JobsOfMembers | infra-tools/internal/renderdiff/engine.go:91-93 | a job exists iff its path is listed under a walked environment of the map |
| RenderEngine.JobsMembers | infra-tools/internal/renderdiff/engine.go:91-117 | there is one job per (environment, path) listed in the map, and no other |
| RenderEngine.BuildPairOutcome | infra-tools/internal/renderdiff/engine.go:137-162 | on a fresh record buildPair succeeds iff no existing side fails to build and the path exists on some ref; HeadYAML (BaseYAML) is set iff the path exists on head (base); nothing else changes |
| RenderEngine.Outcomes | infra-tools/internal/renderdiff/engine.go:91-117 | every job is run on its own |
| RenderEngine.CollectStopped | infra-tools/internal/renderdiff/engine.go:119-123 | after a diff error later outcomes change nothing |
| RenderEngine.CollectBound | infra-tools/internal/renderdiff/engine.go:48-54 | a run sends at most one record per job, so a buffer sized by the job count never fills |
| RenderEngine.JobRecord | infra-tools/internal/renderdiff/engine.go:97-114 | a record a job hands over carries a build error or a non-empty diff and names the job's path and environment |
| RenderEngine.CollectedRecords | infra-tools/internal/renderdiff/engine.go:78-85 | every collected record was emitted by some job before any error |
| RenderEngine.CollectAborts | infra-tools/internal/renderdiff/engine.go:107-123 | a run stops with an error iff some job's computeDiff fails, reporting the first such error |
| RenderEngine.BuildFailureCollected | infra-tools/internal/renderdiff/engine.go:99-104 | a build-failure record is included and the run continues past it |
| RenderEngine.BuildFailureRecord | infra-tools/internal/renderdiff/engine.go:99-104 | a failed build's record holds the build error, with no diff and zero counts |
| RenderEngine.UnchangedOmitted | infra-tools/internal/renderdiff/engine.go:111-113 | a component whose normalised renders are equal is omitted from Diffs |
| RenderEngine.SumAddedConcat | infra-tools/internal/renderdiff/engine.go:81-84 | the totals of two stretches of records add up |
| RenderEngine.TotalsOrderIndependent | infra-tools/internal/renderdiff/engine.go:74-86 | TotalAdded and TotalRemoved do not depend on the order in which records were received |
| RenderEngine.BuildErrorNotCounted | infra-tools/internal/renderdiff/engine.go:81-84 | a record with a non-empty Error never moves the totals |
| RenderEngine.RunResult | infra-tools/internal/renderdiff/engine.go:60-127 | a successful run lists only records with a build error or a diff, each from a job of the map, with the totals of the error-free ones; a job count of 0 gives an empty result whatever the map holds |
| RenderEngine.Engine.constructor | infra-tools/internal/renderdiff/engine.go:32-34 | the engine keeps both refs, the job count and the CPU count as its worker limit; a negative job count, for which `make` panics in `Run` and `RunProgressive`, is refused |
| RenderEngine.Engine.BuildPair | infra-tools/internal/renderdiff/engine.go:137-162 | buildPair updates the record in place to its specification |
| RenderEngine.Engine.RunOne | infra-tools/internal/renderdiff/engine.go:93-115 | one worker computes its job's outcome: a build-error record, a diff record, nothing, or an abort |
| RenderEngine.Engine.RunProgressive | infra-tools/internal/renderdiff/engine.go:60-127 | the result and the progressive output are the collected records in job order, with a job count of 0 short-circuiting to an empty result and no output |
| RenderEngine.Engine.Run | infra-tools/internal/renderdiff/engine.go:48-55 | Run returns what RunProgressive returns, provided the unread buffer of `affected` slots holds every record sent (otherwise the Go code deadlocks) |
| RenderDiffCli.DiffFileName | infra-tools/cmd/render-diff/files.go:38-44 | the name ends in the environment and ".diff", starts with the cluster directory and "--" when one is set, and holds no "/" when the cluster directory has none |
| RenderDiffCli.SlugCollision | infra-tools/cmd/render-diff/files.go:42-43 | different component paths can share one slug file name |
| RenderDiffCli.DedupeCounter | infra-tools/cmd/render-diff/files.go:48-56 | successive uses of one base name get pairwise different names |
| RenderDiffCli.DedupeCollision | infra-tools/cmd/render-diff/files.go:48-56 | for arbitrary names a counted name can equal another base name: the second use of "X.diff" is "X-2.diff", which is also the first use of "X-2.diff" |
| RenderDiffCli.ExtOfDiff | infra-tools/cmd/render-diff/files.go:53-54 | the extension split off a ".diff" name is ".diff" |
| RenderDiffCli.CounterSplit | infra-tools/cmd/render-diff/files.go:55 | a stem, "-" and a counter can be told apart again |
| RenderDiffCli.CounterShorter | infra-tools/cmd/render-diff/files.go:55 | names with counters of different lengths differ |
| RenderDiffCli.CountedUnique | infra-tools/cmd/render-diff/files.go:53-55 | two counted names from base names agree only when base and counter agree |
| RenderDiffCli.DedupeUnique | infra-tools/cmd/render-diff/files.go:48-56 | for names `diffFileName` can produce, the de-duplicated name determines base and use count |
| RenderDiffCli.CounterNotBase | infra-tools/cmd/render-diff/files.go:53-55 | a counted name is never a name `diffFileName` can produce |
| RenderDiffCli.DiffFileNameIsBase | infra-tools/cmd/render-diff/files.go:38-44 | every `diffFileName` ends in ".diff" after a non-digit |
| RenderDiffCli.DedupeOfBase | infra-tools/cmd/render-diff/files.go:53-55 | the k-th use of a base name is its stem, "-k" and ".diff" |
| RenderDiffCli.Seen.constructor | infra-tools/cmd/render-diff/files.go:20 | the seen map starts empty |
| RenderDiffCli.Seen.Dedupe | infra-tools/cmd/render-diff/files.go:48-56 | the base's count goes up by one, nothing else changes, and the name is the one for that use |
| RenderDiffCli.Entries | infra-tools/cmd/render-diff/files.go:21-25 | file-bearing diffs are at most all diffs, each with a base name and non-empty text |
| RenderDiffCli.EntriesOf | infra-tools/cmd/render-diff/files.go:21-25 | every diff without error and with a diff gets an entry, and every entry comes from such a diff |
| RenderDiffCli.FilesOf | infra-tools/cmd/render-diff/files.go:21-30 | one file per entry |
| RenderDiffCli.UsesGrow | infra-tools/cmd/render-diff/files.go:48-50 | a later entry with the same base has been counted more often |
| RenderDiffCli.DedupeDistinct | infra-tools/cmd/render-diff/files.go:48-56 | different (base name, use) pairs give different names |
| RenderDiffCli.FileAt | infra-tools/cmd/render-diff/files.go:25-27 | the i-th file is its base name de-duplicated against the entries before it |
| RenderDiffCli.UsesDiffer | infra-tools/cmd/render-diff/files.go:48-50 | two entries never share both base name and use count |
| RenderDiffCli.FileNameIs | infra-tools/cmd/render-diff/files.go:25 | the file name is the de-duplicated name for the entry's use |
| RenderDiffCli.FilesNamesDistinct | infra-tools/cmd/render-diff/files.go:16-32 | no file name is given out twice in one run |
| RenderDiffCli.WrittenNamesDistinct | infra-tools/cmd/render-diff/files.go:16-32 | every file written in one run has its own name, so no write overwrites another |
| RenderDiffCli.WrittenContents | infra-tools/cmd/render-diff/files.go:27 | the i-th file holds the i-th file-bearing diff's text |
| RenderDiffCli.FileContents | infra-tools/cmd/render-diff/files.go:27 | each file holds its entry's text |
| RenderDiffCli.FilesOfSnoc | infra-tools/cmd/render-diff/files.go:21-30 | one more entry appends its de-duplicated file |
| RenderDiffCli.EntriesStep | infra-tools/cmd/render-diff/files.go:21-25 | one more diff appends an entry unless it is skipped |
| RenderDiffCli.WriteDiffFiles | infra-tools/cmd/render-diff/files.go:16-32 | the files written are exactly the de-duplicated files of the non-skipped diffs, in order |
| RenderDiffCli.UseCountsAgree | infra-tools/cmd/render-diff/files.go:48-50 | the seen map counts each base name's uses |
| RenderDiffCli.WriteStep | infra-tools/cmd/render-diff/files.go:21-30 | one written diff adds its file and one more use of its base name |
| RenderDiffCli.UseCountsSnoc | infra-tools/cmd/render-diff/files.go:49 | one more entry increments its base name's count |
| RenderDiffCli.YamlNameInjective | infra-tools/cmd/render-diff/files.go:89 | replacing ".diff" by ".yaml" keeps distinct names distinct |
| RenderDiffCli.FileNameSuffix | infra-tools/cmd/render-diff/files.go:48-56 | every de-duplicated name still ends in ".diff" |
| RenderDiffCli.YamlNamesDistinct | infra-tools/cmd/render-diff/files.go:82-97 | the YAML files of one diff-tool run have distinct names |
| RenderDiffCli.SortDiffs | infra-tools/cmd/render-diff/files.go:119-126 | the array ends up holding the diffs ordered by environment, then path |
| RenderDiffCli.ReportOrder | infra-tools/cmd/render-diff/files.go:119-126 | the sorted diffs are a permutation of the input, ordered by environment and then path |
| RenderDiffCli.ModeOf | infra-tools/cmd/render-diff/main.go:28-33 | a recognised mode has exactly the given name |
| RenderDiffCli.ModeNames | infra-tools/cmd/render-diff/main.go:196-205 | exactly the four mode names are accepted, each for its own mode |
| RenderDiffCli.Trimmed | infra-tools/cmd/render-diff/main.go:191-192 | one trimmed piece per comma-separated piece |
| RenderDiffCli.ParseOutputModes | infra-tools/cmd/render-diff/main.go:188-208 | the loop yields the parse of the trimmed comma-separated pieces |
| RenderDiffCli.ParseModesStopped | infra-tools/cmd/render-diff/main.go:203-204 | once a piece is invalid, the whole parse is nil |
| RenderDiffCli.ParseModesValid | infra-tools/cmd/render-diff/main.go:188-208 | the parse succeeds iff every piece is blank or a mode name |
| RenderDiffCli.ParseModesMembers | infra-tools/cmd/render-diff/main.go:196-202 | a mode is listed iff it is named, and no mode is listed twice |
| RenderDiffCli.FirstUse | infra-tools/cmd/render-diff/main.go:199-201 | the first position where a name appears, or the end |
| RenderDiffCli.ParseModesOrder | infra-tools/cmd/render-diff/main.go:199-201 | modes come in the order they were first named |
| RenderDiffCli.ParseModesNonEmpty | infra-tools/cmd/render-diff/main.go:193-195 | a successful parse names some mode iff some piece is not blank |
| RenderDiffCli.FlagsAccepted | infra-tools/cmd/render-diff/main.go:54-67 | main goes on iff every piece is blank or a mode, some piece is not blank, and the colour is auto, always or never |
| RenderDiffCli.JobCountMatches | infra-tools/cmd/render-diff/main.go:148-160 | the job count main hands to the engine equals the number of jobs the engine runs |
| KueueQuotas.IntLiteral | hack/kueue-vm-quotas/update-kueue-vm-quotas.py:60 | the literal `int()` reads after stripping whitespace is non-empty whenever it succeeds, and a negative result was written with a leading minus sign |
| KueueQuotas.DigitsOfNat | hack/kueue-vm-quotas/update-kueue-vm-quotas.py:163 | the decimal text of a natural number is all digits and reads back as that number |
| KueueQuotas.StripUnpadded | hack/kueue-vm-quotas/update-kueue-vm-quotas.py:60 | a string without surrounding whitespace is unchanged by the strip `int()` applies |
| KueueQuotas.PyIntOfNat | hack/kueue-vm-quotas/update-kueue-vm-quotas.py:163 | `int(str(n)) == n` for every natural number |
| KueueQuotas.PyIntOfNonNegative | hack/kueue-vm-quotas/update-kueue-vm-quotas.py:163 | `int(str(n)) == n` for a non-negative integer |
| KueueQuotas.PyIntOfNegated | hack/kueue-vm-quotas/update-kueue-vm-quotas.py:60 | a minus sign followed by digits reads as the negated digit value |
| KueueQuotas.PyIntOfNegative | hack/kueue-vm-quotas/update-kueue-vm-quotas.py:163 | `int(str(n)) == n` for a negative integer |
| KueueQuotas.PyIntOfString | hack/kueue-vm-quotas/update-kueue-vm-quotas.py:163 | `int(str(n)) == n` for every integer: the nominal quota written for a platform reads back as its quota |
| KueueQuotas.NewPlatformQuota | hack/kueue-vm-quotas/update-kueue-vm-quotas.py:31-39 | a PlatformQuota is built iff the quota is non-negative, and then carries exactly the given name and quota |
| KueueQuotas.QuotaFrom | hack/kueue-vm-quotas/update-kueue-vm-quotas.py:60-62 | the quota is built iff `int(value)` parses to a non-negative number, and then equals it |
| KueueQuotas.DynamicKey | hack/kueue-vm-quotas/update-kueue-vm-quotas.py:56-62 | "dynamic.X.max-instances" yields platform X with quota `int(value)`, failing exactly when that is not a non-negative integer |
| KueueQuotas.PlatformKeyOf | hack/kueue-vm-quotas/update-kueue-vm-quotas.py:68-69 | the platform key of "host.H.concurrency" is "host.H.platform" |
| KueueQuotas.ExtractStatic | hack/kueue-vm-quotas/update-kueue-vm-quotas.py:65-76 | a missing platform key raises; on success the name is the platform value with every "/" replaced by "-", and success holds iff the quota parses non-negative |
| KueueQuotas.ExtractLocalPlatforms | hack/kueue-vm-quotas/update-kueue-vm-quotas.py:79-90 | every call raises (the body reads the undefined name `values`) |
| KueueQuotas.Aggregate | hack/kueue-vm-quotas/update-kueue-vm-quotas.py:93-101 | the platform's quota is added to any existing one of that name; every other entry is unchanged; the table stays well formed |
| KueueQuotas.QuotaTable.constructor | hack/kueue-vm-quotas/update-kueue-vm-quotas.py:109 | the quota table starts empty |
| KueueQuotas.QuotaTable.AddOrAggregate | hack/kueue-vm-quotas/update-kueue-vm-quotas.py:93-101 | the table afterwards is the aggregate of the old table and the platform |
| KueueQuotas.QuotaTable.AddAll | hack/kueue-vm-quotas/update-kueue-vm-quotas.py:129-130 | adding platforms one by one yields the aggregate of all of them |
| KueueQuotas.Aggregated | hack/kueue-vm-quotas/update-kueue-vm-quotas.py:93-101 | the table built from any platform sequence is well formed |
| KueueQuotas.AggregatedSnoc | hack/kueue-vm-quotas/update-kueue-vm-quotas.py:93-101 | aggregating one more platform is one aggregate step |
| KueueQuotas.AggregatedStep | hack/kueue-vm-quotas/update-kueue-vm-quotas.py:129-130 | each loop step adds the next platform to the aggregate |
| KueueQuotas.AggregatedSums | hack/kueue-vm-quotas/update-kueue-vm-quotas.py:93-101 | a name is in the table iff some platform has it, and its quota is the sum of the quotas of all platforms of that name |
| KueueQuotas.NoneCalled | hack/kueue-vm-quotas/update-kueue-vm-quotas.py:93-101 | a name no platform carries sums to zero |
| KueueQuotas.KeyPlatforms | hack/kueue-vm-quotas/update-kueue-vm-quotas.py:114-134 | each key gives at most one platform; "local-platforms" raises; any other key outside the dynamic and host patterns gives none |
| KueueQuotas.StaticKey | hack/kueue-vm-quotas/update-kueue-vm-quotas.py:121-124 | "host.H.concurrency" gives nothing without "host.H.platform", and otherwise the static platform with "/" turned into "-" |
| KueueQuotas.DynamicKeyPlatforms | hack/kueue-vm-quotas/update-kueue-vm-quotas.py:117-118 | a dynamic key gives exactly its platform with quota `int(value)` |
| KueueQuotas.ExtractedNext | hack/kueue-vm-quotas/update-kueue-vm-quotas.py:113-134 | the platforms of one more key extend the earlier ones, or the key's exception stops the parse |
| KueueQuotas.ExtractedStops | hack/kueue-vm-quotas/update-kueue-vm-quotas.py:113-134 | once a key raises, the later keys change nothing |
| KueueQuotas.LocalPlatformsFail | hack/kueue-vm-quotas/update-kueue-vm-quotas.py:127-128 | a "local-platforms" key anywhere makes the parse fail |
| KueueQuotas.SortKeys | hack/kueue-vm-quotas/update-kueue-vm-quotas.py:113 | the keys come out strictly ascending and are exactly the keys of the data |
| KueueQuotas.ParseHostConfig | hack/kueue-vm-quotas/update-kueue-vm-quotas.py:104-136 | the result is the parse of the data keys in sorted order: the aggregate of their platforms, or the first exception |
| KueueQuotas.FlattenSnoc | hack/kueue-vm-quotas/update-kueue-vm-quotas.py:139-153 | flattening one more group appends that group |
| KueueQuotas.Chunks | hack/kueue-vm-quotas/update-kueue-vm-quotas.py:139-153 | the groups concatenate back to the input, each holds 1 to n items, and all but the last hold exactly n |
| KueueQuotas.ChunksCount | hack/kueue-vm-quotas/update-kueue-vm-quotas.py:139-153 | the number of groups is the ceiling of the length divided by n |
| KueueQuotas.ChunksUnique | hack/kueue-vm-quotas/update-kueue-vm-quotas.py:139-153 | any grouping with those size properties is the chunking |
| KueueQuotas.DistributePlatforms | hack/kueue-vm-quotas/update-kueue-vm-quotas.py:139-153 | the groups are the name-sorted platforms cut into chunks of maxPerGroup |
| KueueQuotas.AppendOne | hack/kueue-vm-quotas/update-kueue-vm-quotas.py:148 | appending the next platform to the current group keeps the groups a prefix of the sorted list |
| KueueQuotas.GroupsListPlatforms | hack/kueue-vm-quotas/update-kueue-vm-quotas.py:139-153 | the groups together are a permutation of the platforms, sorted by name |
| KueueQuotas.CreatePlatformResourceGroup | hack/kueue-vm-quotas/update-kueue-vm-quotas.py:156-167 | covered resources and resources are as many as the platforms, and each covered name is its resource's name |
| KueueQuotas.ResourceGroupReadsBack | hack/kueue-vm-quotas/update-kueue-vm-quotas.py:156-167 | the resources are the platforms in name order, each nominal quota reads back as its quota, and the covered names are in ascending order |
| KueueQuotas.ResourceGroupToDict | hack/kueue-vm-quotas/update-kueue-vm-quotas.py:170-181 | the dictionary covers as many resources as the group |
| KueueQuotas.CreateResourceFlavor | hack/kueue-vm-quotas/update-kueue-vm-quotas.py:184-191 | the document is a ResourceFlavor with the given name |
| KueueQuotas.FlavorNamesDistinct | hack/kueue-vm-quotas/update-kueue-vm-quotas.py:266 | different group indexes give different flavor names |
| KueueQuotas.FindDocumentByKind | hack/kueue-vm-quotas/update-kueue-vm-quotas.py:194-199 | succeeds iff some document has that kind, and returns the first such one |
| KueueQuotas.FindFrom | hack/kueue-vm-quotas/update-kueue-vm-quotas.py:196-199 | from position i, succeeds iff a later document has the kind, and returns the first one |
| KueueQuotas.ExistingFlavorNames | hack/kueue-vm-quotas/update-kueue-vm-quotas.py:202-208 | a name is listed iff some ResourceFlavor document carries it |
| KueueQuotas.PreserveBaseResourceGroup | hack/kueue-vm-quotas/update-kueue-vm-quotas.py:211-217 | keeps at most one group: the first one covering "tekton.dev/pipelineruns", or none when no group does |
| KueueQuotas.ValidateConstraints | hack/kueue-vm-quotas/update-kueue-vm-quotas.py:220-228 | fails iff there are more than 16 groups or some group covers more than 16 resources |
| KueueQuotas.CheckGroups | hack/kueue-vm-quotas/update-kueue-vm-quotas.py:225-228 | fails iff some group from position i on is oversized |
| KueueQuotas.GroupDictsSnoc | hack/kueue-vm-quotas/update-kueue-vm-quotas.py:265-276 | the group dictionaries of one more group extend the earlier ones by that group's dictionary |
| KueueQuotas.NewFlavorDocsAre | hack/kueue-vm-quotas/update-kueue-vm-quotas.py:265-271 | the added documents are exactly the ResourceFlavors "platform-group-i" whose name did not exist yet |
| KueueQuotas.AddPlatformGroups | hack/kueue-vm-quotas/update-kueue-vm-quotas.py:265-279 | the loop appends the missing flavors to the documents and the group dictionaries to the preserved groups |
| KueueQuotas.ProcessClusterQueueUpdate | hack/kueue-vm-quotas/update-kueue-vm-quotas.py:247-289 | the documents written equal the specification of the update, or its first exception |
| KueueQuotas.UpdateFound | hack/kueue-vm-quotas/update-kueue-vm-quotas.py:254-289 | a successful update found a ClusterQueue with a "spec" map and returns the sorted rewritten documents |
| KueueQuotas.UpdateSorted | hack/kueue-vm-quotas/update-kueue-vm-quotas.py:286-289 | the written documents are sorted by kind and name and are a permutation of the updated ones |
| KueueQuotas.UpdateKeepsDocuments | hack/kueue-vm-quotas/update-kueue-vm-quotas.py:282-289 | every other document is written back unchanged and the ClusterQueue gets the preserved base group followed by the platform groups |
| KueueQuotas.UpdateHasFlavors | hack/kueue-vm-quotas/update-kueue-vm-quotas.py:265-271 | after the update every platform group's flavor exists |
| KueueQuotas.GroupDictsFit | hack/kueue-vm-quotas/update-kueue-vm-quotas.py:139-181 | no platform group covers more than 16 resources |
| KueueQuotas.NoneOversized | hack/kueue-vm-quotas/update-kueue-vm-quotas.py:225-228 | joining group lists that are not oversized gives one that is not oversized |
| KueueQuotas.ValidationByCount | hack/kueue-vm-quotas/update-kueue-vm-quotas.py:220-228 | validation passes iff the platforms fit in 16 per group within the groups left beside the preserved base group |
| ImagePruner.GroupName | components/image-controller/production/stone-prd-rh01/resources/image_pruner/prune_images.py:125 | the group name is the part of the tag name before its last "-" |
| ImagePruner.ArtifactDigest | components/image-controller/production/stone-prd-rh01/resources/image_pruner/prune_images.py:99-102 | a match is a "sha256-" tag name and yields a "sha256:" digest |
| ImagePruner.ArtifactDigestOf | components/image-controller/production/stone-prd-rh01/resources/image_pruner/prune_images.py:99-102 | "sha256-" + hex digits + ".sbom", ".att", ".src" or ".sig" yields "sha256:" + those digits |
| ImagePruner.ArtifactDigestForm | components/image-controller/production/stone-prd-rh01/resources/image_pruner/prune_images.py:99-102 | every matching name has that form (hex digits, then one of the four suffixes, optionally a final newline) |
| ImagePruner.BodyForm | components/image-controller/production/stone-prd-rh01/resources/image_pruner/prune_images.py:99 | a matched body splits into "sha256-", its digits and its suffix |
| ImagePruner.Without | components/image-controller/production/stone-prd-rh01/resources/image_pruner/prune_images.py:79-94 | deleting a tag removes exactly the tags of that name |
| ImagePruner.WithoutAll | components/image-controller/production/stone-prd-rh01/resources/image_pruner/prune_images.py:79-94 | deleting several names removes exactly the tags with one of them |
| ImagePruner.WithoutAllAppend | components/image-controller/production/stone-prd-rh01/resources/image_pruner/prune_images.py:155-171 | deleting two lists one after the other is deleting their concatenation |
| ImagePruner.Repository.constructor | components/image-controller/production/stone-prd-rh01/resources/image_pruner/prune_images.py:28-63 | the repository holds the listed tags and nothing has been deleted |
| ImagePruner.Repository.GetQuayTags | components/image-controller/production/stone-prd-rh01/resources/image_pruner/prune_images.py:28-63 | the listing is the repository's current tags |
| ImagePruner.Repository.DeleteImageTag | components/image-controller/production/stone-prd-rh01/resources/image_pruner/prune_images.py:79-94 | the tags of that name are gone and the deletion is recorded |
| ImagePruner.Repository.DeleteAll | components/image-controller/production/stone-prd-rh01/resources/image_pruner/prune_images.py:143-152 | in a dry run nothing changes; otherwise every name is deleted in order |
| ImagePruner.FirstPassMatchesReference | components/image-controller/production/stone-prd-rh01/resources/image_pruner/prune_images.py:118-141 | each per-name counter is its group's tag count capped at keepMax, and the tags chosen are exactly those past their group's first keepMax that started before the cut-off |
| ImagePruner.RemovedAreOldNamedTags | components/image-controller/production/stone-prd-rh01/resources/image_pruner/prune_images.py:122-141 | the first pass never removes an artifact tag, a name without "-", or a tag started after the cut-off |
| ImagePruner.FirstOfGroupKept | components/image-controller/production/stone-prd-rh01/resources/image_pruner/prune_images.py:127-131 | a tag with fewer than keepMax earlier tags of its group is kept |
| ImagePruner.BeyondKeepMax | components/image-controller/production/stone-prd-rh01/resources/image_pruner/prune_images.py:134-141 | a tag past its group's first keepMax is removed iff it is older than the cut-off |
| ImagePruner.ArtifactsOfMembers | components/image-controller/production/stone-prd-rh01/resources/image_pruner/prune_images.py:143-152 | an artifact tag is selected iff its digest's presence among the given digests is as asked |
| ImagePruner.RemoveTags | components/image-controller/production/stone-prd-rh01/resources/image_pruner/prune_images.py:114-152 | the names selected are the removed tags and then the artifacts of their digests; those are deleted unless it is a dry run |
| ImagePruner.RemoveLeftoverTags | components/image-controller/production/stone-prd-rh01/resources/image_pruner/prune_images.py:97-111 | the names selected are the artifacts whose image is no longer listed; those are deleted unless it is a dry run |
| ImagePruner.ProcessRepository | components/image-controller/production/stone-prd-rh01/resources/image_pruner/prune_images.py:155-171 | the repository is pruned by remove_tags on the listing and then by remove_leftover_tags on the listing after it |

## Left out

- Concurrency: the errgroup workers of `buildAppSetOverlays` and the worker pool and channels of `RunProgressive` run as sequential loops in job order. When a diff error aborts a run, the model keeps the records received before it; the source may have received others concurrently.
- Detector.BuildAppSetOverlays: overlays are built in listing order and the first failing build's error is returned. With goroutines, another failing build may report first.
- YAML decoding and encoding (gopkg.in/yaml.v3, sigs.k8s.io/yaml), the kustomize renderer and difflib are foreign libraries. They are function parameters whose behaviour is not modelled.
- RenderDiff.CountStats: "a component only on head has Added > 0" depends on the text difflib produces, so only the counting over a given diff text is proved.
- Git subprocesses (`internal/git/git.go`) and `os.Stat`/`os.ReadDir` (`internal/detector/reporef.go`) talk to the operating system. Repositories are in-memory maps, like the test fakes.
- Deptree: the file system is an in-memory map, and YAML parsing is reduced to "unreadable", "not a kustomization" or a parsed record. Symbolic links are not modelled. `filepath.Rel` cannot fail on two cleaned absolute paths, so its error returns (resolve.go:90-93, 112-115, 233-236) never happen in the model.
- Deptree.Walked: a revisit returns success at once (resolve.go:56-58), so a resource or component that was visited before counts as success, even when its first walk failed or is still running (a cycle). The model keeps this. Its promises are stated for first walks that succeeded; a nested directory is only promised to be visited.
- Deptree.Resolver.Resolve: the `results` record of how each first walk ended is ghost bookkeeping for the proofs and has no counterpart in the source.
- `filepath.Abs` depends on the process's working directory, so paths are taken as already absolute.
- Logging (`internal/logging`, the `multiHandler` of `env-detector`) has no effect on results.
- Terminal, markdown and CI output (`cmd/render-diff/output.go`, `ci.go`) are presentation only: ANSI colours, the step summary file, environment variables and the size truncation.
- The GitHub and Quay clients use the network. Only the fake services and the recorded calls are modelled; `gh.NewClient` and the labels client's constructor are left out.
- `Detector.AffectedComponents` is called by `render-diff` but defined nowhere in the code, so it is not modelled.
- The webhook migration utility (`hack/git-webhooks`) shells out to `oc` and `jq`, and its test does not match its signatures.
- The Tekton Kueue test script runs a container.
- The GitHub App flow runs an HTTP server and a browser OAuth flow.
- AppSet.ParseApplicationSets: the extraction error branch cannot be reached, because `processMergeGenerators` never returns an error. Only decode failures are modelled as failures.
- Go map iteration order is random. Maps keyed by environment are walked in a fixed environment order (`EnvOrder`), and sets are drained in an arbitrary order; every proved result is independent of that order.
- RenderDiffCli.SortDiffs: `sort.Slice` is not stable, so the stable `SortBy` result is one of the orders the source may produce. Diffs with equal environment and path may come out in another order in the source.
- DetectorLabels.All: the `iter.Seq` is modelled as the sequence it yields, with early stop as a prefix. The consumer is a parameter.
- GithubLabels.Issues: the fake records removals, additions and label creations but does not update the pull request's label list, as in the test fake.
- Normalize.NormalizeYAML: the encoder is a function over the whole document list; its buffer is not modelled.
- RenderDiff.Text: renders are byte sequences turned into text one character per byte. UTF-8 decoding is not modelled, because only equality of texts matters.
- RenderEngine.Engine.BuildPair: a successful kustomize build always yields a non-nil render.
- RenderEngine.Engine.constructor: the CPU count `NewEngine` reads from the runtime is a parameter.
- RenderDiffCli.WriteDiffFiles: file writes are recorded and never fail; `os.MkdirAll` and the diff-tool launch in `openInDiffTool` are left out.
- RenderDiffCli.CheckFlags: the error messages quote values with plain double quotes, not Go's `%q` escaping.
- RenderDiffCli.DedupeUnique: uniqueness holds only for names `diffFileName` can produce. `RenderDiffCli.DedupeCollision` shows the collision for arbitrary names, kept as written.
- RenderDiff.CountStats: content lines beginning with "--" or "++" are not counted, as written (`RenderDiff.HeaderLookalikesUncounted`).
- KueueQuotas.PyInt: Python's `int()` is modelled as optional whitespace, an optional sign and ASCII digits. Underscores and non-ASCII digits are not accepted.
- KueueQuotas.ParseHostConfig: the host config's `data` is taken as already decoded to a mapping from strings to strings, so the model does not capture how the script treats other YAML shapes:
  - `int()` also accepts a YAML integer or boolean value, so `dynamic.x.max-instances: 10` gives a platform (update-kueue-vm-quotas.py:60, 73);
  - a null value raises TypeError in `int()` (update-kueue-vm-quotas.py:60, 73);
  - a non-string `.platform` value raises AttributeError at `replace` (update-kueue-vm-quotas.py:72);
  - a null or non-mapping `config` or `data` raises AttributeError at `config.get` or `data.items()` (update-kueue-vm-quotas.py:110, 113);
  - a non-string key raises AttributeError at `startswith`, or TypeError when sorted with string keys (update-kueue-vm-quotas.py:113, 117).
- KueueQuotas.DistributePlatforms: it requires a group size of at least 1. The script only calls it with 16.
- KueueQuotas.ProcessClusterQueueUpdate: failures carry a message close to the Python exception's text, not the exact one.
- KueueQuotas.ProcessClusterQueueUpdate: documents of odd shape are read leniently, and the update succeeds where the script raises. The shapes are:
  - `resourceGroups: null` reads as no groups, where iterating None raises TypeError (update-kueue-vm-quotas.py:258, 213);
  - a ResourceFlavor whose `metadata` is null or a scalar is skipped, where `.get` raises AttributeError (update-kueue-vm-quotas.py:205, 207);
  - a group that is not a mapping, or a mapping-valued `resourceGroups`, reads as covering nothing, where `.get` raises AttributeError (update-kueue-vm-quotas.py:214);
  - a `coveredResources` written as one string is not searched, where Python's `in` is a substring test that can keep the group (update-kueue-vm-quotas.py:214);
  - a truthy non-mapping `metadata` sorts with an empty name, where the sort key raises AttributeError (update-kueue-vm-quotas.py:288);
  - a non-string `kind` sorts as "", where comparing it with a string kind raises TypeError (update-kueue-vm-quotas.py:286);
  - `coveredResources: null` reads as covering nothing, where `in` on None raises TypeError in the search and `len(None)` raises it in the validation (update-kueue-vm-quotas.py:214, 226);
  - a mapping-valued `coveredResources` reads as covering nothing, where Python's `in` tests the mapping's keys and can keep the group (update-kueue-vm-quotas.py:214);
  - a null or non-string `metadata.name` sorts as "", where comparing it with the string name of a document of the same kind raises TypeError (update-kueue-vm-quotas.py:288);
  - a YAML document that is not a mapping cannot be represented, because a document is a `map<string, Value>`, where `doc.get` raises on it (update-kueue-vm-quotas.py:197).

  The script reads its documents through the `Yaml` accessors shared with the Go core. Those follow Go's comma-ok type assertions, which read a missing or ill-typed field as empty.
- `KueueQuotas.ExtractLocalPlatforms` always fails, as the script does through its undefined name `values`. This is kept as written, so the parse of any host config with "local-platforms" fails.
- Kueue file reading and writing, `print_summary`, `validate_file_paths`, `main` and argument parsing are I/O.
- Quay's HTTP API is the network: `get_quay_tags` pagination, `delete_image_tag`'s retry loop, `quay_test_token`, `main`, argument parsing and environment variables. The repository object stands for it.
- ImagePruner.Repository.DeleteImageTag: deleting a name removes every listed tag with that name.
- ImagePruner.RemoveTags: the cut-off time `days_old` comes from the clock, so it is a parameter. Every tag is assumed to carry `start_ts`.
- ImagePruner.ProcessRepository: in a dry run the leftover pass sees the unpruned listing, as in the script. Logging is modelled by the returned selection.
