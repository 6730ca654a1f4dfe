/**
 * The kustomize dependency walk of `deptree.Resolve`: starting at a directory, read its
 * kustomization file, record every local file it refers to and recurse into the directories it
 * refers to, with a visited set so that each directory is processed at most once.
 *
 * The file system is a finite map from cleaned absolute paths to nodes. A regular file is either
 * unreadable, not a valid kustomization, or a parsed kustomization record; the YAML parser that
 * turns bytes into a record is not part of this model.
 */
module Deptree {
  import opened Wrappers
  import Strs
  import Paths

  type Path = Paths.Path

  /** The file-source fields of a ConfigMap or Secret generator. */
  datatype GeneratorArgs = GeneratorArgs(fileSources: seq<string>, envSources: seq<string>, envSource: string)

  /**
   * The fields of a kustomization record that name other files. `patches` and `json6902` hold
   * the `path` of each patch ("" for an inline patch); `openAPI` is the `openapi` mapping.
   */
  datatype Kustomization = Kustomization(
    resources: seq<string>,
    patches: seq<string>,
    strategicMerge: seq<string>,
    json6902: seq<string>,
    components: seq<string>,
    configMapGenerator: seq<GeneratorArgs>,
    secretGenerator: seq<GeneratorArgs>,
    generators: seq<string>,
    transformers: seq<string>,
    validators: seq<string>,
    configurations: seq<string>,
    crds: seq<string>,
    openAPI: map<string, string>)

  datatype Content = Unreadable | Unparsable | Parsed(k: Kustomization)

  /** A directory lists its entry names in `os.ReadDir` order. */
  datatype Node = Dir(entries: seq<string>) | File(content: Content)

  type FileSystem = map<Path, Node>

  /** Why a directory could not be resolved. */
  datatype Error = NotFound(dir: Path) | ReadFailed(path: Path) | ParseFailed(path: Path)

  datatype Loaded = Loaded(k: Kustomization, file: Path)

  /** The recognised kustomization file names, in lookup order. */
  const KustomizationFileNames: seq<string> := ["kustomization.yaml", "kustomization.yml", "Kustomization"]

  predicate IsDir(fs: FileSystem, p: Path) {
    p in fs && fs[p].Dir?
  }

  /** `loadKustomization`'s lookup of a kustomization file in `dir` under the given names. */
  function LoadFrom(fs: FileSystem, dir: Path, names: seq<string>): Result<Loaded, Error> {
    LoadAt(fs, dir, names, 0)
  }

  /**
   * The lookup over the names from index `i` on: a missing file moves on to the next name,
   * anything else present ends the lookup (a directory or an unreadable file with a read error,
   * an invalid file with a parse error).
   */
  function LoadAt(fs: FileSystem, dir: Path, names: seq<string>, i: nat): Result<Loaded, Error>
    decreases |names| - i
  {
    if i >= |names| then Failure(NotFound(dir))
    else
      var p := dir + [names[i]];
      if p !in fs then LoadAt(fs, dir, names, i + 1)
      else match fs[p]
        case Dir(_) => Failure(ReadFailed(p))
        case File(Unreadable) => Failure(ReadFailed(p))
        case File(Unparsable) => Failure(ParseFailed(p))
        case File(Parsed(k)) => Success(Loaded(k, p))
  }

  /**
   * The names are tried in order: a loaded kustomization is the first of them present, and the
   * lookup ends with "not found" exactly when none of them is present.
   */
  lemma {:induction false} LoadAtSpec(fs: FileSystem, dir: Path, names: seq<string>, i: nat)
    ensures LoadAt(fs, dir, names, i).Success? ==>
      exists j :: i <= j < |names| && LoadAt(fs, dir, names, i).value.file == dir + [names[j]]
        && dir + [names[j]] in fs && fs[dir + [names[j]]] == File(Parsed(LoadAt(fs, dir, names, i).value.k))
        && forall m :: i <= m < j ==> dir + [names[m]] !in fs
    ensures LoadAt(fs, dir, names, i) == Failure(NotFound(dir)) <==> forall m :: i <= m < |names| ==> dir + [names[m]] !in fs
    decreases |names| - i
  {
    if i < |names| && dir + [names[i]] !in fs {
      LoadAtSpec(fs, dir, names, i + 1);
    }
  }

  /**
   * `loadKustomization(dir)`: a missing directory has no kustomization; reading a file below a
   * regular file fails with a read error (not a "does not exist" error).
   */
  function LoadKustomization(fs: FileSystem, dir: Path): (r: Result<Loaded, Error>)
    ensures r.Success? ==> IsDir(fs, dir)
  {
    if dir !in fs then Failure(NotFound(dir))
    else if fs[dir].File? then Failure(ReadFailed(dir + [KustomizationFileNames[0]]))
    else LoadFrom(fs, dir, KustomizationFileNames)
  }

  /** `hasKustomization`: some recognised name exists (as anything) in the directory. */
  predicate HasKustomization(fs: FileSystem, dir: Path) {
    exists j :: 0 <= j < |KustomizationFileNames| && dir + [KustomizationFileNames[j]] in fs
  }

  /** In a directory, the lookup reports "not found" exactly when `hasKustomization` is false. */
  lemma HasKustomizationIffFound(fs: FileSystem, dir: Path)
    requires IsDir(fs, dir)
    ensures HasKustomization(fs, dir) <==> LoadKustomization(fs, dir) != Failure(NotFound(dir))
  {
    LoadAtSpec(fs, dir, KustomizationFileNames, 0);
    if !HasKustomization(fs, dir) {
      assert forall j :: 0 <= j < |KustomizationFileNames| ==> dir + [KustomizationFileNames[j]] !in fs;
    }
  }

  /** With a valid "kustomization.yaml" present, the other names are never looked at. */
  lemma FirstNameWins(fs: FileSystem, dir: Path, k: Kustomization)
    requires IsDir(fs, dir)
    requires dir + ["kustomization.yaml"] in fs && fs[dir + ["kustomization.yaml"]] == File(Parsed(k))
    ensures LoadKustomization(fs, dir) == Success(Loaded(k, dir + ["kustomization.yaml"]))
  {
  }

  /** A "kustomization.yml" is used when "kustomization.yaml" is absent. */
  lemma SecondNameFallback(fs: FileSystem, dir: Path, k: Kustomization)
    requires IsDir(fs, dir)
    requires dir + ["kustomization.yaml"] !in fs
    requires dir + ["kustomization.yml"] in fs && fs[dir + ["kustomization.yml"]] == File(Parsed(k))
    ensures LoadKustomization(fs, dir) == Success(Loaded(k, dir + ["kustomization.yml"]))
  {
    assert KustomizationFileNames[0] == "kustomization.yaml";
    assert LoadAt(fs, dir, KustomizationFileNames, 0) == LoadAt(fs, dir, KustomizationFileNames, 1);
  }

  /** `isRemoteURL`. */
  predicate IsRemoteURL(s: string) {
    Strs.HasPrefix(s, "http://") || Strs.HasPrefix(s, "https://") || Strs.HasPrefix(s, "ssh://")
    || Strs.HasPrefix(s, "git@") || Strs.HasPrefix(s, "git://")
  }

  /** The entries of a reference list that are not remote URLs. */
  function LocalRefs(refs: seq<string>): set<string> {
    set r | r in refs && !IsRemoteURL(r)
  }

  /** A strategic-merge entry that is inline YAML rather than a file name. */
  predicate InlinePatch(s: string) {
    Strs.Contains(s, "\n") || Strs.HasPrefix(s, "{") || Strs.HasPrefix(s, "-")
  }

  /** The path part of a generator file source "key=path" (or just "path"). */
  function FileSourcePath(f: string): (r: string)
    ensures '=' !in f ==> r == f
    ensures '=' in f ==> exists i :: 0 <= i < |f| && f[i] == '=' && '=' !in f[..i] && r == f[i + 1..]
  {
    var idx := Strs.IndexOf(f, '=');
    if idx >= 0 then f[idx + 1..] else f
  }

  /** The files one generator refers to: file sources, env sources and a non-empty env source. */
  function GeneratorFiles(g: GeneratorArgs): set<string> {
    (set f | f in g.fileSources :: FileSourcePath(f))
    + (set e | e in g.envSources)
    + (if g.envSource != "" then {g.envSource} else {})
  }

  function AllGeneratorFiles(gs: seq<GeneratorArgs>): set<string> {
    if |gs| == 0 then {} else GeneratorFiles(gs[0]) + AllGeneratorFiles(gs[1..])
  }

  /** The files added before the components are walked: the three kinds of patches. */
  function PatchFiles(k: Kustomization): set<string> {
    (set p | p in k.patches && p != "")
    + (set s | s in k.strategicMerge && !InlinePatch(s))
    + (set p | p in k.json6902 && p != "")
  }

  /** The files added after the components: generators' sources, plugin configs, CRDs, OpenAPI. */
  function TrailingFiles(k: Kustomization): set<string> {
    AllGeneratorFiles(k.configMapGenerator) + AllGeneratorFiles(k.secretGenerator)
    + LocalRefs(k.generators) + LocalRefs(k.transformers) + LocalRefs(k.validators)
    + (set c | c in k.configurations) + (set c | c in k.crds) + k.openAPI.Values
  }

  /** A remote reference among the plugin lists contributes nothing of its own. */
  lemma RemotePluginNotAdded(k: Kustomization, r: string)
    requires IsRemoteURL(r)
    ensures r !in LocalRefs(k.generators) + LocalRefs(k.transformers) + LocalRefs(k.validators)
  {
  }

  /** `addFile`: the repo-relative name of `ref` resolved against `dir`. */
  function DepOf(root: Path, dir: Path, ref: string): string
    requires Paths.CleanSegments(dir)
  {
    Paths.Rel(root, Paths.JoinPath(dir, ref))
  }

  function DepsOf(root: Path, dir: Path, refs: set<string>): set<string>
    requires Paths.CleanSegments(dir)
  {
    set r | r in refs :: DepOf(root, dir, r)
  }

  /** Every local resource that exists was walked (a directory) or recorded (a file). */
  predicate ResourcesCovered(fs: FileSystem, root: Path, dir: Path, resources: seq<string>,
                             visited: set<Path>, deps: set<string>)
    requires Paths.CleanSegments(dir)
  {
    forall r :: r in resources ==> ResourceCovered(fs, root, dir, r, visited, deps)
  }

  /** One resource entry: a local directory was walked, a local file recorded as a dependency. */
  predicate ResourceCovered(fs: FileSystem, root: Path, dir: Path, r: string, visited: set<Path>, deps: set<string>)
    requires Paths.CleanSegments(dir)
  {
    !IsRemoteURL(r) && Paths.JoinPath(dir, r) in fs ==>
      if IsDir(fs, Paths.JoinPath(dir, r)) then Paths.JoinPath(dir, r) in visited
      else DepOf(root, dir, r) in deps
  }

  /** Every local component was walked. */
  predicate ComponentsVisited(dir: Path, components: seq<string>, visited: set<Path>)
    requires Paths.CleanSegments(dir)
  {
    forall c :: c in components && !IsRemoteURL(c) ==> Paths.JoinPath(dir, c) in visited
  }

  /** A listed entry of `dir` that is a directory holding a kustomization file. */
  predicate KustomizedSubdir(fs: FileSystem, dir: Path, e: string)
    requires Paths.CleanSegments(dir)
  {
    IsDir(fs, Paths.JoinPath(dir, e)) && HasKustomization(fs, Paths.JoinPath(dir, e))
  }

  /** What the walk of a directory it had not visited before promises. */
  predicate Walked(fs: FileSystem, root: Path, dir: Path, err: Option<Error>, visited: set<Path>, deps: set<string>)
    requires Paths.CleanSegments(dir)
  {
    match LoadKustomization(fs, dir)
    case Success(l) =>
      Paths.Rel(root, l.file) in deps
      && (err.None? ==>
            ResourcesCovered(fs, root, dir, l.k.resources, visited, deps)
            && DepsOf(root, dir, PatchFiles(l.k) + TrailingFiles(l.k)) <= deps
            && ComponentsVisited(dir, l.k.components, visited))
    case Failure(e) =>
      (err.None? || err == Some(e))
      && (err.None? ==> IsDir(fs, dir) && exists i :: 0 <= i < |fs[dir].entries| && KustomizedSubdir(fs, dir, fs[dir].entries[i]))
  }

  lemma ResourcesCoveredGrow(fs: FileSystem, root: Path, dir: Path, resources: seq<string>,
                             v: set<Path>, d: set<string>, v': set<Path>, d': set<string>)
    requires Paths.CleanSegments(dir)
    requires ResourcesCovered(fs, root, dir, resources, v, d) && v <= v' && d <= d'
    ensures ResourcesCovered(fs, root, dir, resources, v', d')
  {
  }

  /** A resource list is covered when its first entry and the rest are. */
  lemma ResourcesCoveredCons(fs: FileSystem, root: Path, dir: Path, resources: seq<string>, i: nat,
                             visited: set<Path>, deps: set<string>)
    requires Paths.CleanSegments(dir) && i < |resources|
    requires ResourcesCovered(fs, root, dir, resources[i + 1..], visited, deps)
    requires ResourceCovered(fs, root, dir, resources[i], visited, deps)
    ensures ResourcesCovered(fs, root, dir, resources[i..], visited, deps)
  {
    assert resources[i..] == [resources[i]] + resources[i + 1..];
  }

  /** A component list is walked when its first entry and the rest are. */
  lemma ComponentsVisitedCons(dir: Path, components: seq<string>, i: nat, visited: set<Path>)
    requires Paths.CleanSegments(dir) && i < |components|
    requires ComponentsVisited(dir, components[i + 1..], visited)
    requires !IsRemoteURL(components[i]) ==> Paths.JoinPath(dir, components[i]) in visited
    ensures ComponentsVisited(dir, components[i..], visited)
  {
    assert components[i..] == [components[i]] + components[i + 1..];
  }

  lemma WholeSuffix<T>(s: seq<T>)
    ensures s[0..] == s
  {
  }

  lemma {:induction false} SubsetCard<T>(a: set<T>, b: set<T>)
    requires a <= b
    ensures |a| <= |b|
    decreases |a|
  {
    if a != {} {
      var x :| x in a;
      SubsetCard(a - {x}, b - {x});
    }
  }

  /** Visiting more directories never increases the number of unvisited ones. */
  lemma UnvisitedShrinks(keys: set<Path>, v: set<Path>, v': set<Path>)
    requires v <= v'
    ensures |keys - v'| <= |keys - v|
  {
    SubsetCard(keys - v', keys - v);
  }

  /** The references of a kustomization whose resolved paths the walk may record. */
  function AllRefs(k: Kustomization): set<string> {
    LocalRefs(k.resources) + PatchFiles(k) + TrailingFiles(k)
  }

  /** `x` is recorded by the walk of `d`: its kustomization file, or a file that kustomization names. */
  ghost predicate DepSource(fs: FileSystem, root: Path, d: Path, x: string) {
    Paths.CleanSegments(d) && LoadKustomization(fs, d).Success?
    && (x == Paths.Rel(root, LoadKustomization(fs, d).value.file)
        || exists r :: r in AllRefs(LoadKustomization(fs, d).value.k) && x == DepOf(root, d, r))
  }

  /** Every recorded dependency comes from some visited directory's kustomization. */
  ghost predicate Sound(fs: FileSystem, root: Path, visited: set<Path>, deps: set<string>) {
    forall x :: x in deps ==> exists d :: d in visited && DepSource(fs, root, d, x)
  }

  /**
   * How the first walk of a directory ended: what it returned, and the `visited` and `deps` sets
   * at that moment.
   */
  datatype WalkEnd = WalkEnd(err: Option<Error>, visited: set<Path>, deps: set<string>)

  /** The state the walk threads through: `visited`, `deps`, and how each finished walk ended. */
  datatype State = State(visited: set<Path>, deps: set<string>, results: map<Path, WalkEnd>)

  /** What a walk returns, and the state it leaves. */
  datatype Out = Out(err: Option<Error>, st: State)

  /** What the fallback scan did with one listed entry: nothing, or a walk that returned `err`. */
  datatype SubWalk = NotKustomized | Returned(err: Option<Error>)

  /** What the fallback scan did with each listed entry, and the state it leaves. */
  datatype Scan = Scan(outs: seq<SubWalk>, st: State)

  /** The walk of `dir` has just finished with `err`. */
  function Record(dir: Path, err: Option<Error>, s: State): State {
    s.(results := s.results[dir := WalkEnd(err, s.visited, s.deps)])
  }

  function AddDeps(s: State, xs: set<string>): State {
    s.(deps := s.deps + xs)
  }

  /**
   * `resolve(repoRoot, dir, deps, visited)` as a function of the state: a visited directory is
   * skipped; otherwise it is marked visited, and either its kustomization is walked or, when it has
   * none, its subdirectories are scanned. The walk's end is recorded in `results`.
   */
  ghost function Walk(fs: FileSystem, root: Path, dir: Path, s: State): (o: Out)
    requires Paths.CleanSegments(dir)
    ensures s.visited + {dir} <= o.st.visited
    decreases |fs.Keys - s.visited|, 3, 0
  {
    if dir in s.visited then Out(None, s)
    else
      var budget := |fs.Keys - s.visited|;
      var s1 := s.(visited := s.visited + {dir});
      var loaded := LoadKustomization(fs, dir);
      var o := (
        if loaded.Success? then
          VisitShrinks(fs.Keys, s.visited, dir);
          WalkLoaded(fs, root, dir, loaded.value, s1, budget)
        else if !IsDir(fs, dir) then Out(Some(loaded.error), s1)
        else
          VisitShrinks(fs.Keys, s.visited, dir);
          var f := Fallback(fs, root, dir, fs[dir].entries, |fs[dir].entries|, s1, budget);
          Out(if Returned(None) in f.outs then None else Some(loaded.error), f.st));
      Out(o.err, Record(dir, o.err, o.st))
  }

  /** The walk of a directory whose kustomization `l` loaded: record its file, then walk the resources. */
  ghost function WalkLoaded(fs: FileSystem, root: Path, dir: Path, l: Loaded, s: State, budget: nat): (o: Out)
    requires Paths.CleanSegments(dir) && |fs.Keys - s.visited| < budget
    ensures s.visited <= o.st.visited
    decreases budget, 2, 0
  {
    var r := Resources(fs, root, dir, l.k.resources, 0, AddDeps(s, {Paths.Rel(root, l.file)}), budget);
    if r.err.Some? then r
    else
      UnvisitedShrinks(fs.Keys, s.visited, r.st.visited);
      WalkPatched(fs, root, dir, l.k, r.st, budget)
  }

  /** After the resources: record the patches, walk the components, record the remaining files. */
  ghost function WalkPatched(fs: FileSystem, root: Path, dir: Path, k: Kustomization, s: State, budget: nat): (o: Out)
    requires Paths.CleanSegments(dir) && |fs.Keys - s.visited| < budget
    ensures s.visited <= o.st.visited
    decreases budget, 1, 0
  {
    var c := Components(fs, root, dir, k.components, 0, AddDeps(s, DepsOf(root, dir, PatchFiles(k))), budget);
    if c.err.Some? then c
    else Out(None, AddDeps(c.st, DepsOf(root, dir, TrailingFiles(k))))
  }

  /** The `resources` loop from entry `i` on: skip URLs and missing paths, walk directories, record files. */
  ghost function Resources(fs: FileSystem, root: Path, dir: Path, res: seq<string>, i: nat, s: State, budget: nat): (o: Out)
    requires Paths.CleanSegments(dir) && i <= |res| && |fs.Keys - s.visited| < budget
    ensures s.visited <= o.st.visited
    decreases budget, 0, |res| - i
  {
    if i == |res| then Out(None, s)
    else
      var absPath := Paths.JoinPath(dir, res[i]);
      if IsRemoteURL(res[i]) || absPath !in fs then Resources(fs, root, dir, res, i + 1, s, budget)
      else if fs[absPath].Dir? then
        var w := Walk(fs, root, absPath, s);
        if w.err.Some? then w
        else
          UnvisitedShrinks(fs.Keys, s.visited, w.st.visited);
          Resources(fs, root, dir, res, i + 1, w.st, budget)
      else Resources(fs, root, dir, res, i + 1, AddDeps(s, {DepOf(root, dir, res[i])}), budget)
  }

  /** The `components` loop from entry `i` on: walk every local component, stopping at the first error. */
  ghost function Components(fs: FileSystem, root: Path, dir: Path, comps: seq<string>, i: nat, s: State, budget: nat): (o: Out)
    requires Paths.CleanSegments(dir) && i <= |comps| && |fs.Keys - s.visited| < budget
    ensures s.visited <= o.st.visited
    decreases budget, 0, |comps| - i
  {
    if i == |comps| then Out(None, s)
    else if IsRemoteURL(comps[i]) then Components(fs, root, dir, comps, i + 1, s, budget)
    else
      var w := Walk(fs, root, Paths.JoinPath(dir, comps[i]), s);
      if w.err.Some? then w
      else
        UnvisitedShrinks(fs.Keys, s.visited, w.st.visited);
        Components(fs, root, dir, comps, i + 1, w.st, budget)
  }

  /** The fallback scan over the first `n` listed entries: walk each subdirectory that holds a kustomization. */
  ghost function Fallback(fs: FileSystem, root: Path, dir: Path, entries: seq<string>, n: nat, s: State, budget: nat): (o: Scan)
    requires Paths.CleanSegments(dir) && n <= |entries| && |fs.Keys - s.visited| < budget
    ensures s.visited <= o.st.visited && |o.outs| == n
    decreases budget, 0, n
  {
    if n == 0 then Scan([], s)
    else
      var before := Fallback(fs, root, dir, entries, n - 1, s, budget);
      if KustomizedSubdir(fs, dir, entries[n - 1]) then
        UnvisitedShrinks(fs.Keys, s.visited, before.st.visited);
        var w := Walk(fs, root, Paths.JoinPath(dir, entries[n - 1]), before.st);
        Scan(before.outs + [Returned(w.err)], w.st)
      else Scan(before.outs + [NotKustomized], before.st)
  }

  /** Every finished walk that succeeded kept its promises in the state it finished in. */
  predicate SuccessesKept(fs: FileSystem, root: Path, results: map<Path, WalkEnd>) {
    forall d :: d in results && results[d].err.None? ==>
      Paths.CleanSegments(d) && Walked(fs, root, d, None, results[d].visited, results[d].deps)
  }

  /** The states the finished walks ended in are below the current one. */
  predicate SnapshotsBelow(results: map<Path, WalkEnd>, visited: set<Path>, deps: set<string>) {
    forall d :: d in results ==> results[d].visited <= visited && results[d].deps <= deps
  }

  /** What holds of every state the walk passes through. */
  ghost predicate Inv(fs: FileSystem, root: Path, s: State) {
    s.results.Keys <= s.visited
    && SnapshotsBelow(s.results, s.visited, s.deps)
    && SuccessesKept(fs, root, s.results)
    && Sound(fs, root, s.visited, s.deps)
  }

  /**
   * `t` follows `s`: the sets only grow, recorded ends never change, and the directories visited
   * in between are exactly those whose ends were recorded in between.
   */
  ghost predicate Grows(s: State, t: State) {
    s.visited <= t.visited && s.deps <= t.deps
    && (forall d :: d in s.results ==> d in t.results && t.results[d] == s.results[d])
    && (forall d :: d in t.visited && d !in s.visited ==> d in t.results)
    && (forall d :: d in t.results && d !in s.results ==> d !in s.visited)
  }

  /** The first walk of `dir` ended as `o` says, was recorded, and kept its promises. */
  ghost predicate Ends(fs: FileSystem, root: Path, dir: Path, o: Out)
    requires Paths.CleanSegments(dir)
  {
    dir in o.st.results && o.st.results[dir] == WalkEnd(o.err, o.st.visited, o.st.deps)
    && Walked(fs, root, dir, o.err, o.st.visited, o.st.deps)
  }

  lemma GrowsRefl(s: State)
    ensures Grows(s, s)
  {
  }

  lemma GrowsTrans(s: State, t: State, u: State)
    requires Grows(s, t) && Grows(t, u)
    ensures Grows(s, u)
  {
  }

  /** Recording more dependencies is growth. */
  lemma GrowsDeps(s: State, xs: set<string>)
    ensures Grows(s, AddDeps(s, xs))
  {
  }

  /** Marking `dir` visited, walking on to `t` and recording `dir`'s end is growth from `s`. */
  lemma GrowsVisit(s: State, dir: Path, t: State, err: Option<Error>)
    requires dir !in s.visited && s.results.Keys <= s.visited
    requires Grows(s.(visited := s.visited + {dir}), t)
    ensures Grows(s, Record(dir, err, t))
  {
  }

  /** A successful walk's promises survive more visiting and recording. */
  lemma WalkedGrow(fs: FileSystem, root: Path, dir: Path, v: set<Path>, d: set<string>, v': set<Path>, d': set<string>)
    requires Paths.CleanSegments(dir) && Walked(fs, root, dir, None, v, d) && v <= v' && d <= d'
    ensures Walked(fs, root, dir, None, v', d')
  {
    var l := LoadKustomization(fs, dir);
    if l.Success? {
      ResourcesCoveredGrow(fs, root, dir, l.value.k.resources, v, d, v', d');
    }
  }

  /** Marking one more existing directory visited shrinks the unvisited ones. */
  lemma VisitShrinks(keys: set<Path>, v: set<Path>, x: Path)
    requires x in keys && x !in v
    ensures |keys - (v + {x})| < |keys - v|
  {
    assert keys - (v + {x}) == (keys - v) - {x};
  }

  /** One more reference handled by the `addFile` loop. */
  lemma TodoStep(d: set<string>, root: Path, dir: Path, refs: set<string>, todo: set<string>, r: string)
    requires Paths.CleanSegments(dir) && r in todo && todo <= refs
    ensures d + DepsOf(root, dir, refs - todo) + {DepOf(root, dir, r)} == d + DepsOf(root, dir, refs - (todo - {r}))
  {
    assert refs - (todo - {r}) == (refs - todo) + {r};
    assert DepsOf(root, dir, refs - (todo - {r})) == DepsOf(root, dir, refs - todo) + {DepOf(root, dir, r)};
  }

  lemma DepsOfUnion(root: Path, dir: Path, a: set<string>, b: set<string>)
    requires Paths.CleanSegments(dir)
    ensures DepsOf(root, dir, a + b) == DepsOf(root, dir, a) + DepsOf(root, dir, b)
  {
  }

  /** The files of a loaded kustomization's references have it as their source. */
  lemma RefsSourced(fs: FileSystem, root: Path, dir: Path, refs: set<string>)
    requires Paths.CleanSegments(dir) && LoadKustomization(fs, dir).Success?
    requires refs <= AllRefs(LoadKustomization(fs, dir).value.k)
    ensures forall x :: x in DepsOf(root, dir, refs) ==> DepSource(fs, root, dir, x)
  {
    forall x | x in DepsOf(root, dir, refs) ensures DepSource(fs, root, dir, x) {
      var r :| r in refs && x == DepOf(root, dir, r);
    }
  }

  lemma InvVisit(fs: FileSystem, root: Path, s: State, dir: Path)
    requires Inv(fs, root, s)
    ensures Inv(fs, root, s.(visited := s.visited + {dir}))
  {
    var v := s.visited + {dir};
    forall x | x in s.deps ensures exists d :: d in v && DepSource(fs, root, d, x) {
      var d :| d in s.visited && DepSource(fs, root, d, x);
    }
  }

  lemma InvAddDeps(fs: FileSystem, root: Path, s: State, dir: Path, xs: set<string>)
    requires Inv(fs, root, s) && dir in s.visited
    requires forall x :: x in xs ==> DepSource(fs, root, dir, x)
    ensures Inv(fs, root, AddDeps(s, xs))
  {
    forall x | x in s.deps + xs ensures exists d :: d in s.visited && DepSource(fs, root, d, x) {
      if x !in xs {
        var d :| d in s.visited && DepSource(fs, root, d, x);
      }
    }
  }

  lemma InvRecord(fs: FileSystem, root: Path, s: State, dir: Path, err: Option<Error>)
    requires Inv(fs, root, s) && dir in s.visited && Paths.CleanSegments(dir)
    requires Walked(fs, root, dir, err, s.visited, s.deps)
    ensures Inv(fs, root, Record(dir, err, s))
  {
  }

  /**
   * The walk of `dir` from a state satisfying the invariant keeps it and only grows the state. A
   * revisit changes nothing; a first walk records its end and keeps the promises of `Walked`.
   */
  lemma {:induction false} WalkSpec(fs: FileSystem, root: Path, dir: Path, s: State)
    requires Paths.CleanSegments(dir) && Inv(fs, root, s)
    ensures Inv(fs, root, Walk(fs, root, dir, s).st) && Grows(s, Walk(fs, root, dir, s).st)
    ensures dir in s.visited ==> Walk(fs, root, dir, s) == Out(None, s)
    ensures dir !in s.visited ==> Ends(fs, root, dir, Walk(fs, root, dir, s))
    decreases |fs.Keys - s.visited|, 3, 0
  {
    if dir in s.visited {
      GrowsRefl(s);
      return;
    }
    var budget := |fs.Keys - s.visited|;
    var s1 := s.(visited := s.visited + {dir});
    InvVisit(fs, root, s, dir);
    var err: Option<Error>, t: State;
    var loaded := LoadKustomization(fs, dir);
    if loaded.Success? {
      VisitShrinks(fs.Keys, s.visited, dir);
      WalkLoadedSpec(fs, root, dir, loaded.value, s1, budget);
      var o := WalkLoaded(fs, root, dir, loaded.value, s1, budget);
      err, t := o.err, o.st;
    } else if !IsDir(fs, dir) {
      err, t := Some(loaded.error), s1;
      GrowsRefl(s1);
    } else {
      VisitShrinks(fs.Keys, s.visited, dir);
      var entries := fs[dir].entries;
      FallbackSpec(fs, root, dir, entries, |entries|, s1, budget);
      var f := Fallback(fs, root, dir, entries, |entries|, s1, budget);
      err, t := if Returned(None) in f.outs then None else Some(loaded.error), f.st;
      if err.None? {
        var j :| 0 <= j < |f.outs| && f.outs[j] == Returned(None);
        assert ScanEntry(fs, dir, entries[j], f.outs[j], f.st);
      }
    }
    assert Walk(fs, root, dir, s) == Out(err, Record(dir, err, t));
    InvRecord(fs, root, t, dir, err);
    GrowsVisit(s, dir, t, err);
  }

  /** The walk of a loaded kustomization keeps the invariant, only grows the state, and keeps the promises of `Walked`. */
  lemma {:induction false} WalkLoadedSpec(fs: FileSystem, root: Path, dir: Path, l: Loaded, s: State, budget: nat)
    requires Paths.CleanSegments(dir) && |fs.Keys - s.visited| < budget
    requires Inv(fs, root, s) && dir in s.visited && LoadKustomization(fs, dir) == Success(l)
    ensures Inv(fs, root, WalkLoaded(fs, root, dir, l, s, budget).st)
    ensures Grows(s, WalkLoaded(fs, root, dir, l, s, budget).st)
    ensures Walked(fs, root, dir, WalkLoaded(fs, root, dir, l, s, budget).err,
                   WalkLoaded(fs, root, dir, l, s, budget).st.visited, WalkLoaded(fs, root, dir, l, s, budget).st.deps)
    decreases budget, 2, 0
  {
    var s1 := AddDeps(s, {Paths.Rel(root, l.file)});
    InvAddDeps(fs, root, s, dir, {Paths.Rel(root, l.file)});
    GrowsDeps(s, {Paths.Rel(root, l.file)});
    ResourcesSpec(fs, root, dir, l.k.resources, 0, s1, budget);
    var r := Resources(fs, root, dir, l.k.resources, 0, s1, budget);
    GrowsTrans(s, s1, r.st);
    if r.err.None? {
      UnvisitedShrinks(fs.Keys, s.visited, r.st.visited);
      WalkPatchedSpec(fs, root, dir, l.k, r.st, budget);
      var o := WalkPatched(fs, root, dir, l.k, r.st, budget);
      GrowsTrans(s, r.st, o.st);
      if o.err.None? {
        WholeSuffix(l.k.resources);
        ResourcesCoveredGrow(fs, root, dir, l.k.resources, r.st.visited, r.st.deps, o.st.visited, o.st.deps);
      }
    }
  }

  /** The walk after the resources keeps the invariant, only grows the state, and covers patches, components and the remaining files. */
  lemma {:induction false} WalkPatchedSpec(fs: FileSystem, root: Path, dir: Path, k: Kustomization, s: State, budget: nat)
    requires Paths.CleanSegments(dir) && |fs.Keys - s.visited| < budget
    requires Inv(fs, root, s) && dir in s.visited && LoadKustomization(fs, dir).Success? && LoadKustomization(fs, dir).value.k == k
    ensures Inv(fs, root, WalkPatched(fs, root, dir, k, s, budget).st)
    ensures Grows(s, WalkPatched(fs, root, dir, k, s, budget).st)
    ensures WalkPatched(fs, root, dir, k, s, budget).err.None? ==>
              DepsOf(root, dir, PatchFiles(k) + TrailingFiles(k)) <= WalkPatched(fs, root, dir, k, s, budget).st.deps
              && ComponentsVisited(dir, k.components, WalkPatched(fs, root, dir, k, s, budget).st.visited)
    decreases budget, 1, 0
  {
    var s2 := AddDeps(s, DepsOf(root, dir, PatchFiles(k)));
    RefsSourced(fs, root, dir, PatchFiles(k));
    InvAddDeps(fs, root, s, dir, DepsOf(root, dir, PatchFiles(k)));
    GrowsDeps(s, DepsOf(root, dir, PatchFiles(k)));
    ComponentsSpec(fs, root, dir, k.components, 0, s2, budget);
    var c := Components(fs, root, dir, k.components, 0, s2, budget);
    GrowsTrans(s, s2, c.st);
    if c.err.None? {
      var s3 := AddDeps(c.st, DepsOf(root, dir, TrailingFiles(k)));
      RefsSourced(fs, root, dir, TrailingFiles(k));
      InvAddDeps(fs, root, c.st, dir, DepsOf(root, dir, TrailingFiles(k)));
      GrowsDeps(c.st, DepsOf(root, dir, TrailingFiles(k)));
      GrowsTrans(s, c.st, s3);
      WholeSuffix(k.components);
      DepsOfUnion(root, dir, PatchFiles(k), TrailingFiles(k));
    }
  }

  /** The `resources` loop keeps the invariant, only grows the state, and covers the entries it passed. */
  lemma {:induction false} ResourcesSpec(fs: FileSystem, root: Path, dir: Path, res: seq<string>, i: nat, s: State, budget: nat)
    requires Paths.CleanSegments(dir) && i <= |res| && |fs.Keys - s.visited| < budget
    requires Inv(fs, root, s) && dir in s.visited
    requires LoadKustomization(fs, dir).Success? && res == LoadKustomization(fs, dir).value.k.resources
    ensures Inv(fs, root, Resources(fs, root, dir, res, i, s, budget).st)
    ensures Grows(s, Resources(fs, root, dir, res, i, s, budget).st)
    ensures Resources(fs, root, dir, res, i, s, budget).err.None? ==>
              ResourcesCovered(fs, root, dir, res[i..], Resources(fs, root, dir, res, i, s, budget).st.visited,
                               Resources(fs, root, dir, res, i, s, budget).st.deps)
    decreases budget, 0, |res| - i
  {
    if i == |res| {
      GrowsRefl(s);
      return;
    }
    var o := Resources(fs, root, dir, res, i, s, budget);
    var absPath := Paths.JoinPath(dir, res[i]);
    var t: State;
    if IsRemoteURL(res[i]) || absPath !in fs {
      t := s;
      GrowsRefl(s);
    } else if fs[absPath].Dir? {
      WalkSpec(fs, root, absPath, s);
      var w := Walk(fs, root, absPath, s);
      if w.err.Some? {
        return;
      }
      UnvisitedShrinks(fs.Keys, s.visited, w.st.visited);
      t := w.st;
    } else {
      t := AddDeps(s, {DepOf(root, dir, res[i])});
      RefsSourced(fs, root, dir, {res[i]});
      InvAddDeps(fs, root, s, dir, {DepOf(root, dir, res[i])});
      GrowsDeps(s, {DepOf(root, dir, res[i])});
    }
    assert o == Resources(fs, root, dir, res, i + 1, t, budget);
    ResourcesSpec(fs, root, dir, res, i + 1, t, budget);
    GrowsTrans(s, t, o.st);
    if o.err.None? {
      ResourcesCoveredCons(fs, root, dir, res, i, o.st.visited, o.st.deps);
    }
  }

  /** The `components` loop keeps the invariant, only grows the state, and walks the entries it passed. */
  lemma {:induction false} ComponentsSpec(fs: FileSystem, root: Path, dir: Path, comps: seq<string>, i: nat, s: State, budget: nat)
    requires Paths.CleanSegments(dir) && i <= |comps| && |fs.Keys - s.visited| < budget
    requires Inv(fs, root, s)
    ensures Inv(fs, root, Components(fs, root, dir, comps, i, s, budget).st)
    ensures Grows(s, Components(fs, root, dir, comps, i, s, budget).st)
    ensures Components(fs, root, dir, comps, i, s, budget).err.None? ==>
              ComponentsVisited(dir, comps[i..], Components(fs, root, dir, comps, i, s, budget).st.visited)
    decreases budget, 0, |comps| - i
  {
    if i == |comps| {
      GrowsRefl(s);
      return;
    }
    var o := Components(fs, root, dir, comps, i, s, budget);
    var t: State;
    if IsRemoteURL(comps[i]) {
      t := s;
      GrowsRefl(s);
    } else {
      WalkSpec(fs, root, Paths.JoinPath(dir, comps[i]), s);
      var w := Walk(fs, root, Paths.JoinPath(dir, comps[i]), s);
      if w.err.Some? {
        return;
      }
      UnvisitedShrinks(fs.Keys, s.visited, w.st.visited);
      t := w.st;
    }
    assert o == Components(fs, root, dir, comps, i + 1, t, budget);
    ComponentsSpec(fs, root, dir, comps, i + 1, t, budget);
    GrowsTrans(s, t, o.st);
    if o.err.None? {
      ComponentsVisitedCons(dir, comps, i, o.st.visited);
    }
  }

  /**
   * What the fallback scan's record says of the listed entry `e`: it was walked exactly when it is
   * a subdirectory holding a kustomization; then it is visited, and if its walk failed, that failure
   * is recorded as its end.
   */
  ghost predicate ScanEntry(fs: FileSystem, dir: Path, e: string, out: SubWalk, st: State)
    requires Paths.CleanSegments(dir)
  {
    (out.Returned? <==> KustomizedSubdir(fs, dir, e))
    && (out.Returned? ==> Paths.JoinPath(dir, e) in st.visited)
    && (out.Returned? && out.err.Some? ==>
          Paths.JoinPath(dir, e) in st.results && st.results[Paths.JoinPath(dir, e)].err == out.err)
  }

  /** The record of the scan describes every entry it passed. */
  ghost predicate Scanned(fs: FileSystem, dir: Path, entries: seq<string>, o: Scan)
    requires Paths.CleanSegments(dir)
  {
    |o.outs| <= |entries| && forall j :: 0 <= j < |o.outs| ==> ScanEntry(fs, dir, entries[j], o.outs[j], o.st)
  }

  lemma ScanEntryGrow(fs: FileSystem, dir: Path, e: string, out: SubWalk, s: State, t: State)
    requires Paths.CleanSegments(dir) && ScanEntry(fs, dir, e, out, s) && Grows(s, t)
    ensures ScanEntry(fs, dir, e, out, t)
  {
  }

  /** A scan record extended by the next entry. */
  lemma ScannedSnoc(fs: FileSystem, dir: Path, entries: seq<string>, before: Scan, out: SubWalk, t: State)
    requires Paths.CleanSegments(dir) && |before.outs| < |entries|
    requires Scanned(fs, dir, entries, before) && Grows(before.st, t)
    requires ScanEntry(fs, dir, entries[|before.outs|], out, t)
    ensures Scanned(fs, dir, entries, Scan(before.outs + [out], t))
  {
    var outs := before.outs + [out];
    forall j | 0 <= j < |outs| ensures ScanEntry(fs, dir, entries[j], outs[j], t) {
      if j < |before.outs| {
        ScanEntryGrow(fs, dir, entries[j], before.outs[j], before.st, t);
      }
    }
  }

  /** The fallback scan from `s` to `o` kept the invariant, only grew the state, and recorded what it passed. */
  ghost predicate ScanKept(fs: FileSystem, root: Path, dir: Path, entries: seq<string>, s: State, o: Scan)
    requires Paths.CleanSegments(dir)
  {
    Inv(fs, root, o.st) && Grows(s, o.st) && Scanned(fs, dir, entries, o)
  }

  /** One more entry of the fallback scan keeps the invariant, the growth and the scan record. */
  lemma {:induction false} FallbackStepSpec(fs: FileSystem, root: Path, dir: Path, entries: seq<string>, n: nat, s: State, budget: nat)
    requires Paths.CleanSegments(dir) && 0 < n <= |entries| && |fs.Keys - s.visited| < budget
    requires ScanKept(fs, root, dir, entries, s, Fallback(fs, root, dir, entries, n - 1, s, budget))
    ensures ScanKept(fs, root, dir, entries, s, Fallback(fs, root, dir, entries, n, s, budget))
    decreases budget, 0, n - 1, 0
  {
    var before := Fallback(fs, root, dir, entries, n - 1, s, budget);
    var e := entries[n - 1];
    if KustomizedSubdir(fs, dir, e) {
      var sub := Paths.JoinPath(dir, e);
      UnvisitedShrinks(fs.Keys, s.visited, before.st.visited);
      WalkSpec(fs, root, sub, before.st);
      var w := Walk(fs, root, sub, before.st);
      GrowsTrans(s, before.st, w.st);
      assert ScanEntry(fs, dir, e, Returned(w.err), w.st);
      ScannedSnoc(fs, dir, entries, before, Returned(w.err), w.st);
    } else {
      GrowsRefl(before.st);
      ScannedSnoc(fs, dir, entries, before, NotKustomized, before.st);
    }
  }

  /**
   * The fallback scan keeps the invariant, only grows the state, and its record describes every
   * entry it passed (`Scanned`).
   */
  lemma {:induction false} FallbackSpec(fs: FileSystem, root: Path, dir: Path, entries: seq<string>, n: nat, s: State, budget: nat)
    requires Paths.CleanSegments(dir) && n <= |entries| && |fs.Keys - s.visited| < budget
    requires Inv(fs, root, s)
    ensures ScanKept(fs, root, dir, entries, s, Fallback(fs, root, dir, entries, n, s, budget))
    decreases budget, 0, n, 1
  {
    if n == 0 {
      GrowsRefl(s);
    } else {
      FallbackSpec(fs, root, dir, entries, n - 1, s, budget);
      FallbackStepSpec(fs, root, dir, entries, n, s, budget);
    }
  }

  /**
   * The shared state of one `Resolve` call: the file system and repository root it reads, and the
   * `deps` and `visited` sets the recursive walk updates in place. The ghost map `results` records
   * how the first walk of each finished directory ended.
   */
  class Resolver {
    const fs: FileSystem
    const root: Path
    var deps: set<string>
    var visited: set<Path>
    ghost var results: map<Path, WalkEnd>

    /** The walk's state as a value. */
    ghost function Current(): State
      reads this
    {
      State(visited, deps, results)
    }

    constructor(fs: FileSystem, root: Path)
      ensures this.fs == fs && this.root == root && deps == {} && visited == {} && results == map[]
    {
      this.fs := fs;
      this.root := root;
      deps := {};
      visited := {};
      results := map[];
    }

    /** `addFile` for each of `refs`. */
    method AddFiles(dir: Path, refs: set<string>)
      requires Paths.CleanSegments(dir)
      modifies this`deps
      ensures deps == old(deps) + DepsOf(root, dir, refs)
    {
      var todo := refs;
      while todo != {}
        invariant todo <= refs
        invariant deps == old(deps) + DepsOf(root, dir, refs - todo)
        decreases |todo|
      {
        var r :| r in todo;
        TodoStep(old(deps), root, dir, refs, todo, r);
        deps := deps + {DepOf(root, dir, r)};
        todo := todo - {r};
      }
      assert refs - todo == refs;
    }

    /** `resolve(repoRoot, absDir, deps, visited)`. */
    method Resolve(absDir: Path) returns (err: Option<Error>)
      requires Paths.CleanSegments(absDir)
      modifies this
      decreases |fs.Keys - visited|, 2
      ensures Out(err, Current()) == Walk(fs, root, absDir, old(Current()))
    {
      if absDir in visited {
        return None;
      }
      ghost var budget := |fs.Keys - visited|;
      visited := visited + {absDir};
      var loaded := LoadKustomization(fs, absDir);
      if loaded.Failure? {
        if IsDir(fs, absDir) {
          VisitShrinks(fs.Keys, old(visited), absDir);
        }
        ghost var outs;
        err, outs := ResolveFallback(absDir, loaded.error, budget);
      } else {
        VisitShrinks(fs.Keys, old(visited), absDir);
        err := ResolveLoaded(absDir, loaded.value, budget);
      }
      results := results[absDir := WalkEnd(err, visited, deps)];
    }

    /** The rest of `resolve` once the kustomization `l` of `absDir` has loaded. */
    method ResolveLoaded(absDir: Path, l: Loaded, ghost budget: nat) returns (err: Option<Error>)
      requires Paths.CleanSegments(absDir) && |fs.Keys - visited| < budget
      modifies this
      decreases budget, 1
      ensures Out(err, Current()) == WalkLoaded(fs, root, absDir, l, old(Current()), budget)
    {
      deps := deps + {Paths.Rel(root, l.file)};
      err := ResolveResources(absDir, l.k.resources, budget);
      if err.Some? {
        return;
      }
      ghost var s := Current();
      UnvisitedShrinks(fs.Keys, old(visited), visited);
      AddFiles(absDir, PatchFiles(l.k));
      err := ResolveComponents(absDir, l.k.components, budget);
      if err.None? {
        AddFiles(absDir, TrailingFiles(l.k));
      }
      assert Out(err, Current()) == WalkPatched(fs, root, absDir, l.k, s, budget);
    }

    /**
     * The directory had no usable kustomization: walk its subdirectories that hold one. `outs`
     * records, per listed entry, whether it was walked and what that walk returned; the result is
     * success iff some walk returned success.
     */
    method ResolveFallback(absDir: Path, original: Error, ghost budget: nat) returns (err: Option<Error>, ghost outs: seq<SubWalk>)
      requires Paths.CleanSegments(absDir)
      requires IsDir(fs, absDir) ==> |fs.Keys - visited| < budget
      modifies this
      decreases budget, 0
      ensures !IsDir(fs, absDir) ==> err == Some(original) && outs == [] && Current() == old(Current())
      ensures IsDir(fs, absDir) ==>
                Scan(outs, Current()) == Fallback(fs, root, absDir, fs[absDir].entries, |fs[absDir].entries|, old(Current()), budget)
      ensures err.None? <==> Returned(None) in outs
      ensures err.Some? ==> err == Some(original)
    {
      outs := [];
      if !IsDir(fs, absDir) {
        return Some(original), outs;
      }
      var entries := fs[absDir].entries;
      var found := false;
      for i := 0 to |entries|
        invariant |fs.Keys - visited| < budget
        invariant found <==> Returned(None) in outs
        invariant Scan(outs, Current()) == Fallback(fs, root, absDir, entries, i, old(Current()), budget)
      {
        var sub := Paths.JoinPath(absDir, entries[i]);
        if IsDir(fs, sub) && HasKustomization(fs, sub) {
          ghost var v := visited;
          var subErr := Resolve(sub);
          UnvisitedShrinks(fs.Keys, v, visited);
          outs := outs + [Returned(subErr)];
          if subErr.None? {
            found := true;
          }
        } else {
          outs := outs + [NotKustomized];
        }
      }
      if !found {
        return Some(original), outs;
      }
      return None, outs;
    }

    /** The `resources` loop: skip URLs and missing paths, walk directories, record files. */
    method ResolveResources(absDir: Path, resources: seq<string>, ghost budget: nat) returns (err: Option<Error>)
      requires Paths.CleanSegments(absDir) && |fs.Keys - visited| < budget
      modifies this
      decreases budget, 0
      ensures Out(err, Current()) == Resources(fs, root, absDir, resources, 0, old(Current()), budget)
    {
      for i := 0 to |resources|
        invariant |fs.Keys - visited| < budget
        invariant Resources(fs, root, absDir, resources, i, Current(), budget)
                  == Resources(fs, root, absDir, resources, 0, old(Current()), budget)
      {
        ghost var s := Current();
        var res := resources[i];
        if !IsRemoteURL(res) {
          var absPath := Paths.JoinPath(absDir, res);
          if absPath in fs {
            if fs[absPath].Dir? {
              err := Resolve(absPath);
              if err.Some? {
                assert Out(err, Current()) == Resources(fs, root, absDir, resources, i, s, budget);
                return;
              }
              UnvisitedShrinks(fs.Keys, s.visited, visited);
            } else {
              deps := deps + {DepOf(root, absDir, res)};  // filepath.Rel(repoRoot, absPath)
            }
          }
        }
        assert Resources(fs, root, absDir, resources, i + 1, Current(), budget)
               == Resources(fs, root, absDir, resources, i, s, budget);
      }
      return None;
    }

    /** The `components` loop: walk every local component, stopping at the first error. */
    method ResolveComponents(absDir: Path, components: seq<string>, ghost budget: nat) returns (err: Option<Error>)
      requires Paths.CleanSegments(absDir) && |fs.Keys - visited| < budget
      modifies this
      decreases budget, 0
      ensures Out(err, Current()) == Components(fs, root, absDir, components, 0, old(Current()), budget)
    {
      for i := 0 to |components|
        invariant |fs.Keys - visited| < budget
        invariant Components(fs, root, absDir, components, i, Current(), budget)
                  == Components(fs, root, absDir, components, 0, old(Current()), budget)
      {
        var comp := components[i];
        if !IsRemoteURL(comp) {
          ghost var v := visited;
          err := Resolve(Paths.JoinPath(absDir, comp));
          if err.Some? {
            return;
          }
          UnvisitedShrinks(fs.Keys, v, visited);
        }
      }
      return None;
    }
  }

  /** The walk's record, read in its final state: every success keeps its promises there. */
  lemma FinalState(fs: FileSystem, root: Path, results: map<Path, WalkEnd>, visited: set<Path>, deps: set<string>)
    requires SnapshotsBelow(results, visited, deps) && SuccessesKept(fs, root, results)
    ensures forall d :: d in results && results[d].err.None? ==>
              Paths.CleanSegments(d) && Walked(fs, root, d, None, visited, deps)
  {
    forall d | d in results && results[d].err.None? ensures Walked(fs, root, d, None, visited, deps) {
      WalkedGrow(fs, root, d, results[d].visited, results[d].deps, visited, deps);
    }
  }

  /**
   * `Resolve(repoRoot, dir)` for an absolute, cleaned repository root: the repo-relative paths of
   * every local file the kustomization at `dir` depends on. On success every visited directory has
   * finished its walk; each walk that succeeded keeps its promises in the final state, and every
   * returned path is a visited directory's kustomization file or a file that kustomization names.
   */
  method Resolve(fs: FileSystem, root: Path, dir: string)
    returns (r: Result<set<string>, Error>, ghost visited: set<Path>, ghost results: map<Path, WalkEnd>)
    requires Paths.CleanSegments(root)
    ensures r.Success? ==> Walked(fs, root, Paths.JoinPath(root, dir), None, visited, r.value)
    ensures r.Success? ==> results.Keys == visited && Paths.JoinPath(root, dir) in results
    ensures r.Success? ==> forall d :: d in results && results[d].err.None? ==>
              Paths.CleanSegments(d) && Walked(fs, root, d, None, visited, r.value)
    ensures r.Success? ==> forall x :: x in r.value ==> exists d :: d in visited && DepSource(fs, root, d, x)
    ensures r.Failure? ==> Paths.JoinPath(root, dir) in results && results[Paths.JoinPath(root, dir)].err == Some(r.error)
    ensures r.Failure? && LoadKustomization(fs, Paths.JoinPath(root, dir)).Failure? ==>
              r.error == LoadKustomization(fs, Paths.JoinPath(root, dir)).error
  {
    var w := new Resolver(fs, root);
    var start := Paths.JoinPath(root, dir);
    var err := w.Resolve(start);
    WalkSpec(fs, root, start, State({}, {}, map[]));
    visited, results := w.visited, w.results;
    if err.Some? {
      return Failure(err.value), visited, results;
    }
    FinalState(fs, root, results, visited, w.deps);
    return Success(w.deps), visited, results;
  }
}
