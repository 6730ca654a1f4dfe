/**
 * The impact detector: from the list of changed files and two views of the repository (the
 * pull request's head and the base it targets) it computes which environments and which
 * clusters a change affects.
 *
 * A repository view is the in-memory `RepoQuerier` of the detector's tests: listings, existence
 * flags, kustomize build outputs and dependency sets keyed by repo-relative path. The phases run
 * one after another; the overlay builds, which the source runs concurrently, are taken in
 * listing order.
 */
module Detector {
  import opened Wrappers
  import opened Yaml
  import AppSet
  import Strs
  import Paths

  datatype Environment = Development | Staging | Production {
    function Name(): string {
      match this
      case Development => "development"
      case Staging => "staging"
      case Production => "production"
    }
  }

  /** Overlay directory name to environment; several overlays may share one. */
  const OverlayEnvironment: map<string, Environment> := map[
    "development" := Development,
    "konflux-public-staging" := Staging,
    "staging-downstream" := Staging,
    "konflux-public-production" := Production,
    "production-downstream" := Production]

  /** Every environment, in the order the model walks maps keyed by environment. */
  const EnvOrder: seq<Environment> := [Development, Staging, Production]

  /** Kustomize directory conventions that are never cluster names. */
  const ReservedDirs: set<string> := {"base", "overlay"}

  /** Changes below this directory affect every environment. */
  const AppOfAppSets := "argo-cd-apps/app-of-app-sets/"

  lemma OverlayEnvironmentCoversAll()
    ensures OverlayEnvironment.Values == set e | e in EnvOrder
  {
    assert OverlayEnvironment["development"] == Development;
    assert OverlayEnvironment["konflux-public-staging"] == Staging;
    assert OverlayEnvironment["konflux-public-production"] == Production;
  }

  /**
   * One repository view. `deps` maps a path to the dependency set `ResolveDeps` returns for it,
   * None standing for a nil set.
   */
  datatype Repo = Repo(
    dirs: map<string, seq<string>>,
    exist: set<string>,
    yamls: map<string, Bytes>,
    deps: map<string, Option<set<string>>>)

  function ListSubDirs(r: Repo, rel: string): Result<seq<string>, string> {
    if rel in r.dirs then Success(r.dirs[rel]) else Failure("no such dir: " + rel)
  }

  predicate DirExists(r: Repo, rel: string) {
    rel in r.exist
  }

  function BuildKustomization(r: Repo, rel: string): Result<Bytes, string> {
    if rel in r.yamls then Success(r.yamls[rel]) else Failure("no kustomization at " + rel)
  }

  function ResolveDeps(r: Repo, rel: string): Result<Option<set<string>>, string> {
    if rel in r.deps then Success(r.deps[rel]) else Failure("no deps for " + rel)
  }

  datatype DetectError =
    | ListFailed(dir: string, msg: string)
    | UnknownOverlay(name: string, dir: string)
    | BuildFailed(overlay: string, onHead: bool, msg: string)
    | ParseFailed(overlay: string, cause: AppSet.ParseError)

  /** A detector: the two views, the overlays directory and the validated overlay environments. */
  datatype Detector = Detector(head: Repo, base: Repo, overlaysDir: string, overlayEnvs: map<string, Environment>)

  /** The overlay names listed on head, together with those on base (none when base cannot list). */
  function OverlayNames(head: Repo, base: Repo, dir: string): set<string> {
    (match ListSubDirs(head, dir) case Success(ns) => set n | n in ns case Failure(_) => {})
    + (match ListSubDirs(base, dir) case Success(ns) => set n | n in ns case Failure(_) => {})
  }

  /** The state `NewDetector` establishes and every later phase relies on. */
  predicate Validated(d: Detector) {
    ListSubDirs(d.head, d.overlaysDir).Success?
    && OverlayNames(d.head, d.base, d.overlaysDir) <= OverlayEnvironment.Keys
    && d.overlayEnvs == map n | n in OverlayNames(d.head, d.base, d.overlaysDir) :: OverlayEnvironment[n]
  }

  /** The union of two listings, as the `names` set of `NewDetector`. */
  method UnionNames(a: seq<string>, b: seq<string>) returns (names: set<string>)
    ensures names == (set n | n in a) + (set n | n in b)
  {
    names := {};
    for i := 0 to |a|
      invariant names == set n | n in a[..i]
    {
      assert a[..i + 1] == a[..i] + [a[i]];
      names := names + {a[i]};
    }
    assert a[..|a|] == a;
    ghost var first := names;
    for i := 0 to |b|
      invariant names == first + set n | n in b[..i]
    {
      assert b[..i + 1] == b[..i] + [b[i]];
      names := names + {b[i]};
    }
    assert b[..|b|] == b;
  }

  /** The validation loop of `NewDetector`: every name must be a known overlay. */
  method ValidateNames(names: set<string>, overlaysDir: string) returns (r: Result<map<string, Environment>, DetectError>)
    ensures r.Success? <==> names <= OverlayEnvironment.Keys
    ensures r.Success? ==> r.value == map n | n in names :: OverlayEnvironment[n]
    ensures r.Failure? ==> r.error.UnknownOverlay? && r.error.dir == overlaysDir
                           && r.error.name in names && r.error.name !in OverlayEnvironment
  {
    var envs: map<string, Environment> := map[];
    var todo := names;
    while todo != {}
      invariant todo <= names
      invariant names - todo <= OverlayEnvironment.Keys
      invariant envs == map n | n in names - todo :: OverlayEnvironment[n]
      decreases |todo|
    {
      var name :| name in todo;
      if name !in OverlayEnvironment {
        return Failure(UnknownOverlay(name, overlaysDir));
      }
      envs := envs[name := OverlayEnvironment[name]];
      todo := todo - {name};
    }
    return Success(envs);
  }

  /** `NewDetector`: list the overlays on both views and validate every name. */
  method NewDetector(head: Repo, base: Repo, overlaysDir: string) returns (r: Result<Detector, DetectError>)
    ensures ListSubDirs(head, overlaysDir).Failure? ==>
              r == Failure(ListFailed(overlaysDir, ListSubDirs(head, overlaysDir).error))
    ensures ListSubDirs(head, overlaysDir).Success? ==>
              (r.Success? <==> OverlayNames(head, base, overlaysDir) <= OverlayEnvironment.Keys)
    ensures r.Success? ==> Validated(r.value) && r.value.head == head && r.value.base == base
                           && r.value.overlaysDir == overlaysDir
    ensures r.Failure? && ListSubDirs(head, overlaysDir).Success? ==>
              r.error.UnknownOverlay? && r.error.dir == overlaysDir
              && r.error.name in OverlayNames(head, base, overlaysDir) && r.error.name !in OverlayEnvironment
  {
    var headNames := ListSubDirs(head, overlaysDir);
    if headNames.Failure? {
      return Failure(ListFailed(overlaysDir, headNames.error));
    }
    var baseListing := ListSubDirs(base, overlaysDir);
    var baseNames := if baseListing.Success? then baseListing.value else [];
    var names := UnionNames(headNames.value, baseNames);
    assert names == OverlayNames(head, base, overlaysDir);
    var envs := ValidateNames(names, overlaysDir);
    if envs.Failure? {
      return Failure(envs.error);
    }
    return Success(Detector(head, base, overlaysDir, envs.value));
  }

  /** One overlay rendered on both views; `baseYAML` is empty when base lacks the overlay. */
  datatype OverlayBuild = OverlayBuild(name: string, env: Environment, headYAML: Bytes, baseYAML: Bytes)

  function OverlayRel(d: Detector, name: string): string {
    Paths.Join(d.overlaysDir, name)
  }

  /** The job for one overlay in `buildAppSetOverlays`. */
  function BuildOverlay(d: Detector, name: string): (r: Result<OverlayBuild, DetectError>)
    requires name in d.overlayEnvs
    ensures r.Failure? <==> OverlayRel(d, name) !in d.head.yamls
                            || (DirExists(d.base, OverlayRel(d, name)) && OverlayRel(d, name) !in d.base.yamls)
    ensures r.Success? ==>
              r.value.name == name && r.value.env == d.overlayEnvs[name]
              && r.value.headYAML == d.head.yamls[OverlayRel(d, name)]
              && r.value.baseYAML == (if DirExists(d.base, OverlayRel(d, name)) then d.base.yamls[OverlayRel(d, name)] else [])
  {
    var rel := OverlayRel(d, name);
    match BuildKustomization(d.head, rel)
    case Failure(e) => Failure(BuildFailed(name, true, e))
    case Success(headYAML) =>
      if DirExists(d.base, rel) then
        match BuildKustomization(d.base, rel)
        case Failure(e) => Failure(BuildFailed(name, false, e))
        case Success(baseYAML) => Success(OverlayBuild(name, d.overlayEnvs[name], headYAML, baseYAML))
      else Success(OverlayBuild(name, d.overlayEnvs[name], headYAML, []))
  }

  /** The builds of `names` in order, or the first failure. */
  function BuildsOf(d: Detector, names: seq<string>): Result<seq<OverlayBuild>, DetectError>
    requires forall n :: n in names ==> n in d.overlayEnvs
  {
    if |names| == 0 then Success([])
    else match BuildsOf(d, names[..|names| - 1])
      case Failure(e) => Failure(e)
      case Success(bs) =>
        match BuildOverlay(d, names[|names| - 1])
        case Failure(e) => Failure(e)
        case Success(b) => Success(bs + [b])
  }

  /** Every overlay listed on head with its builds, or the first failure. */
  function Builds(d: Detector): Result<seq<OverlayBuild>, DetectError>
    requires Validated(d)
  {
    var names := ListSubDirs(d.head, d.overlaysDir).value;
    assert forall n :: n in names ==> n in OverlayNames(d.head, d.base, d.overlaysDir);
    BuildsOf(d, names)
  }

  /** `buildAppSetOverlays`, one overlay after another. */
  method BuildAppSetOverlays(d: Detector) returns (r: Result<seq<OverlayBuild>, DetectError>)
    requires Validated(d)
    ensures r == Builds(d)
  {
    var names := ListSubDirs(d.head, d.overlaysDir).value;
    assert forall n :: n in names ==> n in OverlayNames(d.head, d.base, d.overlaysDir);
    var builds: seq<OverlayBuild> := [];
    for i := 0 to |names|
      invariant BuildsOf(d, names[..i]) == Success(builds)
    {
      assert names[..i + 1][..i] == names[..i];
      var b := BuildOverlay(d, names[i]);
      if b.Failure? {
        BuildsFailureStays(d, names, i + 1);
        return Failure(b.error);
      }
      builds := builds + [b.value];
    }
    assert names[..|names|] == names;
    return Success(builds);
  }

  lemma {:induction false} BuildsFailureStays(d: Detector, names: seq<string>, n: nat)
    requires forall x :: x in names ==> x in d.overlayEnvs
    requires n <= |names| && BuildsOf(d, names[..n]).Failure?
    ensures BuildsOf(d, names) == BuildsOf(d, names[..n])
    decreases |names| - n
  {
    if n < |names| {
      assert names[..n + 1][..n] == names[..n];
      BuildsFailureStays(d, names, n + 1);
    } else {
      assert names[..n] == names;
    }
  }

  /** Environments of overlays listed on base whose directory no longer exists on head. */
  function RemovedEnvs(d: Detector): set<Environment> {
    match ListSubDirs(d.base, d.overlaysDir)
    case Failure(_) => {}
    case Success(names) => RemovedAmong(d, names)
  }

  function RemovedAmong(d: Detector, names: seq<string>): set<Environment> {
    set n | n in names && n in d.overlayEnvs && !DirExists(d.head, OverlayRel(d, n)) :: d.overlayEnvs[n]
  }

  /** Environments of overlays whose head and base renders differ byte for byte. */
  function DiffEnvs(builds: seq<OverlayBuild>): set<Environment> {
    set b | b in builds && b.headYAML != b.baseYAML :: b.env
  }

  /** A changed file under the root ApplicationSets directory affects every environment. */
  function StaticEnvs(changed: seq<string>): set<Environment> {
    if exists i :: 0 <= i < |changed| && Strs.HasPrefix(changed[i], AppOfAppSets) then OverlayEnvironment.Values
    else {}
  }

  // ---------------------------------------------------------------------------------------------
  // Component paths and their dependency sets

  /** The component paths and cluster registrations extracted from all head renders. */
  datatype Extracted = Extracted(envPaths: map<Environment, seq<AppSet.ComponentPath>>, allClusters: AppSet.Clusters)

  function EnvGet(m: map<Environment, seq<AppSet.ComponentPath>>, e: Environment): seq<AppSet.ComponentPath> {
    if e in m then m[e] else []
  }

  /**
   * `extractPathsFromOverlays`: each head render's ApplicationSets, their paths appended to the
   * overlay's environment and their clusters merged; the first parse failure aborts.
   */
  function ExtractPaths(builds: seq<OverlayBuild>, decode: Bytes -> seq<Decoded<Value>>): Result<Extracted, DetectError> {
    if |builds| == 0 then Success(Extracted(map[], map[]))
    else match ExtractPaths(builds[..|builds| - 1], decode)
      case Failure(e) => Failure(e)
      case Success(x) =>
        var ob := builds[|builds| - 1];
        match AppSet.ParseDocs(decode(ob.headYAML))
        case Failure(pe) => Failure(ParseFailed(ob.name, pe))
        case Success(p) =>
          Success(Extracted(x.envPaths[ob.env := EnvGet(x.envPaths, ob.env) + p.paths],
                            AppSet.MergeClusters(x.allClusters, p.clusters)))
  }

  lemma {:induction false} ExtractFailureStays(builds: seq<OverlayBuild>, decode: Bytes -> seq<Decoded<Value>>, n: nat)
    requires n <= |builds| && ExtractPaths(builds[..n], decode).Failure?
    ensures ExtractPaths(builds, decode) == ExtractPaths(builds[..n], decode)
    decreases |builds| - n
  {
    if n < |builds| {
      assert builds[..n + 1][..n] == builds[..n];
      ExtractFailureStays(builds, decode, n + 1);
    } else {
      assert builds[..n] == builds;
    }
  }

  method ExtractPathsFromOverlays(builds: seq<OverlayBuild>, decode: Bytes -> seq<Decoded<Value>>)
    returns (r: Result<Extracted, DetectError>)
    ensures r == ExtractPaths(builds, decode)
  {
    var envPaths: map<Environment, seq<AppSet.ComponentPath>> := map[];
    var allClusters: AppSet.Clusters := map[];
    for i := 0 to |builds|
      invariant ExtractPaths(builds[..i], decode) == Success(Extracted(envPaths, allClusters))
    {
      assert builds[..i + 1][..i] == builds[..i];
      var ob := builds[i];
      var parsed := AppSet.ParseApplicationSets(decode(ob.headYAML));
      if parsed.Failure? {
        ExtractFailureStays(builds, decode, i + 1);
        return Failure(ParseFailed(ob.name, parsed.error));
      }
      envPaths := envPaths[ob.env := EnvGet(envPaths, ob.env) + parsed.value.paths];
      allClusters := AppSet.MergeInto(allClusters, parsed.value.clusters);
    }
    assert builds[..|builds|] == builds;
    return Success(Extracted(envPaths, allClusters));
  }

  /** A component path to check, with its dependency set (None: match by directory prefix). */
  datatype ComponentDeps = ComponentDeps(cp: AppSet.ComponentPath, env: Environment, deps: Option<set<string>>)

  function PathsOf(cps: seq<AppSet.ComponentPath>): set<string> {
    set c | c in cps :: c.path
  }

  /** The dependency set recorded for a path; a lookup error counts as no set. */
  function DepsOrNil(head: Repo, path: string): Option<set<string>> {
    match ResolveDeps(head, path)
    case Success(s) => s
    case Failure(_) => None
  }

  /**
   * The components of one environment: the first occurrence of each path whose directory exists
   * on head, in order.
   */
  function ResolvedFor(head: Repo, env: Environment, paths: seq<AppSet.ComponentPath>): seq<ComponentDeps> {
    if |paths| == 0 then []
    else
      var init := paths[..|paths| - 1];
      var cp := paths[|paths| - 1];
      ResolvedFor(head, env, init)
      + (if cp.path in PathsOf(init) || !DirExists(head, cp.path) then [] else [ComponentDeps(cp, env, DepsOrNil(head, cp.path))])
  }

  /** Each yielded entry is a path of the environment whose directory exists, with its dependency set. */
  lemma {:induction false} ResolvedForSound(head: Repo, env: Environment, paths: seq<AppSet.ComponentPath>)
    ensures forall i :: 0 <= i < |ResolvedFor(head, env, paths)| ==>
              ResolvedFor(head, env, paths)[i].env == env && ResolvedFor(head, env, paths)[i].cp in paths
              && DirExists(head, ResolvedFor(head, env, paths)[i].cp.path)
              && ResolvedFor(head, env, paths)[i].deps == DepsOrNil(head, ResolvedFor(head, env, paths)[i].cp.path)
  {
    if |paths| > 0 {
      var init := paths[..|paths| - 1];
      var cp := paths[|paths| - 1];
      var r := ResolvedFor(head, env, paths);
      var prev := ResolvedFor(head, env, init);
      ResolvedForSound(head, env, init);
      assert forall c :: c in init ==> c in paths;
      if cp.path in PathsOf(init) || !DirExists(head, cp.path) {
        assert r == prev;
      } else {
        assert r == prev + [ComponentDeps(cp, env, DepsOrNil(head, cp.path))];
      }
    }
  }

  /** No path is yielded twice. */
  lemma {:induction false} ResolvedForDistinct(head: Repo, env: Environment, paths: seq<AppSet.ComponentPath>)
    ensures forall i, j :: 0 <= i < j < |ResolvedFor(head, env, paths)| ==>
              ResolvedFor(head, env, paths)[i].cp.path != ResolvedFor(head, env, paths)[j].cp.path
  {
    if |paths| > 0 {
      var init := paths[..|paths| - 1];
      var prev := ResolvedFor(head, env, init);
      ResolvedForDistinct(head, env, init);
      ResolvedForSound(head, env, init);
      assert forall i :: 0 <= i < |prev| ==> prev[i].cp.path in PathsOf(init);
    }
  }

  /** Every path of the environment whose directory exists is yielded. */
  lemma {:induction false} ResolvedForComplete(head: Repo, env: Environment, paths: seq<AppSet.ComponentPath>, cp: AppSet.ComponentPath)
    requires cp in paths && DirExists(head, cp.path)
    ensures exists i :: 0 <= i < |ResolvedFor(head, env, paths)| && ResolvedFor(head, env, paths)[i].cp.path == cp.path
  {
    var init := paths[..|paths| - 1];
    var last := paths[|paths| - 1];
    var prev := ResolvedFor(head, env, init);
    var r := ResolvedFor(head, env, paths);
    if cp in init {
      ResolvedForComplete(head, env, init, cp);
      var i :| 0 <= i < |prev| && prev[i].cp.path == cp.path;
      assert r[i] == prev[i];
    } else if cp.path in PathsOf(init) {
      var c :| c in init && c.path == cp.path;
      ResolvedForComplete(head, env, init, c);
      var i :| 0 <= i < |prev| && prev[i].cp.path == cp.path;
      assert r[i] == prev[i];
    } else {
      assert cp == last;
      assert r[|prev|].cp == cp;
    }
  }

  function ResolvedIn(head: Repo, envPaths: map<Environment, seq<AppSet.ComponentPath>>, envs: seq<Environment>): seq<ComponentDeps> {
    if |envs| == 0 then []
    else
      var e := envs[|envs| - 1];
      ResolvedIn(head, envPaths, envs[..|envs| - 1]) + (if e in envPaths then ResolvedFor(head, e, envPaths[e]) else [])
  }

  /** `resolveComponentDeps`, walking the environments in `EnvOrder`. */
  function Resolved(head: Repo, envPaths: map<Environment, seq<AppSet.ComponentPath>>): seq<ComponentDeps> {
    ResolvedIn(head, envPaths, EnvOrder)
  }

  /** Every entry of `ResolvedIn` is a path of one of the environments walked, with its dependency set. */
  lemma {:induction false} ResolvedInSound(head: Repo, envPaths: map<Environment, seq<AppSet.ComponentPath>>, envs: seq<Environment>)
    ensures forall i :: 0 <= i < |ResolvedIn(head, envPaths, envs)| ==>
              var cd := ResolvedIn(head, envPaths, envs)[i];
              cd.env in envs && cd.env in envPaths && cd.cp in envPaths[cd.env]
              && DirExists(head, cd.cp.path) && cd.deps == DepsOrNil(head, cd.cp.path)
  {
    if |envs| > 0 {
      var init := envs[..|envs| - 1];
      var e := envs[|envs| - 1];
      ResolvedInSound(head, envPaths, init);
      if e in envPaths {
        ResolvedForSound(head, e, envPaths[e]);
      }
      assert forall x :: x in init ==> x in envs;
    }
  }

  /** For distinct environments, the (environment, path) pairs yielded are distinct. */
  lemma {:induction false} ResolvedInDistinct(head: Repo, envPaths: map<Environment, seq<AppSet.ComponentPath>>, envs: seq<Environment>)
    requires forall i, j :: 0 <= i < j < |envs| ==> envs[i] != envs[j]
    ensures forall i, j :: 0 <= i < j < |ResolvedIn(head, envPaths, envs)| ==>
              ResolvedIn(head, envPaths, envs)[i].env != ResolvedIn(head, envPaths, envs)[j].env
              || ResolvedIn(head, envPaths, envs)[i].cp.path != ResolvedIn(head, envPaths, envs)[j].cp.path
  {
    if |envs| > 0 {
      var init := envs[..|envs| - 1];
      var e := envs[|envs| - 1];
      ResolvedInDistinct(head, envPaths, init);
      ResolvedInSound(head, envPaths, init);
      var a := ResolvedIn(head, envPaths, init);
      var b := if e in envPaths then ResolvedFor(head, e, envPaths[e]) else [];
      if e in envPaths {
        ResolvedForDistinct(head, e, envPaths[e]);
        ResolvedForSound(head, e, envPaths[e]);
      }
      assert e !in init;
      var r := a + b;
      forall i, j | 0 <= i < j < |r|
        ensures r[i].env != r[j].env || r[i].cp.path != r[j].cp.path
      {
        if j < |a| {
          assert r[i] == a[i] && r[j] == a[j];
        } else if i >= |a| {
          assert r[i] == b[i - |a|] && r[j] == b[j - |a|];
        } else {
          assert r[i] == a[i] && r[j] == b[j - |a|];
        }
      }
    }
  }

  /** Every path of a walked environment whose directory exists on head is yielded. */
  lemma {:induction false} ResolvedInComplete(head: Repo, envPaths: map<Environment, seq<AppSet.ComponentPath>>, envs: seq<Environment>,
                                              e: Environment, cp: AppSet.ComponentPath)
    requires e in envs && e in envPaths && cp in envPaths[e] && DirExists(head, cp.path)
    ensures exists i :: 0 <= i < |ResolvedIn(head, envPaths, envs)|
              && ResolvedIn(head, envPaths, envs)[i].env == e && ResolvedIn(head, envPaths, envs)[i].cp.path == cp.path
  {
    var init := envs[..|envs| - 1];
    var last := envs[|envs| - 1];
    var a := ResolvedIn(head, envPaths, init);
    var r := ResolvedIn(head, envPaths, envs);
    if e == last {
      var b := ResolvedFor(head, e, envPaths[e]);
      ResolvedForComplete(head, e, envPaths[e], cp);
      ResolvedForSound(head, e, envPaths[e]);
      var k :| 0 <= k < |b| && b[k].cp.path == cp.path;
      assert r[|a| + k] == b[k];
    } else {
      assert e in init;
      ResolvedInComplete(head, envPaths, init, e, cp);
      var k :| 0 <= k < |a| && a[k].env == e && a[k].cp.path == cp.path;
      assert r[k] == a[k];
    }
  }

  lemma ResolvedForStep(head: Repo, env: Environment, paths: seq<AppSet.ComponentPath>, i: nat)
    requires i < |paths|
    ensures PathsOf(paths[..i + 1]) == PathsOf(paths[..i]) + {paths[i].path}
    ensures ResolvedFor(head, env, paths[..i + 1]) == ResolvedFor(head, env, paths[..i])
              + (if paths[i].path in PathsOf(paths[..i]) || !DirExists(head, paths[i].path) then []
                 else [ComponentDeps(paths[i], env, DepsOrNil(head, paths[i].path))])
  {
    assert paths[..i + 1][..i] == paths[..i];
    assert paths[..i + 1] == paths[..i] + [paths[i]];
  }

  /** The `seen` pairs of one environment are the paths visited so far, one more at each step. */
  lemma SeenStep(seen: set<(Environment, string)>, env: Environment, paths: seq<AppSet.ComponentPath>, i: nat)
    requires i < |paths|
    requires forall p :: (env, p) in seen <==> p in PathsOf(paths[..i])
    ensures (env, paths[i].path) in seen <==> paths[i].path in PathsOf(paths[..i])
    ensures forall p :: (env, p) in seen + {(env, paths[i].path)} <==> p in PathsOf(paths[..i + 1])
  {
    PathsOfStep(paths, i);
  }

  lemma PathsOfStep(paths: seq<AppSet.ComponentPath>, i: nat)
    requires i < |paths|
    ensures PathsOf(paths[..i + 1]) == PathsOf(paths[..i]) + {paths[i].path}
  {
    assert paths[..i + 1] == paths[..i] + [paths[i]];
  }

  /**
   * The loop of `resolveComponentDeps` over one environment's paths, threading the `seen` set of
   * (environment, path) pairs and the `resolved` list.
   */
  method ResolveEnv(head: Repo, env: Environment, paths: seq<AppSet.ComponentPath>,
                    seen0: set<(Environment, string)>, resolved0: seq<ComponentDeps>)
    returns (seen: set<(Environment, string)>, resolved: seq<ComponentDeps>)
    requires forall k :: k in seen0 ==> k.0 != env
    ensures resolved == resolved0 + ResolvedFor(head, env, paths)
    ensures forall k :: k in seen ==> k in seen0 || k.0 == env
  {
    seen, resolved := seen0, resolved0;
    for i := 0 to |paths|
      invariant resolved == resolved0 + ResolvedFor(head, env, paths[..i])
      invariant forall p :: (env, p) in seen <==> p in PathsOf(paths[..i])
      invariant forall k :: k in seen ==> k in seen0 || k.0 == env
    {
      var cp := paths[i];
      ResolvedForStep(head, env, paths, i);
      SeenStep(seen, env, paths, i);
      if (env, cp.path) in seen {
        continue;
      }
      seen := seen + {(env, cp.path)};
      if !DirExists(head, cp.path) {
        continue;
      }
      var deps := ResolveDeps(head, cp.path);
      var found: Option<set<string>> := None;
      if deps.Success? {
        found := deps.value;
      }
      resolved := resolved + [ComponentDeps(cp, env, found)];
    }
    assert paths[..|paths|] == paths;
  }

  /** `resolveComponentDeps`. */
  method ResolveComponentDeps(d: Detector, envPaths: map<Environment, seq<AppSet.ComponentPath>>)
    returns (resolved: seq<ComponentDeps>)
    ensures resolved == Resolved(d.head, envPaths)
  {
    var seen: set<(Environment, string)> := {};
    resolved := [];
    for k := 0 to |EnvOrder|
      invariant resolved == ResolvedIn(d.head, envPaths, EnvOrder[..k])
      invariant forall key :: key in seen ==> key.0 in EnvOrder[..k]
    {
      var env := EnvOrder[k];
      assert EnvOrder[..k + 1][..k] == EnvOrder[..k];
      assert env !in EnvOrder[..k];
      if env in envPaths {
        seen, resolved := ResolveEnv(d.head, env, envPaths[env], seen, resolved);
      }
      assert EnvOrder[..k + 1] == EnvOrder[..k] + [env];
    }
    assert EnvOrder[..|EnvOrder|] == EnvOrder;
  }

  // ---------------------------------------------------------------------------------------------
  // Matching

  /** `matchByPrefix`'s test for one file: under the directory (one "/" added) or equal to it. */
  predicate UnderPrefix(f: string, pathPrefix: string) {
    var prefix := if Strs.HasSuffix(pathPrefix, "/") then pathPrefix else pathPrefix + "/";
    Strs.HasPrefix(f, prefix) || f == pathPrefix
  }

  /** A file in a sibling directory whose name merely starts with the path's name never matches. */
  lemma SiblingNeverMatches(pathPrefix: string, rest: string)
    requires !Strs.HasSuffix(pathPrefix, "/")
    requires |rest| > 0 && rest[0] != '/'
    ensures !UnderPrefix(pathPrefix + rest, pathPrefix)
  {
    var f := pathPrefix + rest;
    assert f[|pathPrefix|] == rest[0];
    assert (pathPrefix + "/")[|pathPrefix|] == '/';
  }

  /** `matchByPrefix`. */
  method MatchByPrefix(changedSet: set<string>, pathPrefix: string) returns (b: bool)
    ensures b <==> exists f :: f in changedSet && UnderPrefix(f, pathPrefix)
  {
    var prefix := pathPrefix;
    if !Strs.HasSuffix(prefix, "/") {
      prefix := prefix + "/";
    }
    var todo := changedSet;
    while todo != {}
      invariant todo <= changedSet
      invariant forall f :: f in changedSet - todo ==> !UnderPrefix(f, pathPrefix)
      decreases |todo|
    {
      var f :| f in todo;
      if Strs.HasPrefix(f, prefix) || f == pathPrefix {
        return true;
      }
      todo := todo - {f};
    }
    return false;
  }

  /** `matchDepTree`. */
  method MatchDepTree(changedSet: set<string>, deps: set<string>) returns (b: bool)
    ensures b <==> changedSet * deps != {}
  {
    var todo := changedSet;
    while todo != {}
      invariant todo <= changedSet
      invariant (changedSet - todo) * deps == {}
      decreases |todo|
    {
      var f :| f in todo;
      if f in deps {
        assert f in changedSet * deps;
        return true;
      }
      todo := todo - {f};
    }
    return false;
  }

  /** The `changedSet` built from the changed-file list. */
  function ChangedSet(files: seq<string>): set<string> {
    set f | f in files
  }

  /** Whether the changed files touch a component: its dependency set if any, else its directory. */
  predicate Matches(changedSet: set<string>, cd: ComponentDeps) {
    match cd.deps
    case Some(deps) => changedSet * deps != {}
    case None => exists f :: f in changedSet && UnderPrefix(f, cd.cp.path)
  }

  /** Some registered path of a cluster is the component's path or lies below it. */
  predicate RegisteredUnder(paths: seq<string>, cpPath: string) {
    exists j :: 0 <= j < |paths| && (paths[j] == cpPath || Strs.HasPrefix(paths[j], cpPath + "/"))
  }

  /** The clusters `matchClusters` attributes a matched component to. */
  function ClustersFor(cp: AppSet.ComponentPath, allClusters: AppSet.Clusters): (r: set<string>)
    ensures r * ReservedDirs == {}
  {
    if cp.clusterDir != "" && cp.clusterDir !in ReservedDirs then {cp.clusterDir}
    else set c | c in allClusters && c !in ReservedDirs && RegisteredUnder(allClusters[c], cp.path)
  }

  function MatchedEnvs(changedSet: set<string>, resolved: seq<ComponentDeps>): set<Environment> {
    if |resolved| == 0 then {}
    else
      var cd := resolved[|resolved| - 1];
      MatchedEnvs(changedSet, resolved[..|resolved| - 1]) + (if Matches(changedSet, cd) then {cd.env} else {})
  }

  function MatchedClusters(changedSet: set<string>, resolved: seq<ComponentDeps>, allClusters: AppSet.Clusters): set<string> {
    if |resolved| == 0 then {}
    else
      var cd := resolved[|resolved| - 1];
      MatchedClusters(changedSet, resolved[..|resolved| - 1], allClusters)
      + (if Matches(changedSet, cd) then ClustersFor(cd.cp, allClusters) else {})
  }

  /** An environment is marked by matching iff one of its components matches. */
  lemma {:induction false} MatchedEnvsIff(changedSet: set<string>, resolved: seq<ComponentDeps>, e: Environment)
    ensures e in MatchedEnvs(changedSet, resolved) <==>
            exists i :: 0 <= i < |resolved| && resolved[i].env == e && Matches(changedSet, resolved[i])
  {
    if |resolved| > 0 {
      var init := resolved[..|resolved| - 1];
      MatchedEnvsIff(changedSet, init, e);
      if exists i :: 0 <= i < |init| && init[i].env == e && Matches(changedSet, init[i]) {
        var i :| 0 <= i < |init| && init[i].env == e && Matches(changedSet, init[i]);
        assert resolved[i] == init[i];
      }
      if exists i :: 0 <= i < |resolved| && resolved[i].env == e && Matches(changedSet, resolved[i]) {
        var i :| 0 <= i < |resolved| && resolved[i].env == e && Matches(changedSet, resolved[i]);
        if i < |init| {
          assert init[i] == resolved[i];
        }
      }
    }
  }

  /** A cluster is attributed iff some matching component attributes it; never a reserved name. */
  lemma {:induction false} MatchedClustersIff(changedSet: set<string>, resolved: seq<ComponentDeps>, allClusters: AppSet.Clusters, c: string)
    ensures c in MatchedClusters(changedSet, resolved, allClusters) <==>
            exists i :: 0 <= i < |resolved| && Matches(changedSet, resolved[i]) && c in ClustersFor(resolved[i].cp, allClusters)
    ensures c in ReservedDirs ==> c !in MatchedClusters(changedSet, resolved, allClusters)
  {
    if |resolved| > 0 {
      var init := resolved[..|resolved| - 1];
      MatchedClustersIff(changedSet, init, allClusters, c);
      if exists i :: 0 <= i < |init| && Matches(changedSet, init[i]) && c in ClustersFor(init[i].cp, allClusters) {
        var i :| 0 <= i < |init| && Matches(changedSet, init[i]) && c in ClustersFor(init[i].cp, allClusters);
        assert resolved[i] == init[i];
      }
      if exists i :: 0 <= i < |resolved| && Matches(changedSet, resolved[i]) && c in ClustersFor(resolved[i].cp, allClusters) {
        var i :| 0 <= i < |resolved| && Matches(changedSet, resolved[i]) && c in ClustersFor(resolved[i].cp, allClusters);
        if i < |init| {
          assert init[i] == resolved[i];
        }
      }
      if c in ReservedDirs {
        assert c !in ClustersFor(resolved[|resolved| - 1].cp, allClusters);
      }
    }
  }

  /** More changed files never match fewer components. */
  lemma {:induction false} MatchedMonotone(a: set<string>, b: set<string>, resolved: seq<ComponentDeps>, allClusters: AppSet.Clusters)
    requires a <= b
    ensures MatchedEnvs(a, resolved) <= MatchedEnvs(b, resolved)
    ensures MatchedClusters(a, resolved, allClusters) <= MatchedClusters(b, resolved, allClusters)
  {
    if |resolved| > 0 {
      var cd := resolved[|resolved| - 1];
      MatchedMonotone(a, b, resolved[..|resolved| - 1], allClusters);
      if Matches(a, cd) {
        if cd.deps.Some? {
          var f :| f in a * cd.deps.value;
          assert f in b * cd.deps.value;
        }
      }
    }
  }

  /** No changed file matches nothing. */
  lemma {:induction false} NothingMatchesNoChange(resolved: seq<ComponentDeps>, allClusters: AppSet.Clusters)
    ensures MatchedEnvs({}, resolved) == {} && MatchedClusters({}, resolved, allClusters) == {}
  {
    if |resolved| > 0 {
      NothingMatchesNoChange(resolved[..|resolved| - 1], allClusters);
    }
  }

  // ---------------------------------------------------------------------------------------------
  // The result and the phases that update it

  /** The detection result: affected environments and clusters, and the changed files. */
  class DetectResult {
    var affectedEnvironments: set<Environment>
    var affectedClusters: set<string>
    var changedFiles: seq<string>

    constructor(changedFiles: seq<string>)
      ensures affectedEnvironments == {} && affectedClusters == {} && this.changedFiles == changedFiles
    {
      affectedEnvironments := {};
      affectedClusters := {};
      this.changedFiles := changedFiles;
    }
  }

  /** `detectRemovedAppSetOverlays`. */
  method DetectRemovedAppSetOverlays(d: Detector, result: DetectResult)
    modifies result
    ensures result.affectedEnvironments == old(result.affectedEnvironments) + RemovedEnvs(d)
    ensures result.affectedClusters == old(result.affectedClusters)
    ensures result.changedFiles == old(result.changedFiles)
  {
    var listed := ListSubDirs(d.base, d.overlaysDir);
    if listed.Failure? {
      return;
    }
    var names := listed.value;
    for i := 0 to |names|
      invariant result.affectedEnvironments == old(result.affectedEnvironments) + RemovedAmong(d, names[..i])
      invariant result.affectedClusters == old(result.affectedClusters)
      invariant result.changedFiles == old(result.changedFiles)
    {
      var name := names[i];
      assert names[..i + 1] == names[..i] + [name];
      if name !in d.overlayEnvs || DirExists(d.head, OverlayRel(d, name)) {
        assert RemovedAmong(d, names[..i + 1]) == RemovedAmong(d, names[..i]);
        continue;
      }
      assert RemovedAmong(d, names[..i + 1]) == RemovedAmong(d, names[..i]) + {d.overlayEnvs[name]};
      result.affectedEnvironments := result.affectedEnvironments + {d.overlayEnvs[name]};
    }
    assert names[..|names|] == names;
  }

  /** `detectOverlayDiffs`. */
  method DetectOverlayDiffs(builds: seq<OverlayBuild>, result: DetectResult)
    modifies result
    ensures result.affectedEnvironments == old(result.affectedEnvironments) + DiffEnvs(builds)
    ensures result.affectedClusters == old(result.affectedClusters)
    ensures result.changedFiles == old(result.changedFiles)
  {
    for i := 0 to |builds|
      invariant result.affectedEnvironments == old(result.affectedEnvironments) + DiffEnvs(builds[..i])
      invariant result.affectedClusters == old(result.affectedClusters)
      invariant result.changedFiles == old(result.changedFiles)
    {
      var ob := builds[i];
      assert builds[..i + 1] == builds[..i] + [ob];
      if ob.headYAML != ob.baseYAML {
        assert DiffEnvs(builds[..i + 1]) == DiffEnvs(builds[..i]) + {ob.env};
        result.affectedEnvironments := result.affectedEnvironments + {ob.env};
      } else {
        assert DiffEnvs(builds[..i + 1]) == DiffEnvs(builds[..i]);
      }
    }
    assert builds[..|builds|] == builds;
  }

  /** The inner loop of `matchClusters`: does some registered path lie at or below the component? */
  method AnyRegisteredUnder(paths: seq<string>, cpPath: string) returns (b: bool)
    ensures b <==> RegisteredUnder(paths, cpPath)
  {
    b := false;
    for i := 0 to |paths|
      invariant b <==> exists j :: 0 <= j < i && (paths[j] == cpPath || Strs.HasPrefix(paths[j], cpPath + "/"))
    {
      if paths[i] == cpPath || Strs.HasPrefix(paths[i], cpPath + "/") {
        b := true;
      }
    }
  }

  /** `matchClusters`. */
  method MatchClusters(cp: AppSet.ComponentPath, allClusters: AppSet.Clusters, result: DetectResult)
    modifies result
    ensures result.affectedClusters == old(result.affectedClusters) + ClustersFor(cp, allClusters)
    ensures result.affectedEnvironments == old(result.affectedEnvironments)
    ensures result.changedFiles == old(result.changedFiles)
  {
    if cp.clusterDir != "" && cp.clusterDir !in ReservedDirs {
      result.affectedClusters := result.affectedClusters + {cp.clusterDir};
      return;
    }
    var todo := allClusters.Keys;
    while todo != {}
      invariant todo <= allClusters.Keys
      invariant result.affectedClusters == old(result.affectedClusters)
        + set c | c in allClusters.Keys - todo && c !in ReservedDirs && RegisteredUnder(allClusters[c], cp.path)
      invariant result.affectedEnvironments == old(result.affectedEnvironments)
      invariant result.changedFiles == old(result.changedFiles)
      decreases |todo|
    {
      var cluster :| cluster in todo;
      ghost var done := allClusters.Keys - todo;
      todo := todo - {cluster};
      assert allClusters.Keys - todo == done + {cluster};
      if cluster in ReservedDirs {
        continue;
      }
      var under := AnyRegisteredUnder(allClusters[cluster], cp.path);
      if under {
        result.affectedClusters := result.affectedClusters + {cluster};
      }
    }
  }

  /** `matchChangedFiles`. */
  method MatchChangedFiles(changedFiles: seq<string>, resolved: seq<ComponentDeps>, allClusters: AppSet.Clusters, result: DetectResult)
    modifies result
    ensures result.affectedEnvironments == old(result.affectedEnvironments) + MatchedEnvs(ChangedSet(changedFiles), resolved)
    ensures result.affectedClusters == old(result.affectedClusters) + MatchedClusters(ChangedSet(changedFiles), resolved, allClusters)
    ensures result.changedFiles == old(result.changedFiles)
  {
    var changedSet := ChangedSet(changedFiles);
    for i := 0 to |resolved|
      invariant result.affectedEnvironments == old(result.affectedEnvironments) + MatchedEnvs(changedSet, resolved[..i])
      invariant result.affectedClusters == old(result.affectedClusters) + MatchedClusters(changedSet, resolved[..i], allClusters)
      invariant result.changedFiles == old(result.changedFiles)
    {
      var cd := resolved[i];
      assert resolved[..i + 1][..i] == resolved[..i];
      var matched: bool;
      if cd.deps.Some? {
        matched := MatchDepTree(changedSet, cd.deps.value);
      } else {
        matched := MatchByPrefix(changedSet, cd.cp.path);
      }
      if matched {
        result.affectedEnvironments := result.affectedEnvironments + {cd.env};
        MatchClusters(cd.cp, allClusters, result);
      }
    }
    assert resolved[..|resolved|] == resolved;
  }

  /** `applyStaticRules`. */
  method ApplyStaticRules(changedFiles: seq<string>, result: DetectResult)
    modifies result
    ensures result.affectedEnvironments == old(result.affectedEnvironments) + StaticEnvs(changedFiles)
    ensures result.affectedClusters == old(result.affectedClusters)
    ensures result.changedFiles == old(result.changedFiles)
  {
    for i := 0 to |changedFiles|
      invariant forall j :: 0 <= j < i ==> !Strs.HasPrefix(changedFiles[j], AppOfAppSets)
      invariant result.affectedEnvironments == old(result.affectedEnvironments)
      invariant result.affectedClusters == old(result.affectedClusters)
      invariant result.changedFiles == old(result.changedFiles)
    {
      if Strs.HasPrefix(changedFiles[i], AppOfAppSets) {
        result.affectedEnvironments := result.affectedEnvironments + OverlayEnvironment.Values;
        return;
      }
    }
  }

  /** The affected sets a successful detection reports. */
  datatype Affected = Affected(envs: set<Environment>, clusters: set<string>)

  /** What `Detect` computes, phase by phase. */
  function DetectSpec(d: Detector, changedFiles: seq<string>, decode: Bytes -> seq<Decoded<Value>>): Result<Affected, DetectError>
    requires Validated(d)
  {
    match Builds(d)
    case Failure(e) => Failure(e)
    case Success(builds) =>
      match ExtractPaths(builds, decode)
      case Failure(e) => Failure(e)
      case Success(x) =>
        var changedSet := ChangedSet(changedFiles);
        var resolved := Resolved(d.head, x.envPaths);
        Success(Affected(
          RemovedEnvs(d) + DiffEnvs(builds) + MatchedEnvs(changedSet, resolved) + StaticEnvs(changedFiles),
          MatchedClusters(changedSet, resolved, x.allClusters)))
  }

  /** `Detect`: the phases in order, each adding to the same result. */
  method Detect(d: Detector, changedFiles: seq<string>, decode: Bytes -> seq<Decoded<Value>>)
    returns (r: Result<DetectResult, DetectError>)
    requires Validated(d)
    ensures DetectSpec(d, changedFiles, decode).Failure? ==> r == Failure(DetectSpec(d, changedFiles, decode).error)
    ensures DetectSpec(d, changedFiles, decode).Success? ==>
              r.Success? && fresh(r.value)
              && r.value.affectedEnvironments == DetectSpec(d, changedFiles, decode).value.envs
              && r.value.affectedClusters == DetectSpec(d, changedFiles, decode).value.clusters
              && r.value.changedFiles == changedFiles
  {
    var result := new DetectResult(changedFiles);
    var builds := BuildAppSetOverlays(d);
    if builds.Failure? {
      return Failure(builds.error);
    }
    DetectRemovedAppSetOverlays(d, result);
    DetectOverlayDiffs(builds.value, result);
    var extracted := ExtractPathsFromOverlays(builds.value, decode);
    if extracted.Failure? {
      return Failure(extracted.error);
    }
    var resolved := ResolveComponentDeps(d, extracted.value.envPaths);
    MatchChangedFiles(changedFiles, resolved, extracted.value.allClusters, result);
    ApplyStaticRules(changedFiles, result);
    DetectSpecSuccess(d, changedFiles, decode, builds.value, extracted.value);
    return Success(result);
  }

  /** When both the builds and the extraction succeed, the result is the union of the phases. */
  lemma DetectSpecSuccess(d: Detector, changedFiles: seq<string>, decode: Bytes -> seq<Decoded<Value>>,
                          builds: seq<OverlayBuild>, x: Extracted)
    requires Validated(d) && Builds(d) == Success(builds) && ExtractPaths(builds, decode) == Success(x)
    ensures DetectSpec(d, changedFiles, decode) == Success(Affected(
              {} + RemovedEnvs(d) + DiffEnvs(builds) + MatchedEnvs(ChangedSet(changedFiles), Resolved(d.head, x.envPaths))
              + StaticEnvs(changedFiles),
              {} + MatchedClusters(ChangedSet(changedFiles), Resolved(d.head, x.envPaths), x.allClusters)))
  {
    var changedSet := ChangedSet(changedFiles);
    var resolved := Resolved(d.head, x.envPaths);
    assert {} + RemovedEnvs(d) == RemovedEnvs(d);
    assert {} + MatchedClusters(changedSet, resolved, x.allClusters) == MatchedClusters(changedSet, resolved, x.allClusters);
  }

  /** With no changed files, overlay removals and render differences are still reported. */
  lemma NoChangedFilesStillDetects(d: Detector, decode: Bytes -> seq<Decoded<Value>>)
    requires Validated(d)
    requires Builds(d).Success? && ExtractPaths(Builds(d).value, decode).Success?
    ensures DetectSpec(d, [], decode) == Success(Affected(RemovedEnvs(d) + DiffEnvs(Builds(d).value), {}))
  {
    var x := ExtractPaths(Builds(d).value, decode).value;
    assert ChangedSet([]) == {};
    NothingMatchesNoChange(Resolved(d.head, x.envPaths), x.allClusters);
  }

  /** A change under the root ApplicationSets directory affects every environment. */
  lemma AppOfAppSetsAffectsAll(d: Detector, changedFiles: seq<string>, decode: Bytes -> seq<Decoded<Value>>, i: nat)
    requires Validated(d) && DetectSpec(d, changedFiles, decode).Success?
    requires i < |changedFiles| && Strs.HasPrefix(changedFiles[i], AppOfAppSets)
    ensures DetectSpec(d, changedFiles, decode).value.envs == {Development, Staging, Production}
  {
    var builds := Builds(d).value;
    var x := ExtractPaths(builds, decode).value;
    var changedSet := ChangedSet(changedFiles);
    var resolved := Resolved(d.head, x.envPaths);
    var envs := DetectSpec(d, changedFiles, decode).value.envs;
    assert envs == RemovedEnvs(d) + DiffEnvs(builds) + MatchedEnvs(changedSet, resolved) + StaticEnvs(changedFiles);
    assert StaticEnvs(changedFiles) == OverlayEnvironment.Values;
    assert OverlayEnvironment["development"] == Development;
    assert OverlayEnvironment["staging-downstream"] == Staging;
    assert OverlayEnvironment["production-downstream"] == Production;
    assert {Development, Staging, Production} <= envs;
    forall e | e in envs ensures e in {Development, Staging, Production} {
      assert e.Development? || e.Staging? || e.Production?;
    }
  }

  /** Adding changed files never removes an affected environment or cluster. */
  lemma DetectMonotone(d: Detector, a: seq<string>, b: seq<string>, decode: Bytes -> seq<Decoded<Value>>)
    requires Validated(d)
    requires forall f :: f in a ==> f in b
    requires DetectSpec(d, a, decode).Success?
    ensures DetectSpec(d, b, decode).Success?
    ensures DetectSpec(d, a, decode).value.envs <= DetectSpec(d, b, decode).value.envs
    ensures DetectSpec(d, a, decode).value.clusters <= DetectSpec(d, b, decode).value.clusters
  {
    var x := ExtractPaths(Builds(d).value, decode).value;
    var resolved := Resolved(d.head, x.envPaths);
    MatchedMonotone(ChangedSet(a), ChangedSet(b), resolved, x.allClusters);
    if exists i :: 0 <= i < |a| && Strs.HasPrefix(a[i], AppOfAppSets) {
      var i :| 0 <= i < |a| && Strs.HasPrefix(a[i], AppOfAppSets);
      assert a[i] in a;
      assert a[i] in b;
      var j :| 0 <= j < |b| && b[j] == a[i];
    }
  }
}
