/**
 * The ApplicationSet path extractor: from the documents of a rendered overlay it collects the
 * component paths the ApplicationSets deploy, and for each cluster name the paths deployed on it.
 *
 * The YAML decoder is outside the model: `ParseApplicationSets` receives the decoder's stream
 * of documents, each already decoded into a `Value`.
 */
module AppSet {
  import opened Wrappers
  import opened Yaml
  import Strs

  /** A path an ApplicationSet points at, and the cluster sub-directory it targets (or ""). */
  datatype ComponentPath = ComponentPath(path: string, clusterDir: string)

  /** Cluster name to the component paths deployed on that cluster. */
  type Clusters = map<string, seq<string>>

  datatype ParseResult = ParseResult(paths: seq<ComponentPath>, clusters: Clusters)

  /** The only error a parse can end with: the decoder failed on a document. */
  datatype ParseError = DecodeError(msg: string)

  const NoPaths := ParseResult([], map[])

  const AppSetKind := "ApplicationSet"

  // ---------------------------------------------------------------------------------------------
  // Cluster maps.

  function Get(c: Clusters, k: string): seq<string> {
    if k in c then c[k] else []
  }

  /** `c[k] = append(c[k], ps...)`. */
  function AppendCluster(c: Clusters, k: string, ps: seq<string>): (r: Clusters)
    ensures r.Keys == c.Keys + {k}
    ensures forall j :: Get(r, j) == Get(c, j) + (if j == k then ps else [])
  {
    c[k := Get(c, k) + ps]
  }

  /** Every key of `b` appended to the same key of `a`: the per-key concatenation. */
  function MergeClusters(a: Clusters, b: Clusters): (r: Clusters)
    ensures r.Keys == a.Keys + b.Keys
    ensures forall k :: Get(r, k) == Get(a, k) + Get(b, k)
  {
    map k | k in a.Keys + b.Keys :: Get(a, k) + Get(b, k)
  }

  /** Two cluster maps with the same keys and the same lists are equal. */
  lemma ClustersEqual(x: Clusters, y: Clusters)
    requires x.Keys == y.Keys
    requires forall k :: Get(x, k) == Get(y, k)
    ensures x == y
  {
    forall k | k in x ensures x[k] == y[k] {
      assert Get(x, k) == Get(y, k);
    }
  }

  lemma MergeClustersAssoc(a: Clusters, b: Clusters, c: Clusters)
    ensures MergeClusters(MergeClusters(a, b), c) == MergeClusters(a, MergeClusters(b, c))
  {
    var l, r := MergeClusters(MergeClusters(a, b), c), MergeClusters(a, MergeClusters(b, c));
    forall k ensures Get(l, k) == Get(r, k) {
      assert Get(l, k) == Get(a, k) + Get(b, k) + Get(c, k);
    }
    ClustersEqual(l, r);
  }

  lemma MergeClustersEmpty(a: Clusters)
    ensures MergeClusters(a, map[]) == a && MergeClusters(map[], a) == a
  {
    var e: Clusters := map[];
    var l, r := MergeClusters(a, e), MergeClusters(e, a);
    forall k ensures Get(l, k) == Get(a, k) && Get(r, k) == Get(a, k) {
      assert Get(e, k) == [];
      assert Get(a, k) + [] == Get(a, k) && [] + Get(a, k) == Get(a, k);
    }
    ClustersEqual(l, a);
    ClustersEqual(r, a);
  }

  /** The state of the merge loop after the keys of `b` outside `todo` have been appended. */
  ghost predicate MergedExcept(r: Clusters, a: Clusters, b: Clusters, todo: set<string>) {
    todo <= b.Keys
    && r.Keys == a.Keys + (b.Keys - todo)
    && forall k :: Get(r, k) == Get(a, k) + (if k in b && k !in todo then b[k] else [])
  }

  lemma MergeStep(r: Clusters, a: Clusters, b: Clusters, todo: set<string>, k: string)
    requires MergedExcept(r, a, b, todo) && k in todo
    ensures MergedExcept(AppendCluster(r, k, b[k]), a, b, todo - {k})
  {
    MergeStepKeys(r, a, b, todo, k);
    MergeStepLists(r, a, b, todo, k);
  }

  lemma MergeStepKeys(r: Clusters, a: Clusters, b: Clusters, todo: set<string>, k: string)
    requires todo <= b.Keys && r.Keys == a.Keys + (b.Keys - todo) && k in todo
    ensures todo - {k} <= b.Keys
    ensures AppendCluster(r, k, b[k]).Keys == a.Keys + (b.Keys - (todo - {k}))
  {
    assert b.Keys - (todo - {k}) == (b.Keys - todo) + {k};
  }

  lemma MergeStepLists(r: Clusters, a: Clusters, b: Clusters, todo: set<string>, k: string)
    requires forall j :: Get(r, j) == Get(a, j) + (if j in b && j !in todo then b[j] else [])
    requires k in todo && k in b
    ensures forall j :: Get(AppendCluster(r, k, b[k]), j) == Get(a, j) + (if j in b && j !in todo - {k} then b[j] else [])
  {
    var r' := AppendCluster(r, k, b[k]);
    forall j ensures Get(r', j) == Get(a, j) + (if j in b && j !in todo - {k} then b[j] else []) {
      var before := Get(r, j);
      assert before == Get(a, j) + (if j in b && j !in todo then b[j] else []);
      if j == k {
        assert before == Get(a, k) + [];
        assert Get(r', k) == before + b[k];
      } else {
        assert Get(r', j) == before + [];
      }
    }
  }

  lemma MergeDone(r: Clusters, a: Clusters, b: Clusters)
    requires MergedExcept(r, a, b, {})
    ensures r == MergeClusters(a, b)
  {
    var m := MergeClusters(a, b);
    forall k ensures Get(r, k) == Get(m, k) {
      assert Get(b, k) == (if k in b then b[k] else []);
    }
    ClustersEqual(r, m);
  }

  /**
   * The Go loop `for k, v := range b { a[k] = append(a[k], v...) }`: keys are visited in an
   * arbitrary order, and the result is the per-key concatenation whatever that order is.
   */
  method MergeInto(a: Clusters, b: Clusters) returns (r: Clusters)
    ensures r == MergeClusters(a, b)
  {
    r := a;
    var todo := b.Keys;
    assert MergedExcept(r, a, b, todo) by {
      forall k ensures Get(r, k) == Get(a, k) + (if k in b && k !in todo then b[k] else []) {
        assert Get(a, k) + [] == Get(a, k);
      }
    }
    while todo != {}
      invariant MergedExcept(r, a, b, todo)
      decreases |todo|
    {
      var k :| k in todo;
      MergeStep(r, a, b, todo, k);
      r, todo := AppendCluster(r, k, b[k]), todo - {k};
    }
    MergeDone(r, a, b);
  }

  /** Results of successive documents: paths concatenated, cluster lists appended per cluster. */
  function Combine(r: ParseResult, x: ParseResult): ParseResult {
    ParseResult(r.paths + x.paths, MergeClusters(r.clusters, x.clusters))
  }

  lemma CombineAssoc(a: ParseResult, b: ParseResult, c: ParseResult)
    ensures Combine(Combine(a, b), c) == Combine(a, Combine(b, c))
  {
    MergeClustersAssoc(a.clusters, b.clusters, c.clusters);
    AppendAssoc(a.paths, b.paths, c.paths);
  }

  /** Sequence associativity as a separate step of `CombineAssoc`'s proof, where it is cheaper than inline. */
  lemma AppendAssoc<T>(x: seq<T>, y: seq<T>, z: seq<T>)
    ensures (x + y) + z == x + (y + z)
  {
  }

  // ---------------------------------------------------------------------------------------------
  // The generators of a merge generator.

  /** The `values` mapping of a sub-generator's `clusters` generator, when it has one. */
  function ClusterValues(sg: Value): Option<map<string, Value>> {
    if sg.Map? && GetMap(sg.m, "clusters").Some? then Some(GetMapOrEmpty(GetMap(sg.m, "clusters").value, "values"))
    else None
  }

  /** The string `field` of the last clusters generator among `subGens` that sets one: later ones win. */
  function LastValue(subGens: seq<Value>, field: string): (r: Option<string>)
    ensures r.Some? ==> exists i :: 0 <= i < |subGens| && ClusterValues(subGens[i]).Some?
                                     && GetStr(ClusterValues(subGens[i]).value, field) == r
  {
    if |subGens| == 0 then None
    else
      var last := subGens[|subGens| - 1];
      if ClusterValues(last).Some? && GetStr(ClusterValues(last).value, field).Some? then
        GetStr(ClusterValues(last).value, field)
      else
        var r := LastValue(subGens[..|subGens| - 1], field);
        assert r.Some? ==> exists i :: 0 <= i < |subGens| - 1 && ClusterValues(subGens[i]).Some?
                                       && GetStr(ClusterValues(subGens[i]).value, field) == r;
        r
  }

  /** One element of a list generator: its `nameNormalized` and its `values.clusterDir` ("" if absent). */
  datatype ListElement = ListElement(nameNormalized: string, clusterDir: string)

  function ElementOf(m: map<string, Value>): ListElement {
    ListElement(GetStr(m, "nameNormalized").GetOr(""), GetStr(m, "values.clusterDir").GetOr(""))
  }

  /** The elements among `items` that are mappings, in order. */
  function Elements(items: seq<Value>): seq<ListElement> {
    if |items| == 0 then []
    else
      var last := items[|items| - 1];
      Elements(items[..|items| - 1]) + (if last.Map? then [ElementOf(last.m)] else [])
  }

  /** The `elements` of a sub-generator's `list` generator. */
  function ListItems(sg: Value): seq<Value> {
    if sg.Map? && GetMap(sg.m, "list").Some? then GetList(GetMap(sg.m, "list").value, "elements") else []
  }

  /** All list elements of all sub-generators, in order. */
  function ListElements(subGens: seq<Value>): seq<ListElement> {
    if |subGens| == 0 then []
    else ListElements(subGens[..|subGens| - 1]) + Elements(ListItems(subGens[|subGens| - 1]))
  }

  /** The directory a list element names under `{{nameNormalized}}`: its override, else its name. */
  function NamedDir(le: ListElement): string {
    if le.clusterDir != "" then le.clusterDir else le.nameNormalized
  }

  /** Paths of the `{{nameNormalized}}` form: `prefix + dir` per element with a directory. */
  function NamedPaths(prefix: string, elems: seq<ListElement>): ParseResult {
    if |elems| == 0 then NoPaths
    else NamedNext(prefix, NamedPaths(prefix, elems[..|elems| - 1]), elems[|elems| - 1])
  }

  /** One iteration of the `{{nameNormalized}}` loop. */
  function NamedNext(prefix: string, r: ParseResult, le: ListElement): ParseResult {
    var dir := NamedDir(le);
    if dir == "" then r
    else
      var p := prefix + dir;
      ParseResult(r.paths + [ComponentPath(p, dir)], AppendCluster(r.clusters, le.nameNormalized, [p]))
  }

  /** `p` is the path of some element of `elems` that names a directory. */
  ghost predicate NamedPath(prefix: string, elems: seq<ListElement>, p: ComponentPath) {
    exists le :: le in elems && NamedDir(le) != "" && p == ComponentPath(prefix + NamedDir(le), NamedDir(le))
  }

  /** `k` is the name of some element of `elems` that names a directory. */
  ghost predicate NamedCluster(elems: seq<ListElement>, k: string) {
    exists le :: le in elems && NamedDir(le) != "" && le.nameNormalized == k
  }

  /** `p` is the path of some element of `elems` named `k` that names a directory. */
  ghost predicate NamedEntry(prefix: string, elems: seq<ListElement>, k: string, p: string) {
    exists le :: le in elems && NamedDir(le) != "" && le.nameNormalized == k && p == prefix + NamedDir(le)
  }

  /**
   * What the `{{nameNormalized}}` paths of `elems` are: one `prefix + dir` path per element with a
   * directory and nothing else, registered under the names of such elements.
   */
  ghost predicate NamedOf(prefix: string, elems: seq<ListElement>, r: ParseResult) {
    (forall i :: 0 <= i < |r.paths| ==> NamedPath(prefix, elems, r.paths[i]))
    && (forall le :: le in elems && NamedDir(le) != "" ==> ComponentPath(prefix + NamedDir(le), NamedDir(le)) in r.paths)
    && (forall k :: k in r.clusters ==> NamedCluster(elems, k))
  }

  /**
   * What the `{{nameNormalized}}` cluster lists of `elems` hold: each element's path is registered
   * under its name (even an empty one), and a name's list holds only paths of elements of that name.
   */
  ghost predicate NamedListsOf(prefix: string, elems: seq<ListElement>, c: Clusters) {
    (forall le :: le in elems && NamedDir(le) != "" ==> prefix + NamedDir(le) in Get(c, le.nameNormalized))
    && (forall k, i :: 0 <= i < |Get(c, k)| ==> NamedEntry(prefix, elems, k, Get(c, k)[i]))
  }

  lemma NamedNextSound(prefix: string, elems: seq<ListElement>, r: ParseResult)
    requires |elems| > 0 && NamedOf(prefix, elems[..|elems| - 1], r)
    ensures NamedOf(prefix, elems, NamedNext(prefix, r, elems[|elems| - 1]))
  {
    var init, le := elems[..|elems| - 1], elems[|elems| - 1];
    assert elems == init + [le];
    assert forall x :: x in elems <==> x in init || x == le;
    var n := NamedNext(prefix, r, le);
    forall i | 0 <= i < |n.paths|
      ensures NamedPath(prefix, elems, n.paths[i])
    {
      if i < |r.paths| {
        assert n.paths[i] == r.paths[i];
        var x :| x in init && NamedDir(x) != "" && r.paths[i] == ComponentPath(prefix + NamedDir(x), NamedDir(x));
        assert x in elems;
      } else {
        assert le in elems;
      }
    }
    forall x | x in elems && NamedDir(x) != ""
      ensures ComponentPath(prefix + NamedDir(x), NamedDir(x)) in n.paths
    {
      if x != le {
        assert ComponentPath(prefix + NamedDir(x), NamedDir(x)) in r.paths;
      }
    }
    forall k | k in n.clusters
      ensures NamedCluster(elems, k)
    {
      if k in r.clusters {
        var x :| x in init && NamedDir(x) != "" && x.nameNormalized == k;
        assert x in elems;
      } else {
        assert le in elems;
      }
    }
  }

  lemma NamedNextLists(prefix: string, elems: seq<ListElement>, r: ParseResult)
    requires |elems| > 0 && NamedListsOf(prefix, elems[..|elems| - 1], r.clusters)
    ensures NamedListsOf(prefix, elems, NamedNext(prefix, r, elems[|elems| - 1]).clusters)
  {
    var init, le := elems[..|elems| - 1], elems[|elems| - 1];
    assert elems == init + [le];
    assert forall x :: x in elems <==> x in init || x == le;
    var n := NamedNext(prefix, r, le);
    forall x | x in elems && NamedDir(x) != ""
      ensures prefix + NamedDir(x) in Get(n.clusters, x.nameNormalized)
    {
      if x != le {
        assert prefix + NamedDir(x) in Get(r.clusters, x.nameNormalized);
      }
    }
    forall k, i | 0 <= i < |Get(n.clusters, k)|
      ensures NamedEntry(prefix, elems, k, Get(n.clusters, k)[i])
    {
      if i < |Get(r.clusters, k)| {
        assert Get(n.clusters, k)[i] == Get(r.clusters, k)[i];
        var x :| x in init && NamedDir(x) != "" && x.nameNormalized == k && Get(r.clusters, k)[i] == prefix + NamedDir(x);
        assert x in elems;
      } else {
        assert le in elems;
      }
    }
  }

  /**
   * Under `{{nameNormalized}}` every element with an override, or else a name, contributes
   * `prefix + dir`, nothing else is contributed, and clusters are registered only under such names.
   */
  lemma {:induction false} NamedPathsSound(prefix: string, elems: seq<ListElement>)
    ensures NamedOf(prefix, elems, NamedPaths(prefix, elems))
    ensures NamedListsOf(prefix, elems, NamedPaths(prefix, elems).clusters)
    decreases |elems|
  {
    if |elems| > 0 {
      var init := elems[..|elems| - 1];
      NamedPathsSound(prefix, init);
      NamedNextSound(prefix, elems, NamedPaths(prefix, init));
      NamedNextLists(prefix, elems, NamedPaths(prefix, init));
    }
  }

  /** Paths of the cluster overrides: `prefix + clusterDir` per element with a non-empty override. */
  function OverridePaths(prefix: string, elems: seq<ListElement>): ParseResult {
    if |elems| == 0 then NoPaths
    else OverrideNext(prefix, OverridePaths(prefix, elems[..|elems| - 1]), elems[|elems| - 1])
  }

  /** One iteration of the override loop. */
  function OverrideNext(prefix: string, r: ParseResult, le: ListElement): ParseResult {
    if le.clusterDir == "" then r
    else
      var p := prefix + le.clusterDir;
      var clusters := if le.nameNormalized != "" then AppendCluster(r.clusters, le.nameNormalized, [p]) else r.clusters;
      ParseResult(r.paths + [ComponentPath(p, le.clusterDir)], clusters)
  }

  /** `p` is the override path of some element of `elems`. */
  ghost predicate OverridePath(prefix: string, elems: seq<ListElement>, p: ComponentPath) {
    exists le :: le in elems && le.clusterDir != "" && p == ComponentPath(prefix + le.clusterDir, le.clusterDir)
  }

  /** `k` is the name of some element of `elems` with an override. */
  ghost predicate OverrideCluster(elems: seq<ListElement>, k: string) {
    exists le :: le in elems && le.clusterDir != "" && le.nameNormalized == k
  }

  /** `p` is the override path of some element of `elems` named `k`. */
  ghost predicate OverrideEntry(prefix: string, elems: seq<ListElement>, k: string, p: string) {
    exists le :: le in elems && le.clusterDir != "" && le.nameNormalized == k && p == prefix + le.clusterDir
  }

  /**
   * What the override paths of `elems` are: one `prefix + clusterDir` path per element with a
   * non-empty override and nothing else, registered under non-empty names of such elements.
   */
  ghost predicate OverridesOf(prefix: string, elems: seq<ListElement>, r: ParseResult) {
    (forall i :: 0 <= i < |r.paths| ==> OverridePath(prefix, elems, r.paths[i]))
    && (forall le :: le in elems && le.clusterDir != "" ==> ComponentPath(prefix + le.clusterDir, le.clusterDir) in r.paths)
    && (forall k :: k in r.clusters ==> k != "" && OverrideCluster(elems, k))
  }

  /**
   * What the override cluster lists of `elems` hold: each override path is registered under its
   * element's name when that name is non-empty, and a name's list holds only paths of elements of
   * that name.
   */
  ghost predicate OverrideListsOf(prefix: string, elems: seq<ListElement>, c: Clusters) {
    (forall le :: le in elems && le.clusterDir != "" && le.nameNormalized != "" ==>
       prefix + le.clusterDir in Get(c, le.nameNormalized))
    && (forall k, i :: 0 <= i < |Get(c, k)| ==> OverrideEntry(prefix, elems, k, Get(c, k)[i]))
  }

  lemma OverrideNextSound(prefix: string, elems: seq<ListElement>, r: ParseResult)
    requires |elems| > 0 && OverridesOf(prefix, elems[..|elems| - 1], r)
    ensures OverridesOf(prefix, elems, OverrideNext(prefix, r, elems[|elems| - 1]))
  {
    var init, le := elems[..|elems| - 1], elems[|elems| - 1];
    assert elems == init + [le];
    assert forall x :: x in elems <==> x in init || x == le;
    var n := OverrideNext(prefix, r, le);
    forall i | 0 <= i < |n.paths|
      ensures OverridePath(prefix, elems, n.paths[i])
    {
      if i < |r.paths| {
        assert n.paths[i] == r.paths[i];
        var x :| x in init && x.clusterDir != "" && r.paths[i] == ComponentPath(prefix + x.clusterDir, x.clusterDir);
        assert x in elems;
      } else {
        assert le in elems;
      }
    }
    forall x | x in elems && x.clusterDir != ""
      ensures ComponentPath(prefix + x.clusterDir, x.clusterDir) in n.paths
    {
      if x != le {
        assert ComponentPath(prefix + x.clusterDir, x.clusterDir) in r.paths;
      }
    }
    forall k | k in n.clusters
      ensures k != "" && OverrideCluster(elems, k)
    {
      if k in r.clusters {
        var x :| x in init && x.clusterDir != "" && x.nameNormalized == k;
        assert x in elems;
      } else {
        assert le in elems;
      }
    }
  }

  lemma OverrideNextLists(prefix: string, elems: seq<ListElement>, r: ParseResult)
    requires |elems| > 0 && OverrideListsOf(prefix, elems[..|elems| - 1], r.clusters)
    ensures OverrideListsOf(prefix, elems, OverrideNext(prefix, r, elems[|elems| - 1]).clusters)
  {
    var init, le := elems[..|elems| - 1], elems[|elems| - 1];
    assert elems == init + [le];
    assert forall x :: x in elems <==> x in init || x == le;
    var n := OverrideNext(prefix, r, le);
    forall x | x in elems && x.clusterDir != "" && x.nameNormalized != ""
      ensures prefix + x.clusterDir in Get(n.clusters, x.nameNormalized)
    {
      if x != le {
        assert prefix + x.clusterDir in Get(r.clusters, x.nameNormalized);
      }
    }
    forall k, i | 0 <= i < |Get(n.clusters, k)|
      ensures OverrideEntry(prefix, elems, k, Get(n.clusters, k)[i])
    {
      if i < |Get(r.clusters, k)| {
        assert Get(n.clusters, k)[i] == Get(r.clusters, k)[i];
        var x :| x in init && x.clusterDir != "" && x.nameNormalized == k && Get(r.clusters, k)[i] == prefix + x.clusterDir;
        assert x in elems;
      } else {
        assert le in elems;
      }
    }
  }

  /**
   * Every element with a non-empty `values.clusterDir` contributes `prefix + clusterDir`, nothing else
   * is contributed, and clusters are registered only under non-empty names of such elements.
   */
  lemma {:induction false} OverridePathsSound(prefix: string, elems: seq<ListElement>)
    ensures OverridesOf(prefix, elems, OverridePaths(prefix, elems))
    ensures OverrideListsOf(prefix, elems, OverridePaths(prefix, elems).clusters)
    decreases |elems|
  {
    if |elems| > 0 {
      var init := elems[..|elems| - 1];
      OverridePathsSound(prefix, init);
      OverrideNextSound(prefix, elems, OverridePaths(prefix, init));
      OverrideNextLists(prefix, elems, OverridePaths(prefix, init));
    }
  }

  /** Number of elements with a non-empty cluster override. */
  function CountOverrides(elems: seq<ListElement>): nat {
    if |elems| == 0 then 0
    else CountOverrides(elems[..|elems| - 1]) + (if elems[|elems| - 1].clusterDir != "" then 1 else 0)
  }

  lemma {:induction false} OverridePathsCount(prefix: string, elems: seq<ListElement>)
    ensures |OverridePaths(prefix, elems).paths| == CountOverrides(elems)
    decreases |elems|
  {
    if |elems| > 0 {
      OverridePathsCount(prefix, elems[..|elems| - 1]);
    }
  }

  /** The base path of the structured template: `sourceRoot/environment[/clusterDir]`. */
  function StructuredBase(sr: string, env: string, clusterDir: Option<string>): (r: ComponentPath)
    ensures clusterDir.Some? && clusterDir.value != "" ==> r == ComponentPath(sr + "/" + env + "/" + clusterDir.value, clusterDir.value)
    ensures clusterDir.None? || clusterDir.value == "" ==> r == ComponentPath(sr + "/" + env, "")
  {
    match clusterDir
    case Some(cd) => if cd == "" then ComponentPath(sr + "/" + env, "") else ComponentPath(sr + "/" + env + "/" + cd, cd)
    case None => ComponentPath(sr + "/" + env, "")
  }

  /** What `processMergeGenerators` returns for the sub-generators of one merge generator. */
  function MergeSpec(pathTemplate: string, subGens: seq<Value>): ParseResult {
    var sr := LastValue(subGens, "sourceRoot").GetOr("");
    var env := LastValue(subGens, "environment").GetOr("");
    var elems := ListElements(subGens);
    if sr == "" then NoPaths
    else if Strs.Contains(pathTemplate, "{{nameNormalized}}") then
      var r := NamedPaths(sr + "/" + env + "/", elems);
      ParseResult([ComponentPath(sr + "/" + env + "/", "")] + r.paths, r.clusters)
    else
      var r := OverridePaths(sr + "/" + env + "/", elems);
      ParseResult([StructuredBase(sr, env, LastValue(subGens, "clusterDir"))] + r.paths, r.clusters)
  }

  /** The elements of a list generator's `elements`, appended to `acc`; entries that are not mappings are skipped. */
  method CollectElements(acc: seq<ListElement>, elements: seq<Value>) returns (r: seq<ListElement>)
    ensures r == acc + Elements(elements)
  {
    r := acc;
    var j := 0;
    while j < |elements|
      invariant 0 <= j <= |elements|
      invariant r == acc + Elements(elements[..j])
    {
      assert elements[..j + 1][..j] == elements[..j];
      if elements[j].Map? {
        r := r + [ElementOf(elements[j].m)];
      }
      j := j + 1;
    }
    assert elements[..j] == elements;
  }

  /** The first pass of `processMergeGenerators`: the base values (later clusters generators win) and the list elements. */
  method ScanMergeGenerators(subGens: seq<Value>)
    returns (sourceRoot: string, environment: string, clusterDir: string, hasClusterDir: bool, listElements: seq<ListElement>)
    ensures sourceRoot == LastValue(subGens, "sourceRoot").GetOr("")
    ensures environment == LastValue(subGens, "environment").GetOr("")
    ensures hasClusterDir == LastValue(subGens, "clusterDir").Some?
    ensures hasClusterDir ==> clusterDir == LastValue(subGens, "clusterDir").value
    ensures listElements == ListElements(subGens)
  {
    sourceRoot, environment, clusterDir := "", "", "";
    hasClusterDir := false;
    listElements := [];
    var i := 0;
    while i < |subGens|
      invariant 0 <= i <= |subGens|
      invariant sourceRoot == LastValue(subGens[..i], "sourceRoot").GetOr("")
      invariant environment == LastValue(subGens[..i], "environment").GetOr("")
      invariant hasClusterDir == LastValue(subGens[..i], "clusterDir").Some?
      invariant hasClusterDir ==> clusterDir == LastValue(subGens[..i], "clusterDir").value
      invariant listElements == ListElements(subGens[..i])
    {
      var sg := subGens[i];
      assert subGens[..i + 1][..i] == subGens[..i];
      if sg.Map? && GetMap(sg.m, "clusters").Some? {
        var values := GetMapOrEmpty(GetMap(sg.m, "clusters").value, "values");
        if GetStr(values, "sourceRoot").Some? {
          sourceRoot := GetStr(values, "sourceRoot").value;
        }
        if GetStr(values, "environment").Some? {
          environment := GetStr(values, "environment").value;
        }
        if GetStr(values, "clusterDir").Some? {
          clusterDir := GetStr(values, "clusterDir").value;
          hasClusterDir := true;
        }
      }
      if sg.Map? && GetMap(sg.m, "list").Some? {
        listElements := CollectElements(listElements, GetList(GetMap(sg.m, "list").value, "elements"));
      }
      i := i + 1;
    }
    assert subGens[..i] == subGens;
  }

  /** The `{{nameNormalized}}` loop of `processMergeGenerators`: appends one path per element with a directory. */
  method AddNamedPaths(sourceRoot: string, environment: string, listElements: seq<ListElement>, paths0: seq<ComponentPath>)
    returns (paths: seq<ComponentPath>, clusters: Clusters)
    ensures paths == paths0 + NamedPaths(sourceRoot + "/" + environment + "/", listElements).paths
    ensures clusters == NamedPaths(sourceRoot + "/" + environment + "/", listElements).clusters
  {
    ghost var prefix := sourceRoot + "/" + environment + "/";
    paths, clusters := paths0, map[];
    var k := 0;
    while k < |listElements|
      invariant 0 <= k <= |listElements|
      invariant paths == paths0 + NamedPaths(prefix, listElements[..k]).paths
      invariant clusters == NamedPaths(prefix, listElements[..k]).clusters
    {
      assert listElements[..k + 1][..k] == listElements[..k];
      var le := listElements[k];
      var dir := le.clusterDir;
      if dir == "" {
        dir := le.nameNormalized;
      }
      assert dir == NamedDir(le);
      ghost var prev := NamedPaths(prefix, listElements[..k]);
      if dir != "" {
        var p := sourceRoot + "/" + environment + "/" + dir;
        assert NamedPaths(prefix, listElements[..k + 1])
          == ParseResult(prev.paths + [ComponentPath(p, dir)], AppendCluster(prev.clusters, le.nameNormalized, [p]));
        paths := paths + [ComponentPath(p, dir)];
        clusters := AppendCluster(clusters, le.nameNormalized, [p]);
      } else {
        assert NamedPaths(prefix, listElements[..k + 1]) == prev;
      }
      k := k + 1;
    }
    assert listElements[..k] == listElements;
  }

  /** The override loop of `processMergeGenerators`: appends one path per element with a cluster override. */
  method AddOverridePaths(sourceRoot: string, environment: string, listElements: seq<ListElement>, paths0: seq<ComponentPath>)
    returns (paths: seq<ComponentPath>, clusters: Clusters)
    ensures paths == paths0 + OverridePaths(sourceRoot + "/" + environment + "/", listElements).paths
    ensures clusters == OverridePaths(sourceRoot + "/" + environment + "/", listElements).clusters
  {
    ghost var prefix := sourceRoot + "/" + environment + "/";
    paths, clusters := paths0, map[];
    var k := 0;
    while k < |listElements|
      invariant 0 <= k <= |listElements|
      invariant paths == paths0 + OverridePaths(prefix, listElements[..k]).paths
      invariant clusters == OverridePaths(prefix, listElements[..k]).clusters
    {
      assert listElements[..k + 1][..k] == listElements[..k];
      var le := listElements[k];
      if le.clusterDir != "" {
        var p := sourceRoot + "/" + environment + "/" + le.clusterDir;
        paths := paths + [ComponentPath(p, le.clusterDir)];
        if le.nameNormalized != "" {
          clusters := AppendCluster(clusters, le.nameNormalized, [p]);
        }
      }
      k := k + 1;
    }
    assert listElements[..k] == listElements;
  }

  /** `processMergeGenerators`. It never fails, so it returns no error. */
  method ProcessMergeGenerators(pathTemplate: string, subGens: seq<Value>) returns (r: ParseResult)
    ensures r == MergeSpec(pathTemplate, subGens)
  {
    var sourceRoot, environment, clusterDir, hasClusterDir, listElements := ScanMergeGenerators(subGens);
    if sourceRoot == "" {
      return NoPaths;
    }
    var paths: seq<ComponentPath>;
    var clusters: Clusters;
    if Strs.Contains(pathTemplate, "{{nameNormalized}}") {
      var basePath := sourceRoot + "/" + environment + "/";
      paths, clusters := AddNamedPaths(sourceRoot, environment, listElements, [ComponentPath(basePath, "")]);
      return ParseResult(paths, clusters);
    }
    if hasClusterDir && clusterDir == "" {
      paths := [ComponentPath(sourceRoot + "/" + environment, "")];
    } else if hasClusterDir && clusterDir != "" {
      paths := [ComponentPath(sourceRoot + "/" + environment + "/" + clusterDir, clusterDir)];
    } else {
      paths := [ComponentPath(sourceRoot + "/" + environment, "")];
    }
    paths, clusters := AddOverridePaths(sourceRoot, environment, listElements, paths);
    r := ParseResult(paths, clusters);
  }

  // ---------------------------------------------------------------------------------------------
  // Generators of an ApplicationSet.

  /** `resolveClusterGenerator`: one path `sourceRoot/environment` when the generator names a source root. */
  function ResolveClusterGenerator(clustersGen: map<string, Value>): (r: seq<ComponentPath>)
    ensures var values := GetMapOrEmpty(clustersGen, "values");
      (|r| == 1 <==> GetStr(values, "sourceRoot").GetOr("") != "") && |r| <= 1
      && (|r| == 1 ==> r[0] == ComponentPath(GetStr(values, "sourceRoot").value + "/" + GetStr(values, "environment").GetOr(""), ""))
  {
    var values := GetMapOrEmpty(clustersGen, "values");
    var sourceRoot := GetStr(values, "sourceRoot").GetOr("");
    var environment := GetStr(values, "environment").GetOr("");
    if sourceRoot == "" then [] else [ComponentPath(sourceRoot + "/" + environment, "")]
  }

  /** What one generator of a templated ApplicationSet contributes. */
  function GeneratorSpec(pathTemplate: string, gen: Value): ParseResult {
    if !gen.Map? then NoPaths
    else if GetMap(gen.m, "merge").Some? then
      MergeSpec(pathTemplate, GetList(GetMap(gen.m, "merge").value, "generators"))
    else if GetMap(gen.m, "clusters").Some? then
      ParseResult(ResolveClusterGenerator(GetMap(gen.m, "clusters").value), map[])
    else NoPaths
  }

  /** What `extractTemplatedPaths` returns: the generators' contributions, combined in order. */
  function TemplatedSpec(pathTemplate: string, gens: seq<Value>): ParseResult {
    if |gens| == 0 then NoPaths
    else Combine(TemplatedSpec(pathTemplate, gens[..|gens| - 1]), GeneratorSpec(pathTemplate, gens[|gens| - 1]))
  }

  method ExtractTemplatedPaths(pathTemplate: string, generators: seq<Value>) returns (r: ParseResult)
    ensures r == TemplatedSpec(pathTemplate, generators)
  {
    var paths: seq<ComponentPath> := [];
    var clusters: Clusters := map[];
    var i := 0;
    while i < |generators|
      invariant 0 <= i <= |generators|
      invariant ParseResult(paths, clusters) == TemplatedSpec(pathTemplate, generators[..i])
    {
      assert generators[..i + 1][..i] == generators[..i];
      var gen := generators[i];
      if gen.Map? {
        if GetMap(gen.m, "merge").Some? {
          var subGens := GetList(GetMap(gen.m, "merge").value, "generators");
          var sub := ProcessMergeGenerators(pathTemplate, subGens);
          paths := paths + sub.paths;
          clusters := MergeInto(clusters, sub.clusters);
        } else if GetMap(gen.m, "clusters").Some? {
          paths := paths + ResolveClusterGenerator(GetMap(gen.m, "clusters").value);
          MergeClustersEmpty(clusters);
        } else {
          MergeClustersEmpty(clusters);
        }
      } else {
        MergeClustersEmpty(clusters);
      }
      i := i + 1;
    }
    assert generators[..i] == generators;
    r := ParseResult(paths, clusters);
  }

  /** `spec.template.spec.source.path`, when every step of the way is present with the right type. */
  function SourcePath(doc: map<string, Value>): Option<string> {
    var spec := GetMap(doc, "spec");
    if spec.None? then None
    else
      var tmpl := GetMap(spec.value, "template");
      if tmpl.None? then None
      else
        var tmplSpec := GetMap(tmpl.value, "spec");
        if tmplSpec.None? then None
        else
          var source := GetMap(tmplSpec.value, "source");
          if source.None? then None
          else GetStr(source.value, "path")
  }

  /** The generators of an ApplicationSet (`spec.generators`), empty when absent. */
  function Generators(doc: map<string, Value>): seq<Value> {
    if GetMap(doc, "spec").Some? then GetList(GetMap(doc, "spec").value, "generators") else []
  }

  /** What `extractFromAppSet` returns for one ApplicationSet. */
  function ExtractSpec(doc: map<string, Value>): ParseResult {
    var path := SourcePath(doc);
    if path.None? || |Generators(doc)| == 0 then NoPaths
    else if !Strs.Contains(path.value, "{{") then ParseResult([ComponentPath(path.value, "")], map[])
    else TemplatedSpec(path.value, Generators(doc))
  }

  method ExtractFromAppSet(doc: map<string, Value>) returns (r: ParseResult)
    ensures r == ExtractSpec(doc)
  {
    var spec := GetMap(doc, "spec");
    if spec.None? {
      return NoPaths;
    }
    var tmpl := GetMap(spec.value, "template");
    if tmpl.None? {
      return NoPaths;
    }
    var tmplSpec := GetMap(tmpl.value, "spec");
    if tmplSpec.None? {
      return NoPaths;
    }
    var source := GetMap(tmplSpec.value, "source");
    if source.None? {
      return NoPaths;
    }
    var pathTemplate := GetStr(source.value, "path");
    if pathTemplate.None? {
      return NoPaths;
    }
    var generators := GetList(spec.value, "generators");
    if |generators| == 0 {
      return NoPaths;
    }
    if !Strs.Contains(pathTemplate.value, "{{") {
      return ParseResult([ComponentPath(pathTemplate.value, "")], map[]);
    }
    r := ExtractTemplatedPaths(pathTemplate.value, generators);
  }

  // ---------------------------------------------------------------------------------------------
  // A whole rendered overlay.

  /** A document the parse skips: a null document, or one whose `kind` is not the string "ApplicationSet". */
  predicate Skipped(d: Decoded<Value>) {
    d.Doc? && (d.doc.Null? || (d.doc.Map? && GetStr(d.doc.m, "kind") != Some(AppSetKind)))
  }

  /** A document that ends the parse with an error: a decoder error, or a document that is not a mapping. */
  predicate Fails(d: Decoded<Value>) {
    d.Malformed? || (!d.doc.Null? && !d.doc.Map?)
  }

  function FailureOf(d: Decoded<Value>): ParseError
    requires Fails(d)
  {
    if d.Malformed? then DecodeError(d.msg) else DecodeError("cannot unmarshal document into a mapping")
  }

  /** What `ParseApplicationSets` returns for a stream of decoded documents. */
  function ParseDocs(docs: seq<Decoded<Value>>): Result<ParseResult, ParseError> {
    if |docs| == 0 then Success(NoPaths)
    else
      var prev := ParseDocs(docs[..|docs| - 1]);
      var d := docs[|docs| - 1];
      if prev.Failure? then prev
      else if Fails(d) then Failure(FailureOf(d))
      else if Skipped(d) then prev
      else Success(Combine(prev.value, ExtractSpec(d.doc.m)))
  }

  /** `ParseApplicationSets`, reading the documents up to the end of the stream or the first failure. */
  method ParseApplicationSets(docs: seq<Decoded<Value>>) returns (r: Result<ParseResult, ParseError>)
    ensures r == ParseDocs(docs)
  {
    var paths: seq<ComponentPath> := [];
    var clusters: Clusters := map[];
    var i := 0;
    while i < |docs|
      invariant 0 <= i <= |docs|
      invariant ParseDocs(docs[..i]) == Success(ParseResult(paths, clusters))
    {
      assert docs[..i + 1][..i] == docs[..i];
      var d := docs[i];
      if d.Malformed? {
        ParseFailureStays(docs, i + 1);
        return Failure(DecodeError(d.msg));
      }
      if d.doc.Null? {
        i := i + 1;
        continue;
      }
      if !d.doc.Map? {
        ParseFailureStays(docs, i + 1);
        return Failure(DecodeError("cannot unmarshal document into a mapping"));
      }
      var doc := d.doc.m;
      var kind := GetStr(doc, "kind").GetOr("");
      if kind != AppSetKind {
        i := i + 1;
        continue;
      }
      var x := ExtractFromAppSet(doc);
      paths := paths + x.paths;
      clusters := MergeInto(clusters, x.clusters);
      i := i + 1;
    }
    assert docs[..i] == docs;
    r := Success(ParseResult(paths, clusters));
  }

  /** Once a prefix of the stream has failed, the whole stream fails with the same error. */
  lemma {:induction false} ParseFailureStays(docs: seq<Decoded<Value>>, n: nat)
    requires n <= |docs| && ParseDocs(docs[..n]).Failure?
    ensures ParseDocs(docs) == ParseDocs(docs[..n])
    decreases |docs| - n
  {
    if n < |docs| {
      assert docs[..n + 1][..n] == docs[..n];
      ParseFailureStays(docs, n + 1);
    } else {
      assert docs[..n] == docs;
    }
  }

  /** A parse fails exactly when some document fails to decode into a mapping. */
  lemma {:induction false} ParseFailsIffDecodeFails(docs: seq<Decoded<Value>>)
    ensures ParseDocs(docs).Failure? <==> exists i :: 0 <= i < |docs| && Fails(docs[i])
    ensures ParseDocs(docs).Failure? ==> exists i :: 0 <= i < |docs| && Fails(docs[i]) && ParseDocs(docs).error == FailureOf(docs[i])
    decreases |docs|
  {
    if |docs| > 0 {
      var init := docs[..|docs| - 1];
      ParseFailsIffDecodeFails(init);
      assert forall i :: 0 <= i < |init| ==> init[i] == docs[i];
    }
  }

  /** Parsing two streams one after the other: paths concatenated, cluster lists appended per cluster. */
  lemma {:induction false} ParseConcat(a: seq<Decoded<Value>>, b: seq<Decoded<Value>>)
    requires ParseDocs(a).Success? && ParseDocs(b).Success?
    ensures ParseDocs(a + b) == Success(Combine(ParseDocs(a).value, ParseDocs(b).value))
    decreases |b|
  {
    if |b| == 0 {
      assert a + b == a;
      MergeClustersEmpty(ParseDocs(a).value.clusters);
      assert ParseDocs(a).value.paths + [] == ParseDocs(a).value.paths;
    } else {
      var binit := b[..|b| - 1];
      assert (a + b)[..|a + b| - 1] == a + binit;
      ParseConcat(a, binit);
      var d := b[|b| - 1];
      if !Skipped(d) {
        CombineAssoc(ParseDocs(a).value, ParseDocs(binit).value, ExtractSpec(d.doc.m));
      }
    }
  }

  /** Documents that are not ApplicationSets can be removed from a stream without changing the result. */
  lemma SkippedDocumentIgnored(a: seq<Decoded<Value>>, d: Decoded<Value>, b: seq<Decoded<Value>>)
    requires Skipped(d)
    ensures ParseDocs(a + [d] + b) == ParseDocs(a + b)
  {
    if ParseDocs(a).Success? {
      assert (a + [d])[..|a|] == a;
      assert ParseDocs(a + [d]) == ParseDocs(a);
      if ParseDocs(b).Success? {
        ParseConcat(a + [d], b);
        ParseConcat(a, b);
      } else {
        ParseFailsIffDecodeFails(b);
        ParseFailsIffDecodeFails(a + [d] + b);
        ParseFailsIffDecodeFails(a + b);
        var i :| 0 <= i < |b| && Fails(b[i]);
        assert (a + [d] + b)[|a| + 1 + i] == b[i];
        assert (a + b)[|a| + i] == b[i];
        FirstFailure(a + [d] + b, |a| + 1);
        FirstFailure(a + b, |a|);
        assert (a + [d] + b)[|a| + 1..] == b && (a + b)[|a|..] == b;
      }
    } else {
      FailurePrefix(a, [d] + b);
      FailurePrefix(a, b);
      assert a + [d] + b == a + ([d] + b);
    }
  }

  lemma FailurePrefix(a: seq<Decoded<Value>>, b: seq<Decoded<Value>>)
    requires ParseDocs(a).Failure?
    ensures ParseDocs(a + b) == ParseDocs(a)
  {
    assert (a + b)[..|a|] == a;
    ParseFailureStays(a + b, |a|);
  }

  /** After a successful prefix, the stream's failure is the failure of the rest. */
  lemma {:induction false} FirstFailure(s: seq<Decoded<Value>>, n: nat)
    requires n <= |s| && ParseDocs(s[..n]).Success?
    ensures ParseDocs(s).Failure? <==> ParseDocs(s[n..]).Failure?
    ensures ParseDocs(s).Failure? ==> ParseDocs(s) == ParseDocs(s[n..])
    decreases |s|
  {
    if |s| == n {
      assert s[..n] == s;
      assert s[n..] == [];
    } else {
      var init := s[..|s| - 1];
      assert init[..n] == s[..n];
      FirstFailure(init, n);
      assert s[n..][..|s[n..]| - 1] == init[n..];
      assert s[n..][|s[n..]| - 1] == s[|s| - 1];
    }
  }

  // ---------------------------------------------------------------------------------------------
  // Properties of single ApplicationSets.

  /** An ApplicationSet without a string source path, or without generators, yields nothing. */
  lemma NoSourceNoPaths(doc: map<string, Value>)
    requires SourcePath(doc).None? || |Generators(doc)| == 0
    ensures ExtractSpec(doc) == NoPaths
  {
  }

  /** A path without "{{" is taken literally, with no cluster directory and no clusters. */
  lemma StaticPath(doc: map<string, Value>)
    requires SourcePath(doc).Some? && |Generators(doc)| > 0 && !Strs.Contains(SourcePath(doc).value, "{{")
    ensures ExtractSpec(doc) == ParseResult([ComponentPath(SourcePath(doc).value, "")], map[])
  {
  }

  /** A merge generator with no non-empty source root yields nothing. */
  lemma MergeWithoutSourceRoot(pathTemplate: string, subGens: seq<Value>)
    requires LastValue(subGens, "sourceRoot").GetOr("") == ""
    ensures MergeSpec(pathTemplate, subGens) == NoPaths
  {
  }

  /**
   * The structured template: the base path comes first, then one cluster-bound path per list
   * element with a non-empty override, and clusters are registered only under non-empty names.
   */
  lemma StructuredMerge(pathTemplate: string, subGens: seq<Value>)
    requires LastValue(subGens, "sourceRoot").GetOr("") != ""
    requires !Strs.Contains(pathTemplate, "{{nameNormalized}}")
    ensures var r := MergeSpec(pathTemplate, subGens);
      var sr, env := LastValue(subGens, "sourceRoot").value, LastValue(subGens, "environment").GetOr("");
      |r.paths| == 1 + CountOverrides(ListElements(subGens))
      && r.paths[0] == StructuredBase(sr, env, LastValue(subGens, "clusterDir"))
      && (forall k :: k in r.clusters ==> k != "")
      && (forall le :: le in ListElements(subGens) && le.clusterDir != "" && le.nameNormalized != "" ==>
            sr + "/" + env + "/" + le.clusterDir in Get(r.clusters, le.nameNormalized))
  {
    var sr, env := LastValue(subGens, "sourceRoot").value, LastValue(subGens, "environment").GetOr("");
    OverridePathsCount(sr + "/" + env + "/", ListElements(subGens));
    OverridePathsSound(sr + "/" + env + "/", ListElements(subGens));
  }

  /**
   * The `{{nameNormalized}}` template: the environment directory (with its trailing "/") comes
   * first, then every element's directory below it, registered under the element's name.
   */
  lemma NameNormalizedMerge(pathTemplate: string, subGens: seq<Value>, le: ListElement)
    requires LastValue(subGens, "sourceRoot").GetOr("") != ""
    requires Strs.Contains(pathTemplate, "{{nameNormalized}}")
    requires le in ListElements(subGens) && NamedDir(le) != ""
    ensures var r := MergeSpec(pathTemplate, subGens);
      var prefix := LastValue(subGens, "sourceRoot").value + "/" + LastValue(subGens, "environment").GetOr("") + "/";
      r.paths[0] == ComponentPath(prefix, "")
      && ComponentPath(prefix + NamedDir(le), NamedDir(le)) in r.paths[1..]
      && prefix + NamedDir(le) in Get(r.clusters, le.nameNormalized)
  {
    var r := MergeSpec(pathTemplate, subGens);
    var prefix := LastValue(subGens, "sourceRoot").value + "/" + LastValue(subGens, "environment").GetOr("") + "/";
    NamedPathsSound(prefix, ListElements(subGens));
    assert r.paths[1..] == NamedPaths(prefix, ListElements(subGens)).paths;
  }
}
