/**
 * The decision logic of the `env-detector` command (cmd/env-detector/main.go): the flags it
 * requires, the shortcut for a change with no files, and how the label list it syncs to the pull
 * request is assembled from a detection result. Git, the worktree, logging and the GitHub calls
 * themselves are not part of this model.
 */
module EnvDetector {
  import opened Wrappers
  import Yaml
  import Ordering
  import Strs
  import Detector
  import DetectorLabels
  import GithubLabels

  /** The explicit label for "no environment is affected". */
  const NoEnvironmentLabel: string := "environment/none"

  /** The flags the decisions below depend on. */
  datatype Flags = Flags(dryRun: bool, prNumber: int, token: string, repo: string, clusterLabels: bool)

  const MissingFlagsMessage: string := "--pr-number, --github-token, and --repo are required when not using --dry-run"

  /** The start-up check: outside a dry run a pull request number, a token and a repository are required. */
  function FlagsError(f: Flags): (r: Option<string>)
    ensures r.Some? <==> !f.dryRun && (f.prNumber == 0 || f.token == "" || f.repo == "")
  {
    if !f.dryRun && (f.prNumber == 0 || f.token == "" || f.repo == "") then Some(MissingFlagsMessage)
    else None
  }

  /** A dry run never needs the GitHub flags. */
  lemma DryRunNeedsNoCredentials(f: Flags)
    requires f.dryRun
    ensures FlagsError(f).None?
  {
  }

  /**
   * What the synced label list says about a detection result: one label per affected environment,
   * cluster labels only when asked for, "environment/none" exactly when no environment is
   * affected, the hold label exactly when production is, and then as the last label; nothing else,
   * and nothing twice.
   */
  ghost predicate LabelsFor(labels: seq<string>, envs: set<Detector.Environment>, clusters: set<string>, withClusters: bool) {
    (forall e :: DetectorLabels.EnvLabel(e) in labels <==> e in envs)
    && (forall c :: DetectorLabels.ClusterLabel(c) in labels <==> withClusters && c in clusters)
    && (NoEnvironmentLabel in labels <==> envs == {})
    && (GithubLabels.HoldProductionLabel in labels <==> Detector.Production in envs)
    && (Detector.Production in envs ==> labels[|labels| - 1] == GithubLabels.HoldProductionLabel)
    && (forall x :: x in labels ==>
          x == NoEnvironmentLabel || x == GithubLabels.HoldProductionLabel
          || (exists e :: x == DetectorLabels.EnvLabel(e)) || (exists c :: x == DetectorLabels.ClusterLabel(c)))
    && Ordering.Distinct(labels)
  }

  /** The two extra labels are neither environment nor cluster labels, nor each other. */
  lemma ExtrasAreFresh(e: Detector.Environment, c: string)
    ensures DetectorLabels.EnvLabel(e) != NoEnvironmentLabel
    ensures DetectorLabels.EnvLabel(e) != GithubLabels.HoldProductionLabel
    ensures DetectorLabels.ClusterLabel(c) != NoEnvironmentLabel
    ensures DetectorLabels.ClusterLabel(c) != GithubLabels.HoldProductionLabel
    ensures NoEnvironmentLabel != GithubLabels.HoldProductionLabel
  {
    assert DetectorLabels.EnvLabel(e)[0] == 'e';
    assert DetectorLabels.ClusterLabel(c)[0] == 'c';
    assert GithubLabels.HoldProductionLabel[0] == 'i';
    assert NoEnvironmentLabel[0] == 'e';
  }

  /** Every label the command syncs is one `SyncLabels` manages, so a second sync changes nothing. */
  lemma AssembledLabelsManaged(labels: seq<string>, envs: set<Detector.Environment>, clusters: set<string>, withClusters: bool)
    requires LabelsFor(labels, envs, clusters, withClusters)
    ensures forall x :: x in labels ==> GithubLabels.IsManagedLabel(x)
  {
    forall x | x in labels ensures GithubLabels.IsManagedLabel(x) {
      GithubLabels.ManagedIff(x);
      if x == NoEnvironmentLabel {
        assert x[..12] == "environment/";
      } else if x == GithubLabels.HoldProductionLabel {
        assert x[..6] == "infra/";
      } else if exists e :: x == DetectorLabels.EnvLabel(e) {
        var e :| x == DetectorLabels.EnvLabel(e);
        DetectorLabels.CategoriesDisjoint(e, "");
      } else {
        var c :| x == DetectorLabels.ClusterLabel(c);
        DetectorLabels.CategoriesDisjoint(Detector.Development, c);
      }
    }
  }

  /** The labels chosen before the two extras: the environment labels, with the cluster labels too if asked. */
  ghost predicate BaseLabels(base: seq<string>, envs: set<Detector.Environment>, clusters: set<string>, withClusters: bool) {
    Ordering.Distinct(base)
    && forall x :: x in base <==>
         (exists e :: e in envs && x == DetectorLabels.EnvLabel(e))
         || (withClusters && exists c :: c in clusters && x == DetectorLabels.ClusterLabel(c))
  }

  lemma StrictlySortedDistinct(s: seq<string>)
    requires Ordering.StrictlySorted(s)
    ensures Ordering.Distinct(s)
  {
    Ordering.StrLessOrder();
    forall i, j | 0 <= i < j < |s| ensures s[i] != s[j] {
      assert Ordering.StrLess(s[i], s[j]);
    }
  }

  /** Appending the extras to base labels gives a list with the promised contents. */
  lemma ExtrasComplete(base: seq<string>, labels: seq<string>, envs: set<Detector.Environment>,
                       clusters: set<string>, withClusters: bool)
    requires BaseLabels(base, envs, clusters, withClusters)
    requires labels == base + (if envs == {} then [NoEnvironmentLabel] else [])
                            + (if Detector.Production in envs then [GithubLabels.HoldProductionLabel] else [])
    ensures LabelsFor(labels, envs, clusters, withClusters)
  {
    ExtrasAreFresh(Detector.Development, "");
    ExtrasNotInBase(base, envs, clusters, withClusters);
    BaseEnvLabels(base, envs, clusters, withClusters);
    BaseClusterLabels(base, envs, clusters, withClusters);
    var extra1 := if envs == {} then [NoEnvironmentLabel] else [];
    var extra2 := if Detector.Production in envs then [GithubLabels.HoldProductionLabel] else [];
    assert forall x :: x in labels <==> x in base || x in extra1 || x in extra2;
    forall e ensures DetectorLabels.EnvLabel(e) in labels <==> e in envs {
      ExtrasAreFresh(e, "");
    }
    forall c ensures DetectorLabels.ClusterLabel(c) in labels <==> withClusters && c in clusters {
      ExtrasAreFresh(Detector.Development, c);
    }
    forall i, j | 0 <= i < j < |labels| ensures labels[i] != labels[j] {
      if j >= |base| && i < |base| {
        assert labels[i] in base;
      }
    }
  }

  /** Neither extra label is among the base labels. */
  lemma ExtrasNotInBase(base: seq<string>, envs: set<Detector.Environment>, clusters: set<string>, withClusters: bool)
    requires BaseLabels(base, envs, clusters, withClusters)
    ensures NoEnvironmentLabel !in base && GithubLabels.HoldProductionLabel !in base
  {
    if NoEnvironmentLabel in base {
      if exists e :: e in envs && NoEnvironmentLabel == DetectorLabels.EnvLabel(e) {
        var e :| e in envs && NoEnvironmentLabel == DetectorLabels.EnvLabel(e);
        ExtrasAreFresh(e, "");
      } else {
        var c :| c in clusters && NoEnvironmentLabel == DetectorLabels.ClusterLabel(c);
        ExtrasAreFresh(Detector.Development, c);
      }
    }
    if GithubLabels.HoldProductionLabel in base {
      if exists e :: e in envs && GithubLabels.HoldProductionLabel == DetectorLabels.EnvLabel(e) {
        var e :| e in envs && GithubLabels.HoldProductionLabel == DetectorLabels.EnvLabel(e);
        ExtrasAreFresh(e, "");
      } else {
        var c :| c in clusters && GithubLabels.HoldProductionLabel == DetectorLabels.ClusterLabel(c);
        ExtrasAreFresh(Detector.Development, c);
      }
    }
  }

  /** The environment labels among the base labels are those of the given environments. */
  lemma BaseEnvLabels(base: seq<string>, envs: set<Detector.Environment>, clusters: set<string>, withClusters: bool)
    requires BaseLabels(base, envs, clusters, withClusters)
    ensures forall e :: DetectorLabels.EnvLabel(e) in base <==> e in envs
  {
    forall e ensures DetectorLabels.EnvLabel(e) in base <==> e in envs {
      ExtrasAreFresh(e, "");
      if DetectorLabels.EnvLabel(e) in base {
        if exists e' :: e' in envs && DetectorLabels.EnvLabel(e) == DetectorLabels.EnvLabel(e') {
          var e' :| e' in envs && DetectorLabels.EnvLabel(e) == DetectorLabels.EnvLabel(e');
          DetectorLabels.LabelsInjective(e, e', "", "");
        } else {
          var c :| c in clusters && DetectorLabels.EnvLabel(e) == DetectorLabels.ClusterLabel(c);
          DetectorLabels.CategoriesDisjoint(e, c);
        }
      }
    }
  }

  /** The cluster labels among the base labels are those of the given clusters, when asked for. */
  lemma BaseClusterLabels(base: seq<string>, envs: set<Detector.Environment>, clusters: set<string>, withClusters: bool)
    requires BaseLabels(base, envs, clusters, withClusters)
    ensures forall c :: DetectorLabels.ClusterLabel(c) in base <==> withClusters && c in clusters
  {
    forall c ensures DetectorLabels.ClusterLabel(c) in base <==> withClusters && c in clusters {
      ExtrasAreFresh(Detector.Development, c);
      if DetectorLabels.ClusterLabel(c) in base {
        if exists e :: e in envs && DetectorLabels.ClusterLabel(c) == DetectorLabels.EnvLabel(e) {
          var e :| e in envs && DetectorLabels.ClusterLabel(c) == DetectorLabels.EnvLabel(e);
          DetectorLabels.CategoriesDisjoint(e, c);
        } else {
          var c' :| c' in clusters && DetectorLabels.ClusterLabel(c) == DetectorLabels.ClusterLabel(c');
          DetectorLabels.LabelsInjective(Detector.Development, Detector.Development, c, c');
        }
      }
    }
  }

  /** What `Result.Labels` promises about a label set. */
  ghost predicate LabelSetOf(ls: DetectorLabels.LabelSet, envs: set<Detector.Environment>, clusters: set<string>) {
    Ordering.StrictlySorted(ls.environments)
    && (forall x :: x in ls.environments <==> exists e :: e in envs && x == DetectorLabels.EnvLabel(e))
    && Ordering.StrictlySorted(ls.clusters)
    && (forall x :: x in ls.clusters <==> exists c :: c in clusters && x == DetectorLabels.ClusterLabel(c))
  }

  /** The list chosen before the extras: `All()` with cluster labels, otherwise the environment labels. */
  method ChooseBase(ls: DetectorLabels.LabelSet, ghost envs: set<Detector.Environment>, ghost clusters: set<string>,
                    clusterLabels: bool)
    returns (base: seq<string>)
    requires LabelSetOf(ls, envs, clusters)
    ensures BaseLabels(base, envs, clusters, clusterLabels)
  {
    if clusterLabels {
      var accept := (x: string) => true;
      base := DetectorLabels.All(ls, accept);
      assert base == DetectorLabels.AllSorted(ls);
      forall x | x in ls.environments ensures Strs.HasPrefix(x, "environment/") {
        var e :| e in envs && x == DetectorLabels.EnvLabel(e);
        DetectorLabels.CategoriesDisjoint(e, "");
      }
      forall x | x in ls.clusters ensures Strs.HasPrefix(x, "cluster/") {
        var c :| c in clusters && x == DetectorLabels.ClusterLabel(c);
        DetectorLabels.CategoriesDisjoint(Detector.Development, c);
      }
      DetectorLabels.AllStrictlySorted(ls);
    } else {
      base := ls.environments;
    }
    StrictlySortedDistinct(base);
  }

  /** The environment list is empty exactly when no environment is affected. */
  lemma NoEnvLabelsIffNoEnvs(ls: DetectorLabels.LabelSet, envs: set<Detector.Environment>, clusters: set<string>)
    requires LabelSetOf(ls, envs, clusters)
    ensures |ls.environments| == 0 <==> envs == {}
  {
    if envs != {} {
      var e :| e in envs;
      assert DetectorLabels.EnvLabel(e) in ls.environments;
    }
    if |ls.environments| > 0 {
      assert ls.environments[0] in ls.environments;
    }
  }

  /**
   * The label assembly after detection: `All()` (environment and cluster labels, sorted together)
   * with cluster labels, otherwise the environment labels; then "environment/none" when no
   * environment is affected, then the hold label when production is.
   */
  method AssembleLabels(result: Detector.DetectResult, clusterLabels: bool) returns (labels: seq<string>)
    ensures LabelsFor(labels, result.affectedEnvironments, result.affectedClusters, clusterLabels)
  {
    ghost var envs, clusters := result.affectedEnvironments, result.affectedClusters;
    var ls := DetectorLabels.Labels(result);
    assert LabelSetOf(ls, envs, clusters);
    NoEnvLabelsIffNoEnvs(ls, envs, clusters);
    labels := ChooseBase(ls, envs, clusters, clusterLabels);
    ghost var base := labels;
    if |ls.environments| == 0 {
      labels := labels + [NoEnvironmentLabel];
    }
    if Detector.Production in result.affectedEnvironments {
      labels := labels + [GithubLabels.HoldProductionLabel];
    }
    ExtrasComplete(base, labels, envs, clusters, clusterLabels);
  }

  /**
   * From the changed files to the labels to sync: with no changed file the list is exactly
   * "environment/none" and detection does not run; otherwise a detection failure is fatal, and a
   * result is turned into labels by `AssembleLabels`.
   */
  method LabelsToSync(d: Detector.Detector, changedFiles: seq<string>,
                      decode: Yaml.Bytes -> seq<Yaml.Decoded<Yaml.Value>>, clusterLabels: bool)
    returns (r: Result<seq<string>, Detector.DetectError>)
    requires Detector.Validated(d)
    ensures |changedFiles| == 0 ==> r == Success([NoEnvironmentLabel])
    ensures |changedFiles| > 0 ==> (r.Failure? <==> Detector.DetectSpec(d, changedFiles, decode).Failure?)
    ensures |changedFiles| > 0 && r.Success? ==>
              LabelsFor(r.value, Detector.DetectSpec(d, changedFiles, decode).value.envs,
                        Detector.DetectSpec(d, changedFiles, decode).value.clusters, clusterLabels)
  {
    if |changedFiles| == 0 {
      return Success([NoEnvironmentLabel]);
    }
    var detected := Detector.Detect(d, changedFiles, decode);
    if detected.Failure? {
      return Failure(detected.error);
    }
    var labels := AssembleLabels(detected.value, clusterLabels);
    return Success(labels);
  }
}
