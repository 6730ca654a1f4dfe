/**
 * The label projection of a detection result (labels.go): one "environment/<env>" label per
 * affected environment and one "cluster/<name>" label per affected cluster, each list sorted, and
 * the merged, sorted stream of both.
 */
module DetectorLabels {
  import Detector
  import Ordering
  import Strs

  /** The labels of a result, split by category. */
  datatype LabelSet = LabelSet(environments: seq<string>, clusters: seq<string>)

  function EnvLabel(e: Detector.Environment): string {
    "environment/" + e.Name()
  }

  function ClusterLabel(c: string): string {
    "cluster/" + c
  }

  lemma {:induction false} ConcatCancel(p: string, a: string, b: string)
    requires p + a == p + b
    ensures a == b
  {
    assert a == (p + a)[|p|..];
    assert b == (p + b)[|p|..];
  }

  /** Distinct environments and distinct clusters get distinct labels. */
  lemma LabelsInjective(e1: Detector.Environment, e2: Detector.Environment, c1: string, c2: string)
    ensures EnvLabel(e1) == EnvLabel(e2) ==> e1 == e2
    ensures ClusterLabel(c1) == ClusterLabel(c2) ==> c1 == c2
  {
    if EnvLabel(e1) == EnvLabel(e2) {
      ConcatCancel("environment/", e1.Name(), e2.Name());
    }
    if ClusterLabel(c1) == ClusterLabel(c2) {
      ConcatCancel("cluster/", c1, c2);
    }
  }

  /** An environment label and a cluster label never coincide. */
  lemma CategoriesDisjoint(e: Detector.Environment, c: string)
    ensures EnvLabel(e) != ClusterLabel(c)
    ensures Strs.HasPrefix(EnvLabel(e), "environment/") && Strs.HasPrefix(ClusterLabel(c), "cluster/")
  {
    assert EnvLabel(e)[0] == 'e' && ClusterLabel(c)[0] == 'c';
    assert EnvLabel(e)[..12] == "environment/";
    assert ClusterLabel(c)[..8] == "cluster/";
  }

  /** The labels of the affected environments, one per environment, in the order the set was walked. */
  method CollectEnvLabels(envs: set<Detector.Environment>) returns (labels: seq<string>)
    ensures Ordering.Distinct(labels)
    ensures forall x :: x in labels <==> exists e :: e in envs && x == EnvLabel(e)
  {
    labels := [];
    var todo := envs;
    while todo != {}
      invariant todo <= envs
      invariant Ordering.Distinct(labels)
      invariant forall x :: x in labels <==> exists e :: e in envs - todo && x == EnvLabel(e)
      decreases |todo|
    {
      var e :| e in todo;
      forall i | 0 <= i < |labels| ensures labels[i] != EnvLabel(e) {
        assert labels[i] in labels;
        var e' :| e' in envs - todo && labels[i] == EnvLabel(e');
        LabelsInjective(e, e', "", "");
      }
      labels := labels + [EnvLabel(e)];
      todo := todo - {e};
    }
  }

  /** The labels of the affected clusters, one per cluster. */
  method CollectClusterLabels(clusters: set<string>) returns (labels: seq<string>)
    ensures Ordering.Distinct(labels)
    ensures forall x :: x in labels <==> exists c :: c in clusters && x == ClusterLabel(c)
  {
    labels := [];
    var todo := clusters;
    while todo != {}
      invariant todo <= clusters
      invariant Ordering.Distinct(labels)
      invariant forall x :: x in labels <==> exists c :: c in clusters - todo && x == ClusterLabel(c)
      decreases |todo|
    {
      var c :| c in todo;
      forall i | 0 <= i < |labels| ensures labels[i] != ClusterLabel(c) {
        assert labels[i] in labels;
        var c' :| c' in clusters - todo && labels[i] == ClusterLabel(c');
        LabelsInjective(Detector.Development, Detector.Development, c, c');
      }
      labels := labels + [ClusterLabel(c)];
      todo := todo - {c};
    }
  }

  /**
   * `Result.Labels`: each list is strictly increasing and holds exactly the labels of the affected
   * environments (clusters). As a set has one strictly increasing listing, the result does not
   * depend on the order in which the sets were walked.
   */
  method Labels(result: Detector.DetectResult) returns (ls: LabelSet)
    ensures Ordering.StrictlySorted(ls.environments)
    ensures forall x :: x in ls.environments <==> exists e :: e in result.affectedEnvironments && x == EnvLabel(e)
    ensures Ordering.StrictlySorted(ls.clusters)
    ensures forall x :: x in ls.clusters <==> exists c :: c in result.affectedClusters && x == ClusterLabel(c)
  {
    var envs := CollectEnvLabels(result.affectedEnvironments);
    var clusters := CollectClusterLabels(result.affectedClusters);
    Ordering.SortStringsDistinct(envs);
    Ordering.SortStringsDistinct(clusters);
    ls := LabelSet(Ordering.SortStrings(envs), Ordering.SortStrings(clusters));
  }

  /** What `All` yields when the consumer never stops it: both lists together, sorted. */
  function AllSorted(ls: LabelSet): (r: seq<string>)
    ensures forall x :: x in r <==> x in ls.environments || x in ls.clusters
    ensures forall i, j :: 0 <= i < j < |r| ==> !Ordering.StrLess(r[j], r[i])
  {
    var r := Ordering.SortStrings(ls.environments + ls.clusters);
    assert forall x :: x in r <==> x in multiset(r);
    assert forall x :: x in ls.environments + ls.clusters <==> x in multiset(ls.environments + ls.clusters);
    r
  }

  /**
   * For the label set of a result, the merged stream is strictly increasing: an environment label
   * and a cluster label never coincide, so nothing is yielded twice.
   */
  lemma AllStrictlySorted(ls: LabelSet)
    requires Ordering.StrictlySorted(ls.environments) && Ordering.StrictlySorted(ls.clusters)
    requires forall x :: x in ls.environments ==> Strs.HasPrefix(x, "environment/")
    requires forall x :: x in ls.clusters ==> Strs.HasPrefix(x, "cluster/")
    ensures Ordering.StrictlySorted(AllSorted(ls))
  {
    Ordering.StrLessOrder();
    var s := ls.environments + ls.clusters;
    forall i, j | 0 <= i < j < |s| ensures s[i] != s[j] {
      if j < |ls.environments| {
        assert Ordering.StrLess(s[i], s[j]);
      } else if i >= |ls.environments| {
        assert Ordering.StrLess(ls.clusters[i - |ls.environments|], ls.clusters[j - |ls.environments|]);
      } else {
        assert s[i] in ls.environments && s[j] in ls.clusters;
        assert s[i][0] == 'e' && s[j][0] == 'c';
      }
    }
    Ordering.SortStringsDistinct(s);
  }

  /**
   * `LabelSet.All`, with the consumer's "continue" answer as a function: the labels are yielded in
   * sorted order, and the stream ends after the first label the consumer refuses. The result is
   * the sequence of labels handed to the consumer.
   */
  method All(ls: LabelSet, accept: string -> bool) returns (yielded: seq<string>)
    ensures |yielded| <= |AllSorted(ls)| && yielded == AllSorted(ls)[..|yielded|]
    ensures forall i :: 0 <= i < |yielded| - 1 ==> accept(yielded[i])
    ensures |yielded| < |AllSorted(ls)| ==> |yielded| > 0 && !accept(yielded[|yielded| - 1])
  {
    var all := ls.environments + ls.clusters;
    all := Ordering.SortStrings(all);
    yielded := [];
    for i := 0 to |all|
      invariant yielded == all[..i]
      invariant forall k :: 0 <= k < i ==> accept(all[k])
    {
      yielded := yielded + [all[i]];
      if !accept(all[i]) {
        return;
      }
    }
  }
}
