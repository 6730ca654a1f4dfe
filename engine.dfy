/**
 * The render-diff engine (renderdiff/engine.go): every (environment, component path) job is built on
 * both refs, diffed, and collected; the result lists the components with a diff or a build error
 * and the line totals of the error-free ones. The worker pool and channels are run here as one
 * sequential loop over the jobs.
 */
module RenderEngine {
  import opened Wrappers
  import opened Yaml
  import AppSet
  import Detector
  import RenderDiff

  /** One unit of work: a component path of an environment. */
  datatype Job = Job(cp: AppSet.ComponentPath, env: Detector.Environment)

  /** What one job hands to the collector: a record, nothing, or an error that stops the run. */
  datatype JobOutcome = Emit(cd: RenderDiff.ComponentDiff) | Skip | Abort(msg: string)

  /** `DiffResult`. */
  datatype DiffResult = DiffResult(diffs: seq<RenderDiff.ComponentDiff>, totalAdded: int, totalRemoved: int)

  /** The record after `buildPair` and the error it returned, if any. */
  datatype Built = Built(cd: RenderDiff.ComponentDiff, err: Option<string>)

  /** The jobs of one environment, in path order. */
  function JobsFor(env: Detector.Environment, paths: seq<AppSet.ComponentPath>): (r: seq<Job>)
    ensures |r| == |paths| && forall i :: 0 <= i < |paths| ==> r[i] == Job(paths[i], env)
  {
    if |paths| == 0 then [] else JobsFor(env, paths[..|paths| - 1]) + [Job(paths[|paths| - 1], env)]
  }

  /** The jobs of the environments `envs` lists, in that order. */
  function JobsOf(affected: map<Detector.Environment, seq<AppSet.ComponentPath>>, envs: seq<Detector.Environment>): seq<Job> {
    if |envs| == 0 then []
    else
      var e := envs[|envs| - 1];
      JobsOf(affected, envs[..|envs| - 1]) + (if e in affected then JobsFor(e, affected[e]) else [])
  }

  /** The jobs of a run: environments in `EnvOrder`, each environment's paths in order. */
  function Jobs(affected: map<Detector.Environment, seq<AppSet.ComponentPath>>): seq<Job> {
    JobsOf(affected, Detector.EnvOrder)
  }

  /** There is one job per path listed under an environment, and no other. */
  lemma {:induction false} JobsOfMembers(affected: map<Detector.Environment, seq<AppSet.ComponentPath>>,
                                         envs: seq<Detector.Environment>, job: Job)
    ensures job in JobsOf(affected, envs) <==> job.env in envs && job.env in affected && job.cp in affected[job.env]
  {
    if |envs| > 0 {
      var e := envs[|envs| - 1];
      JobsOfMembers(affected, envs[..|envs| - 1], job);
      assert envs == envs[..|envs| - 1] + [e];
      if e in affected {
        var js := JobsFor(e, affected[e]);
        if job in js {
          var i :| 0 <= i < |js| && js[i] == job;
          assert job.cp == affected[e][i];
        }
        if job.env == e && job.cp in affected[e] {
          var i :| 0 <= i < |affected[e]| && affected[e][i] == job.cp;
          assert js[i] == job;
        }
      }
    }
  }

  lemma JobsMembers(affected: map<Detector.Environment, seq<AppSet.ComponentPath>>, job: Job)
    ensures job in Jobs(affected) <==> job.env in affected && job.cp in affected[job.env]
  {
    JobsOfMembers(affected, Detector.EnvOrder, job);
    assert job.env in Detector.EnvOrder by {
      var order := Detector.EnvOrder;
      assert order[0] == Detector.Development && order[1] == Detector.Staging && order[2] == Detector.Production;
      assert job.env == order[0] || job.env == order[1] || job.env == order[2];
    }
  }

  /**
   * `buildPair` on a record: each side that exists on its ref is built and stored; a build failure
   * stops at once (the head render may already be stored), and a path absent from both refs is an
   * error.
   */
  function BuildPairSpec(head: Detector.Repo, base: Detector.Repo, cd: RenderDiff.ComponentDiff): Built {
    var p := cd.path;
    if Detector.DirExists(head, p) && Detector.BuildKustomization(head, p).Failure? then
      Built(cd, Some("building " + p + " on HEAD: " + Detector.BuildKustomization(head, p).error))
    else
      var cd1 := if Detector.DirExists(head, p) then cd.(headYAML := Some(Detector.BuildKustomization(head, p).value)) else cd;
      if Detector.DirExists(base, p) && Detector.BuildKustomization(base, p).Failure? then
        Built(cd1, Some("building " + p + " on base: " + Detector.BuildKustomization(base, p).error))
      else
        var cd2 := if Detector.DirExists(base, p) then cd1.(baseYAML := Some(Detector.BuildKustomization(base, p).value)) else cd1;
        if cd2.headYAML.None? && cd2.baseYAML.None? then
          Built(cd2, Some("component " + p + " does not exist on either ref"))
        else
          Built(cd2, None)
  }

  /**
   * On a fresh record, `buildPair` succeeds exactly when no existing side fails to build and the
   * path exists on some ref; then the head (base) render is present exactly when the path exists
   * on head (base). Nothing but the two renders changes.
   */
  lemma BuildPairOutcome(head: Detector.Repo, base: Detector.Repo, cp: AppSet.ComponentPath, env: Detector.Environment)
    ensures var b := BuildPairSpec(head, base, RenderDiff.FromComponentPath(cp, env));
            var p := cp.path;
            (b.err.None? <==>
               !(Detector.DirExists(head, p) && Detector.BuildKustomization(head, p).Failure?)
               && !(Detector.DirExists(base, p) && Detector.BuildKustomization(base, p).Failure?)
               && (Detector.DirExists(head, p) || Detector.DirExists(base, p)))
            && (b.err.None? ==>
                  (b.cd.headYAML.Some? <==> Detector.DirExists(head, p))
                  && (b.cd.baseYAML.Some? <==> Detector.DirExists(base, p))
                  && (b.cd.headYAML.Some? ==> b.cd.headYAML.value == Detector.BuildKustomization(head, p).value)
                  && (b.cd.baseYAML.Some? ==> b.cd.baseYAML.value == Detector.BuildKustomization(base, p).value))
            && b.cd.(headYAML := None, baseYAML := None) == RenderDiff.FromComponentPath(cp, env)
  {
  }

  /** One job: a build error is reported in the record, a diff error stops the run, an empty diff is dropped. */
  function RunJob(head: Detector.Repo, base: Detector.Repo, job: Job, decode: Bytes -> seq<Decoded<Node>>,
                  encode: seq<Node> -> Option<Bytes>, unified: RenderDiff.DiffRequest -> Result<string, string>): JobOutcome
  {
    var built := BuildPairSpec(head, base, RenderDiff.FromComponentPath(job.cp, job.env));
    if built.err.Some? then Emit(built.cd.(error := built.err.value))
    else match RenderDiff.ComputeDiffSpec(built.cd, decode, encode, unified)
      case Failure(e) => Abort("computing diff for " + job.cp.path + " (" + job.env.Name() + "): " + e)
      case Success(cd) => if RenderDiff.HasDiff(cd) then Emit(cd) else Skip
  }

  /** The outcomes of the jobs, each job on its own. */
  function Outcomes(head: Detector.Repo, base: Detector.Repo, jobs: seq<Job>, decode: Bytes -> seq<Decoded<Node>>,
                    encode: seq<Node> -> Option<Bytes>, unified: RenderDiff.DiffRequest -> Result<string, string>): (r: seq<JobOutcome>)
    ensures |r| == |jobs| && forall i :: 0 <= i < |jobs| ==> r[i] == RunJob(head, base, jobs[i], decode, encode, unified)
  {
    seq(|jobs|, i requires 0 <= i < |jobs| => RunJob(head, base, jobs[i], decode, encode, unified))
  }

  /** What the collector has after some jobs: the records it received, and the error that stopped the run. */
  datatype Collected = Collected(emitted: seq<RenderDiff.ComponentDiff>, abort: Option<string>)

  /** The collector over the outcomes in order; the first error stops it. */
  function Collect(os: seq<JobOutcome>): Collected {
    if |os| == 0 then Collected([], None)
    else CollectNext(Collect(os[..|os| - 1]), os[|os| - 1])
  }

  /** The collector receiving one more outcome. */
  function CollectNext(c: Collected, o: JobOutcome): Collected {
    if c.abort.Some? then c
    else if o.Emit? then Collected(c.emitted + [o.cd], None)
    else if o.Abort? then Collected(c.emitted, Some(o.msg))
    else c
  }

  /** The collector over one more outcome of a prefix. */
  lemma CollectPrefix(os: seq<JobOutcome>, i: nat)
    requires i < |os|
    ensures Collect(os[..i + 1]) == CollectNext(Collect(os[..i]), os[i])
  {
    assert os[..i + 1][..i] == os[..i];
  }

  /** Once the collector has an error, later outcomes change nothing. */
  lemma {:induction false} CollectStopped(os: seq<JobOutcome>, n: nat)
    requires n <= |os| && Collect(os[..n]).abort.Some?
    ensures Collect(os) == Collect(os[..n])
    decreases |os| - n
  {
    if n < |os| {
      assert os[..n + 1][..n] == os[..n];
      CollectStopped(os, n + 1);
    } else {
      assert os[..n] == os;
    }
  }

  /** The collector never holds more records than it received outcomes, so a run sends at most one record per job. */
  lemma {:induction false} CollectBound(os: seq<JobOutcome>)
    ensures |Collect(os).emitted| <= |os|
  {
    if |os| > 0 {
      CollectBound(os[..|os| - 1]);
    }
  }

  /** The lines added over the records without a build error. */
  function SumAdded(ds: seq<RenderDiff.ComponentDiff>): int {
    if |ds| == 0 then 0
    else SumAdded(ds[..|ds| - 1]) + (if ds[|ds| - 1].error == "" then ds[|ds| - 1].added else 0)
  }

  /** The lines removed over the records without a build error. */
  function SumRemoved(ds: seq<RenderDiff.ComponentDiff>): int {
    if |ds| == 0 then 0
    else SumRemoved(ds[..|ds| - 1]) + (if ds[|ds| - 1].error == "" then ds[|ds| - 1].removed else 0)
  }

  /** The totals over one more record. */
  lemma SumsAppend(ds: seq<RenderDiff.ComponentDiff>, d: RenderDiff.ComponentDiff)
    ensures SumAdded(ds + [d]) == SumAdded(ds) + (if d.error == "" then d.added else 0)
    ensures SumRemoved(ds + [d]) == SumRemoved(ds) + (if d.error == "" then d.removed else 0)
  {
    assert (ds + [d])[..|ds|] == ds;
  }

  /** `RunProgressive`'s result: nothing at all for a job count of 0, otherwise the collected records and their totals. */
  function RunSpec(head: Detector.Repo, base: Detector.Repo, count: int,
                   affected: map<Detector.Environment, seq<AppSet.ComponentPath>>, decode: Bytes -> seq<Decoded<Node>>,
                   encode: seq<Node> -> Option<Bytes>, unified: RenderDiff.DiffRequest -> Result<string, string>): Result<DiffResult, string>
  {
    if count == 0 then Success(DiffResult([], 0, 0))
    else
      var c := Collect(Outcomes(head, base, Jobs(affected), decode, encode, unified));
      if c.abort.Some? then Failure(c.abort.value)
      else Success(DiffResult(c.emitted, SumAdded(c.emitted), SumRemoved(c.emitted)))
  }

  // ---------------------------------------------------------------------------------------------
  // Properties of a run.

  /**
   * A job's record carries a build error or a non-empty diff, and names the job's path and
   * environment.
   */
  lemma JobRecord(head: Detector.Repo, base: Detector.Repo, job: Job, decode: Bytes -> seq<Decoded<Node>>,
                  encode: seq<Node> -> Option<Bytes>, unified: RenderDiff.DiffRequest -> Result<string, string>)
    ensures var o := RunJob(head, base, job, decode, encode, unified);
            o.Emit? ==> (o.cd.error != "" || RenderDiff.HasDiff(o.cd)) && o.cd.path == job.cp.path && o.cd.env == job.env
  {
    BuildPairOutcome(head, base, job.cp, job.env);
  }

  /** Every collected record is the record of one of the outcomes, received before any error. */
  lemma {:induction false} CollectedRecords(os: seq<JobOutcome>)
    ensures forall d :: d in Collect(os).emitted ==> exists i :: 0 <= i < |os| && os[i] == Emit(d)
  {
    if |os| > 0 {
      var init := os[..|os| - 1];
      CollectedRecords(init);
      forall d | d in Collect(os).emitted ensures exists i :: 0 <= i < |os| && os[i] == Emit(d) {
        if d in Collect(init).emitted {
          var i :| 0 <= i < |init| && init[i] == Emit(d);
          assert os[i] == Emit(d);
        } else {
          assert os[|os| - 1] == Emit(d);
        }
      }
    }
  }

  /**
   * A run stops with an error exactly when some job's diff fails; it then reports the first such
   * job's error.
   */
  lemma {:induction false} CollectAborts(os: seq<JobOutcome>)
    ensures Collect(os).abort.Some? <==> exists i :: 0 <= i < |os| && os[i].Abort?
    ensures Collect(os).abort.Some? ==>
              exists i :: 0 <= i < |os| && os[i] == Abort(Collect(os).abort.value) && forall j :: 0 <= j < i ==> !os[j].Abort?
  {
    if |os| > 0 {
      var init := os[..|os| - 1];
      CollectAborts(init);
      assert forall i :: 0 <= i < |init| ==> os[i] == init[i];
      if Collect(init).abort.Some? {
        var i :| 0 <= i < |init| && init[i] == Abort(Collect(init).abort.value) && forall j :: 0 <= j < i ==> !init[j].Abort?;
        assert os[i] == Abort(Collect(os).abort.value);
      }
    }
  }

  /** A build-failure record is collected unless the run stopped, and the run goes on after it. */
  lemma {:induction false} BuildFailureCollected(os: seq<JobOutcome>, k: nat)
    requires k < |os| && os[k].Emit? && os[k].cd.error != ""
    requires Collect(os).abort.None?
    ensures os[k].cd in Collect(os).emitted
  {
    var init := os[..|os| - 1];
    assert Collect(init).abort.None?;
    if k < |os| - 1 {
      assert init[k] == os[k];
      BuildFailureCollected(init, k);
    }
  }

  /** A job whose build fails is reported with the build error and nothing else set. */
  lemma BuildFailureRecord(head: Detector.Repo, base: Detector.Repo, job: Job, decode: Bytes -> seq<Decoded<Node>>,
                           encode: seq<Node> -> Option<Bytes>, unified: RenderDiff.DiffRequest -> Result<string, string>)
    requires BuildPairSpec(head, base, RenderDiff.FromComponentPath(job.cp, job.env)).err.Some?
    ensures var b := BuildPairSpec(head, base, RenderDiff.FromComponentPath(job.cp, job.env));
            RunJob(head, base, job, decode, encode, unified) == Emit(b.cd.(error := b.err.value))
            && b.err.value != "" && b.cd.diff == "" && b.cd.added == 0 && b.cd.removed == 0
  {
  }

  /** A job with no change between the normalised renders contributes nothing. */
  lemma {:induction false} UnchangedOmitted(head: Detector.Repo, base: Detector.Repo, job: Job,
                                            decode: Bytes -> seq<Decoded<Node>>, encode: seq<Node> -> Option<Bytes>,
                                            unified: RenderDiff.DiffRequest -> Result<string, string>)
    requires var b := BuildPairSpec(head, base, RenderDiff.FromComponentPath(job.cp, job.env));
             b.err.None? && RenderDiff.Normalized(b.cd.baseYAML, decode, encode) == RenderDiff.Normalized(b.cd.headYAML, decode, encode)
    ensures RunJob(head, base, job, decode, encode, unified) == Skip
  {
    var b := BuildPairSpec(head, base, RenderDiff.FromComponentPath(job.cp, job.env));
    BuildPairOutcome(head, base, job.cp, job.env);
    RenderDiff.ComputeDiffFresh(b.cd, decode, encode, unified);
  }

  lemma {:induction false} SumAddedConcat(a: seq<RenderDiff.ComponentDiff>, b: seq<RenderDiff.ComponentDiff>)
    ensures SumAdded(a + b) == SumAdded(a) + SumAdded(b)
    ensures SumRemoved(a + b) == SumRemoved(a) + SumRemoved(b)
    decreases |b|
  {
    if |b| == 0 {
      assert a + b == a;
    } else {
      assert (a + b)[..|a + b| - 1] == a + b[..|b| - 1];
      SumAddedConcat(a, b[..|b| - 1]);
    }
  }

  /**
   * The totals do not depend on the order in which the collector received the records: any
   * reordering of the same records has the same totals.
   */
  lemma {:induction false} TotalsOrderIndependent(a: seq<RenderDiff.ComponentDiff>, b: seq<RenderDiff.ComponentDiff>)
    requires multiset(a) == multiset(b)
    ensures SumAdded(a) == SumAdded(b) && SumRemoved(a) == SumRemoved(b)
    decreases |a|
  {
    if |a| > 0 {
      var x := a[|a| - 1];
      var a' := a[..|a| - 1];
      DropLast(a);
      assert x in multiset(b);
      var i :| 0 <= i < |b| && b[i] == x;
      var b' := b[..i] + b[i + 1..];
      RemoveOne(b, i);
      TotalsOrderIndependent(a', b');
      SumsInsert(b[..i], x, b[i + 1..]);
    }
  }

  /** Dropping the last element of a sequence takes it out of its multiset. */
  lemma DropLast(a: seq<RenderDiff.ComponentDiff>)
    requires |a| > 0
    ensures multiset(a[..|a| - 1]) == multiset(a) - multiset{a[|a| - 1]}
  {
    assert a == a[..|a| - 1] + [a[|a| - 1]];
  }

  /** Taking one element out of a sequence takes it out of its multiset. */
  lemma RemoveOne(b: seq<RenderDiff.ComponentDiff>, i: nat)
    requires i < |b|
    ensures b == b[..i] + [b[i]] + b[i + 1..]
    ensures multiset(b[..i] + b[i + 1..]) == multiset(b) - multiset{b[i]}
  {
    assert b == b[..i] + [b[i]] + b[i + 1..];
  }

  /** The totals with one more record in the middle are the totals plus that record's share. */
  lemma SumsInsert(p: seq<RenderDiff.ComponentDiff>, x: RenderDiff.ComponentDiff, q: seq<RenderDiff.ComponentDiff>)
    ensures SumAdded(p + [x] + q) == SumAdded(p + q) + (if x.error == "" then x.added else 0)
    ensures SumRemoved(p + [x] + q) == SumRemoved(p + q) + (if x.error == "" then x.removed else 0)
  {
    SumAddedConcat(p + [x], q);
    SumsAppend(p, x);
    SumAddedConcat(p, q);
  }

  /** A record with a build error never moves the totals, wherever it was received. */
  lemma BuildErrorNotCounted(a: seq<RenderDiff.ComponentDiff>, d: RenderDiff.ComponentDiff, b: seq<RenderDiff.ComponentDiff>)
    requires d.error != ""
    ensures SumAdded(a + [d] + b) == SumAdded(a + b) && SumRemoved(a + [d] + b) == SumRemoved(a + b)
  {
    SumsInsert(a, d, b);
  }

  /**
   * A successful run lists only records with a build error or a diff, each from a job of the map,
   * and reports the totals of the error-free ones; a run with a job count of 0 is empty whatever the
   * map holds.
   */
  lemma RunResult(head: Detector.Repo, base: Detector.Repo, count: int,
                  affected: map<Detector.Environment, seq<AppSet.ComponentPath>>, decode: Bytes -> seq<Decoded<Node>>,
                  encode: seq<Node> -> Option<Bytes>, unified: RenderDiff.DiffRequest -> Result<string, string>)
    ensures var r := RunSpec(head, base, count, affected, decode, encode, unified);
            (count == 0 ==> r == Success(DiffResult([], 0, 0)))
            && (r.Success? ==>
                  r.value.totalAdded == SumAdded(r.value.diffs)
                  && r.value.totalRemoved == SumRemoved(r.value.diffs)
                  && forall i :: 0 <= i < |r.value.diffs| ==>
                       (r.value.diffs[i].error != "" || RenderDiff.HasDiff(r.value.diffs[i]))
                       && r.value.diffs[i].env in affected
                       && exists cp :: cp in affected[r.value.diffs[i].env] && cp.path == r.value.diffs[i].path)
  {
    var r := RunSpec(head, base, count, affected, decode, encode, unified);
    if count != 0 && r.Success? {
      var jobs := Jobs(affected);
      var os := Outcomes(head, base, jobs, decode, encode, unified);
      CollectedRecords(os);
      forall i | 0 <= i < |r.value.diffs|
        ensures r.value.diffs[i].error != "" || RenderDiff.HasDiff(r.value.diffs[i])
        ensures r.value.diffs[i].env in affected
        ensures exists cp :: cp in affected[r.value.diffs[i].env] && cp.path == r.value.diffs[i].path
      {
        var d := r.value.diffs[i];
        assert d in Collect(os).emitted;
        var k :| 0 <= k < |os| && os[k] == Emit(d);
        JobRecord(head, base, jobs[k], decode, encode, unified);
        JobsMembers(affected, jobs[k]);
        assert jobs[k].cp in affected[d.env];
      }
    }
  }

  // ---------------------------------------------------------------------------------------------
  // The engine.

  /** `Engine`: the two refs' builders, the job count and the worker limit. */
  class Engine {
    const head: Detector.Repo
    const base: Detector.Repo
    const affected: nat
    const concurrency: int

    /** `NewEngine`; the worker limit is the machine's CPU count, passed in. */
    constructor (head: Detector.Repo, base: Detector.Repo, affected: int, cpus: int)
      requires affected >= 0
      ensures this.head == head && this.base == base && this.affected == affected && this.concurrency == cpus
    {
      this.head, this.base, this.affected, this.concurrency := head, base, affected, cpus;
    }

    /** `buildPair`: stores the renders of the sides that exist, or returns the error it stopped at. */
    method BuildPair(cd: RenderDiff.Component) returns (err: Option<string>)
      modifies cd`headYAML, cd`baseYAML
      ensures Built(cd.Value(), err) == BuildPairSpec(head, base, old(cd.Value()))
    {
      if Detector.DirExists(head, cd.path) {
        var headYAML := Detector.BuildKustomization(head, cd.path);
        if headYAML.Failure? {
          return Some("building " + cd.path + " on HEAD: " + headYAML.error);
        }
        cd.headYAML := Some(headYAML.value);
      }
      if Detector.DirExists(base, cd.path) {
        var baseYAML := Detector.BuildKustomization(base, cd.path);
        if baseYAML.Failure? {
          return Some("building " + cd.path + " on base: " + baseYAML.error);
        }
        cd.baseYAML := Some(baseYAML.value);
      }
      if cd.headYAML.None? && cd.baseYAML.None? {
        return Some("component " + cd.path + " does not exist on either ref");
      }
      return None;
    }

    /** The body of one worker. */
    method RunOne(job: Job, decode: Bytes -> seq<Decoded<Node>>, encode: seq<Node> -> Option<Bytes>,
                  unified: RenderDiff.DiffRequest -> Result<string, string>) returns (o: JobOutcome)
      ensures o == RunJob(head, base, job, decode, encode, unified)
    {
      var cd := new RenderDiff.Component.FromPath(job.cp, job.env);
      var err := BuildPair(cd);
      if err.Some? {
        cd.error := err.value;
        return Emit(cd.Value());
      }
      var diffErr := cd.ComputeDiff(decode, encode, unified);
      if diffErr.Some? {
        return Abort("computing diff for " + job.cp.path + " (" + job.env.Name() + "): " + diffErr.value);
      }
      if cd.Changed() {
        return Emit(cd.Value());
      }
      return Skip;
    }

    /**
     * `RunProgressive`: the jobs run one after another; each record is sent to `out` and appended
     * to the result, and error-free records add to the totals. A failing diff stops the run with
     * no result; `out` then holds what was sent before.
     */
    method RunProgressive(m: map<Detector.Environment, seq<AppSet.ComponentPath>>, decode: Bytes -> seq<Decoded<Node>>,
                          encode: seq<Node> -> Option<Bytes>, unified: RenderDiff.DiffRequest -> Result<string, string>)
      returns (r: Result<DiffResult, string>, out: seq<RenderDiff.ComponentDiff>)
      ensures r == RunSpec(head, base, affected, m, decode, encode, unified)
      ensures out == (if affected == 0 then [] else Collect(Outcomes(head, base, Jobs(m), decode, encode, unified)).emitted)
    {
      out := [];
      if affected == 0 {
        return Success(DiffResult([], 0, 0)), out;
      }
      var jobs := Jobs(m);
      ghost var os := Outcomes(head, base, jobs, decode, encode, unified);
      var result := DiffResult([], 0, 0);
      for i := 0 to |jobs|
        invariant Collect(os[..i]) == Collected(result.diffs, None)
        invariant out == result.diffs
        invariant result.totalAdded == SumAdded(result.diffs) && result.totalRemoved == SumRemoved(result.diffs)
      {
        CollectPrefix(os, i);
        var o := RunOne(jobs[i], decode, encode, unified);
        assert o == os[i];
        if o.Abort? {
          CollectStopped(os, i + 1);
          return Failure(o.msg), out;
        }
        if o.Emit? {
          var cd := o.cd;
          SumsAppend(result.diffs, cd);
          out := out + [cd];
          result := result.(diffs := result.diffs + [cd]);
          if cd.error == "" {
            result := result.(totalAdded := result.totalAdded + cd.added, totalRemoved := result.totalRemoved + cd.removed);
          }
        }
      }
      assert os[..|os|] == os;
      return Success(result), out;
    }

    /**
     * `Run`: `RunProgressive` with the records sent to a buffer of `affected` slots that nobody
     * reads; more records than slots would block the collector for good.
     */
    method Run(m: map<Detector.Environment, seq<AppSet.ComponentPath>>, decode: Bytes -> seq<Decoded<Node>>,
               encode: seq<Node> -> Option<Bytes>, unified: RenderDiff.DiffRequest -> Result<string, string>)
      returns (r: Result<DiffResult, string>)
      requires affected == 0 || |Collect(Outcomes(head, base, Jobs(m), decode, encode, unified)).emitted| <= affected
      ensures r == RunSpec(head, base, affected, m, decode, encode, unified)
    {
      var out;
      r, out := RunProgressive(m, decode, encode, unified);
    }
  }
}
