/**
 * The pull-request label reconciliation of package `github` (labels.go): which labels the tool
 * owns, the colour a new label gets, and `SyncLabels`, which makes the managed labels of a pull
 * request equal to a desired list over an issues service.
 *
 * The issues service is an in-memory object that records removals, additions and created repository
 * labels, with a switch or a set of names per call that makes that call fail.
 */
module GithubLabels {
  import opened Wrappers
  import Strs

  /** The label prefixes the tool manages, in the order they are tried. */
  const LabelPrefixes: seq<string> := ["environment/", "cluster/", "infra/"]

  /** Applied when a pull request affects production, so that a merge bot can hold it. */
  const HoldProductionLabel: string := "infra/hold-production"

  /** Some prefix of `prefixes` starts `name`. */
  function HasAnyPrefix(name: string, prefixes: seq<string>): (r: bool)
    ensures r <==> exists i :: 0 <= i < |prefixes| && Strs.HasPrefix(name, prefixes[i])
  {
    if |prefixes| == 0 then false
    else if Strs.HasPrefix(name, prefixes[0]) then true
    else
      var r := HasAnyPrefix(name, prefixes[1..]);
      assert forall i :: 1 <= i < |prefixes| ==> prefixes[i] == prefixes[1..][i - 1];
      r
  }

  /** `isManagedLabel`. */
  predicate IsManagedLabel(name: string) {
    HasAnyPrefix(name, LabelPrefixes)
  }

  /** A label is managed exactly when it starts with one of the three prefixes. */
  lemma ManagedIff(name: string)
    ensures IsManagedLabel(name) <==>
      Strs.HasPrefix(name, "environment/") || Strs.HasPrefix(name, "cluster/") || Strs.HasPrefix(name, "infra/")
  {
    assert LabelPrefixes[0] == "environment/" && LabelPrefixes[1] == "cluster/" && LabelPrefixes[2] == "infra/";
  }

  /** Names that only resemble a managed prefix are left alone; the hold label is managed. */
  lemma NearMissesUnmanaged(x: string)
    ensures !IsManagedLabel("environments/" + x)
    ensures !IsManagedLabel("clusters/" + x)
    ensures !IsManagedLabel("environ")
    ensures !IsManagedLabel("")
    ensures IsManagedLabel(HoldProductionLabel)
  {
    var e, c := "environment", "cluster";
    PluralUnmanaged(e, x);
    assert e + "s/" + x == "environments/" + x;
    PluralUnmanaged(c, x);
    assert c + "s/" + x == "clusters/" + x;
    ShortUnmanaged("environ");
    ShortUnmanaged("");
    ManagedIff(HoldProductionLabel);
    assert HoldProductionLabel[..6] == "infra/";
  }

  /** A name without any '/' is not managed: every managed prefix ends in one. */
  lemma ShortUnmanaged(name: string)
    requires '/' !in name
    ensures !IsManagedLabel(name)
  {
    forall i | 0 <= i < |LabelPrefixes|
      ensures !Strs.HasPrefix(name, LabelPrefixes[i])
    {
      var p := LabelPrefixes[i];
      assert p[|p| - 1] == '/';
    }
  }

  /** Adding an "s" to the first segment of a managed prefix gives an unmanaged name. */
  lemma PluralUnmanaged(stem: string, x: string)
    requires stem == "environment" || stem == "cluster"
    ensures !IsManagedLabel(stem + "s/" + x)
  {
    var name := stem + "s/" + x;
    ManagedIff(name);
    assert name[|stem|] == 's';
    assert name[0] == stem[0];
    if Strs.HasPrefix(name, stem + "/") {
      assert name[|stem|] == (stem + "/")[|stem|];
    }
  }

  /** `labelColor`: the first rule whose prefix (or, for the hold label, whole name) matches. */
  function LabelColor(name: string): (r: string)
    ensures Strs.HasPrefix(name, "environment/production") ==> r == "d73a4a"
    ensures r == "ededed" <==>
      !Strs.HasPrefix(name, "environment/production") && !Strs.HasPrefix(name, "environment/staging")
      && !Strs.HasPrefix(name, "environment/development") && !Strs.HasPrefix(name, "environment/none")
      && name != HoldProductionLabel && !Strs.HasPrefix(name, "cluster/")
  {
    if Strs.HasPrefix(name, "environment/production") then "d73a4a"
    else if Strs.HasPrefix(name, "environment/staging") then "fbca04"
    else if Strs.HasPrefix(name, "environment/development") then "0e8a16"
    else if Strs.HasPrefix(name, "environment/none") then "c5def5"
    else if name == HoldProductionLabel then "e11d48"
    else if Strs.HasPrefix(name, "cluster/") then "1d76db"
    else "ededed"
  }

  /** The labels the tool itself produces get their own colours; every cluster label is blue. */
  lemma ToolLabelColors(cluster: string)
    ensures LabelColor("environment/staging") == "fbca04"
    ensures LabelColor("environment/development") == "0e8a16"
    ensures LabelColor("environment/none") == "c5def5"
    ensures LabelColor(HoldProductionLabel) == "e11d48"
    ensures LabelColor("cluster/" + cluster) == "1d76db"
  {
    EnvironmentColors();
    HoldColor();
    ClusterColor(cluster);
  }

  /** The hold label is matched by its whole name, before the generic prefixes. */
  lemma HoldColor()
    ensures LabelColor(HoldProductionLabel) == "e11d48"
  {
    assert HoldProductionLabel[0] == 'i';
  }

  /** Every cluster label is blue. */
  lemma ClusterColor(cluster: string)
    ensures LabelColor("cluster/" + cluster) == "1d76db"
  {
    var c := "cluster/" + cluster;
    assert c[..8] == "cluster/";
    assert c[0] == 'c' && HoldProductionLabel[0] == 'i';
  }

  /** The environment labels other than production get their own colours. */
  lemma EnvironmentColors()
    ensures LabelColor("environment/staging") == "fbca04"
    ensures LabelColor("environment/development") == "0e8a16"
    ensures LabelColor("environment/none") == "c5def5"
  {
    assert "environment/staging"[12] == 's';
    assert "environment/development"[12] == 'd';
    assert "environment/none"[12] == 'n';
  }

  /** The managed labels present on a pull request. */
  function ManagedOf(current: seq<string>): set<string> {
    set x | x in current && IsManagedLabel(x)
  }

  function SetOf(s: seq<string>): set<string> {
    set x | x in s
  }

  /** What `SyncLabels` removes: managed labels that are present but not desired. */
  function ToRemove(current: seq<string>, desired: seq<string>): set<string> {
    ManagedOf(current) - SetOf(desired)
  }

  /** What `SyncLabels` adds: desired labels that are not already present as managed labels. */
  function ToAdd(current: seq<string>, desired: seq<string>): set<string> {
    SetOf(desired) - ManagedOf(current)
  }

  /** A label that is not managed is never removed, whatever is desired. */
  lemma UnmanagedNeverRemoved(current: seq<string>, desired: seq<string>, x: string)
    requires !IsManagedLabel(x)
    ensures x !in ToRemove(current, desired)
  {
  }

  /** When the pull request already carries exactly the desired labels, nothing changes. */
  lemma AlreadySynced(current: seq<string>, desired: seq<string>)
    requires ManagedOf(current) == SetOf(desired)
    ensures ToRemove(current, desired) == {} && ToAdd(current, desired) == {}
  {
  }

  /** The labels a pull request carries after a successful sync. */
  function AfterSync(current: seq<string>, desired: seq<string>): set<string> {
    SetOf(current) - ToRemove(current, desired) + ToAdd(current, desired)
  }

  /**
   * After a successful sync the managed labels are exactly the desired ones when all desired labels
   * are managed, so a second sync with the same list removes and adds nothing. A desired label
   * outside the managed prefixes is added again on every run.
   */
  lemma SyncConverges(current: seq<string>, desired: seq<string>, next: seq<string>)
    requires SetOf(next) == AfterSync(current, desired)
    ensures (forall x :: x in desired ==> IsManagedLabel(x)) ==>
              ToRemove(next, desired) == {} && ToAdd(next, desired) == {}
    ensures forall x :: x in desired && !IsManagedLabel(x) ==> x in ToAdd(next, desired)
  {
    if forall x :: x in desired ==> IsManagedLabel(x) {
      assert ManagedOf(next) == SetOf(desired) by {
        forall x ensures x in ManagedOf(next) <==> x in SetOf(desired) {
          assert x in next <==> x in SetOf(next);
        }
      }
    }
  }

  /**
   * An in-memory issues service for one pull request, after `fakeIssuesService`: the pull request's
   * labels, the repository's labels, and the calls made so far. The `*Fails` fields choose which
   * calls fail; a lookup of a label in `lookupFails` fails with a status other than 404.
   */
  class Issues {
    const prLabels: seq<string>
    var repoLabels: set<string>
    var removed: seq<string>
    var addCalls: seq<seq<string>>
    var created: seq<string>
    const listFails: bool
    const removeFails: set<string>
    const lookupFails: set<string>
    const createFails: set<string>
    const addFails: bool

    constructor(prLabels: seq<string>, repoLabels: set<string>, listFails: bool, removeFails: set<string>,
                lookupFails: set<string>, createFails: set<string>, addFails: bool)
      ensures this.prLabels == prLabels && this.repoLabels == repoLabels
      ensures removed == [] && addCalls == [] && created == []
      ensures this.listFails == listFails && this.removeFails == removeFails && this.lookupFails == lookupFails
      ensures this.createFails == createFails && this.addFails == addFails
    {
      this.prLabels := prLabels;
      this.repoLabels := repoLabels;
      removed := [];
      addCalls := [];
      created := [];
      this.listFails := listFails;
      this.removeFails := removeFails;
      this.lookupFails := lookupFails;
      this.createFails := createFails;
      this.addFails := addFails;
    }

    /** `ListLabelsByIssue`. */
    method ListLabels() returns (r: Result<seq<string>, string>)
      ensures listFails <==> r.Failure?
      ensures r.Success? ==> r.value == prLabels
    {
      if listFails {
        return Failure("listing labels failed");
      }
      return Success(prLabels);
    }

    /** `RemoveLabelForIssue`: the call is recorded whether or not it fails. */
    method RemoveLabel(name: string) returns (err: Option<string>)
      modifies this`removed
      ensures removed == old(removed) + [name]
      ensures err.Some? <==> name in removeFails
    {
      removed := removed + [name];
      if name in removeFails {
        return Some("removing name failed");
      }
      return None;
    }

    /** `GetLabel`: found, or the HTTP status of the failure. */
    method GetLabel(name: string) returns (found: bool, status: int)
      ensures found <==> name !in lookupFails && name in repoLabels
      ensures !found ==> (status == 404 <==> name !in lookupFails)
    {
      if name in lookupFails {
        return false, 500;
      }
      if name in repoLabels {
        return true, 200;
      }
      return false, 404;
    }

    /** `CreateLabel`. */
    method CreateLabel(name: string, color: string) returns (err: Option<string>)
      modifies this`repoLabels, this`created
      ensures err.Some? <==> name in createFails
      ensures err.None? ==> repoLabels == old(repoLabels) + {name} && created == old(created) + [name]
      ensures err.Some? ==> repoLabels == old(repoLabels) && created == old(created)
    {
      if name in createFails {
        return Some("creating name failed");
      }
      repoLabels := repoLabels + {name};
      created := created + [name];
      return None;
    }

    /** `AddLabelsToIssue`: one call with the whole list. */
    method AddLabels(labels: seq<string>) returns (err: Option<string>)
      modifies this`addCalls
      ensures addCalls == old(addCalls) + [labels]
      ensures err.Some? <==> addFails
    {
      addCalls := addCalls + [labels];
      if addFails {
        return Some("adding labels failed");
      }
      return None;
    }
  }

  /** A label lookup-or-create for `label` fails. */
  predicate EnsureFails(svc: Issues, name: string)
    reads svc
  {
    name in svc.lookupFails || (name !in svc.repoLabels && name in svc.createFails)
  }

  /** `ensureLabelExists`: a label is created only when the lookup failed with 404. */
  method EnsureLabelExists(svc: Issues, name: string) returns (err: Option<string>)
    modifies svc`repoLabels, svc`created
    ensures err.Some? <==> old(EnsureFails(svc, name))
    ensures err.Some? ==> svc.repoLabels == old(svc.repoLabels)
    ensures err.None? ==> svc.repoLabels == old(svc.repoLabels) + {name}
    ensures err.None? && name in old(svc.repoLabels) ==> svc.created == old(svc.created)
    ensures err.None? && name !in old(svc.repoLabels) ==> svc.created == old(svc.created) + [name]
  {
    var found, status := svc.GetLabel(name);
    if found {
      return None;
    }
    if status == 404 {
      err := svc.CreateLabel(name, LabelColor(name));
      return;
    }
    return Some("checking label failed");
  }

  predicate Distinct(s: seq<string>) {
    forall i, j :: 0 <= i < j < |s| ==> s[i] != s[j]
  }

  /**
   * `SyncLabels`' removal loop over the stale managed labels (a set, walked in any order): one
   * removal call per label, stopping at the first that fails.
   */
  method RemoveStale(svc: Issues, stale: set<string>) returns (err: Option<string>, ghost calls: seq<string>)
    modifies svc`removed
    ensures svc.removed == old(svc.removed) + calls
    ensures Distinct(calls) && forall x :: x in calls ==> x in stale
    ensures err.Some? <==> stale * svc.removeFails != {}
    ensures err.None? ==> SetOf(calls) == stale
  {
    calls := [];
    var todo := stale;
    while todo != {}
      invariant todo <= stale
      invariant svc.removed == old(svc.removed) + calls
      invariant Distinct(calls) && SetOf(calls) == stale - todo
      invariant (stale - todo) * svc.removeFails == {}
      decreases |todo|
    {
      var name :| name in todo;
      RemoveStep(calls, stale, todo, name);
      err := svc.RemoveLabel(name);
      calls := calls + [name];
      if err.Some? {
        assert name in stale * svc.removeFails;
        return;
      }
      todo := todo - {name};
    }
    return None, calls;
  }

  /** One more removal call, for a label not yet removed. */
  lemma RemoveStep(calls: seq<string>, stale: set<string>, todo: set<string>, name: string)
    requires todo <= stale && Distinct(calls) && SetOf(calls) == stale - todo && name in todo
    ensures Distinct(calls + [name]) && SetOf(calls + [name]) == stale - (todo - {name})
    ensures forall x :: x in calls + [name] ==> x in stale
  {
    assert name !in SetOf(calls);
    assert SetOf(calls + [name]) == SetOf(calls) + {name};
    forall x | x in calls + [name] ensures x in stale {
      assert x in SetOf(calls + [name]);
    }
  }

  /** `SyncLabels`' creation loop: make sure every label about to be added exists. */
  method EnsureAll(svc: Issues, toAdd: seq<string>) returns (err: Option<string>)
    modifies svc`repoLabels, svc`created
    ensures err.Some? <==> exists i :: 0 <= i < |toAdd| && old(EnsureFails(svc, toAdd[i]))
    ensures err.None? ==> svc.repoLabels == old(svc.repoLabels) + SetOf(toAdd)
  {
    for i := 0 to |toAdd|
      invariant svc.repoLabels == old(svc.repoLabels) + SetOf(toAdd[..i])
      invariant forall j :: 0 <= j < i ==> !old(EnsureFails(svc, toAdd[j]))
    {
      err := EnsureLabelExists(svc, toAdd[i]);
      if err.Some? {
        return;
      }
      assert SetOf(toAdd[..i + 1]) == SetOf(toAdd[..i]) + {toAdd[i]} by {
        assert toAdd[..i + 1] == toAdd[..i] + [toAdd[i]];
      }
    }
    assert toAdd[..|toAdd|] == toAdd;
    return None;
  }

  /** Lists the elements of a set in some order, each once. */
  method Listing(s: set<string>) returns (r: seq<string>)
    ensures SetOf(r) == s && |r| == |s|
  {
    r := [];
    var todo := s;
    while todo != {}
      invariant todo <= s
      invariant SetOf(r) == s - todo && |r| == |s - todo|
      decreases |todo|
    {
      var x :| x in todo;
      ListingStep(r, s, todo, x);
      r := r + [x];
      todo := todo - {x};
    }
    assert s - todo == s;
  }

  /** Listing one more element of the set. */
  lemma ListingStep(r: seq<string>, s: set<string>, todo: set<string>, x: string)
    requires todo <= s && SetOf(r) == s - todo && x in todo
    ensures SetOf(r + [x]) == s - (todo - {x})
    ensures |s - (todo - {x})| == |s - todo| + 1
  {
    assert x !in SetOf(r);
    assert s - (todo - {x}) == (s - todo) + {x};
    assert SetOf(r + [x]) == SetOf(r) + {x};
  }

  /** The whole sync fails: at the listing, at some removal, at some lookup or creation, or at the add. */
  predicate SyncFails(svc: Issues, desired: seq<string>)
    reads svc
  {
    svc.listFails
    || ToRemove(svc.prLabels, desired) * svc.removeFails != {}
    || (ToAdd(svc.prLabels, desired) != {}
        && ((exists x :: x in ToAdd(svc.prLabels, desired) && EnsureFails(svc, x)) || svc.addFails))
  }

  /**
   * `SyncLabels(prNumber, desiredLabels)`. On success, exactly the stale managed labels were
   * removed, one add call carried exactly the missing desired labels (and none was made when there
   * were none), and the labels to add now exist in the repository.
   */
  method SyncLabels(svc: Issues, desired: seq<string>) returns (err: Option<string>)
    modifies svc`removed, svc`repoLabels, svc`created, svc`addCalls
    ensures err.Some? <==> old(SyncFails(svc, desired))
    ensures |old(svc.removed)| <= |svc.removed|
    ensures svc.removed[..|old(svc.removed)|] == old(svc.removed)
    ensures Distinct(svc.removed[|old(svc.removed)|..])
    ensures forall x :: x in svc.removed[|old(svc.removed)|..] ==> x in ToRemove(svc.prLabels, desired)
    ensures err.None? ==> SetOf(svc.removed[|old(svc.removed)|..]) == ToRemove(svc.prLabels, desired)
    ensures err.None? && ToAdd(svc.prLabels, desired) == {} ==> svc.addCalls == old(svc.addCalls)
    ensures err.None? && ToAdd(svc.prLabels, desired) != {} ==>
              |svc.addCalls| == |old(svc.addCalls)| + 1
              && SetOf(svc.addCalls[|svc.addCalls| - 1]) == ToAdd(svc.prLabels, desired)
              && svc.repoLabels == old(svc.repoLabels) + ToAdd(svc.prLabels, desired)
  {
    var listed := svc.ListLabels();
    if listed.Failure? {
      return Some(listed.error);
    }
    var current := listed.value;
    var currentManaged := ManagedOf(current);
    var desiredSet := SetOf(desired);
    ghost var calls;
    err, calls := RemoveStale(svc, currentManaged - desiredSet);
    assert svc.removed[|old(svc.removed)|..] == calls;
    if err.Some? {
      return;
    }
    var toAdd := Listing(desiredSet - currentManaged);
    if |toAdd| > 0 {
      err := EnsureAll(svc, toAdd);
      if err.Some? {
        ghost var i :| 0 <= i < |toAdd| && old(EnsureFails(svc, toAdd[i]));
        assert toAdd[i] in SetOf(toAdd);
        return;
      }
      assert !exists x :: x in ToAdd(svc.prLabels, desired) && old(EnsureFails(svc, x)) by {
        forall x | x in ToAdd(svc.prLabels, desired) ensures !old(EnsureFails(svc, x)) {
          assert x in SetOf(toAdd);
          var i :| 0 <= i < |toAdd| && toAdd[i] == x;
        }
      }
      err := svc.AddLabels(toAdd);
    } else {
      assert ToAdd(svc.prLabels, desired) == {};
    }
  }
}
