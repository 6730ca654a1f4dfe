/**
 * The Quay image pruner of the image controller
 * (components/image-controller/production/stone-prd-rh01/resources/image_pruner/prune_images.py).
 * A first pass removes old named tags beyond the newest `keep_max` of each tag name and records
 * their manifest digests; a second pass removes the signature, attestation, SBOM and source tags of
 * those digests; a later pass removes such artifact tags whose image no longer exists.
 *
 * The Quay HTTP API is not part of this model: the repository is an object holding its active tags,
 * listing it returns them, and deleting a tag removes it and records the call. Logging is modelled
 * by the list of tags each operation selects (what it logs as removed or to be removed).
 */
module ImagePruner {
  import opened Wrappers
  import opened Strs

  /** One entry of Quay's tag listing: its name, the digest of its manifest and its start time. */
  datatype Tag = Tag(name: string, manifestDigest: string, startTs: int)

  // ---------------------------------------------------------------------------------------------
  // Tag names.

  /** The first pass leaves alone artifact tags ("sha256-...") and names without a "-". */
  predicate Skipped(name: string) {
    HasPrefix(name, "sha256-") || '-' !in name
  }

  /** `name.rsplit('-', 1)[0]`: the name up to its last "-". */
  function GroupName(name: string): (r: string)
    requires '-' in name
    ensures |r| < |name| && name[..|r|] == r && name[|r|] == '-' && '-' !in name[|r| + 1..]
  {
    name[..LastIndexOf(name, '-')]
  }

  predicate IsHex(c: char) {
    '0' <= c <= '9' || 'a' <= c <= 'f'
  }

  predicate AllHex(s: string) {
    forall i :: 0 <= i < |s| ==> IsHex(s[i])
  }

  /** The suffixes of the artifact tags: SBOM, attestation, source image and signature. */
  predicate ArtifactSuffix(s: string) {
    s == ".sbom" || s == ".att" || s == ".src" || s == ".sig"
  }

  /** The suffix an artifact tag body ends with, if any. */
  function SuffixOf(body: string): string {
    if HasSuffix(body, ".sbom") then ".sbom"
    else if HasSuffix(body, ".att") then ".att"
    else if HasSuffix(body, ".src") then ".src"
    else if HasSuffix(body, ".sig") then ".sig"
    else ""
  }

  /**
   * `^sha256-([0-9a-f]+)(\.sbom|\.att|\.src|\.sig)$`, answering "sha256:" and the captured hex digits.
   * Python's `$` also matches just before a final newline, so one trailing "\n" is allowed.
   */
  function ArtifactDigest(name: string): (r: Option<string>)
    ensures r.Some? ==> HasPrefix(name, "sha256-") && HasPrefix(r.value, "sha256:")
  {
    var body := if HasSuffix(name, "\n") then name[..|name| - 1] else name;
    var suffix := SuffixOf(body);
    if HasPrefix(body, "sha256-") && suffix != "" && |body| > 7 + |suffix| then
      var hex := body[7..|body| - |suffix|];
      if AllHex(hex) then
        assert name[..7] == body[..7];
        Some("sha256:" + hex)
      else None
    else None
  }

  /** Every artifact tag "sha256-<hex><suffix>" names the digest "sha256:<hex>". */
  lemma ArtifactDigestOf(hex: string, suffix: string)
    requires |hex| > 0 && AllHex(hex) && ArtifactSuffix(suffix)
    ensures ArtifactDigest("sha256-" + hex + suffix) == Some("sha256:" + hex)
  {
    var name := "sha256-" + hex + suffix;
    ArtifactBody(hex, suffix);
    ArtifactSuffixOf(hex, suffix);
    assert HasPrefix(name, "sha256-");
    assert name[7..|name| - |suffix|] == hex;
  }

  /** An artifact tag does not end with a newline. */
  lemma ArtifactBody(hex: string, suffix: string)
    requires ArtifactSuffix(suffix)
    ensures !HasSuffix("sha256-" + hex + suffix, "\n")
  {
    var name := "sha256-" + hex + suffix;
    assert name[|name| - 1] == suffix[|suffix| - 1];
  }

  /** The suffix read back from an artifact tag is the one it was built with. */
  lemma ArtifactSuffixOf(hex: string, suffix: string)
    requires |hex| > 0 && AllHex(hex) && ArtifactSuffix(suffix)
    ensures SuffixOf("sha256-" + hex + suffix) == suffix
  {
    var name := "sha256-" + hex + suffix;
    assert name[|name| - |suffix|..] == suffix;
    if suffix != ".sbom" {
      assert name[|name| - 5] == hex[|hex| - 1];
      assert !HasSuffix(name, ".sbom") by {
        assert name[|name| - 5..][0] != '.';
      }
    }
    if suffix == ".src" {
      assert !HasSuffix(name, ".att") by { assert name[|name| - 3] == 's'; }
    } else if suffix == ".sig" {
      assert !HasSuffix(name, ".att") by { assert name[|name| - 3] == 's'; }
      assert !HasSuffix(name, ".src") by { assert name[|name| - 1] == 'g'; }
    }
  }

  /** Only names of the artifact form have a digest: "sha256-", hex digits, a suffix, maybe a newline. */
  lemma ArtifactDigestForm(name: string)
    requires ArtifactDigest(name).Some?
    ensures exists hex, suffix :: (|hex| > 0 && AllHex(hex) && ArtifactSuffix(suffix)
      && ArtifactDigest(name) == Some("sha256:" + hex)
      && (name == "sha256-" + hex + suffix || name == "sha256-" + hex + suffix + "\n"))
  {
    var body := if HasSuffix(name, "\n") then name[..|name| - 1] else name;
    var suffix := SuffixOf(body);
    var hex := body[7..|body| - |suffix|];
    assert ArtifactDigest(name) == Some("sha256:" + hex);
    BodyForm(body, suffix);
    assert name == body || name == body + "\n";
  }

  /** An artifact tag body splits into "sha256-", its hex digits and its suffix. */
  lemma BodyForm(body: string, suffix: string)
    requires HasPrefix(body, "sha256-") && suffix == SuffixOf(body) && suffix != "" && |body| > 7 + |suffix|
    ensures ArtifactSuffix(suffix) && body == "sha256-" + body[7..|body| - |suffix|] + suffix
  {
    var k := |body| - |suffix|;
    assert body[k..] == suffix;
    assert body[..7] == "sha256-";
    ThreeWaySplit(body, 7, k);
  }

  /** A sequence is its three consecutive slices. */
  lemma ThreeWaySplit(s: string, i: nat, j: nat)
    requires i <= j <= |s|
    ensures s == s[..i] + s[i..j] + s[j..]
  {
    assert s[..i] + s[i..j] == s[..j];
  }

  // ---------------------------------------------------------------------------------------------
  // The repository.

  /** All tags of `tags` except those called `name`. */
  function Without(tags: seq<Tag>, name: string): (r: seq<Tag>)
    ensures forall t :: t in r <==> t in tags && t.name != name
  {
    if |tags| == 0 then []
    else Without(tags[..|tags| - 1], name) + (if tags[|tags| - 1].name == name then [] else [tags[|tags| - 1]])
  }

  /** The tags left after deleting each of `names` in turn. */
  function WithoutAll(tags: seq<Tag>, names: seq<string>): (r: seq<Tag>)
    ensures forall t :: t in r <==> t in tags && t.name !in names
  {
    if |names| == 0 then tags
    else
      var r := Without(WithoutAll(tags, names[..|names| - 1]), names[|names| - 1]);
      assert forall n :: n in names <==> n in names[..|names| - 1] || n == names[|names| - 1];
      r
  }

  /** Deleting one more name of a prefix. */
  lemma WithoutAllPrefix(tags: seq<Tag>, names: seq<string>, i: nat)
    requires i < |names|
    ensures WithoutAll(tags, names[..i + 1]) == Without(WithoutAll(tags, names[..i]), names[i])
    ensures names[..i + 1] == names[..i] + [names[i]]
  {
    assert names[..i + 1][..i] == names[..i];
  }

  /** Sequence associativity as a separate step of `ProcessRepository`'s proof, where it is cheaper than inline. */
  lemma AppendAssoc(a: seq<string>, b: seq<string>, c: seq<string>)
    ensures (a + b) + c == a + (b + c)
  {
  }

  /** Deleting `a` and then `b` leaves what deleting `a + b` leaves. */
  lemma {:induction false} WithoutAllAppend(tags: seq<Tag>, a: seq<string>, b: seq<string>)
    ensures WithoutAll(tags, a + b) == WithoutAll(WithoutAll(tags, a), b)
    decreases |b|
  {
    if |b| == 0 {
      assert a + b == a;
    } else {
      assert (a + b)[..|a + b| - 1] == a + b[..|b| - 1];
      WithoutAllAppend(tags, a, b[..|b| - 1]);
    }
  }

  /** A Quay repository: its active tags, in listing order, and the delete calls made so far. */
  class Repository {
    var tags: seq<Tag>
    var deleted: seq<string>

    constructor(tags0: seq<Tag>)
      ensures tags == tags0 && deleted == []
    {
      tags := tags0;
      deleted := [];
    }

    /** `get_quay_tags`: every active tag. */
    method GetQuayTags() returns (r: seq<Tag>)
      ensures r == tags
    {
      r := tags;
    }

    /** `delete_image_tag`: the tag is gone and the call is recorded. */
    method DeleteImageTag(name: string)
      modifies this
      ensures tags == Without(old(tags), name)
      ensures deleted == old(deleted) + [name]
    {
      tags := Without(tags, name);
      deleted := deleted + [name];
    }

    /** Deletes the tags called `names`, in order, unless this is a dry run. */
    method DeleteAll(names: seq<string>, dryRun: bool)
      modifies this
      ensures tags == (if dryRun then old(tags) else WithoutAll(old(tags), names))
      ensures deleted == old(deleted) + (if dryRun then [] else names)
    {
      if !dryRun {
        var i := 0;
        while i < |names|
          invariant 0 <= i <= |names|
          invariant tags == WithoutAll(old(tags), names[..i])
          invariant deleted == old(deleted) + names[..i]
        {
          WithoutAllPrefix(old(tags), names, i);
          DeleteImageTag(names[i]);
          i := i + 1;
        }
        assert names[..i] == names;
      }
    }
  }

  // ---------------------------------------------------------------------------------------------
  // The first pass of `remove_tags`.

  /** `unique_names.get(name, 0)`. */
  function Count(m: map<string, int>, name: string): int {
    if name in m then m[name] else 0
  }

  /** The state of the first pass: the per-name counters, and the tags chosen for removal. */
  datatype FirstPassState = FirstPassState(uniqueNames: map<string, int>, chosen: seq<Tag>)

  /** The first pass over `tags`, one tag at a time. */
  function FirstPass(tags: seq<Tag>, daysOld: int, keepMax: int): FirstPassState {
    if |tags| == 0 then FirstPassState(map[], [])
    else
      var st := FirstPass(tags[..|tags| - 1], daysOld, keepMax);
      FirstPassStep(st, tags[|tags| - 1], daysOld, keepMax)
  }

  /** One iteration of the first loop of `remove_tags`. */
  function FirstPassStep(st: FirstPassState, tag: Tag, daysOld: int, keepMax: int): FirstPassState {
    if Skipped(tag.name) then st
    else
      var group := GroupName(tag.name);
      var count := Count(st.uniqueNames, group);
      if count < keepMax then FirstPassState(st.uniqueNames[group := count + 1], st.chosen)
      else if tag.startTs < daysOld then FirstPassState(st.uniqueNames, st.chosen + [tag])
      else st
  }

  /** How many tags of `tags` the first pass considers under the group name `group`. */
  function Seen(tags: seq<Tag>, group: string): nat {
    if |tags| == 0 then 0
    else
      var t := tags[|tags| - 1];
      Seen(tags[..|tags| - 1], group) + (if !Skipped(t.name) && GroupName(t.name) == group then 1 else 0)
  }

  /**
   * The reference rule, without counters: a tag is removed when it is not skipped, at least
   * `keepMax` earlier tags of its group were seen, and it started before `daysOld`.
   */
  predicate ShouldRemove(earlier: seq<Tag>, tag: Tag, daysOld: int, keepMax: int) {
    !Skipped(tag.name) && Seen(earlier, GroupName(tag.name)) >= keepMax && tag.startTs < daysOld
  }

  /** The tags the reference rule removes, in list order. */
  function Removed(tags: seq<Tag>, daysOld: int, keepMax: int): seq<Tag> {
    if |tags| == 0 then []
    else
      var init := tags[..|tags| - 1];
      Removed(init, daysOld, keepMax) + (if ShouldRemove(init, tags[|tags| - 1], daysOld, keepMax) then [tags[|tags| - 1]] else [])
  }

  /** A counter never passes `keepMax`: it counts the tags of its group seen, up to `keepMax`. */
  function Capped(n: nat, keepMax: int): int {
    if n < keepMax then n else if keepMax > 0 then keepMax else 0
  }

  /**
   * The counters and the choice of the first pass agree with the reference rule: each counter is
   * its group's tag count capped at `keepMax`, and the chosen tags are exactly those it removes.
   */
  lemma {:induction false} FirstPassMatchesReference(tags: seq<Tag>, daysOld: int, keepMax: int, group: string)
    ensures Count(FirstPass(tags, daysOld, keepMax).uniqueNames, group) == Capped(Seen(tags, group), keepMax)
    ensures FirstPass(tags, daysOld, keepMax).chosen == Removed(tags, daysOld, keepMax)
    decreases |tags|
  {
    if |tags| > 0 {
      var init := tags[..|tags| - 1];
      var t := tags[|tags| - 1];
      FirstPassMatchesReference(init, daysOld, keepMax, group);
      if !Skipped(t.name) {
        FirstPassMatchesReference(init, daysOld, keepMax, GroupName(t.name));
      }
    }
  }

  /** The first pass never removes an artifact tag or a name without "-", nor a recent tag. */
  lemma {:induction false} RemovedAreOldNamedTags(tags: seq<Tag>, daysOld: int, keepMax: int)
    ensures forall t :: t in Removed(tags, daysOld, keepMax) ==> t in tags && !Skipped(t.name) && t.startTs < daysOld
    decreases |tags|
  {
    if |tags| > 0 {
      RemovedAreOldNamedTags(tags[..|tags| - 1], daysOld, keepMax);
    }
  }

  /**
   * The first `keepMax` tags of each group, in list order, are kept: a tag with fewer than `keepMax`
   * earlier tags of its group is never removed, and the removed list grows only by removed tags.
   */
  lemma FirstOfGroupKept(tags: seq<Tag>, i: nat, daysOld: int, keepMax: int)
    requires i < |tags| && !Skipped(tags[i].name) && Seen(tags[..i], GroupName(tags[i].name)) < keepMax
    ensures Removed(tags[..i + 1], daysOld, keepMax) == Removed(tags[..i], daysOld, keepMax)
  {
    assert tags[..i + 1][..i] == tags[..i];
  }

  /** A tag past its group's first `keepMax` is removed exactly when it is older than `daysOld`. */
  lemma BeyondKeepMax(tags: seq<Tag>, i: nat, daysOld: int, keepMax: int)
    requires i < |tags| && !Skipped(tags[i].name) && Seen(tags[..i], GroupName(tags[i].name)) >= keepMax
    ensures Removed(tags[..i + 1], daysOld, keepMax) ==
      Removed(tags[..i], daysOld, keepMax) + (if tags[i].startTs < daysOld then [tags[i]] else [])
  {
    assert tags[..i + 1][..i] == tags[..i];
  }

  function Names(tags: seq<Tag>): (r: seq<string>)
    ensures |r| == |tags| && forall i :: 0 <= i < |tags| ==> r[i] == tags[i].name
  {
    seq(|tags|, i requires 0 <= i < |tags| => tags[i].name)
  }

  function Digests(tags: seq<Tag>): (r: seq<string>)
    ensures |r| == |tags| && forall i :: 0 <= i < |tags| ==> r[i] == tags[i].manifestDigest
  {
    seq(|tags|, i requires 0 <= i < |tags| => tags[i].manifestDigest)
  }

  /** The names and digests of one more tag. */
  lemma NamesDigestsAppend(tags: seq<Tag>, t: Tag)
    ensures Names(tags + [t]) == Names(tags) + [t.name]
    ensures Digests(tags + [t]) == Digests(tags) + [t.manifestDigest]
  {
    assert Names(tags + [t]) == Names(tags) + [t.name];
    assert Digests(tags + [t]) == Digests(tags) + [t.manifestDigest];
  }

  /** The first pass over one more tag of a prefix. */
  lemma FirstPassPrefix(tags: seq<Tag>, i: nat, daysOld: int, keepMax: int)
    requires i < |tags|
    ensures FirstPass(tags[..i + 1], daysOld, keepMax) == FirstPassStep(FirstPass(tags[..i], daysOld, keepMax), tags[i], daysOld, keepMax)
  {
    assert tags[..i + 1][..i] == tags[..i];
  }

  // ---------------------------------------------------------------------------------------------
  // The artifact passes.

  /** The artifact tags whose digest is (`present`) or is not (`!present`) among `digests`. */
  function ArtifactsOf(tags: seq<Tag>, digests: seq<string>, present: bool): seq<string> {
    if |tags| == 0 then []
    else
      ArtifactsOf(tags[..|tags| - 1], digests, present) + ArtifactOf(tags[|tags| - 1], digests, present)
  }

  /** One tag's contribution to `ArtifactsOf`. */
  function ArtifactOf(t: Tag, digests: seq<string>, present: bool): seq<string> {
    var d := ArtifactDigest(t.name);
    if d.Some? && (d.value in digests) == present then [t.name] else []
  }

  /** Some listed tag carries this name. */
  ghost predicate Listed(tags: seq<Tag>, name: string) {
    exists t :: t in tags && t.name == name
  }

  /** An artifact tag is picked exactly when its digest's presence among `digests` is `present`. */
  lemma {:induction false} ArtifactsOfMembers(tags: seq<Tag>, digests: seq<string>, present: bool, name: string)
    ensures name in ArtifactsOf(tags, digests, present) <==>
      Listed(tags, name) && ArtifactDigest(name).Some? && (ArtifactDigest(name).value in digests) == present
    decreases |tags|
  {
    if |tags| > 0 {
      var init, last := tags[..|tags| - 1], tags[|tags| - 1];
      ArtifactsOfMembers(init, digests, present, name);
      ListedLast(tags, name);
      ArtifactOfMembers(last, digests, present, name);
      var a, b := ArtifactsOf(init, digests, present), ArtifactOf(last, digests, present);
      assert ArtifactsOf(tags, digests, present) == a + b;
      assert name in a + b <==> name in a || name in b;
    }
  }

  lemma ArtifactOfMembers(t: Tag, digests: seq<string>, present: bool, name: string)
    ensures name in ArtifactOf(t, digests, present) <==>
      t.name == name && ArtifactDigest(name).Some? && (ArtifactDigest(name).value in digests) == present
  {
  }

  lemma ListedLast(tags: seq<Tag>, name: string)
    requires |tags| > 0
    ensures Listed(tags, name) <==> Listed(tags[..|tags| - 1], name) || tags[|tags| - 1].name == name
  {
    var init, last := tags[..|tags| - 1], tags[|tags| - 1];
    assert tags == init + [last];
    if Listed(tags, name) {
      var t :| t in tags && t.name == name;
      assert t in init || t == last;
    }
    if last.name == name {
      assert last in tags;
    }
    if Listed(init, name) {
      var t :| t in init && t.name == name;
      assert t in tags;
    }
  }


  /** The artifacts of one more tag of a prefix. */
  lemma ArtifactsPrefix(tags: seq<Tag>, i: nat, digests: seq<string>, present: bool)
    requires i < |tags|
    ensures ArtifactsOf(tags[..i + 1], digests, present) == ArtifactsOf(tags[..i], digests, present) + ArtifactOf(tags[i], digests, present)
  {
    assert tags[..i + 1][..i] == tags[..i];
  }

  /** The second pass of `remove_tags`: artifact tags of a digest the first pass recorded. */
  function ObsoleteArtifacts(tags: seq<Tag>, removedDigests: seq<string>): seq<string> {
    ArtifactsOf(tags, removedDigests, true)
  }

  /** `remove_leftover_tags`'s choice: artifact tags whose digest is no listed tag's manifest digest. */
  function LeftoverArtifacts(tags: seq<Tag>): seq<string> {
    ArtifactsOf(tags, Digests(tags), false)
  }

  /** Everything `remove_tags` selects: the first pass's tags, then the artifacts of their digests. */
  function RemoveTagsSelection(tags: seq<Tag>, daysOld: int, keepMax: int): seq<string> {
    var chosen := Removed(tags, daysOld, keepMax);
    Names(chosen) + ObsoleteArtifacts(tags, Digests(chosen))
  }

  // ---------------------------------------------------------------------------------------------
  // The operations.

  /**
   * `remove_tags`: returns the names it logs as removed (or, in a dry run, as to be removed), in
   * order. A dry run selects the same tags and deletes nothing.
   */
  method RemoveTags(repo: Repository, tags: seq<Tag>, daysOld: int, keepMax: int, dryRun: bool)
    returns (selected: seq<string>)
    modifies repo
    ensures selected == RemoveTagsSelection(tags, daysOld, keepMax)
    ensures repo.deleted == old(repo.deleted) + (if dryRun then [] else selected)
    ensures repo.tags == (if dryRun then old(repo.tags) else WithoutAll(old(repo.tags), selected))
  {
    var firstNames, removedDigests := SelectOldTags(tags, daysOld, keepMax);
    var secondNames := SelectObsoleteArtifacts(tags, removedDigests);
    selected := firstNames + secondNames;
    repo.DeleteAll(selected, dryRun);
  }

  /** The first loop of `remove_tags`: the names and digests of the tags it removes, in order. */
  method SelectOldTags(tags: seq<Tag>, daysOld: int, keepMax: int) returns (firstNames: seq<string>, removedDigests: seq<string>)
    ensures firstNames == Names(Removed(tags, daysOld, keepMax))
    ensures removedDigests == Digests(Removed(tags, daysOld, keepMax))
  {
    var uniqueNames: map<string, int> := map[];
    removedDigests := [];
    firstNames := [];
    ghost var chosen: seq<Tag> := [];
    var i := 0;
    while i < |tags|
      invariant 0 <= i <= |tags|
      invariant FirstPass(tags[..i], daysOld, keepMax) == FirstPassState(uniqueNames, chosen)
      invariant removedDigests == Digests(chosen) && firstNames == Names(chosen)
    {
      FirstPassPrefix(tags, i, daysOld, keepMax);
      var tag := tags[i];
      if !Skipped(tag.name) {
        var tagName := GroupName(tag.name);
        var count := Count(uniqueNames, tagName);
        if count < keepMax {
          uniqueNames := uniqueNames[tagName := count + 1];
        } else if tag.startTs < daysOld {
          NamesDigestsAppend(chosen, tag);
          removedDigests := removedDigests + [tag.manifestDigest];
          firstNames := firstNames + [tag.name];
          chosen := chosen + [tag];
        }
      }
      i := i + 1;
    }
    assert tags[..i] == tags;
    FirstPassMatchesReference(tags, daysOld, keepMax, "");
  }

  /** The second loop of `remove_tags`: the artifact tags of the removed digests, in order. */
  method SelectObsoleteArtifacts(tags: seq<Tag>, removedDigests: seq<string>) returns (secondNames: seq<string>)
    ensures secondNames == ObsoleteArtifacts(tags, removedDigests)
  {
    secondNames := [];
    var j := 0;
    while j < |tags|
      invariant 0 <= j <= |tags|
      invariant secondNames == ArtifactsOf(tags[..j], removedDigests, true)
    {
      ArtifactsPrefix(tags, j, removedDigests, true);
      var d := ArtifactDigest(tags[j].name);
      if d.Some? && d.value in removedDigests {
        secondNames := secondNames + [tags[j].name];
      }
      j := j + 1;
    }
    assert tags[..j] == tags;
  }

  /** `remove_leftover_tags`: the artifact tags whose image is gone, deleted unless this is a dry run. */
  method RemoveLeftoverTags(repo: Repository, tags: seq<Tag>, dryRun: bool) returns (selected: seq<string>)
    modifies repo
    ensures selected == LeftoverArtifacts(tags)
    ensures repo.deleted == old(repo.deleted) + (if dryRun then [] else selected)
    ensures repo.tags == (if dryRun then old(repo.tags) else WithoutAll(old(repo.tags), selected))
  {
    selected := SelectLeftovers(tags);
    repo.DeleteAll(selected, dryRun);
  }

  /** The loop of `remove_leftover_tags`: the artifact tags of no listed digest, in order. */
  method SelectLeftovers(tags: seq<Tag>) returns (selected: seq<string>)
    ensures selected == LeftoverArtifacts(tags)
  {
    var imageDigests := Digests(tags);
    selected := [];
    var i := 0;
    while i < |tags|
      invariant 0 <= i <= |tags|
      invariant selected == ArtifactsOf(tags[..i], imageDigests, false)
    {
      ArtifactsPrefix(tags, i, imageDigests, false);
      var d := ArtifactDigest(tags[i].name);
      if d.Some? && d.value !in imageDigests {
        selected := selected + [tags[i].name];
      }
      i := i + 1;
    }
    assert tags[..i] == tags;
  }

  /**
   * `process_repository`: prune the listed tags, list the repository again, and remove the leftover
   * artifacts of that second listing. Both steps are skipped on an empty listing.
   */
  method ProcessRepository(repo: Repository, daysOld: int, keepMax: int, dryRun: bool)
    returns (selected: seq<string>)
    modifies repo
    ensures var first := RemoveTagsSelection(old(repo.tags), daysOld, keepMax);
      var between := if dryRun then old(repo.tags) else WithoutAll(old(repo.tags), first);
      selected == first + LeftoverArtifacts(between)
    ensures repo.deleted == old(repo.deleted) + (if dryRun then [] else selected)
    ensures repo.tags == (if dryRun then old(repo.tags) else WithoutAll(old(repo.tags), selected))
  {
    var allTags := repo.GetQuayTags();
    var first: seq<string> := [];
    if |allTags| > 0 {
      first := RemoveTags(repo, allTags, daysOld, keepMax, dryRun);
    } else {
      assert RemoveTagsSelection(allTags, daysOld, keepMax) == [] by {
        assert Names([]) == [];
      }
    }
    ghost var between := repo.tags;
    ghost var deletedBetween := repo.deleted;
    allTags := repo.GetQuayTags();
    var leftovers: seq<string> := [];
    if |allTags| > 0 {
      leftovers := RemoveLeftoverTags(repo, allTags, dryRun);
    }
    selected := first + leftovers;
    if !dryRun {
      WithoutAllAppend(old(repo.tags), first, leftovers);
      assert deletedBetween == old(repo.deleted) + first;
      AppendAssoc(old(repo.deleted), first, leftovers);
    } else {
      assert deletedBetween == old(repo.deleted);
    }
  }
}
