/**
 * The pure parts of the render-diff command (cmd/render-diff): the names of the per-component diff
 * files and their de-duplication (files.go), the order diffs are reported in, and the validation of
 * the `--output-mode` and `--color` flags (main.go). Writing files and starting the diff tool are
 * recorded as the list of files that would be written.
 */
module RenderDiffCli {
  import opened Wrappers
  import Strs
  import Paths
  import Ordering
  import AppSet
  import Detector
  import RenderDiff
  import RenderEngine

  // ---------------------------------------------------------------------------------------------
  // File names.

  /**
   * `diffFileName`: "<cluster>--<env>.diff" for a cluster-bound component, otherwise the path with
   * every "/" turned into "__", then "__<env>.diff".
   */
  function DiffFileName(cd: RenderDiff.ComponentDiff): (r: string)
    ensures Strs.HasSuffix(r, cd.env.Name() + ".diff")
    ensures cd.clusterDir != "" ==> Strs.HasPrefix(r, cd.clusterDir + "--")
    ensures '/' !in cd.clusterDir ==> '/' !in r
  {
    var suffix := cd.env.Name() + ".diff";
    EnvFileSuffix(cd.env);
    if cd.clusterDir != "" then
      Strs.ConcatAffixes(cd.clusterDir + "--", suffix);
      cd.clusterDir + "--" + suffix
    else
      var slug := Strs.ReplaceChar(cd.path, '/', "__");
      Strs.ConcatAffixes(slug + "__", suffix);
      slug + "__" + suffix
  }

  /** The "<env>.diff" ending of a diff file name holds no "/". */
  lemma EnvFileSuffix(env: Detector.Environment)
    ensures '/' !in env.Name() + ".diff"
  {
    var n := env.Name();
    assert n == "development" || n == "staging" || n == "production";
  }

  /** Two different component paths can share a file name, which is why names are de-duplicated. */
  lemma SlugCollision(env: Detector.Environment)
    ensures DiffFileName(RenderDiff.ComponentDiff("a/b", "", env, None, None, "x", 0, 0, ""))
            == DiffFileName(RenderDiff.ComponentDiff("a__b", "", env, None, None, "x", 0, 0, ""))
  {
    assert Strs.ReplaceChar("a/b", '/', "__") == "a__b";
    assert Strs.ReplaceChar("a__b", '/', "__") == "a__b";
  }

  /**
   * `dedupeFileName` for the k-th use of a name: the name itself the first time, otherwise the
   * counter goes between the stem and the extension.
   */
  function DedupeName(base: string, k: nat): string
    requires k >= 1
  {
    if k == 1 then base
    else
      var ext := Paths.Ext(base);
      Strs.TrimSuffix(base, ext) + "-" + Strs.NatToString(k) + ext
  }

  /** Successive uses of one name give pairwise different names. */
  lemma DedupeCounter(base: string, i: nat, j: nat)
    requires 1 <= i && 1 <= j && i != j
    ensures DedupeName(base, i) != DedupeName(base, j)
  {
    var ext := Paths.Ext(base);
    var stem := Strs.TrimSuffix(base, ext);
    assert stem + ext == base;
    if i != 1 && j != 1 {
      var a, b := Strs.NatToString(i), Strs.NatToString(j);
      if stem + "-" + a + ext == stem + "-" + b + ext {
        var n := |stem| + 1;
        assert |a| == |b|;
        assert a == (stem + "-" + a + ext)[n..n + |a|];
        assert b == (stem + "-" + b + ext)[n..n + |b|];
        Strs.NatToStringInjective(i, j);
      }
    }
  }

  /**
   * The uniqueness the function's documentation promises does not hold for arbitrary names: after
   * two uses of "X.diff", the first use of "X-2.diff" collides with the second name given out.
   */
  lemma DedupeCollision(x: string)
    ensures DedupeName(x + ".diff", 1) == x + ".diff"
    ensures DedupeName(x + ".diff", 2) == x + "-2.diff" == DedupeName(x + "-2.diff", 1)
  {
    var base := x + ".diff";
    ExtOfDiff(x);
    assert base[|base| - 5..] == ".diff";
    var stem := Strs.TrimSuffix(base, ".diff");
    assert stem + ".diff" == base;
    assert stem == base[..|stem|] == x;
    assert Strs.NatToString(2) == "2";
    assert x + "-" + "2" + ".diff" == x + "-2.diff";
  }

  lemma ExtOfDiff(x: string)
    ensures Paths.Ext(x + ".diff") == ".diff"
  {
    var e := ".diff";
    assert e[1..] == "diff";
    ExtOfSuffix(x, e);
  }

  /** A name ending in a dot and then neither "/" nor another dot has that ending as its extension. */
  lemma {:induction false} ExtOfSuffix(x: string, e: string)
    requires |e| > 0 && e[0] == '.' && '/' !in e && '.' !in e[1..]
    ensures Paths.Ext(x + e) == e
    decreases |e|
  {
    var p := x + e;
    var c := e[|e| - 1];
    assert p[|p| - 1] == c;
    if |e| > 1 {
      var e' := e[..|e| - 1];
      assert e[1..][|e| - 2] == c;
      assert e'[1..] == e[1..|e| - 1];
      ExtOfSuffix(x, e');
      assert p[..|p| - 1] == x + e';
      assert e' + [c] == e;
    } else {
      assert e == [c];
    }
  }

  /** The digits of a counter and the "-" before it can be told apart from what precedes them. */
  lemma CounterSplit(x1: string, d1: string, x2: string, d2: string)
    requires |d1| > 0 && |d2| > 0
    requires forall i :: 0 <= i < |d1| ==> '0' <= d1[i] <= '9'
    requires forall i :: 0 <= i < |d2| ==> '0' <= d2[i] <= '9'
    requires x1 + "-" + d1 == x2 + "-" + d2
    ensures x1 == x2 && d1 == d2
  {
    var s := x1 + "-" + d1;
    var t := x2 + "-" + d2;
    if |d1| < |d2| {
      CounterShorter(x1, d1, x2, d2);
    } else if |d2| < |d1| {
      CounterShorter(x2, d2, x1, d1);
    }
    assert d1 == s[|s| - |d1|..] && d2 == t[|t| - |d2|..];
    assert x1 == s[..|x1|] && x2 == t[..|x2|];
  }

  /** A shorter counter would leave its "-" where the longer counter has a digit. */
  lemma CounterShorter(x1: string, d1: string, x2: string, d2: string)
    requires |d1| < |d2|
    requires forall i :: 0 <= i < |d2| ==> '0' <= d2[i] <= '9'
    ensures x1 + "-" + d1 != x2 + "-" + d2
  {
    var s := x1 + "-" + d1;
    var t := x2 + "-" + d2;
    assert s[|s| - |d1| - 1] == '-';
    if |s| == |t| {
      assert t[|t| - |d1| - 1] == d2[|d2| - |d1| - 1];
    }
  }

  /** Two counted names built from base names agree only when both base and counter agree. */
  lemma CountedUnique(b1: string, k1: nat, b2: string, k2: nat)
    requires BaseName(b1) && BaseName(b2) && k1 >= 2 && k2 >= 2
    requires b1[..|b1| - 5] + "-" + Strs.NatToString(k1) + ".diff" == b2[..|b2| - 5] + "-" + Strs.NatToString(k2) + ".diff"
    ensures b1 == b2 && k1 == k2
  {
    var x1, x2 := b1[..|b1| - 5], b2[..|b2| - 5];
    var s1, s2 := x1 + "-" + Strs.NatToString(k1), x2 + "-" + Strs.NatToString(k2);
    assert s1 == (s1 + ".diff")[..|s1|] && s2 == (s2 + ".diff")[..|s2|];
    CounterSplit(x1, Strs.NatToString(k1), x2, Strs.NatToString(k2));
    Strs.NatToStringInjective(k1, k2);
    assert b1 == x1 + ".diff" && b2 == x2 + ".diff";
  }

  lemma DedupeUnique(b1: string, k1: nat, b2: string, k2: nat)
    requires BaseName(b1) && BaseName(b2) && k1 >= 1 && k2 >= 1
    requires DedupeName(b1, k1) == DedupeName(b2, k2)
    ensures b1 == b2 && k1 == k2
  {
    if k1 == 1 && k2 >= 2 {
      CounterNotBase(b2, k2);
    } else if k1 >= 2 && k2 == 1 {
      CounterNotBase(b1, k1);
    } else if k1 >= 2 && k2 >= 2 {
      DedupeOfBase(b1, k1);
      DedupeOfBase(b2, k2);
      CountedUnique(b1, k1, b2, k2);
    }
  }

  /** A name carrying a counter has a digit right before ".diff", so it is never a base name. */
  lemma CounterNotBase(b: string, k: nat)
    requires BaseName(b) && k >= 2
    ensures !BaseName(DedupeName(b, k))
  {
    DedupeOfBase(b, k);
    var d := Strs.NatToString(k);
    var n := b[..|b| - 5] + "-" + d + ".diff";
    assert n[|n| - 6] == d[|d| - 1];
  }

  predicate IsDigit(c: char) {
    '0' <= c <= '9'
  }

  /** A name `diffFileName` can produce: it ends in ".diff", right after a character that is not a digit. */
  predicate BaseName(b: string) {
    |b| >= 6 && Strs.HasSuffix(b, ".diff") && !IsDigit(b[|b| - 6])
  }

  lemma DiffFileNameIsBase(cd: RenderDiff.ComponentDiff)
    ensures BaseName(DiffFileName(cd))
  {
    var r := DiffFileName(cd);
    var suffix := cd.env.Name() + ".diff";
    assert r[|r| - |suffix|..] == suffix;
    assert r[|r| - 6] == suffix[|suffix| - 6];
    assert r[|r| - 5..] == suffix[|suffix| - 5..];
  }

  /** The k-th use of a base name, spelled out: the stem before ".diff", a counter, ".diff". */
  lemma DedupeOfBase(b: string, k: nat)
    requires BaseName(b) && k >= 2
    ensures DedupeName(b, k) == b[..|b| - 5] + "-" + Strs.NatToString(k) + ".diff"
  {
    assert b == b[..|b| - 5] + ".diff";
    ExtOfDiff(b[..|b| - 5]);
  }

  /** A counter map's entry, zero when absent. */
  function Count(m: map<string, nat>, name: string): nat {
    if name in m then m[name] else 0
  }

  /** The `seen` counter map `dedupeFileName` updates. */
  class Seen {
    var counts: map<string, nat>

    constructor ()
      ensures counts == map[]
    {
      counts := map[];
    }

    /** How often a name has been used; an absent name counts zero. */
    function Get(name: string): nat
      reads this
    {
      Count(counts, name)
    }

    /** `dedupeFileName`: counts one more use of `base` and returns the name for that use. */
    method Dedupe(base: string) returns (name: string)
      modifies this
      ensures counts == old(counts)[base := old(Get(base)) + 1]
      ensures name == DedupeName(base, old(Get(base)) + 1)
    {
      counts := counts[base := Get(base) + 1];
      if counts[base] == 1 {
        return base;
      }
      var ext := Paths.Ext(base);
      var stem := Strs.TrimSuffix(base, ext);
      name := stem + "-" + Strs.NatToString(counts[base]) + ext;
    }
  }

  // ---------------------------------------------------------------------------------------------
  // Writing the diff files.

  /** Diffs with a build error or without a diff get no file. */
  predicate Skipped(d: RenderDiff.ComponentDiff) {
    d.error != "" || d.diff == ""
  }

  /** A diff that gets a file: the base name `diffFileName` gives it and the diff text. */
  datatype Entry = Entry(base: string, content: string)

  /** The diffs that get a file, in order. */
  function Entries(ds: seq<RenderDiff.ComponentDiff>): (r: seq<Entry>)
    ensures |r| <= |ds|
    ensures forall i :: 0 <= i < |r| ==> BaseName(r[i].base) && r[i].content != ""
  {
    if |ds| == 0 then []
    else
      var d := ds[|ds| - 1];
      if Skipped(d) then Entries(ds[..|ds| - 1])
      else
        DiffFileNameIsBase(d);
        Entries(ds[..|ds| - 1]) + [Entry(DiffFileName(d), d.diff)]
  }

  /** Each file-bearing diff has an entry, and each entry comes from one. */
  lemma {:induction false} EntriesOf(ds: seq<RenderDiff.ComponentDiff>)
    ensures forall d :: d in ds && !Skipped(d) ==> Entry(DiffFileName(d), d.diff) in Entries(ds)
    ensures forall e :: e in Entries(ds) ==> exists d :: d in ds && !Skipped(d) && e == Entry(DiffFileName(d), d.diff)
  {
    if |ds| > 0 {
      var init := ds[..|ds| - 1];
      EntriesOf(init);
      assert ds == init + [ds[|ds| - 1]];
    }
  }

  /** How many entries use the base name `b`: the `seen` count once they are all written. */
  function Uses(es: seq<Entry>, b: string): nat {
    if |es| == 0 then 0
    else Uses(es[..|es| - 1], b) + (if es[|es| - 1].base == b then 1 else 0)
  }

  datatype DiffFile = DiffFile(name: string, content: string)

  /** The file for each entry: its base name de-duplicated against the entries before it. */
  function FilesOf(es: seq<Entry>): (r: seq<DiffFile>)
    ensures |r| == |es|
  {
    if |es| == 0 then []
    else FilesOf(es[..|es| - 1]) + [FileFor(es[..|es| - 1], es[|es| - 1])]
  }

  /** The file of entry `e` after the entries `before`. */
  function FileFor(before: seq<Entry>, e: Entry): DiffFile {
    DiffFile(DedupeName(e.base, Uses(before, e.base) + 1), e.content)
  }

  /** The files `writeDiffFiles` writes, in order. */
  function Written(ds: seq<RenderDiff.ComponentDiff>): seq<DiffFile> {
    FilesOf(Entries(ds))
  }

  /** An entry is counted by every later prefix, so a later entry with the same base gets a larger counter. */
  lemma {:induction false} UsesGrow(es: seq<Entry>, i: nat, j: nat)
    requires i < j <= |es|
    ensures Uses(es[..j], es[i].base) > Uses(es[..i], es[i].base)
    decreases j
  {
    assert es[..j][..j - 1] == es[..j - 1];
    if j > i + 1 {
      UsesGrow(es, i, j - 1);
    }
  }

  /** Different (base name, use) pairs give different names. */
  lemma DedupeDistinct(b1: string, k1: nat, b2: string, k2: nat)
    requires BaseName(b1) && BaseName(b2) && k1 >= 1 && k2 >= 1
    requires b1 != b2 || k1 != k2
    ensures DedupeName(b1, k1) != DedupeName(b2, k2)
  {
    if DedupeName(b1, k1) == DedupeName(b2, k2) {
      DedupeUnique(b1, k1, b2, k2);
    }
  }

  lemma FilesOfLast(es: seq<Entry>)
    requires |es| > 0
    ensures FilesOf(es) == FilesOf(es[..|es| - 1]) + [FileFor(es[..|es| - 1], es[|es| - 1])]
  {
  }

  /** The i-th file is the entry's base name de-duplicated against the i entries before it. */
  lemma {:induction false} FileAt(es: seq<Entry>, i: nat)
    requires i < |es|
    ensures FilesOf(es)[i] == FileFor(es[..i], es[i])
  {
    var init := es[..|es| - 1];
    FilesOfLast(es);
    if i < |init| {
      assert FilesOf(es)[i] == FilesOf(init)[i];
      FileAt(init, i);
      assert init[..i] == es[..i];
    } else {
      assert init == es[..i];
    }
  }

  /** A later entry with the same base name has been counted more often. */
  lemma {:induction false} UsesDiffer(es: seq<Entry>, i: nat, j: nat)
    requires i < j < |es|
    ensures es[i].base != es[j].base || Uses(es[..i], es[i].base) != Uses(es[..j], es[j].base)
  {
    UsesGrow(es, i, j);
  }

  lemma {:induction false} FileNameIs(es: seq<Entry>, i: nat, k: nat)
    requires i < |es| && k == Uses(es[..i], es[i].base) + 1
    ensures FilesOf(es)[i].name == DedupeName(es[i].base, k)
  {
    FileAt(es, i);
  }

  /** Within one run of `dedupeFileName` over base names, no name is given out twice. */
  lemma {:induction false} FilesNamesDistinct(es: seq<Entry>, i: nat, j: nat)
    requires i < j < |es|
    requires BaseName(es[i].base) && BaseName(es[j].base)
    ensures FilesOf(es)[i].name != FilesOf(es)[j].name
  {
    var ki := Uses(es[..i], es[i].base) + 1;
    var kj := Uses(es[..j], es[j].base) + 1;
    UsesDiffer(es, i, j);
    DedupeDistinct(es[i].base, ki, es[j].base, kj);
    FileNameIs(es, i, ki);
    FileNameIs(es, j, kj);
  }

  /** Every file `writeDiffFiles` writes in one run has its own name. */
  lemma {:induction false} WrittenNamesDistinct(ds: seq<RenderDiff.ComponentDiff>)
    ensures forall i, j :: 0 <= i < j < |Written(ds)| ==> Written(ds)[i].name != Written(ds)[j].name
  {
    var es := Entries(ds);
    forall i, j | 0 <= i < j < |es| ensures FilesOf(es)[i].name != FilesOf(es)[j].name {
      FilesNamesDistinct(es, i, j);
    }
  }

  /** The i-th file holds the i-th file-bearing diff's text. */
  lemma {:induction false} WrittenContents(ds: seq<RenderDiff.ComponentDiff>)
    ensures |Written(ds)| == |Entries(ds)|
    ensures forall i :: 0 <= i < |Written(ds)| ==> Written(ds)[i].content == Entries(ds)[i].content
  {
    FileContents(Entries(ds));
  }

  /** Each file holds its entry's diff. */
  lemma {:induction false} FileContents(es: seq<Entry>)
    ensures forall i :: 0 <= i < |es| ==> FilesOf(es)[i].content == es[i].content
  {
    if |es| > 0 {
      FileContents(es[..|es| - 1]);
    }
  }

  lemma {:induction false} FilesOfSnoc(es: seq<Entry>, e: Entry, k: nat)
    requires k == Uses(es, e.base) + 1
    ensures FilesOf(es + [e]) == FilesOf(es) + [DiffFile(DedupeName(e.base, k), e.content)]
  {
    var s := es + [e];
    assert s[..|s| - 1] == es && s[|s| - 1] == e;
    assert FileFor(es, e) == DiffFile(DedupeName(e.base, k), e.content);
  }

  /** One more diff: an entry is appended unless the diff is skipped. */
  lemma {:induction false} EntriesStep(ds: seq<RenderDiff.ComponentDiff>, i: nat)
    requires i < |ds|
    ensures Entries(ds[..i + 1]) == Entries(ds[..i]) + (if Skipped(ds[i]) then [] else [Entry(DiffFileName(ds[i]), ds[i].diff)])
  {
    assert ds[..i + 1][..i] == ds[..i];
  }

  /** `writeDiffFiles`, with each write recorded instead of performed. */
  method WriteDiffFiles(ds: seq<RenderDiff.ComponentDiff>) returns (files: seq<DiffFile>)
    ensures files == Written(ds)
  {
    var seen := new Seen();
    files := [];
    for i := 0 to |ds|
      invariant files == FilesOf(Entries(ds[..i]))
      invariant seen.counts == UseCounts(Entries(ds[..i]))
    {
      var d := ds[i];
      EntriesStep(ds, i);
      if d.error != "" || d.diff == "" {
        assert Entries(ds[..i + 1]) == Entries(ds[..i]);
        continue;
      }
      var base := DiffFileName(d);
      UseCountsAgree(Entries(ds[..i]));
      ghost var k := seen.Get(base) + 1;
      var name := seen.Dedupe(base);
      WriteStep(ds, i, files, k, name);
      files := files + [DiffFile(name, d.diff)];
    }
    assert ds[..|ds|] == ds;
  }

  /** The `seen` map after the given entries have been named. */
  function UseCounts(es: seq<Entry>): map<string, nat> {
    if |es| == 0 then map[]
    else
      var m, b := UseCounts(es[..|es| - 1]), es[|es| - 1].base;
      m[b := Count(m, b) + 1]
  }

  /** The map counts each base name's uses. */
  lemma {:induction false} UseCountsAgree(es: seq<Entry>)
    ensures forall b :: Count(UseCounts(es), b) == Uses(es, b)
  {
    if |es| > 0 {
      UseCountsAgree(es[..|es| - 1]);
    }
  }

  /** What one written diff adds: its file, and one more use of its base name. */
  lemma {:induction false} WriteStep(ds: seq<RenderDiff.ComponentDiff>, i: nat, files: seq<DiffFile>, k: nat, name: string)
    requires i < |ds| && !Skipped(ds[i])
    requires files == FilesOf(Entries(ds[..i]))
    requires k == Uses(Entries(ds[..i]), DiffFileName(ds[i])) + 1
    requires name == DedupeName(DiffFileName(ds[i]), k)
    ensures files + [DiffFile(name, ds[i].diff)] == FilesOf(Entries(ds[..i + 1]))
    ensures UseCounts(Entries(ds[..i + 1])) == UseCounts(Entries(ds[..i]))[DiffFileName(ds[i]) := k]
  {
    var es := Entries(ds[..i]);
    var e := Entry(DiffFileName(ds[i]), ds[i].diff);
    EntriesStep(ds, i);
    assert Entries(ds[..i + 1]) == es + [e];
    FilesOfSnoc(es, e, k);
    UseCountsSnoc(es, e, k);
  }

  lemma {:induction false} UseCountsSnoc(es: seq<Entry>, e: Entry, k: nat)
    requires k == Uses(es, e.base) + 1
    ensures UseCounts(es + [e]) == UseCounts(es)[e.base := k]
  {
    assert (es + [e])[..|es|] == es;
    UseCountsAgree(es);
  }

  /** `openInDiffTool`'s file name: the ".diff" suffix of the de-duplicated name becomes ".yaml". */
  function YamlName(name: string): string {
    Strs.TrimSuffix(name, ".diff") + ".yaml"
  }

  lemma YamlNameInjective(n1: string, n2: string)
    requires Strs.HasSuffix(n1, ".diff") && Strs.HasSuffix(n2, ".diff") && n1 != n2
    ensures YamlName(n1) != YamlName(n2)
  {
    var a, b := Strs.TrimSuffix(n1, ".diff"), Strs.TrimSuffix(n2, ".diff");
    assert a == (a + ".yaml")[..|a|] && b == (b + ".yaml")[..|b|];
  }

  /** Every file name ends in ".diff", with or without a counter. */
  lemma {:induction false} FileNameSuffix(es: seq<Entry>, i: nat)
    requires i < |es| && BaseName(es[i].base)
    ensures Strs.HasSuffix(FilesOf(es)[i].name, ".diff")
  {
    var k := Uses(es[..i], es[i].base) + 1;
    FileNameIs(es, i, k);
    if k >= 2 {
      DedupeOfBase(es[i].base, k);
    }
  }

  /** The YAML files `openInDiffTool` writes have distinct names, too. */
  lemma {:induction false} YamlNamesDistinct(ds: seq<RenderDiff.ComponentDiff>)
    ensures forall i, j :: 0 <= i < j < |Written(ds)| ==> YamlName(Written(ds)[i].name) != YamlName(Written(ds)[j].name)
  {
    WrittenNamesDistinct(ds);
    var es := Entries(ds);
    var w := Written(ds);
    forall i | 0 <= i < |w| ensures Strs.HasSuffix(w[i].name, ".diff") {
      FileNameSuffix(es, i);
    }
    forall i, j | 0 <= i < j < |w| ensures YamlName(w[i].name) != YamlName(w[j].name) {
      YamlNameInjective(w[i].name, w[j].name);
    }
  }

  // ---------------------------------------------------------------------------------------------
  // Report order.

  /** The order `sortDiffs` puts diffs in: environment name, then path. */
  function ReportKey(d: RenderDiff.ComponentDiff): seq<string> {
    [d.env.Name(), d.path]
  }

  /** `sortDiffs`, in place. */
  method SortDiffs(a: array<RenderDiff.ComponentDiff>)
    modifies a
    ensures a[..] == Ordering.SortBy(old(a[..]), ReportKey)
  {
    var sorted := Ordering.SortBy(a[..], ReportKey);
    Ordering.SortByPermutation(a[..], ReportKey);
    forall i | 0 <= i < a.Length {
      a[i] := sorted[i];
    }
  }

  /** The sorted diffs are the same diffs, ordered by environment and then path. */
  lemma {:induction false} ReportOrder(ds: seq<RenderDiff.ComponentDiff>)
    ensures multiset(Ordering.SortBy(ds, ReportKey)) == multiset(ds)
    ensures forall i, j :: 0 <= i < j < |Ordering.SortBy(ds, ReportKey)| ==>
              !Ordering.KeyLess(ReportKey(Ordering.SortBy(ds, ReportKey)[j]), ReportKey(Ordering.SortBy(ds, ReportKey)[i]))
  {
    Ordering.SortByPermutation(ds, ReportKey);
    Ordering.SortBySorted(ds, ReportKey);
  }

  // ---------------------------------------------------------------------------------------------
  // Flags.

  datatype OutputMode = Local | CISummary | CIComment | CIArtifactDir {
    function Name(): string {
      match this
      case Local => "local"
      case CISummary => "ci-summary"
      case CIComment => "ci-comment"
      case CIArtifactDir => "ci-artifact-dir"
    }
  }

  function ModeOf(s: string): (r: Option<OutputMode>)
    ensures r.Some? ==> r.value.Name() == s
  {
    if s == "local" then Some(Local)
    else if s == "ci-summary" then Some(CISummary)
    else if s == "ci-comment" then Some(CIComment)
    else if s == "ci-artifact-dir" then Some(CIArtifactDir)
    else None
  }

  /** Exactly the four mode names are accepted, each for its own mode. */
  lemma ModeNames(s: string, m: OutputMode)
    ensures ModeOf(s) == Some(m) <==> m.Name() == s
    ensures ModeOf(s).None? <==> s !in {"local", "ci-summary", "ci-comment", "ci-artifact-dir"}
  {
  }

  /** The comma-separated pieces of the flag, each trimmed of white space. */
  function Trimmed(tokens: seq<string>): (r: seq<string>)
    ensures |r| == |tokens|
  {
    seq(|tokens|, i requires 0 <= i < |tokens| => Strs.TrimSpace(tokens[i]))
  }

  /** `parseOutputModes` over the trimmed pieces: None when some piece is neither blank nor a mode. */
  function ParseModes(ts: seq<string>): Option<seq<OutputMode>> {
    if |ts| == 0 then Some([]) else ParseNext(ParseModes(ts[..|ts| - 1]), ts[|ts| - 1])
  }

  /** One more trimmed piece: a blank one is skipped, an unknown one fails, a mode is added once. */
  function ParseNext(r: Option<seq<OutputMode>>, t: string): Option<seq<OutputMode>> {
    if r.None? then None
    else if t == "" then r
    else if ModeOf(t).None? then None
    else if ModeOf(t).value in r.value then r
    else Some(r.value + [ModeOf(t).value])
  }

  /** The parse of one more piece of a prefix. */
  lemma ParseModesPrefix(ts: seq<string>, i: nat)
    requires i < |ts|
    ensures ParseModes(ts[..i + 1]) == ParseNext(ParseModes(ts[..i]), ts[i])
  {
    assert ts[..i + 1][..i] == ts[..i];
  }

  /** `parseOutputModes`. */
  method ParseOutputModes(raw: string) returns (modes: Option<seq<OutputMode>>)
    ensures modes == ParseModes(Trimmed(Strs.Split(raw, ',')))
  {
    var tokens := Strs.Split(raw, ',');
    ghost var ts := Trimmed(tokens);
    var seen: set<OutputMode> := {};
    var ms: seq<OutputMode> := [];
    for i := 0 to |tokens|
      invariant ParseModes(ts[..i]) == Some(ms)
      invariant forall m :: m in seen <==> m in ms
    {
      ParseModesPrefix(ts, i);
      var s := Strs.TrimSpace(tokens[i]);
      assert s == ts[i];
      if s == "" {
        continue;
      }
      var m := ModeOf(s);
      if m.None? {
        ParseModesStopped(ts, i + 1);
        return None;
      }
      if m.value !in seen {
        seen := seen + {m.value};
        ms := ms + [m.value];
      }
    }
    assert ts[..|ts|] == ts;
    return Some(ms);
  }

  lemma {:induction false} ParseModesStopped(ts: seq<string>, n: nat)
    requires n <= |ts| && ParseModes(ts[..n]).None?
    ensures ParseModes(ts).None?
    decreases |ts| - n
  {
    if n < |ts| {
      assert ts[..n + 1][..n] == ts[..n];
      ParseModesStopped(ts, n + 1);
    } else {
      assert ts[..n] == ts;
    }
  }

  /** A trimmed piece that is blank or names a mode. */
  predicate Acceptable(t: string) {
    t == "" || ModeOf(t).Some?
  }

  /** The parse succeeds exactly when every piece is blank or names a mode. */
  lemma {:induction false} ParseModesValid(ts: seq<string>)
    ensures ParseModes(ts).Some? <==> forall i :: 0 <= i < |ts| ==> Acceptable(ts[i])
  {
    if |ts| > 0 {
      var init := ts[..|ts| - 1];
      ParseModesValid(init);
      assert forall i :: 0 <= i < |init| ==> ts[i] == init[i];
    }
  }

  /** A successful parse lists each named mode exactly once, and nothing else. */
  lemma {:induction false} ParseModesMembers(ts: seq<string>)
    requires ParseModes(ts).Some?
    ensures forall m :: m in ParseModes(ts).value <==> m.Name() in ts
    ensures forall i, j :: 0 <= i < j < |ParseModes(ts).value| ==> ParseModes(ts).value[i] != ParseModes(ts).value[j]
  {
    if |ts| > 0 {
      var init := ts[..|ts| - 1];
      ParseModesMembers(init);
      assert ts == init + [ts[|ts| - 1]];
      forall m ensures m in ParseModes(ts).value <==> m.Name() in ts {
        ModeNames(ts[|ts| - 1], m);
      }
    }
  }

  /** Where a name first appears among the pieces (|ts| when it does not). */
  function FirstUse(ts: seq<string>, name: string): (r: nat)
    ensures r <= |ts|
    ensures r < |ts| ==> ts[r] == name
    ensures name !in ts[..r]
  {
    if |ts| == 0 then 0
    else
      var f := FirstUse(ts[..|ts| - 1], name);
      assert ts[..|ts| - 1][..f] == ts[..f];
      if f < |ts| - 1 then f
      else if ts[|ts| - 1] == name then |ts| - 1
      else
        assert ts == ts[..|ts| - 1] + [ts[|ts| - 1]];
        |ts|
  }

  /** Duplicates are dropped keeping the first occurrence: modes come in the order they were first named. */
  lemma {:induction false} ParseModesOrder(ts: seq<string>)
    requires ParseModes(ts).Some?
    ensures forall i, j :: 0 <= i < j < |ParseModes(ts).value| ==>
              FirstUse(ts, ParseModes(ts).value[i].Name()) < FirstUse(ts, ParseModes(ts).value[j].Name())
    ensures forall i :: 0 <= i < |ParseModes(ts).value| ==> FirstUse(ts, ParseModes(ts).value[i].Name()) < |ts|
  {
    if |ts| > 0 {
      var init := ts[..|ts| - 1];
      ParseModesOrder(init);
      ParseModesMembers(init);
      var ms := ParseModes(init).value;
      var r := ParseModes(ts).value;
      forall i | 0 <= i < |ms|
        ensures FirstUse(ts, ms[i].Name()) == FirstUse(init, ms[i].Name())
      {
      }
      if |r| > |ms| {
        var m := r[|r| - 1];
        assert r == ms + [m] && m !in ms;
        ModeNames(ts[|ts| - 1], m);
        assert FirstUse(init, m.Name()) == |init|;
        assert FirstUse(ts, m.Name()) == |init|;
      }
    }
  }

  /** `--color` values main accepts. */
  predicate ValidColor(color: string) {
    color == "auto" || color == "always" || color == "never"
  }

  /** The flag checks at the start of main: the modes first, then the colour. */
  function CheckFlags(outputMode: string, color: string): Result<seq<OutputMode>, string> {
    var modes := ParseModes(Trimmed(Strs.Split(outputMode, ',')));
    if modes.None? || |modes.value| == 0 then
      Failure("invalid --output-mode \"" + outputMode + "\": must be one or more of local, ci-summary, ci-comment, ci-artifact-dir (comma-separated)")
    else if !ValidColor(color) then
      Failure("invalid --color \"" + color + "\": must be one of auto, always, never")
    else Success(modes.value)
  }

  /** A successful parse names some mode exactly when some piece is not blank. */
  lemma {:induction false} ParseModesNonEmpty(ts: seq<string>)
    requires ParseModes(ts).Some?
    ensures |ParseModes(ts).value| > 0 <==> exists i :: 0 <= i < |ts| && ts[i] != ""
  {
    ParseModesValid(ts);
    ParseModesMembers(ts);
    if exists i :: 0 <= i < |ts| && ts[i] != "" {
      var i :| 0 <= i < |ts| && ts[i] != "";
      var m := ModeOf(ts[i]).value;
      assert m in ParseModes(ts).value;
    }
    if |ParseModes(ts).value| > 0 {
      var m := ParseModes(ts).value[0];
      assert m.Name() in ts;
    }
  }

  /**
   * main proceeds exactly when the output-mode list names at least one mode and nothing else, and
   * the colour is auto, always or never; a blank list is rejected like an invalid one.
   */
  lemma FlagsAccepted(outputMode: string, color: string, ts: seq<string>)
    requires ts == Trimmed(Strs.Split(outputMode, ','))
    ensures CheckFlags(outputMode, color).Success? <==>
              (forall i :: 0 <= i < |ts| ==> Acceptable(ts[i])) && (exists i :: 0 <= i < |ts| && ts[i] != "") && ValidColor(color)
  {
    ParseModesValid(ts);
    if ParseModes(ts).Some? {
      ParseModesNonEmpty(ts);
    }
  }

  // ---------------------------------------------------------------------------------------------
  // The job count main hands to the engine.

  function JobCount(affected: map<Detector.Environment, seq<AppSet.ComponentPath>>, envs: seq<Detector.Environment>): nat {
    if |envs| == 0 then 0
    else JobCount(affected, envs[..|envs| - 1]) + (if envs[|envs| - 1] in affected then |affected[envs[|envs| - 1]]| else 0)
  }

  /**
   * The count main passes to `NewEngine` is the number of jobs the engine runs, so main's own
   * "nothing to diff" stop is what keeps the engine's zero-count shortcut from ever dropping jobs.
   */
  lemma {:induction false} JobCountMatches(affected: map<Detector.Environment, seq<AppSet.ComponentPath>>, envs: seq<Detector.Environment>)
    ensures JobCount(affected, envs) == |RenderEngine.JobsOf(affected, envs)|
  {
    if |envs| > 0 {
      JobCountMatches(affected, envs[..|envs| - 1]);
    }
  }
}
