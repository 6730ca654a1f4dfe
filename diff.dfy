/**
 * The per-component diff of a render-diff run (renderdiff/diff.go): both renders are normalised,
 * compared as text, and when they differ a unified diff is produced and its added and removed lines
 * are counted. The unified-diff generator is a parameter: it receives the two texts, the two file
 * headers and the context size, and answers the diff text or an error.
 */
module RenderDiff {
  import opened Wrappers
  import opened Yaml
  import Strs
  import AppSet
  import Detector
  import Normalize
  import Ordering

  /** A component's diff record; None stands for a nil render. */
  datatype ComponentDiff = ComponentDiff(
    path: string,
    clusterDir: string,
    env: Detector.Environment,
    baseYAML: Option<Bytes>,
    headYAML: Option<Bytes>,
    diff: string,
    added: int,
    removed: int,
    error: string)

  /** `FromComponentPath`: the component's path and cluster directory and the environment; all else zero. */
  function FromComponentPath(cp: AppSet.ComponentPath, env: Detector.Environment): (r: ComponentDiff)
    ensures r.path == cp.path && r.clusterDir == cp.clusterDir && r.env == env
    ensures r.baseYAML.None? && r.headYAML.None? && r.diff == "" && r.added == 0 && r.removed == 0 && r.error == ""
  {
    ComponentDiff(cp.path, cp.clusterDir, env, None, None, "", 0, 0, "")
  }

  predicate HasDiff(cd: ComponentDiff) {
    cd.diff != ""
  }

  /** A line counted as added: it starts with '+' but is not a "+++" file header. */
  predicate IsAddedLine(line: string) {
    |line| > 0 && line[0] == '+' && !Strs.HasPrefix(line, "+++")
  }

  /** A line counted as removed: it starts with '-' but is not a "---" file header. */
  predicate IsRemovedLine(line: string) {
    |line| > 0 && line[0] == '-' && !Strs.HasPrefix(line, "---")
  }

  datatype Stats = Stats(added: nat, removed: nat)

  /** The counts `countStats` accumulates over the lines seen so far. */
  function StatsOf(lines: seq<string>): Stats {
    if |lines| == 0 then Stats(0, 0)
    else
      var s := StatsOf(lines[..|lines| - 1]);
      var line := lines[|lines| - 1];
      Stats(s.added + (if IsAddedLine(line) then 1 else 0), s.removed + (if IsRemovedLine(line) then 1 else 0))
  }

  /** `countStats`: the diff text split on "\n", empty lines skipped. */
  method CountStats(diff: string) returns (added: nat, removed: nat)
    ensures Stats(added, removed) == StatsOf(Strs.Split(diff, '\n'))
  {
    var lines := Strs.Split(diff, '\n');
    added, removed := CountLines(lines);
  }

  /** The counting loop of `countStats`, over the lines of the text. */
  method CountLines(lines: seq<string>) returns (added: nat, removed: nat)
    ensures Stats(added, removed) == StatsOf(lines)
  {
    added, removed := 0, 0;
    for i := 0 to |lines|
      invariant Stats(added, removed) == StatsOf(lines[..i])
    {
      var line := lines[i];
      assert lines[..i + 1][..i] == lines[..i];
      if |line| == 0 {
        continue;
      }
      if line[0] == '+' {
        if !Strs.HasPrefix(line, "+++") {
          added := added + 1;
        }
      } else if line[0] == '-' {
        if !Strs.HasPrefix(line, "---") {
          removed := removed + 1;
        }
      }
    }
    assert lines[..|lines|] == lines;
  }

  /** The counts of two stretches of lines add up. */
  lemma {:induction false} StatsConcat(a: seq<string>, b: seq<string>)
    ensures StatsOf(a + b).added == StatsOf(a).added + StatsOf(b).added
    ensures StatsOf(a + b).removed == StatsOf(a).removed + StatsOf(b).removed
    decreases |b|
  {
    if |b| == 0 {
      assert a + b == a;
    } else {
      assert (a + b)[..|a + b| - 1] == a + b[..|b| - 1];
      StatsConcat(a, b[..|b| - 1]);
    }
  }

  /** A single line counts as added, as removed, or not at all, never as both. */
  lemma StatsOfLine(line: string)
    ensures StatsOf([line]).added == (if IsAddedLine(line) then 1 else 0)
    ensures StatsOf([line]).removed == (if IsRemovedLine(line) then 1 else 0)
    ensures StatsOf([line]).added + StatsOf([line]).removed <= 1
  {
    assert [line][..0] == [];
  }

  /** Every counted line is a distinct line of the text: added + removed never exceeds the line count. */
  lemma {:induction false} StatsBound(lines: seq<string>)
    ensures StatsOf(lines).added + StatsOf(lines).removed <= |lines|
  {
    if |lines| > 0 {
      StatsBound(lines[..|lines| - 1]);
    }
  }

  /** For a diff text: added + removed is at most the number of "\n"-separated lines. */
  lemma TextStatsBound(diff: string)
    ensures StatsOf(Strs.Split(diff, '\n')).added + StatsOf(Strs.Split(diff, '\n')).removed <= Strs.Count(diff, '\n') + 1
  {
    StatsBound(Strs.Split(diff, '\n'));
  }

  /** The unified diff of the count test: two additions and one removal, headers not counted. */
  lemma CountExample()
    ensures StatsOf(["--- a/file", "+++ b/file", "@@ -1,3 +1,3 @@", " unchanged", "-removed line",
                     "+added line", " unchanged", "+another added", ""]) == Stats(2, 1)
  {
    var r, a, b := "removed line", "added line", "another added";
    assert r[0] == 'r' && a[0] == 'a' && b[0] == 'a';
    CountShape(" a/file", " b/file", "@@ -1,3 +1,3 @@", " unchanged", r, a, b);
    assert "--- a/file" == "---" + " a/file" && "+++ b/file" == "+++" + " b/file";
    assert "-removed line" == ['-'] + r && "+added line" == ['+'] + a && "+another added" == ['+'] + b;
  }

  /**
   * The shape of a one-hunk unified diff: two headers, a hunk line, context, one removal and two
   * additions give two added lines and one removed line.
   */
  lemma CountShape(x: string, y: string, hunk: string, context: string, r: string, a: string, b: string)
    requires |hunk| > 0 && hunk[0] == '@' && |context| > 0 && context[0] == ' '
    requires |r| > 0 && r[0] != '-' && |a| > 0 && a[0] != '+' && |b| > 0 && b[0] != '+'
    ensures StatsOf(["---" + x, "+++" + y, hunk, context, ['-'] + r, ['+'] + a, context, ['+'] + b, ""]) == Stats(2, 1)
  {
    HeaderLines(x, y);
    ChangedLine('-', r);
    ChangedLine('+', a);
    ChangedLine('+', b);
    var l0, l1, l4, l5, l7 := "---" + x, "+++" + y, ['-'] + r, ['+'] + a, ['+'] + b;
    var s0: seq<string> := [];
    StatsAppend(s0, l0);
    StatsAppend(s0 + [l0], l1);
    StatsAppend(s0 + [l0] + [l1], hunk);
    StatsAppend(s0 + [l0] + [l1] + [hunk], context);
    StatsAppend(s0 + [l0] + [l1] + [hunk] + [context], l4);
    StatsAppend(s0 + [l0] + [l1] + [hunk] + [context] + [l4], l5);
    StatsAppend(s0 + [l0] + [l1] + [hunk] + [context] + [l4] + [l5], context);
    StatsAppend(s0 + [l0] + [l1] + [hunk] + [context] + [l4] + [l5] + [context], l7);
    StatsAppend(s0 + [l0] + [l1] + [hunk] + [context] + [l4] + [l5] + [context] + [l7], "");
    assert [l0, l1, hunk, context, l4, l5, context, l7, ""]
        == s0 + [l0] + [l1] + [hunk] + [context] + [l4] + [l5] + [context] + [l7] + [""];
  }

  /** The "---" and "+++" file headers are not counted. */
  lemma HeaderLines(x: string, y: string)
    ensures !IsAddedLine("---" + x) && !IsRemovedLine("---" + x)
    ensures !IsAddedLine("+++" + y) && !IsRemovedLine("+++" + y)
  {
    assert ("---" + x)[..3] == "---";
    assert ("+++" + y)[..3] == "+++";
  }

  /** A '+' or '-' line whose text does not start with the sign again is counted once. */
  lemma ChangedLine(sign: char, text: string)
    requires sign == '+' || sign == '-'
    requires |text| > 0 && text[0] != sign
    ensures IsAddedLine([sign] + text) <==> sign == '+'
    ensures IsRemovedLine([sign] + text) <==> sign == '-'
  {
    assert ([sign] + text)[1] == text[0];
  }

  /** One more line adds its own count to those of the lines before it. */
  lemma StatsAppend(lines: seq<string>, line: string)
    ensures StatsOf(lines + [line]).added == StatsOf(lines).added + (if IsAddedLine(line) then 1 else 0)
    ensures StatsOf(lines + [line]).removed == StatsOf(lines).removed + (if IsRemovedLine(line) then 1 else 0)
  {
    assert (lines + [line])[..|lines|] == lines;
  }

  /**
   * The header rule is blind to content: a removed line whose text starts with "--" and an added
   * line whose text starts with "++" are not counted.
   */
  lemma HeaderLookalikesUncounted(text: string)
    ensures StatsOf(["-" + "--" + text]) == Stats(0, 0)
    ensures StatsOf(["+" + "++" + text]) == Stats(0, 0)
  {
    StatsOfLine("-" + "--" + text);
    StatsOfLine("+" + "++" + text);
    assert ("-" + "--" + text)[..3] == "---";
    assert ("+" + "++" + text)[..3] == "+++";
  }

  /** The empty diff counts nothing. */
  lemma EmptyDiffStats()
    ensures StatsOf(Strs.Split("", '\n')) == Stats(0, 0)
  {
    assert Strs.Split("", '\n') == [""];
    assert [""][..0] == [];
  }

  /** What the unified-diff generator is asked for. */
  datatype DiffRequest = DiffRequest(a: string, b: string, fromFile: string, toFile: string, context: nat)

  /** The text of a render, one character per byte. */
  function Text(b: Bytes): (r: string)
    ensures |r| == |b| && forall i :: 0 <= i < |b| ==> r[i] as int == b[i] as int
  {
    seq(|b|, i requires 0 <= i < |b| => (b[i] as int) as char)
  }

  /** Two renders have the same text exactly when they are the same bytes. */
  lemma TextInjective(a: Bytes, b: Bytes)
    ensures Text(a) == Text(b) <==> a == b
  {
    if Text(a) == Text(b) {
      assert forall i :: 0 <= i < |a| ==> a[i] as int == Text(a)[i] as int;
    }
  }

  /** The normalised text of one side; a nil render normalises to "". */
  function Normalized(y: Option<Bytes>, decode: Bytes -> seq<Decoded<Node>>, encode: seq<Node> -> Option<Bytes>): string {
    Text(Normalize.NormalizeSpec(y.GetOr([]), decode, encode))
  }

  /**
   * `computeDiff` on a record: equal normalised sides leave it as it is; otherwise the generator's
   * error is returned, or the diff text and its counts are filled in.
   */
  function ComputeDiffSpec(cd: ComponentDiff, decode: Bytes -> seq<Decoded<Node>>, encode: seq<Node> -> Option<Bytes>,
                           unified: DiffRequest -> Result<string, string>): Result<ComponentDiff, string>
  {
    var base := Normalized(cd.baseYAML, decode, encode);
    var head := Normalized(cd.headYAML, decode, encode);
    if base == head then Success(cd)
    else match unified(DiffRequest(base, head, cd.path + " (base)", cd.path + " (head)", 3))
      case Failure(e) => Failure(e)
      case Success(text) =>
        var s := StatsOf(Strs.Split(text, '\n'));
        Success(cd.(diff := text, added := s.added, removed := s.removed))
  }

  /**
   * For a record fresh from `FromComponentPath` plus its renders: a successful `computeDiff` changes
   * only the diff and its counts, the counts are always those of the diff text, there is a diff
   * exactly when the normalised sides differ and the generator gave a non-empty text, and equal
   * sides leave the diff empty with zero counts.
   */
  lemma ComputeDiffFresh(cd: ComponentDiff, decode: Bytes -> seq<Decoded<Node>>, encode: seq<Node> -> Option<Bytes>,
                         unified: DiffRequest -> Result<string, string>)
    requires cd.diff == "" && cd.added == 0 && cd.removed == 0
    ensures var r := ComputeDiffSpec(cd, decode, encode, unified);
            r.Success? ==>
              r.value.(diff := "", added := 0, removed := 0) == cd
              && StatsOf(Strs.Split(r.value.diff, '\n')) == Stats(r.value.added, r.value.removed)
              && (Normalized(cd.baseYAML, decode, encode) == Normalized(cd.headYAML, decode, encode) ==> r.value == cd && !HasDiff(r.value))
    ensures var r := ComputeDiffSpec(cd, decode, encode, unified);
            r.Failure? ==> Normalized(cd.baseYAML, decode, encode) != Normalized(cd.headYAML, decode, encode)
  {
    EmptyDiffStats();
  }

  /** A component whose two renders are the same bytes (a nil render counting as empty) has no diff. */
  lemma SameRenderNoDiff(cd: ComponentDiff, decode: Bytes -> seq<Decoded<Node>>, encode: seq<Node> -> Option<Bytes>,
                         unified: DiffRequest -> Result<string, string>)
    requires cd.diff == "" && cd.baseYAML.GetOr([]) == cd.headYAML.GetOr([])
    ensures ComputeDiffSpec(cd, decode, encode, unified) == Success(cd)
    ensures !HasDiff(ComputeDiffSpec(cd, decode, encode, unified).value)
  {
  }

  /**
   * A component whose renders hold the same resources, differing only in how resources of
   * different keys are ordered, has no diff and the generator is never asked.
   */
  lemma ReorderOnlyNoDiff(cd: ComponentDiff, decode: Bytes -> seq<Decoded<Node>>, encode: seq<Node> -> Option<Bytes>,
                          unified: DiffRequest -> Result<string, string>)
    requires cd.diff == "" && cd.baseYAML.Some? && cd.headYAML.Some?
    requires var a, b := cd.baseYAML.value, cd.headYAML.value;
             |a| > 0 && |b| > 0
             && Normalize.Docs(decode(a)).Some? && Normalize.Docs(decode(b)).Some?
             && |Normalize.Docs(decode(a)).value| >= 2 && |Normalize.Docs(decode(b)).value| >= 2
             && (forall k :: Ordering.WithKey(Normalize.Docs(decode(a)).value, Normalize.DocKey, k)
                             == Ordering.WithKey(Normalize.Docs(decode(b)).value, Normalize.DocKey, k))
             && encode(Ordering.SortBy(Normalize.Docs(decode(a)).value, Normalize.DocKey)).Some?
    ensures ComputeDiffSpec(cd, decode, encode, unified) == Success(cd)
    ensures !HasDiff(ComputeDiffSpec(cd, decode, encode, unified).value)
  {
    Normalize.ReorderedRendersAgree(cd.baseYAML.value, cd.headYAML.value, decode, encode);
  }

  /** A nil render and an empty render are the same side: neither produces a diff against the other. */
  lemma NilIsEmpty(y: Option<Bytes>, decode: Bytes -> seq<Decoded<Node>>, encode: seq<Node> -> Option<Bytes>)
    requires y.None? || y == Some([])
    ensures Normalized(y, decode, encode) == ""
  {
  }

  /** The `*ComponentDiff` the engine builds and fills in place. */
  class Component {
    var path: string
    var clusterDir: string
    var env: Detector.Environment
    var baseYAML: Option<Bytes>
    var headYAML: Option<Bytes>
    var diff: string
    var added: int
    var removed: int
    var error: string

    /** The record `*cd` copies out. */
    function Value(): ComponentDiff
      reads this
    {
      ComponentDiff(path, clusterDir, env, baseYAML, headYAML, diff, added, removed, error)
    }

    /** `FromComponentPath` allocating the record. */
    constructor FromPath(cp: AppSet.ComponentPath, env: Detector.Environment)
      ensures Value() == FromComponentPath(cp, env)
    {
      path, clusterDir, this.env := cp.path, cp.clusterDir, env;
      baseYAML, headYAML := None, None;
      diff, added, removed, error := "", 0, 0, "";
    }

    /** `HasDiff`, on the record in place. */
    predicate Changed()
      reads this
    {
      HasDiff(Value())
    }

    /** `computeDiff`: fills in the diff and its counts, or returns the generator's error and changes nothing. */
    method ComputeDiff(decode: Bytes -> seq<Decoded<Node>>, encode: seq<Node> -> Option<Bytes>,
                       unified: DiffRequest -> Result<string, string>) returns (err: Option<string>)
      modifies this`diff, this`added, this`removed
      ensures var r := ComputeDiffSpec(old(Value()), decode, encode, unified);
              (r.Success? ==> err.None? && Value() == r.value)
              && (r.Failure? ==> err == Some(r.error) && Value() == old(Value()))
    {
      var baseYAMLNorm := Normalize.NormalizeYAML(baseYAML.GetOr([]), decode, encode);
      var headYAMLNorm := Normalize.NormalizeYAML(headYAML.GetOr([]), decode, encode);
      var baseStr, headStr := Text(baseYAMLNorm), Text(headYAMLNorm);
      assert baseStr == Normalized(baseYAML, decode, encode) && headStr == Normalized(headYAML, decode, encode);
      if baseStr == headStr {
        return None;
      }
      var text := unified(DiffRequest(baseStr, headStr, path + " (base)", path + " (head)", 3));
      if text.Failure? {
        assert ComputeDiffSpec(Value(), decode, encode, unified) == Failure(text.error);
        return Some(text.error);
      }
      ghost var st := StatsOf(Strs.Split(text.value, '\n'));
      assert ComputeDiffSpec(Value(), decode, encode, unified) == Success(Value().(diff := text.value, added := st.added, removed := st.removed));
      diff := text.value;
      added, removed := CountStats(text.value);
      return None;
    }
  }
}
