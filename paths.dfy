/**
 * Slash-separated paths as Go's `path/filepath` treats them on a Unix system: `Clean`, `Join`
 * and `Rel`. Absolute paths that have already been cleaned are also handled as sequences of
 * segments (`Path`), which is how the kustomize dependency walk keeps its directories.
 */
module Paths {
  import Strs

  /** A cleaned absolute path as its segments below "/": no segment is "", "." or ".." or holds '/'. */
  type Path = seq<string>

  predicate Segment(s: string) {
    s != "" && s != "." && s != ".." && '/' !in s
  }

  predicate CleanSegments(p: seq<string>) {
    forall i :: 0 <= i < |p| ==> Segment(p[i])
  }

  /**
   * Lexical processing of one element, as `filepath.Clean` does it: "" and "." vanish, ".."
   * removes the previous name (at the root of a rooted path it vanishes; in a relative path with
   * nothing left to remove it is kept).
   */
  function Step(stack: seq<string>, seg: string, rooted: bool): seq<string> {
    if seg == "" || seg == "." then stack
    else if seg == ".." then
      if |stack| > 0 && stack[|stack| - 1] != ".." then stack[..|stack| - 1]
      else if rooted then stack
      else stack + [".."]
    else stack + [seg]
  }

  function Normalize(stack: seq<string>, segs: seq<string>, rooted: bool): seq<string>
    decreases |segs|
  {
    if |segs| == 0 then stack else Normalize(Step(stack, segs[0], rooted), segs[1..], rooted)
  }

  /** Segments a stack may hold: never "" or "." or a '/', and never ".." when rooted. */
  predicate StackSegments(stack: seq<string>, rooted: bool) {
    forall i :: 0 <= i < |stack| ==> stack[i] != "" && stack[i] != "." && '/' !in stack[i] && (rooted ==> stack[i] != "..")
  }

  lemma StepClean(stack: seq<string>, seg: string, rooted: bool)
    requires StackSegments(stack, rooted) && '/' !in seg
    ensures StackSegments(Step(stack, seg, rooted), rooted)
  {
    assert '/' !in "..";
  }

  /** Normalizing keeps a stack's segments clean. */
  lemma {:induction false} NormalizeClean(stack: seq<string>, segs: seq<string>, rooted: bool)
    requires StackSegments(stack, rooted)
    requires forall i :: 0 <= i < |segs| ==> '/' !in segs[i]
    ensures StackSegments(Normalize(stack, segs, rooted), rooted)
    decreases |segs|
  {
    if |segs| > 0 {
      StepClean(stack, segs[0], rooted);
      NormalizeClean(Step(stack, segs[0], rooted), segs[1..], rooted);
    }
  }

  /** `filepath.Clean`: the shortest lexically equivalent path; "." for an empty result. */
  function Clean(s: string): string {
    var rooted := |s| > 0 && s[0] == '/';
    var segs := Normalize([], Strs.Split(s, '/'), rooted);
    if rooted then "/" + Strs.Join(segs, "/")
    else if segs == [] then "."
    else Strs.Join(segs, "/")
  }

  /** `filepath.Ext`: the final element's suffix from its last '.', or "" when it has none. */
  function Ext(p: string): (r: string)
    ensures |r| <= |p| && r == p[|p| - |r|..]
    ensures r == "" || (r[0] == '.' && '/' !in r && '.' !in r[1..])
  {
    if |p| == 0 || p[|p| - 1] == '/' then ""
    else if p[|p| - 1] == '.' then "."
    else
      var e := Ext(p[..|p| - 1]);
      if e == "" then "" else e + [p[|p| - 1]]
  }

  /** `filepath.Join(a, b)`: the non-empty elements joined by "/" and cleaned; "" if both are empty. */
  function Join(a: string, b: string): string {
    if a == "" && b == "" then ""
    else if a == "" then Clean(b)
    else if b == "" then Clean(a)
    else Clean(a + "/" + b)
  }

  /** `filepath.Join(dir, rel)` for a cleaned absolute directory. */
  function JoinPath(dir: Path, rel: string): (r: Path)
    requires CleanSegments(dir)
    ensures CleanSegments(r)
  {
    var r := Normalize(dir, Strs.Split(rel, '/'), true);
    NormalizeClean(dir, Strs.Split(rel, '/'), true);
    r
  }

  /** Length of the longest common prefix of two segment sequences. */
  function CommonPrefix(a: seq<string>, b: seq<string>): (n: nat)
    ensures n <= |a| && n <= |b| && a[..n] == b[..n]
    ensures n < |a| && n < |b| ==> a[n] != b[n]
  {
    if |a| == 0 || |b| == 0 || a[0] != b[0] then 0
    else
      var n := CommonPrefix(a[1..], b[1..]);
      assert a[..n + 1] == [a[0]] + a[1..][..n];
      assert b[..n + 1] == [b[0]] + b[1..][..n];
      n + 1
  }

  /**
   * `filepath.Rel(root, p)` for two cleaned absolute paths (which never fails): one ".." per
   * segment of `root` below the common prefix, then the rest of `p`; "." when they are equal.
   */
  function Rel(root: Path, p: Path): string {
    var n := CommonPrefix(root, p);
    var parts := seq(|root| - n, _ => "..") + p[n..];
    if parts == [] then "." else Strs.Join(parts, "/")
  }

  lemma {:induction false} CommonPrefixExtension(root: seq<string>, rest: seq<string>)
    ensures CommonPrefix(root, root + rest) >= |root|
    decreases |root|
  {
    if |root| > 0 {
      assert (root + rest)[1..] == root[1..] + rest;
      CommonPrefixExtension(root[1..], rest);
    }
  }

  /** Below the root, `Rel` is the path's own segments joined by "/". */
  lemma RelBelow(root: Path, rest: seq<string>)
    requires |rest| > 0
    ensures Rel(root, root + rest) == Strs.Join(rest, "/")
  {
    var p := root + rest;
    CommonPrefixExtension(root, rest);
    var n := CommonPrefix(root, p);
    assert n == |root|;
    var ups: seq<string> := seq(|root| - n, _ => "..");
    assert ups == [];
    assert p[n..] == rest;
    assert ups + p[n..] == rest;
  }
}
