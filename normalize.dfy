/**
 * The YAML normalisation render diffs use (renderdiff/normalize.go): a multi-document stream is
 * decoded into document nodes, sorted stably by resource identity (apiVersion, kind, namespace,
 * name) and encoded again, so that two renders that differ only in resource order compare equal.
 * Whenever that cannot be done the input comes back unchanged.
 *
 * The YAML decoder and encoder are parameters: `decode` is the sequence of decoder calls on the
 * input (documents up to the end, or up to and including the first error), `encode` the encoder run
 * over a list of documents (None when some document fails to encode).
 */
module Normalize {
  import opened Wrappers
  import opened Yaml
  import Ordering

  /** The identity fields of a resource; a missing field is "". */
  datatype ResourceKey = ResourceKey(apiVersion: string, kind: string, namespace: string, name: string)

  const EmptyKey: ResourceKey := ResourceKey("", "", "", "")

  /** One key/value pair of `metadata`: a scalar `name` or `namespace` is taken. */
  function MetaStep(key: ResourceKey, k: Node, v: Node): ResourceKey {
    if k.kind != ScalarNode || v.kind != ScalarNode then key
    else if k.value == "name" then key.(name := v.value)
    else if k.value == "namespace" then key.(namespace := v.value)
    else key
  }

  /** The first `m` key/value pairs of a mapping's content, in order, through `MetaStep`. */
  function MetaScan(key: ResourceKey, content: seq<Node>, m: nat): ResourceKey
    requires 2 * m <= |content|
  {
    if m == 0 then key else MetaStep(MetaScan(key, content, m - 1), content[2 * m - 2], content[2 * m - 1])
  }

  /** One key/value pair of the document's mapping. */
  function TopStep(key: ResourceKey, k: Node, v: Node): ResourceKey {
    if k.kind != ScalarNode then key
    else if k.value == "apiVersion" then (if v.kind == ScalarNode then key.(apiVersion := v.value) else key)
    else if k.value == "kind" then (if v.kind == ScalarNode then key.(kind := v.value) else key)
    else if k.value == "metadata" then (if v.kind == MappingNode then MetaScan(key, v.content, |v.content| / 2) else key)
    else key
  }

  function TopScan(key: ResourceKey, content: seq<Node>, m: nat): ResourceKey
    requires 2 * m <= |content|
  {
    if m == 0 then key else TopStep(TopScan(key, content, m - 1), content[2 * m - 2], content[2 * m - 1])
  }

  /** The identity of a document node: empty unless it is a document whose root is a mapping. */
  function KeyOf(node: Node): ResourceKey {
    if node.kind != DocumentNode || |node.content| == 0 then EmptyKey
    else if node.content[0].kind != MappingNode then EmptyKey
    else TopScan(EmptyKey, node.content[0].content, |node.content[0].content| / 2)
  }

  /** The sort key: the four fields, compared in this order. */
  function DocKey(node: Node): seq<string> {
    var k := KeyOf(node);
    [k.apiVersion, k.kind, k.namespace, k.name]
  }

  /** The `metadata` loop of `extractKey`, which updates the key being built. */
  method ScanMetadata(key: ResourceKey, meta: Node) returns (r: ResourceKey)
    ensures r == MetaScan(key, meta.content, |meta.content| / 2)
  {
    r := key;
    var j := 0;
    while j + 1 < |meta.content|
      invariant j % 2 == 0 && j <= |meta.content|
      invariant r == MetaScan(key, meta.content, j / 2)
    {
      var mk, mv := meta.content[j], meta.content[j + 1];
      if mk.kind == ScalarNode && mv.kind == ScalarNode {
        if mk.value == "name" {
          r := r.(name := mv.value);
        } else if mk.value == "namespace" {
          r := r.(namespace := mv.value);
        }
      }
      j := j + 2;
    }
  }

  /** `extractKey`: walk the root mapping's pairs; a later pair overrides an earlier one. */
  method ExtractKey(node: Node) returns (key: ResourceKey)
    ensures key == KeyOf(node)
  {
    if node.kind != DocumentNode || |node.content| == 0 {
      return EmptyKey;
    }
    var mapping := node.content[0];
    if mapping.kind != MappingNode {
      return EmptyKey;
    }
    key := EmptyKey;
    var i := 0;
    while i + 1 < |mapping.content|
      invariant i % 2 == 0 && i <= |mapping.content|
      invariant key == TopScan(EmptyKey, mapping.content, i / 2)
    {
      var k, v := mapping.content[i], mapping.content[i + 1];
      if k.kind == ScalarNode {
        if k.value == "apiVersion" {
          if v.kind == ScalarNode {
            key := key.(apiVersion := v.value);
          }
        } else if k.value == "kind" {
          if v.kind == ScalarNode {
            key := key.(kind := v.value);
          }
        } else if k.value == "metadata" {
          if v.kind == MappingNode {
            key := ScanMetadata(key, v);
          }
        }
      }
      i := i + 2;
    }
  }

  /** A pair of a mapping's content: scalar key `name` with a scalar value `value`. */
  predicate ScalarPair(content: seq<Node>, i: int, name: string, value: string) {
    0 <= i && 2 * i + 1 < |content|
    && content[2 * i].kind == ScalarNode && content[2 * i].value == name
    && content[2 * i + 1].kind == ScalarNode && content[2 * i + 1].value == value
  }

  /** A pair of the root mapping: scalar key "metadata" with a mapping value. */
  predicate MetadataPair(content: seq<Node>, i: int) {
    0 <= i && 2 * i + 1 < |content|
    && content[2 * i].kind == ScalarNode && content[2 * i].value == "metadata"
    && content[2 * i + 1].kind == MappingNode
  }

  /** The `metadata` walk sets only `name` and `namespace`. */
  lemma {:induction false} MetaScanKeeps(key: ResourceKey, content: seq<Node>, m: nat)
    requires 2 * m <= |content|
    ensures MetaScan(key, content, m).apiVersion == key.apiVersion && MetaScan(key, content, m).kind == key.kind
  {
    if m > 0 {
      MetaScanKeeps(key, content, m - 1);
    }
  }

  /** `apiVersion` and `kind` only ever come from scalar pairs of the root mapping. */
  lemma {:induction false} TopScanSource(key: ResourceKey, content: seq<Node>, m: nat)
    requires 2 * m <= |content|
    ensures TopScan(key, content, m).apiVersion == key.apiVersion
            || exists i :: 0 <= i < m && ScalarPair(content, i, "apiVersion", TopScan(key, content, m).apiVersion)
    ensures TopScan(key, content, m).kind == key.kind
            || exists i :: 0 <= i < m && ScalarPair(content, i, "kind", TopScan(key, content, m).kind)
  {
    if m > 0 {
      TopScanSource(key, content, m - 1);
      var prev := TopScan(key, content, m - 1);
      var cur := TopScan(key, content, m);
      var k, v := content[2 * m - 2], content[2 * m - 1];
      assert cur == TopStep(prev, k, v);
      if v.kind == MappingNode {
        MetaScanKeeps(prev, v.content, |v.content| / 2);
      }
      if cur.apiVersion != prev.apiVersion {
        assert ScalarPair(content, m - 1, "apiVersion", cur.apiVersion);
      } else if cur.apiVersion != key.apiVersion {
        var i :| 0 <= i < m - 1 && ScalarPair(content, i, "apiVersion", prev.apiVersion);
        assert ScalarPair(content, i, "apiVersion", cur.apiVersion);
      }
      if cur.kind != prev.kind {
        assert ScalarPair(content, m - 1, "kind", cur.kind);
      } else if cur.kind != key.kind {
        var i :| 0 <= i < m - 1 && ScalarPair(content, i, "kind", prev.kind);
        assert ScalarPair(content, i, "kind", cur.kind);
      }
    }
  }

  /** Without a mapping-valued `metadata` pair, `name` and `namespace` keep their values. */
  lemma {:induction false} TopScanNoMetadata(key: ResourceKey, content: seq<Node>, m: nat)
    requires 2 * m <= |content|
    requires forall i :: 0 <= i < m ==> !MetadataPair(content, i)
    ensures TopScan(key, content, m).name == key.name && TopScan(key, content, m).namespace == key.namespace
  {
    if m > 0 {
      TopScanNoMetadata(key, content, m - 1);
      assert !MetadataPair(content, m - 1);
    }
  }

  /**
   * Key fields that are missing or not scalars stay "": a non-empty apiVersion (kind) comes from a
   * scalar pair of the root mapping, and name and namespace are read only from a mapping-valued
   * `metadata`.
   */
  lemma KeyDefaults(node: Node)
    ensures KeyOf(node).apiVersion != "" ==>
              node.kind == DocumentNode && |node.content| > 0 && node.content[0].kind == MappingNode
              && exists i :: ScalarPair(node.content[0].content, i, "apiVersion", KeyOf(node).apiVersion)
    ensures KeyOf(node).kind != "" ==>
              node.kind == DocumentNode && |node.content| > 0 && node.content[0].kind == MappingNode
              && exists i :: ScalarPair(node.content[0].content, i, "kind", KeyOf(node).kind)
    ensures (KeyOf(node).name != "" || KeyOf(node).namespace != "") ==>
              node.kind == DocumentNode && |node.content| > 0 && node.content[0].kind == MappingNode
              && exists i :: MetadataPair(node.content[0].content, i)
  {
    if node.kind == DocumentNode && |node.content| > 0 && node.content[0].kind == MappingNode {
      var content := node.content[0].content;
      TopScanSource(EmptyKey, content, |content| / 2);
      if !exists i :: MetadataPair(content, i) {
        TopScanNoMetadata(EmptyKey, content, |content| / 2);
      }
    }
  }

  /** The documents of a decoder run, or None when it stopped at an error. */
  function Docs(stream: seq<Decoded<Node>>): (r: Option<seq<Node>>)
    ensures r.Some? <==> forall i :: 0 <= i < |stream| ==> stream[i].Doc?
    ensures r.Some? ==> |r.value| == |stream| && forall i :: 0 <= i < |stream| ==> r.value[i] == stream[i].doc
  {
    if |stream| == 0 then Some([])
    else match Docs(stream[..|stream| - 1])
      case None => None
      case Some(ds) => if stream[|stream| - 1].Malformed? then None else Some(ds + [stream[|stream| - 1].doc])
  }

  /** The decoder run that reads back exactly these documents. */
  function AsStream(docs: seq<Node>): (r: seq<Decoded<Node>>)
    ensures |r| == |docs| && forall i :: 0 <= i < |docs| ==> r[i] == Doc(docs[i])
  {
    seq(|docs|, i requires 0 <= i < |docs| => Doc(docs[i]))
  }

  /** What `normalizeYAML` returns. */
  function NormalizeSpec(input: Bytes, decode: Bytes -> seq<Decoded<Node>>, encode: seq<Node> -> Option<Bytes>): Bytes {
    if |input| == 0 then input
    else match Docs(decode(input))
      case None => input
      case Some(docs) =>
        if |docs| <= 1 then input
        else match encode(Ordering.SortBy(docs, DocKey))
          case None => input
          case Some(out) => out
  }

  /**
   * The output differs from the input only when the input is non-empty, decodes into two or more
   * documents, and the encoder wrote those documents in key order; every other path returns the input.
   */
  lemma NormalizeChangesOnlyBySorting(input: Bytes, decode: Bytes -> seq<Decoded<Node>>, encode: seq<Node> -> Option<Bytes>)
    ensures NormalizeSpec(input, decode, encode) != input ==>
      |input| > 0 && Docs(decode(input)).Some? && |Docs(decode(input)).value| >= 2
      && encode(Ordering.SortBy(Docs(decode(input)).value, DocKey)) == Some(NormalizeSpec(input, decode, encode))
  {
  }

  /**
   * `normalizeYAML`: empty input, a decode error, at most one document and an encode error all
   * return the input; otherwise the documents are encoded in stable key order.
   */
  method NormalizeYAML(input: Bytes, decode: Bytes -> seq<Decoded<Node>>, encode: seq<Node> -> Option<Bytes>)
    returns (r: Bytes)
    ensures r == NormalizeSpec(input, decode, encode)
  {
    if |input| == 0 {
      return input;
    }
    var stream := decode(input);
    var docs: seq<Node> := [];
    for i := 0 to |stream|
      invariant Docs(stream[..i]) == Some(docs)
    {
      assert stream[..i + 1][..i] == stream[..i];
      if stream[i].Malformed? {
        FailureStays(stream, i + 1);
        return input;
      }
      docs := docs + [stream[i].doc];
    }
    assert stream[..|stream|] == stream;
    if |docs| <= 1 {
      return input;
    }
    var sorted := Ordering.SortBy(docs, DocKey);
    var out := encode(sorted);
    if out.None? {
      return input;
    }
    return out.value;
  }

  /** A decoder run that failed within its first `n` calls fails as a whole. */
  lemma {:induction false} FailureStays(stream: seq<Decoded<Node>>, n: nat)
    requires n <= |stream| && Docs(stream[..n]).None?
    ensures Docs(stream).None?
  {
  }

  /**
   * Whenever the documents are reordered, the output documents are the input documents, as many
   * times each, sorted by key, with documents of equal key in their input order.
   */
  lemma NormalizedDocs(docs: seq<Node>)
    ensures multiset(Ordering.SortBy(docs, DocKey)) == multiset(docs)
    ensures Ordering.Sorted(Ordering.SortBy(docs, DocKey), DocKey)
    ensures forall k :: Ordering.WithKey(Ordering.SortBy(docs, DocKey), DocKey, k) == Ordering.WithKey(docs, DocKey, k)
  {
    Ordering.SortByPermutation(docs, DocKey);
    Ordering.SortBySorted(docs, DocKey);
    forall k ensures Ordering.WithKey(Ordering.SortBy(docs, DocKey), DocKey, k) == Ordering.WithKey(docs, DocKey, k) {
      Ordering.SortByStable(docs, DocKey, k);
    }
  }

  /**
   * Two renders that hold the same documents under each key, in the same relative order, but
   * interleave documents of different keys differently, normalise to the same output whenever the
   * encoder succeeds: resource reordering between builds is not a difference.
   */
  lemma ReorderedRendersAgree(a: Bytes, b: Bytes, decode: Bytes -> seq<Decoded<Node>>, encode: seq<Node> -> Option<Bytes>)
    requires |a| > 0 && |b| > 0
    requires Docs(decode(a)).Some? && Docs(decode(b)).Some?
    requires |Docs(decode(a)).value| >= 2 && |Docs(decode(b)).value| >= 2
    requires forall k :: Ordering.WithKey(Docs(decode(a)).value, DocKey, k) == Ordering.WithKey(Docs(decode(b)).value, DocKey, k)
    requires encode(Ordering.SortBy(Docs(decode(a)).value, DocKey)).Some?
    ensures NormalizeSpec(a, decode, encode) == NormalizeSpec(b, decode, encode)
  {
    Ordering.SortByKeysDetermined(Docs(decode(a)).value, Docs(decode(b)).value, DocKey);
  }

  /**
   * Normalising twice is normalising once, given that the YAML library reads back what it wrote
   * (a non-empty stream holding the same documents).
   */
  lemma NormalizeIdempotent(input: Bytes, decode: Bytes -> seq<Decoded<Node>>, encode: seq<Node> -> Option<Bytes>)
    requires forall docs :: |docs| >= 2 && encode(docs).Some? ==>
               |encode(docs).value| > 0 && decode(encode(docs).value) == AsStream(docs)
    ensures NormalizeSpec(NormalizeSpec(input, decode, encode), decode, encode) == NormalizeSpec(input, decode, encode)
  {
    var out := NormalizeSpec(input, decode, encode);
    if out != input {
      var docs := Docs(decode(input)).value;
      var sorted := Ordering.SortBy(docs, DocKey);
      Ordering.SortByPermutation(docs, DocKey);
      assert encode(sorted) == Some(out);
      ReadBack(sorted, decode, encode);
      Ordering.SortByIdempotent(docs, DocKey);
    }
  }

  /** What the encoder wrote for two or more documents decodes to those documents. */
  lemma ReadBack(docs: seq<Node>, decode: Bytes -> seq<Decoded<Node>>, encode: seq<Node> -> Option<Bytes>)
    requires forall docs :: |docs| >= 2 && encode(docs).Some? ==>
               |encode(docs).value| > 0 && decode(encode(docs).value) == AsStream(docs)
    requires |docs| >= 2 && encode(docs).Some?
    ensures |encode(docs).value| > 0 && Docs(decode(encode(docs).value)) == Some(docs)
  {
    var ds := Docs(AsStream(docs));
    assert ds.value == docs;
  }
}
