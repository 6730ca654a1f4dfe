/**
 * The two views of YAML the system reads. The YAML library itself (gopkg.in/yaml.v3) is not part
 * of this model: its decoders and encoder are passed to the operations that use them as function
 * values, and only the trees they produce are modelled.
 */
module Yaml {
  import opened Wrappers

  /** A rendered manifest or build output: an opaque byte string. */
  newtype byte = x: int | 0 <= x < 256

  type Bytes = seq<byte>

  /**
   * A document decoded into Go's `interface{}`: mappings whose keys are all strings become
   * `Map`; scalars other than strings, mappings with other keys and aliases are `Other`.
   */
  datatype Value =
    | Null
    | Str(s: string)
    | Map(m: map<string, Value>)
    | List(items: seq<Value>)
    | Other

  /** The kinds of a `yaml.Node`. */
  datatype NodeKind = DocumentNode | SequenceNode | MappingNode | ScalarNode | AliasNode

  /**
   * A `yaml.Node`: its kind, its scalar text and its children (a mapping lists key and value
   * nodes alternately; a document holds its root node).
   */
  datatype Node = Node(kind: NodeKind, value: string, content: seq<Node>)

  /**
   * One call of a streaming decoder: either the next document, or an error, after which the
   * caller stops. A stream is the sequence of these calls up to the end of input (`io.EOF`) or
   * up to and including the first error.
   */
  datatype Decoded<D> = Doc(doc: D) | Malformed(msg: string)

  /** `m[k].(map[string]interface{})`, with None for a missing key or another type. */
  function GetMap(m: map<string, Value>, k: string): Option<map<string, Value>> {
    if k in m && m[k].Map? then Some(m[k].m) else None
  }

  /** `m[k].(string)`, with None for a missing key or another type. */
  function GetStr(m: map<string, Value>, k: string): Option<string> {
    if k in m && m[k].Str? then Some(m[k].s) else None
  }

  /** `v, _ := m[k].([]interface{})`: the items, or nil (empty) when absent or of another type. */
  function GetList(m: map<string, Value>, k: string): seq<Value> {
    if k in m && m[k].List? then m[k].items else []
  }

  /** `v, _ := m[k].(map[string]interface{})`: the mapping, or a nil (empty) map. */
  function GetMapOrEmpty(m: map<string, Value>, k: string): map<string, Value> {
    if k in m && m[k].Map? then m[k].m else map[]
  }
}
