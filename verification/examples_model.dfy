/** Examples are JSON-like records: a map from field names to values. */
module Examples {
  import opened Wrappers

  /** A host-language float. The model never orders or computes with one. */
  type Float64(==)

  datatype Value =
    | Null
    | Bool(b: bool)
    | Int(i: int)
    | Float(f: Float64)
    | Str(s: string)
    | List(elems: seq<Value>)
    | Object(fields: map<string, Value>)

  type Example = map<string, Value>

  const InputHashKey: string := "_input_hash"
  const TaskHashKey: string := "_task_hash"
  const HashKeys: set<string> := {InputHashKey, TaskHashKey}

  /** The two content hashes Prodigy's `set_hashes` computes, left uninterpreted. */
  datatype Hasher = Hasher(input: Example -> int, task: Example -> int)

  /** An example with its hash fields taken away: what `set_hashes` must not touch. */
  function Unhashed(eg: Example): map<string, Value>
  {
    eg - HashKeys
  }

  predicate HasHashes(eg: Example)
  {
    HashKeys <= eg.Keys
  }

  /** `set_hashes`: adds the two hash fields and changes nothing else. */
  function SetHashes(h: Hasher, eg: Example): (r: Example)
    ensures HasHashes(r)
    ensures r.Keys == eg.Keys + HashKeys
    ensures Unhashed(r) == Unhashed(eg)
  {
    var withInput := eg[InputHashKey := Int(h.input(eg))];
    withInput[TaskHashKey := Int(h.task(withInput))]
  }

  /** `add_hashes`: `set_hashes` on every example of a stream, in order. */
  function AddHashes(h: Hasher, egs: seq<Example>): (r: seq<Example>)
    ensures |r| == |egs|
    ensures forall i :: 0 <= i < |r| ==> HasHashes(r[i]) && Unhashed(r[i]) == Unhashed(egs[i])
  {
    seq(|egs|, i requires 0 <= i < |egs| => SetHashes(h, egs[i]))
  }
}
