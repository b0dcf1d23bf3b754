/** `ApproximateIndex`: the in-memory example list bound to an hnswlib index,
    building the index in batches and answering queries by joining neighbour
    labels back to the stored examples. */
module AnnIndex {
  import opened Wrappers
  import opened Examples
  import opened Batching
  import opened Hnsw

  /** The foreign collaborators, left uninterpreted: the sentence-transformer
      (applied per example and to a query string), hnswlib's search and
      Prodigy's hash functions. */
  datatype Oracles = Oracles(
    encode: Example -> Vector,
    encodeQuery: string -> Vector,
    search: (seq<Vector>, Vector, nat) -> seq<Hit>,
    hasher: Hasher)

  /** `self.examples` and `self.index`. */
  datatype Approx = Approx(examples: seq<Example>, index: Index)
  {
    /** The index was opened with `max_elements=len(self.examples)`. */
    predicate Valid()
    {
      index.Valid() && index.capacity == |examples|
    }
  }

  const BuildBatchSize: nat := 256

  /** `stream.apply(func)` for each func, in list order. */
  function Pipeline(funcs: seq<seq<Example> -> seq<Example>>, egs: seq<Example>): seq<Example>
    decreases |funcs|
  {
    if funcs == [] then egs else Pipeline(funcs[1..], funcs[0](egs))
  }

  /** `ApproximateIndex.__init__` without an index path: the source goes
      through the stream functions, then `add_hashes`, and a fresh index is
      created whose capacity is the number of examples. */
  function Create(source: seq<Example>, funcs: seq<seq<Example> -> seq<Example>>, h: Hasher): (r: Approx)
    ensures r.Valid() && |r.index.vectors| == 0
    ensures |r.examples| == |Pipeline(funcs, source)|
    ensures forall i :: 0 <= i < |r.examples| ==>
              HasHashes(r.examples[i]) && Unhashed(r.examples[i]) == Unhashed(Pipeline(funcs, source)[i])
  {
    var egs := AddHashes(h, Pipeline(funcs, source));
    Approx(egs, InitIndex(|egs|))
  }

  /** `model.encode(batch)`: one vector per example, element-wise. */
  function Embed(encode: Example -> Vector, egs: seq<Example>): (r: seq<Vector>)
    ensures |r| == |egs|
  {
    seq(|egs|, i requires 0 <= i < |egs| => encode(egs[i]))
  }

  /** The loop of `build_index` for an arbitrary batch size: each batch is
      encoded and handed to `add_items`. Whatever the batch size, the index
      ends up holding the embeddings of all items, in item order, after the
      vectors it already had; it fails exactly when they do not fit. */
  method AddInBatches(idx: Index, items: seq<Example>, encode: Example -> Vector, batchSize: int)
    returns (r: Result<Index, Error>)
    requires idx.Valid()
    ensures batchSize < 1 ==> r == Failure(BatchSizeBelowOne)
    ensures batchSize >= 1 ==> (r.Success? <==> |idx.vectors| + |items| <= idx.capacity)
    ensures batchSize >= 1 && r.Failure? ==> r.error == CapacityExceeded
    ensures r.Success? ==> r.value.Valid() && r.value.capacity == idx.capacity
    ensures r.Success? ==> r.value.vectors == idx.vectors + Embed(encode, items)
  {
    var batched := Batched(items, batchSize);
    if batched.Failure? {
      return Failure(batched.error);
    }
    var batches := batched.value;
    var cur := idx;
    var k := 0;
    var pos := 0;
    while k < |batches|
      invariant 0 <= k <= |batches|
      invariant 0 <= pos <= |items|
      invariant items[..pos] == Flatten(batches[..k])
      invariant cur.Valid() && cur.capacity == idx.capacity
      invariant cur.vectors == idx.vectors + Embed(encode, items[..pos])
    {
      var batch := batches[k];
      BatchStep(items, batches, k, pos, encode);
      var next := AddItems(cur, Embed(encode, batch));
      if next.Failure? {
        return Failure(next.error);
      }
      AppendAssoc(idx.vectors, Embed(encode, items[..pos]), Embed(encode, batch));
      cur := next.value;
      pos := pos + |batch|;
      k := k + 1;
    }
    assert batches[..k] == batches;
    assert items[..pos] == items;
    r := Success(cur);
  }

  lemma AppendAssoc<T>(a: seq<T>, b: seq<T>, c: seq<T>)
    ensures (a + b) + c == a + (b + c)
  {
  }

  /** One more batch extends the consumed prefix of the items by that batch,
      and its embeddings extend the embeddings of the prefix. */
  lemma BatchStep(items: seq<Example>, batches: seq<seq<Example>>, k: nat, pos: nat, encode: Example -> Vector)
    requires Flatten(batches) == items && k < |batches|
    requires pos <= |items| && items[..pos] == Flatten(batches[..k])
    ensures pos + |batches[k]| <= |items|
    ensures items[..pos + |batches[k]|] == Flatten(batches[..k + 1])
    ensures Embed(encode, items[..pos + |batches[k]|]) == Embed(encode, items[..pos]) + Embed(encode, batches[k])
  {
    BatchPrefix(items, batches, k);
    EmbedAppend(encode, items[..pos], batches[k]);
  }

  /** The first k + 1 batches are a prefix of the items they were cut from. */
  lemma BatchPrefix(items: seq<Example>, batches: seq<seq<Example>>, k: nat)
    requires Flatten(batches) == items && k < |batches|
    ensures Flatten(batches[..k]) + batches[k] == Flatten(batches[..k + 1])
    ensures |Flatten(batches[..k + 1])| <= |items|
    ensures items[..|Flatten(batches[..k + 1])|] == Flatten(batches[..k + 1])
  {
    FlattenAppend(batches[..k], [batches[k]]);
    assert batches[..k] + [batches[k]] == batches[..k + 1];
    assert Flatten([batches[k]]) == batches[k] + Flatten([]);
    FlattenAppend(batches[..k + 1], batches[k + 1..]);
    assert batches[..k + 1] + batches[k + 1..] == batches;
  }

  lemma EmbedAppend(encode: Example -> Vector, a: seq<Example>, b: seq<Example>)
    ensures Embed(encode, a + b) == Embed(encode, a) + Embed(encode, b)
  {
  }

  /** `build_index`: all examples, in batches of 256. On the fresh index
      `__init__` creates, vector i is the embedding of example i and the
      capacity is filled exactly; on an index that already holds vectors the
      capacity is exceeded. */
  method BuildIndex(a: Approx, encode: Example -> Vector) returns (r: Result<Approx, Error>)
    requires a.Valid()
    ensures r.Success? <==> |a.index.vectors| == 0
    ensures r.Failure? ==> r.error == CapacityExceeded
    ensures r.Success? ==> r.value.Valid() && r.value.examples == a.examples
    ensures r.Success? ==> |r.value.index.vectors| == r.value.index.capacity == |a.examples|
    ensures r.Success? ==> forall i :: 0 <= i < |a.examples| ==> r.value.index.vectors[i] == encode(a.examples[i])
  {
    var added := AddInBatches(a.index, a.examples, encode, BuildBatchSize);
    if added.Failure? {
      return Failure(added.error);
    }
    r := Success(Approx(a.examples, added.value));
  }

  /** An index built from the examples: label i holds the embedding of example i. */
  predicate Built(a: Approx, encode: Example -> Vector)
  {
    && a.Valid()
    && |a.index.vectors| == |a.examples|
    && forall i :: 0 <= i < |a.examples| ==> a.index.vectors[i] == encode(a.examples[i])
  }

  /** The indexing recipes: `ApproximateIndex(...)` without an index path,
      then `build_index()`. This never runs out of capacity, and it leaves
      every example joined to its own embedding by its position. */
  method IndexExamples(source: seq<Example>, funcs: seq<seq<Example> -> seq<Example>>, o: Oracles)
    returns (r: Approx)
    ensures Built(r, o.encode)
    ensures r.examples == Create(source, funcs, o.hasher).examples
  {
    var created := Create(source, funcs, o.hasher);
    var built := BuildIndex(created, o.encode);
    r := built.value;
  }

  // ---------------------------------------------------------------------------
  // Queries

  /** The meta keys a query writes. */
  const StampKeys: set<string> := {"index", "distance", "query"}

  /** `ex['meta'][...] = ...` works: meta is absent or a mapping. */
  predicate MetaOk(eg: Example)
  {
    "meta" !in eg || eg["meta"].Object?
  }

  /** The meta mapping an example carries, empty when there is none. */
  function MetaOf(eg: Example): map<string, Value>
  {
    if "meta" in eg && eg["meta"].Object? then eg["meta"].fields else map[]
  }

  /** All fields of an example but meta and the hashes: what it is about. */
  function Content(eg: Example): map<string, Value>
  {
    Unhashed(eg) - {"meta"}
  }

  /** The query recorded in an example's meta, if any. */
  function QueryOf(eg: Example): Option<Value>
  {
    if "query" in MetaOf(eg) then Some(MetaOf(eg)["query"]) else None
  }

  /** ex' is ex answered for `query` by neighbour `hit`: its meta gains the
      label, the distance and the query, keeps every other meta entry, and
      nothing else but the hashes changes. */
  predicate Stamped(ex': Example, ex: Example, hit: Hit, query: string)
  {
    && "meta" in ex' && ex'["meta"].Object?
    && MetaOf(ex').Keys == MetaOf(ex).Keys + StampKeys
    && MetaOf(ex')["index"] == Int(hit.id)
    && MetaOf(ex')["distance"] == Float(hit.distance)
    && MetaOf(ex')["query"] == Str(query)
    && (forall k :: k in MetaOf(ex) && k !in StampKeys ==> MetaOf(ex')[k] == MetaOf(ex)[k])
    && Content(ex') == Content(ex)
  }

  /** The body of the `new_stream` loop for one neighbour: the meta keys are
      written and the hashes set. A meta that is not a mapping raises. */
  function Annotate(ex: Example, hit: Hit, query: string, h: Hasher): (r: Result<Example, Error>)
    ensures r.Success? <==> MetaOk(ex)
    ensures r.Failure? ==> r.error == MetaNotAMapping
  {
    var meta := if "meta" in ex then ex["meta"] else Object(map[]);
    if !meta.Object? then Failure(MetaNotAMapping)
    else
      var fields := meta.fields["index" := Int(hit.id)]["distance" := Float(hit.distance)]["query" := Str(query)];
      Success(SetHashes(h, ex["meta" := Object(fields)]))
  }

  /** What a successful annotation writes: the stamp, and the hashes. */
  lemma AnnotateStamps(ex: Example, hit: Hit, query: string, h: Hasher)
    requires MetaOk(ex)
    ensures Stamped(Annotate(ex, hit, query, h).value, ex, hit, query)
    ensures HasHashes(Annotate(ex, hit, query, h).value)
  {
    var meta := if "meta" in ex then ex["meta"] else Object(map[]);
    var fields := meta.fields["index" := Int(hit.id)]["distance" := Float(hit.distance)]["query" := Str(query)];
    var ex' := SetHashes(h, ex["meta" := Object(fields)]);
    assert MetaOf(ex') == fields;
    assert Content(ex') == Content(ex) by {
      assert Unhashed(ex') == Unhashed(ex["meta" := Object(fields)]);
    }
  }

  /** A run of the `new_stream` generator: the stored examples afterwards,
      what was yielded, and the exception that ended it, if any. */
  datatype Queried = Queried(store: seq<Example>, items: seq<Example>, error: Option<Error>)

  /** Store and labels fit together: every label is a position of the store,
      and no label is returned twice. */
  predicate Joinable(store: seq<Example>, hits: seq<Hit>)
  {
    DistinctIds(hits) && forall j :: 0 <= j < |hits| ==> hits[j].id < |store|
  }

  /** The `new_stream` loop over the neighbours: each example is annotated,
      written back into the store in place, and yielded. */
  function Yield(store: seq<Example>, hits: seq<Hit>, query: string, h: Hasher): (r: Queried)
    requires Joinable(store, hits)
    ensures |r.store| == |store| && |r.items| <= |hits|
    ensures r.error.None? ==> |r.items| == |hits|
    ensures r.error.Some? ==> r.error.value == MetaNotAMapping && |r.items| < |hits|
    decreases |hits|
  {
    if hits == [] then Queried(store, [], None)
    else
      var id := hits[0].id;
      match Annotate(store[id], hits[0], query, h)
      case Failure(e) => Queried(store, [], Some(e))
      case Success(ex) =>
        JoinableTail(store, hits, ex);
        var rest := Yield(store[id := ex], hits[1..], query, h);
        Queried(rest.store, [ex] + rest.items, rest.error)
  }

  /** Writing the first label's example keeps the rest joinable, and leaves
      the examples at the other labels as they were. */
  lemma JoinableTail(store: seq<Example>, hits: seq<Hit>, ex: Example)
    requires Joinable(store, hits) && hits != []
    ensures Joinable(store[hits[0].id := ex], hits[1..])
    ensures forall j :: 0 <= j < |hits| - 1 ==>
              hits[1..][j].id != hits[0].id && store[hits[0].id := ex][hits[1..][j].id] == store[hits[1..][j].id]
  {
    assert forall j :: 0 <= j < |hits| - 1 ==> hits[1..][j] == hits[j + 1];
  }

  /** The first k neighbours all have a stored meta that can be written. */
  predicate MetaOkUpTo(store: seq<Example>, hits: seq<Hit>, k: nat)
    requires k <= |hits| && forall j :: 0 <= j < |hits| ==> hits[j].id < |store|
  {
    forall j :: 0 <= j < k ==> MetaOk(store[hits[j].id])
  }

  /** The run stops exactly at the first neighbour whose stored meta is not a
      mapping, and only there. */
  lemma {:induction false} YieldStopsAtBadMeta(store: seq<Example>, hits: seq<Hit>, query: string, h: Hasher)
    requires Joinable(store, hits)
    ensures var r := Yield(store, hits, query, h);
            && MetaOkUpTo(store, hits, |r.items|)
            && (r.error.Some? ==> !MetaOk(store[hits[|r.items|].id]))
            && (r.error.None? <==> MetaOkUpTo(store, hits, |hits|))
    decreases |hits|
  {
    if hits != [] {
      var id := hits[0].id;
      var a := Annotate(store[id], hits[0], query, h);
      if a.Success? {
        var store' := store[id := a.value];
        JoinableTail(store, hits, a.value);
        YieldStopsAtBadMeta(store', hits[1..], query, h);
        var rest := Yield(store', hits[1..], query, h);
        var r := Yield(store, hits, query, h);
        assert r.items == [a.value] + rest.items && r.error == rest.error;
        MetaOkShift(store, hits, a.value, |rest.items|);
        MetaOkShift(store, hits, a.value, |hits| - 1);
        if r.error.Some? {
          assert hits[|r.items|] == hits[1..][|rest.items|];
        }
      }
    }
  }

  /** Moving past the first neighbour: its own meta is fine, and the later
      ones see the store it wrote, which differs only at its label. */
  lemma MetaOkShift(store: seq<Example>, hits: seq<Hit>, ex: Example, m: nat)
    requires Joinable(store, hits) && hits != [] && m < |hits|
    requires MetaOk(store[hits[0].id])
    ensures Joinable(store[hits[0].id := ex], hits[1..])
    ensures MetaOkUpTo(store[hits[0].id := ex], hits[1..], m) <==> MetaOkUpTo(store, hits, m + 1)
  {
    JoinableTail(store, hits, ex);
    var store' := store[hits[0].id := ex];
    if MetaOkUpTo(store', hits[1..], m) {
      forall j | 0 <= j < m + 1
        ensures MetaOk(store[hits[j].id])
      {
        if j > 0 {
          assert hits[j] == hits[1..][j - 1];
        }
      }
    }
    if MetaOkUpTo(store, hits, m + 1) {
      forall j | 0 <= j < m
        ensures MetaOk(store'[hits[1..][j].id])
      {
        assert hits[1..][j] == hits[j + 1];
      }
    }
  }

  /** Labels the run did not reach keep their stored example. */
  lemma {:induction false} YieldLeavesOthers(store: seq<Example>, hits: seq<Hit>, query: string, h: Hasher, i: nat)
    requires Joinable(store, hits) && i < |store|
    requires forall j :: 0 <= j < |Yield(store, hits, query, h).items| ==> hits[j].id != i
    ensures Yield(store, hits, query, h).store[i] == store[i]
    decreases |hits|
  {
    if hits != [] {
      var id := hits[0].id;
      var a := Annotate(store[id], hits[0], query, h);
      if a.Success? {
        var store' := store[id := a.value];
        JoinableTail(store, hits, a.value);
        var rest := Yield(store', hits[1..], query, h);
        assert Yield(store, hits, query, h).items == [a.value] + rest.items;
        assert id != i;
        assert forall j :: 0 <= j < |rest.items| ==> hits[1..][j].id == hits[j + 1].id;
        YieldLeavesOthers(store', hits[1..], query, h, i);
      }
    }
  }

  /** Item j is the annotation of the example stored at the j-th neighbour's
      label before the call (earlier writes went to other labels), and it is
      what the store holds at that label afterwards (later writes go
      elsewhere too). */
  lemma {:induction false} YieldItem(store: seq<Example>, hits: seq<Hit>, query: string, h: Hasher, j: nat)
    requires Joinable(store, hits)
    requires j < |Yield(store, hits, query, h).items|
    ensures var r := Yield(store, hits, query, h);
            && Annotate(store[hits[j].id], hits[j], query, h) == Success(r.items[j])
            && r.store[hits[j].id] == r.items[j]
    decreases |hits|
  {
    var id := hits[0].id;
    var a := Annotate(store[id], hits[0], query, h);
    var store' := store[id := a.value];
    JoinableTail(store, hits, a.value);
    var rest := Yield(store', hits[1..], query, h);
    assert Yield(store, hits, query, h).items == [a.value] + rest.items;
    if j == 0 {
      YieldLeavesOthers(store', hits[1..], query, h, id);
    } else {
      YieldItem(store', hits[1..], query, h, j - 1);
      assert hits[1..][j - 1] == hits[j];
    }
  }

  /** The neighbours the search oracle returns for `query`. */
  function Neighbours(a: Approx, o: Oracles, query: string, n: nat): seq<Hit>
  {
    o.search(a.index.vectors, o.encodeQuery(query), n)
  }

  /** hnswlib keeps its promise for this query. */
  predicate SearchSound(a: Approx, o: Oracles, query: string, n: int)
  {
    0 <= n <= |a.index.vectors| ==> KnnAnswer(Neighbours(a, o, query, n), n, |a.index.vectors|)
  }

  /** `new_stream(query, n)`, run to completion. Asking for a negative
      number or more neighbours than stored vectors fails before anything is
      yielded. Otherwise it yields one example per neighbour unless a stored
      meta is not a mapping, in which case it stops at the first such one.
      What the items hold is stated by `NewStreamItem`, what the store keeps
      by `NewStreamLeavesOthers`. */
  function NewStream(a: Approx, o: Oracles, query: string, n: int): (r: Queried)
    requires a.Valid() && SearchSound(a, o, query, n)
    ensures |r.store| == |a.examples|
    ensures n < 0 ==> r == Queried(a.examples, [], Some(NegativeK))
    ensures n > |a.index.vectors| ==> r == Queried(a.examples, [], Some(TooFewElements))
    ensures 0 <= n <= |a.index.vectors| ==>
              var hits := Neighbours(a, o, query, n);
              && |r.items| <= n
              && MetaOkUpTo(a.examples, hits, |r.items|)
              && (r.error.None? <==> MetaOkUpTo(a.examples, hits, n))
              && (r.error.None? ==> |r.items| == n)
              && (r.error.Some? ==> r.error.value == MetaNotAMapping && |r.items| < n
                                    && !MetaOk(a.examples[hits[|r.items|].id]))
  {
    match KnnQuery(a.index, o.search, o.encodeQuery(query), n)
    case Failure(e) => Queried(a.examples, [], Some(e))
    case Success(hits) =>
      YieldStopsAtBadMeta(a.examples, hits, query, o.hasher);
      Yield(a.examples, hits, query, o.hasher)
  }

  /** Item j of a query is the example stored at the j-th neighbour's label,
      stamped with that label, its distance and the query; the store holds
      the item at that label afterwards. */
  lemma NewStreamItem(a: Approx, o: Oracles, query: string, n: int, j: nat)
    requires a.Valid() && SearchSound(a, o, query, n)
    requires j < |NewStream(a, o, query, n).items|
    ensures 0 <= n <= |a.index.vectors|
    ensures var hits := Neighbours(a, o, query, n);
            var r := NewStream(a, o, query, n);
            && hits[j].id < |a.examples|
            && Stamped(r.items[j], a.examples[hits[j].id], hits[j], query)
            && HasHashes(r.items[j])
            && r.store[hits[j].id] == r.items[j]
  {
    var hits := Neighbours(a, o, query, n);
    YieldItem(a.examples, hits, query, o.hasher, j);
    AnnotateStamps(a.examples[hits[j].id], hits[j], query, o.hasher);
  }

  /** All items at once: every yielded item is, afterwards, the example the
      store holds at its neighbour's label. */
  lemma NewStreamStored(a: Approx, o: Oracles, query: string, n: int)
    requires a.Valid() && SearchSound(a, o, query, n)
    ensures var r := NewStream(a, o, query, n);
            0 <= n <= |a.index.vectors| ==>
              var hits := Neighbours(a, o, query, n);
              forall j :: 0 <= j < |r.items| ==> hits[j].id < |r.store| && r.store[hits[j].id] == r.items[j]
  {
    var r := NewStream(a, o, query, n);
    forall j | 0 <= j < |r.items|
      ensures 0 <= n <= |a.index.vectors|
      ensures Neighbours(a, o, query, n)[j].id < |r.store|
      ensures r.store[Neighbours(a, o, query, n)[j].id] == r.items[j]
    {
      NewStreamItem(a, o, query, n, j);
    }
  }

  /** A stored example whose label is not among the yielded neighbours is
      left as it was. */
  lemma NewStreamLeavesOthers(a: Approx, o: Oracles, query: string, n: int, i: nat)
    requires a.Valid() && SearchSound(a, o, query, n)
    requires i < |a.examples|
    requires 0 <= n <= |a.index.vectors| ==>
               forall j :: 0 <= j < |NewStream(a, o, query, n).items| ==> Neighbours(a, o, query, n)[j].id != i
    ensures NewStream(a, o, query, n).store[i] == a.examples[i]
  {
    if 0 <= n <= |a.index.vectors| {
      YieldLeavesOthers(a.examples, Neighbours(a, o, query, n), query, o.hasher, i);
    }
  }

  /** Every item of a query carries that query in its meta. */
  lemma NewStreamQuery(a: Approx, o: Oracles, query: string, n: int)
    requires a.Valid() && SearchSound(a, o, query, n)
    ensures var r := NewStream(a, o, query, n);
            forall j :: 0 <= j < |r.items| ==> QueryOf(r.items[j]) == Some(Str(query))
  {
    var r := NewStream(a, o, query, n);
    forall j | 0 <= j < |r.items|
      ensures QueryOf(r.items[j]) == Some(Str(query))
    {
      NewStreamItem(a, o, query, n, j);
    }
  }

  /** The fetch recipes: an empty query is refused, otherwise the stream is
      written out, every record carrying the query in its meta. */
  function Fetch(a: Approx, o: Oracles, query: string, n: int): (r: Queried)
    requires a.Valid() && SearchSound(a, o, query, n)
    ensures query == "" ==> r.error == Some(MissingQuery) && r.items == []
    ensures query != "" && n > |a.index.vectors| ==> r.error == Some(TooFewElements) && r.items == []
    ensures forall i :: 0 <= i < |r.items| ==> QueryOf(r.items[i]) == Some(Str(query))
  {
    if query == "" then Queried(a.examples, [], Some(MissingQuery))
    else
      NewStreamQuery(a, o, query, n);
      NewStream(a, o, query, n)
  }

  /** The join key: over a built index, every example a query yields records
      in `meta.index` a label whose vector is the embedding of a stored
      example with the same content. */
  lemma JoinByLabel(a: Approx, o: Oracles, query: string, n: int, j: nat)
    requires Built(a, o.encode) && SearchSound(a, o, query, n)
    requires j < |NewStream(a, o, query, n).items|
    ensures var item := NewStream(a, o, query, n).items[j];
            && "index" in MetaOf(item) && MetaOf(item)["index"].Int?
            && var id := MetaOf(item)["index"].i;
            && 0 <= id < |a.examples|
            && a.index.vectors[id] == o.encode(a.examples[id])
            && Content(item) == Content(a.examples[id])
  {
    NewStreamItem(a, o, query, n, j);
  }
}
