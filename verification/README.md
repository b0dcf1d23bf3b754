# prodigy-ann core, modelled in Dafny

prodigy-ann adds approximate-nearest-neighbour retrieval to Prodigy
annotation recipes. An `ApproximateIndex` holds the examples of a source in
memory, in read order. It embeds them with a sentence-transformer and adds
them to an hnswlib index in batches, so that the hnswlib label of a vector
is the position of its example. A query embeds a string and asks the index
for `n` neighbours. It joins each neighbour label back to the stored example
and stamps `meta.index`, `meta.distance` and `meta.query` on it. The stamping
happens in place, on the stored example. When a recipe allows a stream
reset, an event handler runs a new query and puts its results in the
controller's stream.

This project models that core in Dafny:

- `wrappers.dfy`, module `Wrappers`: `Option`, `Result`, and the exceptions the code can raise.
- `examples_model.dfy`, module `Examples`: examples as maps from field names to JSON-like values.
  It also holds `set_hashes` (two hash fields written by uninterpreted hash functions) and `add_hashes`.
- `batching.dfy`, module `Batching`: `batched`, with its round trip, shape, count and uniqueness.
- `hnsw.dfy`, module `Hnsw`: the part of hnswlib the code relies on.
  It covers `init_index`, `add_items` (append with consecutive labels, bounded by `max_elements`)
  and `knn_query`. The search itself is an oracle, and the model states what hnswlib promises of its answer.
- `ann_index.dfy`, module `AnnIndex`: `ApproximateIndex.__init__` (fresh index), `build_index`, `new_stream`.
  It also holds the fetch recipes' query check and the label-to-example join.
- `images.dfy`, module `Images`: `remove_images`.
- `reset.dfy`, module `Reset`: `stream_reset_calback` as one transition of a controller record.

Foreign code is modelled as follows:

- The embedding model, hnswlib's search and Prodigy's hash functions are function-valued fields of
  `AnnIndex.Oracles`. The model makes three assumptions about them:
  - `model.encode(batch)` works element-wise. It gives one vector per example, and that vector
    does not depend on the rest of the batch (`AnnIndex.Embed`).
  - The index is opened with `space="cosine"` (prodigy_ann/util.py:124), so hnswlib normalizes every
    vector it adds and every query vector. `encode` and `encodeQuery` stand for the normalized
    embeddings. `Hnsw.AddItems` stores each vector of a batch as it is given.
  - For `0 <= k <= count`, the search returns exactly `k` hits, with distinct labels below `count`.
    This is the `SearchSound` precondition.
- Distances are an opaque `Float64`. The model never orders them, so it says nothing about
  hnswlib's ascending-distance order.
- Generators that can raise part-way are modelled as runs: what was yielded, plus the exception
  that ended the run, if any. `new_stream` also returns the store it mutated.

Three facts about the code shape the model:

- A query writes `meta.index`, `meta.distance` and `meta.query` into the dict `self.examples[int(lab)]`
  itself, and yields that dict (prodigy_ann/util.py:152-158). The model threads the mutated store
  through `NewStream` and `StreamReset`. A stream's pending items are references into that store,
  so a later query's writes show through them.
- The reset handler runs any query it is given. It has no check for a blank query, and nothing
  stops two resets from overlapping (prodigy_ann/util.py:167-179).
- Reloading an index only passes `max_elements=len(self.examples)` to hnswlib
  (prodigy_ann/util.py:130). The code itself does not compare the file's element count with the examples.

## Model

| member | source | states |
|---|---|---|
| Batching.Batched | prodigy_ann/util.py:97-103 | fails with the ValueError exactly when n < 1. Otherwise the batches concatenate back to the input and are well shaped: non-empty, at most n long, all but the last exactly n. Empty input gives no batches |
| Batching.BatchesFlatten | prodigy_ann/util.py:101-103 | joining the batches in order gives exactly the input sequence |
| Batching.BatchesShape | prodigy_ann/util.py:101-103 | every batch is non-empty and at most n long, and all but the last are exactly n long |
| Batching.BatchesCount | prodigy_ann/util.py:101-103 | the number of batches is the input length divided by n, rounded up |
| Batching.BatchesUnique | prodigy_ann/util.py:97-103 | any well-shaped batching that concatenates to the input is the one `batched` yields |
| Examples.SetHashes | prodigy_ann/util.py:164 | the example gains both hash fields, its keys grow by exactly those two, and every other field keeps its value |
| Examples.AddHashes | prodigy_ann/util.py:106-108 | one output per input, in order. Each carries both hash fields and is otherwise equal to its input |
| Hnsw.InitIndex | prodigy_ann/util.py:128 | a fresh index is empty and has the requested capacity |
| Hnsw.AddItems | prodigy_ann/util.py:138 | succeeds exactly when the batch fits in the remaining capacity. Old vectors keep their labels, and batch element j gets label count + j |
| Hnsw.KnnQuery | prodigy_ann/util.py:149 | a negative k and a k larger than the number of stored vectors are errors. Otherwise the answer has k distinct labels, all of stored vectors |
| AnnIndex.Create | prodigy_ann/util.py:113-128 | the examples are the stream-function output with hashes added, in order. The index is empty and its capacity is the number of examples |
| AnnIndex.AddInBatches | prodigy_ann/util.py:133-139 | for any batch size of at least one, the index ends up holding the embeddings of all items, in item order, after its old vectors. It fails exactly when they exceed the capacity. A batch size below one fails |
| AnnIndex.BuildIndex | prodigy_ann/util.py:133-140 | succeeds exactly when the index starts empty. Vector i is then the embedding of example i, and the index holds exactly capacity vectors. The examples are unchanged |
| AnnIndex.IndexExamples | prodigy_ann/text.py:22-26 | creating the index and building it never exceeds capacity, and joins each example to its own embedding by position |
| AnnIndex.Annotate | prodigy_ann/util.py:155-158 | succeeds exactly when meta is absent or a mapping, and otherwise raises |
| AnnIndex.AnnotateStamps | prodigy_ann/util.py:152-164 | the annotated example's meta gains index, distance and query and keeps every other meta entry. Apart from the hashes, nothing else changes |
| AnnIndex.Yield | prodigy_ann/util.py:150-164 | the store keeps its length. A completed run yields one item per neighbour. A run that raises stopped short on a meta that is not a mapping |
| AnnIndex.YieldStopsAtBadMeta | prodigy_ann/util.py:150-158 | the run completes exactly when every neighbour's stored meta is a mapping or absent, and otherwise stops at the first one that is not |
| AnnIndex.YieldLeavesOthers | prodigy_ann/util.py:150-158 | a stored example whose label was not among the yielded neighbours is unchanged |
| AnnIndex.YieldItem | prodigy_ann/util.py:150-164 | item j is the annotation of the example stored at the j-th neighbour's label before the call, and the store holds that item at the label afterwards |
| AnnIndex.NewStream | prodigy_ann/util.py:146-164 | n below zero or above the number of stored vectors fails before anything is yielded, with the store untouched. Otherwise the run yields one item per neighbour exactly when every neighbour's stored meta is writable, and stops at the first that is not. The store keeps its length |
| AnnIndex.NewStreamItem | prodigy_ann/util.py:150-164 | item j comes from the j-th neighbour, in the index's order. It is the stored example at that label, stamped with the label, the paired distance and the query, with all other meta entries kept. The store holds that item at the label afterwards |
| AnnIndex.NewStreamStored | prodigy_ann/util.py:150-164 | every yielded item is, after the run, the example the store holds at its neighbour's label |
| AnnIndex.NewStreamLeavesOthers | prodigy_ann/util.py:150-158 | every stored example whose label was not returned is unchanged |
| AnnIndex.NewStreamQuery | prodigy_ann/util.py:158 | every yielded item carries the query in its meta |
| AnnIndex.Fetch | prodigy_ann/text.py:39-46 | an empty query is refused. Asking for more results than stored vectors fails. Every written record carries the query in its meta |
| AnnIndex.JoinByLabel | prodigy_ann/util.py:135-158 | over a built index, each yielded item's meta.index is a label whose vector is the embedding of a stored example with the same content as the item |
| Images.StripImage | prodigy_ann/util.py:194-195 | succeeds exactly when the image field is absent or a string |
| Images.RemoveImages | prodigy_ann/util.py:191-196 | one output per input, in order, unless an image field is not a string. In that case the run raises at the first such example |
| Images.RemoveImagesCleans | prodigy_ann/util.py:193-196 | output i is input i with the image removed exactly when it is a data URI, the hashes set, and every other field unchanged |
| Images.RemoveImagesIdempotent | prodigy_ann/util.py:191-196 | a second pass succeeds and, apart from the hashes, changes nothing |
| Reset.StreamReset | prodigy_ann/util.py:167-179 | when the query runs through, the controller's stream holds references to the n neighbours' stored examples, in the index's order. Read through the store, these are exactly the query's results, each stamped with the new query. The old wrappers are kept and every session has a queue in the new stream and points at it. The first item is returned, or StopIteration when n is 0. When the query raises, the controller keeps its references and the error is raised. In every case the stored examples are those the query left |
| Reset.FailedResetStampsPending | prodigy_ann/util.py:152-177 | when a reset's query raises part-way, a pending item that refers to an example the query reached now reads as that example stamped with the failed query, in the controller's stream and in every session's, since each session's stream is the controller's |
| Reset.FailedResetKeepsOthers | prodigy_ann/util.py:150-177 | when a reset's query raises part-way, every other pending item reads as before, in the controller's stream and in every session's |
| Reset.ResetDropsOldQuery | prodigy_ann/util.py:170-178 | after a successful reset, no item of the controller's stream or of any session's stream, read through the store, carries a different query |

## Left out

- Reading the source (`get_stream`), logging, `tqdm` and the HTML/CSS/JS constants: I/O and user interface only.
- `store_index` and `load_index`: hnswlib's file handling. The query path (`NewStream`, `StreamReset`, `Fetch`) accepts any index whose element count is at most its capacity, `len(self.examples)`. How hnswlib handles a file with a different element count is not modelled.
- The probe encoding that sets the index dimension (prodigy_ann/util.py:123-124): vectors are opaque, so dimensions do not appear.
- The `funcs` parameter of `new_stream`: every caller passes nothing, so it is always the empty default list.
- The default `funcs=list()` of `ApproximateIndex.__init__` is shared across calls. Each construction appends another `add_hashes` to it (prodigy_ann/util.py:111, 116). `Create` takes the list as it stands before the append and does not track its growth.
- Examples.SetHashes: which fields the two hashes cover, and whether hashes already present are kept, are left to the uninterpreted hash functions. Those functions see the whole example, so keeping the old value is one possible choice. The model states only that the two hash fields are written and that nothing else changes.
- AnnIndex.NewStream: the items are the values at the time each is yielded. With distinct labels these are also the final values of the shared dicts. Duplicate labels are excluded by the search assumption.
- Reset.StreamReset: whether `next` consumes the first item and how the wrappers transform it belong to Prodigy's `Stream`, which is not part of this model. The returned item is the first result. `ensure_queue` is modelled as the set of sessions that have a queue.
- Reset.StreamReset: a pending item is either a reference to a stored example or an example of the stream's own. Whether Prodigy's recipe wrappers copy the examples of the first stream is Prodigy's, so the model allows both.
- `base64_image`: PIL image decoding and base64 over JPEG bytes.
- `new_image_example_stream`: dead code that calls an undefined `load_index`.
- The recipe wrappers in prodigy_ann/text.py and prodigy_ann/image.py: Prodigy component plumbing. Only the fetch recipes' empty-query check is modelled, as `Fetch`.
- `image_index` passes an unsupported `setting=` argument to `build_index` (prodigy_ann/image.py:23), so that recipe raises a TypeError before indexing. It is not modelled.
- Distances: opaque floats, with no ordering claims.
