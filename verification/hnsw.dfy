/** The part of hnswlib's `Index` the core relies on: a fixed-capacity,
    append-only array of vectors whose labels are their positions, and a
    k-nearest-neighbour search treated as an oracle. */
module Hnsw {
  import opened Wrappers
  import opened Examples

  /** An embedding vector; its components are never inspected. */
  type Vector(==)

  /** `max_elements` and the vectors added so far; vector i carries label i. */
  datatype Index = Index(capacity: nat, vectors: seq<Vector>)
  {
    predicate Valid()
    {
      |vectors| <= capacity
    }
  }

  /** One neighbour returned by `knn_query`: a label and its distance. */
  datatype Hit = Hit(id: nat, distance: Float64)

  /** `init_index(max_elements)`: an empty index of the given capacity. */
  function InitIndex(maxElements: nat): (r: Index)
    ensures r.Valid() && r.capacity == maxElements && |r.vectors| == 0
  {
    Index(maxElements, [])
  }

  /** `add_items` without explicit labels: the batch gets the next free labels,
      in order; more vectors than the capacity allows is an error. */
  function AddItems(idx: Index, batch: seq<Vector>): (r: Result<Index, Error>)
    requires idx.Valid()
    ensures r.Success? <==> |idx.vectors| + |batch| <= idx.capacity
    ensures r.Failure? ==> r.error == CapacityExceeded
    ensures r.Success? ==> r.value.Valid() && r.value.capacity == idx.capacity
    ensures r.Success? ==> r.value.vectors == idx.vectors + batch
  {
    if |idx.vectors| + |batch| <= idx.capacity then Success(Index(idx.capacity, idx.vectors + batch))
    else Failure(CapacityExceeded)
  }

  predicate DistinctIds(hits: seq<Hit>)
  {
    forall i, j :: 0 <= i < j < |hits| ==> hits[i].id != hits[j].id
  }

  /** What hnswlib promises of a successful `knn_query(q, k)` over `count`
      stored vectors: exactly k hits, with distinct labels that exist. */
  predicate KnnAnswer(hits: seq<Hit>, k: nat, count: nat)
  {
    && |hits| == k
    && DistinctIds(hits)
    && (forall j :: 0 <= j < |hits| ==> hits[j].id < count)
  }

  /** `knn_query(q, k)`: a negative k is rejected, more neighbours than
      stored vectors is an error, otherwise the search oracle answers. */
  function KnnQuery(idx: Index, search: (seq<Vector>, Vector, nat) -> seq<Hit>, q: Vector, k: int)
    : (r: Result<seq<Hit>, Error>)
    requires 0 <= k <= |idx.vectors| ==> KnnAnswer(search(idx.vectors, q, k), k, |idx.vectors|)
    ensures r.Success? <==> 0 <= k <= |idx.vectors|
    ensures k < 0 ==> r == Failure(NegativeK)
    ensures k > |idx.vectors| ==> r == Failure(TooFewElements)
    ensures r.Success? ==> KnnAnswer(r.value, k, |idx.vectors|)
  {
    if k < 0 then Failure(NegativeK)
    else if k > |idx.vectors| then Failure(TooFewElements)
    else Success(search(idx.vectors, q, k))
  }
}
