/** Failure-carrying wrappers and the errors the modelled code can raise. */
module Wrappers {

  datatype Option<+T> = None | Some(value: T)

  datatype Result<+R, +E> = Success(value: R) | Failure(error: E)

  /** The exceptions the core raises, each named after its cause. */
  datatype Error =
    | BatchSizeBelowOne     // `batched` with n < 1 raises ValueError
    | CapacityExceeded      // hnswlib add_items past max_elements
    | NegativeK             // knn_query cannot convert a negative k
    | TooFewElements        // knn_query asked for more neighbours than the index holds
    | MetaNotAMapping       // `ex['meta'][...] = ...` on a meta that is not a dict
    | ImageNotAString       // `.startswith` on an image field that is not a string
    | StreamExhausted       // `next` on an empty stream raises StopIteration
    | MissingQuery          // the fetch recipes reject an empty query
}
