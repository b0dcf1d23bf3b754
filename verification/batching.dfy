/** `batched`: cutting a sequence into consecutive batches of a fixed size. */
module Batching {
  import opened Wrappers

  /** Concatenation of batches, in order. */
  function Flatten<T>(batches: seq<seq<T>>): seq<T>
  {
    if batches == [] then [] else batches[0] + Flatten(batches[1..])
  }

  /** The shape `batched` promises: non-empty batches of at most n elements,
      all of exactly n elements except possibly the last. */
  predicate WellShaped<T>(batches: seq<seq<T>>, n: nat)
  {
    && (forall k :: 0 <= k < |batches| ==> 0 < |batches[k]| <= n)
    && (forall k :: 0 <= k < |batches| - 1 ==> |batches[k]| == n)
  }

  /** The batches `batched` yields for a batch size that is at least one. */
  function Batches<T>(xs: seq<T>, n: nat): seq<seq<T>>
    requires n >= 1
    decreases |xs|
  {
    if |xs| == 0 then []
    else if |xs| <= n then [xs]
    else [xs[..n]] + Batches(xs[n..], n)
  }

  /** `batched(iterable, n)`: a ValueError for n < 1, otherwise the batches. */
  function Batched<T>(xs: seq<T>, n: int): (r: Result<seq<seq<T>>, Error>)
    ensures r.Failure? <==> n < 1
    ensures r.Failure? ==> r.error == BatchSizeBelowOne
    ensures r.Success? ==> Flatten(r.value) == xs && WellShaped(r.value, n)
    ensures r.Success? && xs == [] ==> r.value == []
  {
    if n < 1 then Failure(BatchSizeBelowOne)
    else
      BatchesFlatten(xs, n);
      BatchesShape(xs, n);
      Success(Batches(xs, n))
  }

  /** Joining the batches in order gives back the input. */
  lemma {:induction false} BatchesFlatten<T>(xs: seq<T>, n: nat)
    requires n >= 1
    ensures Flatten(Batches(xs, n)) == xs
    decreases |xs|
  {
    if |xs| == 0 {
    } else if |xs| <= n {
      assert Flatten([xs]) == xs + Flatten([]);
    } else {
      var rest := Batches(xs[n..], n);
      BatchesFlatten(xs[n..], n);
      assert ([xs[..n]] + rest)[1..] == rest;
      assert xs[..n] + xs[n..] == xs;
    }
  }

  /** Every batch is non-empty and at most n long; only the last may be short. */
  lemma {:induction false} BatchesShape<T>(xs: seq<T>, n: nat)
    requires n >= 1
    ensures WellShaped(Batches(xs, n), n)
    decreases |xs|
  {
    if |xs| > n {
      var rest := Batches(xs[n..], n);
      BatchesShape(xs[n..], n);
      var all := [xs[..n]] + rest;
      assert forall k :: 1 <= k < |all| ==> all[k] == rest[k - 1];
    }
  }

  /** The number of batches is |xs| / n rounded up: n of them cover xs with
      less than one batch to spare. */
  lemma {:induction false} BatchesCount<T>(xs: seq<T>, n: nat)
    requires n >= 1
    ensures |xs| <= n * |Batches(xs, n)| < |xs| + n
    decreases |xs|
  {
    if |xs| > n {
      var c := |Batches(xs[n..], n)|;
      BatchesCount(xs[n..], n);
      assert |Batches(xs, n)| == c + 1;
      assert n * (c + 1) == n * c + n;
    }
  }

  /** `batched` is the only way to cut xs into well-shaped batches:
      any well-shaped batching that flattens to xs is the one it yields. */
  lemma {:induction false} BatchesUnique<T>(xs: seq<T>, n: nat, bs: seq<seq<T>>)
    requires n >= 1
    requires WellShaped(bs, n) && Flatten(bs) == xs
    ensures bs == Batches(xs, n)
    decreases |bs|
  {
    if bs == [] {
    } else {
      var rest := bs[1..];
      assert WellShaped(rest, n) by {
        assert forall k :: 0 <= k < |rest| ==> rest[k] == bs[k + 1];
      }
      assert xs == bs[0] + Flatten(rest);
      if |bs| == 1 {
        assert Flatten(rest) == [];
        assert xs == bs[0];
      } else {
        assert |bs[0]| == n;
        FlattenNonEmpty(rest, n);
        assert xs[..n] == bs[0];
        assert xs[n..] == Flatten(rest);
        BatchesUnique(xs[n..], n, rest);
        assert bs == [bs[0]] + rest;
      }
    }
  }

  /** Well-shaped, non-empty batches flatten to something non-empty. */
  lemma {:induction false} FlattenNonEmpty<T>(bs: seq<seq<T>>, n: nat)
    requires bs != [] && WellShaped(bs, n)
    ensures |Flatten(bs)| > 0
  {
    assert |bs[0]| > 0;
  }

  /** Flattening distributes over concatenation of batch lists. */
  lemma {:induction false} FlattenAppend<T>(a: seq<seq<T>>, b: seq<seq<T>>)
    ensures Flatten(a + b) == Flatten(a) + Flatten(b)
    decreases |a|
  {
    if a == [] {
      assert a + b == b;
    } else {
      assert (a + b)[1..] == a[1..] + b;
      FlattenAppend(a[1..], b);
    }
  }
}
