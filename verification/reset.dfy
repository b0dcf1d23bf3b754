/** `stream_reset_calback`: the event handler that swaps the controller's
    stream for the results of a new query. */
module Reset {
  import opened Wrappers
  import opened Examples
  import opened AnnIndex

  type SessionId = string

  /** A pending stream item. What `new_stream` yields is the dict
      `self.examples[label]` itself, so such an item is a reference to the
      stored example at its label and sees every later write to it; any other
      item is an example of the stream's own. */
  datatype Item = Stored(pos: nat) | Own(eg: Example)

  /** A stream transform the host runtime installed; its behaviour is the
      runtime's and is not modelled. */
  datatype Wrapper = Wrapper(name: string)

  /** Prodigy's `Stream`: its pending items, its `_wrappers`, and the
      sessions that have a queue in it. */
  datatype Stream = Stream(items: seq<Item>, wrappers: seq<Wrapper>, queues: set<SessionId>)

  /** A session and the stream its `_stream` points at. */
  datatype Session = Session(id: SessionId, stream: Stream)

  /** The parts of Prodigy's `Controller` the handler touches. */
  datatype Controller = Controller(stream: Stream, sessions: seq<Session>)

  /** Every session's `_stream` is the controller's stream itself, as the
      handler leaves it. */
  predicate Shared(ctrl: Controller)
  {
    forall i :: 0 <= i < |ctrl.sessions| ==> ctrl.sessions[i].stream == ctrl.stream
  }

  function SessionIds(sessions: seq<Session>): set<SessionId>
  {
    set s | s in sessions :: s.id
  }

  /** Every reference among the items names a position of the store. */
  predicate Refers(store: seq<Example>, items: seq<Item>)
  {
    forall k :: 0 <= k < |items| ==> items[k].Stored? ==> items[k].pos < |store|
  }

  /** The examples the items stand for, read through the store. */
  function View(store: seq<Example>, items: seq<Item>): (r: seq<Example>)
    requires Refers(store, items)
    ensures |r| == |items|
  {
    seq(|items|, k requires 0 <= k < |items| =>
      match items[k]
      case Stored(pos) => store[pos]
      case Own(eg) => eg)
  }

  /** The handler's effect: the index object after the query (whose stored
      examples the query annotated in place), the controller, and the first
      item or the exception the handler raised. */
  datatype ResetResult = ResetResult(index: Approx, ctrl: Controller, first: Result<Example, Error>)

  /** `stream_reset(ctrl, query=...)` for a handler made with `n`. When the
      query runs through, the controller's stream holds references to the
      stored examples at the n neighbours' labels, which read as the query's
      results, every one stamped with the new query, under the old wrappers;
      every session has a queue in it and points at it; the first item is
      returned. When the query raises, the controller keeps the references
      it had, but the stored examples the query reached before raising are
      annotated all the same (`FailedResetStampsPending`). */
  function StreamReset(a: Approx, o: Oracles, n: int, ctrl: Controller, query: string): (r: ResetResult)
    requires a.Valid() && SearchSound(a, o, query, n)
    ensures r.index.Valid() && r.index.index == a.index
    ensures r.index.examples == NewStream(a, o, query, n).store
    ensures NewStream(a, o, query, n).error.Some? ==>
              r.ctrl == ctrl && r.first == Failure(NewStream(a, o, query, n).error.value)
    ensures NewStream(a, o, query, n).error.None? ==>
              && 0 <= n <= |a.index.vectors|
              && |r.ctrl.stream.items| == n
              && (forall j :: 0 <= j < n ==> r.ctrl.stream.items[j] == Stored(Neighbours(a, o, query, n)[j].id))
              && Refers(r.index.examples, r.ctrl.stream.items)
              && View(r.index.examples, r.ctrl.stream.items) == NewStream(a, o, query, n).items
              && (forall i :: 0 <= i < n ==> QueryOf(View(r.index.examples, r.ctrl.stream.items)[i]) == Some(Str(query)))
              && r.ctrl.stream.wrappers == ctrl.stream.wrappers
              && r.ctrl.stream.queues == SessionIds(ctrl.sessions)
              && |r.ctrl.sessions| == |ctrl.sessions|
              && (forall i :: 0 <= i < |ctrl.sessions| ==>
                    r.ctrl.sessions[i] == Session(ctrl.sessions[i].id, r.ctrl.stream))
              && Shared(r.ctrl)
              && (n == 0 ==> r.first == Failure(StreamExhausted))
              && (n > 0 ==> r.first == Success(View(r.index.examples, r.ctrl.stream.items)[0]))
  {
    var run := NewStream(a, o, query, n);
    var a' := Approx(run.store, a.index);
    if run.error.Some? then ResetResult(a', ctrl, Failure(run.error.value))
    else
      NewStreamStored(a, o, query, n);
      NewStreamQuery(a, o, query, n);
      var hits := Neighbours(a, o, query, n);
      var items := seq(n, j requires 0 <= j < n => Stored(hits[j].id));
      var stream := Stream(items, ctrl.stream.wrappers, SessionIds(ctrl.sessions));
      var sessions := seq(|ctrl.sessions|, i requires 0 <= i < |ctrl.sessions| => Session(ctrl.sessions[i].id, stream));
      var first := if n == 0 then Failure(StreamExhausted) else Success(run.items[0]);
      ResetResult(a', Controller(stream, sessions), first)
  }

  /** A reset whose query raises part-way still annotates the stored
      examples it reached: a pending item of the controller that refers to
      the label of the j-th yielded neighbour now reads as that neighbour's
      result, stamped with the failed query, although the controller itself
      was not replaced. Every session, whose `_stream` is the controller's
      stream, sees the same. */
  lemma FailedResetStampsPending(a: Approx, o: Oracles, n: int, ctrl: Controller, query: string, k: nat, j: nat)
    requires a.Valid() && SearchSound(a, o, query, n)
    requires NewStream(a, o, query, n).error.Some?
    requires Refers(a.examples, ctrl.stream.items) && k < |ctrl.stream.items|
    requires j < |NewStream(a, o, query, n).items|
    requires 0 <= n <= |a.index.vectors| && ctrl.stream.items[k] == Stored(Neighbours(a, o, query, n)[j].id)
    requires Shared(ctrl)
    ensures var r := StreamReset(a, o, n, ctrl, query);
            && r.ctrl == ctrl
            && Refers(r.index.examples, r.ctrl.stream.items)
            && View(r.index.examples, r.ctrl.stream.items)[k] == NewStream(a, o, query, n).items[j]
            && QueryOf(View(r.index.examples, r.ctrl.stream.items)[k]) == Some(Str(query))
            && forall i :: 0 <= i < |r.ctrl.sessions| ==>
                 && Refers(r.index.examples, r.ctrl.sessions[i].stream.items)
                 && View(r.index.examples, r.ctrl.sessions[i].stream.items)[k] == NewStream(a, o, query, n).items[j]
  {
    NewStreamItem(a, o, query, n, j);
  }

  /** The other pending items of a reset that raises read as before: items
      of the stream's own, and references to labels the query did not reach
      before raising, in the controller's stream and in every session's. */
  lemma FailedResetKeepsOthers(a: Approx, o: Oracles, n: int, ctrl: Controller, query: string, k: nat)
    requires a.Valid() && SearchSound(a, o, query, n)
    requires NewStream(a, o, query, n).error.Some?
    requires Refers(a.examples, ctrl.stream.items) && k < |ctrl.stream.items|
    requires 0 <= n <= |a.index.vectors| ==>
               forall j :: 0 <= j < |NewStream(a, o, query, n).items| ==>
                 ctrl.stream.items[k] != Stored(Neighbours(a, o, query, n)[j].id)
    requires Shared(ctrl)
    ensures var r := StreamReset(a, o, n, ctrl, query);
            && r.ctrl == ctrl
            && Refers(r.index.examples, r.ctrl.stream.items)
            && View(r.index.examples, r.ctrl.stream.items)[k] == View(a.examples, ctrl.stream.items)[k]
            && forall i :: 0 <= i < |r.ctrl.sessions| ==>
                 && Refers(r.index.examples, r.ctrl.sessions[i].stream.items)
                 && View(r.index.examples, r.ctrl.sessions[i].stream.items)[k] == View(a.examples, ctrl.stream.items)[k]
  {
    if ctrl.stream.items[k].Stored? {
      NewStreamLeavesOthers(a, o, query, n, ctrl.stream.items[k].pos);
    }
  }

  /** No item of the new stream carries another query: the old query's
      results are gone from every session at once. */
  lemma ResetDropsOldQuery(a: Approx, o: Oracles, n: int, ctrl: Controller, query: string, previous: string)
    requires a.Valid() && SearchSound(a, o, query, n)
    requires previous != query
    requires StreamReset(a, o, n, ctrl, query).first.Success?
    ensures var r := StreamReset(a, o, n, ctrl, query);
            && Refers(r.index.examples, r.ctrl.stream.items)
            && (forall i :: 0 <= i < |r.ctrl.stream.items| ==>
                  QueryOf(View(r.index.examples, r.ctrl.stream.items)[i]) != Some(Str(previous)))
            && (forall i :: 0 <= i < |r.ctrl.sessions| ==>
                  && Refers(r.index.examples, r.ctrl.sessions[i].stream.items)
                  && forall k :: 0 <= k < |r.ctrl.sessions[i].stream.items| ==>
                       QueryOf(View(r.index.examples, r.ctrl.sessions[i].stream.items)[k]) != Some(Str(previous)))
  {
    NewStreamQuery(a, o, query, n);
  }
}
