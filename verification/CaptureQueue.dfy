/** The queue and the counters as they are kept; Drain states what sending and consuming do to them. */
module CaptureQueue {
  import opened Drain

  class CaptureQueue {
    var queue: seq<nat>
    var closed: bool
    var accepted: nat
    var dropped: nat
    var processed: nat
    var applied: seq<nat>
    ghost var history: State

    ghost predicate Valid()
      reads this
    {
      && history.queue == queue && history.closed == closed && history.accepted == accepted
      && history.dropped == dropped && history.processed == processed && history.applied == applied
      && history.consumer == Waiting
    }

    constructor ()
      ensures Valid() && history == INITIAL
    {
      queue, closed, accepted, dropped, processed, applied := [], false, 0, 0, 0, [];
      history := INITIAL;
    }

    /** Never waits: a full queue counts as a loss, a closed one is an error. */
    method Send(packet: nat, ghost p: nat) returns (ok: bool)
      requires Valid() && SenderOf(history, p) == Ready && packet == history.pushed
      modifies this
      ensures Valid() && ok == !closed
      ensures history == Step(Step(Step(old(history), TrySend(p)), CountSend(p)), Return(p))
    {
      history := Step(Step(Step(history, TrySend(p)), CountSend(p)), Return(p));
      if closed { return false; }
      if |queue| < QUEUE_CAPACITY {
        queue := queue + [packet];
        accepted := accepted + 1;
      } else {
        dropped := dropped + 1;
      }
      return true;
    }

    /** One turn of the consumer: a batch under one lock, given up as lost when applying it fails at
        position `panicAt`. */
    method ConsumeBatch(panicAt: nat) returns (n: nat)
      requires Valid() && queue != []
      modifies this
      ensures Valid() && 0 < n <= MAX_BATCH
      ensures history == Step(Step(Step(old(history), Take(n)), Apply(panicAt)), CountBatch)
    {
      n := if |queue| < MAX_BATCH then |queue| else MAX_BATCH;
      var batch := queue[..n];
      queue := queue[n..];
      var done := ApplyBatch(batch, panicAt);
      if !done { dropped := dropped + n; }
      processed := processed + n;
      history := Step(Step(Step(history, Take(n)), Apply(panicAt)), CountBatch);
    }

    method ApplyBatch(batch: seq<nat>, panicAt: nat) returns (done: bool)
      modifies this`applied
      ensures done == (panicAt >= |batch|)
      ensures applied == old(applied) + if done then batch else batch[..panicAt]
    {
      var i := 0;
      while i < |batch| && i != panicAt
        invariant i <= |batch| && (panicAt < |batch| ==> i <= panicAt)
        invariant applied == old(applied) + batch[..i]
      {
        assert batch[..i + 1] == batch[..i] + [batch[i]];
        applied := applied + [batch[i]];
        i := i + 1;
      }
      assert batch[..|batch|] == batch;
      return i == |batch|;
    }
  }
}
