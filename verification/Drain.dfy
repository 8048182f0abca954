/**
 The accounting of captured packets: a sender that puts a packet in the queue, counts it in a second step
 and returns in a third, a consumer that takes batches, and a finisher that waits until what was counted has
 been processed. Packets are numbered in the order in which they enter the queue.
 */
module Drain {
  const QUEUE_CAPACITY := 8192
  const MAX_BATCH := 256

  /** Where a sender is: between the attempt and the counting it holds the outcome; then it returns. */
  datatype Sender = Ready | Pushed(id: nat) | Refused | Leaving

  datatype Consumer = Waiting | Holding(batch: seq<nat>) | Done(batch: seq<nat>)
  {
    function Batch(): seq<nat> {
      if Waiting? then [] else batch
    }
  }

  /** The finisher; `want` are the packets counted when it read its target. */
  datatype Finisher = NotYet | WaitingFor(target: nat, want: set<nat>) | Drained(want: set<nat>) | TimedOut

  datatype State = State(queue: seq<nat>, closed: bool, pushed: nat, senders: map<nat, Sender>, counted: set<nat>,
                         accepted: nat, dropped: nat, processed: nat, oks: nat, refused: nat,
                         consumer: Consumer, applied: seq<nat>, lost: seq<nat>, finisher: Finisher)

  const INITIAL := State([], false, 0, map[], {}, 0, 0, 0, 0, 0, Waiting, [], [], NotYet)

  function SenderOf(s: State, p: nat): Sender {
    if p in s.senders then s.senders[p] else Ready
  }

  datatype Op =
    | TrySend(p: nat)
    | CountSend(p: nat)
    | Return(p: nat)
    | Take(n: nat)
    | Apply(panicAt: nat)  // the packets before it are applied; beyond the batch means no panic
    | CountBatch
    | Close
    | ReadTarget
    | CheckProcessed
    | GiveUp

  /** Attempts on a closed queue fail and count nothing. */
  function Tried(s: State, p: nat): State {
    if SenderOf(s, p) != Ready || s.closed then s
    else if |s.queue| >= QUEUE_CAPACITY then s.(refused := s.refused + 1, senders := s.senders[p := Refused])
    else s.(queue := s.queue + [s.pushed], pushed := s.pushed + 1, senders := s.senders[p := Pushed(s.pushed)])
  }

  function Counted(s: State, p: nat): State {
    match SenderOf(s, p)
    case Pushed(id) => s.(accepted := s.accepted + 1, counted := s.counted + {id}, senders := s.senders[p := Leaving])
    case Refused => s.(dropped := s.dropped + 1, senders := s.senders[p := Leaving])
    case _ => s
  }

  function Taken(s: State, n: nat): State {
    if !s.consumer.Waiting? || n == 0 || n > MAX_BATCH || n > |s.queue| then s
    else s.(queue := s.queue[n..], consumer := Holding(s.queue[..n]))
  }

  /** A panic loses the whole batch in the books, also what was applied before it. */
  function Applied(s: State, panicAt: nat): State {
    if !s.consumer.Holding? then s
    else
      var b := s.consumer.batch;
      if panicAt >= |b| then s.(applied := s.applied + b, consumer := Done(b))
      else s.(applied := s.applied + b[..panicAt], lost := s.lost + b, dropped := s.dropped + |b|, consumer := Done(b))
  }

  function Step(s: State, op: Op): State {
    match op
    case TrySend(p) => Tried(s, p)
    case CountSend(p) => Counted(s, p)
    case Return(p) =>
      if !SenderOf(s, p).Leaving? then s else s.(oks := s.oks + 1, senders := s.senders[p := Ready])
    case Take(n) => Taken(s, n)
    case Apply(panicAt) => Applied(s, panicAt)
    case CountBatch =>
      if !s.consumer.Done? then s else s.(processed := s.processed + |s.consumer.batch|, consumer := Waiting)
    case Close => s.(closed := true)
    case ReadTarget => if s.finisher.NotYet? then s.(finisher := WaitingFor(s.accepted, s.counted)) else s
    case CheckProcessed =>
      if s.finisher.WaitingFor? && s.processed >= s.finisher.target then s.(finisher := Drained(s.finisher.want)) else s
    case GiveUp => if s.finisher.WaitingFor? then s.(finisher := TimedOut) else s
  }

  function Run(ops: seq<Op>): State {
    if ops == [] then INITIAL else Step(Run(ops[..|ops| - 1]), ops[|ops| - 1])
  }

  // The queue keeps the order, and a prefix of the packets is settled.

  predicate Settled(s: State, id: nat) {
    id in s.applied || id in s.lost
  }

  /** The number of packets that left the queue. */
  function Left(s: State): int {
    s.pushed - |s.queue|
  }

  ghost predicate Consecutive(ids: seq<nat>, from: int) {
    forall i | 0 <= i < |ids| :: ids[i] == from + i
  }

  ghost predicate SettledTo(s: State, n: nat) {
    forall id: nat | id < n :: Settled(s, id)
  }

  ghost predicate InOrder(s: State) {
    && |s.queue| <= QUEUE_CAPACITY && |s.consumer.Batch()| <= MAX_BATCH
    && Left(s) == s.processed + |s.consumer.Batch()|
    && Consecutive(s.queue, Left(s)) && Consecutive(s.consumer.Batch(), s.processed)
    && SettledTo(s, if s.consumer.Done? then Left(s) else s.processed)
  }

  lemma StepInOrder(s: State, op: Op)
    requires InOrder(s)
    ensures InOrder(Step(s, op))
  {
    hide SettledTo, Consecutive;
    var t := Step(s, op);
    match op
    case Apply(panicAt) => ApplySettles(s, panicAt);
    case Take(n) =>
      SameSettled(s, t, if t.consumer.Done? then Left(t) else t.processed);
      if t != s { TakenInOrder(s.queue, n, Left(s)); }
    case TrySend(p) =>
      SameSettled(s, t, if t.consumer.Done? then Left(t) else t.processed);
      PushedInOrder(s.queue, Left(s));
    case _ => SameSettled(s, t, if t.consumer.Done? then Left(t) else t.processed);
      Nothing(t.processed);
  }

  lemma TakenInOrder(queue: seq<nat>, n: nat, from: int)
    requires n <= |queue| && Consecutive(queue, from)
    ensures Consecutive(queue[..n], from) && Consecutive(queue[n..], from + n)
  {}

  lemma PushedInOrder(queue: seq<nat>, from: int)
    requires Consecutive(queue, from) && from + |queue| >= 0
    ensures Consecutive(queue + [from + |queue|], from)
  {}

  lemma Nothing(from: int)
    ensures Consecutive([], from)
  {}

  lemma SameSettled(s: State, t: State, n: nat)
    requires SettledTo(s, n) && t.applied == s.applied && t.lost == s.lost
    ensures SettledTo(t, n)
  {
    forall id: nat | id < n
      ensures Settled(t, id)
    {
      assert Settled(s, id);
    }
  }

  lemma ApplySettles(s: State, panicAt: nat)
    requires InOrder(s)
    ensures InOrder(Applied(s, panicAt))
  {
    if s.consumer.Holding? {
      var b := s.consumer.batch;
      var t := Applied(s, panicAt);
      forall id: nat | id < Left(s)
        ensures Settled(t, id)
      {
        if id >= s.processed {
          assert b[id - s.processed] == id;
        } else {
          assert Settled(s, id);
        }
      }
    }
  }

  /** The outcome of an attempt: a closed queue takes nothing and nothing is counted; a queue of 8192 packets refuses,
      and any other takes the packet behind those it has. */
  lemma AttemptIs(s: State, p: nat)
    requires SenderOf(s, p) == Ready
    ensures var t := Step(s, TrySend(p));
            && (s.closed ==> t == s)
            && (!s.closed && |s.queue| >= 8192 ==> t.refused == s.refused + 1 && t.queue == s.queue
                                                   && SenderOf(t, p) == Refused)
            && (!s.closed && |s.queue| < 8192 ==> t.refused == s.refused && t.queue == s.queue + [s.pushed]
                                                  && SenderOf(t, p) == Pushed(s.pushed))
  {}

  /** Batches have 1 to 256 packets, and the queue never more than 8192. */
  lemma SizesBounded(ops: seq<Op>, n: nat)
    ensures |Run(ops).queue| <= 8192 && |Run(ops).consumer.Batch()| <= 256
    ensures var s := Run(ops);
            s.consumer.Waiting? && n <= |s.queue| ==>
              (Step(s, Take(n)).consumer == Holding(s.queue[..n]) <==> 1 <= n <= 256)
  {
    hide Run;
    RunInOrder(ops);
  }

  // One sender.

  ghost predicate OneSender(ops: seq<Op>) {
    forall op | op in ops :: (op.TrySend? || op.CountSend? || op.Return?) ==> op.p == 0
  }

  function Pending(s: State): nat {
    if SenderOf(s, 0).Pushed? then 1 else 0
  }

  /** With one sender the counted packets are the first ones, all but the one in flight. */
  ghost predicate CountedInOrder(s: State) {
    && s.accepted == s.pushed - Pending(s)
    && (SenderOf(s, 0).Pushed? ==> SenderOf(s, 0).id == s.pushed - 1)
    && (forall id: nat :: id in s.counted <==> id < s.accepted)
    && (s.finisher.WaitingFor? ==> forall id: nat | id in s.finisher.want :: id < s.finisher.target)
    && (s.finisher.Drained? ==> forall id: nat | id in s.finisher.want :: id < s.processed)
  }

  lemma StepCounted(s: State, op: Op)
    requires CountedInOrder(s) && ((op.TrySend? || op.CountSend? || op.Return?) ==> op.p == 0)
    ensures CountedInOrder(Step(s, op))
  {}

  lemma {:induction false} RunInOrder(ops: seq<Op>)
    ensures InOrder(Run(ops))
    ensures OneSender(ops) ==> CountedInOrder(Run(ops))
  {
    hide Step, InOrder, CountedInOrder;
    if ops == [] {
      FirstInOrder();
    } else {
      var init, op := ops[..|ops| - 1], ops[|ops| - 1];
      RunInOrder(init);
      StepInOrder(Run(init), op);
      if OneSender(ops) {
        assert op in ops;
        StepCounted(Run(init), op);
      }
    }
  }

  lemma FirstInOrder()
    ensures InOrder(INITIAL) && CountedInOrder(INITIAL)
  {}

  /** Drain before finalizing: when the wait succeeds, every packet whose send was counted before the target
      was read has left the queue, is in no batch, and was applied or counted as lost. */
  lemma DrainedMeansSettled(ops: seq<Op>, id: nat)
    requires OneSender(ops) && Run(ops).finisher.Drained? && id in Run(ops).finisher.want
    ensures var s := Run(ops);
            Settled(s, id) && id !in s.queue && id !in s.consumer.Batch() && id < s.processed
  {
    hide Run, OneSender;
    RunInOrder(ops);
    var s := Run(ops);
    assert SettledTo(s, s.processed);
  }

  /** The processed count runs ahead of the accepted one by at most the one packet in flight. */
  lemma AheadByOne(ops: seq<Op>)
    requires OneSender(ops)
    ensures Run(ops).processed <= Run(ops).accepted + Pending(Run(ops)) <= Run(ops).accepted + 1
  {
    hide Run, OneSender;
    RunInOrder(ops);
  }

  // The books, with any number of senders.

  /** The senders that hold a packet put in the queue and not counted. */
  function PushedBy(s: State): set<nat> {
    set p | p in s.senders && s.senders[p].Pushed?
  }

  /** The senders that hold a refusal not counted. */
  function RefusedBy(s: State): set<nat> {
    set p | p in s.senders && s.senders[p].Refused?
  }

  /** The senders that have not returned. */
  function Busy(s: State): set<nat> {
    set p | p in s.senders && !s.senders[p].Ready?
  }

  ghost predicate Balanced(s: State) {
    && s.pushed == s.accepted + |PushedBy(s)|
    && s.refused + |s.lost| == s.dropped + |RefusedBy(s)|
    && s.pushed + s.refused == s.oks + |Busy(s)|
  }

  function Bit(b: bool): nat {
    if b then 1 else 0
  }

  /** What a sender's turn does to the three sets. */
  lemma Turned(s: State, t: State, p: nat, sender: Sender)
    requires t.senders == s.senders[p := sender]
    ensures |PushedBy(t)| + Bit(SenderOf(s, p).Pushed?) == |PushedBy(s)| + Bit(sender.Pushed?)
    ensures |RefusedBy(t)| + Bit(SenderOf(s, p).Refused?) == |RefusedBy(s)| + Bit(sender.Refused?)
    ensures |Busy(t)| + Bit(!SenderOf(s, p).Ready?) == |Busy(s)| + Bit(!sender.Ready?)
  {
    OneChanged(PushedBy(s), PushedBy(t), p);
    OneChanged(RefusedBy(s), RefusedBy(t), p);
    OneChanged(Busy(s), Busy(t), p);
  }

  lemma OneChanged(a: set<nat>, b: set<nat>, p: nat)
    requires a - {p} == b - {p}
    ensures |b| + Bit(p in a) == |a| + Bit(p in b)
  {
    assert a == if p in a then (a - {p}) + {p} else a - {p};
    assert b == if p in b then (b - {p}) + {p} else b - {p};
  }

  lemma StepBalanced(s: State, op: Op)
    requires Balanced(s)
    ensures Balanced(Step(s, op))
  {
    hide PushedBy, RefusedBy, Busy;
    var t := Step(s, op);
    if (op.TrySend? || op.CountSend? || op.Return?) && t != s {
      Turned(s, t, op.p, SenderOf(t, op.p));
    } else {
      SameSenders(s, t);
    }
  }

  lemma SameSenders(s: State, t: State)
    requires s.senders == t.senders
    ensures PushedBy(s) == PushedBy(t) && RefusedBy(s) == RefusedBy(t) && Busy(s) == Busy(t)
  {}

  /** The books balance: every packet queued is counted as accepted or about to be; every refusal and every
      packet of a lost batch is counted as dropped or about to be; and every attempt has returned Ok or is
      about to. Hence sends answered Ok are those accepted and dropped at the queue, up to those in flight. */
  lemma {:induction false} BooksBalance(ops: seq<Op>)
    ensures var s := Run(ops);
            && s.pushed == s.accepted + |PushedBy(s)|
            && s.refused + |s.lost| == s.dropped + |RefusedBy(s)|
            && s.pushed + s.refused == s.oks + |Busy(s)|
  {
    hide Step;
    if ops != [] {
      BooksBalance(ops[..|ops| - 1]);
      StepBalanced(Run(ops[..|ops| - 1]), ops[|ops| - 1]);
    } else {
      assert PushedBy(INITIAL) == {} && RefusedBy(INITIAL) == {} && Busy(INITIAL) == {};
    }
  }

  /** What is lost stays lost, and is a list that only grows. */
  lemma {:induction false} LossesGrow(ops: seq<Op>, n: nat)
    requires n <= |ops|
    ensures var s, t := Run(ops[..n]), Run(ops);
            && s.lost <= t.lost && s.dropped <= t.dropped && s.dropped - |s.lost| <= t.dropped - |t.lost|
    decreases |ops|
  {
    hide Step;
    if n == |ops| {
      assert ops[..n] == ops;
    } else {
      var init := ops[..|ops| - 1];
      assert init[..n] == ops[..n];
      LossesGrow(init, n);
      StepLoses(Run(init), ops[|ops| - 1]);
    }
  }

  lemma StepLoses(s: State, op: Op)
    ensures var t := Step(s, op);
            s.lost <= t.lost && s.dropped <= t.dropped && s.dropped - |s.lost| <= t.dropped - |t.lost|
  {}

  // Why there must be one sender.

  /** Two senders: the second packet is counted first, the first one is processed, and the wait succeeds
      while the counted packet is still queued. */
  lemma TwoSendersMayMiss()
    ensures exists ops, id :: Missed(Run(ops), id)
  {
    hide Step, Run;
    var sent := State([0, 1], false, 2, map[1 := Pushed(0), 2 := Leaving], {1}, 1, 0, 0, 0, 0, Waiting, [], [],
                      WaitingFor(1, {1}));
    var end := State([1], false, 2, map[1 := Pushed(0), 2 := Leaving], {1}, 1, 0, 1, 0, 0, Waiting, [0], [], Drained({1}));
    var ops := BothSend(sent);
    OneProcessed(sent, end);
    Longer(ops, Take(1));
    Longer(ops + [Take(1)], Apply(1));
    Longer(ops + [Take(1)] + [Apply(1)], CountBatch);
    Longer(ops + [Take(1)] + [Apply(1)] + [CountBatch], CheckProcessed);
    assert Run(ops + [Take(1)] + [Apply(1)] + [CountBatch] + [CheckProcessed]) == end;
    assert Missed(end, 1);
  }

  /** The finisher is done with a packet that still waits in the queue. */
  ghost predicate Missed(s: State, id: nat) {
    s.finisher.Drained? && id in s.finisher.want && id in s.queue && !Settled(s, id)
  }

  lemma Longer(ops: seq<Op>, op: Op)
    ensures Run(ops + [op]) == Step(Run(ops), op)
  {
    hide Step;
    assert (ops + [op])[..|ops|] == ops;
  }

  lemma BothSend(sent: State) returns (ops: seq<Op>)
    requires sent == State([0, 1], false, 2, map[1 := Pushed(0), 2 := Leaving], {1}, 1, 0, 0, 0, 0, Waiting, [], [],
                           WaitingFor(1, {1}))
    ensures Run(ops) == sent
  {
    hide Run;
    var s1 := State([0], false, 1, map[1 := Pushed(0)], {}, 0, 0, 0, 0, 0, Waiting, [], [], NotYet);
    var s2 := State([0, 1], false, 2, map[1 := Pushed(0), 2 := Pushed(1)], {}, 0, 0, 0, 0, 0, Waiting, [], [], NotYet);
    assert Run([]) == INITIAL by { RunOfNone(); }
    ops := [] + [TrySend(1)];
    Longer([], TrySend(1));
    assert Step(INITIAL, TrySend(1)) == s1;
    Longer(ops, TrySend(2));
    ops := ops + [TrySend(2)];
    assert Step(s1, TrySend(2)) == s2;
    Longer(ops, CountSend(2));
    ops := ops + [CountSend(2)];
    assert Step(s2, CountSend(2)) == sent.(finisher := NotYet);
    Longer(ops, ReadTarget);
    ops := ops + [ReadTarget];
  }

  lemma RunOfNone()
    ensures Run([]) == INITIAL
  {}

  lemma OneProcessed(sent: State, end: State)
    requires sent.queue == [0, 1] && sent.consumer == Waiting && sent.applied == [] && sent.processed == 0
    requires sent.finisher == WaitingFor(1, {1})
    requires end == sent.(queue := [1], applied := [0], processed := 1, finisher := Drained({1}))
    ensures Step(Step(Step(Step(sent, Take(1)), Apply(1)), CountBatch), CheckProcessed) == end
  {
    assert sent.queue[..1] == [0] && sent.queue[1..] == [1];
    var s1 := Step(sent, Take(1));
    assert s1 == sent.(queue := [1], consumer := Holding([0]));
    var s2 := Step(s1, Apply(1));
    assert s2 == s1.(applied := [0], consumer := Done([0]));
    var s3 := Step(s2, CountBatch);
    assert s3 == s2.(processed := 1, consumer := Waiting);
  }
}
