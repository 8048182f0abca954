/** The table of TCP flows: bounded, with an idle lifetime, reset by SYN and RST. */
module TlsAssembler {
  import opened Bytes
  import opened ClientHello
  import opened Hello
  import L = LateBase
  import opened Net
  import Oldest
  import opened Reassembly
  import opened Tls
  import opened TlsFlow
  import opened Wrappers

  const MAX_FLOWS := 256
  const TTL := 10_000  // milliseconds

  /** One direction of a TCP connection. */
  datatype Key = Key(src: IpAddr, sport: nat, dst: IpAddr, dport: nat)

  datatype Tracked = Tracked(flow: FlowState, seen: nat)

  datatype Arrival = Arrival(sequence: nat, flags: nat, data: seq<byte>, now: nat)
  {
    predicate Fin() { flags % 2 == 1 }
    predicate Syn() { flags / 2 % 2 == 1 }
    predicate Rst() { flags / 4 % 2 == 1 }

    /** The number of the first data byte: a SYN takes one number itself. */
    function DataSequence(): nat {
      (sequence + if Syn() then 1 else 0) % TWO32
    }
  }

  predicate Expired(t: Tracked, now: nat) {
    t.seen + TTL <= now
  }

  /** The entry that is still good when the segment arrives. */
  function Remaining(entry: Option<Tracked>, a: Arrival): Option<Tracked> {
    if entry.None? || a.Syn() || Expired(entry.value, a.now) then None else entry
  }

  /** What a segment does to the entry of its own key. */
  function Fed(entry: Option<Tracked>, a: Arrival): (r: (Option<Tracked>, Option<string>))
    requires entry.Some? ==> entry.value.flow.Valid()
    ensures r.0.Some? ==> r.0.value.flow.Valid()
  {
    if a.Rst() then (None, None)
    else if !a.Syn() && a.data == [] then
      (Remaining(entry, a), None)
    else
      Continued(Remaining(entry, a), a)
  }

  /** The flow takes the segment; a flow that is not there yet is opened. */
  function Continued(entry: Option<Tracked>, a: Arrival): (r: (Option<Tracked>, Option<string>))
    requires entry.Some? ==> entry.value.flow.Valid()
    ensures r.0.Some? ==> r.0.value.flow.Valid()
  {
    var r := Added(Opened(entry, a), a.DataSequence(), a.data);
    (Kept(r.0, a), r.1)
  }

  function Opened(entry: Option<Tracked>, a: Arrival): FlowState {
    if entry.Some? then entry.value.flow
    else Fresh(if a.Syn() then Some((a.sequence + 1) % TWO32) else None)
  }

  function Kept(flow: FlowState, a: Arrival): Option<Tracked> {
    if a.Fin() then None else Some(Tracked(flow, a.now))
  }

  function Lookup(flows: map<Key, Tracked>, key: Key): Option<Tracked> {
    if key in flows then Some(flows[key]) else None
  }

  /** A flow may only go for a new one, when the table is full, and it is the one silent for longest. */
  predicate Evictable(flows: map<Key, Tracked>, key: Key, victim: Option<Key>) {
    victim.Some? ==>
      && victim.value in flows && key !in flows && |flows| >= 256
      && forall j | j in flows :: flows[victim.value].seen <= flows[j].seen
  }

  lemma SilentLongest(flows: map<Key, Tracked>, key: Key, victim: Option<Key>)
    requires Evictable(flows, key, victim) && victim.Some?
    ensures key !in flows && victim.value in flows && |flows| >= 256
    ensures forall j | j in flows :: flows[victim.value].seen <= flows[j].seen
  {}

  function Without(flows: map<Key, Tracked>, victim: Option<Key>): map<Key, Tracked> {
    if victim.Some? then flows - {victim.value} else flows
  }

  /** The table after a segment, given what had to make room. */
  function TableAfter(flows: map<Key, Tracked>, key: Key, a: Arrival, victim: Option<Key>): map<Key, Tracked>
    requires key in flows ==> flows[key].flow.Valid()
  {
    var rest := Without(flows - {key}, victim);
    var r := Fed(Lookup(flows, key), a).0;
    if r.Some? then rest[key := r.value] else rest
  }

  lemma TableIs(was: map<Key, Tracked>, key: Key, a: Arrival, victim: Option<Key>, now: map<Key, Tracked>)
    requires (key in was ==> was[key].flow.Valid()) && victim != Some(key)
    requires now - {key} == Without(was - {key}, victim) && Lookup(now, key) == Fed(Lookup(was, key), a).0
    ensures now == TableAfter(was, key, a, victim)
  {
    hide Fed;
    assert key !in now ==> now - {key} == now;
    assert key in now ==> (now - {key})[key := now[key]] == now;
  }

  lemma NobodyGoes(flows: map<Key, Tracked>, key: Key)
    ensures Evictable(flows, key, None) && Lookup(flows - {key}, key) == None
    ensures flows - {key} - {key} == Without(flows - {key}, None)
  {
    assert flows - {key} - {key} == flows - {key};
  }

  class Assembler {
    var flows: map<Key, Tracked>

    ghost predicate Valid()
      reads this
    {
      |flows| <= 256 && forall k | k in flows :: flows[k].flow.Valid()
    }

    constructor ()
      ensures Valid() && flows == map[]
    {
      flows := map[];
    }

    /** The entry of the key follows `Fed`; of the other flows only the evictable one may go. */
    method Feed(key: Key, a: Arrival) returns (name: Option<string>, ghost victim: Option<Key>)
      requires Valid()
      modifies this
      ensures Valid()
      ensures name == Fed(Lookup(old(flows), key), a).1
      ensures flows == TableAfter(old(flows), key, a, victim)
      ensures Evictable(old(flows), key, victim)
      ensures victim.Some? ==>
                && key !in old(flows) && victim.value in old(flows) && |old(flows)| >= 256
                && forall j | j in old(flows) :: old(flows)[victim.value].seen <= old(flows)[j].seen
    {
      hide Fed, TableAfter, Evictable, Without, Lookup;
      if a.Rst() {
        name, victim := Reset(key, a);
      } else {
        name, victim := FeedOpen(key, a);
      }
      TableIs(old(flows), key, a, victim, flows);
      if victim.Some? { SilentLongest(old(flows), key, victim); }
    }

    /** A RST ends the flow of its key. */
    method Reset(key: Key, a: Arrival) returns (name: Option<string>, ghost victim: Option<Key>)
      requires Valid() && a.Rst()
      modifies this
      ensures Valid()
      ensures (Lookup(flows, key), name) == Fed(Lookup(old(flows), key), a)
      ensures flows - {key} == Without(old(flows) - {key}, victim)
      ensures Evictable(old(flows), key, victim) && victim != Some(key)
    {
      NobodyGoes(flows, key);
      Forget(key);
      return None, None;
    }

    /** A segment that is no RST. */
    method FeedOpen(key: Key, a: Arrival) returns (name: Option<string>, ghost victim: Option<Key>)
      requires Valid() && !a.Rst()
      modifies this
      ensures Valid()
      ensures (Lookup(flows, key), name) == Fed(Lookup(old(flows), key), a)
      ensures flows - {key} == Without(old(flows) - {key}, victim)
      ensures Evictable(old(flows), key, victim) && victim != Some(key)
    {
      victim := None;
      Refresh(key, a);
      if !a.Syn() && a.data == [] {
        return None, None;
      }
      ghost var kept := flows;
      victim := MakeRoom(key);
      EvictionAside(old(flows), kept, key, victim);
      name := Take(key, a);
    }

    /** Drops the key's flow when it was silent too long, or when a SYN opens a new connection. */
    method Refresh(key: Key, a: Arrival)
      modifies this
      ensures flows == old(flows) || flows == old(flows) - {key}
      ensures |flows| <= |old(flows)|
      ensures Lookup(flows, key) == Remaining(Lookup(old(flows), key), a)
    {
      if key in flows && Expired(flows[key], a.now) {
        Forget(key);
      }
      if a.Syn() {
        Forget(key);
      }
    }

    /** Appends to the flow of the key, opening one when there is none. */
    method Take(key: Key, a: Arrival) returns (name: Option<string>)
      requires Valid() && (key in flows || |flows| < MAX_FLOWS)
      modifies this
      ensures Valid() && flows - {key} == old(flows) - {key}
      ensures (Lookup(flows, key), name) == Continued(Lookup(old(flows), key), a)
    {
      var flow := new Flow.Resume(Opened(Lookup(flows, key), a));
      name := flow.Add(a.DataSequence(), a.data);
      Put(key, Tracked(flow.State(), a.now));
      if a.Fin() {
        Forget(key);
      }
    }

    method MakeRoom(key: Key) returns (ghost victim: Option<Key>)
      requires Valid()
      modifies this
      ensures Valid() && (key in flows || |flows| < MAX_FLOWS)
      ensures flows == Without(old(flows), victim) && Evictable(old(flows), key, victim)
    {
      victim := None;
      if key !in flows && |flows| >= MAX_FLOWS {
        var seen := map k | k in flows :: flows[k].seen;
        assert seen.Keys == flows.Keys;
        var silent := Oldest.Find(seen);
        Forget(silent);
        victim := Some(silent);
      }
    }

    method Put(key: Key, t: Tracked)
      requires t.flow.Valid() && Valid() && (key in flows || |flows| < MAX_FLOWS)
      modifies this
      ensures Valid() && Lookup(flows, key) == Some(t) && flows - {key} == old(flows) - {key}
    {
      flows := flows[key := t];
      assert flows.Keys == old(flows).Keys + {key};
      assert flows - {key} == old(flows) - {key};
    }

    method Forget(key: Key)
      modifies this
      ensures flows == old(flows) - {key}
      ensures |flows| == |old(flows)| - if key in old(flows) then 1 else 0
    {
      flows := flows - {key};
      assert flows.Keys == old(flows).Keys - {key};
    }
  }

  /** Dropping the key's own entry first and evicting then touches the others as evicting alone does. */
  lemma EvictionAside(flows: map<Key, Tracked>, kept: map<Key, Tracked>, key: Key, victim: Option<Key>)
    requires |flows| <= MAX_FLOWS && (kept == flows || kept == flows - {key})
    requires Evictable(kept, key, victim)
    ensures Evictable(flows, key, victim) && victim != Some(key)
    ensures Without(kept, victim) - {key} == Without(flows - {key}, victim)
    ensures Lookup(Without(kept, victim), key) == Lookup(kept, key)
  {
    if key in flows {
      assert (flows - {key}).Keys == flows.Keys - {key};
      assert |flows - {key}| == |flows| - 1;
    } else {
      assert kept == flows;
    }
  }

  // Whole connections.

  /** The entry of a key after its segments. */
  ghost function Entry(start: Option<Tracked>, arrivals: seq<Arrival>): (t: Option<Tracked>)
    requires start.Some? ==> start.value.flow.Valid()
    ensures t.Some? ==> t.value.flow.Valid()
  {
    if arrivals == [] then start else
      Fed(Entry(start, arrivals[..|arrivals| - 1]), arrivals[|arrivals| - 1]).0
  }

  function Mention(name: Option<string>): seq<string> {
    if name.Some? then [name.value] else []
  }

  ghost function FedNames(start: Option<Tracked>, arrivals: seq<Arrival>): seq<string>
    requires start.Some? ==> start.value.flow.Valid()
  {
    if arrivals == [] then [] else
      var init := arrivals[..|arrivals| - 1];
      FedNames(start, init) + Mention(Fed(Entry(start, init), arrivals[|arrivals| - 1]).1)
  }

  /** The control bits of the TCP header (section 3.1 of RFC 9293): FIN weighs 1, SYN 2, RST 4. */
  predicate Flagged(a: Arrival, weight: nat)
    requires weight > 0
  {
    a.flags / weight % 2 == 1
  }

  /** The segment keeps the flow alive: it opens it or brings data. */
  predicate Carrying(a: Arrival) {
    !Flagged(a, 4) && (Flagged(a, 2) || a.data != [])
  }

  /** The flow is given up behind this segment; a FIN without data is passed over. */
  predicate Closing(a: Arrival) {
    Flagged(a, 4) || (Flagged(a, 1) && Carrying(a))
  }

  /** A segment finds no flow to go on with: there is none, it was silent for ten seconds, or a SYN begins another. */
  predicate StartsAnew(start: Option<Tracked>, a: Arrival) {
    start.None? || Flagged(a, 2) || start.value.seen + 10_000 <= a.now
  }

  /** When the flow was last seen. */
  ghost function LastSeen(arrivals: seq<Arrival>): nat {
    if arrivals == [] then 0
    else
      var last := arrivals[|arrivals| - 1];
      if Carrying(last) then last.now else LastSeen(arrivals[..|arrivals| - 1])
  }

  /** The segment number `n` of a connection: no second SYN, the clock does not go back, and data only on a
      flow that is not given up and was seen within the idle lifetime. */
  ghost predicate InConnection(arrivals: seq<Arrival>, n: nat)
    requires 1 <= n < |arrivals|
  {
    var a := arrivals[n];
    && !Flagged(a, 2) && arrivals[n - 1].now <= a.now
    && (Carrying(a) ==>
          && a.now < LastSeen(arrivals[..n]) + 10_000
          && forall i | 0 <= i < n :: !Closing(arrivals[i]))
  }

  /** A connection seen from its SYN on, or from some data on, with acknowledgements, FIN and RST as they come. */
  ghost predicate Connection(arrivals: seq<Arrival>) {
    && arrivals != [] && Carrying(arrivals[0])
    && forall n | 1 <= n < |arrivals| :: InConnection(arrivals, n)
  }

  /** Where the stream begins, if the first segment tells it. */
  function BaseOf(a: Arrival): Option<nat> {
    if Flagged(a, 2) then Some((a.sequence + 1) % 0x1_0000_0000) else None
  }

  /** A three-way handshake, data and a closing FIN make a connection. */
  lemma OrdinaryConnection(syn: Arrival, ack: Arrival, data: Arrival, fin: Arrival)
    requires syn.flags == 2 && ack.flags == data.flags == 16 && fin.flags == 17
    requires syn.data == ack.data == fin.data == [] && data.data != []
    requires syn.now <= ack.now <= data.now <= fin.now && data.now < syn.now + 10_000
    ensures Connection([syn, ack, data, fin])
    ensures Segments([syn, ack, data, fin]) == [SegmentOf(syn), SegmentOf(data)]
  {
    var all := [syn, ack, data, fin];
    assert all[..3] == [syn, ack, data] && all[..2] == [syn, ack] && all[..1] == [syn];
    assert [syn, ack, data][..2] == [syn, ack] && [syn, ack][..1] == [syn] && [syn][..0] == [];
    assert LastSeen([syn]) == syn.now;
    assert LastSeen([syn, ack]) == LastSeen([syn]);
    assert Segments([syn]) == [] + [SegmentOf(syn)];
    assert Segments([syn, ack]) == Segments([syn]) + [];
    assert Segments([syn, ack, data]) == Segments([syn, ack]) + [SegmentOf(data)];
    assert Segments(all) == Segments([syn, ack, data]) + [];
  }

  /** Data are numbered from the sequence number on; a SYN takes that number itself. */
  function SegmentOf(a: Arrival): Segment {
    Segment((if Flagged(a, 2) then a.sequence + 1 else a.sequence) % 0x1_0000_0000, a.data)
  }

  /** The segments the flow takes. */
  ghost function Segments(arrivals: seq<Arrival>): seq<Segment> {
    if arrivals == [] then []
    else
      var last := arrivals[|arrivals| - 1];
      Segments(arrivals[..|arrivals| - 1]) + if Carrying(last) then [SegmentOf(last)] else []
  }

  lemma FedSteady(t: Tracked, a: Arrival)
    requires t.flow.Valid() && !a.Syn() && Carrying(a) && a.now < t.seen + TTL
    ensures var r := Added(t.flow, a.DataSequence(), a.data);
            Fed(Some(t), a) == (Kept(r.0, a), r.1)
  {}

  /** A SYN starts anew, whatever was there; other data does when nothing is there any more. */
  lemma FedOpening(entry: Option<Tracked>, a: Arrival)
    requires Carrying(a) && Remaining(entry, a) == None && (entry.Some? ==> entry.value.flow.Valid())
    ensures var r := Added(Fresh(BaseOf(a)), a.DataSequence(), a.data);
            Fed(entry, a) == (Kept(r.0, a), r.1)
  {
    hide Added;
  }

  lemma FedIdle(entry: Option<Tracked>, a: Arrival)
    requires !a.Syn() && !Carrying(a) && (entry.Some? ==> entry.value.flow.Valid())
    ensures Fed(entry, a) == (if a.Rst() then None else Remaining(entry, a), None)
  {}

  /** The flow of the connection is as its segments left it, or it is gone and no data will come any more. */
  ghost predicate IsFlow(entry: Option<Tracked>, arrivals: seq<Arrival>, base: Option<nat>)
    requires arrivals != []
  {
    || entry == Some(Tracked(L.FlowOf(base, Segments(arrivals)), LastSeen(arrivals)))
    || (entry == None && ((exists i :: 0 <= i < |arrivals| && Closing(arrivals[i]))
                          || LastSeen(arrivals) + 10_000 <= arrivals[|arrivals| - 1].now))
  }

  lemma ConnectionPrefix(arrivals: seq<Arrival>)
    requires Connection(arrivals) && |arrivals| > 1
    ensures Connection(arrivals[..|arrivals| - 1])
  {
    var init := arrivals[..|arrivals| - 1];
    forall n | 1 <= n < |init|
      ensures InConnection(init, n)
    {
      assert InConnection(arrivals, n);
      assert init[..n] == arrivals[..n];
    }
  }

  lemma IdleStep(entry: Option<Tracked>, arrivals: seq<Arrival>, base: Option<nat>)
    requires |arrivals| > 1 && Connection(arrivals) && !Carrying(arrivals[|arrivals| - 1])
    requires entry.Some? ==> entry.value.flow.Valid()
    requires IsFlow(entry, arrivals[..|arrivals| - 1], base)
    ensures IsFlow(Fed(entry, arrivals[|arrivals| - 1]).0, arrivals, base)
    ensures Fed(entry, arrivals[|arrivals| - 1]).1 == None
  {
    hide Fed, L.FlowOf, Carrying;
    var n := |arrivals| - 1;
    var init, last := arrivals[..n], arrivals[n];
    assert InConnection(arrivals, n);
    assert Segments(init) + [] == Segments(init);
    FedIdle(entry, last);
    if entry == None && exists i :: 0 <= i < |init| && Closing(init[i]) {
      var i :| 0 <= i < |init| && Closing(init[i]);
      assert Closing(arrivals[i]);
    }
    if last.Rst() { assert Closing(arrivals[n]); }
  }

  lemma CarryingStep(entry: Option<Tracked>, arrivals: seq<Arrival>, base: Option<nat>)
    requires |arrivals| > 1 && Connection(arrivals) && Carrying(arrivals[|arrivals| - 1])
    requires entry.Some? ==> entry.value.flow.Valid()
    requires IsFlow(entry, arrivals[..|arrivals| - 1], base)
    ensures var init, last := arrivals[..|arrivals| - 1], arrivals[|arrivals| - 1];
            var r := Added(L.FlowOf(base, Segments(init)), last.DataSequence(), last.data);
            && L.FlowOf(base, Segments(arrivals)) == r.0 && Fed(entry, last).1 == r.1
            && IsFlow(Fed(entry, last).0, arrivals, base)
  {
    hide Fed, Added, Carrying, L.FlowOf;
    var n := |arrivals| - 1;
    var init, last := arrivals[..n], arrivals[n];
    assert InConnection(arrivals, n);
    assert forall i | 0 <= i < |init| :: init[i] == arrivals[i];
    assert entry == Some(Tracked(L.FlowOf(base, Segments(init)), LastSeen(init)));
    FedSteady(entry.value, last);
    RunMore(base, Segments(init), SegmentOf(last));
    if last.Fin() { assert Closing(arrivals[n]); }
  }

  lemma RunMore(base: Option<nat>, segments: seq<Segment>, segment: Segment)
    ensures var r := Added(L.FlowOf(base, segments), segment.sequence, segment.data);
            && L.FlowOf(base, segments + [segment]) == r.0
            && L.NamesOf(base, segments + [segment]) == L.NamesOf(base, segments) + Mention(r.1)
  {
    hide Added;
    assert (segments + [segment])[..|segments|] == segments;
  }

  lemma FirstStep(start: Option<Tracked>, a: Arrival)
    requires start.Some? ==> start.value.flow.Valid()
    requires Carrying(a) && StartsAnew(start, a)
    ensures IsFlow(Entry(start, [a]), [a], BaseOf(a))
    ensures FedNames(start, [a]) == L.NamesOf(BaseOf(a), Segments([a]))
  {
    hide Fed, Added;
    assert [a][..0] == [];
    FedOpening(start, a);
    assert [] + [SegmentOf(a)] == [SegmentOf(a)];
    var one, base := [a], BaseOf(a);
    assert one[|one| - 1] == a && Carrying(a);
    assert Segments(one) == [SegmentOf(a)];
    assert LastSeen(one) == a.now;
    assert Entry(start, []) == start && FedNames(start, []) == [];
    assert Entry(start, [a]) == Fed(start, a).0 && FedNames(start, [a]) == [] + Mention(Fed(start, a).1);
    RunMore(base, [], SegmentOf(a));
    assert L.FlowOf(base, []) == Fresh(base) && L.NamesOf(base, []) == [];
    if a.Fin() {
      assert Closing([a][0]);
      assert Entry(start, [a]) == None;
    } else {
      assert Entry(start, [a]) == Some(Tracked(L.FlowOf(base, Segments([a])), LastSeen([a])));
    }
  }

  /** While its flow stays in the table, the assembler reports for a connection what the flow reports for the
      segments with data, based on the SYN or not, between acknowledgements, FIN and RST. A SYN starts anew
      whatever was there; without one the entry before must be gone. */
  lemma {:induction false} ConnectionIsAFlow(start: Option<Tracked>, arrivals: seq<Arrival>)
    requires start.Some? ==> start.value.flow.Valid()
    requires Connection(arrivals) && StartsAnew(start, arrivals[0])
    ensures IsFlow(Entry(start, arrivals), arrivals, BaseOf(arrivals[0]))
    ensures FedNames(start, arrivals) == L.NamesOf(BaseOf(arrivals[0]), Segments(arrivals))
  {
    hide Added, Fed, Carrying, InConnection, IsFlow, L.FlowOf, L.NamesOf, BaseOf, StartsAnew;
    var n, base := |arrivals| - 1, BaseOf(arrivals[0]);
    if n == 0 {
      assert arrivals == [arrivals[0]];
      FirstStep(start, arrivals[0]);
    } else {
      var init, last := arrivals[..n], arrivals[n];
      ConnectionPrefix(arrivals);
      ConnectionIsAFlow(start, init);
      if Carrying(last) {
        CarryingStep(Entry(start, init), arrivals, base);
        RunMore(base, Segments(init), SegmentOf(last));
      } else {
        IdleStep(Entry(start, init), arrivals, base);
        assert Segments(init) + [] == Segments(init) && FedNames(start, init) + [] == FedNames(start, init);
      }
    }
  }

  /** End to end: a ClientHello cut into records, the records into segments of a connection that arrive in
      any order, repeated and overlapping, with whatever carries no data between them: once all its bytes
      have come its name has been reported exactly once. */
  lemma HelloOfConnection(start: Option<Tracked>, arrivals: seq<Arrival>, base: nat,
                          minor: byte, fragments: seq<seq<byte>>, rest: seq<byte>)
    requires start.Some? ==> start.value.flow.Valid()
    requires Connection(arrivals) && BaseOf(arrivals[0]) == Some(base)
    requires fragments != [] && forall f | f in fragments :: 0 < |f| <= 0x4000
    requires IsMessage(Joined(fragments))
    requires Delivery(Wire(minor, fragments, rest), base, Segments(arrivals))
    requires Arrived(Wire(minor, fragments, rest), base, Segments(arrivals), |Wire(minor, fragments, [])|)
    ensures FedNames(start, arrivals) == Mention(Sni(Joined(fragments)))
  {
    hide Connection, FedNames, Delivery, Arrived, Wire, Sni, Segments, Reported;
    ConnectionIsAFlow(start, arrivals);
    HelloIsReportedOnce(minor, fragments, rest, base, Segments(arrivals));
  }

  /** End to end for a connection without its SYN: the first segment that begins with a handshake record is the
      beginning of the stream; before it came segments that could be held. */
  lemma {:induction false} HelloOfLateConnection(start: Option<Tracked>, arrivals: seq<Arrival>, late: seq<Segment>,
                                                 first: Segment,
                              more: seq<Segment>, minor: byte, fragments: seq<seq<byte>>, rest: seq<byte>)
    requires start.Some? ==> start.value.flow.Valid()
    requires Connection(arrivals) && StartsAnew(start, arrivals[0]) && !Flagged(arrivals[0], 2)
    requires Segments(arrivals) == late + [first] + more
    requires L.Begins(first) && forall g | g in late :: !L.Begins(g)
    requires fragments != [] && forall f | f in fragments :: 0 < |f| <= 0x4000
    requires IsMessage(Joined(fragments))
    requires Delivery(Wire(minor, fragments, rest), first.sequence, L.Kept(late) + [first] + more)
    requires Arrived(Wire(minor, fragments, rest), first.sequence, L.Kept(late) + [first] + more,
                     |Wire(minor, fragments, [])|)
    ensures FedNames(start, arrivals) == Mention(Sni(Joined(fragments)))
  {
    hide Connection, FedNames, Delivery, Arrived, Wire, Sni, Segments, L.LateReported, L.Kept, L.Begins;
    ConnectionIsAFlow(start, arrivals);
    L.LateHelloIsReportedOnce(minor, fragments, rest, late, first, more);
  }

  // The whole table.

  datatype Turn = Turn(key: Key, arrival: Arrival, victim: Option<Key>)

  ghost predicate Sound(flows: map<Key, Tracked>) {
    forall k | k in flows :: flows[k].flow.Valid()
  }

  ghost function TableRun(flows: map<Key, Tracked>, turns: seq<Turn>): (r: map<Key, Tracked>)
    requires Sound(flows)
    ensures Sound(r)
  {
    if turns == [] then flows
    else
      var t := turns[|turns| - 1];
      TableAfter(TableRun(flows, turns[..|turns| - 1]), t.key, t.arrival, t.victim)
  }

  /** The names reported for the segments of one key. */
  ghost function TableNames(flows: map<Key, Tracked>, turns: seq<Turn>, k: Key): seq<string>
    requires Sound(flows)
  {
    if turns == [] then []
    else
      var t, init := turns[|turns| - 1], turns[..|turns| - 1];
      TableNames(flows, init, k)
      + if t.key == k then Mention(Fed(Lookup(TableRun(flows, init), k), t.arrival).1) else []
  }

  function Own(turns: seq<Turn>, k: Key): seq<Arrival> {
    if turns == [] then []
    else
      var t := turns[|turns| - 1];
      Own(turns[..|turns| - 1], k) + if t.key == k then [t.arrival] else []
  }

  lemma LookupAfter(flows: map<Key, Tracked>, t: Turn, k: Key)
    requires Sound(flows) && t.victim != Some(k)
    ensures var r := TableAfter(flows, t.key, t.arrival, t.victim);
            Lookup(r, k) == if k == t.key then Fed(Lookup(flows, k), t.arrival).0 else Lookup(flows, k)
  {
    hide Fed;
    var rest := Without(flows - {t.key}, t.victim);
    assert t.key !in rest;
    assert k != t.key ==> (k in rest <==> k in flows) && (k in rest ==> rest[k] == flows[k]);
  }

  /** Keys do not interfere: over any interleaving of segments, a key that never has to make room has the
      entry, and gets the names, that its own segments alone yield. */
  lemma {:induction false} KeysApart(flows: map<Key, Tracked>, turns: seq<Turn>, k: Key)
    requires Sound(flows) && forall t | t in turns :: t.victim != Some(k)
    ensures Lookup(TableRun(flows, turns), k) == Entry(Lookup(flows, k), Own(turns, k))
    ensures TableNames(flows, turns, k) == FedNames(Lookup(flows, k), Own(turns, k))
  {
    hide Fed, TableAfter;
    if turns != [] {
      var t, init := turns[|turns| - 1], turns[..|turns| - 1];
      KeysApart(flows, init, k);
      LookupAfter(TableRun(flows, init), t, k);
      if t.key == k {
        var own := Own(init, k);
        assert (own + [t.arrival])[..|own|] == own;
      } else {
        assert Own(init, k) + [] == Own(init, k);
        assert TableNames(flows, init, k) + [] == TableNames(flows, init, k);
      }
    }
  }

  /** Every victim of the run is one that the table may drop. */
  ghost predicate FairRun(flows: map<Key, Tracked>, turns: seq<Turn>)
    requires Sound(flows)
  {
    forall n | 0 <= n < |turns| :: Evictable(TableRun(flows, turns[..n]), turns[n].key, turns[n].victim)
  }

  function KeysOf(turns: seq<Turn>): set<Key> {
    set t | t in turns :: t.key
  }

  lemma KeysAfter(flows: map<Key, Tracked>, t: Turn)
    requires Sound(flows)
    ensures TableAfter(flows, t.key, t.arrival, t.victim).Keys <= flows.Keys + {t.key}
  {
    hide Fed;
  }

  lemma {:induction false} KeysSeen(flows: map<Key, Tracked>, turns: seq<Turn>)
    requires Sound(flows)
    ensures TableRun(flows, turns).Keys <= flows.Keys + KeysOf(turns)
  {
    hide TableAfter;
    if turns != [] {
      KeysSeen(flows, turns[..|turns| - 1]);
      KeysAfter(TableRun(flows, turns[..|turns| - 1]), turns[|turns| - 1]);
      assert forall t :: t in turns <==> t in turns[..|turns| - 1] || t == turns[|turns| - 1];
    }
  }

  lemma SmallerSet(a: set<Key>, b: set<Key>)
    requires a <= b
    ensures |a| <= |b|
  {
    assert b == a + (b - a);
  }

  /** As long as the keys seen fit the table, nobody has to make room. */
  lemma NoVictims(flows: map<Key, Tracked>, turns: seq<Turn>, n: nat)
    requires Sound(flows) && FairRun(flows, turns) && n < |turns|
    requires |flows.Keys + KeysOf(turns)| <= 256
    ensures turns[n].victim == None
  {
    hide TableRun;
    var t := turns[n];
    var now := TableRun(flows, turns[..n]);
    assert Evictable(now, t.key, t.victim);
    if t.victim.Some? {
      KeysSeen(flows, turns[..n]);
      assert forall u :: u in turns[..n] ==> u in turns;
      assert t in turns;
      assert KeysOf(turns[..n]) <= KeysOf(turns);
      OneMoreKey(now, t.key);
      SmallerSet(now.Keys + {t.key}, flows.Keys + KeysOf(turns));
    }
  }

  lemma OneMoreKey(flows: map<Key, Tracked>, key: Key)
    requires key !in flows
    ensures |flows.Keys + {key}| == |flows| + 1
  {
    assert |flows| == |flows.Keys|;
  }
}
