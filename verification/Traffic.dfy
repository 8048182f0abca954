/** Conservation of traffic: what was applied is what the rows count, present or evicted. */
module Traffic {
  import opened History
  import opened Net
  import opened Rows
  import opened UdpSockets
  import opened Wrappers

  datatype Measure = Bytes | Packets
  {
    function Of(c: Conn): nat {
      match this
      case Bytes => c.txBytes + c.rxBytes
      case Packets => c.txPkts + c.rxPkts
    }

    function Applied(p: Packet): nat {
      match this case Bytes => p.bytes case Packets => 1
    }
  }

  /** The sum over all rows. */
  ghost function Sum(m: Measure, conns: Conns): nat
    decreases |conns|
  {
    if conns == map[] then 0
    else
      var k :| k in conns;
      Smaller(conns, k);
      m.Of(conns[k]) + Sum(m, conns - {k})
  }

  lemma Smaller(conns: Conns, k: ConnKey)
    requires k in conns
    ensures |conns - {k}| < |conns|
  {
    assert (conns - {k}).Keys == conns.Keys - {k};
    assert |conns - {k}| == |(conns - {k}).Keys|;
  }

  lemma {:induction false} SumPick(m: Measure, conns: Conns, k: ConnKey)
    requires k in conns
    ensures Sum(m, conns) == m.Of(conns[k]) + Sum(m, conns - {k})
    decreases |conns|
  {
    var j :| j in conns && Sum(m, conns) == m.Of(conns[j]) + Sum(m, conns - {j});
    if j != k {
      Smaller(conns, j);
      SumPick(m, conns - {j}, k);
      Smaller(conns, k);
      SumPick(m, conns - {k}, j);
      assert conns - {j} - {k} == conns - {k} - {j};
    }
  }

  lemma {:induction false} SumSame(m: Measure, a: Conns, b: Conns)
    requires a.Keys == b.Keys && forall k | k in a :: m.Of(a[k]) == m.Of(b[k])
    ensures Sum(m, a) == Sum(m, b)
    decreases |a|
  {
    if a != map[] {
      var k :| k in a;
      Smaller(a, k);
      SumPick(m, a, k);
      SumPick(m, b, k);
      SumSame(m, a - {k}, b - {k});
    } else {
      assert b == map[];
    }
  }

  function Only(conns: Conns, ks: set<ConnKey>): Conns {
    map k | k in conns && k in ks :: conns[k]
  }

  lemma {:induction false} SumSplits(m: Measure, conns: Conns, ks: set<ConnKey>)
    ensures Sum(m, conns) == Sum(m, conns - ks) + Sum(m, Only(conns, ks))
    decreases |conns|
  {
    if conns == map[] {
      assert conns - ks == map[] && Only(conns, ks) == map[];
    } else {
      var k :| k in conns;
      Smaller(conns, k);
      SumPick(m, conns, k);
      SumSplits(m, conns - {k}, ks);
      if k in ks {
        SumPick(m, Only(conns, ks), k);
        assert Only(conns, ks) - {k} == Only(conns - {k}, ks);
        assert conns - ks == conns - {k} - ks;
      } else {
        SumPick(m, conns - ks, k);
        assert conns - ks - {k} == conns - {k} - ks;
        assert Only(conns, ks) == Only(conns - {k}, ks);
      }
    }
  }

  lemma SumUpdate(m: Measure, conns: Conns, k: ConnKey, c: Conn)
    ensures Sum(m, conns[k := c]) == Sum(m, conns - {k}) + m.Of(c)
  {
    SumPick(m, conns[k := c], k);
    assert conns[k := c] - {k} == conns - {k};
  }

  /** The traffic of the rows that go when a row for `k` is entered. */
  ghost function LostAt(m: Measure, conns: Conns, k: ConnKey, victims: set<ConnKey>): nat {
    if k in conns then 0 else Sum(m, Only(conns, victims))
  }

  lemma EnteredConserves(m: Measure, conns: Conns, k: ConnKey, fromPackets: bool, born: nat, victims: set<ConnKey>)
    ensures Sum(m, Entered(conns, k, fromPackets, born, victims)) + LostAt(m, conns, k, victims) == Sum(m, conns)
  {
    if k !in conns {
      SumSplits(m, conns, victims);
      SumUpdate(m, conns - victims, k, FreshRow(born, fromPackets));
      assert conns - victims - {k} == conns - victims;
    }
  }

  /** Replacing a row by one that counts `more` adds `more`. */
  lemma RowAdds(m: Measure, conns: Conns, k: ConnKey, c: Conn, more: nat)
    requires k in conns && m.Of(c) == m.Of(conns[k]) + more
    ensures Sum(m, conns[k := c]) == Sum(m, conns) + more
  {
    SumPick(m, conns, k);
    SumUpdate(m, conns, k, c);
  }

  // The row operations.

  /** The change of a row leaves its counters alone. */
  predicate Counts(c: Conn, d: Conn) {
    d.txBytes == c.txBytes && d.rxBytes == c.rxBytes && d.txPkts == c.txPkts && d.rxPkts == c.rxPkts
  }

  lemma AttributeCounts(c: Conn, m: UdpMatch, procs: Option<ProcMap>)
    ensures Counts(c, AttributeUdp(c, m, procs))
  {
    hide MayOwn, NameOf;
  }

  lemma RowsCount(c: Conn, sock: SockEntry, proto: Proto, m: UdpMatch, procs: ProcMap, now: nat)
    ensures Counts(c, OnSocket(c, sock, m, procs, now))
    ensures Counts(c, OnAbsence(c, proto, m, procs, now))
  {
    hide Reused, AttributeUdp, StartedOf, NameOf, Terminal;
    var d := c.(state := sock.state, lastSeen := now, fromPacketsOnly := false, closed := Terminal(sock.state));
    AttributeCounts(d, m, Some(procs));
    AttributeCounts(c, m, Some(procs));
  }

  lemma PacketCounts(c: Conn, p: Packet, outgoing: bool, u: UdpMatch, now: nat)
    ensures var d := OnPacket(c, p, outgoing, u, now);
            if outgoing
            then d.txBytes == c.txBytes + p.bytes && d.txPkts == c.txPkts + 1
                 && d.rxBytes == c.rxBytes && d.rxPkts == c.rxPkts
            else d.rxBytes == c.rxBytes + p.bytes && d.rxPkts == c.rxPkts + 1
                 && d.txBytes == c.txBytes && d.txPkts == c.txPkts
  {
    hide AttributeUdp;
    AttributeCounts(c, u, None);
  }

  // Steps.

  ghost function LostAlong(m: Measure, s: Store, socks: seq<SockEntry>, i: nat, poll: Poll): nat
    requires i <= |socks|
    decreases |socks| - i
  {
    if i == |socks| then 0
    else
      (if Ignored(s.conns, socks[i]) then 0 else LostAt(m, s.conns, socks[i].Key(), poll.victims(i)))
      + LostAlong(m, OnEntry(s, socks[i], i, poll), socks, i + 1, poll)
  }

  /** The traffic counted by the rows that are evicted in the step. */
  ghost function Lost(m: Measure, s: Store, op: Op): nat {
    match op
    case Snapshot(socks, poll) => LostAlong(m, Observed(s, socks, poll), socks, 0, poll)
    case Arrival(p, _, _, victims) => LostAt(m, s.conns, PacketKey(s.localIps, p), victims)
    case _ => 0
  }

  function AppliedBy(m: Measure, op: Op): nat {
    if op.Arrival? then m.Applied(op.packet) else 0
  }

  lemma ArrivalConserves(m: Measure, s: Store, p: Packet, born: nat, now: nat, victims: set<ConnKey>)
    ensures Sum(m, OnArrival(s, p, born, now, victims).conns) + LostAt(m, s.conns, PacketKey(s.localIps, p), victims)
            == Sum(m, s.conns) + m.Applied(p)
  {
    hide OnPacket, OwnerOf, Entered, LostAt;
    var k := PacketKey(s.localIps, p);
    var conns := Entered(s.conns, k, true, born, victims);
    var outgoing := Outgoing(s.localIps, p);
    EnteredConserves(m, s.conns, k, true, born, victims);
    PacketCounts(conns[k], p, outgoing, Owner(s, k), now);
    RowAdds(m, conns, k, OnPacket(conns[k], p, outgoing, Owner(s, k), now), m.Applied(p));
  }

  lemma EntryConserves(m: Measure, s: Store, sock: SockEntry, i: nat, poll: Poll)
    ensures Sum(m, OnEntry(s, sock, i, poll).conns)
            + (if Ignored(s.conns, sock) then 0 else LostAt(m, s.conns, sock.Key(), poll.victims(i)))
            == Sum(m, s.conns)
  {
    hide OnSocket, OwnerOf, Entered, LostAt;
    if !Ignored(s.conns, sock) {
      var k := sock.Key();
      var conns := Entered(s.conns, k, false, poll.born(i), poll.victims(i));
      EnteredConserves(m, s.conns, k, false, poll.born(i), poll.victims(i));
      RowsCount(conns[k], sock, k.proto, Owner(s, k), poll.procs, poll.now);
      RowAdds(m, conns, k, OnSocket(conns[k], sock, Owner(s, k), poll.procs, poll.now), 0);
    }
  }

  lemma {:induction false} EntriesConserve(m: Measure, s: Store, socks: seq<SockEntry>, i: nat, alive: set<ConnKey>,
                                           poll: Poll)
    requires i <= |socks|
    ensures Sum(m, OnEntries(s, socks, i, alive, poll).0.conns) + LostAlong(m, s, socks, i, poll) == Sum(m, s.conns)
    decreases |socks| - i
  {
    hide OnEntry, AliveAfter, LostAt, Ignored;
    if i < |socks| {
      EntryConserves(m, s, socks[i], i, poll);
      EntriesConserve(m, OnEntry(s, socks[i], i, poll), socks, i + 1, AliveAfter(s, socks[i], alive), poll);
    }
  }

  lemma SweptConserves(m: Measure, s: Store, alive: set<ConnKey>, poll: Poll)
    ensures Sum(m, Swept(s, alive, poll).conns) == Sum(m, s.conns)
  {
    hide OnAbsence, OwnerOf;
    var t := Swept(s, alive, poll);
    forall k | k in s.conns
      ensures m.Of(t.conns[k]) == m.Of(s.conns[k])
    {
      RowsCount(s.conns[k], SockEntry(Tcp, V4(0), 0, V4(0), 0, New, None, false, None), k.proto, Owner(s, k),
                poll.procs, poll.now);
    }
    SumSame(m, t.conns, s.conns);
  }

  lemma NamesConserve(m: Measure, s: Store, naming: Naming)
    ensures Sum(m, OnNames(s, naming).conns) == Sum(m, s.conns)
  {
    hide Naming.Of;
    var t := OnNames(s, naming);
    forall k | k in s.conns
      ensures m.Of(t.conns[k]) == m.Of(s.conns[k])
    {
      NamedOnly(naming, k, s.conns[k]);
    }
    SumSame(m, t.conns, s.conns);
  }

  lemma StepConserves(m: Measure, s: Store, op: Op)
    requires op != Clear
    ensures Sum(m, Step(s, op).conns) + Lost(m, s, op) == Sum(m, s.conns) + AppliedBy(m, op)
  {
    hide OnArrival, OnNames, OnEntries, Swept, LostAt, LostAlong, Refreshed;
    match op
    case Snapshot(socks, poll) =>
      var t := Observed(s, socks, poll);
      EntriesConserve(m, t, socks, 0, {}, poll);
      var (u, alive) := OnEntries(t, socks, 0, {}, poll);
      SweptConserves(m, u, alive, poll);
    case Arrival(p, born, now, victims) => ArrivalConserves(m, s, p, born, now, victims);
    case Names(naming) => NamesConserve(m, s, naming);
    case LocalIps(ips) =>
  }

  /** Since the last clearing of the history. */
  ghost function AppliedSince(m: Measure, ops: seq<Op>): nat {
    if ops == [] then 0
    else
      var op := ops[|ops| - 1];
      if op.Clear? then 0 else AppliedSince(m, ops[..|ops| - 1]) + AppliedBy(m, op)
  }

  ghost function LostSince(m: Measure, now: nat, ops: seq<Op>): nat {
    if ops == [] then 0
    else
      var op, init := ops[|ops| - 1], ops[..|ops| - 1];
      if op.Clear? then 0 else LostSince(m, now, init) + Lost(m, Run(Empty(now), init), op)
  }

  /** Conservation: whatever polls, packets and evictions interleave, the packets and bytes applied since
      the last clearing are those the present rows count and those the evicted rows counted. */
  lemma {:induction false} Conserved(m: Measure, now: nat, ops: seq<Op>)
    ensures AppliedSince(m, ops) == Sum(m, Run(Empty(now), ops).conns) + LostSince(m, now, ops)
  {
    hide Lost, AppliedBy;
    if ops == [] {
      assert Sum(m, map[]) == 0;
    } else {
      var op, init := ops[|ops| - 1], ops[..|ops| - 1];
      if op.Clear? {
        assert Run(Empty(now), ops).conns == map[];
        assert Sum(m, map[]) == 0;
      } else {
        hide Step;
        Conserved(m, now, init);
        StepConserves(m, Run(Empty(now), init), op);
      }
    }
  }

  function Reply(p: Packet): Packet {
    Packet(p.proto, p.dst, p.dport, p.src, p.sport, p.bytes, None)
  }

  /** A packet is counted as received when its destination alone is on this host, and as sent otherwise. With exactly
      one end on this host, a packet and its reply count in the same row on opposite sides; otherwise each end counts
      what it sends in a row of its own. */
  lemma ReplySharesTheRowIff(localIps: set<IpAddr>, p: Packet)
    requires (p.src, p.sport) != (p.dst, p.dport)
    ensures PacketKey(localIps, p)
            == if p.dst in localIps && p.src !in localIps
               then ConnKey(p.proto, p.dst, p.dport, p.src, p.sport)
               else ConnKey(p.proto, p.src, p.sport, p.dst, p.dport)
    ensures Outgoing(localIps, p) <==> p.src in localIps || p.dst !in localIps
    ensures (PacketKey(localIps, p) == PacketKey(localIps, Reply(p))
             && Outgoing(localIps, p) != Outgoing(localIps, Reply(p)))
            <==> ((p.src in localIps) != (p.dst in localIps))
  {}
}
