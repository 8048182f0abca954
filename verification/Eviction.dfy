/** Which rows go when the history is full, and how large it ever gets. */
module Eviction {
  import opened History
  import opened Net
  import opened Rows
  import opened UdpSockets
  import opened Wrappers

  function ClosedKeys(conns: Conns): set<ConnKey> {
    set k | k in conns && conns[k].closed
  }

  /** `v` are the `n` rows of `from` seen last longest ago, or all of them. */
  predicate LongestAgo(conns: Conns, from: set<ConnKey>, v: set<ConnKey>, n: nat)
    requires from <= conns.Keys
  {
    && v <= from
    && |v| == (if n < |from| then n else |from|)
    && (forall a, b | a in v && b in from - v :: conns[a].lastSeen <= conns[b].lastSeen)
  }

  /** The two rounds of an eviction: closed rows first, then, if the ceiling is still exceeded, any. */
  predicate Rounds(conns: Conns, first: set<ConnKey>, second: set<ConnKey>) {
    if |conns| < MAX_CONNS then first == {} && second == {}
    else
      && LongestAgo(conns, ClosedKeys(conns), first, |conns| - TARGET)
      && if |conns| - |first| > MAX_CONNS
         then LongestAgo(conns, conns.Keys - first, second, |conns| - |first| - TARGET)
         else second == {}
  }

  ghost predicate Evicts(conns: Conns, victims: set<ConnKey>) {
    exists first :: first <= victims && Rounds(conns, first, victims - first)
  }

  /** The victims picked when a row for `k` is wanted. */
  ghost predicate Picked(conns: Conns, k: ConnKey, victims: set<ConnKey>) {
    k !in conns ==> Evicts(conns, victims)
  }

  lemma Subsets<T>(a: set<T>, b: set<T>)
    requires a <= b
    ensures |b - a| == |b| - |a| && |a| <= |b|
  {
    assert b == a + (b - a);
  }

  lemma ClosedCount(conns: Conns, first: set<ConnKey>)
    requires |conns| >= MAX_CONNS && LongestAgo(conns, ClosedKeys(conns), first, |conns| - TARGET)
    ensures ClosedKeys(conns) == {} ==> first == {}
    ensures ClosedKeys(conns) != {} ==> |first| >= 1
  {
    if ClosedKeys(conns) != {} {
      var k :| k in ClosedKeys(conns);
      Subsets({k}, ClosedKeys(conns));
    }
  }

  /** How many go: the second round only comes when nothing is closed. */
  lemma Counts(conns: Conns, first: set<ConnKey>, second: set<ConnKey>)
    requires Rounds(conns, first, second) && |conns| <= MAX_CONNS + 1
    ensures first <= ClosedKeys(conns) && second <= conns.Keys - first
    ensures second != {} ==> first == {} && ClosedKeys(conns) == {}
    ensures |conns| - |first| - |second| <= MAX_CONNS
    ensures |conns| - |first| - |second| == MAX_CONNS <==> |conns| - |ClosedKeys(conns)| == MAX_CONNS
  {
    Subsets(ClosedKeys(conns), conns.Keys);
    if |conns| >= MAX_CONNS {
      ClosedCount(conns, first);
      if |conns| - |first| > MAX_CONNS {
        assert first == {};
      }
    }
  }

  lemma Remaining(conns: Conns, first: set<ConnKey>, second: set<ConnKey>)
    requires first <= conns.Keys && second <= conns.Keys - first
    ensures |conns.Keys - (first + second)| == |conns| - |first| - |second|
  {
    Subsets(first, conns.Keys);
    Subsets(second, conns.Keys - first);
    assert conns.Keys - (first + second) == conns.Keys - first - second;
  }

  lemma OldestGo(conns: Conns, first: set<ConnKey>, second: set<ConnKey>)
    requires Rounds(conns, first, second)
    requires first <= ClosedKeys(conns) && second <= conns.Keys - first
    requires second != {} ==> first == {} && ClosedKeys(conns) == {}
    ensures forall a, b | a in first + second && b in conns.Keys - (first + second) && conns[a].closed == conns[b].closed ::
              conns[a].lastSeen <= conns[b].lastSeen
  {}

  /** The two rounds that make up an eviction. */
  lemma RoundsOf(conns: Conns, victims: set<ConnKey>) returns (first: set<ConnKey>, second: set<ConnKey>)
    requires Evicts(conns, victims) && |conns| <= MAX_CONNS + 1
    ensures Rounds(conns, first, second) && victims == first + second
    ensures first <= ClosedKeys(conns) && second <= conns.Keys - first
    ensures second != {} ==> first == {} && ClosedKeys(conns) == {}
    ensures |conns| - |first| - |second| <= MAX_CONNS
  {
    hide Rounds;
    first :| first <= victims && Rounds(conns, first, victims - first);
    second := victims - first;
    Counts(conns, first, second);
  }

  lemma SurvivorsFit(conns: Conns, victims: set<ConnKey>)
    requires Evicts(conns, victims) && |conns| <= MAX_CONNS + 1
    ensures victims <= conns.Keys && |conns.Keys - victims| <= MAX_CONNS
  {
    hide Rounds, Evicts;
    var first, second := RoundsOf(conns, victims);
    ClosedThere(conns);
    Remaining(conns, first, second);
  }

  lemma ClosedThere(conns: Conns)
    ensures ClosedKeys(conns) <= conns.Keys
  {}

  lemma ClosedGoFirst(conns: Conns, victims: set<ConnKey>)
    requires Evicts(conns, victims) && |conns| <= MAX_CONNS + 1
    ensures victims <= conns.Keys
    ensures forall a, b | a in victims && !conns[a].closed && b in conns.Keys - victims :: !conns[b].closed
  {
    hide Rounds, Evicts;
    SurvivorsFit(conns, victims);
    var first, second := RoundsOf(conns, victims);
    forall a, b | a in victims && !conns[a].closed && b in conns.Keys - victims
      ensures !conns[b].closed
    {
      assert a !in ClosedKeys(conns) && a in second;
      assert b !in ClosedKeys(conns);
    }
  }

  lemma OldestGoFirst(conns: Conns, victims: set<ConnKey>)
    requires Evicts(conns, victims) && |conns| <= MAX_CONNS + 1
    ensures victims <= conns.Keys
    ensures forall a, b | a in victims && b in conns.Keys - victims && conns[a].closed == conns[b].closed ::
              conns[a].lastSeen <= conns[b].lastSeen
  {
    hide Rounds, Evicts, ClosedKeys;
    SurvivorsFit(conns, victims);
    var first, second := RoundsOf(conns, victims);
    OldestGo(conns, first, second);
  }

  /** The policy: the survivors fit under the ceiling; a live row goes only when no closed one is left;
      of two rows of the same kind the one seen longer ago goes. */
  lemma Policy(conns: Conns, victims: set<ConnKey>)
    requires Evicts(conns, victims) && |conns| <= 20_001
    ensures victims <= conns.Keys && |conns.Keys - victims| <= 20_000
    ensures forall a, b | a in victims && !conns[a].closed && b in conns.Keys - victims :: !conns[b].closed
    ensures forall a, b | a in victims && b in conns.Keys - victims && conns[a].closed == conns[b].closed ::
              conns[a].lastSeen <= conns[b].lastSeen
  {
    hide Rounds, Evicts, ClosedKeys;
    SurvivorsFit(conns, victims);
    ClosedGoFirst(conns, victims);
    OldestGoFirst(conns, victims);
  }

  /** How many rows an eviction leaves: all below the ceiling; at it, nine tenths, if that many closed rows can go,
      and otherwise what is left without the closed ones. Above the ceiling, with none closed, nine tenths of any. */
  lemma EvictionLeaves(conns: Conns, victims: set<ConnKey>)
    requires Evicts(conns, victims) && |conns| <= 20_001
    ensures var closed := |set k | k in conns && conns[k].closed|;
            |conns.Keys - victims|
            == if |conns| < 20_000 then |conns|
               else if |conns| - closed <= 18_000 || |conns| - closed == 20_001 then 18_000
               else |conns| - closed
  {
    hide Rounds;
    var first, second := RoundsOf(conns, victims);
    ClosedThere(conns);
    Remaining(conns, first, second);
    RoundSizes(conns, first, second);
  }

  lemma RoundSizes(conns: Conns, first: set<ConnKey>, second: set<ConnKey>)
    requires Rounds(conns, first, second) && |conns| <= 20_001
    requires first <= ClosedKeys(conns) && ClosedKeys(conns) <= conns.Keys && second <= conns.Keys - first
    ensures var closed := |ClosedKeys(conns)|;
            |conns| - |first| - |second|
            == if |conns| < 20_000 then |conns|
               else if |conns| - closed <= 18_000 || |conns| - closed == 20_001 then 18_000
               else |conns| - closed
  {
    hide ClosedKeys;
    Subsets(first, conns.Keys);
    Subsets(ClosedKeys(conns), conns.Keys);
  }

  /** A new row takes the history above its ceiling exactly when as many rows are live as the ceiling has. */
  lemma CeilingExceededIff(conns: Conns, k: ConnKey, fromPackets: bool, born: nat, victims: set<ConnKey>)
    requires k !in conns && Evicts(conns, victims) && |conns| <= 20_001
    ensures |Entered(conns, k, fromPackets, born, victims)| > 20_000
            <==> |conns| - |ClosedKeys(conns)| == 20_000
  {
    hide Rounds, Entered, ClosedKeys;
    EnteredSize(conns, k, fromPackets, born, victims);
    SurvivorsCount(conns, victims);
  }

  lemma SurvivorsCount(conns: Conns, victims: set<ConnKey>)
    requires Evicts(conns, victims) && |conns| <= MAX_CONNS + 1
    ensures |conns.Keys - victims| == MAX_CONNS <==> |conns| - |ClosedKeys(conns)| == MAX_CONNS
  {
    hide Rounds;
    var first :| first <= victims && Rounds(conns, first, victims - first);
    var second := victims - first;
    Counts(conns, first, second);
    Remaining(conns, first, second);
    assert victims == first + second;
  }

  lemma EnteredSize(conns: Conns, k: ConnKey, fromPackets: bool, born: nat, victims: set<ConnKey>)
    requires k !in conns && Evicts(conns, victims) && |conns| <= MAX_CONNS + 1
    ensures |Entered(conns, k, fromPackets, born, victims)| == |conns.Keys - victims| + 1 <= MAX_CONNS + 1
  {
    hide Evicts;
    SurvivorsFit(conns, victims);
    var r := Entered(conns, k, fromPackets, born, victims);
    assert r.Keys == (conns.Keys - victims) + {k};
    assert |r| == |r.Keys|;
  }

  // Whole runs.

  ghost predicate PickedAlong(s: Store, socks: seq<SockEntry>, i: nat, poll: Poll)
    requires i <= |socks|
    decreases |socks| - i
  {
    i == |socks|
    || ((Ignored(s.conns, socks[i]) || Picked(s.conns, socks[i].Key(), poll.victims(i)))
        && PickedAlong(OnEntry(s, socks[i], i, poll), socks, i + 1, poll))
  }

  /** Every eviction of the step picks its victims by the policy. */
  ghost predicate Fair(s: Store, op: Op) {
    match op
    case Snapshot(socks, poll) => PickedAlong(Observed(s, socks, poll), socks, 0, poll)
    case Arrival(p, _, _, victims) => Picked(s.conns, PacketKey(s.localIps, p), victims)
    case _ => true
  }

  lemma EnteredBounded(conns: Conns, k: ConnKey, fromPackets: bool, born: nat, victims: set<ConnKey>)
    requires |conns| <= MAX_CONNS + 1 && Picked(conns, k, victims)
    ensures |Entered(conns, k, fromPackets, born, victims)| <= MAX_CONNS + 1
  {
    hide Evicts;
    if k !in conns {
      EnteredSize(conns, k, fromPackets, born, victims);
    }
  }

  lemma {:induction false} EntriesBounded(s: Store, socks: seq<SockEntry>, i: nat, alive: set<ConnKey>, poll: Poll)
    requires i <= |socks| && |s.conns| <= MAX_CONNS + 1 && PickedAlong(s, socks, i, poll)
    ensures |OnEntries(s, socks, i, alive, poll).0.conns| <= MAX_CONNS + 1
    decreases |socks| - i
  {
    hide OnSocket, OwnerOf, AliveAfter, Picked, Entered;
    if i < |socks| {
      var t := OnEntry(s, socks[i], i, poll);
      if !Ignored(s.conns, socks[i]) {
        var k := socks[i].Key();
        EnteredBounded(s.conns, k, false, poll.born(i), poll.victims(i));
        var conns := Entered(s.conns, k, false, poll.born(i), poll.victims(i));
        assert t.conns.Keys == conns.Keys;
        assert |t.conns| == |t.conns.Keys|;
      }
      EntriesBounded(t, socks, i + 1, AliveAfter(s, socks[i], alive), poll);
    }
  }

  lemma StepBounded(s: Store, op: Op)
    requires |s.conns| <= MAX_CONNS + 1 && Fair(s, op)
    ensures |Step(s, op).conns| <= MAX_CONNS + 1
  {
    hide OnSocket, OnPacket, OnAbsence, Naming.Of, OwnerOf, Refreshed, Picked, OnEntries, Entered;
    match op
    case Snapshot(socks, poll) =>
      var t := Observed(s, socks, poll);
      EntriesBounded(t, socks, 0, {}, poll);
      var (u, alive) := OnEntries(t, socks, 0, {}, poll);
      SameSize(u.conns, Swept(u, alive, poll).conns);
    case Arrival(p, born, now, victims) =>
      var k := PacketKey(s.localIps, p);
      EnteredBounded(s.conns, k, true, born, victims);
      SameSize(Entered(s.conns, k, true, born, victims), OnArrival(s, p, born, now, victims).conns);
    case Names(naming) => SameSize(s.conns, OnNames(s, naming).conns);
    case LocalIps(ips) =>
    case Clear =>
  }

  lemma SameSize(a: Conns, b: Conns)
    requires a.Keys == b.Keys
    ensures |a| == |b|
  {
    assert |a| == |a.Keys| && |b| == |b.Keys|;
  }

  /** In every run the history holds at most one row more than its ceiling. */
  lemma {:induction false} HistoryBounded(now: nat, ops: seq<Op>)
    requires forall n | 0 <= n < |ops| :: Fair(Run(Empty(now), ops[..n]), ops[n])
    ensures |Run(Empty(now), ops).conns| <= 20_001
  {
    hide Fair, Step;
    if ops != [] {
      var n := |ops| - 1;
      forall m | 0 <= m < n
        ensures Fair(Run(Empty(now), ops[..n][..m]), ops[..n][m])
      {
        assert ops[..n][..m] == ops[..m];
      }
      HistoryBounded(now, ops[..n]);
      StepBounded(Run(Empty(now), ops[..n]), ops[n]);
    }
  }

  // The ceiling is exceeded: packets between ever other ports make row after row, all of them live.

  function ArrivalAt(port: nat): Op {
    Arrival(Packet(Tcp, V4(1), port, V4(2), 443, 60, None), 0, 0, {})
  }

  function Flood(n: nat): (ops: seq<Op>)
    ensures |ops| == n
  {
    seq(n, (i: nat) => ArrivalAt(i))
  }

  function RowAt(port: nat): ConnKey {
    ConnKey(Tcp, V4(1), port, V4(2), 443)
  }

  lemma NothingToClose(conns: Conns)
    requires ClosedKeys(conns) == {} && |conns| <= MAX_CONNS
    ensures Evicts(conns, {})
  {
    assert Rounds(conns, {}, {} - {});
  }

  lemma OpenRowAdded(conns: Conns, k: ConnKey, c: Conn)
    requires k !in conns && ClosedKeys(conns) == {} && !c.closed
    ensures var r := conns[k := c]; |r| == |conns| + 1 && ClosedKeys(r) == {}
  {
    var r := conns[k := c];
    assert r.Keys == conns.Keys + {k};
    assert |r| == |r.Keys| && |conns| == |conns.Keys|;
    forall l | l in r
      ensures !r[l].closed
    {
      assert l != k ==> l in conns && l !in ClosedKeys(conns);
    }
  }

  lemma OneMore(s: Store, port: nat)
    requires s.localIps == {} && RowAt(port) !in s.conns && ClosedKeys(s.conns) == {} && |s.conns| <= MAX_CONNS
    ensures Fair(s, ArrivalAt(port))
    ensures var t := Step(s, ArrivalAt(port));
            && t.localIps == {} && t.conns.Keys == s.conns.Keys + {RowAt(port)}
            && |t.conns| == |s.conns| + 1 && ClosedKeys(t.conns) == {}
  {
    hide OwnerOf, Evicts, ClosedKeys;
    NothingToClose(s.conns);
    var p := ArrivalAt(port).packet;
    assert PacketKey(s.localIps, p) == RowAt(port);
    assert s.conns - {} == s.conns;
    var c := OnPacket(FreshRow(0, true), p, true, Owner(s, RowAt(port)), 0);
    OpenRowAdded(s.conns, RowAt(port), c);
    assert Step(s, ArrivalAt(port)).conns == s.conns[RowAt(port) := c];
  }

  lemma NoneClosed()
    ensures ClosedKeys(map[]) == {}
  {}

  lemma {:induction false} Filled(n: nat)
    requires n <= MAX_CONNS + 1
    ensures forall m | 0 <= m < n :: Fair(Run(Empty(0), Flood(n)[..m]), Flood(n)[m])
    ensures var t := Run(Empty(0), Flood(n));
            && t.localIps == {} && |t.conns| == n && ClosedKeys(t.conns) == {}
            && forall k | k in t.conns :: k.lport < n
  {
    hide Fair, Step, ClosedKeys;
    if n == 0 {
      NoneClosed();
    } else {
      Filled(n - 1);
      assert Flood(n)[..n - 1] == Flood(n - 1);
      OneMore(Run(Empty(0), Flood(n - 1)), n - 1);
      forall m | 0 <= m < n
        ensures Fair(Run(Empty(0), Flood(n)[..m]), Flood(n)[m])
      {
        assert m < n - 1 ==> Flood(n)[..m] == Flood(n - 1)[..m] && Flood(n)[m] == Flood(n - 1)[m];
      }
    }
  }

  /** The bound is met: a run in which every eviction picks by the policy ends with one row more than
      the ceiling. */
  lemma CeilingIsExceeded()
    ensures var ops := Flood(20_001);
            && (forall m | 0 <= m < |ops| :: Fair(Run(Empty(0), ops[..m]), ops[m]))
            && |Run(Empty(0), ops).conns| == 20_001
  {
    hide Run, Fair, Flood;
    Filled(MAX_CONNS + 1);
  }
}
