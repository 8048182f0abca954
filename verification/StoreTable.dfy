/** The store as it is kept: its maps updated in place. History and NameTable state what each operation does. */
module StoreTable {
  import opened Eviction
  import opened History
  import opened Names
  import NameTable
  import opened Net
  import Oldest
  import opened Procs
  import opened Rows
  import opened UdpSockets
  import opened Wrappers

  /** An address record of a DNS answer. */
  datatype DnsAnswer = DnsAnswer(name: string, ip: IpAddr, ttl: nat)

  function Remotes(conns: Conns): set<IpAddr> {
    set k | k in conns :: k.remote
  }

  function LearnedAll(t: NameTable.Table, answers: seq<DnsAnswer>, clock: nat -> nat, dropped: seq<set<IpAddr>>)
    : NameTable.Table
    requires |dropped| == |answers|
  {
    if answers == [] then t
    else
      var n := |answers| - 1;
      NameTable.Learned(LearnedAll(t, answers[..n], clock, dropped[..n]), answers[n].ip, answers[n].name, answers[n].ttl,
              clock(n), dropped[n])
  }

  /** Every trim on the way drops what it may. */
  ghost predicate LearnedFairly(t: NameTable.Table, answers: seq<DnsAnswer>, clock: nat -> nat,
                                dropped: seq<set<IpAddr>>, used: set<IpAddr>)
    requires |dropped| == |answers|
  {
    forall i | 0 <= i < |answers| ::
      NameTable.Fair(LearnedAll(t, answers[..i], clock, dropped[..i]), answers[i].ip, answers[i].name, used, dropped[i])
  }

  lemma LearnedNext(t: NameTable.Table, answers: seq<DnsAnswer>, i: nat, clock: nat -> nat, dropped: seq<set<IpAddr>>,
                    more: set<IpAddr>, used: set<IpAddr>)
    requires i < |answers| && |dropped| == i && LearnedFairly(t, answers[..i], clock, dropped, used)
    requires NameTable.Fair(LearnedAll(t, answers[..i], clock, dropped), answers[i].ip, answers[i].name, used, more)
    ensures LearnedAll(t, answers[..i + 1], clock, dropped + [more])
            == NameTable.Learned(LearnedAll(t, answers[..i], clock, dropped), answers[i].ip, answers[i].name,
                                 answers[i].ttl, clock(i), more)
    ensures LearnedFairly(t, answers[..i + 1], clock, dropped + [more], used)
  {
    hide NameTable.Fair, NameTable.Learned;
    var a, d := answers[..i + 1], dropped + [more];
    assert a[..i] == answers[..i] && d[..i] == dropped;
    forall j | 0 <= j < i + 1
      ensures NameTable.Fair(LearnedAll(t, a[..j], clock, d[..j]), a[j].ip, a[j].name, used, d[j])
    {
      if j < i {
        assert a[..j] == answers[..i][..j] && d[..j] == dropped[..j];
      }
    }
  }

  /** The names a table gives; the clock is read for each row. */
  function NamingOf(labels: ConnKey -> Option<Labels>, t: NameTable.Table, clock: ConnKey -> nat, english: bool): Naming {
    Naming(labels, (k: ConnKey) => NameTable.Lookup(t, k.remote, clock(k)), english)
  }

  // Names of an earlier run, under the texts of their addresses.

  type Saved = map<string, DnsEntry>

  type Parser = string -> Option<IpAddr>

  /** The saved entry is one of the address and is alive. */
  ghost predicate Offers(disk: Saved, parse: Parser, clock: string -> nat, text: string, ip: IpAddr) {
    text in disk && parse(text) == Some(ip) && Restored(disk[text], clock(text)).Some?
  }

  /** What a loaded table says of an address: what it said before, or what a saved entry says. */
  ghost predicate From(before: NameTable.Table, disk: Saved, parse: Parser, clock: string -> nat, ip: IpAddr, e: DnsEntry) {
    || (ip in before && e == before[ip])
    || (exists text :: Offers(disk, parse, clock, text, ip) && Restored(disk[text], clock(text)) == Some(e))
  }

  /** `t` is `before` with what of the saved entries there was room for. */
  ghost predicate Loaded(before: NameTable.Table, disk: Saved, parse: Parser, clock: string -> nat, t: NameTable.Table) {
    && before.Keys <= t.Keys
    && (|t| <= NameTable.MAX_NAMES || t.Keys == before.Keys)
    && (forall ip | ip in t :: From(before, disk, parse, clock, ip, t[ip]))
    && (|before| + |disk| <= NameTable.MAX_NAMES || |t| < NameTable.MAX_NAMES ==>
          forall text, ip | Offers(disk, parse, clock, text, ip) :: ip in t)
  }

  /** A table saved under the texts of its addresses. */
  ghost predicate SavedAs(t: NameTable.Table, disk: Saved, parse: Parser) {
    && (forall text | text in disk :: parse(text).Some? && parse(text).value in t && disk[text] == t[parse(text).value])
    && (forall ip | ip in t :: exists text :: text in disk && parse(text) == Some(ip))
  }

  /** A saved table is read back whole, by a store that knows no names yet. */
  lemma LoadedWhole(t: NameTable.Table, disk: Saved, parse: Parser, now: nat, r: NameTable.Table)
    requires SavedAs(t, disk, parse) && |disk| <= 20_000
    requires Loaded(map[], disk, parse, (_: string) => now, r)
    ensures r == NameTable.Reloaded(t, now)
  {
    hide Restored;
    var clock := (_: string) => now;
    forall ip | ip in t && Restored(t[ip], now).Some?
      ensures ip in r
    {
      var text :| text in disk && parse(text) == Some(ip);
      assert Offers(disk, parse, clock, text, ip);
    }
    forall ip | ip in r
      ensures ip in t && Restored(t[ip], now) == Some(r[ip])
    {
      var text :| Offers(disk, parse, clock, text, ip) && Restored(disk[text], clock(text)) == Some(r[ip]);
    }
  }

  // The pass over the entries of a snapshot, seen from its end.

  function PollOf(procs: ProcMap, now: nat, born: nat -> nat, victims: seq<set<ConnKey>>): Poll {
    Poll(procs, now, born, (i: nat) => if i < |victims| then victims[i] else {})
  }

  ghost function Through(s: History.Store, socks: seq<SockEntry>, n: nat, poll: Poll): (History.Store, set<ConnKey>)
    requires n <= |socks|
  {
    if n == 0 then (s, {})
    else
      var (t, alive) := Through(s, socks, n - 1, poll);
      (OnEntry(t, socks[n - 1], n - 1, poll), AliveAfter(t, socks[n - 1], alive))
  }

  lemma {:induction false} ThroughAgrees(s: History.Store, socks: seq<SockEntry>, n: nat, p: Poll, q: Poll)
    requires n <= |socks| && p.procs == q.procs && p.now == q.now && p.born == q.born
    requires forall i: nat | i < n :: p.victims(i) == q.victims(i)
    ensures Through(s, socks, n, p) == Through(s, socks, n, q)
  {
    hide OnSocket, Owner, Ignored, Entered, AliveAfter;
    if n > 0 {
      ThroughAgrees(s, socks, n - 1, p, q);
    }
  }

  lemma {:induction false} ThroughIsOnEntries(s: History.Store, socks: seq<SockEntry>, n: nat, poll: Poll)
    requires n <= |socks|
    ensures var (t, alive) := Through(s, socks, n, poll);
            OnEntries(t, socks, n, alive, poll) == OnEntries(s, socks, 0, {}, poll)
  {
    hide OnEntry, AliveAfter;
    if n > 0 {
      ThroughIsOnEntries(s, socks, n - 1, poll);
    }
  }

  /** The eviction at entry `n`, if there is one, picks its victims by the policy. */
  ghost predicate PickedAt(s: History.Store, socks: seq<SockEntry>, n: nat, poll: Poll)
    requires n < |socks|
  {
    var t := Through(s, socks, n, poll).0;
    Ignored(t.conns, socks[n]) || Picked(t.conns, socks[n].Key(), poll.victims(n))
  }

  lemma {:induction false} PickedThroughout(s: History.Store, socks: seq<SockEntry>, n: nat, poll: Poll)
    requires n <= |socks| && forall i | n <= i < |socks| :: PickedAt(s, socks, i, poll)
    ensures PickedAlong(Through(s, socks, n, poll).0, socks, n, poll)
    decreases |socks| - n
  {
    hide OnEntry, AliveAfter, Picked, Ignored;
    if n < |socks| {
      assert PickedAt(s, socks, n, poll);
      PickedThroughout(s, socks, n + 1, poll);
    }
  }

  lemma NoRound(all: Conns)
    requires |all| < MAX_CONNS
    ensures Evicts(all, {}) && all == all - {}
  {
    assert Rounds(all, {}, {} - {});
  }

  lemma LeftOver(all: Conns, first: set<ConnKey>)
    requires first <= all.Keys
    ensures |all - first| == |all| - |first| && (all - first).Keys == all.Keys - first
  {
    assert (all - first).Keys == all.Keys - first;
    assert |all - first| == |(all - first).Keys|;
    Subsets(first, all.Keys);
  }

  lemma OneRound(all: Conns, first: set<ConnKey>)
    requires |all| >= MAX_CONNS && LongestAgo(all, ClosedKeys(all), first, |all| - TARGET)
    ensures |all - first| <= MAX_CONNS ==> Evicts(all, first)
  {
    LeftOver(all, first);
    if |all - first| <= MAX_CONNS {
      assert first - first == {};
      assert Rounds(all, first, first - first);
    }
  }

  lemma TwoRounds(all: Conns, first: set<ConnKey>, second: set<ConnKey>)
    requires |all| >= MAX_CONNS && LongestAgo(all, ClosedKeys(all), first, |all| - TARGET)
    requires |all - first| > MAX_CONNS
    requires LongestAgo(all - first, (all - first).Keys, second, |all - first| - TARGET)
    ensures Evicts(all, first + second) && all - first - second == all - (first + second)
  {
    LeftOver(all, first);
    OfTheLeft(all, first, second, |all - first| - TARGET);
    RoundsAre(all, first, second);
  }

  lemma OfTheLeft(all: Conns, first: set<ConnKey>, second: set<ConnKey>, n: nat)
    requires (all - first).Keys == all.Keys - first && LongestAgo(all - first, (all - first).Keys, second, n)
    ensures LongestAgo(all, all.Keys - first, second, n)
  {}

  lemma RoundsAre(all: Conns, first: set<ConnKey>, second: set<ConnKey>)
    requires |all| >= MAX_CONNS && LongestAgo(all, ClosedKeys(all), first, |all| - TARGET)
    requires |all| - |first| > MAX_CONNS && second <= all.Keys - first
    requires LongestAgo(all, all.Keys - first, second, |all| - |first| - TARGET)
    ensures Evicts(all, first + second)
  {
    hide LongestAgo;
    assert first + second - first == second;
    assert Rounds(all, first, first + second - first);
  }

  /** One turn of the pass over a snapshot. */
  lemma {:induction false} Shown(s: History.Store, before: History.Store, after: History.Store, socks: seq<SockEntry>,
                                 i: nat,
              procs: ProcMap, now: nat, born: nat -> nat, victims: seq<set<ConnKey>>, v: set<ConnKey>,
              alive: set<ConnKey>)
    requires i < |socks| && |victims| == i
    requires Through(s, socks, i, PollOf(procs, now, born, victims)).0 == before
    requires alive == AliveAfter(before, socks[i], Through(s, socks, i, PollOf(procs, now, born, victims)).1)
    requires after == if Ignored(before.conns, socks[i]) then before
                      else OnEntry(before, socks[i], 0, Poll(procs, now, (_: nat) => born(i), (_: nat) => v))
    requires Ignored(before.conns, socks[i]) || Picked(before.conns, socks[i].Key(), v)
    requires forall j | 0 <= j < i :: PickedAt(s, socks, j, PollOf(procs, now, born, victims))
    ensures (after, alive) == Through(s, socks, i + 1, PollOf(procs, now, born, victims + [v]))
    ensures forall j | 0 <= j < i + 1 :: PickedAt(s, socks, j, PollOf(procs, now, born, victims + [v]))
  {
    hide OnSocket, OwnerOf, Ignored, Entered, Picked, AliveAfter;
    var p, q := PollOf(procs, now, born, victims), PollOf(procs, now, born, victims + [v]);
    assert forall j: nat | j < i :: p.victims(j) == q.victims(j);
    assert q.victims(i) == v;
    forall j | 0 <= j < i + 1
      ensures PickedAt(s, socks, j, q)
    {
      ThroughAgrees(s, socks, j, p, q);
      assert j == i || PickedAt(s, socks, j, p);
    }
    ThroughAgrees(s, socks, i, p, q);
  }

  lemma NothingShown(s: History.Store, socks: seq<SockEntry>, poll: Poll)
    ensures Through(s, socks, 0, poll) == (s, {})
  {}

  lemma AllShown(s: History.Store, socks: seq<SockEntry>, poll: Poll)
    requires forall i | 0 <= i < |socks| :: PickedAt(s, socks, i, poll)
    ensures Through(s, socks, |socks|, poll) == OnEntries(s, socks, 0, {}, poll) && PickedAlong(s, socks, 0, poll)
  {
    hide OnEntry, AliveAfter, PickedAt, PickedAlong;
    ThroughIsOnEntries(s, socks, |socks|, poll);
    PickedThroughout(s, socks, 0, poll);
  }

  lemma NothingLearned(t: NameTable.Table, answers: seq<DnsAnswer>, clock: nat -> nat, used: set<IpAddr>)
    ensures LearnedAll(t, answers[..0], clock, []) == t && LearnedFairly(t, answers[..0], clock, [], used)
  {}

  class Store {
    var conns: Conns
    var dns: NameTable.Table
    var localIps: set<IpAddr>
    var packetsSeen: nat
    var udpSockets: UdpSockets.Table
    var socketGeneration: nat
    var socketsAt: nat

    constructor (now: nat)
      ensures State() == Empty(now) && dns == map[] && packetsSeen == 0
    {
      conns, dns, localIps, packetsSeen, udpSockets := map[], map[], {}, 0, map[];
      socketGeneration, socketsAt := 0, now;
    }

    function State(): History.Store
      reads this
    {
      History.Store(conns, udpSockets, socketGeneration, socketsAt, localIps)
    }

    method SetLocalIps(ips: Option<set<IpAddr>>)
      modifies this`localIps
      ensures State() == if ips.Some? then Step(old(State()), LocalIps(ips.value)) else old(State())
    {
      if ips.Some? {
        localIps := set ip | ip in ips.value && !ip.IsUnspecified() && !ip.IsMulticast();
      }
    }

    // UDP sockets.

    method FindSame(us: seq<UdpSocket>, s: SockEntry, procs: ProcMap) returns (at: Option<nat>)
      ensures at == Position(us, s, procs)
    {
      hide Same;
      var i := 0;
      while i < |us|
        invariant i <= |us|
        invariant Position(us, s, procs)
                  == match Position(us[i..], s, procs) { case None => None case Some(j) => Some(i + j) }
      {
        if Same(us[i], s, procs) { return Some(i); }
        assert us[i..][1..] == us[i + 1..];
        i := i + 1;
      }
      return None;
    }

    method RefreshUdpSockets(socks: seq<SockEntry>, procs: ProcMap, t: nat)
      modifies this`udpSockets, this`socketGeneration, this`socketsAt
      ensures (udpSockets, socketGeneration)
              == Refreshed(old(udpSockets), old(socketGeneration), socks, procs, old(socketsAt))
      ensures socketsAt == t
    {
      hide Position, Renewed, Opened, SwapRemove;
      var previous: UdpSockets.Table := udpSockets;
      udpSockets := map[];
      var i := 0;
      while i < |socks|
        invariant i <= |socks| && socketsAt == old(socketsAt)
        invariant PassAll(Pass(previous, udpSockets, socketGeneration), socks[i..], procs, socketsAt)
                  == PassAll(Pass(old(udpSockets), map[], old(socketGeneration)), socks, procs, socketsAt)
      {
        var s := socks[i];
        assert socks[i..][1..] == socks[i + 1..];
        if s.proto == Udp {
          var us := At(previous, s.lport);
          var at := FindSame(us, s, procs);
          var socket;
          if at.Some? {
            socket := Renewed(us[at.value], s, procs);
            previous := previous[s.lport := SwapRemove(us, at.value)];
          } else {
            socketGeneration := socketGeneration + 1;
            socket := Opened(s, procs, socketGeneration, socketsAt);
          }
          udpSockets := udpSockets[s.lport := At(udpSockets, s.lport) + [socket]];
        }
        i := i + 1;
      }
      socketsAt := t;
    }

    method FindOwner(k: ConnKey) returns (m: UdpMatch)
      ensures m == Owner(State(), k)
    {
      hide Carries;
      if k.local !in localIps { return Missing; }
      var us := At(udpSockets, k.lport);
      var first: Option<UdpSocket> := None;
      var i := 0;
      while i < |us|
        invariant i <= |us|
        invariant Carriers(us, k) == (if first.Some? then [first.value] else []) + Carriers(us[i..], k)
      {
        assert us[i..][1..] == us[i + 1..];
        if Carries(us[i], k) {
          if first.Some? { return Ambiguous; }
          first := Some(us[i]);
        }
        i := i + 1;
      }
      if first.None? { return Missing; }
      var u := first.value;
      if u.entry.ambiguous { return Ambiguous; }
      return Unique(UdpOwner(u.generation, u.since, u.entry.pid, u.ownerStarted));
    }

    // Rows.

    /** The `n` rows of `from` seen last longest ago. */
    method PickLongestAgo(from: set<ConnKey>, n: nat) returns (v: set<ConnKey>)
      requires from <= conns.Keys
      ensures LongestAgo(conns, from, v, n)
    {
      v := {};
      var left := map k | k in from :: conns[k].lastSeen;
      while left != map[] && |v| < n
        invariant v <= from && left.Keys == from - v && |v| <= n
        invariant forall k | k in left :: left[k] == conns[k].lastSeen
        invariant forall a, b | a in v && b in left :: conns[a].lastSeen <= left[b]
        decreases left.Keys
      {
        var k := Oldest.Find(left);
        v := v + {k};
        left := left - {k};
      }
      Subsets(v, from);
    }

    method Evict() returns (ghost victims: set<ConnKey>)
      modifies this`conns
      ensures Evicts(old(conns), victims) && conns == old(conns) - victims
    {
      hide LongestAgo, Evicts;
      if |conns| < MAX_CONNS {
        NoRound(conns);
        return {};
      }
      var first := PickLongestAgo(ClosedKeys(conns), |conns| - TARGET);
      OneRound(conns, first);
      conns := conns - first;
      victims := first;
      if |conns| > MAX_CONNS {
        var second := PickLongestAgo(conns.Keys, |conns| - TARGET);
        TwoRounds(old(conns), first, second);
        conns := conns - second;
        victims := first + second;
      }
    }

    /** Makes sure there is a row for the tuple. */
    method Entry(k: ConnKey, fromPackets: bool, born: nat) returns (ghost victims: set<ConnKey>)
      modifies this`conns
      ensures Picked(old(conns), k, victims) && conns == Entered(old(conns), k, fromPackets, born, victims)
    {
      hide Evicts;
      victims := {};
      if k !in conns {
        victims := Evict();
        conns := conns[k := FreshRow(born, fromPackets)];
      }
    }

    method Clear()
      modifies this`conns, this`packetsSeen
      ensures State() == Step(old(State()), History.Clear) && packetsSeen == 0
    {
      conns := map[];
      packetsSeen := 0;
    }

    // Socket polls.

    method BindAddresses(socks: seq<SockEntry>)
      modifies this`localIps
      ensures localIps == old(localIps) + Bound(socks)
    {
      var i := 0;
      while i < |socks|
        invariant i <= |socks| && localIps == old(localIps) + Bound(socks[..i])
      {
        assert socks[..i + 1] == socks[..i] + [socks[i]];
        if !socks[i].local.IsUnspecified() && !socks[i].local.IsMulticast() {
          localIps := localIps + {socks[i].local};
        }
        i := i + 1;
      }
      assert socks[..i] == socks;
    }

    method ShowSocket(sock: SockEntry, procs: ProcMap, now: nat, born: nat) returns (ghost victims: set<ConnKey>)
      requires !Ignored(conns, sock)
      modifies this`conns
      ensures Picked(old(conns), sock.Key(), victims)
      ensures State() == OnEntry(old(State()), sock, 0, Poll(procs, now, (_: nat) => born, (_: nat) => victims))
    {
      hide Picked, Entered, OnSocket, OwnerOf;
      var k := sock.Key();
      var m := FindOwner(k);
      victims := Entry(k, false, born);
      conns := conns[k := OnSocket(conns[k], sock, m, procs, now)];
    }

    method ShowAll(socks: seq<SockEntry>, procs: ProcMap, now: nat, born: nat -> nat)
      returns (alive: set<ConnKey>, ghost poll: Poll)
      modifies this`conns
      ensures poll.procs == procs && poll.now == now && poll.born == born
      ensures (State(), alive) == OnEntries(old(State()), socks, 0, {}, poll)
      ensures PickedAlong(old(State()), socks, 0, poll)
    {
      hide OnEntry, Ignored, Picked, Through, PickedAt, PickedAlong, OnEntries;
      NothingShown(State(), socks, PollOf(procs, now, born, []));
      alive := {};
      ghost var victims: seq<set<ConnKey>> := [];
      var i := 0;
      while i < |socks|
        invariant i <= |socks| && |victims| == i
        invariant (State(), alive) == Through(old(State()), socks, i, PollOf(procs, now, born, victims))
        invariant forall j | 0 <= j < i :: PickedAt(old(State()), socks, j, PollOf(procs, now, born, victims))
      {
        ghost var v := {};
        ghost var before := State();
        if !Ignored(conns, socks[i]) {
          alive := alive + {socks[i].Key()};
          v := ShowSocket(socks[i], procs, now, born(i));
        }
        Shown(old(State()), before, State(), socks, i, procs, now, born, victims, v, alive);
        victims := victims + [v];
        i := i + 1;
      }
      poll := PollOf(procs, now, born, victims);
      AllShown(old(State()), socks, poll);
    }

    method SweepAbsent(alive: set<ConnKey>, procs: ProcMap, now: nat)
      modifies this`conns
      ensures forall poll: Poll | poll.procs == procs && poll.now == now :: State() == Swept(old(State()), alive, poll)
    {
      hide OnAbsence, OwnerOf;
      var left := conns.Keys;
      while left != {}
        invariant left <= conns.Keys == old(conns).Keys
        invariant forall k | k in conns ::
            conns[k] == if k in left || k in alive then old(conns)[k]
                        else OnAbsence(old(conns)[k], k.proto, Owner(old(State()), k), procs, now)
        decreases left
      {
        var k :| k in left;
        if k !in alive {
          var m := FindOwner(k);
          conns := conns[k := OnAbsence(conns[k], k.proto, m, procs, now)];
        }
        left := left - {k};
      }
    }

    /** A snapshot of the sockets. */
    method ApplySockets(socks: seq<SockEntry>, procs: ProcMap, now: nat, born: nat -> nat) returns (ghost poll: Poll)
      modifies this
      ensures poll.procs == procs && poll.now == now && poll.born == born
      ensures State() == Step(old(State()), Snapshot(socks, poll)) && Fair(old(State()), Snapshot(socks, poll))
      ensures dns == old(dns) && packetsSeen == old(packetsSeen)
    {
      hide OnEntries, PickedAlong, Swept, Refreshed, Bound;
      BindAddresses(socks);
      RefreshUdpSockets(socks, procs, now);
      var alive;
      alive, poll := ShowAll(socks, procs, now, born);
      SweepAbsent(alive, procs, now);
    }

    // Names.

    method RememberNameFor(ip: IpAddr, name: string, ttl: nat, now: nat) returns (ghost dropped: set<IpAddr>)
      modifies this`dns
      ensures NameTable.Fair(old(dns), ip, name, Remotes(conns), dropped)
      ensures dns == NameTable.Learned(old(dns), ip, name, ttl, now, dropped)
    {
      hide Remembered, Lowered, NameTable.Droppable, Remotes, Acceptable, NameTable.Trimmed;
      dropped := {};
      if !Acceptable(name) { return; }
      dropped := TrimFor(ip);
      if |dns| >= NameTable.MAX_NAMES && ip !in dns { return; }
      dns := dns[ip := Remembered(if ip in dns then dns[ip] else NO_NAMES, Lowered(name), ttl, now)];
    }

    /** Makes room for a new address in a full table. */
    method TrimFor(ip: IpAddr) returns (ghost dropped: set<IpAddr>)
      modifies this`dns
      ensures dns == NameTable.Trimmed(old(dns), ip, dropped)
      ensures |old(dns)| >= NameTable.MAX_NAMES && ip !in old(dns) ==>
                NameTable.Droppable(old(dns), Remotes(conns), NameTable.MAX_NAMES, dropped)
    {
      hide NameTable.Droppable, Remotes;
      dropped := {};
      if |dns| >= NameTable.MAX_NAMES && ip !in dns {
        dns := NameTable.Trim(dns, Remotes(conns), NameTable.MAX_NAMES);
        dropped := old(dns).Keys - dns.Keys;
      }
    }

    method RestoreDns(ip: IpAddr, names: DnsEntry, now: nat) returns (ok: bool)
      modifies this`dns
      ensures ok <==> Restored(names, now).Some? && |old(dns)| < NameTable.MAX_NAMES
      ensures dns == if ok then old(dns)[ip := Restored(names, now).value] else old(dns)
    {
      var r := Restored(names, now);
      if r.None? || |dns| >= NameTable.MAX_NAMES { return false; }
      dns := dns[ip := r.value];
      return true;
    }

    /** The names of an earlier run, as far as there is room. */
    method LoadNames(disk: Saved, parse: Parser, clock: string -> nat)
      modifies this`dns
      ensures Loaded(old(dns), disk, parse, clock, dns)
    {
      hide Restored;
      var left := disk.Keys;
      ghost var refused := false;
      while left != {}
        invariant left <= disk.Keys && old(dns).Keys <= dns.Keys
        invariant |dns| + |left| <= |old(dns)| + |disk|
        invariant |dns| <= NameTable.MAX_NAMES || dns.Keys == old(dns).Keys
        invariant forall ip | ip in dns :: From(old(dns), disk, parse, clock, ip, dns[ip])
        invariant refused ==> |dns| >= NameTable.MAX_NAMES && |old(dns)| + |disk| > NameTable.MAX_NAMES
        invariant !refused ==> forall text, ip | Offers(disk, parse, clock, text, ip) && text !in left :: ip in dns
        decreases left
      {
        var text :| text in left;
        Subsets({text}, left);
        if parse(text).Some? {
          var ok := RestoreDns(parse(text).value, disk[text], clock(text));
          refused := refused || (!ok && Restored(disk[text], clock(text)).Some?);
        }
        left := left - {text};
      }
    }

    /** Names for the rows, each by what is known at the time. */
    method EnrichNames(labels: ConnKey -> Option<Labels>, clock: ConnKey -> nat, english: bool)
      modifies this`conns
      ensures State() == Step(old(State()), History.Names(NamingOf(labels, dns, clock, english)))
    {
      hide Enriched, NameTable.Lookup;
      var left := conns.Keys;
      while left != {}
        invariant left <= conns.Keys == old(conns).Keys
        invariant forall k | k in conns ::
            conns[k] == if k in left then old(conns)[k]
                        else Enriched(old(conns)[k], labels(k), NameTable.Lookup(dns, k.remote, clock(k)), english)
        decreases left
      {
        var k :| k in left;
        conns := conns[k := Enriched(conns[k], labels(k), NameTable.Lookup(dns, k.remote, clock(k)), english)];
        left := left - {k};
      }
    }

    /** The PTR names that lookups of the remote addresses gave. */
    method ApplyLookups(ptrs: ConnKey -> Option<string>, anew: bool)
      modifies this`conns
      ensures State() == Step(old(State()), History.Names(Lookups(ptrs, anew)))
    {
      hide Resolved;
      var left := conns.Keys;
      while left != {}
        invariant left <= conns.Keys == old(conns).Keys
        invariant forall k | k in conns ::
            conns[k] == if k in left then old(conns)[k] else Resolved(old(conns)[k], ptrs(k), anew)
        decreases left
      {
        var k :| k in left;
        conns := conns[k := Resolved(conns[k], ptrs(k), anew)];
        left := left - {k};
      }
    }

    // Packets.

    method RememberAnswers(answers: seq<DnsAnswer>, clock: nat -> nat) returns (ghost dropped: seq<set<IpAddr>>)
      modifies this`dns
      ensures |dropped| == |answers| && dns == LearnedAll(old(dns), answers, clock, dropped)
      ensures LearnedFairly(old(dns), answers, clock, dropped, Remotes(conns))
    {
      hide NameTable.Fair, NameTable.Learned, Remotes, LearnedAll, LearnedFairly;
      dropped := [];
      NothingLearned(dns, answers, clock, Remotes(conns));
      var i := 0;
      while i < |answers|
        invariant i <= |answers| && |dropped| == i
        invariant dns == LearnedAll(old(dns), answers[..i], clock, dropped)
        invariant LearnedFairly(old(dns), answers[..i], clock, dropped, Remotes(conns))
      {
        ghost var more := RememberNameFor(answers[i].ip, answers[i].name, answers[i].ttl, clock(i));
        LearnedNext(old(dns), answers, i, clock, dropped, more, Remotes(conns));
        dropped := dropped + [more];
        i := i + 1;
      }
      assert answers[..i] == answers;
    }

    method ApplyPacket(p: Packet, answers: seq<DnsAnswer>, clock: nat -> nat, born: nat, now: nat)
      returns (k: ConnKey, ghost victims: set<ConnKey>, ghost dropped: seq<set<IpAddr>>)
      modifies this
      ensures packetsSeen == old(packetsSeen) + 1 && k == PacketKey(localIps, p)
      ensures |dropped| == |answers| && dns == LearnedAll(old(dns), answers, clock, dropped)
      ensures LearnedFairly(old(dns), answers, clock, dropped, Remotes(old(conns)))
      ensures Fair(old(State()), Arrival(p, born, now, victims))
      ensures State() == Step(old(State()), Arrival(p, born, now, victims))
    {
      hide OnPacket, OwnerOf, Entered, Picked, LearnedAll, LearnedFairly;
      packetsSeen := packetsSeen + 1;
      dropped := RememberAnswers(answers, clock);
      k := PacketKey(localIps, p);
      var m := FindOwner(k);
      victims := Entry(k, true, born);
      conns := conns[k := OnPacket(conns[k], p, Outgoing(localIps, p), m, now)];
    }
  }
}
