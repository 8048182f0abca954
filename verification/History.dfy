/**
 The connection history as a state machine. Its steps are socket polls, packets, name enrichment and
 clearing. A hash map hands out its rows in any order, so the rows an eviction picks are inputs of the step;
 the clock readings are, too.
 */
module History {
  import opened Generations
  import opened Net
  import opened Procs
  import opened Rows
  import opened UdpSockets
  import opened Wrappers

  const MAX_CONNS := 20_000
  const TARGET := 18_000  // nine tenths

  type Conns = map<ConnKey, Conn>

  datatype Store = Store(conns: Conns, sockets: Table, generation: nat, socketsAt: nat, localIps: set<IpAddr>)

  function Empty(now: nat): Store {
    Store(map[], map[], 0, now, {})
  }

  function Owner(s: Store, k: ConnKey): UdpMatch {
    OwnerOf(s.sockets, s.localIps, k)
  }

  // Entering a row.

  /** A new row may push others out; `victims` are the ones picked. */
  function Entered(conns: Conns, k: ConnKey, fromPackets: bool, born: nat, victims: set<ConnKey>): (r: Conns)
    ensures k in r
  {
    if k in conns then conns else (conns - victims)[k := FreshRow(born, fromPackets)]
  }

  // Packets.

  predicate Outgoing(localIps: set<IpAddr>, p: Packet) {
    p.src in localIps || p.dst !in localIps
  }

  function PacketKey(localIps: set<IpAddr>, p: Packet): ConnKey {
    if Outgoing(localIps, p) then ConnKey(p.proto, p.src, p.sport, p.dst, p.dport)
    else ConnKey(p.proto, p.dst, p.dport, p.src, p.sport)
  }

  function OnArrival(s: Store, p: Packet, born: nat, now: nat, victims: set<ConnKey>): Store {
    var k := PacketKey(s.localIps, p);
    var conns := Entered(s.conns, k, true, born, victims);
    s.(conns := conns[k := OnPacket(conns[k], p, Outgoing(s.localIps, p), Owner(s, k), now)])
  }

  // Polls.

  /** What a poll brings along: the process list, the time, and for each entry the clock reading and the
      victims should a row be made for it. */
  datatype Poll = Poll(procs: ProcMap, now: nat, born: nat -> nat, victims: nat -> set<ConnKey>)

  /** Addresses bound by a socket of the snapshot are addresses of this host. */
  function Bound(socks: seq<SockEntry>): set<IpAddr> {
    set s | s in socks && !s.local.IsUnspecified() && !s.local.IsMulticast() :: s.local
  }

  predicate Ignored(conns: Conns, s: SockEntry) {
    s.rport == 0 || (s.state == TimeWait && s.Key() !in conns)
  }

  /** Entry number `i` of the snapshot. */
  function OnEntry(s: Store, sock: SockEntry, i: nat, poll: Poll): Store {
    if Ignored(s.conns, sock) then s
    else
      var k := sock.Key();
      var conns := Entered(s.conns, k, false, poll.born(i), poll.victims(i));
      s.(conns := conns[k := OnSocket(conns[k], sock, Owner(s, k), poll.procs, poll.now)])
  }

  /** The tuples the snapshot shows alive, as the entries come. */
  function AliveAfter(s: Store, sock: SockEntry, alive: set<ConnKey>): set<ConnKey> {
    if Ignored(s.conns, sock) then alive else alive + {sock.Key()}
  }

  function OnEntries(s: Store, socks: seq<SockEntry>, i: nat, alive: set<ConnKey>, poll: Poll): (Store, set<ConnKey>)
    requires i <= |socks|
    decreases |socks| - i
  {
    if i == |socks| then (s, alive)
    else OnEntries(OnEntry(s, socks[i], i, poll), socks, i + 1, AliveAfter(s, socks[i], alive), poll)
  }

  /** The rows the snapshot does not show. */
  function Swept(s: Store, alive: set<ConnKey>, poll: Poll): Store {
    s.(conns := map k | k in s.conns ::
                  if k in alive then s.conns[k]
                  else OnAbsence(s.conns[k], k.proto, Owner(s, k), poll.procs, poll.now))
  }

  /** The sockets of the snapshot take the place of the old ones before any row is looked at. */
  function Observed(s: Store, socks: seq<SockEntry>, poll: Poll): Store {
    var (table, generation) := Refreshed(s.sockets, s.generation, socks, poll.procs, s.socketsAt);
    s.(sockets := table, generation := generation, socketsAt := poll.now, localIps := s.localIps + Bound(socks))
  }

  function OnPoll(s: Store, socks: seq<SockEntry>, poll: Poll): Store {
    var (t, alive) := OnEntries(Observed(s, socks, poll), socks, 0, {}, poll);
    Swept(t, alive, poll)
  }

  // Names.

  /** Names for all rows: by DNS, as it is known when the row's turn comes, and labels, or by lookups of the
      remote addresses. */
  datatype Naming =
    | Naming(labels: ConnKey -> Option<Labels>, dns: ConnKey -> Option<string>, english: bool)
    | Lookups(ptrs: ConnKey -> Option<string>, anew: bool)
  {
    function Of(k: ConnKey, c: Conn): Conn {
      match this
      case Naming(labels, dns, english) => Enriched(c, labels(k), dns(k), english)
      case Lookups(ptrs, anew) => Resolved(c, ptrs(k), anew)
    }
  }

  /** A row's name is all that changes. */
  lemma NamedOnly(n: Naming, k: ConnKey, c: Conn)
    ensures var d := n.Of(k, c); d == c.(domain := d.domain, ptr := d.ptr)
  {
    hide Resolved, Enriched;
    match n
    case Naming(labels, dns, english) => EnrichedOnly(c, labels(k), dns(k), english);
    case Lookups(ptrs, anew) => ResolvedOnly(c, ptrs(k), anew);
  }

  function OnNames(s: Store, n: Naming): Store {
    s.(conns := map k | k in s.conns :: n.Of(k, s.conns[k]))
  }

  // Steps.

  datatype Op =
    | Snapshot(socks: seq<SockEntry>, poll: Poll)
    | Arrival(packet: Packet, born: nat, now: nat, victims: set<ConnKey>)
    | Names(naming: Naming)
    | LocalIps(ips: set<IpAddr>)
    | Clear

  function Step(s: Store, op: Op): Store {
    match op
    case Snapshot(socks, poll) => OnPoll(s, socks, poll)
    case Arrival(p, born, now, victims) => OnArrival(s, p, born, now, victims)
    case Names(naming) => OnNames(s, naming)
    case LocalIps(ips) => s.(localIps := set ip | ip in ips && !ip.IsUnspecified() && !ip.IsMulticast())
    case Clear => s.(conns := map[])
  }

  function Run(s: Store, ops: seq<Op>): Store {
    if ops == [] then s else Step(Run(s, ops[..|ops| - 1]), ops[|ops| - 1])
  }

  /** The row of `k` is one and the same before and after the step: it was there and is no victim. */
  ghost predicate Lives(s: Store, op: Op, k: ConnKey) {
    && k in s.conns
    && match op
       case Snapshot(socks, poll) => forall i: nat :: k !in poll.victims(i)
       case Arrival(_, _, _, victims) => k !in victims
       case Clear => false
       case _ => true
  }
}
