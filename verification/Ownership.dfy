/** Who owns a row: what every run of the connection history keeps. */
module Ownership {
  import opened Generations
  import opened History
  import opened Net
  import opened Procs
  import opened Rows
  import opened UdpSockets
  import opened Wrappers

  /** Which process each generation of UDP sockets turned out to belong to, over the whole run. */
  type Claims = map<nat, int>

  /** A live socket and the claims say the same, as long as the socket is not doubted. */
  ghost predicate SocketGood(u: UdpSocket, claims: Claims) {
    !u.entry.ambiguous ==>
      && (u.entry.pid.Some? ==> u.generation in claims && claims[u.generation] == u.entry.pid.value)
      && (u.generation in claims ==> u.entry.pid == Some(claims[u.generation]))
  }

  ghost predicate SocketsGood(s: Store, claims: Claims) {
    && Apart(s.sockets) && UpTo(s.sockets, s.generation)
    && (forall u | Has(s.sockets, u) :: SocketGood(u, claims))
    && (forall g | g in claims :: g <= s.generation)
  }

  /** The owner of a bound row is the claimed one, and the row is not older than its live socket. */
  ghost predicate RowGood(t: Table, generation: nat, claims: Claims, k: ConnKey, c: Conn) {
    && WellFormed(k, c)
    && (c.udpGeneration.Some? ==> c.udpGeneration.value <= generation)
    && (c.udpGeneration.Some? && c.pid.Some? ==>
          c.udpGeneration.value in claims && claims[c.udpGeneration.value] == c.pid.value)
    && (forall u | Has(t, u) && c.udpGeneration == Some(u.generation) :: c.firstSeen >= u.since)
  }

  ghost predicate RowsGood(s: Store, claims: Claims) {
    forall k | k in s.conns :: RowGood(s.sockets, s.generation, claims, k, s.conns[k])
  }

  ghost predicate Good(s: Store, claims: Claims) {
    SocketsGood(s, claims) && RowsGood(s, claims)
  }

  // Rows against sockets.

  lemma ApartUnique(t: Table, u: UdpSocket, w: UdpSocket)
    requires Apart(t) && Has(t, u) && Has(t, w) && u.generation == w.generation
    ensures u == w
  {
    var p :| p in t && u in t[p];
    var q :| q in t && w in t[q];
    assert ApartList(t[p]);
  }

  /** The owner that is told is a live socket about which there is no doubt. */
  lemma OwnerIsLive(t: Table, localIps: set<IpAddr>, k: ConnKey) returns (u: UdpSocket)
    requires OwnerOf(t, localIps, k).Unique?
    ensures var o := OwnerOf(t, localIps, k).owner;
            && Has(t, u) && !u.entry.ambiguous
            && o == UdpOwner(u.generation, u.since, u.entry.pid, u.ownerStarted)
  {
    var us := Carriers(At(t, k.lport), k);
    u := us[0];
    assert u in us;
    assert k.lport in t && u in t[k.lport];
  }

  lemma GoodAgrees(s: Store, claims: Claims, k: ConnKey, c: Conn)
    requires SocketsGood(s, claims) && RowGood(s.sockets, s.generation, claims, k, c)
    ensures Agrees(c, Owner(s, k))
  {
    hide OwnerOf, Has, Apart;
    if Owner(s, k).Unique? {
      var u := OwnerIsLive(s.sockets, s.localIps, k);
      assert SocketGood(u, claims);
    }
  }

  /** A row that is not bound anew stays good, whatever happens to its other fields. */
  lemma UnboundGood(t: Table, generation: nat, claims: Claims, k: ConnKey, c: Conn, d: Conn)
    requires RowGood(t, generation, claims, k, c) && WellFormed(k, d)
    requires d.udpGeneration == c.udpGeneration && (d.pid == c.pid || d.pid == None) && d.firstSeen == c.firstSeen
    ensures RowGood(t, generation, claims, k, d)
  {
    hide Has, WellFormed;
  }

  lemma TcpGood(t: Table, generation: nat, claims: Claims, k: ConnKey, d: Conn)
    requires k.proto == Tcp && WellFormed(k, d)
    ensures RowGood(t, generation, claims, k, d)
  {
    hide Has;
  }

  lemma AttributeGood(s: Store, claims: Claims, k: ConnKey, c: Conn, procs: Option<ProcMap>)
    requires SocketsGood(s, claims) && k.proto == Udp
    requires RowGood(s.sockets, s.generation, claims, k, c)
    ensures RowGood(s.sockets, s.generation, claims, k, AttributeUdp(c, Owner(s, k), procs))
  {
    hide OwnerOf, Has, Apart, WellFormed;
    var m := Owner(s, k);
    var d := AttributeUdp(c, m, procs);
    GoodAgrees(s, claims, k, c);
    AttributeKeeps(k, c, m, procs);
    if m.Unique? && !c.ownerAmbiguous && MayOwn(c, m.owner) {
      var u := OwnerIsLive(s.sockets, s.localIps, k);
      assert SocketGood(u, claims);
      assert 1 <= u.generation <= s.generation;
      BoundPid(k, c);
      forall w | Has(s.sockets, w) && d.udpGeneration == Some(w.generation)
        ensures d.firstSeen >= w.since
      {
        ApartUnique(s.sockets, u, w);
      }
    } else {
      assert d == c || d == Disputed(c);
      UnboundGood(s.sockets, s.generation, claims, k, c, d);
    }
  }

  lemma BoundPid(k: ConnKey, c: Conn)
    requires WellFormed(k, c) && k.proto == Udp
    ensures c.udpGeneration == None ==> c.pid == None
  {}

  // The row operations keep a row good and alive.

  lemma OnSocketGood(s: Store, claims: Claims, k: ConnKey, c: Conn, sock: SockEntry, procs: ProcMap, now: nat)
    requires SocketsGood(s, claims) && sock.proto == k.proto
    requires RowGood(s.sockets, s.generation, claims, k, c)
    ensures var d := OnSocket(c, sock, Owner(s, k), procs, now);
            RowGood(s.sockets, s.generation, claims, k, d) && Keeps(k, c, d)
  {
    hide OwnerOf, AttributeUdp, SocketsGood, Keeps, WellFormed, Terminal;
    GoodAgrees(s, claims, k, c);
    GoodWellFormed(s, claims, k, c);
    SocketKeeps(k, c, sock, Owner(s, k), procs, now);
    if k.proto == Tcp {
      TcpGood(s.sockets, s.generation, claims, k, OnSocket(c, sock, Owner(s, k), procs, now));
    } else {
      var e := c.(state := sock.state, lastSeen := now, fromPacketsOnly := false, closed := Terminal(sock.state));
      Dressed(k, c, e);
      UnboundGood(s.sockets, s.generation, claims, k, c, e);
      AttributeGood(s, claims, k, e, Some(procs));
    }
  }

  lemma GoodWellFormed(s: Store, claims: Claims, k: ConnKey, c: Conn)
    requires RowGood(s.sockets, s.generation, claims, k, c)
    ensures WellFormed(k, c)
  {}

  /** Fields that have nothing to do with the owner. */
  lemma Dressed(k: ConnKey, c: Conn, d: Conn)
    requires WellFormed(k, c)
    requires d.pid == c.pid && d.ownerStarted == c.ownerStarted && d.pname == c.pname
    requires d.udpGeneration == c.udpGeneration && d.ownerAmbiguous == c.ownerAmbiguous
    ensures WellFormed(k, d)
  {}

  lemma OnAbsenceGood(s: Store, claims: Claims, k: ConnKey, c: Conn, procs: ProcMap, now: nat)
    requires SocketsGood(s, claims) && RowGood(s.sockets, s.generation, claims, k, c)
    ensures var d := OnAbsence(c, k.proto, Owner(s, k), procs, now);
            RowGood(s.sockets, s.generation, claims, k, d) && Keeps(k, c, d)
  {
    hide OwnerOf, AttributeUdp, SocketsGood, RowGood, Keeps, WellFormed;
    GoodAgrees(s, claims, k, c);
    GoodWellFormed(s, claims, k, c);
    AbsenceKeeps(k, c, Owner(s, k), procs, now);
    var d := OnAbsence(c, k.proto, Owner(s, k), procs, now);
    if k.proto == Tcp {
      TcpGood(s.sockets, s.generation, claims, k, d);
    } else {
      AttributeGood(s, claims, k, c, Some(procs));
      var a := AttributeUdp(c, Owner(s, k), Some(procs));
      if d == a.(state := Active) {
        UnboundGood(s.sockets, s.generation, claims, k, a, d);
      } else {
        assert d == c || d == c.(closed := true, state := Closed);
        UnboundGood(s.sockets, s.generation, claims, k, c, d);
      }
    }
  }

  lemma OnPacketGood(s: Store, claims: Claims, k: ConnKey, c: Conn, p: Packet, outgoing: bool, now: nat)
    requires SocketsGood(s, claims) && p.proto == k.proto
    requires RowGood(s.sockets, s.generation, claims, k, c)
    ensures var d := OnPacket(c, p, outgoing, Owner(s, k), now);
            RowGood(s.sockets, s.generation, claims, k, d) && Keeps(k, c, d)
  {
    hide OwnerOf, AttributeUdp, SocketsGood, RowGood, Keeps, WellFormed;
    GoodAgrees(s, claims, k, c);
    GoodWellFormed(s, claims, k, c);
    PacketKeeps(k, c, p, outgoing, Owner(s, k), now);
    var d := OnPacket(c, p, outgoing, Owner(s, k), now);
    if k.proto == Tcp {
      TcpGood(s.sockets, s.generation, claims, k, d);
    } else {
      AttributeGood(s, claims, k, c, None);
      UnboundGood(s.sockets, s.generation, claims, k, AttributeUdp(c, Owner(s, k), None), d);
    }
  }

  lemma FreshGood(s: Store, claims: Claims, k: ConnKey, born: nat, fromPackets: bool)
    ensures RowGood(s.sockets, s.generation, claims, k, FreshRow(born, fromPackets))
  {
    hide Has;
  }

  lemma EnteredGood(s: Store, claims: Claims, k: ConnKey, fromPackets: bool, born: nat, victims: set<ConnKey>)
    requires RowsGood(s, claims)
    ensures RowsGood(s.(conns := Entered(s.conns, k, fromPackets, born, victims)), claims)
    ensures forall j | j in s.conns && j !in victims ::
              j in Entered(s.conns, k, fromPackets, born, victims)
              && Entered(s.conns, k, fromPackets, born, victims)[j] == s.conns[j]
  {
    hide RowGood;
    FreshGood(s, claims, k, born, fromPackets);
  }

  /** The rows of `ks` live on from one history to the next. */
  ghost predicate AllKeep(a: Conns, b: Conns, ks: set<ConnKey>) {
    forall k | k in ks && k in a :: k in b && Keeps(k, a[k], b[k])
  }

  lemma ArrivalGood(s: Store, claims: Claims, p: Packet, born: nat, now: nat, victims: set<ConnKey>)
    requires Good(s, claims)
    ensures Good(OnArrival(s, p, born, now, victims), claims)
    ensures AllKeep(s.conns, OnArrival(s, p, born, now, victims).conns, s.conns.Keys - victims)
  {
    hide RowGood, Keeps, OwnerOf, OnPacket, SocketsGood;
    var k := PacketKey(s.localIps, p);
    EnteredGood(s, claims, k, true, born, victims);
    var conns := Entered(s.conns, k, true, born, victims);
    OnPacketGood(s, claims, k, conns[k], p, Outgoing(s.localIps, p), now);
    SameSockets(s, OnArrival(s, p, born, now, victims), claims);
    KeepsReflexive();
  }

  lemma SameSockets(s: Store, t: Store, claims: Claims)
    requires SocketsGood(s, claims) && t.sockets == s.sockets && t.generation == s.generation
    ensures SocketsGood(t, claims)
  {}

  lemma KeepsReflexive()
    ensures forall k, c :: Keeps(k, c, c)
  {}

  // Polls.

  ghost function Confirmed(t: Table): set<nat> {
    set p, i | p in t && 0 <= i < |t[p]| && !t[p][i].entry.ambiguous && t[p][i].entry.pid.Some? :: t[p][i].generation
  }

  ghost predicate Told(t: Table, g: nat, pid: int) {
    exists u :: Has(t, u) && u.generation == g && !u.entry.ambiguous && u.entry.pid == Some(pid)
  }

  lemma ConfirmedTold(t: Table, g: nat)
    requires g in Confirmed(t)
    ensures exists pid :: Told(t, g, pid)
  {
    var p, i :| p in t && 0 <= i < |t[p]| && !t[p][i].entry.ambiguous && t[p][i].entry.pid.Some? && t[p][i].generation == g;
    var u := t[p][i];
    assert u in t[p] && Has(t, u);
    assert Told(t, g, u.entry.pid.value);
  }

  ghost function PidOf(t: Table, g: nat): (pid: int)
    requires g in Confirmed(t)
    ensures Told(t, g, pid)
  {
    ConfirmedTold(t, g);
    var pid :| Told(t, g, pid);
    pid
  }

  /** The claims after a refresh: every socket whose owner is told and not doubted claims its generation. */
  ghost function Claimed(claims: Claims, t: Table): Claims {
    claims + (map g | g in Confirmed(t) :: PidOf(t, g))
  }

  lemma ToldIsConfirmed(t: Table, u: UdpSocket)
    requires Has(t, u) && !u.entry.ambiguous && u.entry.pid.Some?
    ensures u.generation in Confirmed(t)
  {
    var p :| p in t && u in t[p];
    var i :| 0 <= i < |t[p]| && t[p][i] == u;
  }

  lemma ToldBy(t: Table, g: nat) returns (w: UdpSocket)
    requires g in Confirmed(t)
    ensures Has(t, w) && w.generation == g && !w.entry.ambiguous && w.entry.pid == Some(PidOf(t, g))
  {
    assert Told(t, g, PidOf(t, g));
    w :| Has(t, w) && w.generation == g && !w.entry.ambiguous && w.entry.pid == Some(PidOf(t, g));
  }

  lemma SameClaim(t: Table, u: UdpSocket, g: nat)
    requires Apart(t) && Has(t, u) && u.generation == g && g in Confirmed(t)
    ensures u.entry.pid == Some(PidOf(t, g)) && !u.entry.ambiguous
  {
    hide Apart, Has;
    var w := ToldBy(t, g);
    ApartUnique(t, u, w);
  }

  /** An old claim on the generation of a live socket still holds. */
  lemma ClaimHolds(s: Store, claims: Claims, w: UdpSocket)
    requires SocketsGood(s, claims) && ComesFrom(w, s.sockets, s.generation, s.socketsAt)
    requires w.generation in claims && !w.entry.ambiguous
    ensures w.entry.pid == Some(claims[w.generation])
  {
    hide Has, Apart;
    if w.generation <= s.generation {
      var u :| Has(s.sockets, u) && Continues(u, w);
      assert SocketGood(u, claims);
    }
  }

  /** The poll's sockets keep all claims and add those they tell. */
  lemma ObservedSockets(s: Store, claims: Claims, socks: seq<SockEntry>, poll: Poll)
    requires SocketsGood(s, claims)
    ensures var t := Observed(s, socks, poll);
            var next := Claimed(claims, t.sockets);
            && SocketsGood(t, next)
            && (forall g | g in claims :: g in next && next[g] == claims[g])
  {
    hide Refreshed, Confirmed, PidOf, Has, Apart;
    var t := Observed(s, socks, poll);
    RefreshSound(s.sockets, s.generation, socks, poll.procs, s.socketsAt);
    var next := Claimed(claims, t.sockets);
    forall g | g in Confirmed(t.sockets)
      ensures g <= t.generation
      ensures g in claims ==> claims[g] == PidOf(t.sockets, g)
    {
      var w := ToldBy(t.sockets, g);
      assert ComesFrom(w, s.sockets, s.generation, s.socketsAt);
      if g in claims {
        ClaimHolds(s, claims, w);
      }
    }
    forall u | Has(t.sockets, u)
      ensures SocketGood(u, next)
    {
      ObservedSocket(s, claims, t, next, u);
    }
  }

  lemma ObservedSocket(s: Store, claims: Claims, t: Store, next: Claims, u: UdpSocket)
    requires SocketsGood(s, claims) && Apart(t.sockets) && Has(t.sockets, u)
    requires ComesFrom(u, s.sockets, s.generation, s.socketsAt)
    requires next == Claimed(claims, t.sockets)
    requires forall g | g in claims :: g in next && next[g] == claims[g]
    ensures SocketGood(u, next)
  {
    hide Confirmed, PidOf, Has, Apart, SocketsGood;
    var g := u.generation;
    if !u.entry.ambiguous {
      if u.entry.pid.Some? {
        ToldIsConfirmed(t.sockets, u);
      }
      if g in Confirmed(t.sockets) {
        SameClaim(t.sockets, u, g);
      } else if g in claims {
        ClaimHolds(s, claims, u);
      }
    }
  }

  /** A row outlives a refresh of the sockets: the counter grows, claims are added, a live socket of its
      generation is the one it was bound to. */
  lemma ObservedRow(s: Store, claims: Claims, t: Store, next: Claims, k: ConnKey, c: Conn)
    requires RowGood(s.sockets, s.generation, claims, k, c) && s.generation <= t.generation
    requires forall g | g in claims :: g in next && next[g] == claims[g]
    requires forall w | Has(t.sockets, w) :: ComesFrom(w, s.sockets, s.generation, s.socketsAt)
    ensures RowGood(t.sockets, t.generation, next, k, c)
  {
    hide Has, WellFormed;
    forall w | Has(t.sockets, w) && c.udpGeneration == Some(w.generation)
      ensures c.firstSeen >= w.since
    {
      var u :| Has(s.sockets, u) && Continues(u, w);
    }
  }

  lemma ObservedGood(s: Store, claims: Claims, socks: seq<SockEntry>, poll: Poll)
    requires Good(s, claims)
    ensures var t := Observed(s, socks, poll);
            var next := Claimed(claims, t.sockets);
            Good(t, next) && (forall g | g in claims :: g in next && next[g] == claims[g])
  {
    hide Refreshed, Claimed, RowGood, Apart, Has, UpTo, SocketsGood, ComesFrom;
    ObservedSockets(s, claims, socks, poll);
    var t := Observed(s, socks, poll);
    GoodTables(s, claims);
    RefreshSound(s.sockets, s.generation, socks, poll.procs, s.socketsAt);
    forall k | k in t.conns
      ensures RowGood(t.sockets, t.generation, Claimed(claims, t.sockets), k, t.conns[k])
    {
      ObservedRow(s, claims, t, Claimed(claims, t.sockets), k, t.conns[k]);
    }
  }

  lemma GoodTables(s: Store, claims: Claims)
    requires SocketsGood(s, claims)
    ensures Apart(s.sockets) && UpTo(s.sockets, s.generation)
  {}

  lemma EntryGood(s: Store, claims: Claims, sock: SockEntry, i: nat, poll: Poll)
    requires Good(s, claims)
    ensures Good(OnEntry(s, sock, i, poll), claims)
    ensures AllKeep(s.conns, OnEntry(s, sock, i, poll).conns, s.conns.Keys - poll.victims(i))
  {
    hide RowGood, Keeps, OwnerOf, OnSocket, SocketsGood;
    KeepsReflexive();
    if !Ignored(s.conns, sock) {
      var k := sock.Key();
      EnteredGood(s, claims, k, false, poll.born(i), poll.victims(i));
      var conns := Entered(s.conns, k, false, poll.born(i), poll.victims(i));
      OnSocketGood(s, claims, k, conns[k], sock, poll.procs, poll.now);
      SameSockets(s, OnEntry(s, sock, i, poll), claims);
    }
  }

  /** The rows that no entry of the snapshot picks as victims. */
  ghost function Spared(ks: set<ConnKey>, poll: Poll): set<ConnKey> {
    set k | k in ks && forall i: nat :: k !in poll.victims(i)
  }

  lemma {:induction false} EntriesGood(s: Store, claims: Claims, socks: seq<SockEntry>, i: nat, alive: set<ConnKey>,
                                       poll: Poll, ks: set<ConnKey>)
    requires Good(s, claims) && i <= |socks|
    requires ks <= s.conns.Keys && forall k, j: nat | k in ks :: k !in poll.victims(j)
    ensures Good(OnEntries(s, socks, i, alive, poll).0, claims)
    ensures AllKeep(s.conns, OnEntries(s, socks, i, alive, poll).0.conns, ks)
    decreases |socks| - i
  {
    hide Good, OnEntry, AliveAfter, Keeps;
    if i == |socks| {
      KeepsReflexive();
    } else {
      EntryGood(s, claims, socks[i], i, poll);
      var t := OnEntry(s, socks[i], i, poll);
      EntriesGood(t, claims, socks, i + 1, AliveAfter(s, socks[i], alive), poll, ks);
      var r := OnEntries(s, socks, i, alive, poll).0;
      AllKeepTransitive(s, t, r, claims, ks);
    }
  }

  lemma AllKeepTransitive(a: Store, b: Store, c: Store, claims: Claims, ks: set<ConnKey>)
    requires AllKeep(a.conns, b.conns, ks) && AllKeep(b.conns, c.conns, ks)
    requires Good(b, claims) && Good(c, claims)
    ensures AllKeep(a.conns, c.conns, ks)
  {
    hide Keeps, WellFormed, SocketsGood, Has;
    forall k | k in ks && k in a.conns
      ensures k in c.conns && Keeps(k, a.conns[k], c.conns[k])
    {
      assert RowGood(b.sockets, b.generation, claims, k, b.conns[k]);
      assert RowGood(c.sockets, c.generation, claims, k, c.conns[k]);
      KeepsTransitive(k, a.conns[k], b.conns[k], c.conns[k]);
    }
  }

  lemma SweptGood(s: Store, claims: Claims, alive: set<ConnKey>, poll: Poll)
    requires Good(s, claims)
    ensures Good(Swept(s, alive, poll), claims)
    ensures AllKeep(s.conns, Swept(s, alive, poll).conns, s.conns.Keys)
  {
    hide RowGood, Keeps, OwnerOf, OnAbsence, SocketsGood;
    KeepsReflexive();
    var t := Swept(s, alive, poll);
    SameSockets(s, t, claims);
    forall k | k in s.conns
      ensures RowGood(t.sockets, t.generation, claims, k, t.conns[k]) && Keeps(k, s.conns[k], t.conns[k])
    {
      OnAbsenceGood(s, claims, k, s.conns[k], poll.procs, poll.now);
    }
  }

  lemma PollGood(s: Store, claims: Claims, socks: seq<SockEntry>, poll: Poll) returns (next: Claims)
    requires Good(s, claims)
    ensures Good(OnPoll(s, socks, poll), next)
    ensures forall g | g in claims :: g in next && next[g] == claims[g]
    ensures AllKeep(s.conns, OnPoll(s, socks, poll).conns, Spared(s.conns.Keys, poll))
  {
    hide Good, Claimed, OnEntries, Swept, Refreshed, Keeps, Has;
    var t := Observed(s, socks, poll);
    next := Claimed(claims, t.sockets);
    ObservedGood(s, claims, socks, poll);
    var ks := Spared(s.conns.Keys, poll);
    EntriesGood(t, next, socks, 0, {}, poll, ks);
    var (u, alive) := OnEntries(t, socks, 0, {}, poll);
    SweptGood(u, next, alive, poll);
    assert AllKeep(u.conns, Swept(u, alive, poll).conns, ks);
    AllKeepTransitive(t, u, Swept(u, alive, poll), next, ks);
  }

  lemma NamesGood(s: Store, claims: Claims, naming: Naming)
    requires Good(s, claims)
    ensures Good(OnNames(s, naming), claims)
    ensures AllKeep(s.conns, OnNames(s, naming).conns, s.conns.Keys)
  {
    hide RowGood, Keeps, WellFormed, SocketsGood, Naming.Of;
    var t := OnNames(s, naming);
    SameSockets(s, t, claims);
    forall k | k in s.conns
      ensures RowGood(t.sockets, t.generation, claims, k, t.conns[k]) && Keeps(k, s.conns[k], t.conns[k])
    {
      GoodWellFormed(s, claims, k, s.conns[k]);
      NamedOnly(naming, k, s.conns[k]);
      NameKeeps(k, s.conns[k], t.conns[k].domain, t.conns[k].ptr);
      UnboundGood(s.sockets, s.generation, claims, k, s.conns[k], t.conns[k]);
    }
  }

  /** One step of any kind keeps the history good, adds to the claims, and keeps every row that lives on. */
  lemma StepGood(s: Store, op: Op, claims: Claims) returns (next: Claims)
    requires Good(s, claims)
    ensures Good(Step(s, op), next)
    ensures forall g | g in claims :: g in next && next[g] == claims[g]
    ensures forall k | Lives(s, op, k) :: k in Step(s, op).conns && Keeps(k, s.conns[k], Step(s, op).conns[k])
  {
    hide Keeps, RowGood, OnPoll, OnArrival, OnNames, Has;
    next := claims;
    match op
    case Snapshot(socks, poll) => next := PollGood(s, claims, socks, poll);
    case Arrival(p, born, now, victims) => ArrivalGood(s, claims, p, born, now, victims);
    case Names(naming) => NamesGood(s, claims, naming);
    case LocalIps(ips) => SameSockets(s, Step(s, op), claims); KeepsReflexive();
    case Clear => SameSockets(s, Step(s, op), claims);
  }

  // Whole runs.

  ghost function StateAt(now: nat, ops: seq<Op>, n: nat): Store
    requires n <= |ops|
  {
    Run(Empty(now), ops[..n])
  }

  lemma NextState(now: nat, ops: seq<Op>, n: nat)
    requires n < |ops|
    ensures StateAt(now, ops, n + 1) == Step(StateAt(now, ops, n), ops[n])
  {
    assert ops[..n + 1][..n] == ops[..n];
  }

  lemma EmptyGood(now: nat)
    ensures Good(Empty(now), map[])
  {
    NoSockets();
  }

  /** The rows of a state respect the claims. */
  ghost predicate Respects(s: Store, claims: Claims) {
    forall k | k in s.conns && s.conns[k].udpGeneration.Some? && s.conns[k].pid.Some? ::
      && s.conns[k].udpGeneration.value in claims
      && claims[s.conns[k].udpGeneration.value] == s.conns[k].pid.value
  }

  lemma GoodRespects(s: Store, claims: Claims, next: Claims)
    requires Good(s, claims) && forall g | g in claims :: g in next && next[g] == claims[g]
    ensures Respects(s, next)
  {
    forall k | k in s.conns && s.conns[k].udpGeneration.Some? && s.conns[k].pid.Some?
      ensures s.conns[k].udpGeneration.value in next
      ensures next[s.conns[k].udpGeneration.value] == s.conns[k].pid.value
    {
      assert RowGood(s.sockets, s.generation, claims, k, s.conns[k]);
    }
  }

  /** In every reachable state the history is good, under one set of claims for the whole run. */
  lemma {:induction false} RunGood(now: nat, ops: seq<Op>, n: nat) returns (claims: Claims)
    requires n <= |ops|
    ensures Good(StateAt(now, ops, n), claims)
    ensures forall i | 0 <= i <= n :: Respects(StateAt(now, ops, i), claims)
  {
    hide Good, Step, Respects;
    if n == 0 {
      EmptyGood(now);
      claims := map[];
      GoodRespects(Empty(now), claims, claims);
    } else {
      var before := RunGood(now, ops, n - 1);
      NextState(now, ops, n - 1);
      claims := StepGood(StateAt(now, ops, n - 1), ops[n - 1], before);
      GoodRespects(StateAt(now, ops, n), claims, claims);
      forall i | 0 <= i < n
        ensures Respects(StateAt(now, ops, i), claims)
      {
        RespectsMore(StateAt(now, ops, i), before, claims);
      }
    }
  }

  lemma RespectsMore(s: Store, claims: Claims, next: Claims)
    requires Respects(s, claims) && forall g | g in claims :: g in next && next[g] == claims[g]
    ensures Respects(s, next)
  {}

  /** A generation of UDP sockets is attributed to at most one process over the whole run. */
  lemma AttributedOnce(now: nat, ops: seq<Op>, i: nat, j: nat, k: ConnKey, l: ConnKey)
    requires i <= |ops| && j <= |ops|
    requires k in StateAt(now, ops, i).conns && l in StateAt(now, ops, j).conns
    requires var c, d := StateAt(now, ops, i).conns[k], StateAt(now, ops, j).conns[l];
             c.udpGeneration.Some? && c.udpGeneration == d.udpGeneration && c.pid.Some? && d.pid.Some?
    ensures StateAt(now, ops, i).conns[k].pid == StateAt(now, ops, j).conns[l].pid
  {
    hide Good, StateAt;
    var claims := RunGood(now, ops, |ops|);
    assert Respects(StateAt(now, ops, i), claims) && Respects(StateAt(now, ops, j), claims);
  }

  /** In every reachable state the live sockets have distinct generations up to the counter, and a row
      bound to a live socket is not older than the socket. */
  lemma LiveSockets(now: nat, ops: seq<Op>, n: nat)
    requires n <= |ops|
    ensures var s := StateAt(now, ops, n);
            && Apart(s.sockets) && UpTo(s.sockets, s.generation)
            && (forall k, u | k in s.conns && Has(s.sockets, u) && s.conns[k].udpGeneration == Some(u.generation) ::
                  s.conns[k].firstSeen >= u.since)
  {
    hide StateAt, Has, Apart;
    var claims := RunGood(now, ops, n);
    var s := StateAt(now, ops, n);
    forall k, u | k in s.conns && Has(s.sockets, u) && s.conns[k].udpGeneration == Some(u.generation)
      ensures s.conns[k].firstSeen >= u.since
    {
      assert RowGood(s.sockets, s.generation, claims, k, s.conns[k]);
    }
  }

  /** A generation that has left the table never returns. */
  lemma {:induction false} NeverReturns(now: nat, ops: seq<Op>, i: nat, j: nat, g: nat)
    requires i <= j <= |ops|
    requires g <= StateAt(now, ops, i).generation
    requires forall u | Has(StateAt(now, ops, i).sockets, u) :: u.generation != g
    ensures g <= StateAt(now, ops, j).generation
    ensures forall u | Has(StateAt(now, ops, j).sockets, u) :: u.generation != g
    decreases j - i
  {
    hide StateAt, Has, Apart, Refreshed, OnEntries, Swept;
    if i < j {
      NeverReturns(now, ops, i, j - 1, g);
      NextState(now, ops, j - 1);
      var s, op := StateAt(now, ops, j - 1), ops[j - 1];
      var _ := RunGood(now, ops, j - 1);
      SocketsOfStep(s, op);
      if op.Snapshot? {
        RefreshSound(s.sockets, s.generation, op.socks, op.poll.procs, s.socketsAt);
        GoneStaysGone(s.sockets, s.generation, op.socks, op.poll.procs, s.socketsAt, g);
      }
    }
  }

  lemma SocketsOfStep(s: Store, op: Op)
    ensures op.Snapshot? ==> (Step(s, op).sockets, Step(s, op).generation)
                             == Refreshed(s.sockets, s.generation, op.socks, op.poll.procs, s.socketsAt)
    ensures !op.Snapshot? ==> Step(s, op).sockets == s.sockets && Step(s, op).generation == s.generation
  {
    hide Refreshed;
    if op.Snapshot? {
      EntriesLeaveSockets(Observed(s, op.socks, op.poll), op.socks, 0, {}, op.poll);
    }
  }

  lemma {:induction false} EntriesLeaveSockets(s: Store, socks: seq<SockEntry>, i: nat, alive: set<ConnKey>, poll: Poll)
    requires i <= |socks|
    ensures var t := OnEntries(s, socks, i, alive, poll).0;
            t.sockets == s.sockets && t.generation == s.generation && t.localIps == s.localIps
    decreases |socks| - i
  {
    hide AliveAfter, OwnerOf, OnSocket;
    if i < |socks| {
      EntriesLeaveSockets(OnEntry(s, socks[i], i, poll), socks, i + 1, AliveAfter(s, socks[i], alive), poll);
    }
  }

  /** The row of `k` lives on through the steps from `i` to `j`. */
  ghost predicate LivesOn(now: nat, ops: seq<Op>, i: nat, j: nat, k: ConnKey)
    requires i <= j <= |ops|
  {
    k in StateAt(now, ops, i).conns
    && forall n | i <= n < j :: Lives(StateAt(now, ops, n), ops[n], k)
  }

  /** No relabelling: through its whole life a row's owner is unknown, then one process, then unknown
      again for good because it is disputed; an ambiguous row has no owner at all. */
  lemma {:induction false} OwnerHistory(now: nat, ops: seq<Op>, i: nat, j: nat, k: ConnKey)
    requires i <= j <= |ops| && LivesOn(now, ops, i, j, k)
    ensures k in StateAt(now, ops, j).conns
    ensures var c, d := StateAt(now, ops, i).conns[k], StateAt(now, ops, j).conns[k];
            && (c.ownerAmbiguous ==> d.ownerAmbiguous)
            && (c.pid.Some? ==> d.pid == c.pid || d.ownerAmbiguous)
            && (d.ownerAmbiguous ==> d.pid == None && d.ownerStarted == None && d.pname == None)
            && (k.proto == Tcp && c.ownerStarted.Some? ==> d.ownerStarted == c.ownerStarted || d.ownerAmbiguous)
            && (c.udpGeneration.Some? ==> d.udpGeneration == c.udpGeneration)
    decreases j - i
  {
    hide StateAt, Step, Good, Lives, Keeps, WellFormed;
    KeptHistory(now, ops, i, j, k);
    var claims := RunGood(now, ops, j);
    RowWellFormed(StateAt(now, ops, j), claims, k);
    Phases(k, StateAt(now, ops, i).conns[k], StateAt(now, ops, j).conns[k]);
  }

  lemma RowWellFormed(s: Store, claims: Claims, k: ConnKey)
    requires Good(s, claims) && k in s.conns
    ensures WellFormed(k, s.conns[k])
  {
    assert RowGood(s.sockets, s.generation, claims, k, s.conns[k]);
  }

  lemma Phases(k: ConnKey, c: Conn, d: Conn)
    requires Keeps(k, c, d) && WellFormed(k, d)
    ensures (c.ownerAmbiguous ==> d.ownerAmbiguous)
            && (c.pid.Some? ==> d.pid == c.pid || d.ownerAmbiguous)
            && (d.ownerAmbiguous ==> d.pid == None && d.ownerStarted == None && d.pname == None)
            && (k.proto == Tcp && c.ownerStarted.Some? ==> d.ownerStarted == c.ownerStarted || d.ownerAmbiguous)
            && (c.udpGeneration.Some? ==> d.udpGeneration == c.udpGeneration)
  {}

  lemma {:induction false} KeptHistory(now: nat, ops: seq<Op>, i: nat, j: nat, k: ConnKey)
    requires i <= j <= |ops| && LivesOn(now, ops, i, j, k)
    ensures k in StateAt(now, ops, j).conns
    ensures Keeps(k, StateAt(now, ops, i).conns[k], StateAt(now, ops, j).conns[k])
    decreases j - i
  {
    hide StateAt, Step, Good, Lives, Keeps, WellFormed;
    if i == j {
      KeepsReflexive();
    } else {
      KeptHistory(now, ops, i, j - 1, k);
      var before := RunGood(now, ops, j - 1);
      var s := StateAt(now, ops, j - 1);
      assert Lives(s, ops[j - 1], k);
      NextState(now, ops, j - 1);
      var after := StepGood(s, ops[j - 1], before);
      RowWellFormed(s, before, k);
      RowWellFormed(StateAt(now, ops, j), after, k);
      KeepsTransitive(k, StateAt(now, ops, i).conns[k], s.conns[k], StateAt(now, ops, j).conns[k]);
    }
  }
}
