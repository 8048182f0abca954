/**
 When the start time of a UDP row's owner is replaced, in the terms of what a poll or a packet brings: the
 snapshot's entry, the process list, and the live socket the row is bound to.
 */
module RowStart {
  import opened Generations
  import opened History
  import opened Net
  import opened Ownership
  import opened Procs
  import opened Rows
  import opened UdpSockets
  import opened Wrappers

  // A live socket after a poll is an old one renewed by an entry, or new.

  ghost predicate RenewedIn(t: Table, socks: seq<SockEntry>, procs: ProcMap, w: UdpSocket) {
    exists u, e :: Has(t, u) && e in socks && Same(u, e, procs) && w == Renewed(u, e, procs)
  }

  lemma PassOnRenews(p: Pass, s: SockEntry, procs: ProcMap, since: nat)
    ensures forall w | Has(PassOn(p, s, procs, since).current, w) ::
              Has(p.current, w) || RenewedIn(p.previous, [s], procs, w) || w.generation > p.generation
  {
    hide Same, Renewed, SwapRemove, StartedOf;
    if s.proto == Udp {
      var us := At(p.previous, s.lport);
      match Position(us, s, procs)
      case Some(i) =>
        AppendedHas(p.current, s.lport, Renewed(us[i], s, procs));
        assert us[i] in p.previous[s.lport] && Has(p.previous, us[i]) && s in [s];
      case None => AppendedHas(p.current, s.lport, Opened(s, procs, p.generation + 1, since));
    }
  }

  lemma {:induction false} PassAllRenews(p: Pass, socks: seq<SockEntry>, procs: ProcMap, since: nat)
    requires Generations.Sound(p)
    ensures forall w | Has(PassAll(p, socks, procs, since).current, w) ::
              Has(p.current, w) || RenewedIn(p.previous, socks, procs, w) || w.generation > p.generation
    decreases |socks|
  {
    hide Generations.Sound, PassOn, Has, Same, Renewed;
    if socks != [] {
      var q := PassOn(p, socks[0], procs, since);
      PassOnSound(p, socks[0], procs, since);
      PassOnRenews(p, socks[0], procs, since);
      PassAllRenews(q, socks[1..], procs, since);
      assert forall e | e in socks[1..] :: e in socks;
      assert forall w | RenewedIn(q.previous, socks[1..], procs, w) :: RenewedIn(p.previous, socks, procs, w);
      assert forall w | RenewedIn(p.previous, [socks[0]], procs, w) :: RenewedIn(p.previous, socks, procs, w);
    }
  }

  lemma LiveIsRenewed(s: Store, claims: Claims, socks: seq<SockEntry>, poll: Poll, w: UdpSocket)
    returns (u: UdpSocket, e: SockEntry)
    requires Good(s, claims) && Has(Observed(s, socks, poll).sockets, w) && w.generation <= s.generation
    ensures Has(s.sockets, u) && e in socks && Same(u, e, poll.procs) && w == Renewed(u, e, poll.procs)
  {
    hide Has, Apart, PassAll, Same, Renewed, RowsGood;
    var p := Pass(s.sockets, map[], s.generation);
    NoSockets();
    PassAllRenews(p, socks, poll.procs, s.socketsAt);
    assert RenewedIn(s.sockets, socks, poll.procs, w);
    u, e :| Has(s.sockets, u) && e in socks && Same(u, e, poll.procs) && w == Renewed(u, e, poll.procs);
  }

  // A row through a poll.

  /** The start time a match gives an undisputed row. */
  function NewStart(c: Conn, m: UdpMatch): Option<nat> {
    if m.Unique? && m.owner.pid.Some? then m.owner.started.Or(c.ownerStarted) else c.ownerStarted
  }

  /** The match is a socket that can be the row's. */
  predicate Serves(c: Conn, m: UdpMatch) {
    m.Unique? && MayOwn(c, m.owner)
  }

  /** The row `d` is `c` after none or some attributions to `m`. */
  ghost predicate Follows(k: ConnKey, c: Conn, m: UdpMatch, touched: bool, d: Conn) {
    && (d.ownerAmbiguous <==> touched && !Serves(c, m))
    && d.udpGeneration == c.udpGeneration && d.firstSeen == c.firstSeen
    && (!d.ownerAmbiguous ==> d.ownerStarted == if touched then NewStart(c, m) else c.ownerStarted)
  }

  lemma AttributeFollows(k: ConnKey, c: Conn, m: UdpMatch, touched: bool, d: Conn, procs: Option<ProcMap>)
    requires k.proto == Udp && c.ownerStarted.Some? && c.udpGeneration.Some? && Follows(k, c, m, touched, d)
    ensures Follows(k, c, m, true, AttributeUdp(d, m, procs))
  {}

  lemma {:induction false} SocketFollows(k: ConnKey, c: Conn, m: UdpMatch, touched: bool, d: Conn, sock: SockEntry,
                                         procs: ProcMap, now: nat)
    requires k.proto == Udp == sock.proto && c.ownerStarted.Some? && c.udpGeneration.Some? && Follows(k, c, m, touched, d)
    ensures Follows(k, c, m, true, OnSocket(d, sock, m, procs, now))
  {
    hide AttributeUdp, Terminal;
    var e := d.(state := sock.state, lastSeen := now, fromPacketsOnly := false, closed := Terminal(sock.state));
    assert Follows(k, c, m, touched, e);
    AttributeFollows(k, c, m, touched, e, Some(procs));
  }

  ghost predicate Shown(socks: seq<SockEntry>, from: nat, k: ConnKey) {
    k.rport != 0 && exists j :: from <= j < |socks| && socks[j].Key() == k
  }

  lemma ShownFrom(socks: seq<SockEntry>, i: nat, k: ConnKey)
    requires i < |socks|
    ensures Shown(socks, i, k) <==> (k.rport != 0 && socks[i].Key() == k) || Shown(socks, i + 1, k)
  {}

  lemma {:induction false} EntriesFollow(s: Store, socks: seq<SockEntry>, i: nat, alive: set<ConnKey>, poll: Poll,
                                         k: ConnKey, c: Conn)
    requires i <= |socks| && k in s.conns && k.proto == Udp && c.ownerStarted.Some? && c.udpGeneration.Some?
    requires forall j: nat :: k !in poll.victims(j)
    requires Follows(k, c, Owner(s, k), k in alive, s.conns[k]) && (k !in alive ==> s.conns[k] == c)
    ensures var (t, last) := OnEntries(s, socks, i, alive, poll);
            && Owner(t, k) == Owner(s, k) && (k in last <==> k in alive || Shown(socks, i, k))
            && k in t.conns && Follows(k, c, Owner(s, k), k in last, t.conns[k]) && (k !in last ==> t.conns[k] == c)
    decreases |socks| - i
  {
    hide OwnerOf, OnSocket, Follows;
    if i < |socks| {
      var sock := socks[i];
      ShownFrom(socks, i, k);
      if sock.Key() == k && !Ignored(s.conns, sock) {
        SocketFollows(k, c, Owner(s, k), k in alive, s.conns[k], sock, poll.procs, poll.now);
      }
      EntriesFollow(OnEntry(s, sock, i, poll), socks, i + 1, AliveAfter(s, sock, alive), poll, k, c);
    }
  }

  /** The match is the socket the row is bound to. */
  predicate BoundTo(c: Conn, m: UdpMatch) {
    m.Unique? && c.udpGeneration == Some(m.owner.generation)
  }

  lemma AbsenceFollows(k: ConnKey, c: Conn, m: UdpMatch, procs: ProcMap, now: nat)
    requires !c.ownerAmbiguous && c.ownerStarted.Some? && c.udpGeneration.Some? && k.proto == Udp
    requires BoundTo(c, m) ==> Serves(c, m)
    ensures Follows(k, c, m, !c.closed && BoundTo(c, m), OnAbsence(c, Udp, m, procs, now))
  {
    hide AttributeUdp, NewStart, MayOwn;
    assert Follows(k, c, m, false, c);
    AttributeFollows(k, c, m, false, c, Some(procs));
  }

  /** Whether a poll looks at a row: it shows it, or the row is open and its socket is there. */
  ghost predicate LookedAt(socks: seq<SockEntry>, k: ConnKey, c: Conn, m: UdpMatch) {
    Shown(socks, 0, k) || (!c.closed && BoundTo(c, m))
  }

  lemma PollFollows(s: Store, claims: Claims, socks: seq<SockEntry>, poll: Poll, k: ConnKey)
    requires Good(s, claims) && Lives(s, Snapshot(socks, poll), k) && k.proto == Udp
    requires !s.conns[k].ownerAmbiguous && s.conns[k].ownerStarted.Some?
    ensures var c, m := s.conns[k], Owner(Observed(s, socks, poll), k);
            && (BoundTo(c, m) <==> Serves(c, m)) && k in OnPoll(s, socks, poll).conns
            && Follows(k, c, m, LookedAt(socks, k, c, m), OnPoll(s, socks, poll).conns[k])
  {
    hide OwnerOf, Refreshed, OnEntries, OnAbsence, Follows, Serves, BoundTo, Good;
    var c, o := s.conns[k], Observed(s, socks, poll);
    RowOf(s, claims, k);
    StartFollows(k, c, Owner(o, k));
    ObservedGood(s, claims, socks, poll);
    BoundServes(o, Claimed(claims, o.sockets), k);
    EntriesFollow(o, socks, 0, {}, poll, k, c);
    var (t, alive) := OnEntries(o, socks, 0, {}, poll);
    if k !in alive {
      AbsenceFollows(k, c, Owner(o, k), poll.procs, poll.now);
    }
  }

  lemma RowOf(s: Store, claims: Claims, k: ConnKey)
    requires Good(s, claims) && k in s.conns && k.proto == Udp
    ensures WellFormed(k, s.conns[k])
    ensures s.conns[k].ownerStarted.Some? ==> s.conns[k].udpGeneration.Some? && s.conns[k].udpGeneration.value <= s.generation
  {
    hide Has, SocketsGood;
    assert RowGood(s.sockets, s.generation, claims, k, s.conns[k]);
  }

  /** A row can belong to the live socket it is bound to. */
  lemma BoundServes(s: Store, claims: Claims, k: ConnKey)
    requires Good(s, claims) && k in s.conns && s.conns[k].udpGeneration.Some?
    ensures BoundTo(s.conns[k], Owner(s, k)) <==> Serves(s.conns[k], Owner(s, k))
  {
    hide Has, SocketsGood, OwnerOf;
    if BoundTo(s.conns[k], Owner(s, k)) {
      var u := OwnerIsLive(s.sockets, s.localIps, k);
      assert RowGood(s.sockets, s.generation, claims, k, s.conns[k]);
    }
  }

  lemma StartFollows(k: ConnKey, c: Conn, m: UdpMatch)
    requires !c.ownerAmbiguous
    ensures Follows(k, c, m, false, c)
  {}

  /** What a poll does to an undisputed row whose owner's start time is known, in the terms of the match as the
      snapshot has it: the row falls into doubt exactly when it is shown while its socket is not the match; else
      its owner's start time is replaced exactly when the poll looks at it and the socket, with its pid known,
      has another start. */
  lemma PollKeepsStartIff(s: Store, claims: Claims, socks: seq<SockEntry>, poll: Poll, k: ConnKey)
    requires Good(s, claims) && Lives(s, Snapshot(socks, poll), k) && k.proto == Udp
    requires !s.conns[k].ownerAmbiguous && s.conns[k].ownerStarted.Some?
    ensures var c, m := s.conns[k], Owner(Observed(s, socks, poll), k);
            && k in OnPoll(s, socks, poll).conns
            && var d := OnPoll(s, socks, poll).conns[k];
            && (d.ownerAmbiguous <==> Shown(socks, 0, k) && !BoundTo(c, m))
            && (!d.ownerAmbiguous ==>
                  (d.ownerStarted == c.ownerStarted
                   <==> !(LookedAt(socks, k, c, m) && m.owner.pid.Some? && Differ(c.ownerStarted, m.owner.started))))
  {
    hide OnPoll, Good, OwnerOf, Refreshed, Serves, Shown;
    PollFollows(s, claims, socks, poll, k);
  }

  /** The match as the snapshot has it, for a row bound to it: its socket was there before the poll and an entry
      shows it again. Its pid is the entry's or else the one remembered; its start is what the process list has
      for that pid, or else the one remembered. */
  lemma MatchOfEntry(s: Store, claims: Claims, socks: seq<SockEntry>, poll: Poll, k: ConnKey)
    returns (u: UdpSocket, e: SockEntry)
    requires Good(s, claims) && k in s.conns && k.proto == Udp && s.conns[k].ownerStarted.Some?
    requires BoundTo(s.conns[k], Owner(Observed(s, socks, poll), k))
    ensures Has(s.sockets, u) && Some(u.generation) == s.conns[k].udpGeneration && e in socks && Same(u, e, poll.procs)
    ensures var o, pid := Owner(Observed(s, socks, poll), k).owner, e.pid.Or(u.entry.pid);
            o.pid == pid && o.started == StartedOf(poll.procs, pid).Or(u.ownerStarted)
  {
    hide Has, Good, OwnerOf, Refreshed, Same, StartedOf;
    RowOf(s, claims, k);
    var o := Observed(s, socks, poll);
    var w := OwnerIsLive(o.sockets, o.localIps, k);
    u, e := LiveIsRenewed(s, claims, socks, poll, w);
  }

  /** What a packet does to such a row: it falls into doubt exactly when its socket is not the match; else its
      owner's start time is replaced exactly when the live socket, with its pid known, has another start. */
  lemma PacketKeepsStartIff(s: Store, claims: Claims, p: Packet, born: nat, now: nat, victims: set<ConnKey>)
    requires Good(s, claims) && p.proto == Udp && PacketKey(s.localIps, p) in s.conns
    requires var c := s.conns[PacketKey(s.localIps, p)]; !c.ownerAmbiguous && c.ownerStarted.Some?
    ensures var k := PacketKey(s.localIps, p);
            var c, d, m := s.conns[k], OnArrival(s, p, born, now, victims).conns[k], Owner(s, k);
            && (d.ownerAmbiguous <==> !BoundTo(c, m))
            && (!d.ownerAmbiguous ==>
                  (d.ownerStarted == c.ownerStarted <==> !(m.owner.pid.Some? && Differ(c.ownerStarted, m.owner.started))))
  {
    hide OwnerOf, Has, Good, Serves;
    var k := PacketKey(s.localIps, p);
    RowOf(s, claims, k);
    StartFollows(k, s.conns[k], Owner(s, k));
    BoundServes(s, claims, k);
    AttributeFollows(k, s.conns[k], Owner(s, k), false, s.conns[k], None);
  }
}
