/**
 Which UDP socket a row belongs to, in the terms of addresses and ports alone; and from the snapshot that
 tells a socket's process to the row of a packet that goes through it.
 */
module SocketMatch {
  import opened Generations
  import H = History
  import opened Net
  import Ownership
  import opened Procs
  import opened Rows
  import opened UdpSockets
  import opened Wrappers

  /** A socket with these addresses takes the tuple's traffic: it is bound to the local address or to all
      addresses of its family, and it is unconnected or connected to the remote end. */
  predicate Takes(local: IpAddr, remote: IpAddr, rport: nat, k: ConnKey) {
    && (local == k.local || (local == V4(0) && k.local.V4?) || (local == V6(0) && k.local.V6?))
    && (rport == 0 || (remote == k.remote && rport == k.rport))
  }

  predicate TakesRow(u: UdpSocket, k: ConnKey) {
    Takes(u.entry.local, u.entry.remote, u.entry.rport, k)
  }

  /** Socket number `i` is the only one of the list that takes the row. */
  predicate OnlyTaker(us: seq<UdpSocket>, k: ConnKey, i: nat) {
    i < |us| && TakesRow(us[i], k) && forall j | 0 <= j < |us| && j != i :: !TakesRow(us[j], k)
  }

  lemma {:induction false} NoCarriers(us: seq<UdpSocket>, k: ConnKey)
    ensures Carriers(us, k) == [] <==> forall u | u in us :: !TakesRow(u, k)
  {
    if us != [] {
      NoCarriers(us[1..], k);
      assert forall u :: u in us <==> u == us[0] || u in us[1..];
    }
  }

  lemma {:induction false} OneCarrier(us: seq<UdpSocket>, k: ConnKey, i: nat)
    requires OnlyTaker(us, k, i)
    ensures Carriers(us, k) == [us[i]]
    decreases |us|
  {
    if i == 0 {
      forall u | u in us[1..]
        ensures !TakesRow(u, k)
      {
        var j :| 0 <= j < |us[1..]| && us[1..][j] == u;
        assert us[j + 1] == u;
      }
      NoCarriers(us[1..], k);
      assert [us[0]] + [] == [us[0]];
    } else {
      assert forall j | 0 <= j < |us| - 1 :: us[1..][j] == us[j + 1];
      OneCarrier(us[1..], k, i - 1);
      assert [] + [us[i]] == [us[i]];
    }
  }

  lemma {:induction false} CarrierTakes(us: seq<UdpSocket>, k: ConnKey) returns (i: nat)
    requires |Carriers(us, k)| == 1
    ensures OnlyTaker(us, k, i)
    decreases |us|
  {
    if Carries(us[0], k) {
      NoCarriers(us[1..], k);
      i := 0;
      assert forall j | 0 < j < |us| :: us[j] == us[1..][j - 1] && us[j] in us[1..];
    } else {
      assert Carriers(us, k) == Carriers(us[1..], k);
      i := CarrierTakes(us[1..], k);
      assert forall j | 0 < j < |us| :: us[j] == us[1..][j - 1];
      i := i + 1;
    }
  }

  /** The match, exactly: a socket is told if and only if the row's local address is one of this host, exactly
      one socket of its local port takes it, and there is no doubt about that socket; and none is there if and
      only if the address is foreign or no socket takes it. */
  lemma MatchIff(t: Table, localIps: set<IpAddr>, k: ConnKey, o: UdpOwner)
    ensures OwnerOf(t, localIps, k) == Unique(o)
            <==> k.local in localIps && k.lport in t
                 && exists i: nat ::
                      OnlyTaker(t[k.lport], k, i) && !t[k.lport][i].entry.ambiguous
                      && o == UdpOwner(t[k.lport][i].generation, t[k.lport][i].since, t[k.lport][i].entry.pid,
                                       t[k.lport][i].ownerStarted)
    ensures OwnerOf(t, localIps, k) == Missing
            <==> k.local !in localIps || k.lport !in t || forall u | u in t[k.lport] :: !TakesRow(u, k)
  {
    hide TakesRow, Carries, Carriers;
    if k.lport in t {
      var us := t[k.lport];
      NoCarriers(us, k);
      if |Carriers(us, k)| == 1 {
        var i := CarrierTakes(us, k);
        OneCarrier(us, k, i);
        assert forall j: nat | OnlyTaker(us, k, j) :: j == i;
      } else {
        forall i: nat | OnlyTaker(us, k, i)
          ensures false
        {
          OneCarrier(us, k, i);
        }
      }
    } else {
      NoCarriers([], k);
    }
  }

  // From the snapshot to the sockets.

  /** The UDP entries of the snapshot on a local port. */
  function UdpOn(socks: seq<SockEntry>, port: nat): seq<SockEntry>
    decreases |socks|
  {
    if socks == [] then []
    else (if socks[0].proto == Udp && socks[0].lport == port then [socks[0]] else []) + UdpOn(socks[1..], port)
  }

  /** The socket is as the entry shows it; what is remembered from the old sockets of the port is doubt, and
      since when. */
  ghost predicate Shows(w: UdpSocket, e: SockEntry, olds: seq<UdpSocket>, procs: ProcMap, since: nat) {
    && w.entry.local == e.local && w.entry.remote == e.remote && w.entry.rport == e.rport
    && (w.entry.ambiguous ==> e.ambiguous || exists u :: u in olds && u.entry.ambiguous)
    && (!w.entry.ambiguous && e.pid.Some? ==> w.entry.pid == e.pid)
    && (StartedOf(procs, e.pid).Some? ==> w.ownerStarted == StartedOf(procs, e.pid))
    && (w.since == since || exists u :: u in olds && w.since == u.since)
  }

  /** The list of sockets shows the entries one by one. */
  ghost predicate ShowsAll(ws: seq<UdpSocket>, es: seq<SockEntry>, olds: seq<UdpSocket>, procs: ProcMap, since: nat) {
    |ws| == |es| && forall i | 0 <= i < |ws| :: Shows(ws[i], es[i], olds, procs, since)
  }

  lemma PassOnShows(p: Pass, s: SockEntry, port: nat, olds: seq<UdpSocket>, procs: ProcMap, since: nat)
    requires forall u | u in At(p.previous, port) :: u in olds
    ensures var r := PassOn(p, s, procs, since);
            && (forall u | u in At(r.previous, port) :: u in olds)
            && (s.proto == Udp && s.lport == port ==>
                  exists w :: At(r.current, port) == At(p.current, port) + [w] && Shows(w, s, olds, procs, since))
            && (!(s.proto == Udp && s.lport == port) ==> At(r.current, port) == At(p.current, port))
  {
    hide Position, SwapRemove;
    if s.proto == Udp && s.lport == port {
      var us := At(p.previous, port);
      var r := PassOn(p, s, procs, since);
      match Position(us, s, procs)
      case Some(i) =>
        assert us[i] in us;
        LeftAreOld(us, i);
        assert At(r.current, port) == At(p.current, port) + [Renewed(us[i], s, procs)];
        assert Shows(Renewed(us[i], s, procs), s, olds, procs, since);
      case None =>
        assert At(r.current, port) == At(p.current, port) + [Opened(s, procs, p.generation + 1, since)];
        assert Shows(Opened(s, procs, p.generation + 1, since), s, olds, procs, since);
    }
  }

  lemma LeftAreOld(us: seq<UdpSocket>, i: nat)
    requires i < |us|
    ensures forall u | u in SwapRemove(us, i) :: u in us
  {}

  lemma {:induction false} PassAllShows(p: Pass, socks: seq<SockEntry>, port: nat, olds: seq<UdpSocket>, procs: ProcMap,
                                        since: nat, es: seq<SockEntry>)
    requires forall u | u in At(p.previous, port) :: u in olds
    requires ShowsAll(At(p.current, port), es, olds, procs, since)
    ensures ShowsAll(At(PassAll(p, socks, procs, since).current, port), es + UdpOn(socks, port), olds, procs, since)
    decreases |socks|
  {
    hide PassOn, Shows;
    if socks == [] {
      assert es + [] == es;
    } else {
      var s := socks[0];
      var q := PassOn(p, s, procs, since);
      PassOnShows(p, s, port, olds, procs, since);
      if s.proto == Udp && s.lport == port {
        PassAllShows(q, socks[1..], port, olds, procs, since, es + [s]);
        assert es + [s] + UdpOn(socks[1..], port) == es + ([s] + UdpOn(socks[1..], port));
      } else {
        PassAllShows(q, socks[1..], port, olds, procs, since, es);
        assert [] + UdpOn(socks[1..], port) == UdpOn(socks[1..], port);
      }
    }
  }

  /** After a snapshot the sockets of a port are its entries there, in order. */
  lemma SocketsAreShown(t: Table, generation: nat, socks: seq<SockEntry>, procs: ProcMap, since: nat, port: nat)
    ensures ShowsAll(At(Refreshed(t, generation, socks, procs, since).0, port), UdpOn(socks, port), At(t, port), procs,
                     since)
  {
    hide Shows, PassAll;
    PassAllShows(Pass(t, map[], generation), socks, port, At(t, port), procs, since, []);
    assert [] + UdpOn(socks, port) == UdpOn(socks, port);
  }

  /** The entry cannot be the socket: its ends or its cookie are others, or its process is known to be another one, by
      pid or, in the process list, by start time. */
  predicate OtherSocket(u: UdpSocket, s: SockEntry, procs: ProcMap) {
    || u.entry.local != s.local || u.entry.remote != s.remote || u.entry.rport != s.rport || u.entry.cookie != s.cookie
    || (u.entry.pid.Some? && s.pid.Some? && u.entry.pid.value != s.pid.value)
    || (u.ownerStarted.Some? && s.pid.Some? && s.pid.value in procs
        && procs[s.pid.value].started != u.ownerStarted.value)
  }

  /** A UDP entry makes a new generation, which begins with the poll before, exactly when it cannot be any of the
      sockets left at its port; otherwise it is one of these again, with its generation and its beginning. */
  lemma NewGenerationIff(p: Pass, s: SockEntry, procs: ProcMap, since: nat)
    requires s.proto == Udp
    ensures var r, olds := PassOn(p, s, procs, since), At(p.previous, s.lport);
            && (r.generation != p.generation <==> forall u | u in olds :: OtherSocket(u, s, procs))
            && exists w :: && At(r.current, s.lport) == At(p.current, s.lport) + [w]
                           && if forall u | u in olds :: OtherSocket(u, s, procs)
                              then r.generation == p.generation + 1 && w.generation == r.generation && w.since == since
                              else exists u :: && u in olds && !OtherSocket(u, s, procs)
                                               && w.generation == u.generation && w.since == u.since
  {
    hide SwapRemove;
    var us := At(p.previous, s.lport);
    var at := Position(us, s, procs);
    var w := if at.Some? then Renewed(us[at.value], s, procs) else Opened(s, procs, p.generation + 1, since);
    assert At(PassOn(p, s, procs, since).current, s.lport) == At(p.current, s.lport) + [w];
    forall u | u in us
      ensures OtherSocket(u, s, procs) <==> !Same(u, s, procs)
    {}
    if at.Some? {
      assert us[at.value] in us;
    }
  }

  // From the snapshot to the row of a packet.

  /** Entry number `i` of those on the port is the only one that takes the tuple. */
  predicate OnlyEntry(es: seq<SockEntry>, k: ConnKey, i: nat) {
    && i < |es| && Takes(es[i].local, es[i].remote, es[i].rport, k)
    && forall j | 0 <= j < |es| && j != i :: !Takes(es[j].local, es[j].remote, es[j].rport, k)
  }

  lemma EntryIsMatch(s: H.Store, socks: seq<SockEntry>, poll: H.Poll, k: ConnKey, i: nat) returns (w: UdpSocket)
    requires var es := UdpOn(socks, k.lport); OnlyEntry(es, k, i) && !es[i].ambiguous
    requires forall u | u in At(s.sockets, k.lport) :: !u.entry.ambiguous
    requires k.local in H.Observed(s, socks, poll).localIps
    ensures H.Owner(H.Observed(s, socks, poll), k)
            == Unique(UdpOwner(w.generation, w.since, w.entry.pid, w.ownerStarted))
    ensures Shows(w, UdpOn(socks, k.lport)[i], At(s.sockets, k.lport), poll.procs, s.socketsAt) && !w.entry.ambiguous
  {
    hide Takes, Refreshed, OwnerOf;
    SocketsAreShown(s.sockets, s.generation, socks, poll.procs, s.socketsAt, k.lport);
    var t := H.Observed(s, socks, poll);
    var ws, es := At(t.sockets, k.lport), UdpOn(socks, k.lport);
    w := ws[i];
    assert Shows(w, es[i], At(s.sockets, k.lport), poll.procs, s.socketsAt);
    forall j | 0 <= j < |ws| && j != i
      ensures !TakesRow(ws[j], k)
    {
      assert Shows(ws[j], es[j], At(s.sockets, k.lport), poll.procs, s.socketsAt);
    }
    assert OnlyTaker(t.sockets[k.lport], k, i);
    MatchIff(t.sockets, t.localIps, k, UdpOwner(w.generation, w.since, w.entry.pid, w.ownerStarted));
  }

  /** A packet that makes a row gives it the process that the last snapshot told of the only socket that takes
      the tuple; the socket may be unconnected and bound to all addresses. */
  lemma {:induction false} PacketGetsPid(s: H.Store, socks: seq<SockEntry>, poll: H.Poll, p: Packet, born: nat,
                                       now: nat, victims: set<ConnKey>, i: nat)
    requires p.proto == Udp
    requires var t := H.OnPoll(s, socks, poll);
             var k := H.PacketKey(t.localIps, p);
             && k !in t.conns && k.local in t.localIps
             && OnlyEntry(UdpOn(socks, k.lport), k, i)
             && !UdpOn(socks, k.lport)[i].ambiguous && UdpOn(socks, k.lport)[i].pid.Some?
             && (forall u | u in At(s.sockets, k.lport) :: !u.entry.ambiguous && u.since <= born) && s.socketsAt <= born
    ensures var t := H.OnPoll(s, socks, poll);
            var k := H.PacketKey(t.localIps, p);
            var e, c := UdpOn(socks, k.lport)[i], H.OnArrival(t, p, born, now, victims).conns[k];
            && c.pid == e.pid && !c.ownerAmbiguous && c.firstSeen == born
            && (StartedOf(poll.procs, e.pid).Some? ==> c.ownerStarted == StartedOf(poll.procs, e.pid))
  {
    hide H.OnPoll, OwnerOf, Takes, OnlyEntry;
    var t := H.OnPoll(s, socks, poll);
    var k := H.PacketKey(t.localIps, p);
    PollLeavesSockets(s, socks, poll);
    var w := EntryIsMatch(s, socks, poll, k, i);
  }

  lemma PollLeavesSockets(s: H.Store, socks: seq<SockEntry>, poll: H.Poll)
    ensures var t, o := H.OnPoll(s, socks, poll), H.Observed(s, socks, poll);
            t.sockets == o.sockets && t.localIps == o.localIps
  {
    hide Refreshed;
    Ownership.EntriesLeaveSockets(H.Observed(s, socks, poll), socks, 0, {}, poll);
  }
}
