/** Which rows a socket snapshot shows, and what becomes of the others. */
module Snapshots {
  import opened History
  import opened Net
  import opened Procs
  import opened Rows
  import opened UdpSockets
  import opened Wrappers

  /** The entry tells of a row: it has a remote port, and a connection in its last state is told of only if it has a
      row already. */
  predicate TellsOf(conns: Conns, s: SockEntry) {
    s.rport != 0 && (s.state == TimeWait ==> ConnKey(s.proto, s.local, s.lport, s.remote, s.rport) in conns)
  }

  function Told(s: SockEntry): ConnKey {
    ConnKey(s.proto, s.local, s.lport, s.remote, s.rport)
  }

  /** An entry makes or updates the row of its tuple, with its state and at the time of the poll, and no other row but
      those evicted for it; an entry that tells of none does nothing. */
  lemma EntryOnRows(s: Store, sock: SockEntry, i: nat, poll: Poll)
    ensures var t, k := OnEntry(s, sock, i, poll), Told(sock);
            && (!TellsOf(s.conns, sock) ==> t == s)
            && (TellsOf(s.conns, sock) ==>
                  && k in t.conns && t.conns[k].lastSeen == poll.now
                  && t.conns[k].state == sock.state
                  && t.conns[k].firstSeen == (if k in s.conns then s.conns[k].firstSeen else poll.born(i))
                  && (forall l | l in t.conns && l != k :: l in s.conns && t.conns[l] == s.conns[l])
                  && (forall l | l in s.conns && l !in t.conns :: k !in s.conns && l in poll.victims(i)))
  {
    hide AttributeUdp, OwnerOf, Reused, StartedOf, NameOf, Terminal;
    if TellsOf(s.conns, sock) && sock.proto == Udp {
      var k := sock.Key();
      var c := Entered(s.conns, k, false, poll.born(i), poll.victims(i))[k];
      var d := c.(state := sock.state, lastSeen := poll.now, fromPacketsOnly := false, closed := Terminal(sock.state));
      TimesStay(d, Owner(s, k), Some(poll.procs));
    }
  }

  lemma TimesStay(c: Conn, m: UdpMatch, procs: Option<ProcMap>)
    ensures var d := AttributeUdp(c, m, procs);
            d.firstSeen == c.firstSeen && d.lastSeen == c.lastSeen && d.state == c.state
  {}

  /** The addresses of this host after a poll: those known before, and every one that a socket is bound to, save the
      unspecified and the multicast ones (224.0.0.0/4 and ff00::/8). */
  lemma HostAddresses(s: Store, socks: seq<SockEntry>, poll: Poll, ip: IpAddr)
    ensures ip in Observed(s, socks, poll).localIps
            <==> || ip in s.localIps
                 || ((exists e :: e in socks && e.local == ip)
                     && ip.a != 0
                     && match ip
                        case V4(n) => n / 0x1000_0000 != 14
                        case V6(n) => n / 0x100_0000_0000_0000_0000_0000_0000_0000 != 255)
  {
    hide Refreshed;
  }

  /** The entries are gone through in order: the history when number `j` comes. */
  function Before(s: Store, socks: seq<SockEntry>, i: nat, j: nat, poll: Poll): Store
    requires i <= j <= |socks|
    decreases j - i
  {
    if i == j then s else Before(OnEntry(s, socks[i], i, poll), socks, i + 1, j, poll)
  }

  /** A tuple counts as shown exactly when an entry tells of its row. */
  lemma {:induction false} ShownIff(s: Store, socks: seq<SockEntry>, i: nat, alive: set<ConnKey>, poll: Poll,
                                   k: ConnKey)
    requires i <= |socks|
    ensures k in OnEntries(s, socks, i, alive, poll).1
            <==> k in alive
                 || exists j: nat :: i <= j < |socks| && TellsOf(Before(s, socks, i, j, poll).conns, socks[j])
                                     && k == Told(socks[j])
    decreases |socks| - i
  {
    hide OnEntry;
    if i < |socks| {
      var t, shown := OnEntry(s, socks[i], i, poll), AliveAfter(s, socks[i], alive);
      ShownIff(t, socks, i + 1, shown, poll, k);
      assert forall j: nat | i < j < |socks| :: Before(s, socks, i, j, poll) == Before(t, socks, i + 1, j, poll);
      assert Before(s, socks, i, i, poll) == s;
    }
  }

  /** A poll treats as absent exactly the rows that no entry told of: a TCP row with a state is closed, one that only
      packets showed after a minute of silence. */
  lemma PollOnRow(s: Store, socks: seq<SockEntry>, poll: Poll, k: ConnKey)
    requires k in OnPoll(s, socks, poll).conns
    ensures var o := Observed(s, socks, poll);
            var (t, shown) := OnEntries(o, socks, 0, {}, poll);
            var c, d := t.conns[k], OnPoll(s, socks, poll).conns[k];
            && (k in shown ==> d == c)
            && (k !in shown && k.proto == Tcp ==>
                  && d == c.(state := d.state, closed := d.closed)
                  && (d.closed <==> c.closed || c.state != New || poll.now > c.lastSeen + 60_000)
                  && (d.closed && !c.closed ==> d.state == (if c.state == TimeWait then TimeWait else Closed)))
  {
    hide OnEntries, Observed, AttributeUdp, OwnerOf;
  }
}
