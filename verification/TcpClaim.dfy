/**
 When a poll gives a TCP row an owner, and when it puts the row in doubt. A row known from packets alone is
 open to a claim even after silence closed it.
 */
module TcpClaim {
  import opened History
  import opened Net
  import opened Procs
  import opened Rows
  import opened UdpSockets
  import opened Wrappers

  /** The entries of a snapshot for a tuple; those without a remote port belong to no row. */
  function Showing(socks: seq<SockEntry>, k: ConnKey): (es: seq<SockEntry>)
    ensures forall e | e in es :: e.Key() == k && e in socks
    decreases |socks|
  {
    if socks == [] then []
    else (if socks[0].Key() == k && k.rport != 0 then [socks[0]] else []) + Showing(socks[1..], k)
  }

  function ShownAll(c: Conn, es: seq<SockEntry>, procs: ProcMap, now: nat): Conn
    decreases |es|
  {
    if es == [] then c else ShownAll(OnSocket(c, es[0], Missing, procs, now), es[1..], procs, now)
  }

  // One row and its entries.

  /** Nothing in the entries speaks of another owner than the row's, or of two. */
  ghost predicate OneOwner(c: Conn, es: seq<SockEntry>, procs: ProcMap) {
    && (forall e | e in es :: !e.ambiguous && !Differ(c.pid, e.pid) && !Differ(c.ownerStarted, StartedOf(procs, e.pid)))
    && (forall e, f | e in es && f in es :: !Differ(e.pid, f.pid))
  }

  ghost predicate OneCookie(c: Conn, es: seq<SockEntry>) {
    && (forall e | e in es :: !Differ(c.tcpCookie, e.cookie))
    && (forall e, f | e in es && f in es :: !Differ(e.cookie, f.cookie))
  }

  /** Nothing opens again: neither a row that was closed after a poll had shown it, nor an entry that ended. */
  ghost predicate NotReopened(c: Conn, es: seq<SockEntry>) {
    && (c.closed && !c.fromPacketsOnly ==> forall e | e in es :: Terminal(e.state))
    && (forall i, j | 0 <= i < j < |es| && Terminal(es[i].state) :: Terminal(es[j].state))
  }

  ghost predicate OneSession(c: Conn, es: seq<SockEntry>, procs: ProcMap) {
    OneOwner(c, es, procs) && OneCookie(c, es) && NotReopened(c, es)
  }

  ghost predicate Tells(c: Conn, es: seq<SockEntry>, pid: int) {
    c.pid == Some(pid) || exists e :: e in es && e.pid == Some(pid)
  }

  lemma OwnerNext(c: Conn, es: seq<SockEntry>, procs: ProcMap, now: nat)
    requires es != [] && es[0].proto == Tcp && !c.ownerAmbiguous && !Reused(c, es[0], procs)
    ensures OneOwner(c, es, procs) <==> OneOwner(OnSocket(c, es[0], Missing, procs, now), es[1..], procs)
  {
    hide Terminal;
    var d := OnSocket(c, es[0], Missing, procs, now);
    assert es == [es[0]] + es[1..];
    if OneOwner(c, es, procs) {
      assert forall e | e in es[1..] :: e in es && !Differ(es[0].pid, e.pid);
    }
    if OneOwner(d, es[1..], procs) {
      forall e | e in es
        ensures !e.ambiguous && !Differ(c.pid, e.pid) && !Differ(c.ownerStarted, StartedOf(procs, e.pid))
      {
        assert e == es[0] || e in es[1..];
      }
    }
  }

  lemma CookieNext(c: Conn, es: seq<SockEntry>, procs: ProcMap, now: nat)
    requires es != [] && es[0].proto == Tcp && !c.ownerAmbiguous && !Reused(c, es[0], procs)
    ensures OneCookie(c, es) <==> OneCookie(OnSocket(c, es[0], Missing, procs, now), es[1..])
  {
    hide Terminal, StartedOf, NameOf;
    var d := OnSocket(c, es[0], Missing, procs, now);
    assert es == [es[0]] + es[1..];
    if OneCookie(c, es) {
      assert forall e | e in es[1..] :: e in es && !Differ(es[0].cookie, e.cookie);
    }
    if OneCookie(d, es[1..]) {
      assert forall e | e in es :: e == es[0] || e in es[1..];
    }
  }

  lemma ReopenedNext(c: Conn, es: seq<SockEntry>, procs: ProcMap, now: nat)
    requires es != [] && es[0].proto == Tcp && !c.ownerAmbiguous && !Reused(c, es[0], procs)
    ensures NotReopened(c, es) <==> NotReopened(OnSocket(c, es[0], Missing, procs, now), es[1..])
  {
    hide Terminal, StartedOf, NameOf;
    var d, rest := OnSocket(c, es[0], Missing, procs, now), es[1..];
    assert d.closed == Terminal(es[0].state) && !d.fromPacketsOnly;
    assert forall j | 0 <= j < |rest| :: rest[j] == es[j + 1];
    if NotReopened(d, rest) {
      forall i, j | 0 <= i < j < |es| && Terminal(es[i].state)
        ensures Terminal(es[j].state)
      {
        assert es[j] == rest[j - 1] && rest[j - 1] in rest;
        assert i > 0 ==> es[i] == rest[i - 1];
      }
      assert forall e | e in es :: e == es[0] || e in rest;
    }
    if NotReopened(c, es) {
      forall i, j | 0 <= i < j < |rest| && Terminal(rest[i].state)
        ensures Terminal(rest[j].state)
      {
        assert rest[i] == es[i + 1] && rest[j] == es[j + 1];
      }
      forall e | e in rest && d.closed
        ensures Terminal(e.state)
      {
        var j :| 0 <= j < |rest| && rest[j] == e;
        assert es[j + 1] == e;
      }
    }
  }

  lemma ReusedFirst(c: Conn, es: seq<SockEntry>, procs: ProcMap)
    requires es != [] && es[0].proto == Tcp && Reused(c, es[0], procs)
    ensures !OneSession(c, es, procs)
  {
    assert es[0] in es;
  }

  lemma TellsNext(c: Conn, es: seq<SockEntry>, procs: ProcMap, now: nat, pid: int)
    requires es != [] && es[0].proto == Tcp && !c.ownerAmbiguous && !Reused(c, es[0], procs)
    requires OneOwner(c, es, procs)
    ensures Tells(c, es, pid) <==> Tells(OnSocket(c, es[0], Missing, procs, now), es[1..], pid)
  {
    hide Terminal, StartedOf, NameOf;
    assert es == [es[0]] + es[1..] && es[0] in es;
    if Tells(c, es, pid) && c.pid != Some(pid) {
      var e :| e in es && e.pid == Some(pid);
      assert e == es[0] || e in es[1..];
    }
    assert !Differ(c.pid, es[0].pid);
  }

  lemma {:induction false} StaysDisputed(c: Conn, es: seq<SockEntry>, procs: ProcMap, now: nat)
    requires c.ownerAmbiguous && c.pid == None && forall e | e in es :: e.proto == Tcp
    ensures ShownAll(c, es, procs, now).ownerAmbiguous && ShownAll(c, es, procs, now).pid == None
    decreases |es|
  {
    hide Reused;
    if es != [] {
      assert es[0] in es && forall e | e in es[1..] :: e in es;
      StaysDisputed(OnSocket(c, es[0], Missing, procs, now), es[1..], procs, now);
    }
  }

  /** The entries of one poll leave a row undisputed exactly when they and the row are of one session as far
      as they tell; its owner is then the one that the row or any of them tells. */
  lemma {:induction false} OwnerIff(c: Conn, es: seq<SockEntry>, procs: ProcMap, now: nat, pid: int)
    requires !c.ownerAmbiguous && forall e | e in es :: e.proto == Tcp
    ensures var d := ShownAll(c, es, procs, now);
            && (d.ownerAmbiguous <==> !OneSession(c, es, procs))
            && (d.pid == Some(pid) <==> OneSession(c, es, procs) && Tells(c, es, pid))
    decreases |es|
  {
    hide Reused, OneOwner, OneCookie, NotReopened, Tells;
    if es == [] {
      NothingShown(c, procs, pid);
    } else {
      var d := OnSocket(c, es[0], Missing, procs, now);
      assert es[0] in es && forall e | e in es[1..] :: e in es;
      if Reused(c, es[0], procs) {
        ReusedFirst(c, es, procs);
        StaysDisputed(d, es[1..], procs, now);
      } else {
        OwnerNext(c, es, procs, now);
        CookieNext(c, es, procs, now);
        ReopenedNext(c, es, procs, now);
        OwnerIff(d, es[1..], procs, now, pid);
        if OneOwner(c, es, procs) { TellsNext(c, es, procs, now, pid); }
      }
    }
  }

  lemma NothingShown(c: Conn, procs: ProcMap, pid: int)
    ensures OneSession(c, [], procs) && (Tells(c, [], pid) <==> c.pid == Some(pid))
  {}

  // A row through a poll.

  lemma MatchIsIdle(c: Conn, sock: SockEntry, m: UdpMatch, procs: ProcMap, now: nat)
    requires sock.proto == Tcp
    ensures OnSocket(c, sock, m, procs, now) == OnSocket(c, sock, Missing, procs, now)
  {}

  lemma {:induction false} EntriesShow(s: Store, socks: seq<SockEntry>, i: nat, alive: set<ConnKey>, poll: Poll,
                                       k: ConnKey)
    requires i <= |socks| && k in s.conns && k.proto == Tcp && forall j: nat :: k !in poll.victims(j)
    ensures var (t, last) := OnEntries(s, socks, i, alive, poll);
            && k in t.conns && t.conns[k] == ShownAll(s.conns[k], Showing(socks[i..], k), poll.procs, poll.now)
            && (k in last <==> k in alive || Showing(socks[i..], k) != [])
    decreases |socks| - i
  {
    hide OwnerOf, OnSocket;
    if i < |socks| {
      var sock := socks[i];
      assert socks[i..][0] == sock && socks[i..][1..] == socks[i + 1..];
      var t := OnEntry(s, sock, i, poll);
      if sock.Key() == k {
        MatchIsIdle(s.conns[k], sock, Owner(s, k), poll.procs, poll.now);
        assert k.rport != 0 ==> ([sock] + Showing(socks[i + 1..], k))[1..] == Showing(socks[i + 1..], k);
      }
      assert [] + Showing(socks[i + 1..], k) == Showing(socks[i + 1..], k);
      EntriesShow(t, socks, i + 1, AliveAfter(s, sock, alive), poll, k);
    }
  }

  lemma AbsentKeepsOwner(c: Conn, m: UdpMatch, procs: ProcMap, now: nat)
    ensures var d := OnAbsence(c, Tcp, m, procs, now); d == c.(closed := d.closed, state := d.state)
  {}

  lemma RowAfterPoll(s: Store, socks: seq<SockEntry>, poll: Poll, k: ConnKey)
    requires Lives(s, Snapshot(socks, poll), k) && k.proto == Tcp
    ensures var c, t, es := s.conns[k], OnPoll(s, socks, poll), Showing(socks, k);
            && k in t.conns
            && t.conns[k] == if es == [] then OnAbsence(c, Tcp, Missing, poll.procs, poll.now)
                             else ShownAll(c, es, poll.procs, poll.now)
  {
    hide OwnerOf, OnEntries, OnSocket, Refreshed;
    assert socks[0..] == socks;
    EntriesShow(Observed(s, socks, poll), socks, 0, {}, poll, k);
  }

  /** Exactly when a poll leaves an undisputed TCP row undisputed, and exactly when the row then belongs to
      a process: nothing asks whether packets before the poll were of the session the poll shows. */
  lemma PollClaimsIff(s: Store, socks: seq<SockEntry>, poll: Poll, k: ConnKey, pid: int)
    requires Lives(s, Snapshot(socks, poll), k) && k.proto == Tcp && !s.conns[k].ownerAmbiguous
    ensures var c, t, es := s.conns[k], OnPoll(s, socks, poll), Showing(socks, k);
            && k in t.conns
            && (t.conns[k].ownerAmbiguous <==> !OneSession(c, es, poll.procs))
            && (t.conns[k].pid == Some(pid) <==> OneSession(c, es, poll.procs) && Tells(c, es, pid))
  {
    hide OnPoll, OnAbsence, ShownAll, OneSession, Tells;
    RowAfterPoll(s, socks, poll, k);
    OwnerIff(s.conns[k], Showing(socks, k), poll.procs, poll.now, pid);
    AbsentKeepsOwner(s.conns[k], Missing, poll.procs, poll.now);
    if Showing(socks, k) == [] { NothingShown(s.conns[k], poll.procs, pid); }
  }

  // A run in which a silent row is claimed: a packet, a poll without sockets a minute later, and a poll with
  // a socket on the same tuple.

  const ROW := ConnKey(Tcp, V4(1), 1, V4(2), 443)

  function PacketOf(bytes: nat): Op {
    Arrival(Packet(Tcp, V4(1), 1, V4(2), 443, bytes, None), 0, 0, {})
  }

  function PollAt(now: nat, socks: seq<SockEntry>): Op {
    Snapshot(socks, Poll(map[], now, (i: nat) => now, (i: nat) => {}))
  }

  function SocketOf(pid: int): SockEntry {
    SockEntry(Tcp, V4(1), 1, V4(2), 443, OtherState("ESTABLISHED"), Some(pid), false, None)
  }

  function Silent(bytes: nat): Conn {
    FreshRow(0, true).(txBytes := bytes, txPkts := 1)
  }

  lemma AfterPacket(bytes: nat)
    ensures ROW in Step(Empty(0), PacketOf(bytes)).conns
    ensures Step(Empty(0), PacketOf(bytes)).conns[ROW] == Silent(bytes)
  {
    hide OwnerOf;
    assert PacketKey({}, PacketOf(bytes).packet) == ROW;
  }

  lemma AfterSilence(s: Store, bytes: nat)
    requires ROW in s.conns && s.conns[ROW] == Silent(bytes)
    ensures var t := Step(s, PollAt(60_001, []));
            ROW in t.conns && t.conns[ROW] == Silent(bytes).(closed := true, state := Closed)
  {
    hide OnPoll;
    RowAfterPoll(s, [], PollAt(60_001, []).poll, ROW);
  }

  lemma AfterClaim(s: Store, bytes: nat, pid: int)
    requires ROW in s.conns && s.conns[ROW] == Silent(bytes).(closed := true, state := Closed)
    ensures var t := Step(s, PollAt(60_002, [SocketOf(pid)]));
            && ROW in t.conns
            && t.conns[ROW].pid == Some(pid) && !t.conns[ROW].ownerAmbiguous && t.conns[ROW].txBytes == bytes
  {
    hide OnPoll;
    var e, poll := SocketOf(pid), PollAt(60_002, [SocketOf(pid)]).poll;
    RowAfterPoll(s, [e], poll, ROW);
    assert [e][1..] == [] && Showing([], ROW) == [];
    assert Showing([e], ROW) == [e] + [] == [e];
    assert ShownAll(s.conns[ROW], [e], poll.procs, poll.now) == OnSocket(s.conns[ROW], e, Missing, poll.procs, poll.now);
  }

  /** Bytes of a connection that ended a minute ago are counted for the process that connects next from
      the same port, without doubt. */
  lemma SilentRowIsClaimed(bytes: nat, pid: int)
    ensures var ops := [PacketOf(bytes), PollAt(60_001, []), PollAt(60_002, [SocketOf(pid)])];
            var s, t := Run(Empty(0), ops[..2]), Run(Empty(0), ops);
            && ROW in s.conns && s.conns[ROW].closed && Lives(s, ops[2], ROW) && ROW in t.conns
            && t.conns[ROW].pid == Some(pid) && !t.conns[ROW].ownerAmbiguous && t.conns[ROW].txBytes == bytes
  {
    hide Step, Silent;
    var a, b, c := PacketOf(bytes), PollAt(60_001, []), PollAt(60_002, [SocketOf(pid)]);
    assert [a, b, c][..2] == [a, b] && [a, b][..1] == [a] && [a][..0] == [];
    AfterPacket(bytes);
    var s := Step(Empty(0), a);
    AfterSilence(s, bytes);
    var t := Step(s, b);
    AfterClaim(t, bytes, pid);
    assert Run(Empty(0), [a]) == s && Run(Empty(0), [a, b]) == t && Run(Empty(0), [a, b, c]) == Step(t, c);
  }
}
