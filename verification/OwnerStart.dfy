/**
 For UDP the start time of a row's owner is not as firm as its pid: a socket keeps its pid through a snapshot
 that does not tell it, and the start time is then read again from the process list.
 */
module OwnerStart {
  import opened History
  import opened Net
  import opened Procs
  import opened Rows
  import opened UdpSockets
  import opened Wrappers

  lemma OneNew(generation: nat, sock: SockEntry, procs: ProcMap, since: nat)
    requires sock.proto == Udp
    ensures Refreshed(map[], generation, [sock], procs, since)
            == (map[sock.lport := [Opened(sock, procs, generation + 1, since)]], generation + 1)
  {
    hide Opened;
    var p := Pass(map[], map[], generation);
    assert [sock][1..] == [];
    assert PassAll(PassOn(p, sock, procs, since), [sock][1..], procs, since) == PassOn(p, sock, procs, since);
    assert At(map[], sock.lport) == [];
    assert [] + [Opened(sock, procs, generation + 1, since)] == [Opened(sock, procs, generation + 1, since)];
  }

  lemma OneAgain(u: UdpSocket, generation: nat, sock: SockEntry, procs: ProcMap, since: nat)
    requires sock.proto == Udp && Same(u, sock, procs)
    ensures Refreshed(map[sock.lport := [u]], generation, [sock], procs, since)
            == (map[sock.lport := [Renewed(u, sock, procs)]], generation)
  {
    hide Renewed, SwapRemove, Same;
    var p := Pass(map[sock.lport := [u]], map[], generation);
    assert [sock][1..] == [];
    assert PassAll(PassOn(p, sock, procs, since), [sock][1..], procs, since) == PassOn(p, sock, procs, since);
    assert At(p.previous, sock.lport) == [u] && Position([u], sock, procs) == Some(0);
    assert [] + [Renewed(u, sock, procs)] == [Renewed(u, sock, procs)];
  }

  // A run in which it is replaced: a socket is told with its owner, then without, while the process list
  // shows the pid with another start.

  function SocketOf(a: IpAddr, pid: Option<int>): SockEntry {
    SockEntry(Udp, a, 1, a, 2, Active, pid, false, None)
  }

  function OneProcess(pid: int, started: nat): ProcMap {
    map[pid := ProcInfo(pid, started, 0, "")]
  }

  function PollAt(now: nat, pid: int, started: nat): Poll {
    Poll(OneProcess(pid, started), now, (i: nat) => now, (i: nat) => {})
  }

  lemma FirstPoll(a: IpAddr, pid: int, started: nat, now: nat)
    requires !a.IsUnspecified() && !a.IsMulticast()
    ensures var sock := SocketOf(a, Some(pid));
            var s := Observed(Empty(0), [sock], PollAt(now, pid, started));
            && s.sockets == map[1 := [UdpSocket(sock, Some(started), 1, 0)]] && s.generation == 1
            && s.localIps == {a} && s.conns == map[]
  {
    hide Refreshed;
    OneNew(0, SocketOf(a, Some(pid)), OneProcess(pid, started), 0);
  }

  /** A poll of one socket touches its row alone, if there is no other. */
  lemma OnePoll(s: Store, sock: SockEntry, poll: Poll)
    requires sock.rport != 0 && sock.state != TimeWait && s.conns.Keys <= {sock.Key()}
    ensures OnPoll(s, [sock], poll) == OnEntry(Observed(s, [sock], poll), sock, 0, poll)
  {
    hide OnSocket, OnAbsence, OwnerOf, Refreshed;
    var t := Observed(s, [sock], poll);
    var u := OnEntry(t, sock, 0, poll);
    assert AliveAfter(t, sock, {}) == {sock.Key()};
    assert OnEntries(t, [sock], 0, {}, poll) == OnEntries(u, [sock], 1, {sock.Key()}, poll);
    assert u.conns.Keys <= {sock.Key()};
    assert Swept(u, {sock.Key()}, poll).conns == u.conns;
  }

  lemma OneOwner(u: UdpSocket, a: IpAddr, k: ConnKey)
    requires u.entry == SocketOf(a, u.entry.pid) && k == u.entry.Key()
    ensures OwnerOf(map[1 := [u]], {a}, k) == Unique(UdpOwner(u.generation, u.since, u.entry.pid, u.ownerStarted))
  {
    assert At(map[1 := [u]], 1) == [u];
    assert Carries(u, k);
    assert [u][1..] == [];
    assert Carriers([u], k) == [u] + Carriers([u][1..], k);
    assert [u] + [] == [u];
  }

  /** The row after one poll and after two. */
  function RowOf(pid: int, started: nat, born: nat, now: nat): Conn {
    FreshRow(born, false).(state := Active, lastSeen := now, pid := Some(pid), ownerStarted := Some(started),
                           pname := Some(""), udpGeneration := Some(1))
  }

  lemma AfterFirst(a: IpAddr, pid: int, started: nat, now: nat)
    requires !a.IsUnspecified() && !a.IsMulticast()
    ensures var sock := SocketOf(a, Some(pid));
            OnPoll(Empty(0), [sock], PollAt(now, pid, started))
            == Store(map[sock.Key() := RowOf(pid, started, now, now)], map[1 := [UdpSocket(sock, Some(started), 1, 0)]],
                     1, now, {a})
  {
    hide Refreshed, OwnerOf;
    var sock := SocketOf(a, Some(pid));
    FirstPoll(a, pid, started, now);
    OnePoll(Empty(0), sock, PollAt(now, pid, started));
    OneOwner(UdpSocket(sock, Some(started), 1, 0), a, sock.Key());
  }

  lemma AfterSecond(a: IpAddr, pid: int, first: nat, second: nat)
    requires !a.IsUnspecified() && !a.IsMulticast()
    ensures var s := OnPoll(Empty(0), [SocketOf(a, Some(pid))], PollAt(1, pid, first));
            var sock := SocketOf(a, None);
            OnPoll(s, [sock], PollAt(2, pid, second)).conns == map[sock.Key() := RowOf(pid, second, 1, 2)]
  {
    hide Refreshed, OwnerOf, OnPoll;
    var u := UdpSocket(SocketOf(a, Some(pid)), Some(first), 1, 0);
    var sock := SocketOf(a, None);
    AfterFirst(a, pid, first, 1);
    var s := OnPoll(Empty(0), [SocketOf(a, Some(pid))], PollAt(1, pid, first));
    var poll := PollAt(2, pid, second);
    OneAgain(u, 1, sock, poll.procs, 1);
    OnePoll(s, sock, poll);
    var w := Renewed(u, sock, poll.procs);
    assert w == UdpSocket(SocketOf(a, Some(pid)), Some(second), 1, 0);
    OneOwner(w, a, sock.Key());
    var t := Observed(s, [sock], poll);
    assert t.localIps == {a} && t.sockets == map[1 := [w]];
    assert Owner(t, sock.Key()) == Unique(UdpOwner(1, 0, Some(pid), Some(second)));
    assert s.conns == map[sock.Key() := RowOf(pid, first, 1, 1)];
    assert OnSocket(RowOf(pid, first, 1, 1), sock, Owner(t, sock.Key()), poll.procs, 2) == RowOf(pid, second, 1, 2);
    assert s.conns[sock.Key() := RowOf(pid, second, 1, 2)] == map[sock.Key() := RowOf(pid, second, 1, 2)];
  }

  /** The counterexample: in a reachable state a row keeps its pid and no doubt is raised, yet the start
      time of its owner becomes another. */
  lemma StartIsReplaced(a: IpAddr, pid: int, first: nat, second: nat)
    requires !a.IsUnspecified() && !a.IsMulticast() && first != second
    ensures var ops := [Snapshot([SocketOf(a, Some(pid))], PollAt(1, pid, first)),
                        Snapshot([SocketOf(a, None)], PollAt(2, pid, second))];
            var k := SocketOf(a, None).Key();
            var s, t := Run(Empty(0), ops[..1]), Run(Empty(0), ops);
            && Lives(s, ops[1], k) && k in t.conns
            && !s.conns[k].ownerAmbiguous && !t.conns[k].ownerAmbiguous
            && s.conns[k].pid == t.conns[k].pid == Some(pid)
            && s.conns[k].ownerStarted == Some(first) && t.conns[k].ownerStarted == Some(second)
  {
    hide OnPoll;
    var one, two := Snapshot([SocketOf(a, Some(pid))], PollAt(1, pid, first)),
                    Snapshot([SocketOf(a, None)], PollAt(2, pid, second));
    assert [one, two][..1] == [one] && [one][..0] == [];
    AfterFirst(a, pid, first, 1);
    AfterSecond(a, pid, first, second);
  }
}
