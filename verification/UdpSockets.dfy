/** The UDP sockets of the last snapshot: each is one generation, recognised from poll to poll. */
module UdpSockets {
  import opened Net
  import opened Procs
  import opened Rows
  import opened Wrappers

  datatype UdpSocket = UdpSocket(entry: SockEntry, ownerStarted: Option<nat>, generation: nat, since: nat)

  /** Sockets by local port. */
  type Table = map<nat, seq<UdpSocket>>

  function At(t: Table, port: nat): seq<UdpSocket> {
    if port in t then t[port] else []
  }

  /** The snapshot shows the same socket again. */
  predicate Same(old_: UdpSocket, s: SockEntry, procs: ProcMap) {
    var e := old_.entry;
    && e.local == s.local && e.remote == s.remote && e.rport == s.rport && e.cookie == s.cookie
    && !Differ(old_.ownerStarted, StartedOf(procs, s.pid))
    && (s.pid.None? || e.pid.None? || e.pid == s.pid)
  }

  /** The position of the first socket of the list that is the same. */
  function Position(us: seq<UdpSocket>, s: SockEntry, procs: ProcMap): (r: Option<nat>)
    ensures r.Some? ==> r.value < |us| && Same(us[r.value], s, procs)
    ensures forall i | 0 <= i < (if r.Some? then r.value else |us|) :: !Same(us[i], s, procs)
  {
    if us == [] then None
    else if Same(us[0], s, procs) then Some(0)
    else
      match Position(us[1..], s, procs)
      case None => None
      case Some(i) => Some(i + 1)
  }

  /** Removal that moves the last element into the gap. */
  function SwapRemove(us: seq<UdpSocket>, i: nat): (r: seq<UdpSocket>)
    requires i < |us|
    ensures |r| == |us| - 1
  {
    us[i := us[|us| - 1]][..|us| - 1]
  }

  /** The socket seen again: what is known of its owner is kept, doubt is kept for good. */
  function Renewed(u: UdpSocket, s: SockEntry, procs: ProcMap): UdpSocket {
    var pid := s.pid.Or(u.entry.pid);
    var ambiguous := s.ambiguous || u.entry.ambiguous;
    u.(entry := s.(ambiguous := ambiguous, pid := if ambiguous then None else pid),
       ownerStarted := StartedOf(procs, pid).Or(u.ownerStarted))
  }

  function Opened(s: SockEntry, procs: ProcMap, generation: nat, since: nat): UdpSocket {
    UdpSocket(s, StartedOf(procs, s.pid), generation, since)
  }

  /** The state of the pass over a snapshot: the sockets not recognised yet, those recognised or new,
      and the counter of generations. */
  datatype Pass = Pass(previous: Table, current: Table, generation: nat)

  function PassOn(p: Pass, s: SockEntry, procs: ProcMap, since: nat): Pass {
    if s.proto != Udp then p
    else
      var us := At(p.previous, s.lport);
      match Position(us, s, procs)
      case Some(i) =>
        Pass(p.previous[s.lport := SwapRemove(us, i)],
             p.current[s.lport := At(p.current, s.lport) + [Renewed(us[i], s, procs)]],
             p.generation)
      case None =>
        Pass(p.previous,
             p.current[s.lport := At(p.current, s.lport) + [Opened(s, procs, p.generation + 1, since)]],
             p.generation + 1)
  }

  function PassAll(p: Pass, socks: seq<SockEntry>, procs: ProcMap, since: nat): Pass
    decreases |socks|
  {
    if socks == [] then p else PassAll(PassOn(p, socks[0], procs, since), socks[1..], procs, since)
  }

  /** The sockets of a snapshot and the counter after it. */
  function Refreshed(t: Table, generation: nat, socks: seq<SockEntry>, procs: ProcMap, since: nat): (Table, nat) {
    var p := PassAll(Pass(t, map[], generation), socks, procs, since);
    (p.current, p.generation)
  }

  /** The socket can carry the row's traffic. */
  predicate Carries(u: UdpSocket, k: ConnKey) {
    var e := u.entry;
    && (e.local == k.local || (e.local.IsUnspecified() && e.local.V4? == k.local.V4?))
    && (e.rport == 0 || (e.remote == k.remote && e.rport == k.rport))
  }

  function Carriers(us: seq<UdpSocket>, k: ConnKey): (r: seq<UdpSocket>)
    ensures forall u | u in r :: u in us && Carries(u, k)
  {
    if us == [] then [] else (if Carries(us[0], k) then [us[0]] else []) + Carriers(us[1..], k)
  }

  /** The one socket a UDP row belongs to, if it is told. */
  function OwnerOf(t: Table, localIps: set<IpAddr>, k: ConnKey): UdpMatch {
    if k.local !in localIps then Missing
    else
      var us := Carriers(At(t, k.lport), k);
      if us == [] then Missing
      else if us[0].entry.ambiguous || |us| > 1 then Ambiguous
      else Unique(UdpOwner(us[0].generation, us[0].since, us[0].entry.pid, us[0].ownerStarted))
  }
}
