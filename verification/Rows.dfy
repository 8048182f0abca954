/** One row of the connection history and everything that changes it. */
module Rows {
  import opened Net
  import opened Procs
  import opened Wrappers

  const PACKET_ONLY_IDLE_MS := 60_000

  datatype ConnState = New | Active | Closed | TimeWait | Close | DeleteTcb | OtherState(name: string)

  predicate Terminal(s: ConnState) {
    s == TimeWait || s == Close || s == DeleteTcb
  }

  /** A socket of a snapshot, with its owner as far as it is known. */
  datatype SockEntry = SockEntry(proto: Proto, local: IpAddr, lport: nat, remote: IpAddr, rport: nat,
                                 state: ConnState, pid: Option<int>, ambiguous: bool, cookie: Option<nat>)
  {
    function Key(): ConnKey {
      ConnKey(proto, local, lport, remote, rport)
    }
  }

  type ProcMap = map<int, ProcInfo>

  function StartedOf(procs: ProcMap, pid: Option<int>): Option<nat> {
    if pid.Some? && pid.value in procs then Some(procs[pid.value].started) else None
  }

  function NameOf(procs: ProcMap, pid: Option<int>): Option<string> {
    if pid.Some? && pid.value in procs then Some(procs[pid.value].name) else None
  }

  datatype Conn = Conn(state: ConnState, pid: Option<int>, ownerStarted: Option<nat>, pname: Option<string>,
                       domain: Option<string>, sni: Option<string>, ptr: Option<string>,
                       firstSeen: nat, lastSeen: nat,
                       txBytes: nat, rxBytes: nat, txPkts: nat, rxPkts: nat,
                       fromPacketsOnly: bool, closed: bool,
                       udpGeneration: Option<nat>, tcpCookie: Option<nat>, ownerAmbiguous: bool)

  function FreshRow(t: nat, fromPackets: bool): Conn {
    Conn(New, None, None, None, None, None, None, t, t, 0, 0, 0, 0, fromPackets, false, None, None, false)
  }

  /** The owner of a disputed row is unknown for good. */
  function Disputed(c: Conn): Conn {
    c.(ownerAmbiguous := true, pid := None, ownerStarted := None, pname := None)
  }

  /** Both values are known and differ. */
  predicate Differ<T(==)>(a: Option<T>, b: Option<T>) {
    a.Some? && b.Some? && a.value != b.value
  }

  // UDP.

  datatype UdpOwner = UdpOwner(generation: nat, since: nat, pid: Option<int>, started: Option<nat>)

  datatype UdpMatch = Missing | Ambiguous | Unique(owner: UdpOwner)

  /** The socket can be the row's: it is not younger than the row, and the row is not bound elsewhere. */
  predicate MayOwn(c: Conn, o: UdpOwner) {
    c.firstSeen >= o.since && (c.udpGeneration == None || c.udpGeneration == Some(o.generation))
  }

  function AttributeUdp(c: Conn, m: UdpMatch, procs: Option<ProcMap>): Conn {
    if c.ownerAmbiguous then c
    else
      match m
      case Unique(o) =>
        if !MayOwn(c, o) then Disputed(c)
        else
          var bound := c.(udpGeneration := Some(o.generation));
          if o.pid.None? then bound
          else bound.(pid := o.pid, ownerStarted := o.started.Or(c.ownerStarted),
                      pname := if procs.Some? then NameOf(procs.value, o.pid) else c.pname)
      case Missing => if c.udpGeneration.None? then c else Disputed(c)
      case Ambiguous => Disputed(c)
  }

  // Socket polls.

  /** A TCP tuple that shows another process, socket or session than before. */
  predicate Reused(c: Conn, s: SockEntry, procs: ProcMap) {
    || Differ(c.pid, s.pid)
    || Differ(c.ownerStarted, StartedOf(procs, s.pid))
    || s.ambiguous
    || Differ(c.tcpCookie, s.cookie)
    || (c.closed && !Terminal(s.state) && !c.fromPacketsOnly)
  }

  function OnTcpSocket(c: Conn, s: SockEntry, procs: ProcMap): Conn {
    var d := if Reused(c, s, procs) then Disputed(c).(sni := None, domain := None) else c;
    d.(tcpCookie := s.cookie.Or(d.tcpCookie))
  }

  /** A row whose socket is in the snapshot. */
  function OnSocket(c: Conn, s: SockEntry, m: UdpMatch, procs: ProcMap, now: nat): Conn {
    var d := (if s.proto == Tcp then OnTcpSocket(c, s, procs) else c)
             .(state := s.state, lastSeen := now, fromPacketsOnly := false, closed := Terminal(s.state));
    if s.proto == Udp then AttributeUdp(d, m, Some(procs))
    else if s.pid.Some? && !d.ownerAmbiguous then
      d.(pid := s.pid, ownerStarted := StartedOf(procs, s.pid).Or(d.ownerStarted), pname := NameOf(procs, s.pid))
    else d
  }

  /** A row whose socket is not in the snapshot. */
  function OnAbsence(c: Conn, proto: Proto, m: UdpMatch, procs: ProcMap, now: nat): Conn {
    if proto == Udp then
      var active := m.Unique? && (c.udpGeneration == None || c.udpGeneration == Some(m.owner.generation));
      if !active then c.(closed := true, state := Closed)
      else if !c.closed then AttributeUdp(c, m, Some(procs)).(state := Active)
      else c
    else if c.closed then c
    else if c.state != New then
      c.(closed := true, state := if c.state == TimeWait then TimeWait else Closed)
    else if now - c.lastSeen > PACKET_ONLY_IDLE_MS then c.(closed := true, state := Closed)
    else c
  }

  // Packets.

  datatype Packet = Packet(proto: Proto, src: IpAddr, sport: nat, dst: IpAddr, dport: nat, bytes: nat,
                           sni: Option<string>)

  function OnPacket(c: Conn, p: Packet, outgoing: bool, m: UdpMatch, now: nat): Conn {
    var d := if p.proto == Udp then AttributeUdp(c, m, None).(closed := false, state := New)
             else if c.closed && c.fromPacketsOnly then c.(closed := false, state := New)
             else c;
    var e := if outgoing then d.(lastSeen := now, txBytes := d.txBytes + p.bytes, txPkts := d.txPkts + 1)
             else d.(lastSeen := now, rxBytes := d.rxBytes + p.bytes, rxPkts := d.rxPkts + 1);
    if p.sni.Some? then e.(sni := p.sni, domain := p.sni) else e
  }

  // Names.

  /** The two forms of the fixed label of a special address. */
  datatype Labels = Labels(en: string, ru: string)
  {
    predicate Is(name: string) {
      name == en || name == ru
    }

    function In(english: bool): string {
      if english then en else ru
    }
  }

  /** SNI beats DNS, DNS beats PTR; a name that came from DNS stays. */
  function Enriched(c: Conn, labels: Option<Labels>, dns: Option<string>, english: bool): Conn {
    if c.sni.Some? then c
    else
      var frozen := c.domain.Some? && c.ptr != c.domain && !(labels.Some? && labels.value.Is(c.domain.value));
      if dns.Some? && !frozen then c.(domain := dns)
      else if labels.Some? && c.domain.Some? && labels.value.Is(c.domain.value) then
        c.(domain := Some(labels.value.In(english)))
      else if c.domain.Some? then c
      else if c.ptr.Some? then c.(domain := c.ptr)
      else if labels.Some? then c.(domain := Some(labels.value.In(english)))
      else c
  }

  /** What a lookup of the remote address adds: its PTR name, and that as the name while there is none.
      A fresh answer replaces an older one, a remembered one does not. */
  function Resolved(c: Conn, ptr: Option<string>, anew: bool): Conn {
    c.(ptr := if anew then ptr.Or(c.ptr) else c.ptr.Or(ptr), domain := c.domain.Or(ptr))
  }

  /** Enriching again with the same knowledge changes nothing, except right after a PTR name was taken that
      reads like the label in the other language. */
  lemma EnrichedTwiceIff(c: Conn, labels: Option<Labels>, dns: Option<string>, english: bool)
    ensures Enriched(Enriched(c, labels, dns, english), labels, dns, english) == Enriched(c, labels, dns, english)
            <==> !(c.sni.None? && c.domain.None? && dns.None? && c.ptr.Some? && labels.Some?
                   && labels.value.Is(c.ptr.value) && c.ptr.value != labels.value.In(english))
  {
    var d := Enriched(c, labels, dns, english);
    var e := Enriched(d, labels, dns, english);
    EnrichedOnly(c, labels, dns, english);
    EnrichedOnly(d, labels, dns, english);
    assert e == d <==> e.domain == d.domain;
  }

  /** A name from the handshake stays; a name that came from DNS stays, whatever the address is called later;
      a name from DNS wins over PTR and label; a name is never lost. */
  lemma NamePriority(c: Conn, labels: Option<Labels>, dns: Option<string>, english: bool)
    ensures var d := Enriched(c, labels, dns, english);
            && (c.sni.Some? ==> d == c)
            && (c.domain.Some? && c.domain != c.ptr && !(labels.Some? && labels.value.Is(c.domain.value)) ==> d == c)
            && (c.sni.None? && dns.Some? && (c.domain.None? || c.domain == c.ptr) ==> d.domain == dns)
            && (c.domain.Some? || c.ptr.Some? || dns.Some? || labels.Some? ==> c.sni.Some? || d.domain.Some?)
  {}

  /** What a packet does to its row: the name in its handshake becomes the row's name, its bytes are counted on its
      side, and the row is seen now; a UDP row is open after it, and so is a TCP row that was closed for silence. The
      owner of a TCP row is not touched. */
  lemma PacketOnRow(c: Conn, p: Packet, outgoing: bool, m: UdpMatch, now: nat)
    ensures var d := OnPacket(c, p, outgoing, m, now);
            && (match p.sni
                case Some(name) => d.sni == Some(name) && d.domain == Some(name)
                case None => d.sni == c.sni && d.domain == c.domain)
            && d.lastSeen == now && d.firstSeen == c.firstSeen && d.ptr == c.ptr
            && (outgoing ==> d.txBytes == c.txBytes + p.bytes && d.txPkts == c.txPkts + 1
                             && d.rxBytes == c.rxBytes && d.rxPkts == c.rxPkts)
            && (!outgoing ==> d.rxBytes == c.rxBytes + p.bytes && d.rxPkts == c.rxPkts + 1
                              && d.txBytes == c.txBytes && d.txPkts == c.txPkts)
            && (d.closed <==> c.closed && p.proto == Tcp && !c.fromPacketsOnly)
            && (p.proto == Tcp ==> d.pid == c.pid && d.ownerStarted == c.ownerStarted && d.pname == c.pname
                                   && d.ownerAmbiguous == c.ownerAmbiguous && d.tcpCookie == c.tcpCookie)
  {
    hide AttributeUdp;
    AttributedOnly(c, m);
  }

  lemma AttributedOnly(c: Conn, m: UdpMatch)
    ensures var d := AttributeUdp(c, m, None);
            d == c.(udpGeneration := d.udpGeneration, pid := d.pid, ownerStarted := d.ownerStarted, pname := d.pname,
                    ownerAmbiguous := d.ownerAmbiguous)
  {}

  /** The tuple is another connection now: its process, its start time or its socket is known and is another, its owner
      is in doubt, or a connection that had ended is there again. */
  predicate AnotherConnection(c: Conn, s: SockEntry, procs: ProcMap) {
    || s.ambiguous
    || (c.pid.Some? && s.pid.Some? && c.pid.value != s.pid.value)
    || (c.ownerStarted.Some? && s.pid.Some? && s.pid.value in procs
        && c.ownerStarted.value != procs[s.pid.value].started)
    || (c.tcpCookie.Some? && s.cookie.Some? && c.tcpCookie.value != s.cookie.value)
    || (c.closed && !c.fromPacketsOnly && s.state != TimeWait && s.state != Close && s.state != DeleteTcb)
  }

  /** What a socket in the snapshot does to its TCP row: the row takes its state, is seen now, and is in doubt from then
      on exactly if it was or the tuple is another connection; such a row loses its name, too. Without doubt it has the
      process that the snapshot tells. */
  lemma SocketOnRow(c: Conn, s: SockEntry, m: UdpMatch, procs: ProcMap, now: nat)
    requires s.proto == Tcp
    ensures var d := OnSocket(c, s, m, procs, now);
            && d.state == s.state && d.lastSeen == now && d.firstSeen == c.firstSeen && !d.fromPacketsOnly
            && (d.closed <==> s.state == TimeWait || s.state == Close || s.state == DeleteTcb)
            && (d.ownerAmbiguous <==> c.ownerAmbiguous || AnotherConnection(c, s, procs))
            && (AnotherConnection(c, s, procs) ==> d.sni.None? && d.domain.None? && d.pid.None?)
            && (!AnotherConnection(c, s, procs) ==> d.sni == c.sni && d.domain == c.domain)
            && (!d.ownerAmbiguous && s.pid.Some? ==> d.pid == s.pid && d.pname == NameOf(procs, s.pid))
            && (!d.ownerAmbiguous && s.pid.Some? && s.pid.value in procs ==>
                  d.ownerStarted == Some(procs[s.pid.value].started))
            && (!d.ownerAmbiguous && s.pid.None? ==> d.pid == c.pid && d.ownerStarted == c.ownerStarted)
            && d.tcpCookie == (if s.cookie.Some? then s.cookie else c.tcpCookie)
  {
    hide NameOf;
    assert Reused(c, s, procs) <==> AnotherConnection(c, s, procs);
  }

  /** A UDP row comes into doubt when the sockets that could carry it are several, when the one it was bound to no
      longer does, or when the one that does is another or younger than the row; otherwise it is bound to that one,
      and has its process as far as this is known. */
  lemma AttributedIff(c: Conn, m: UdpMatch, procs: Option<ProcMap>)
    ensures var d := AttributeUdp(c, m, procs);
            && (d.ownerAmbiguous <==>
                  || c.ownerAmbiguous || m.Ambiguous?
                  || (m.Missing? && c.udpGeneration.Some?)
                  || (m.Unique? && c.firstSeen < m.owner.since)
                  || (m.Unique? && c.udpGeneration.Some? && c.udpGeneration.value != m.owner.generation))
            && (d.ownerAmbiguous ==> d.udpGeneration == c.udpGeneration)
            && (!d.ownerAmbiguous ==>
                  match m
                  case Unique(o) =>
                    && d.udpGeneration == Some(o.generation)
                    && d.pid == (if o.pid.Some? then o.pid else c.pid)
                    && d.ownerStarted == (if o.pid.Some? && o.started.Some? then o.started else c.ownerStarted)
                  case _ => d == c)
  {}

  /** A row that is closed and not shown stays with its owner: no later socket takes it over. */
  lemma ClosedKeepsOwner(c: Conn, proto: Proto, m: UdpMatch, procs: ProcMap, now: nat)
    requires c.closed
    ensures var d := OnAbsence(c, proto, m, procs, now);
            d.closed && d == c.(state := d.state) && (proto == Tcp ==> d == c)
  {}

  /** Which open rows a poll that does not show them leaves open: for TCP those seen in packets only, for at
      most a minute of silence; for UDP those that one certain socket still carries. */
  lemma StaysOpenIff(c: Conn, proto: Proto, m: UdpMatch, procs: ProcMap, now: nat)
    requires !c.closed
    ensures !OnAbsence(c, proto, m, procs, now).closed
            <==> if proto == Tcp then c.state == New && now <= c.lastSeen + 60_000
                 else m.Unique? && (c.udpGeneration.None? || c.udpGeneration.value == m.owner.generation)
  {}

  // What every change of a row keeps.

  /** An ambiguous row has no owner, and a UDP row has one only through the generation it is bound to. */
  ghost predicate WellFormed(k: ConnKey, c: Conn) {
    && (c.ownerAmbiguous ==> c.pid == None && c.ownerStarted == None && c.pname == None)
    && (k.proto == Tcp ==> c.udpGeneration == None)
    && (k.proto == Udp && c.udpGeneration == None ==> c.pid == None && c.ownerStarted == None)
  }

  /** Between two instants of a row's life: doubt stays; an owner stays or gives way to doubt; the
      binding to a socket and the beginning stay. For TCP the owner's start time stays with the owner. */
  ghost predicate Keeps(k: ConnKey, c: Conn, d: Conn) {
    && (c.ownerAmbiguous ==> d.ownerAmbiguous)
    && (c.pid.Some? ==> d.pid == c.pid || d.ownerAmbiguous)
    && (k.proto == Tcp && c.ownerStarted.Some? ==> d.ownerStarted == c.ownerStarted || d.ownerAmbiguous)
    && (c.udpGeneration.Some? ==> d.udpGeneration == c.udpGeneration)
    && d.firstSeen == c.firstSeen
  }

  lemma KeepsTransitive(k: ConnKey, a: Conn, b: Conn, c: Conn)
    requires Keeps(k, a, b) && Keeps(k, b, c) && WellFormed(k, b) && WellFormed(k, c)
    ensures Keeps(k, a, c)
  {}

  /** The row does not contradict its socket: bound to it, it has no other owner. */
  ghost predicate Agrees(c: Conn, m: UdpMatch) {
    m.Unique? && c.udpGeneration == Some(m.owner.generation) && c.pid.Some? && m.owner.pid.Some? ==>
      c.pid == m.owner.pid
  }

  lemma AttributeKeeps(k: ConnKey, c: Conn, m: UdpMatch, procs: Option<ProcMap>)
    requires k.proto == Udp && WellFormed(k, c) && Agrees(c, m)
    ensures WellFormed(k, AttributeUdp(c, m, procs)) && Keeps(k, c, AttributeUdp(c, m, procs))
  {}

  lemma SocketKeeps(k: ConnKey, c: Conn, s: SockEntry, m: UdpMatch, procs: ProcMap, now: nat)
    requires s.proto == k.proto && WellFormed(k, c) && (k.proto == Udp ==> Agrees(c, m))
    ensures WellFormed(k, OnSocket(c, s, m, procs, now)) && Keeps(k, c, OnSocket(c, s, m, procs, now))
  {
    hide AttributeUdp, Terminal, StartedOf, NameOf;
    if k.proto == Udp {
      var d := c.(state := s.state, lastSeen := now, fromPacketsOnly := false, closed := Terminal(s.state));
      AttributeKeeps(k, d, m, Some(procs));
    }
  }

  lemma AbsenceKeeps(k: ConnKey, c: Conn, m: UdpMatch, procs: ProcMap, now: nat)
    requires WellFormed(k, c) && (k.proto == Udp ==> Agrees(c, m))
    ensures WellFormed(k, OnAbsence(c, k.proto, m, procs, now)) && Keeps(k, c, OnAbsence(c, k.proto, m, procs, now))
  {
    hide AttributeUdp;
    if k.proto == Udp {
      AttributeKeeps(k, c, m, Some(procs));
    }
  }

  lemma PacketKeeps(k: ConnKey, c: Conn, p: Packet, outgoing: bool, m: UdpMatch, now: nat)
    requires p.proto == k.proto && WellFormed(k, c) && (k.proto == Udp ==> Agrees(c, m))
    ensures WellFormed(k, OnPacket(c, p, outgoing, m, now)) && Keeps(k, c, OnPacket(c, p, outgoing, m, now))
  {
    hide AttributeUdp;
    if k.proto == Udp {
      AttributeKeeps(k, c, m, None);
    }
  }

  lemma EnrichedOnly(c: Conn, labels: Option<Labels>, dns: Option<string>, english: bool)
    ensures var d := Enriched(c, labels, dns, english); d == c.(domain := d.domain)
  {}

  lemma ResolvedOnly(c: Conn, ptr: Option<string>, anew: bool)
    ensures var d := Resolved(c, ptr, anew); d == c.(domain := d.domain, ptr := d.ptr)
  {}

  lemma NameKeeps(k: ConnKey, c: Conn, domain: Option<string>, ptr: Option<string>)
    requires WellFormed(k, c)
    ensures var d := c.(domain := domain, ptr := ptr); WellFormed(k, d) && Keeps(k, c, d)
  {}
}
