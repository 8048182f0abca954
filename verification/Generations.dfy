/** What refreshing keeps of the generations of UDP sockets. */
module Generations {
  import opened Net
  import opened Procs
  import opened Rows
  import opened UdpSockets
  import opened Wrappers

  ghost predicate Has(t: Table, u: UdpSocket) {
    exists p :: p in t && u in t[p]
  }

  ghost predicate ApartList(us: seq<UdpSocket>) {
    forall i, j | 0 <= i < j < |us| :: us[i].generation != us[j].generation
  }

  /** No two sockets of the table share a generation. */
  ghost predicate Apart(t: Table) {
    && (forall p | p in t :: ApartList(t[p]))
    && (forall p, q | p in t && q in t && p != q :: ApartLists(t[p], t[q]))
  }

  ghost predicate ApartLists(us: seq<UdpSocket>, ws: seq<UdpSocket>) {
    forall u, w | u in us && w in ws :: u.generation != w.generation
  }

  ghost predicate UpTo(t: Table, generation: nat) {
    forall u | Has(t, u) :: 1 <= u.generation <= generation
  }

  /** Two tables have no generation in common. */
  ghost predicate NoneShared(a: Table, b: Table) {
    forall u, w | Has(a, u) && Has(b, w) :: u.generation != w.generation
  }

  ghost predicate Sound(p: Pass) {
    && Apart(p.previous) && Apart(p.current) && NoneShared(p.previous, p.current)
    && UpTo(p.previous, p.generation) && UpTo(p.current, p.generation)
  }

  /** The same socket at two polls: its beginning stays, doubt stays, and a known owner stays unless doubted. */
  ghost predicate Continues(u: UdpSocket, w: UdpSocket) {
    && w.generation == u.generation && w.since == u.since
    && (u.entry.ambiguous ==> w.entry.ambiguous)
    && (!w.entry.ambiguous && u.entry.pid.Some? ==> w.entry.pid == u.entry.pid)
  }

  /** Where a socket of the new table comes from: an old one, or it is new with a fresh generation. */
  ghost predicate ComesFrom(w: UdpSocket, t: Table, generation: nat, since: nat) {
    || (exists u :: Has(t, u) && Continues(u, w))
    || (w.generation > generation && w.since == since)
  }

  lemma SwapRemoveApart(us: seq<UdpSocket>, i: nat)
    requires ApartList(us) && i < |us|
    ensures ApartList(SwapRemove(us, i))
    ensures forall u | u in SwapRemove(us, i) :: u in us && u.generation != us[i].generation
  {
    var r := SwapRemove(us, i);
    assert forall j | 0 <= j < |r| :: r[j] == if j == i then us[|us| - 1] else us[j];
  }

  lemma RemovedApart(t: Table, port: nat, i: nat)
    requires Apart(t) && port in t && i < |t[port]|
    ensures var r := t[port := SwapRemove(t[port], i)];
            && Apart(r)
            && (forall u | Has(r, u) :: Has(t, u) && u.generation != t[port][i].generation)
  {
    hide SwapRemove;
    SwapRemoveApart(t[port], i);
    var r := t[port := SwapRemove(t[port], i)];
    forall u | Has(r, u)
      ensures Has(t, u) && u.generation != t[port][i].generation
    {
      var p :| p in r && u in r[p];
      assert p in t && u in t[p];
      assert t[port][i] in t[port];
    }
  }

  lemma AppendedHas(t: Table, port: nat, w: UdpSocket)
    ensures var r := t[port := At(t, port) + [w]];
            Has(r, w) && (forall u | Has(r, u) :: u == w || Has(t, u))
  {
    var r := t[port := At(t, port) + [w]];
    assert w in r[port];
    forall u | Has(r, u)
      ensures u == w || Has(t, u)
    {
      var p :| p in r && u in r[p];
      assert u == w || (p in t && u in t[p]);
    }
  }

  lemma AppendedApart(t: Table, port: nat, w: UdpSocket)
    requires Apart(t) && forall u | Has(t, u) :: u.generation != w.generation
    ensures Apart(t[port := At(t, port) + [w]])
  {
    var r := t[port := At(t, port) + [w]];
    var us := At(t, port);
    assert forall u | u in us :: u.generation != w.generation by {
      forall u | u in us ensures u.generation != w.generation { assert Has(t, u); }
    }
    ApartAppend(us, w);
    forall p, q | p in r && q in r && p != q
      ensures ApartLists(r[p], r[q])
    {
      if p == port {
        ApartFrom(t, us, q, w, port);
      } else if q == port {
        ApartFrom(t, us, p, w, port);
      }
    }
  }

  lemma ApartAppend(us: seq<UdpSocket>, w: UdpSocket)
    requires ApartList(us) && forall u | u in us :: u.generation != w.generation
    ensures ApartList(us + [w])
  {}

  lemma ApartFrom(t: Table, us: seq<UdpSocket>, q: nat, w: UdpSocket, port: nat)
    requires Apart(t) && us == At(t, port) && q in t && q != port
    requires forall u | Has(t, u) :: u.generation != w.generation
    ensures ApartLists(us + [w], t[q]) && ApartLists(t[q], us + [w])
  {
    forall v | v in t[q]
      ensures v.generation != w.generation
    {
      assert Has(t, v);
    }
    assert us == [] || (port in t && ApartLists(t[port], t[q]));
  }

  lemma RenewedContinues(u: UdpSocket, s: SockEntry, procs: ProcMap)
    requires Same(u, s, procs)
    ensures Continues(u, Renewed(u, s, procs))
  {}

  /** What one socket of the snapshot adds: an old socket seen again, or a new generation. */
  ghost predicate Extends(p: Pass, r: Pass, since: nat) {
    && r.generation >= p.generation
    && (forall u | Has(r.previous, u) :: Has(p.previous, u))
    && (forall w | Has(r.current, w) ::
          Has(p.current, w) || Again(p.previous, w) || (w.generation > p.generation && w.since == since))
  }

  ghost predicate Again(t: Table, w: UdpSocket) {
    exists u :: Has(t, u) && Continues(u, w)
  }

  lemma PassOnNew(p: Pass, s: SockEntry, procs: ProcMap, since: nat)
    requires Sound(p) && s.proto == Udp && Position(At(p.previous, s.lport), s, procs).None?
    ensures Sound(PassOn(p, s, procs, since)) && Extends(p, PassOn(p, s, procs, since), since)
  {
    hide Same, Apart, StartedOf;
    var w := Opened(s, procs, p.generation + 1, since);
    AppendedHas(p.current, s.lport, w);
    AppendedApart(p.current, s.lport, w);
  }

  lemma PassOnOld(p: Pass, s: SockEntry, procs: ProcMap, since: nat)
    requires Sound(p) && s.proto == Udp && Position(At(p.previous, s.lport), s, procs).Some?
    ensures Sound(PassOn(p, s, procs, since)) && Extends(p, PassOn(p, s, procs, since), since)
  {
    hide Same, Renewed, SwapRemove, Apart, Continues, StartedOf;
    var us := At(p.previous, s.lport);
    var i := Position(us, s, procs).value;
    var u := us[i];
    var w := Renewed(u, s, procs);
    assert u in p.previous[s.lport] && Has(p.previous, u);
    RenewedContinues(u, s, procs);
    SameGeneration(u, w);
    RemovedApart(p.previous, s.lport, i);
    AppendedHas(p.current, s.lport, w);
    AppendedApart(p.current, s.lport, w);
  }

  lemma PassOnSound(p: Pass, s: SockEntry, procs: ProcMap, since: nat)
    requires Sound(p)
    ensures Sound(PassOn(p, s, procs, since)) && Extends(p, PassOn(p, s, procs, since), since)
  {
    hide Sound, Extends;
    if s.proto != Udp {
      assert Extends(p, p, since) by { Reflexive(p, since); }
    } else if Position(At(p.previous, s.lport), s, procs).None? {
      PassOnNew(p, s, procs, since);
    } else {
      PassOnOld(p, s, procs, since);
    }
  }

  lemma Reflexive(p: Pass, since: nat)
    ensures Extends(p, p, since)
  {}

  lemma SameGeneration(u: UdpSocket, w: UdpSocket)
    requires Continues(u, w)
    ensures u.generation == w.generation
  {}

  lemma {:induction false} PassAllSound(p: Pass, socks: seq<SockEntry>, procs: ProcMap, since: nat)
    requires Sound(p)
    ensures Sound(PassAll(p, socks, procs, since)) && Extends(p, PassAll(p, socks, procs, since), since)
    decreases |socks|
  {
    hide Sound, Extends, PassOn;
    if socks == [] {
      Reflexive(p, since);
    } else {
      var q := PassOn(p, socks[0], procs, since);
      PassOnSound(p, socks[0], procs, since);
      PassAllSound(q, socks[1..], procs, since);
      ExtendsTransitive(p, q, PassAll(q, socks[1..], procs, since), since);
    }
  }

  lemma ExtendsTransitive(p: Pass, q: Pass, r: Pass, since: nat)
    requires Extends(p, q, since) && Extends(q, r, since)
    ensures Extends(p, r, since)
  {
    hide Has, Continues;
  }

  /** After a refresh all sockets have distinct generations up to the counter, and each is an old one
      seen again or new since the previous poll; hence a generation that is gone never returns. */
  lemma RefreshSound(t: Table, generation: nat, socks: seq<SockEntry>, procs: ProcMap, since: nat)
    requires Apart(t) && UpTo(t, generation)
    ensures var (r, counter) := Refreshed(t, generation, socks, procs, since);
            && Apart(r) && UpTo(r, counter) && generation <= counter
            && (forall w | Has(r, w) :: ComesFrom(w, t, generation, since))
  {
    hide PassAll, Apart, Continues;
    var p := Pass(t, map[], generation);
    NoSockets();
    PassAllSound(p, socks, procs, since);
  }

  lemma NoSockets()
    ensures Apart(map[]) && forall u :: !Has(map[], u)
  {}

  lemma GoneStaysGone(t: Table, generation: nat, socks: seq<SockEntry>, procs: ProcMap, since: nat, g: nat)
    requires Apart(t) && UpTo(t, generation) && g <= generation
    requires forall u | Has(t, u) :: u.generation != g
    ensures forall w | Has(Refreshed(t, generation, socks, procs, since).0, w) :: w.generation != g
  {
    hide Refreshed;
    RefreshSound(t, generation, socks, procs, since);
  }

  /** The start time of a socket's owner is the one thing that may be replaced: exactly when the snapshot
      does not tell the owner and the process list shows its pid with another start. */
  lemma StartStaysIff(u: UdpSocket, s: SockEntry, procs: ProcMap)
    requires Same(u, s, procs) && u.ownerStarted.Some?
    ensures Renewed(u, s, procs).ownerStarted == u.ownerStarted
            <==> !(s.pid.None? && Differ(u.ownerStarted, StartedOf(procs, u.entry.pid)))
  {}
}
