/** The mutable QUIC flow and the table of flows; QuicFlow and QuicAssembler state what they compute. */
module QuicTable {
  import opened Bytes
  import opened ClientHello
  import opened Hello
  import opened Net
  import Oldest
  import opened PacketNumber
  import opened QuicAssembler
  import opened QuicFlow
  import opened QuicFrames
  import opened QuicPacket
  import opened Reassembly
  import opened SparseBuffer
  import opened Wrappers

  lemma InsideLimit(p: Piece, end: nat)
    requires end == if p.offset + |p.data| < MAX_HELLO then p.offset + |p.data| else MAX_HELLO
    ensures Clipped(p) == if p.offset < end then Piece(p.offset, p.data[..end - p.offset]) else Piece(0, [])
  {
    if p.offset + |p.data| <= MAX_HELLO { assert p.data[..|p.data|] == p.data; }
  }

  lemma WrittenIs(f: FlowState, p: Piece, g: FlowState)
    requires f.Valid() && !f.done
    requires g.buf == SparseBuffer.Written(Grown(f.buf, p.offset + |p.data|, 0), p.offset, p.data)
    requires g.filled == Marked(Grown(f.filled, p.offset + |p.data|, false), p.offset, |p.data|)
    requires g.ready == Hole(g.filled, f.ready) && g.done == f.done && g.largest == f.largest
    ensures QuicFlow.Written(f, p) == g
  {}

  class Flow {
    var buf: seq<byte>
    var filled: seq<bool>
    var ready: nat
    var done: bool
    var largest: Option<nat>

    constructor (f: FlowState)
      ensures State() == f
    {
      buf, filled, ready, done, largest := f.buf, f.filled, f.ready, f.done, f.largest;
    }

    function State(): FlowState
      reads this
    {
      FlowState(buf, filled, ready, done, largest)
    }

    method Finish()
      modifies this
      ensures State() == Finished(old(State()))
    {
      done := true;
      buf := [];
      filled := [];
    }

    /** Puts a piece in its place and reports the name when the message is complete. */
    method Add(p: Piece) returns (name: Option<string>)
      requires State().Valid() && !done
      modifies this
      ensures (State(), name) == Added(old(State()), p)
    {
      hide Judged, QuicFlow.Written, Clipped, Hole;
      Put(p);
      var report := Decide();
      match report
      case NeedMore => return None;
      case Stop(found) =>
        Finish();
        return found;
    }

    method Put(p: Piece)
      requires State().Valid() && !done
      modifies this
      ensures State() == QuicFlow.Written(old(State()), Clipped(p))
    {
      hide Grown, SparseBuffer.Written, Marked, Hole, QuicFlow.Written, Clipped, FirstHole;
      var end := if p.offset + |p.data| < MAX_HELLO then p.offset + |p.data| else MAX_HELLO;
      InsideLimit(p, end);
      if p.offset < end {
        Write(p.offset, p.data[..end - p.offset]);
        Advance();
        WrittenIs(old(State()), Clipped(p), State());
      } else {
        NothingWritten(State());
        Advance();
      }
    }

    /** The bytes, and the marks that they are there. */
    method Write(offset: nat, part: seq<byte>)
      requires |buf| == |filled|
      modifies this`buf, this`filled
      ensures buf == SparseBuffer.Written(Grown(old(buf), offset + |part|, 0), offset, part)
      ensures filled == Marked(Grown(old(filled), offset + |part|, false), offset, |part|)
    {
      hide Grown, SparseBuffer.Written, Marked;
      buf := Grown(buf, offset + |part|, 0);
      filled := Grown(filled, offset + |part|, false);
      buf := SparseBuffer.Written(buf, offset, part);
      filled := Marked(filled, offset, |part|);
    }

    method Advance()
      modifies this`ready
      ensures ready == Hole(filled, old(ready))
    {
      while ready < |filled| && filled[ready]
        invariant Hole(filled, ready) == Hole(filled, old(ready))
        decreases |filled| - ready
      {
        ready := ready + 1;
      }
    }

    method Decide() returns (report: Report)
      requires ready <= |buf|
      ensures report == Judged(buf[..ready])
    {
      if ready < 4 { return NeedMore; }
      var total := 4 + Be24(buf[1], buf[2], buf[3]);
      if buf[0] != CLIENT_HELLO || total > MAX_HELLO { return Stop(None); }
      if ready < total { return NeedMore; }
      assert buf[..ready][..total] == buf[..total];
      var name := FindServerName(buf[..total]);
      return Stop(name);
    }

    method AddAll(ps: seq<Piece>) returns (name: Option<string>)
      requires State().Valid()
      modifies this
      ensures (State(), name) == AddedAll(old(State()), ps)
    {
      hide Added;
      name := None;
      var i := 0;
      while i < |ps|
        invariant i <= |ps| && State().Valid()
        invariant var r := AddedAll(State(), ps[i..]);
                  (r.0, r.1.Or(name)) == AddedAll(old(State()), ps)
      {
        if done { break; }
        var found := Add(ps[i]);
        assert ps[i..][1..] == ps[i + 1..];
        name := found.Or(name);
        i := i + 1;
      }
    }
  }

  function Lookup(flows: map<Key, Tracked>, key: Key): Option<Tracked> {
    if key in flows then Some(flows[key]) else None
  }

  /** Whatever in the datagram belongs to another connection is not opened. */
  ghost predicate Alone(derive: Derivation, d: seq<byte>, dcid: seq<byte>)
    decreases |d|
  {
    match HeaderOf(d)
    case None => true
    case Some(h) => (h.dcid == dcid || NeverOpens(derive, d, h)) && Alone(derive, d[h.end..], dcid)
  }

  /** Nothing in the datagram belongs to the connection. */
  predicate Absent(d: seq<byte>, dcid: seq<byte>)
    decreases |d|
  {
    match HeaderOf(d)
    case None => true
    case Some(h) => h.dcid != dcid && Absent(d[h.end..], dcid)
  }

  // The table as a value.

  function With(flows: map<Key, Tracked>, key: Key, entry: Option<Tracked>): map<Key, Tracked> {
    if entry.Some? then (flows - {key})[key := entry.value] else flows - {key}
  }

  function Expired(flows: map<Key, Tracked>, now: nat): set<Key> {
    set k | k in flows && flows[k].seen + 10_000 <= now
  }

  /** The one flow silent for longest. */
  predicate Silent(flows: map<Key, Tracked>, gone: set<Key>) {
    |gone| == 1 && forall k | k in gone :: k in flows && SilentAs(flows, flows[k].seen)
  }

  predicate SilentAs(flows: map<Key, Tracked>, seen: nat) {
    forall j | j in flows :: seen <= flows[j].seen
  }

  /** What goes for a new flow: nothing as long as there is room, else everything silent too long, else the
      one flow silent for longest. */
  predicate MakesRoom(flows: map<Key, Tracked>, now: nat, gone: set<Key>) {
    if |flows| < 256 then gone == {}
    else if Expired(flows, now) != {} then gone == Expired(flows, now)
    else Silent(flows, gone)
  }

  /** Of flows that go for a new one either all were silent for ten seconds, or it is the one silent for longest. */
  lemma GoneAre(flows: map<Key, Tracked>, now: nat, gone: set<Key>)
    requires MakesRoom(flows, now, gone)
    ensures forall g | g in gone ::
              && g in flows && |flows| >= 256
              && (flows[g].seen + 10_000 > now ==>
                    |gone| == 1 && forall j | j in flows :: now < flows[j].seen + 10_000 && flows[g].seen <= flows[j].seen)
  {
    assert Expired(flows, now) == {} ==> forall j | j in flows :: j !in Expired(flows, now);
  }

  ghost predicate Sound(flows: map<Key, Tracked>) {
    forall k | k in flows :: flows[k].flow.Valid()
  }

  /** What goes with one packet: nothing unless it is opened and its flow is not there. */
  ghost predicate GoesWith(flows: map<Key, Tracked>, key: Key, keys: Option<Keys>, d: seq<byte>, h: Header, now: nat,
                           gone: set<Key>)
    requires Sound(flows) && 0 < h.pnOff <= h.end <= |d|
  {
    if Current(Lookup(flows, key), now).None? && FedPacket(Lookup(flows, key), keys, d, h, now).0.Some?
    then MakesRoom(flows - {key}, now, gone)
    else gone == {}
  }

  /** The table and the name after one packet. */
  ghost function PacketTable(flows: map<Key, Tracked>, key: Key, keys: Option<Keys>, d: seq<byte>, h: Header, now: nat,
                             gone: set<Key>): (r: (map<Key, Tracked>, Option<string>))
    requires Sound(flows) && 0 < h.pnOff <= h.end <= |d|
    ensures Sound(r.0)
  {
    var r := FedPacket(Lookup(flows, key), keys, d, h, now);
    (With(flows - gone, key, r.0), r.1)
  }

  /** The table and the name after a datagram, given what goes with each of its packets. */
  ghost function DatagramTable(flows: map<Key, Tracked>, src: IpAddr, sport: nat, derive: Derivation, d: seq<byte>,
                               now: nat, goners: seq<set<Key>>): (r: (map<Key, Tracked>, Option<string>))
    requires Sound(flows)
    ensures Sound(r.0)
    decreases |d|
  {
    match HeaderOf(d)
    case None => (flows, None)
    case Some(h) =>
      if goners == [] then (flows, None)
      else
        var (next, name) := PacketTable(flows, Key(src, sport, h.dcid), derive(h.version, h.dcid), d, h, now, goners[0]);
        var (last, later) := DatagramTable(next, src, sport, derive, d[h.end..], now, goners[1..]);
        (last, later.Or(name))
  }

  ghost predicate GoAlong(flows: map<Key, Tracked>, src: IpAddr, sport: nat, derive: Derivation, d: seq<byte>,
                          now: nat, goners: seq<set<Key>>)
    requires Sound(flows)
    decreases |d|
  {
    match HeaderOf(d)
    case None => goners == []
    case Some(h) =>
      && goners != []
      && var key, keys := Key(src, sport, h.dcid), derive(h.version, h.dcid);
         && GoesWith(flows, key, keys, d, h, now, goners[0])
         && GoAlong(PacketTable(flows, key, keys, d, h, now, goners[0]).0, src, sport, derive, d[h.end..], now, goners[1..])
  }

  lemma WithIs(was: map<Key, Tracked>, gone: set<Key>, key: Key, now: map<Key, Tracked>)
    requires now - {key} == was - {key} - gone
    ensures now == With(was - gone, key, Lookup(now, key))
  {
    assert was - {key} - gone == was - gone - {key};
    assert key !in now ==> now - {key} == now;
    assert key in now ==> (now - {key})[key := now[key]] == now;
  }

  class Assembler {
    var flows: map<Key, Tracked>

    ghost predicate Valid()
      reads this
    {
      |flows| <= 256 && Sound(flows)
    }

    constructor ()
      ensures Valid() && flows == map[]
    {
      flows := map[];
    }

    method Forget(key: Key)
      requires Valid()
      modifies this
      ensures Valid() && flows == old(flows) - {key}
      ensures |flows| == |old(flows)| - if key in old(flows) then 1 else 0
    {
      flows := flows - {key};
      assert flows.Keys == old(flows).Keys - {key};
    }

    /** Everything silent too long goes. */
    method Retain(now: nat)
      requires Valid()
      modifies this
      ensures Valid() && flows == old(flows) - Expired(old(flows), now)
    {
      flows := map k | k in flows && flows[k].seen + TTL > now :: flows[k];
      assert flows == old(flows) - Expired(old(flows), now);
      Subset(flows.Keys, old(flows).Keys);
    }

    /** The flow silent for longest goes. */
    method DropSilent() returns (ghost silent: Key)
      requires Valid() && |flows| > 0
      modifies this
      ensures Valid() && silent in old(flows) && flows == old(flows) - {silent} && |flows| == |old(flows)| - 1
      ensures SilentAs(old(flows), old(flows)[silent].seen)
    {
      var seen := map k | k in flows :: flows[k].seen;
      assert seen.Keys == flows.Keys;
      var oldest := Oldest.Find(seen);
      silent := oldest;
      Forget(oldest);
    }

    /** Makes room for a new flow: when the table is full first everything silent too long goes, then,
        if that is not enough, the flow silent for longest. */
    method MakeRoom(now: nat) returns (ghost gone: set<Key>)
      requires Valid()
      modifies this
      ensures Valid() && |flows| < MAX_FLOWS && flows == old(flows) - gone
      ensures MakesRoom(old(flows), now, gone)
      ensures forall g | g in gone ::
                && g in old(flows) && |old(flows)| >= 256
                && (old(flows)[g].seen + 10_000 > now ==>
                      |gone| == 1 && forall j | j in old(flows) :: now < old(flows)[j].seen + 10_000
                                                                   && old(flows)[g].seen <= old(flows)[j].seen)
    {
      hide SilentAs, Expired, MakesRoom;
      RoomIs(flows, now);
      gone := {};
      assert flows - {} == flows;
      if |flows| >= MAX_FLOWS {
        gone := Expired(flows, now);
        ExpiredThere(flows, now);
        Retain(now);
        FewerLeft(old(flows), gone);
        if |flows| >= MAX_FLOWS {
          ghost var silent := DropSilent();
          gone := {silent};
          RoomBySilence(old(flows), now, silent);
        }
      }
      GoneAre(old(flows), now, gone);
    }

    /** One packet: the table and the name are those of `PacketTable`, and only what may goes. */
    method FeedPacket(key: Key, keys: Option<Keys>, d: seq<byte>, h: Header, now: nat)
      returns (name: Option<string>, ghost gone: set<Key>)
      requires Valid() && 0 < h.pnOff <= h.end <= |d|
      modifies this
      ensures Valid() && GoesWith(old(flows), key, keys, d, h, now, gone)
      ensures (flows, name) == PacketTable(old(flows), key, keys, d, h, now, gone)
    {
      hide Opened, Delivered, MakesRoom, With;
      gone := {};
      Refresh(key, now);
      ghost var kept := flows;
      if !h.initial || keys.None? {
        NobodyGone(old(flows), flows, key);
        return None, {};
      }
      var packet := Open(keys.value, d, h, LargestOf(Lookup(flows, key)));
      if packet.None? {
        NobodyGone(old(flows), flows, key);
        return None, {};
      }
      name, gone := Receive(key, packet.value.0, packet.value.1, now);
      Aside(old(flows), kept, flows, key, now, gone);
    }

    /** A flow silent for too long is not continued. */
    method Refresh(key: Key, now: nat)
      requires Valid()
      modifies this
      ensures Valid() && flows - {key} == old(flows) - {key}
      ensures Lookup(flows, key) == Current(Lookup(old(flows), key), now)
    {
      if key in flows && flows[key].seen + TTL <= now {
        Forget(key);
      }
    }

    method Receive(key: Key, plain: seq<byte>, pn: nat, now: nat)
      returns (name: Option<string>, ghost gone: set<Key>)
      requires Valid()
      modifies this
      ensures Valid() && flows - {key} == old(flows) - {key} - gone
      ensures if key in old(flows) then gone == {} else MakesRoom(old(flows), now, gone)
      ensures key in flows && (flows[key], name) == Delivered(Lookup(old(flows), key), plain, pn, now)
    {
      hide Delivered, MakesRoom;
      gone := {};
      if key !in flows {
        gone := MakeRoom(now);
        assert Lookup(flows, key) == None;
        assert flows - {key} == old(flows) - {key} - gone;
      }
      name := Deliver(key, plain, pn, now);
    }

    /** Hands a decrypted packet to the flow of its key. */
    method Deliver(key: Key, plain: seq<byte>, pn: nat, now: nat) returns (name: Option<string>)
      requires Valid() && (key in flows || |flows| < MAX_FLOWS)
      modifies this
      ensures Valid() && flows - {key} == old(flows) - {key}
      ensures key in flows && (flows[key], name) == Delivered(Lookup(old(flows), key), plain, pn, now)
    {
      hide AddedAll, CryptoFrames;
      var flow := new Flow(if key in flows then flows[key].flow else Fresh());
      name := None;
      if !flow.done {
        flow.largest := Some(Max(pn, flow.largest));
        var pieces := ReadFrames(plain);
        name := flow.AddAll(pieces);
      }
      Put(key, Tracked(flow.State(), now));
    }

    method Put(key: Key, t: Tracked)
      requires t.flow.Valid() && Valid() && (key in flows || |flows| < MAX_FLOWS)
      modifies this
      ensures Valid() && key in flows && flows[key] == t && flows - {key} == old(flows) - {key}
    {
      flows := flows[key := t];
      assert flows.Keys == old(flows).Keys + {key};
      assert flows - {key} == old(flows) - {key};
    }

    /** A datagram, packet by packet. `goners` are the flows that had to go with each packet. */
    method Feed(src: IpAddr, sport: nat, derive: Derivation, datagram: seq<byte>, now: nat)
      returns (name: Option<string>, ghost goners: seq<set<Key>>)
      requires Valid()
      modifies this
      ensures Valid() && GoAlong(old(flows), src, sport, derive, datagram, now, goners)
      ensures (flows, name) == DatagramTable(old(flows), src, sport, derive, datagram, now, goners)
    {
      hide HeaderOf, PacketTable, GoesWith, Leads, DatagramTable, GoAlong;
      goners := [];
      name := None;
      var d := datagram;
      StartLeads(flows, src, sport, derive, datagram, now);
      while HeaderOf(d).Some?
        invariant Valid()
        invariant Leads(old(flows), datagram, goners, flows, d, name, src, sport, derive, now)
        decreases |d|
      {
        var h := HeaderOf(d).value;
        ghost var before := flows;
        var found;
        ghost var gone;
        found, gone := FeedPacket(Key(src, sport, h.dcid), derive(h.version, h.dcid), d, h, now);
        LeadsOn(old(flows), datagram, goners, before, d, name, src, sport, derive, now, h, gone);
        goners := goners + [gone];
        name := found.Or(name);
        d := d[h.end..];
      }
      LeadsToEnd(old(flows), datagram, goners, flows, d, name, src, sport, derive, now);
    }
  }

  lemma FewerLeft(flows: map<Key, Tracked>, gone: set<Key>)
    requires gone <= flows.Keys
    ensures |flows - gone| == |flows| - |gone|
    ensures gone == {} ==> flows - gone == flows
  {
    assert (flows - gone).Keys == flows.Keys - gone;
    assert flows.Keys == (flows.Keys - gone) + gone;
    assert |flows - gone| == |(flows - gone).Keys|;
  }

  lemma NobodyGone(was: map<Key, Tracked>, now: map<Key, Tracked>, key: Key)
    requires now - {key} == was - {key}
    ensures now == With(was - {}, key, Lookup(now, key))
  {
    assert was - {key} - {} == was - {key};
    WithIs(was, {}, key, now);
  }

  /** Dropping the key's own entry first, then making room, is making room beside it. */
  lemma Aside(was: map<Key, Tracked>, kept: map<Key, Tracked>, after: map<Key, Tracked>, key: Key, now: nat,
              gone: set<Key>)
    requires kept - {key} == was - {key} && Lookup(kept, key) == Current(Lookup(was, key), now)
    requires after - {key} == kept - {key} - gone
    requires if key in kept then gone == {} else MakesRoom(kept, now, gone)
    ensures if Current(Lookup(was, key), now).None? then MakesRoom(was - {key}, now, gone) else gone == {}
    ensures after == With(was - gone, key, Lookup(after, key))
  {
    hide MakesRoom, With;
    WithIs(was, gone, key, after);
    Unkept(kept, key);
  }

  lemma Unkept(kept: map<Key, Tracked>, key: Key)
    ensures key !in kept ==> kept - {key} == kept
  {}

  lemma ExpiredThere(flows: map<Key, Tracked>, now: nat)
    ensures Expired(flows, now) <= flows.Keys
  {}

  lemma RoomIs(flows: map<Key, Tracked>, now: nat)
    ensures |flows| < MAX_FLOWS ==> MakesRoom(flows, now, {})
    ensures |flows| >= MAX_FLOWS && Expired(flows, now) != {} ==> MakesRoom(flows, now, Expired(flows, now))
  {}

  lemma RoomBySilence(flows: map<Key, Tracked>, now: nat, k: Key)
    requires |flows| >= MAX_FLOWS && Expired(flows, now) == {} && k in flows && SilentAs(flows, flows[k].seen)
    ensures MakesRoom(flows, now, {k})
  {
    hide SilentAs;
  }

  // The loop over the packets.

  /** Having read `datagram` up to its rest `d`, the table went from `from` to `to`, and whatever the rest
      does completes the outcome. */
  ghost predicate Leads(from: map<Key, Tracked>, datagram: seq<byte>, goners: seq<set<Key>>, to: map<Key, Tracked>,
                        d: seq<byte>, name: Option<string>, src: IpAddr, sport: nat, derive: Derivation, now: nat)
  {
    && Sound(from) && Sound(to)
    && forall more ::
         && (DatagramTable(from, src, sport, derive, datagram, now, goners + more)
             == var r := DatagramTable(to, src, sport, derive, d, now, more); (r.0, r.1.Or(name)))
         && (GoAlong(to, src, sport, derive, d, now, more)
             ==> GoAlong(from, src, sport, derive, datagram, now, goners + more))
  }

  lemma StartLeads(flows: map<Key, Tracked>, src: IpAddr, sport: nat, derive: Derivation, d: seq<byte>, now: nat)
    requires Sound(flows)
    ensures Leads(flows, d, [], flows, d, None, src, sport, derive, now)
  {
    hide DatagramTable, GoAlong;
    assert forall more: seq<set<Key>> :: [] + more == more;
  }

  lemma {:induction false} TableStep(flows: map<Key, Tracked>, src: IpAddr, sport: nat, derive: Derivation,
                                     d: seq<byte>, now: nat,
                  h: Header, gone: set<Key>, more: seq<set<Key>>)
    requires Sound(flows) && HeaderOf(d) == Some(h)
    ensures var key, keys := Key(src, sport, h.dcid), derive(h.version, h.dcid);
            var (next, name) := PacketTable(flows, key, keys, d, h, now, gone);
            var (last, later) := DatagramTable(next, src, sport, derive, d[h.end..], now, more);
            && DatagramTable(flows, src, sport, derive, d, now, [gone] + more) == (last, later.Or(name))
            && (GoAlong(flows, src, sport, derive, d, now, [gone] + more)
                <==> GoesWith(flows, key, keys, d, h, now, gone)
                     && GoAlong(next, src, sport, derive, d[h.end..], now, more))
  {
    hide HeaderOf, PacketTable, GoesWith;
    assert ([gone] + more)[1..] == more && ([gone] + more)[0] == gone;
  }

  lemma {:induction false} LeadsOn(from: map<Key, Tracked>, datagram: seq<byte>, goners: seq<set<Key>>, to: map<Key,
                                   Tracked>,
                d: seq<byte>, name: Option<string>, src: IpAddr, sport: nat, derive: Derivation, now: nat,
                h: Header, gone: set<Key>)
    requires Leads(from, datagram, goners, to, d, name, src, sport, derive, now) && HeaderOf(d) == Some(h)
    requires GoesWith(to, Key(src, sport, h.dcid), derive(h.version, h.dcid), d, h, now, gone)
    ensures var (next, found) := PacketTable(to, Key(src, sport, h.dcid), derive(h.version, h.dcid), d, h, now, gone);
            Leads(from, datagram, goners + [gone], next, d[h.end..], found.Or(name), src, sport, derive, now)
  {
    hide DatagramTable, GoAlong, HeaderOf, PacketTable, GoesWith;
    forall more: seq<set<Key>>
      ensures var (next, found) := PacketTable(to, Key(src, sport, h.dcid), derive(h.version, h.dcid), d, h, now, gone);
              && (DatagramTable(from, src, sport, derive, datagram, now, goners + [gone] + more)
                  == var r := DatagramTable(next, src, sport, derive, d[h.end..], now, more); (r.0, r.1.Or(found.Or(name))))
              && (GoAlong(next, src, sport, derive, d[h.end..], now, more)
                  ==> GoAlong(from, src, sport, derive, datagram, now, goners + [gone] + more))
    {
      assert goners + [gone] + more == goners + ([gone] + more);
      TableStep(to, src, sport, derive, d, now, h, gone, more);
    }
  }

  lemma {:induction false} LeadsToEnd(from: map<Key, Tracked>, datagram: seq<byte>, goners: seq<set<Key>>,
                                      to: map<Key, Tracked>,
                   d: seq<byte>, name: Option<string>, src: IpAddr, sport: nat, derive: Derivation, now: nat)
    requires Leads(from, datagram, goners, to, d, name, src, sport, derive, now) && HeaderOf(d).None?
    ensures DatagramTable(from, src, sport, derive, datagram, now, goners) == (to, name)
    ensures GoAlong(from, src, sport, derive, datagram, now, goners)
  {
    hide HeaderOf;
    assert goners + [] == goners;
  }

  lemma Subset<T>(a: set<T>, b: set<T>)
    requires a <= b
    ensures |a| <= |b|
  {
    if a != {} {
      var x :| x in a;
      Subset(a - {x}, b - {x});
    }
  }

  // One connection among all.

  lemma LookupWith(flows: map<Key, Tracked>, gone: set<Key>, key: Key, entry: Option<Tracked>, k: Key)
    requires k !in gone
    ensures Lookup(With(flows - gone, key, entry), k) == if k == key then entry else Lookup(flows, k)
  {}

  lemma UnopenedUnnamed(entry: Option<Tracked>, derive: Derivation, d: seq<byte>, h: Header, now: nat)
    requires Good(entry) && 0 < h.pnOff <= h.end <= |d| && NeverOpens(derive, d, h)
    ensures FedPacket(entry, derive(h.version, h.dcid), d, h, now).1 == None
  {
    hide Opened, Delivered;
  }

  /** The entry of a connection that has not to go follows its own packets, and the name of a datagram in which
      no other packet is opened is the one its packets yield. */
  lemma {:induction false} SeesItsOwn(flows: map<Key, Tracked>, src: IpAddr, sport: nat, derive: Derivation,
                                      d: seq<byte>, now: nat, goners: seq<set<Key>>, dcid: seq<byte>)
    requires Sound(flows) && GoAlong(flows, src, sport, derive, d, now, goners)
    requires forall gone | gone in goners :: Key(src, sport, dcid) !in gone
    ensures var r := DatagramTable(flows, src, sport, derive, d, now, goners);
            var own := FedDatagram(Lookup(flows, Key(src, sport, dcid)), dcid, derive, d, now);
            Lookup(r.0, Key(src, sport, dcid)) == own.0 && (Alone(derive, d, dcid) ==> r.1 == own.1)
    decreases |d|
  {
    hide HeaderOf, FedPacket, With, GoesWith, NeverOpens;
    var k := Key(src, sport, dcid);
    if HeaderOf(d).Some? {
      var h := HeaderOf(d).value;
      var key, keys := Key(src, sport, h.dcid), derive(h.version, h.dcid);
      assert goners[0] in goners && forall gone | gone in goners[1..] :: gone in goners;
      LookupWith(flows, goners[0], key, FedPacket(Lookup(flows, key), keys, d, h, now).0, k);
      var next := PacketTable(flows, key, keys, d, h, now, goners[0]).0;
      if NeverOpens(derive, d, h) { UnopenedUnnamed(Lookup(flows, key), derive, d, h, now); }
      SeesItsOwn(next, src, sport, derive, d[h.end..], now, goners[1..], dcid);
    }
  }

  // Whole runs of the table.

  datatype Turn = Turn(src: IpAddr, sport: nat, datagram: seq<byte>, now: nat, goners: seq<set<Key>>)

  ghost function TableRun(flows: map<Key, Tracked>, derive: Derivation, turns: seq<Turn>): (r: map<Key, Tracked>)
    requires Sound(flows)
    ensures Sound(r)
  {
    if turns == [] then flows
    else
      var t := turns[|turns| - 1];
      DatagramTable(TableRun(flows, derive, turns[..|turns| - 1]), t.src, t.sport, derive, t.datagram, t.now, t.goners).0
  }

  predicate From(t: Turn, k: Key) {
    t.src == k.src && t.sport == k.sport
  }

  /** The datagram has packets of the connection. */
  predicate Carries(t: Turn, k: Key) {
    From(t, k) && !Absent(t.datagram, k.dcid)
  }

  /** The names reported for the datagrams with packets of one connection. */
  ghost function TableNames(flows: map<Key, Tracked>, derive: Derivation, turns: seq<Turn>, k: Key): seq<string>
    requires Sound(flows)
  {
    if turns == [] then []
    else
      var t, init := turns[|turns| - 1], turns[..|turns| - 1];
      TableNames(flows, derive, init, k)
      + if Carries(t, k)
        then Mention(DatagramTable(TableRun(flows, derive, init), t.src, t.sport, derive, t.datagram, t.now, t.goners).1)
        else []
  }

  /** Only what may goes, all along. */
  ghost predicate FairRun(flows: map<Key, Tracked>, derive: Derivation, turns: seq<Turn>)
    requires Sound(flows)
  {
    forall n | 0 <= n < |turns| ::
      GoAlong(TableRun(flows, derive, turns[..n]), turns[n].src, turns[n].sport, derive, turns[n].datagram, turns[n].now,
              turns[n].goners)
  }

  /** Nowhere in the run has the flow of `k` to go. */
  ghost predicate Stays(turns: seq<Turn>, k: Key) {
    forall t, gone | t in turns && gone in t.goners :: k !in gone
  }

  /** The datagrams with packets of the connection are exactly those of the bursts, in order and at those times;
      its socket may send others. */
  ghost predicate Sends(c: Client, derive: Derivation, turns: seq<Turn>, k: Key, bursts: seq<Burst>)
    requires c.Valid()
    decreases |turns|
  {
    if turns == [] then bursts == []
    else
      var t, init := turns[|turns| - 1], turns[..|turns| - 1];
      if !Carries(t, k) then Sends(c, derive, init, k, bursts)
      else
        && bursts != []
        && var last := bursts[|bursts| - 1];
        && Passable(derive, last.items, last.tail)
        && t.datagram == Datagram(c, last.items, last.tail) && t.now == last.now
        && Sends(c, derive, init, k, bursts[..|bursts| - 1])
  }

  lemma {:induction false} OwnDatagram(c: Client, derive: Derivation, items: seq<Item>, tail: seq<byte>)
    requires c.Valid() && Passable(derive, items, tail)
    ensures Alone(derive, Datagram(c, items, tail), c.dcid)
    decreases |items|
  {
    hide HeaderOf, Sealed, HeadOf, NeverOpens, Shut;
    if items != [] {
      var rest := Datagram(c, items[1..], tail);
      assert items[0] in items && forall item | item in items[1..] :: item in items;
      OwnDatagram(c, derive, items[1..], tail);
      match items[0] {
        case Own(s) =>
          HeaderOfSealed(c.v, c.keys, c.dcid, s.shape, s.pn, EncodeFrames(s.frames), rest);
          assert (Packet(c, s) + rest)[|Packet(c, s)|..] == rest;
        case Other(b) => ShutPasses(derive, b, rest, None, c.dcid, 0);
      }
    }
  }

  /** A datagram without packets of the connection leaves its entry alone. */
  lemma {:induction false} AbsentPasses(entry: Option<Tracked>, dcid: seq<byte>, derive: Derivation, d: seq<byte>,
                                        now: nat)
    requires Good(entry) && Absent(d, dcid)
    ensures FedDatagram(entry, dcid, derive, d, now) == (entry, None)
    decreases |d|
  {
    hide HeaderOf, FedPacket;
    if HeaderOf(d).Some? {
      AbsentPasses(entry, dcid, derive, d[HeaderOf(d).value.end..], now);
    }
  }

  lemma ElsewhereStays(flows: map<Key, Tracked>, derive: Derivation, t: Turn, k: Key)
    requires Sound(flows) && !From(t, k) && forall gone | gone in t.goners :: k !in gone
    ensures Lookup(DatagramTable(flows, t.src, t.sport, derive, t.datagram, t.now, t.goners).0, k) == Lookup(flows, k)
  {
    OthersPass(flows, t.src, t.sport, derive, t.datagram, t.now, t.goners, k);
  }

  lemma {:induction false} OthersPass(flows: map<Key, Tracked>, src: IpAddr, sport: nat, derive: Derivation,
                                      d: seq<byte>, now: nat, goners: seq<set<Key>>, k: Key)
    requires Sound(flows) && (src != k.src || sport != k.sport) && forall gone | gone in goners :: k !in gone
    ensures Lookup(DatagramTable(flows, src, sport, derive, d, now, goners).0, k) == Lookup(flows, k)
    decreases |d|
  {
    hide HeaderOf, FedPacket, With;
    if HeaderOf(d).Some? && goners != [] {
      var h := HeaderOf(d).value;
      var key, keys := Key(src, sport, h.dcid), derive(h.version, h.dcid);
      assert goners[0] in goners && forall gone | gone in goners[1..] :: gone in goners;
      LookupWith(flows, goners[0], key, FedPacket(Lookup(flows, key), keys, d, h, now).0, k);
      OthersPass(PacketTable(flows, key, keys, d, h, now, goners[0]).0, src, sport, derive, d[h.end..], now, goners[1..], k);
    }
  }

  lemma FairPrefix(flows: map<Key, Tracked>, derive: Derivation, turns: seq<Turn>, k: Key)
    requires Sound(flows) && FairRun(flows, derive, turns) && Stays(turns, k) && turns != []
    ensures FairRun(flows, derive, turns[..|turns| - 1]) && Stays(turns[..|turns| - 1], k)
  {
    hide GoAlong, TableRun;
    var init := turns[..|turns| - 1];
    forall n | 0 <= n < |init|
      ensures GoAlong(TableRun(flows, derive, init[..n]), init[n].src, init[n].sport, derive, init[n].datagram,
                      init[n].now, init[n].goners)
    {
      assert init[..n] == turns[..n];
    }
  }

  /** Connections do not interfere: whatever else passes through the table, from the same socket too, a
      connection whose flow never has to go has the entry, and gets the names, that its own datagrams alone
      yield. */
  lemma {:induction false} ClientApart(flows: map<Key, Tracked>, derive: Derivation, turns: seq<Turn>, k: Key,
                                       c: Client, bursts: seq<Burst>)
    requires Sound(flows) && FairRun(flows, derive, turns) && Stays(turns, k)
    requires c.Valid() && k.dcid == c.dcid && k !in flows && Sends(c, derive, turns, k, bursts)
    ensures Lookup(TableRun(flows, derive, turns), k) == Entries(c, derive, bursts)
    ensures TableNames(flows, derive, turns, k) == NamesFed(c, derive, bursts)
    decreases |turns|
  {
    hide GoAlong, DatagramTable, FairRun, Stays, FedDatagram, Datagram, Mention, Passable, Absent, Alone;
    if turns != [] {
      var t, init := turns[|turns| - 1], turns[..|turns| - 1];
      FairPrefix(flows, derive, turns, k);
      LastTurn(flows, derive, turns, k);
      var before := TableRun(flows, derive, init);
      if Carries(t, k) {
        var last := bursts[|bursts| - 1];
        ClientApart(flows, derive, init, k, c, bursts[..|bursts| - 1]);
        OwnDatagram(c, derive, last.items, last.tail);
        SeesItsOwn(before, t.src, t.sport, derive, t.datagram, t.now, t.goners, c.dcid);
      } else {
        ClientApart(flows, derive, init, k, c, bursts);
        assert TableNames(flows, derive, init, k) + [] == TableNames(flows, derive, init, k);
        if From(t, k) {
          SeesItsOwn(before, t.src, t.sport, derive, t.datagram, t.now, t.goners, c.dcid);
          AbsentPasses(Lookup(before, k), c.dcid, derive, t.datagram, t.now);
        } else {
          ElsewhereStays(before, derive, t, k);
        }
      }
    }
  }

  lemma LastTurn(flows: map<Key, Tracked>, derive: Derivation, turns: seq<Turn>, k: Key)
    requires Sound(flows) && FairRun(flows, derive, turns) && Stays(turns, k) && turns != []
    ensures var t := turns[|turns| - 1];
            && GoAlong(TableRun(flows, derive, turns[..|turns| - 1]), t.src, t.sport, derive, t.datagram, t.now, t.goners)
            && forall gone | gone in t.goners :: k !in gone
  {
    hide GoAlong, TableRun;
    assert turns[|turns| - 1] in turns;
  }

  /** End to end through the table: among the datagrams of any other clients and connections, once a
      ClientHello is covered its name has been reported exactly once. */
  lemma {:induction false} HelloThroughTheTable(flows: map<Key, Tracked>, derive: Derivation, turns: seq<Turn>,
                                                k: Key, c: Client, bursts: seq<Burst>, s: seq<byte>, msg: seq<byte>)
    requires Sound(flows) && FairRun(flows, derive, turns) && Stays(turns, k)
    requires c.Valid() && k.dcid == c.dcid && k !in flows && Sends(c, derive, turns, k, bursts)
    requires derive(c.v, c.dcid) == Some(c.keys) && Steady(c, derive, bursts)
    requires IsMessage(msg) && msg <= s && AllOf(s, PiecesOver(bursts))
    requires forall i: nat | i < |msg| :: i in Covered(PiecesOver(bursts))
    ensures TableNames(flows, derive, turns, k) == Mention(Sni(msg))
  {
    hide FairRun, Stays, Sends, Steady, TableNames, TableRun, Entries, NamesFed, Mention, Sni, PiecesOver;
    ClientApart(flows, derive, turns, k, c, bursts);
    HelloIsReportedOnce(c, derive, bursts, s, msg);
  }
}
