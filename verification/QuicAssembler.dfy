/** Datagrams to names: the table of QUIC flows, and the way from sealed Initial packets to the SNI. */
module QuicAssembler {
  import opened Bytes
  import opened ClientHello
  import opened Hello
  import opened Net
  import opened PacketNumber
  import opened QuicFlow
  import opened QuicFrames
  import opened QuicInt
  import opened QuicPacket
  import opened Reassembly
  import opened Wrappers

  const MAX_FLOWS := 256
  const TTL := 10_000  // milliseconds

  /** The client, its port and the destination connection id it chose. */
  datatype Key = Key(src: IpAddr, sport: nat, dcid: seq<byte>)

  datatype Tracked = Tracked(flow: FlowState, seen: nat)

  /** How Initial keys follow from a version and a connection id. */
  type Derivation = (Version, seq<byte>) -> Option<Keys>

  ghost predicate Good(entry: Option<Tracked>) {
    entry.Some? ==> entry.value.flow.Valid()
  }

  function Current(entry: Option<Tracked>, now: nat): Option<Tracked> {
    if entry.Some? && entry.value.seen + TTL <= now then None else entry
  }

  function LargestOf(entry: Option<Tracked>): Option<nat> {
    if entry.Some? then entry.value.flow.largest else None
  }

  /** A decrypted packet reaches the flow of its key, a new one if there is none. */
  function Delivered(entry: Option<Tracked>, plain: seq<byte>, pn: nat, now: nat): (r: (Tracked, Option<string>))
    requires Good(entry)
    ensures r.0.flow.Valid()
  {
    var flow := if entry.Some? then entry.value.flow else Fresh();
    if flow.done then (Tracked(flow, now), None)
    else
      var r := AddedAll(flow.(largest := Some(Max(pn, flow.largest))), CryptoFrames(plain, 0));
      (Tracked(r.0, now), r.1)
  }

  /** What one packet does to the entry of its key. */
  function FedPacket(entry: Option<Tracked>, keys: Option<Keys>, d: seq<byte>, h: Header, now: nat)
    : (r: (Option<Tracked>, Option<string>))
    requires Good(entry) && 0 < h.pnOff <= h.end <= |d|
    ensures Good(r.0)
  {
    var live := Current(entry, now);
    if !h.initial || keys.None? then (live, None)
    else
      match Opened(keys.value, d, h, LargestOf(live))
      case None => (live, None)
      case Some((plain, pn)) =>
        var r := Delivered(live, plain, pn, now);
        (Some(r.0), r.1)
  }

  /** A packet of another connection passes by. */
  function FedFor(entry: Option<Tracked>, dcid: seq<byte>, derive: Derivation, d: seq<byte>, h: Header, now: nat)
    : (r: (Option<Tracked>, Option<string>))
    requires Good(entry) && 0 < h.pnOff <= h.end <= |d|
    ensures Good(r.0)
  {
    if h.dcid == dcid then FedPacket(entry, derive(h.version, dcid), d, h, now) else (entry, None)
  }

  /** What a datagram does to the entry of one connection: its packets in order, the others passed by. */
  function FedDatagram(entry: Option<Tracked>, dcid: seq<byte>, derive: Derivation, d: seq<byte>, now: nat)
    : (r: (Option<Tracked>, Option<string>))
    requires Good(entry)
    ensures Good(r.0)
    decreases |d|
  {
    match HeaderOf(d)
    case None => (entry, None)
    case Some(h) =>
      var (next, name) := FedFor(entry, dcid, derive, d, h, now);
      var (last, later) := FedDatagram(next, dcid, derive, d[h.end..], now);
      (last, later.Or(name))
  }

  // What a client sends.

  datatype RawSent = Sent(pn: nat, shape: Shape, frames: seq<AnyFrame>)

  predicate Sendable(s: RawSent) {
    s.pn < LIMIT && Fits(s.shape, EncodeFrames(s.frames))
  }

  /** An Initial packet: its number, the shape of its header, and its frames, padding among them. */
  type Sent = s: RawSent | Sendable(s) witness Sent(0, Shape([], [], 1, 1, 4), [])

  /** One client connection: a version, an id, and keys under which decryption undoes encryption. */
  datatype Client = Client(v: Version, dcid: seq<byte>, keys: Keys)
  {
    ghost predicate Valid() {
      Supported(v) && |dcid| <= 20 && keys.Undoes()
    }
  }

  ghost function Packet(c: Client, s: Sent): seq<byte>
    requires c.Valid()
  {
    Sealed(c.v, c.keys, c.dcid, s.shape, s.pn, EncodeFrames(s.frames))
  }

  /** What stands in a datagram of the client: its Initial packets, and others that are not opened. */
  datatype Item = Own(sent: Sent) | Other(bytes: seq<byte>)

  /** The keys of the packet's own version and id do not open it, or it is no Initial packet: so it is with 0-RTT
      and Handshake packets, and with Initial packets under an id that the server chose. */
  ghost predicate NeverOpens(derive: Derivation, d: seq<byte>, h: Header)
    requires 0 < h.pnOff <= h.end <= |d|
  {
    h.initial && derive(h.version, h.dcid).Some? ==>
      forall largest :: Opened(derive(h.version, h.dcid).value, d, h, largest) == None
  }

  /** The bytes are one packet with a long header, and it is not opened. */
  ghost predicate Shut(derive: Derivation, b: seq<byte>) {
    && HeaderOf(b).Some? && HeaderOf(b).value.end == |b|
    && NeverOpens(derive, b, HeaderOf(b).value)
  }

  ghost function BytesOf(c: Client, item: Item): seq<byte>
    requires c.Valid()
  {
    match item
    case Own(s) => Packet(c, s)
    case Other(b) => b
  }

  /** Several packets in one datagram, and what follows without a long header. */
  ghost function Datagram(c: Client, items: seq<Item>, tail: seq<byte>): seq<byte>
    requires c.Valid()
  {
    if items == [] then tail else BytesOf(c, items[0]) + Datagram(c, items[1..], tail)
  }

  /** The others are not opened, and what follows is no packet with a long header. */
  ghost predicate Passable(derive: Derivation, items: seq<Item>, tail: seq<byte>) {
    HeaderOf(tail) == None && forall item | item in items && item.Other? :: Shut(derive, item.bytes)
  }

  ghost function PiecesSent(items: seq<Item>): seq<Piece> {
    if items == [] then []
    else (if items[0].Own? then PiecesOf(items[0].sent.frames) else []) + PiecesSent(items[1..])
  }

  lemma PayloadDecodes(fs: seq<AnyFrame>)
    ensures CryptoFrames(EncodeFrames(fs), 0) == PiecesOf(fs)
  {
    hide CryptoFrames, EncodeFrames, PiecesOf;
    var enc := EncodeFrames(fs);
    assert enc[0..] == enc + [];
    FramesDecode(enc, 0, fs, []);
    NoFrames(enc);
    assert PiecesOf(fs) + [] == PiecesOf(fs);
  }

  lemma NoFrames(d: seq<byte>)
    ensures CryptoFrames(d, |d|) == []
  {}

  /** A sealed packet is found, opened, and its pieces handed to the flow of its connection. */
  lemma PacketDelivers(c: Client, s: Sent, rest: seq<byte>, entry: Option<Tracked>, now: nat)
    requires c.Valid() && Good(entry) && Current(entry, now) == entry
    requires InWindow(s.pn, s.shape.pnLen, LargestOf(entry))
    ensures var d := Packet(c, s) + rest;
            && HeaderOf(d).Some?
            && HeaderOf(d).value.dcid == c.dcid && HeaderOf(d).value.version == c.v
            && d[HeaderOf(d).value.end..] == rest
            && FedPacket(entry, Some(c.keys), d, HeaderOf(d).value, now)
               == var r := Delivered(entry, EncodeFrames(s.frames), s.pn, now); (Some(r.0), r.1)
  {
    hide HeaderOf, Opened, Sealed, HeadOf, Delivered, InWindow;
    HeaderOfSealed(c.v, c.keys, c.dcid, s.shape, s.pn, EncodeFrames(s.frames), rest);
    OpenUndoesSeal(c.v, c.keys, c.dcid, s.shape, s.pn, EncodeFrames(s.frames), rest, LargestOf(entry));
    assert (Packet(c, s) + rest)[|Packet(c, s)|..] == rest;
  }

  /** The header of a packet does not depend on what follows it. */
  lemma HeaderExtends(b: seq<byte>, rest: seq<byte>)
    requires HeaderOf(b).Some?
    ensures HeaderOf(b + rest) == HeaderOf(b)
  {
    hide BeNum;
    var d := b + rest;
    assert d[1..5] == b[1..5];
    var (version, initial, dcid, p) := Ids(b).value;
    assert d[6..6 + d[5]] == b[6..6 + b[5]];
    assert Ids(d) == Ids(b);
    if initial { VarintExtends(b, rest, p); }
    VarintExtends(b, rest, BehindToken(b, initial, p).value);
  }

  lemma VarintExtends(b: seq<byte>, rest: seq<byte>, p: nat)
    requires Varint(b, p).Some?
    ensures Varint(b + rest, p) == Varint(b, p)
  {
    assert (b + rest)[p + 1..p + Width(b[p])] == b[p + 1..p + Width(b[p])];
  }

  lemma OpenedExtends(keys: Keys, b: seq<byte>, rest: seq<byte>, h: Header, largest: Option<nat>)
    requires 0 < h.pnOff <= h.end <= |b|
    ensures Opened(keys, b + rest, h, largest) == Opened(keys, b, h, largest)
  {
    assert (b + rest)[..h.end] == b[..h.end];
  }

  /** A packet that is not opened leaves the entry alone, apart from its lifetime. */
  lemma ShutPasses(derive: Derivation, b: seq<byte>, rest: seq<byte>, entry: Option<Tracked>, dcid: seq<byte>, now: nat)
    requires Shut(derive, b) && Good(entry)
    ensures var d := b + rest;
            && HeaderOf(d) == HeaderOf(b) && d[HeaderOf(b).value.end..] == rest
            && NeverOpens(derive, d, HeaderOf(b).value)
            && FedFor(entry, dcid, derive, d, HeaderOf(b).value, now)
               == (if HeaderOf(b).value.dcid == dcid then Current(entry, now) else entry, None)
  {
    hide HeaderOf, Opened, Current;
    HeaderExtends(b, rest);
    var h := HeaderOf(b).value;
    forall keys, largest | derive(h.version, h.dcid) == Some(keys)
      ensures Opened(keys, b + rest, h, largest) == Opened(keys, b, h, largest)
    {
      OpenedExtends(keys, b, rest, h, largest);
    }
  }

  // The entry of the connection refines the reassembly machine.

  /** How a connection stands: the machine, the number that steers decoding, and when the flow was surely
      seen last. A flow that is done is steered by what was the largest number then. */
  datatype Course = Course(machine: Assembly, steer: Option<nat>, seen: Option<nat>)

  const UNSEEN := Course(Live(map[]), None, None)

  ghost function OnPacket(k: Course, s: Sent, now: nat): Course {
    if k.machine.Ended? then
      k.(seen := if InWindow(s.pn, s.shape.pnLen, k.steer) then Some(now) else k.seen)
    else
      Course(Onward(k.machine, ClippedAll(PiecesOf(s.frames))).0, Some(Max(s.pn, k.steer)), Some(now))
  }

  /** The packet comes within the idle lifetime, and as long as the message is not complete its number is in
      the window. */
  ghost predicate InTime(k: Course, s: Sent, now: nat) {
    && (k.seen.Some? ==> k.seen.value <= now < k.seen.value + 10_000)
    && (k.machine.Live? ==> InWindow(s.pn, s.shape.pnLen, k.steer))
  }

  ghost function OnItem(k: Course, item: Item, now: nat): Course {
    if item.Own? then OnPacket(k, item.sent, now) else k
  }

  /** A packet of the connection that is not opened comes within the idle lifetime, too; others may come at any
      time. */
  ghost predicate ItemInTime(k: Course, dcid: seq<byte>, item: Item, now: nat) {
    match item
    case Own(s) => InTime(k, s, now)
    case Other(b) =>
      HeaderOf(b).Some? && HeaderOf(b).value.dcid == dcid && k.seen.Some? ==> now < k.seen.value + 10_000
  }

  ghost function OnItems(k: Course, items: seq<Item>, now: nat): Course
    decreases |items|
  {
    if items == [] then k else OnItems(OnItem(k, items[0], now), items[1..], now)
  }

  ghost predicate AllInTime(k: Course, dcid: seq<byte>, items: seq<Item>, now: nat)
    decreases |items|
  {
    items == []
    || (ItemInTime(k, dcid, items[0], now) && AllInTime(OnItem(k, items[0], now), dcid, items[1..], now))
  }

  ghost predicate Tracks(entry: Option<Tracked>, k: Course) {
    && (entry.None? ==> k == UNSEEN)
    && (entry.Some? ==>
          && Settled(entry.value.flow) && View(entry.value.flow) == k.machine && entry.value.flow.largest == k.steer
          && k.seen.Some? && k.seen.value <= entry.value.seen)
  }

  lemma FreshSettled()
    ensures Settled(Fresh()) && View(Fresh()) == Live(map[])
  {}

  lemma StillThere(entry: Option<Tracked>, k: Course, s: Sent, now: nat)
    requires Tracks(entry, k) && InTime(k, s, now)
    ensures Current(entry, now) == entry && LargestOf(entry) == k.steer
  {}

  lemma DeliveredRefines(entry: Option<Tracked>, s: Sent, k: Course, now: nat)
    requires Good(entry) && Tracks(entry, k) && (k.machine.Ended? ==> InWindow(s.pn, s.shape.pnLen, k.steer))
    ensures var r := Delivered(entry, EncodeFrames(s.frames), s.pn, now);
            && Tracks(Some(r.0), OnPacket(k, s, now))
            && Mention(r.1) == Onward(k.machine, ClippedAll(PiecesOf(s.frames))).1
  {
    hide Judged, CryptoFrames, EncodeFrames, PiecesOf, AddedAll, Onward, ClippedAll;
    PayloadDecodes(s.frames);
    FreshSettled();
    var flow := if entry.Some? then entry.value.flow else Fresh();
    if flow.done {
      EndedStays(ClippedAll(PiecesOf(s.frames)));
    } else {
      AddedAllRefines(flow.(largest := Some(Max(s.pn, flow.largest))), PiecesOf(s.frames));
    }
  }

  lemma PacketRefines(c: Client, s: Sent, rest: seq<byte>, entry: Option<Tracked>, k: Course, now: nat)
    requires c.Valid() && Good(entry) && Tracks(entry, k) && InTime(k, s, now)
    ensures var d := Packet(c, s) + rest;
            && HeaderOf(d).Some?
            && HeaderOf(d).value.dcid == c.dcid && HeaderOf(d).value.version == c.v
            && d[HeaderOf(d).value.end..] == rest
            && var r := FedPacket(entry, Some(c.keys), d, HeaderOf(d).value, now);
               && r.0.Some? && Tracks(r.0, OnPacket(k, s, now))
               && Mention(r.1) == Onward(k.machine, ClippedAll(PiecesOf(s.frames))).1
  {
    hide HeaderOf, Opened, Sealed, Delivered, InWindow, Onward, ClippedAll, PiecesOf, Judged, Tracks, InTime,
         OnPacket, FedPacket;
    StillThere(entry, k, s, now);
    TimeOrWindow(entry, k, s, now);
    if InWindow(s.pn, s.shape.pnLen, k.steer) {
      PacketDelivers(c, s, rest, entry, now);
      DeliveredRefines(entry, s, k, now);
    } else {
      HeaderOfSealed(c.v, c.keys, c.dcid, s.shape, s.pn, EncodeFrames(s.frames), rest);
      assert (Packet(c, s) + rest)[|Packet(c, s)|..] == rest;
      EndedStays(ClippedAll(PiecesOf(s.frames)));
      DoneStays(entry, Packet(c, s) + rest, c.keys, HeaderOf(Packet(c, s) + rest).value, k, s, now);
    }
  }

  lemma TimeOrWindow(entry: Option<Tracked>, k: Course, s: Sent, now: nat)
    requires InTime(k, s, now) && Tracks(entry, k)
    ensures InWindow(s.pn, s.shape.pnLen, k.steer) || (k.machine.Ended? && entry.Some?)
  {}

  /** A packet outside the window of a flow that is done changes nothing but, if it is opened, the time last
      seen. */
  lemma DoneStays(entry: Option<Tracked>, d: seq<byte>, keys: Keys, h: Header, k: Course, s: Sent, now: nat)
    requires Good(entry) && entry.Some? && k.machine.Ended? && 0 < h.pnOff <= h.end <= |d|
    requires Tracks(entry, k) && InTime(k, s, now) && !InWindow(s.pn, s.shape.pnLen, k.steer)
    ensures var r := FedPacket(entry, Some(keys), d, h, now);
            r.0.Some? && r.1 == None && Tracks(r.0, OnPacket(k, s, now))
  {
    hide Opened, AddedAll, CryptoFrames, Judged, InWindow;
  }

  lemma OtherRefines(c: Client, derive: Derivation, b: seq<byte>, rest: seq<byte>, entry: Option<Tracked>, k: Course,
                     now: nat)
    requires Good(entry) && Tracks(entry, k) && Shut(derive, b) && ItemInTime(k, c.dcid, Other(b), now)
    ensures HeaderOf(b).Some? && HeaderOf(b + rest) == HeaderOf(b) && (b + rest)[HeaderOf(b).value.end..] == rest
    ensures FedFor(entry, c.dcid, derive, b + rest, HeaderOf(b).value, now) == (entry, None)
  {
    hide HeaderOf, FedFor, NeverOpens;
    ShutPasses(derive, b, rest, entry, c.dcid, now);
  }

  /** A datagram of several packets drives the entry like the machine that takes the pieces of its own. */
  lemma {:induction false} DatagramRefines(c: Client, derive: Derivation, items: seq<Item>, tail: seq<byte>,
                                           entry: Option<Tracked>, k: Course, now: nat)
    requires c.Valid() && derive(c.v, c.dcid) == Some(c.keys) && Passable(derive, items, tail)
    requires Good(entry) && Tracks(entry, k) && AllInTime(k, c.dcid, items, now)
    ensures var r := FedDatagram(entry, c.dcid, derive, Datagram(c, items, tail), now);
            && Tracks(r.0, OnItems(k, items, now))
            && (OnItems(k, items, now).machine, Mention(r.1)) == Onward(k.machine, ClippedAll(PiecesSent(items)))
    decreases |items|
  {
    hide HeaderOf, FedPacket, FedDatagram, FedFor, InTime, OnPacket, Onward, Packet, Tracks, ClippedAll, Mention, Shut;
    if items == [] {
      NothingFed(entry, c.dcid, derive, tail, now, k);
    } else {
      var others := Datagram(c, items[1..], tail);
      assert items[0] in items && forall item | item in items[1..] :: item in items;
      var d := BytesOf(c, items[0]) + others;
      if items[0].Other? {
        OtherRefines(c, derive, items[0].bytes, others, entry, k, now);
        DatagramRefines(c, derive, items[1..], tail, entry, k, now);
        FedStep(entry, c.dcid, derive, d, now, HeaderOf(d).value);
        NoneBefore(FedDatagram(entry, c.dcid, derive, others, now).1);
        assert [] + PiecesSent(items[1..]) == PiecesSent(items[1..]);
      } else {
        var s := items[0].sent;
        PacketRefines(c, s, others, entry, k, now);
        var (next, name) := FedPacket(entry, Some(c.keys), d, HeaderOf(d).value, now);
        OwnFed(entry, c, derive, d, HeaderOf(d).value, now);
        DatagramRefines(c, derive, items[1..], tail, next, OnPacket(k, s, now), now);
        FedStep(entry, c.dcid, derive, d, now, HeaderOf(d).value);
        var ps, qs := PiecesOf(s.frames), PiecesSent(items[1..]);
        var (last, later) := FedDatagram(next, c.dcid, derive, others, now);
        MachineOnPacket(k, s, now);
        NamesCombine(k.machine, ps, qs, name, later);
      }
    }
  }

  lemma NoneBefore(later: Option<string>)
    ensures later.Or(None) == later
  {}

  lemma OwnFed(entry: Option<Tracked>, c: Client, derive: Derivation, d: seq<byte>, h: Header, now: nat)
    requires Good(entry) && 0 < h.pnOff <= h.end <= |d| && h.dcid == c.dcid && h.version == c.v
    requires derive(c.v, c.dcid) == Some(c.keys)
    ensures FedFor(entry, c.dcid, derive, d, h, now) == FedPacket(entry, Some(c.keys), d, h, now)
  {
    hide FedPacket;
  }

  lemma MachineOnPacket(k: Course, s: Sent, now: nat)
    ensures OnPacket(k, s, now).machine == Onward(k.machine, ClippedAll(PiecesOf(s.frames))).0
  {
    hide Onward, ClippedAll;
    EndedStays(ClippedAll(PiecesOf(s.frames)));
  }

  lemma FedStep(entry: Option<Tracked>, dcid: seq<byte>, derive: Derivation, d: seq<byte>, now: nat, h: Header)
    requires Good(entry) && HeaderOf(d) == Some(h)
    ensures var first := FedFor(entry, dcid, derive, d, h, now);
            var second := FedDatagram(first.0, dcid, derive, d[h.end..], now);
            FedDatagram(entry, dcid, derive, d, now) == (second.0, second.1.Or(first.1))
  {
    hide HeaderOf, FedFor;
  }

  lemma NamesCombine(a: Assembly, ps: seq<Piece>, qs: seq<Piece>, name: Option<string>, later: Option<string>)
    requires Mention(name) == Onward(a, ClippedAll(ps)).1
    requires Mention(later) == Onward(Onward(a, ClippedAll(ps)).0, ClippedAll(qs)).1
    ensures Mention(later.Or(name)) == Onward(a, ClippedAll(ps + qs)).1
    ensures Onward(Onward(a, ClippedAll(ps)).0, ClippedAll(qs)).0 == Onward(a, ClippedAll(ps + qs)).0
  {
    hide Onward, Clipped;
    ClippedAllSplits(ps, qs);
    OnwardSplits(a, ClippedAll(ps), ClippedAll(qs));
    ReportEnds(a, ClippedAll(ps));
    EndedStays(ClippedAll(qs));
  }

  lemma NothingFed(entry: Option<Tracked>, dcid: seq<byte>, derive: Derivation, tail: seq<byte>, now: nat, k: Course)
    requires Good(entry) && HeaderOf(tail) == None
    ensures FedDatagram(entry, dcid, derive, tail, now) == (entry, None)
    ensures (k.machine, Mention(None)) == Onward(k.machine, ClippedAll([]))
  {
    hide HeaderOf;
  }

  // Whole runs.

  /** A datagram of the client and when it came. */
  datatype Burst = Burst(items: seq<Item>, tail: seq<byte>, now: nat)

  ghost function Entries(c: Client, derive: Derivation, bursts: seq<Burst>): (t: Option<Tracked>)
    requires c.Valid()
    ensures Good(t)
  {
    if bursts == [] then None else
      var last := bursts[|bursts| - 1];
      FedDatagram(Entries(c, derive, bursts[..|bursts| - 1]), c.dcid, derive, Datagram(c, last.items, last.tail), last.now).0
  }

  ghost function NamesFed(c: Client, derive: Derivation, bursts: seq<Burst>): seq<string>
    requires c.Valid()
  {
    if bursts == [] then [] else
      var last, init := bursts[|bursts| - 1], bursts[..|bursts| - 1];
      NamesFed(c, derive, init)
      + Mention(FedDatagram(Entries(c, derive, init), c.dcid, derive, Datagram(c, last.items, last.tail), last.now).1)
  }

  ghost function CourseOver(bursts: seq<Burst>): Course {
    if bursts == [] then UNSEEN else
      var last := bursts[|bursts| - 1];
      OnItems(CourseOver(bursts[..|bursts| - 1]), last.items, last.now)
  }

  ghost function PiecesOver(bursts: seq<Burst>): seq<Piece> {
    if bursts == [] then [] else PiecesOver(bursts[..|bursts| - 1]) + PiecesSent(bursts[|bursts| - 1].items)
  }

  /** Every packet comes before the flow was silent for the idle lifetime, however long the run, and until
      the message is complete with its number in the window. */
  ghost predicate Steady(c: Client, derive: Derivation, bursts: seq<Burst>) {
    bursts == []
    || (var last, init := bursts[|bursts| - 1], bursts[..|bursts| - 1];
        && Steady(c, derive, init) && Passable(derive, last.items, last.tail)
        && AllInTime(CourseOver(init), c.dcid, last.items, last.now))
  }

  /** Until the message is complete the flow was seen with the last packets, so only gaps are bounded. */
  lemma {:induction false} SeenWhileLive(k: Course, items: seq<Item>, now: nat)
    requires OnItems(k, items, now).machine.Live?
    ensures k.machine.Live?
    ensures OnItems(k, items, now).seen == if exists item :: item in items && item.Own? then Some(now) else k.seen
    decreases |items|
  {
    hide Onward, InWindow;
    if items != [] {
      var item := items[0];
      SeenWhileLive(OnItem(k, item, now), items[1..], now);
      if item.Own? { EndedStays(ClippedAll(PiecesOf(item.sent.frames))); }
      assert forall x :: x in items <==> x == item || x in items[1..];
    }
  }

  lemma {:induction false} RunRefines(c: Client, derive: Derivation, bursts: seq<Burst>)
    requires c.Valid() && derive(c.v, c.dcid) == Some(c.keys) && Steady(c, derive, bursts)
    ensures Tracks(Entries(c, derive, bursts), CourseOver(bursts))
    ensures CourseOver(bursts).machine == After(Judged, false, ClippedAll(PiecesOver(bursts)))
    ensures NamesFed(c, derive, bursts) == Names(Judged, false, ClippedAll(PiecesOver(bursts)))
  {
    hide FedDatagram, AllInTime, OnItems, Onward, Datagram, Mention, Judged, ClippedAll, Tracks, Passable;
    if bursts == [] {
      NothingSent();
    } else {
      var last, init := bursts[|bursts| - 1], bursts[..|bursts| - 1];
      RunRefines(c, derive, init);
      DatagramRefines(c, derive, last.items, last.tail, Entries(c, derive, init), CourseOver(init), last.now);
      var ps, qs := PiecesOver(init), PiecesSent(last.items);
      ClippedAllSplits(ps, qs);
      OnwardIsTheMachine(ClippedAll(ps), ClippedAll(qs));
    }
  }

  lemma NothingSent()
    ensures Tracks(None, UNSEEN) && ClippedAll([]) == []
  {}

  lemma ClippedAllSplits(ps: seq<Piece>, qs: seq<Piece>)
    ensures ClippedAll(ps + qs) == ClippedAll(ps) + ClippedAll(qs)
  {}

  /** End to end: a ClientHello in the CRYPTO stream `s`, cut into frames of any kind and order,
      repeated, overlapping, spread over packets of any shape and datagrams, among packets that are not opened:
      once its bytes are covered, its name has been reported exactly once. */
  lemma HelloIsReportedOnce(c: Client, derive: Derivation, bursts: seq<Burst>, s: seq<byte>, msg: seq<byte>)
    requires c.Valid() && derive(c.v, c.dcid) == Some(c.keys) && Steady(c, derive, bursts)
    requires IsMessage(msg) && msg <= s && AllOf(s, PiecesOver(bursts))
    requires forall i: nat | i < |msg| :: i in Covered(PiecesOver(bursts))
    ensures NamesFed(c, derive, bursts) == Mention(Sni(msg))
  {
    hide Entries, NamesFed, Mention, Sni, Steady, PiecesOver;
    ClippedCovers(PiecesOver(bursts));
    var cs := ClippedAll(PiecesOver(bursts));
    RunRefines(c, derive, bursts);
    ClippedAllOf(s, PiecesOver(bursts));
    JudgedStable();
    NamesAreTheVerdict(Judged, false, s, cs);
    CoveredInside(s, cs);
    assert |msg| <= Gap(Covered(cs), 0);
    assert msg <= Received(s, cs);
    MentionOf(msg);
  }

  /** Inside the first 16 KiB clipping loses nothing. */
  lemma {:induction false} ClippedCovers(ps: seq<Piece>)
    ensures forall i: nat | i < 0x4000 :: i in Covered(ps) <==> i in Covered(ClippedAll(ps))
    decreases |ps|
  {
    if ps == [] {
      assert ClippedAll([]) == [];
    } else {
      var init, p := ps[..|ps| - 1], ps[|ps| - 1];
      ClippedCovers(init);
      assert ClippedAll(ps)[..|ps| - 1] == ClippedAll(init);
      assert forall i: nat | i < 0x4000 :: p.Covers(i) <==> Clipped(p).Covers(i);
    }
  }

  lemma MentionOf(msg: seq<byte>)
    requires IsMessage(msg)
    ensures Judged(msg) == Stop(Sni(msg))
    ensures Mention(Sni(msg)) == match Judged(msg) case Stop(Some(name)) => [name] case _ => []
  {
    assert msg[..|msg|] == msg;
  }

  lemma ClippedAllOf(s: seq<byte>, ps: seq<Piece>)
    requires AllOf(s, ps)
    ensures AllOf(s, ClippedAll(ps))
  {
    forall c | c in ClippedAll(ps)
      ensures c.Of(s)
    {
      var i :| 0 <= i < |ps| && c == Clipped(ps[i]);
      assert ps[i] in ps;
      ClippedOf(s, ps[i]);
    }
  }
}
