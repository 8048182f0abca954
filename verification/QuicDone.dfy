/**
 A QUIC flow that is done: the number that steers decoding stays, so a packet keeps the flow from expiring
 exactly when its number is recovered from there. Other packets may come all the time, and the flow expires.
 */
module QuicDone {
  import opened Bytes
  import opened ClientHello
  import opened Hello
  import opened PacketNumber
  import opened QuicAssembler
  import opened QuicFlow
  import opened QuicFrames
  import opened QuicInt
  import opened QuicPacket
  import opened Reassembly
  import opened Wrappers

  /** The receiver recovers the packet's number. */
  ghost predicate Recovered(s: Sent, largest: Option<nat>) {
    InWindow(s.pn, s.shape.pnLen, largest) || AtEdge(s.pn, s.shape.pnLen, largest)
  }

  ghost predicate Done(entry: Option<Tracked>) {
    entry.Some? && entry.value.flow.Valid() && entry.value.flow.done
  }

  /** The entry of a flow that is done, seen anew or not. */
  function Seen(t: Tracked, again: bool, now: nat): Option<Tracked> {
    Some(if again then t.(seen := now) else t)
  }

  lemma OpenedDone(t: Tracked, plain: seq<byte>, pn: nat, now: nat)
    requires Done(Some(t))
    ensures Delivered(Some(t), plain, pn, now) == (t.(seen := now), None)
  {
    hide CryptoFrames, AddedAll;
  }

  /** A packet of the connection moves the time last seen of a flow that is done exactly when its number is
      recovered; it changes nothing else. */
  lemma DonePacket(c: Client, s: Sent, rest: seq<byte>, t: Tracked, now: nat)
    requires c.Valid() && c.keys.Rejects() && Done(Some(t)) && now < t.seen + 10_000
    ensures var d := Packet(c, s) + rest;
            && HeaderOf(d).Some?
            && HeaderOf(d).value.dcid == c.dcid && HeaderOf(d).value.version == c.v
            && d[HeaderOf(d).value.end..] == rest
            && FedPacket(Some(t), Some(c.keys), d, HeaderOf(d).value, now)
               == (Seen(t, Recovered(s, t.flow.largest), now), None)
  {
    hide HeaderOf, Opened, Sealed, HeadOf, Delivered, InWindow, AtEdge;
    var plain := EncodeFrames(s.frames);
    HeaderOfSealed(c.v, c.keys, c.dcid, s.shape, s.pn, plain, rest);
    OpensIff(c.v, c.keys, c.dcid, s.shape, s.pn, plain, rest, t.flow.largest);
    OpenedDone(t, plain, s.pn, now);
    assert (Packet(c, s) + rest)[|Packet(c, s)|..] == rest;
  }

  ghost predicate AnyRecovered(items: seq<Item>, largest: Option<nat>) {
    exists item | item in items :: item.Own? && Recovered(item.sent, largest)
  }

  /** A datagram does so exactly when it has such a packet. */
  lemma {:induction false} DoneDatagram(c: Client, derive: Derivation, items: seq<Item>, tail: seq<byte>, t: Tracked,
                                        now: nat)
    requires c.Valid() && c.keys.Rejects() && derive(c.v, c.dcid) == Some(c.keys) && Passable(derive, items, tail)
    requires Done(Some(t)) && t.seen <= now < t.seen + 10_000
    ensures FedDatagram(Some(t), c.dcid, derive, Datagram(c, items, tail), now)
            == (Seen(t, AnyRecovered(items, t.flow.largest), now), None)
    decreases |items|
  {
    hide HeaderOf, FedPacket, FedDatagram, FedFor, Packet, Shut, Recovered;
    if items == [] {
      NothingFed(Some(t), c.dcid, derive, tail, now, UNSEEN);
    } else {
      var item, others := items[0], Datagram(c, items[1..], tail);
      assert item in items && forall x | x in items[1..] :: x in items;
      assert forall x :: x in items <==> x == item || x in items[1..];
      var d := BytesOf(c, item) + others;
      if item.Other? {
        OtherPasses(c, derive, item.bytes, others, t, now);
        DoneDatagram(c, derive, items[1..], tail, t, now);
        FedStep(Some(t), c.dcid, derive, d, now, HeaderOf(d).value);
      } else {
        DonePacket(c, item.sent, others, t, now);
        OwnFed(Some(t), c, derive, d, HeaderOf(d).value, now);
        var next := Seen(t, Recovered(item.sent, t.flow.largest), now).value;
        DoneDatagram(c, derive, items[1..], tail, next, now);
        FedStep(Some(t), c.dcid, derive, d, now, HeaderOf(d).value);
      }
    }
  }

  lemma OtherPasses(c: Client, derive: Derivation, b: seq<byte>, rest: seq<byte>, t: Tracked, now: nat)
    requires Shut(derive, b) && t.flow.Valid() && now < t.seen + TTL
    ensures HeaderOf(b).Some? && HeaderOf(b + rest) == HeaderOf(b) && (b + rest)[HeaderOf(b).value.end..] == rest
    ensures FedFor(Some(t), c.dcid, derive, b + rest, HeaderOf(b).value, now) == (Some(t), None)
  {
    hide HeaderOf, FedFor, NeverOpens;
    ShutPasses(derive, b, rest, Some(t), c.dcid, now);
  }

  // Whole runs of a flow that is done.

  ghost function Onwards(c: Client, derive: Derivation, entry: Option<Tracked>, bursts: seq<Burst>): (t: Option<Tracked>)
    requires c.Valid() && Good(entry)
    ensures Good(t)
  {
    if bursts == [] then entry
    else
      var last := bursts[|bursts| - 1];
      FedDatagram(Onwards(c, derive, entry, bursts[..|bursts| - 1]), c.dcid, derive, Datagram(c, last.items, last.tail),
                  last.now).0
  }

  /** However often packets come, as long as none has a number that is recovered the flow was last seen when it
      was; and so it expires. */
  lemma {:induction false} DoneExpires(c: Client, derive: Derivation, t: Tracked, bursts: seq<Burst>, now: nat)
    requires c.Valid() && c.keys.Rejects() && derive(c.v, c.dcid) == Some(c.keys) && Done(Some(t))
    requires forall b | b in bursts :: && Passable(derive, b.items, b.tail) && t.seen <= b.now < t.seen + 10_000
                                       && !AnyRecovered(b.items, t.flow.largest)
    ensures Onwards(c, derive, Some(t), bursts) == Some(t)
    ensures Current(Onwards(c, derive, Some(t), bursts), now) == None <==> now >= t.seen + 10_000
    decreases |bursts|
  {
    hide FedDatagram, AnyRecovered, Passable;
    if bursts != [] {
      var last, init := bursts[|bursts| - 1], bursts[..|bursts| - 1];
      assert last in bursts && forall b | b in init :: b in bursts;
      DoneExpires(c, derive, t, init, now);
      DoneDatagram(c, derive, last.items, last.tail, t, last.now);
    }
  }

  // A run in which a name is reported a second time.

  /** A packet with the whole message. */
  function HelloSent(pn: nat, pnLen: nat, msg: seq<byte>): (s: Sent)
    requires pn < LIMIT && 1 <= pnLen <= 4 && IsMessage(msg)
    ensures s.pn == pn && s.shape.pnLen == pnLen && PiecesOf(s.frames) == [Piece(0, msg)]
  {
    Powers();
    var frame := Crypto(Num(0, 1), Num(|msg|, 4), msg);
    var frames: seq<AnyFrame> := [frame];
    assert frames[1..] == [] && EncodeFrames(frames) == EncodeFrame(frame) + [];
    assert PiecesOf(frames) == [Piece(0, msg)] + [];
    Sent(pn, Shape([], [], 1, 4, pnLen), frames)
  }

  lemma Powers()
    ensures Pow256(0) == 1 && Pow256(1) == 0x100 && Pow256(3) == 0x100_0000
  {}

  /** A packet with nothing but padding. */
  function PaddingSent(pn: nat): (s: Sent)
    requires pn < LIMIT
    ensures s.pn == pn && s.shape.pnLen == 1
  {
    Powers();
    var frames: seq<AnyFrame> := [Padding, Padding, Padding];
    assert |EncodeFrames(frames)| == 3 by {
      assert frames[1..] == [Padding, Padding] && frames[1..][1..] == [Padding] && frames[1..][1..][1..] == [];
    }
    Sent(pn, Shape([], [], 1, 1, 1), frames)
  }

  /** A packet alone in its datagram, opened by the flow as it stands. */
  lemma OneOwn(c: Client, derive: Derivation, s: Sent, entry: Option<Tracked>, now: nat)
    requires c.Valid() && derive(c.v, c.dcid) == Some(c.keys) && Good(entry) && Current(entry, now) == entry
    requires InWindow(s.pn, s.shape.pnLen, LargestOf(entry))
    ensures var r := Delivered(entry, EncodeFrames(s.frames), s.pn, now);
            FedDatagram(entry, c.dcid, derive, Datagram(c, [Own(s)], []), now) == (Some(r.0), r.1)
  {
    hide HeaderOf, FedPacket, FedFor, Packet, InWindow, Delivered;
    assert [Own(s)][1..] == [];
    PacketDelivers(c, s, [], entry, now);
    var d := Packet(c, s) + [];
    OwnFed(entry, c, derive, d, HeaderOf(d).value, now);
    FedStep(entry, c.dcid, derive, d, now, HeaderOf(d).value);
    NoHeader();
    var r := Delivered(entry, EncodeFrames(s.frames), s.pn, now);
    NothingFed(Some(r.0), c.dcid, derive, [], now, UNSEEN);
    NoneAfter(r.1);
  }

  lemma NoneAfter(name: Option<string>)
    ensures None.Or(name) == name
  {}

  lemma NoHeader()
    ensures HeaderOf([]) == None
  {}

  /** An expired flow is as good as none. */
  lemma ExpiredIsNone(c: Client, derive: Derivation, s: Sent, entry: Option<Tracked>, now: nat)
    requires c.Valid() && derive(c.v, c.dcid) == Some(c.keys) && Good(entry) && Current(entry, now) == None
    requires InWindow(s.pn, s.shape.pnLen, None)
    ensures FedDatagram(entry, c.dcid, derive, Datagram(c, [Own(s)], []), now)
            == FedDatagram(None, c.dcid, derive, Datagram(c, [Own(s)], []), now)
  {
    hide HeaderOf, FedDatagram, Opened, Packet, InWindow, Delivered;
    assert [Own(s)][1..] == [];
    var d := Packet(c, s) + [];
    PacketDelivers(c, s, [], None, now);
    FedStep(entry, c.dcid, derive, d, now, HeaderOf(d).value);
    FedStep(None, c.dcid, derive, d, now, HeaderOf(d).value);
  }

  function HelloBurst(pn: nat, pnLen: nat, msg: seq<byte>, now: nat): Burst
    requires pn < LIMIT && 1 <= pnLen <= 4 && IsMessage(msg)
  {
    Burst([Own(HelloSent(pn, pnLen, msg))], [], now)
  }

  lemma AloneSteady(c: Client, derive: Derivation, s: Sent, now: nat)
    requires c.Valid() && InWindow(s.pn, s.shape.pnLen, None)
    ensures Steady(c, derive, [Burst([Own(s)], [], now)])
  {
    hide HeaderOf, OnPacket, InWindow;
    var b := Burst([Own(s)], [], now);
    NoHeader();
    assert [b][..0] == [] && b.items[1..] == [];
    assert CourseOver([]) == UNSEEN && Steady(c, derive, []);
    assert ItemInTime(UNSEEN, c.dcid, Own(s), now);
    assert AllInTime(UNSEEN, c.dcid, b.items, now);
  }

  lemma AloneIs(c: Client, derive: Derivation, b: Burst)
    requires c.Valid()
    ensures var r := FedDatagram(None, c.dcid, derive, Datagram(c, b.items, b.tail), b.now);
            Entries(c, derive, [b]) == r.0 && NamesFed(c, derive, [b]) == Mention(r.1)
    ensures PiecesOver([b]) == PiecesSent(b.items)
  {
    hide FedDatagram, Datagram, Mention, PiecesSent;
    assert [b][..0] == [];
    assert Entries(c, derive, []) == None && NamesFed(c, derive, []) == [] && PiecesOver([]) == [];
    assert [] + PiecesSent(b.items) == PiecesSent(b.items);
  }

  lemma OnePiece(s: Sent)
    ensures PiecesSent([Own(s)]) == PiecesOf(s.frames)
  {
    assert [Own(s)][1..] == [] && PiecesSent([]) == [];
    assert PiecesOf(s.frames) + [] == PiecesOf(s.frames);
  }

  /** Alone, a packet with the whole message reports its name, and its flow is done. */
  lemma HelloAlone(c: Client, derive: Derivation, pn: nat, pnLen: nat, msg: seq<byte>, now: nat)
    requires c.Valid() && derive(c.v, c.dcid) == Some(c.keys)
    requires pn < LIMIT && 1 <= pnLen <= 4 && IsMessage(msg) && InWindow(pn, pnLen, None)
    ensures var b := HelloBurst(pn, pnLen, msg, now);
            var r := FedDatagram(None, c.dcid, derive, Datagram(c, b.items, b.tail), now);
            && Done(r.0) && r.0.value.flow.largest == Some(pn) && r.0.value.seen == now
            && Mention(r.1) == Mention(Sni(msg))
  {
    hide *;
    var b, s := HelloBurst(pn, pnLen, msg, now), HelloSent(pn, pnLen, msg);
    BurstIs(pn, pnLen, msg, now);
    AloneSteady(c, derive, s, now);
    AloneIs(c, derive, b);
    OnePiece(s);
    WholeCovered(msg);
    HelloIsReportedOnce(c, derive, [b], msg, msg);
    NothingCurrent(now);
    OneOwn(c, derive, s, None, now);
    DeliveredFresh(s, pn, now);
    RunRefines(c, derive, [b]);
    HelloEnds([Piece(0, msg)], msg);
    EndedIsDone(Entries(c, derive, [b]), CourseOver([b]));
  }

  lemma BurstIs(pn: nat, pnLen: nat, msg: seq<byte>, now: nat)
    requires pn < LIMIT && 1 <= pnLen <= 4 && IsMessage(msg)
    ensures HelloBurst(pn, pnLen, msg, now) == Burst([Own(HelloSent(pn, pnLen, msg))], [], now)
    ensures |msg| <= MAX_HELLO && msg <= msg
  {}

  lemma NothingCurrent(now: nat)
    ensures Current(None, now) == None && Good(None) && LargestOf(None) == None
  {}

  lemma EndedIsDone(entry: Option<Tracked>, k: Course)
    requires Tracks(entry, k) && k.machine == Ended
    ensures Done(entry)
  {}

  lemma WholeCovered(msg: seq<byte>)
    requires IsMessage(msg)
    ensures ClippedAll([Piece(0, msg)]) == [Piece(0, msg)] && AllOf(msg, [Piece(0, msg)])
    ensures forall i: nat | i < |msg| :: i in Covered([Piece(0, msg)])
  {
    assert msg[..|msg|] == msg;
    assert Covered([Piece(0, msg)]) == {} + Piece(0, msg).Places() by {
      assert [Piece(0, msg)][..0] == [];
    }
    forall i: nat | i < |msg|
      ensures i in Piece(0, msg).Places()
    {
      assert Piece(0, msg).Covers(i);
    }
  }

  lemma HelloEnds(ps: seq<Piece>, msg: seq<byte>)
    requires IsMessage(msg) && ps == [Piece(0, msg)]
    ensures After(Judged, false, ClippedAll(ps)) == Ended
  {
    hide Judged;
    WholeCovered(msg);
    JudgedStable();
    HoldsTheStream(Judged, false, msg, ps);
    CoveredInside(msg, ps);
    assert |msg| <= Gap(Covered(ps), 0);
    assert Received(msg, ps) == msg;
    MentionOf(msg);
  }

  lemma DeliveredFresh(s: Sent, pn: nat, now: nat)
    requires s.pn == pn
    ensures var r := Delivered(None, EncodeFrames(s.frames), pn, now).0;
            r.seen == now && r.flow.largest == Some(pn)
  {
    hide CryptoFrames, EncodeFrames;
  }

  /** The message, nothing but padding just before the idle lifetime is over, and the message again. */
  function Again(msg: seq<byte>): seq<Burst>
    requires IsMessage(msg)
  {
    [HelloBurst(0, 1, msg, 0), Burst([Own(PaddingSent(300))], [], TTL - 1), HelloBurst(301, 2, msg, TTL)]
  }

  lemma NumbersOfAgain()
    ensures InWindow(0, 1, None) && InWindow(301, 2, None)
    ensures !InWindow(300, 1, Some(0)) && !AtEdge(300, 1, Some(0))
  {}

  lemma PaddingUnseen(c: Client, derive: Derivation, t: Tracked, now: nat)
    requires c.Valid() && c.keys.Rejects() && derive(c.v, c.dcid) == Some(c.keys)
    requires Done(Some(t)) && t.seen <= now < t.seen + TTL && t.flow.largest == Some(0)
    ensures FedDatagram(Some(t), c.dcid, derive, Datagram(c, [Own(PaddingSent(300))], []), now) == (Some(t), None)
  {
    hide FedDatagram, Datagram, InWindow, AtEdge, HeaderOf, PaddingSent;
    NumbersOfAgain();
    NoHeader();
    DoneDatagram(c, derive, [Own(PaddingSent(300))], [], t, now);
  }

  lemma Tail3(c: Client, derive: Derivation, x: Burst, y: Burst, z: Burst)
    requires c.Valid()
    ensures var e1 := Entries(c, derive, [x]);
            var r2 := FedDatagram(e1, c.dcid, derive, Datagram(c, y.items, y.tail), y.now);
            var r3 := FedDatagram(r2.0, c.dcid, derive, Datagram(c, z.items, z.tail), z.now);
            && [x, y, z][..1] == [x] && Entries(c, derive, [x, y]) == r2.0 && [x, y, z][..2] == [x, y]
            && NamesFed(c, derive, [x, y, z]) == NamesFed(c, derive, [x]) + Mention(r2.1) + Mention(r3.1)
  {
    hide FedDatagram, Datagram, Mention;
    assert [x, y, z][..2] == [x, y] && [x, y][..1] == [x];
  }

  /** The failing run: packets of the connection come at 0, 9999 and 10000 ms, so no gap is as long as the idle
      lifetime. The packet in between is outside the window of the flow that is done and does not keep it, and
      the message sent again has its name reported a second time. */
  lemma NameReportedAgain(c: Client, derive: Derivation, msg: seq<byte>)
    requires c.Valid() && c.keys.Rejects() && derive(c.v, c.dcid) == Some(c.keys) && IsMessage(msg)
    ensures var bursts := Again(msg);
            && Done(Entries(c, derive, bursts[..1])) && Entries(c, derive, bursts[..2]) == Entries(c, derive, bursts[..1])
            && Current(Entries(c, derive, bursts[..2]), bursts[2].now) == None
            && NamesFed(c, derive, bursts) == Mention(Sni(msg)) + Mention(Sni(msg))
  {
    hide FedDatagram, Datagram, InWindow, AtEdge, HelloBurst, PaddingSent, Entries, NamesFed, Sni, Done;
    var x, y, z := HelloBurst(0, 1, msg, 0), Burst([Own(PaddingSent(300))], [], TTL - 1), HelloBurst(301, 2, msg, TTL);
    NumbersOfAgain();
    BurstIs(0, 1, msg, 0);
    BurstIs(301, 2, msg, TTL);
    HelloAlone(c, derive, 0, 1, msg, 0);
    AloneIs(c, derive, x);
    Tail3(c, derive, x, y, z);
    assert Entries(c, derive, [x]).Some? by { DoneIsSome(Entries(c, derive, [x])); }
    var t := Entries(c, derive, [x]).value;
    PaddingUnseen(c, derive, t, TTL - 1);
    ExpiredIsNone(c, derive, HelloSent(301, 2, msg), Some(t), TTL);
    HelloAlone(c, derive, 301, 2, msg, TTL);
    assert Mention(Sni(msg)) + Mention(None) == Mention(Sni(msg));
  }

  lemma DoneIsSome(entry: Option<Tracked>)
    requires Done(entry)
    ensures entry.Some?
  {}
}
