/**
 A flow that was not seen from its SYN: segments wait until one begins with a handshake record, which is taken
 for the beginning of the stream. From then on the flow reports what it would have with the base known at once.
 */
module LateBase {
  import opened Bytes
  import opened ClientHello
  import opened Hello
  import opened Reassembly
  import opened SparseBuffer
  import opened Tls
  import opened Wrappers

  ghost function Late(segments: seq<Segment>): (f: FlowState)
    ensures f.Valid()
  {
    if segments == [] then Fresh(None) else
      var last := segments[|segments| - 1];
      Added(Late(segments[..|segments| - 1]), last.sequence, last.data).0
  }

  ghost function LateReported(segments: seq<Segment>): seq<string> {
    if segments == [] then [] else
      var last, init := segments[|segments| - 1], segments[..|segments| - 1];
      LateReported(init)
      + match Added(Late(init), last.sequence, last.data).1 case None => [] case Some(name) => [name]
  }

  /** The segment tells where the stream begins. */
  predicate Begins(g: Segment) {
    g.data != [] && |g.data| <= 0x8000 && g.data[0] == 0x16
  }

  predicate Waits(g: Segment) {
    g.data != [] && |g.data| <= 0x8000 && g.data[0] != 0x16
  }

  function Pairs(segments: seq<Segment>): (ps: seq<(nat, seq<byte>)>)
    ensures |ps| == |segments|
    decreases |segments|
  {
    if segments == [] then []
    else Pairs(segments[..|segments| - 1]) + [(segments[|segments| - 1].sequence, segments[|segments| - 1].data)]
  }

  /** The segments held while the base is unknown: as they come, up to 16 and 32768 bytes. */
  function Kept(late: seq<Segment>): (k: seq<Segment>)
    ensures forall g | g in k :: g in late && Waits(g)
  {
    if late == [] then []
    else
      var k, g := Kept(late[..|late| - 1]), late[|late| - 1];
      if Waits(g) && |k| < 16 && Held(Pairs(k)) + |g.data| <= 0x8000 then k + [g] else k
  }

  lemma {:induction false} LateWaits(late: seq<Segment>)
    requires forall g | g in late :: !Begins(g)
    ensures Late(late) == Fresh(None).(pending := Pairs(Kept(late))) && LateReported(late) == []
  {
    hide Placed, Based, Records, Held;
    if late != [] {
      var init, g := late[..|late| - 1], late[|late| - 1];
      assert g in late && forall h | h in init :: h in late;
      LateWaits(init);
      var k := Kept(init);
      assert (k + [g])[..|k|] == k;
    }
  }

  // The held segments put in place, against the machine that takes them one by one.

  /** The buffer holds something else than a record at the beginning of the stream. */
  ghost predicate Foreign(f: FlowState)
    requires f.Valid()
  {
    0 in CellsOf(f) && CellsOf(f)[0] != HANDSHAKE
  }

  /** The machine has ended with the flow, or before it on a beginning that is no record. */
  ghost predicate Ahead(a: Assembly, f: FlowState)
    requires f.Valid()
  {
    if f.done then a.Ended?
    else (a == View(f) && Settled(f) && (0 in CellsOf(f) ==> Foreign(f))) || (a.Ended? && Foreign(f))
  }

  lemma {:induction false} PlacedAllMore(f: FlowState, ps: seq<(nat, seq<byte>)>, p: (nat, seq<byte>))
    requires f.Valid()
    ensures PlacedAll(f, ps + [p]) == Placed(PlacedAll(f, ps), p.0, p.1)
    decreases |ps|
  {
    hide Placed;
    if ps == [] {
      assert [] + [p] == [p] && [p][1..] == [];
      assert PlacedAll(f, [p]) == PlacedAll(Placed(f, p.0, p.1), [p][1..]);
    } else {
      assert (ps + [p])[1..] == ps[1..] + [p];
      PlacedAllMore(Placed(f, ps[0].0, ps[0].1), ps[1..], p);
    }
  }

  lemma ShortOrForeign(prefix: seq<byte>)
    requires prefix != [] ==> prefix[0] != HANDSHAKE
    ensures Records(prefix) == if |prefix| < 5 then NeedMore else Stop(None)
  {}

  lemma WaitingPiece(base: nat, g: Segment)
    requires Waits(g)
    ensures var p := PieceOf(base, g.sequence, g.data); p.Covers(0) ==> p.At(0) != HANDSHAKE
  {}

  lemma PlacedAhead(a: Assembly, f: FlowState, g: Segment)
    requires f.Valid() && f.base.Some? && Ahead(a, f) && Waits(g)
    ensures var (b, name) := Arrive(Records, true, a, PieceOf(f.base.value, g.sequence, g.data));
            Ahead(b, Placed(f, g.sequence, g.data)) && name == None
  {
    hide Records, Clash, Grown, Written, Marked, Hole, Offset, Settled;
    var p, r := PieceOf(f.base.value, g.sequence, g.data), Placed(f, g.sequence, g.data);
    WaitingPiece(f.base.value, g);
    if !f.done {
      if Fits(Offset(g.sequence, f.base.value), g.data) {
        PlacedRefines(f, g.sequence, g.data);
      } else {
        assert Overlay(CellsOf(f), p) == CellsOf(f);
      }
      if !r.done { Judging(a, f, r, p); }
    }
  }

  lemma Judging(a: Assembly, f: FlowState, r: FlowState, p: Piece)
    requires f.Valid() && r.Valid() && !f.done && !r.done && Ahead(a, f)
    requires !Contradicts(CellsOf(f), p) && CellsOf(r) == Overlay(CellsOf(f), p)
    requires p.Covers(0) ==> p.At(0) != HANDSHAKE
    ensures var (b, name) := Arrive(Records, true, a, p); Ahead(b, r) && name == None
  {
    hide Records;
    PrefixOf(r);
    var cells := CellsOf(r);
    assert 0 in cells ==> Foreign(r);
    if a.Live? {
      ShortOrForeign(Prefix(cells));
    }
  }

  lemma {:induction false} AllPlacedAhead(base: nat, kept: seq<Segment>)
    requires forall g | g in kept :: Waits(g)
    ensures var f := PlacedAll(Fresh(Some(base)), Pairs(kept));
            && f.base == Some(base) && f.Valid() && Ahead(After(Records, true, Pieces(base, kept)), f)
    ensures Names(Records, true, Pieces(base, kept)) == []
  {
    hide Placed, PieceOf, Ahead, Arrive, Records, Waits;
    if kept == [] {
      FreshAhead(base);
    } else {
      var n := |kept| - 1;
      var init, g := kept[..n], kept[n];
      assert g in kept && forall h | h in init :: h in kept;
      AllPlacedAhead(base, init);
      PlacedAllMore(Fresh(Some(base)), Pairs(init), (g.sequence, g.data));
      PlacedAhead(After(Records, true, Pieces(base, init)), PlacedAll(Fresh(Some(base)), Pairs(init)), g);
      assert Pieces(base, kept)[..n] == Pieces(base, init);
    }
  }

  lemma FreshAhead(base: nat)
    ensures Ahead(Live(map[]), Fresh(Some(base)))
  {
    FreshRefines(base);
  }

  // The segment that tells the base, and all that follow.

  lemma BeginningPiece(g: Segment)
    requires Begins(g)
    ensures PieceOf(g.sequence, g.sequence, g.data) == Piece(0, g.data) && Offset(g.sequence, g.sequence) == 0
  {}

  /** The flow takes the segment that tells its base as if the held ones had been placed when they came. */
  lemma BaseTold(kept: seq<Segment>, g: Segment)
    requires Begins(g) && forall h | h in kept :: Waits(h)
    ensures var r := Added(Fresh(None).(pending := Pairs(kept)), g.sequence, g.data);
            && Settled(r.0) && r.0.base == Some(g.sequence)
            && (View(r.0), r.1) == Arrive(Records, true, After(Records, true, Pieces(g.sequence, kept)), Piece(0, g.data))
  {
    hide Records, Placed, PlacedAll, Pieces, Ahead, Settled, Offset;
    AllPlacedAhead(g.sequence, kept);
    BeginningPiece(g);
    var f := PlacedAll(Fresh(Some(g.sequence)), Pairs(kept));
    var a := After(Records, true, Pieces(g.sequence, kept));
    AfterBase(a, f, g);
  }

  lemma AfterBase(a: Assembly, f: FlowState, g: Segment)
    requires Begins(g) && f.Valid() && f.base == Some(g.sequence) && Ahead(a, f)
    ensures var h := Placed(f, g.sequence, g.data);
            var r := if h.done then (h, None)
                     else match Records(h.buf[..h.ready])
                          case NeedMore => (h, None)
                          case Stop(name) => (Finished(h), name);
            && Settled(r.0) && r.0.base == Some(g.sequence)
            && (View(r.0), r.1) == Arrive(Records, true, a, Piece(0, g.data))
  {
    hide Records, Clash, Grown, Written, Marked, Hole, Offset;
    BeginningPiece(g);
    if f.done {
    } else if a.Ended? {
      PlacedRefines(f, g.sequence, g.data);
      assert Piece(0, g.data).Covers(0) && Contradicts(CellsOf(f), Piece(0, g.data));
    } else {
      AddedRefines(f, g.sequence, g.data);
    }
  }

  lemma LateMore(segments: seq<Segment>, g: Segment)
    ensures var r := Added(Late(segments), g.sequence, g.data);
            && Late(segments + [g]) == r.0
            && LateReported(segments + [g]) == LateReported(segments) + match r.1 case None => [] case Some(name) => [name]
  {
    hide Added;
    assert (segments + [g])[..|segments|] == segments;
  }

  lemma MachineMore(base: nat, segments: seq<Segment>, g: Segment)
    ensures var ps, qs := Pieces(base, segments), Pieces(base, segments + [g]);
            var r := Arrive(Records, true, After(Records, true, ps), PieceOf(base, g.sequence, g.data));
            && After(Records, true, qs) == r.0
            && Names(Records, true, qs) == Names(Records, true, ps) + match r.1 case None => [] case Some(name) => [name]
  {
    hide Arrive, PieceOf, Records;
    assert Pieces(base, segments + [g])[..|segments|] == Pieces(base, segments);
  }

  /** The flow that saw all those segments is where the machine is that took those pieces. */
  ghost predicate Refines(all: seq<Segment>, base: nat, own: seq<Segment>) {
    var ps := Pieces(base, own);
    && Settled(Late(all)) && Late(all).base == Some(base)
    && View(Late(all)) == After(Records, true, ps) && LateReported(all) == Names(Records, true, ps)
  }

  lemma RefinesMore(all: seq<Segment>, base: nat, own: seq<Segment>, g: Segment)
    requires Refines(all, base, own)
    ensures Refines(all + [g], base, own + [g])
  {
    hide Late, LateReported, Added, PieceOf, View, Arrive, Settled, After, Names, Records, Pieces;
    AddedRefines(Late(all), g.sequence, g.data);
    LateMore(all, g);
    MachineMore(base, own, g);
  }

  lemma FirstRefines(late: seq<Segment>, first: Segment)
    requires Begins(first) && forall g | g in late :: !Begins(g)
    ensures Refines(late + [first], first.sequence, Kept(late) + [first])
  {
    hide Late, LateReported, Added, PieceOf, View, Arrive, Settled, After, Names, Records, Begins, Waits, Kept, Pieces;
    LateWaits(late);
    BaseTold(Kept(late), first);
    AllPlacedAhead(first.sequence, Kept(late));
    BeginningPiece(first);
    LateMore(late, first);
    MachineMore(first.sequence, Kept(late), first);
  }

  /** Over a whole run the flow refines the machine that takes the held segments, the one that tells the
      base, and those behind it. */
  lemma {:induction false} LateRefines(late: seq<Segment>, first: Segment, more: seq<Segment>)
    requires Begins(first) && forall g | g in late :: !Begins(g)
    ensures Refines(late + [first] + more, first.sequence, Kept(late) + [first] + more)
    decreases |more|
  {
    hide Refines, Kept, Begins;
    if more == [] {
      FirstRefines(late, first);
      assert late + [first] + [] == late + [first] && Kept(late) + [first] + [] == Kept(late) + [first];
    } else {
      var n := |more| - 1;
      LateRefines(late, first, more[..n]);
      assert more[..n] + [more[n]] == more;
      assert late + [first] + more == late + [first] + more[..n] + [more[n]];
      assert Kept(late) + [first] + more == Kept(late) + [first] + more[..n] + [more[n]];
      RefinesMore(late + [first] + more[..n], first.sequence, Kept(late) + [first] + more[..n], more[n]);
    }
  }

  /** Without a SYN the flow reports exactly what it reports with the base known from the start, of the segments
      it held, the one that told the base, and those behind it. */
  lemma LateReportsTheSame(late: seq<Segment>, first: Segment, more: seq<Segment>)
    requires Begins(first) && forall g | g in late :: !Begins(g)
    ensures LateReported(late + [first] + more) == Reported(first.sequence, Kept(late) + [first] + more)
    ensures View(Late(late + [first] + more)) == View(Run(first.sequence, Kept(late) + [first] + more))
  {
    hide Kept, Begins, LateReported, Late, Reported, Run;
    LateRefines(late, first, more);
    RunRefines(first.sequence, Kept(late) + [first] + more);
  }

  lemma HeldMore(late: seq<Segment>)
    requires late != []
    ensures Held(Pairs(late)) == Held(Pairs(late[..|late| - 1])) + |late[|late| - 1].data|
  {
    assert Pairs(late)[..|late| - 1] == Pairs(late[..|late| - 1]);
  }

  lemma OneKept(late: seq<Segment>)
    requires late != [] && Waits(late[|late| - 1]) && |late| <= 16 && Kept(late[..|late| - 1]) == late[..|late| - 1]
    requires Held(Pairs(late[..|late| - 1])) + |late[|late| - 1].data| <= 0x8000
    ensures Kept(late) == late
  {
    hide Held, Pairs, Waits;
  }

  lemma {:induction false} AllKept(late: seq<Segment>)
    requires (forall g | g in late :: Waits(g)) && |late| <= 16 && Held(Pairs(late)) <= 0x8000
    ensures Kept(late) == late
  {
    if late == [] {
      assert Kept([]) == [];
    } else {
      hide Waits, Kept, Held, Pairs;
      assert late[|late| - 1] in late && forall g | g in late[..|late| - 1] :: g in late;
      HeldMore(late);
      AllKept(late[..|late| - 1]);
      OneKept(late);
    }
  }

  // With or without a SYN.

  ghost function FlowOf(base: Option<nat>, segments: seq<Segment>): (f: FlowState)
    ensures f.Valid()
  {
    if base.Some? then Run(base.value, segments) else Late(segments)
  }

  ghost function NamesOf(base: Option<nat>, segments: seq<Segment>): seq<string> {
    if base.Some? then Reported(base.value, segments) else LateReported(segments)
  }

  /** End to end without a SYN: if the first segment that begins with a handshake record is the beginning of
      the stream, a ClientHello covered by it, the held segments and those behind is reported exactly once. */
  lemma LateHelloIsReportedOnce(minor: byte, fragments: seq<seq<byte>>, rest: seq<byte>,
                                late: seq<Segment>, first: Segment, more: seq<Segment>)
    requires Begins(first) && forall g | g in late :: !Begins(g)
    requires fragments != [] && forall f | f in fragments :: 0 < |f| <= 0x4000
    requires IsMessage(Joined(fragments))
    requires Delivery(Wire(minor, fragments, rest), first.sequence, Kept(late) + [first] + more)
    requires Arrived(Wire(minor, fragments, rest), first.sequence, Kept(late) + [first] + more,
                     |Wire(minor, fragments, [])|)
    ensures LateReported(late + [first] + more)
            == match Sni(Joined(fragments)) case Some(name) => [name] case None => []
  {
    hide Kept, Begins, LateReported, Reported, Delivery, Arrived, Wire, Sni, View, Run, Late;
    LateReportsTheSame(late, first, more);
    HelloIsReportedOnce(minor, fragments, rest, first.sequence, Kept(late) + [first] + more);
  }
}
