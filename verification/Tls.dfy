/** Bounded assembly of the beginning of one direction of a TCP stream, for the TLS ClientHello. */
module Tls {
  import opened Bytes
  import opened ClientHello
  import opened Hello
  import opened Reassembly
  import opened SparseBuffer
  import opened Wrappers

  const MAX_STREAM := 32 * 1024
  const MAX_PENDING := 16
  const HANDSHAKE: byte := 0x16

  // The record parser.

  /** Gathers handshake bytes out of the records of `b` until the first message is complete. */
  function Scan(b: seq<byte>, hello: seq<byte>): Report
    requires |hello| <= MAX_HELLO
  {
    if |b| < 5 then NeedMore
    else if b[0] != HANDSHAKE || b[1] != 3 then Stop(None)
    else
      var size := Be16(b[3], b[4]);
      if size == 0 || size > MAX_HELLO || |hello| + size > MAX_HELLO then Stop(None)
      else if 5 + size > |b| then NeedMore
      else
        var gathered := hello + b[5..5 + size];
        match Judged(gathered)
        case Stop(name) => Stop(name)
        case NeedMore => Scan(b[5 + size..], gathered)
  }

  function Records(b: seq<byte>): Report {
    Scan(b, [])
  }

  lemma {:induction false} ScanExtends(p: seq<byte>, q: seq<byte>, hello: seq<byte>)
    requires |hello| <= MAX_HELLO && p <= q && Scan(p, hello).Stop?
    ensures Scan(q, hello) == Scan(p, hello)
    decreases |p|
  {
    hide Judged;
    if p[0] == HANDSHAKE && p[1] == 3 {
      var size := Be16(p[3], p[4]);
      if 0 < size && |hello| + size <= MAX_HELLO && 5 + size <= |p| {
        assert p[5..5 + size] == q[5..5 + size];
        assert p[5 + size..] <= q[5 + size..];
        var gathered := hello + p[5..5 + size];
        if Judged(gathered).NeedMore? {
          ScanExtends(p[5 + size..], q[5 + size..], gathered);
        }
      }
    }
  }

  lemma RecordsStable()
    ensures Stable(Records)
  {
    forall p, q | p <= q && Records(p).Stop?
      ensures Records(q) == Records(p)
    {
      ScanExtends(p, q, []);
    }
  }

  function Record(minor: byte, fragment: seq<byte>): seq<byte>
    requires |fragment| < TWO16
  {
    [0x16, 3, minor] + ToBe16(|fragment|) + fragment
  }

  /** A message cut into records of any sizes, after which anything may follow. */
  function Wire(minor: byte, fragments: seq<seq<byte>>, rest: seq<byte>): seq<byte>
    requires forall f | f in fragments :: 0 < |f| <= 0x4000
  {
    if fragments == [] then rest else
      assert fragments[0] in fragments;
      Record(minor, fragments[0]) + Wire(minor, fragments[1..], rest)
  }

  function Joined(fragments: seq<seq<byte>>): seq<byte> {
    if fragments == [] then [] else fragments[0] + Joined(fragments[1..])
  }

  lemma ScanRecord(minor: byte, f: seq<byte>, tail: seq<byte>, hello: seq<byte>)
    requires 0 < |f| && |hello| + |f| <= MAX_HELLO
    ensures Scan(Record(minor, f) + tail, hello)
            == if Judged(hello + f).Stop? then Judged(hello + f) else Scan(tail, hello + f)
  {
    var b := Record(minor, f) + tail;
    assert b[5..5 + |f|] == f && b[5 + |f|..] == tail;
  }

  /** However a ClientHello is cut into records, the record parser reads the message itself. */
  lemma {:induction false} ScanOfWire(minor: byte, fragments: seq<seq<byte>>, rest: seq<byte>, hello: seq<byte>)
    requires forall f | f in fragments :: 0 < |f| <= 0x4000
    requires IsMessage(hello + Joined(fragments)) && fragments != []
    ensures Scan(Wire(minor, fragments, rest), hello) == Stop(Sni(hello + Joined(fragments)))
    decreases |fragments|
  {
    var f, others := fragments[0], fragments[1..];
    assert f in fragments;
    var gathered := hello + f;
    var all := hello + Joined(fragments);
    assert all == gathered + Joined(others);
    ScanRecord(minor, f, Wire(minor, others, rest), hello);
    assert all[..|gathered|] == gathered;
    if others != [] {
      JoinedNonempty(others);
      MessageIncomplete(all, |gathered|);
      ScanOfWire(minor, others, rest, gathered);
    } else {
      assert all == gathered;
    }
  }

  lemma JoinedNonempty(fragments: seq<seq<byte>>)
    requires fragments != [] && forall f | f in fragments :: 0 < |f|
    ensures |Joined(fragments)| > 0
  {
    assert fragments[0] in fragments;
  }

  // The flow.

  datatype FlowState = FlowState(base: Option<nat>, pending: seq<(nat, seq<byte>)>, buf: seq<byte>,
                                 filled: seq<bool>, ready: nat, done: bool)
  {
    ghost predicate Valid() {
      |buf| == |filled| && (!done ==> FirstHole(filled, ready))
    }
  }

  function Finished(f: FlowState): FlowState {
    f.(done := true, pending := [], buf := [], filled := [])
  }

  function Offset(sequence: nat, base: nat): nat {
    (sequence - base) % TWO32
  }

  predicate Fits(offset: nat, data: seq<byte>) {
    offset < MAX_STREAM && |data| <= MAX_STREAM - offset
  }

  function Placed(f: FlowState, sequence: nat, data: seq<byte>): (r: FlowState)
    requires f.Valid()
    ensures r.Valid() && r.base == f.base && (f.done ==> r.done)
  {
    if f.base.None? || !Fits(Offset(sequence, f.base.value), data) then f
    else
      var o := Offset(sequence, f.base.value);
      var buf := Grown(f.buf, o + |data|, 0);
      var filled := Grown(f.filled, o + |data|, false);
      if Clash(buf, filled, o, data) then Finished(f)
      else
        var marked := Marked(filled, o, |data|);
        f.(buf := Written(buf, o, data), filled := marked, ready := Hole(marked, f.ready))
  }

  function PlacedAll(f: FlowState, segments: seq<(nat, seq<byte>)>): (r: FlowState)
    requires f.Valid()
    ensures r.Valid() && r.base == f.base
    decreases |segments|
  {
    if segments == [] then f
    else PlacedAll(Placed(f, segments[0].0, segments[0].1), segments[1..])
  }

  function Held(pending: seq<(nat, seq<byte>)>): nat {
    if pending == [] then 0 else Held(pending[..|pending| - 1]) + |pending[|pending| - 1].1|
  }

  /** The flow after its base is known: a first segment that starts a handshake record sets it. */
  function Based(f: FlowState, sequence: nat): (r: FlowState)
    requires f.Valid()
    ensures r.Valid()
  {
    if f.base.Some? then f
    else PlacedAll(f.(base := Some(sequence), pending := []), f.pending)
  }

  function Added(f: FlowState, sequence: nat, data: seq<byte>): (r: (FlowState, Option<string>))
    requires f.Valid()
    ensures r.0.Valid()
  {
    if f.done || data == [] || |data| > MAX_STREAM then (f, None)
    else if f.base.None? && data[0] != HANDSHAKE then
      (if |f.pending| < MAX_PENDING && Held(f.pending) + |data| <= MAX_STREAM
       then f.(pending := f.pending + [(sequence, data)]) else f,
       None)
    else
      var g := Placed(Based(f, sequence), sequence, data);
      if g.done then (g, None)
      else
        match Records(g.buf[..g.ready])
        case NeedMore => (g, None)
        case Stop(name) => (Finished(g), name)
  }

  // The flow refines the reassembly machine.

  ghost function CellsOf(f: FlowState): Cells
    requires |f.buf| == |f.filled|
  {
    CellsIn(f.buf, f.filled)
  }

  ghost function View(f: FlowState): Assembly
    requires f.Valid()
  {
    if f.done then Ended else Live(CellsOf(f))
  }

  /** The parser has been asked about everything that is in the buffer. */
  ghost predicate Settled(f: FlowState) {
    f.Valid() && (!f.done ==> Records(f.buf[..f.ready]) == NeedMore)
  }

  /** What a segment means to a flow: a piece of the stream, or nothing when it is out of the window. */
  ghost function PieceOf(base: nat, sequence: nat, data: seq<byte>): Piece {
    if Fits(Offset(sequence, base), data) then Piece(Offset(sequence, base), data) else Piece(0, [])
  }

  lemma PrefixOf(f: FlowState)
    requires f.Valid() && !f.done
    ensures Prefix(CellsOf(f)) == f.buf[..f.ready]
  {
    PrefixIn(f.buf, f.filled, f.ready);
  }

  lemma PlacedRefines(f: FlowState, sequence: nat, data: seq<byte>)
    requires f.Valid() && !f.done && f.base.Some? && Fits(Offset(sequence, f.base.value), data)
    ensures var p := Piece(Offset(sequence, f.base.value), data);
            var r := Placed(f, sequence, data);
            && (r.done <==> Contradicts(CellsOf(f), p))
            && (!r.done ==> CellsOf(r) == Overlay(CellsOf(f), p))
  {
    var o := Offset(sequence, f.base.value);
    ClashIsContradiction(f.buf, f.filled, o, data);
    if !Placed(f, sequence, data).done {
      PlacedCells(f, sequence, data);
    }
  }

  lemma PlacedCells(f: FlowState, sequence: nat, data: seq<byte>)
    requires f.Valid() && !f.done && f.base.Some? && Fits(Offset(sequence, f.base.value), data)
    requires !Placed(f, sequence, data).done
    ensures CellsOf(Placed(f, sequence, data))
            == Overlay(CellsOf(f), Piece(Offset(sequence, f.base.value), data))
  {
    WrittenCells(f.buf, f.filled, Offset(sequence, f.base.value), data);
  }

  /** With its base known, a flow takes a segment exactly as the strict reassembly machine takes the piece. */
  lemma AddedRefines(f: FlowState, sequence: nat, data: seq<byte>)
    requires Settled(f) && f.base.Some?
    ensures var r := Added(f, sequence, data);
            && Settled(r.0) && r.0.base == f.base
            && (View(r.0), r.1) == Arrive(Records, true, View(f), PieceOf(f.base.value, sequence, data))
  {
    hide Records, Clash, Grown, Written, Marked, Hole;
    if !f.done {
      var p := PieceOf(f.base.value, sequence, data);
      PrefixOf(f);
      if !Fits(Offset(sequence, f.base.value), data) || data == [] {
        assert Overlay(CellsOf(f), p) == CellsOf(f);
      } else {
        PlacedRefines(f, sequence, data);
        var g := Placed(f, sequence, data);
        if !g.done {
          PrefixOf(g);
        }
      }
    }
  }

  // Whole runs of a flow whose base is known from its SYN.

  datatype Segment = Segment(sequence: nat, data: seq<byte>)

  function Fresh(base: Option<nat>): FlowState {
    FlowState(base, [], [], [], 0, false)
  }

  ghost function Run(base: nat, segments: seq<Segment>): (f: FlowState)
    ensures f.Valid()
  {
    if segments == [] then Fresh(Some(base)) else
      var last := segments[|segments| - 1];
      Added(Run(base, segments[..|segments| - 1]), last.sequence, last.data).0
  }

  ghost function Reported(base: nat, segments: seq<Segment>): seq<string> {
    if segments == [] then [] else
      var last := segments[|segments| - 1];
      var init := segments[..|segments| - 1];
      Reported(base, init)
      + match Added(Run(base, init), last.sequence, last.data).1 case None => [] case Some(name) => [name]
  }

  ghost function Pieces(base: nat, segments: seq<Segment>): (ps: seq<Piece>)
    ensures |ps| == |segments|
  {
    seq(|segments|, i requires 0 <= i < |segments| => PieceOf(base, segments[i].sequence, segments[i].data))
  }

  lemma {:induction false} RunRefines(base: nat, segments: seq<Segment>)
    ensures Settled(Run(base, segments)) && Run(base, segments).base == Some(base)
    ensures View(Run(base, segments)) == After(Records, true, Pieces(base, segments))
    ensures Reported(base, segments) == Names(Records, true, Pieces(base, segments))
  {
    hide Added, PieceOf, View, Arrive, Settled;
    if segments == [] {
      FreshRefines(base);
    } else {
      var n := |segments| - 1;
      RunRefines(base, segments[..n]);
      AddedRefines(Run(base, segments[..n]), segments[n].sequence, segments[n].data);
      assert Pieces(base, segments)[..n] == Pieces(base, segments[..n]);
    }
  }

  lemma FreshRefines(base: nat)
    ensures Settled(Fresh(Some(base))) && View(Fresh(Some(base))) == Live(map[])
  {
    assert CellsOf(Fresh(Some(base))) == map[];
  }

  /** The segment is the slice of stream `s` at some offset, numbered from `base` modulo 2^32. */
  ghost predicate Carries(s: seq<byte>, base: nat, segment: Segment) {
    exists o: nat :: Slice(s, base, segment, o)
  }

  ghost predicate Slice(s: seq<byte>, base: nat, segment: Segment, o: nat) {
    && segment.sequence == (base + o) % TWO32
    && o + |segment.data| <= |s| && s[o..o + |segment.data|] == segment.data
  }

  ghost predicate Delivery(s: seq<byte>, base: nat, segments: seq<Segment>) {
    |s| < TWO32 && forall g | g in segments :: Carries(s, base, g)
  }

  /** Sequence numbers wrap, offsets do not. */
  lemma OffsetUndoesWrap(base: nat, o: nat)
    requires o < 0x1_0000_0000
    ensures Offset((base + o) % 0x1_0000_0000, base) == o
  {
    var k := (base + o) / TWO32;
    assert (base + o) % TWO32 - base == o - k * TWO32;
  }

  /** What a slice of the stream means to the flow: exactly its bytes, if it ends within the first 32 KiB, and
      nothing otherwise. */
  lemma SliceIsPiece(s: seq<byte>, base: nat, g: Segment, o: nat)
    requires |s| < TWO32 && Slice(s, base, g, o) && g.data != []
    ensures PieceOf(base, g.sequence, g.data) == if o + |g.data| <= 0x8000 then Piece(o, g.data) else Piece(0, [])
  {
    OffsetUndoesWrap(base, o);
  }

  /** The first `n` bytes of the stream have come: each in some slice that ends within the first 32 KiB. */
  ghost predicate Arrived(s: seq<byte>, base: nat, segments: seq<Segment>, n: nat) {
    forall i: nat | i < n :: ArrivedAt(s, base, segments, i)
  }

  ghost predicate ArrivedAt(s: seq<byte>, base: nat, segments: seq<Segment>, i: nat) {
    exists g, o: nat :: g in segments && Slice(s, base, g, o) && o <= i < o + |g.data| <= 0x8000
  }

  lemma {:induction false} CoveredBy(ps: seq<Piece>, j: nat, i: nat)
    requires j < |ps| && ps[j].Covers(i)
    ensures i in Covered(ps)
    decreases |ps|
  {
    if j < |ps| - 1 { CoveredBy(ps[..|ps| - 1], j, i); }
  }

  lemma ArrivedIsCovered(s: seq<byte>, base: nat, segments: seq<Segment>, n: nat)
    requires |s| < TWO32 && Arrived(s, base, segments, n)
    ensures forall i: nat | i < n :: i in Covered(Pieces(base, segments))
  {
    hide Slice, PieceOf, Covered;
    forall i: nat | i < n
      ensures i in Covered(Pieces(base, segments))
    {
      assert ArrivedAt(s, base, segments, i);
      var g, o: nat :| g in segments && Slice(s, base, g, o) && o <= i < o + |g.data| <= 0x8000;
      var j :| 0 <= j < |segments| && segments[j] == g;
      SliceIsPiece(s, base, g, o);
      CoveredBy(Pieces(base, segments), j, i);
    }
  }

  lemma DeliveryPieces(s: seq<byte>, base: nat, segments: seq<Segment>)
    requires Delivery(s, base, segments)
    ensures AllOf(s, Pieces(base, segments))
  {
    forall p | p in Pieces(base, segments)
      ensures p.Of(s)
    {
      var i :| 0 <= i < |segments| && p == PieceOf(base, segments[i].sequence, segments[i].data);
      var g := segments[i];
      assert g in segments;
      var o: nat :| Slice(s, base, g, o);
      OffsetUndoesWrap(base, o);
    }
  }

  /** Every delivery of a stream reports the parser's verdict on the received prefix, once; hence
      two deliveries that cover the same bytes report the same. */
  lemma DeliveryVerdict(s: seq<byte>, base: nat, segments: seq<Segment>)
    requires Delivery(s, base, segments)
    ensures AllOf(s, Pieces(base, segments))
    ensures Reported(base, segments)
            == match Records(Received(s, Pieces(base, segments))) case Stop(Some(name)) => [name] case _ => []
  {
    DeliveryPieces(s, base, segments);
    RunRefines(base, segments);
    RecordsStable();
    NamesAreTheVerdict(Records, true, s, Pieces(base, segments));
  }

  lemma OrderDoesNotMatter(s: seq<byte>, base: nat, one: seq<Segment>, other: seq<Segment>)
    requires Delivery(s, base, one) && Delivery(s, base, other)
    requires Covered(Pieces(base, one)) == Covered(Pieces(base, other))
    ensures Reported(base, one) == Reported(base, other)
    ensures View(Run(base, one)) == View(Run(base, other))
  {
    DeliveryPieces(s, base, one);
    DeliveryPieces(s, base, other);
    RunRefines(base, one);
    RunRefines(base, other);
    RecordsStable();
    OrderIndependent(Records, true, s, Pieces(base, one), Pieces(base, other));
  }

  /** End to end: a ClientHello cut into records, the records into segments delivered in any order,
      repeated and overlapping: once all its bytes have come, in segments that end within the first 32 KiB, its
      name has been reported exactly once. */
  lemma HelloIsReportedOnce(minor: byte, fragments: seq<seq<byte>>, rest: seq<byte>, base: nat,
                            segments: seq<Segment>)
    requires fragments != [] && forall f | f in fragments :: 0 < |f| <= 0x4000
    requires IsMessage(Joined(fragments))
    requires Delivery(Wire(minor, fragments, rest), base, segments)
    requires Arrived(Wire(minor, fragments, rest), base, segments, |Wire(minor, fragments, [])|)
    ensures Reported(base, segments)
            == match Sni(Joined(fragments)) case Some(name) => [name] case None => []
  {
    var s := Wire(minor, fragments, rest);
    var ps := Pieces(base, segments);
    DeliveryVerdict(s, base, segments);
    ArrivedIsCovered(s, base, segments, |Wire(minor, fragments, [])|);
    CoveredInside(s, ps);
    var whole := Wire(minor, fragments, []);
    WireSplits(minor, fragments, rest);
    assert |whole| <= Gap(Covered(ps), 0);
    assert whole <= Received(s, ps);
    assert [] + Joined(fragments) == Joined(fragments);
    ScanOfWire(minor, fragments, [], []);
    ScanExtends(whole, Received(s, ps), []);
  }

  lemma {:induction false} WireSplits(minor: byte, fragments: seq<seq<byte>>, rest: seq<byte>)
    requires forall f | f in fragments :: 0 < |f| <= 0x4000
    ensures Wire(minor, fragments, rest) == Wire(minor, fragments, []) + rest
    decreases |fragments|
  {
    if fragments != [] {
      assert fragments[0] in fragments;
      WireSplits(minor, fragments[1..], rest);
    }
  }

  /** After two segments that disagree on a byte of the stream, the flow reports nothing any more. */
  lemma SilentAfterConflict(base: nat, segments: seq<Segment>, a: nat, b: nat, i: nat, k: nat)
    requires a < b <= k < |segments|
    requires var ps := Pieces(base, segments);
             ps[a].Covers(i) && ps[b].Covers(i) && ps[a].At(i) != ps[b].At(i)
    ensures Added(Run(base, segments[..k]), segments[k].sequence, segments[k].data).1 == None
  {
    SilentAfterContradiction(Records, Pieces(base, segments), a, b, i, k);
    RunRefines(base, segments[..k]);
    AddedRefines(Run(base, segments[..k]), segments[k].sequence, segments[k].data);
    assert Pieces(base, segments)[..k] == Pieces(base, segments[..k]);
  }
}
