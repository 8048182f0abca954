/** The ClientHello of one QUIC connection, gathered from the CRYPTO frames of its Initial packets. */
module QuicFlow {
  import opened Bytes
  import opened Hello
  import opened PacketNumber
  import opened QuicFrames
  import opened QuicInt
  import opened QuicPacket
  import opened Reassembly
  import opened SparseBuffer
  import opened Wrappers

  datatype FlowState = FlowState(buf: seq<byte>, filled: seq<bool>, ready: nat, done: bool, largest: Option<nat>)
  {
    ghost predicate Valid() {
      |buf| == |filled| && (!done ==> FirstHole(filled, ready))
    }
  }

  function Fresh(): FlowState {
    FlowState([], [], 0, false, None)
  }

  /** The part of a piece inside the limit; a piece behind it is nothing. */
  function Clipped(p: Piece): Piece {
    if p.data == [] || p.offset >= MAX_HELLO then Piece(0, [])
    else if p.offset + |p.data| <= MAX_HELLO then p
    else Piece(p.offset, p.data[..MAX_HELLO - p.offset])
  }

  function Finished(f: FlowState): FlowState {
    f.(done := true, buf := [], filled := [])
  }

  function Written(f: FlowState, p: Piece): (r: FlowState)
    requires f.Valid() && !f.done
    ensures r.Valid() && !r.done && r.largest == f.largest
  {
    var end := p.offset + |p.data|;
    var filled := Marked(Grown(f.filled, end, false), p.offset, |p.data|);
    f.(buf := SparseBuffer.Written(Grown(f.buf, end, 0), p.offset, p.data),
       filled := filled, ready := Hole(filled, f.ready))
  }

  lemma NothingWritten(f: FlowState)
    requires f.Valid() && !f.done
    ensures Written(f, Piece(0, [])) == f.(ready := Hole(f.filled, f.ready))
  {
    assert SparseBuffer.Written(f.buf, 0, []) == f.buf;
    assert Marked(f.filled, 0, 0) == f.filled;
  }

  function Added(f: FlowState, p: Piece): (r: (FlowState, Option<string>))
    requires f.Valid() && !f.done
    ensures r.0.Valid() && r.0.largest == f.largest
  {
    var g := Written(f, Clipped(p));
    match Judged(g.buf[..g.ready])
    case NeedMore => (g, None)
    case Stop(name) => (Finished(g), name)
  }

  /** The pieces of one packet; the rest is left alone once the flow is done. */
  function AddedAll(f: FlowState, ps: seq<Piece>): (r: (FlowState, Option<string>))
    requires f.Valid()
    ensures r.0.Valid() && r.0.largest == f.largest
    decreases |ps|
  {
    if ps == [] || f.done then (f, None)
    else
      var (g, name) := Added(f, ps[0]);
      var (h, later) := AddedAll(g, ps[1..]);
      (h, later.Or(name))
  }

  // The flow refines the reassembly machine.

  ghost function View(f: FlowState): Assembly
    requires f.Valid()
  {
    if f.done then Ended else Live(CellsIn(f.buf, f.filled))
  }

  ghost predicate Settled(f: FlowState) {
    f.Valid() && (!f.done ==> Judged(f.buf[..f.ready]) == NeedMore)
  }

  lemma WrittenRefines(f: FlowState, c: Piece)
    requires f.Valid() && !f.done
    ensures var g := Written(f, c);
            && CellsIn(g.buf, g.filled) == Overlay(CellsIn(f.buf, f.filled), c)
            && g.buf[..g.ready] == Prefix(Overlay(CellsIn(f.buf, f.filled), c))
  {
    hide Grown, Marked, SparseBuffer.Written, Hole, CellsIn, Overlay, Prefix;
    var g := Written(f, c);
    WrittenCells(f.buf, f.filled, c.offset, c.data);
    PrefixIn(g.buf, g.filled, g.ready);
    assert Piece(c.offset, c.data) == c;
  }

  lemma AddedRefines(f: FlowState, p: Piece)
    requires f.Valid() && !f.done
    ensures Settled(Added(f, p).0)
    ensures (View(Added(f, p).0), Added(f, p).1) == Arrive(Judged, false, View(f), Clipped(p))
  {
    hide Judged, Written, Clipped, CellsIn, Overlay, Prefix;
    WrittenRefines(f, Clipped(p));
  }

  ghost function ClippedAll(ps: seq<Piece>): (cs: seq<Piece>)
    ensures |cs| == |ps|
  {
    seq(|ps|, i requires 0 <= i < |ps| => Clipped(ps[i]))
  }

  /** The machine after more pieces, and the names it reports for them. */
  ghost function Onward(a: Assembly, ps: seq<Piece>): (Assembly, seq<string>)
    decreases |ps|
  {
    if ps == [] then (a, [])
    else
      var (b, name) := Arrive(Judged, false, a, ps[0]);
      var (c, names) := Onward(b, ps[1..]);
      (c, Mention(name) + names)
  }

  ghost function Mention(name: Option<string>): seq<string> {
    match name case None => [] case Some(text) => [text]
  }

  lemma {:induction false} EndedStays(ps: seq<Piece>)
    ensures Onward(Ended, ps) == (Ended, [])
    decreases |ps|
  {
    if ps != [] {
      EndedStays(ps[1..]);
      assert Onward(Ended, ps).1 == [];
    }
  }

  lemma DoneIsEnded(f: FlowState)
    requires f.Valid()
    ensures f.done <==> View(f) == Ended
  {}

  /** The piece that yields a name ends the flow, so no later one does. */
  lemma OneNameOnly(f: FlowState, ps: seq<Piece>)
    requires f.Valid() && !f.done && ps != []
    ensures var first := Added(f, ps[0]);
            var others := AddedAll(first.0, ps[1..]);
            Mention(AddedAll(f, ps).1) == Mention(first.1) + Mention(others.1)
  {
    hide Judged, Written, Clipped;
  }

  lemma {:induction false} AddedAllRefines(f: FlowState, ps: seq<Piece>)
    requires Settled(f)
    ensures Settled(AddedAll(f, ps).0)
    ensures (View(AddedAll(f, ps).0), Mention(AddedAll(f, ps).1)) == Onward(View(f), ClippedAll(ps))
    decreases |ps|
  {
    hide Judged, Added, Clipped, View, Arrive;
    if f.done {
      DoneIsEnded(f);
      EndedStays(ClippedAll(ps));
    } else if ps == [] {
      assert ClippedAll(ps) == [];
    } else {
      AddedRefines(f, ps[0]);
      assert ClippedAll(ps)[1..] == ClippedAll(ps[1..]);
      AddedAllRefines(Added(f, ps[0]).0, ps[1..]);
      OneNameOnly(f, ps);
      assert ClippedAll(ps)[0] == Clipped(ps[0]);
    }
  }

  /** A report ends the machine, so there is at most one. */
  lemma {:induction false} ReportEnds(a: Assembly, ps: seq<Piece>)
    ensures Onward(a, ps).1 != [] ==> Onward(a, ps).0 == Ended
    decreases |ps|
  {
    hide Judged, Overlay, Contradicts;
    if ps != [] {
      var (b, name) := Arrive(Judged, false, a, ps[0]);
      if name.Some? {
        EndedStays(ps[1..]);
      } else {
        ReportEnds(b, ps[1..]);
      }
    }
  }

  lemma {:induction false} OnwardSplits(a: Assembly, ps: seq<Piece>, qs: seq<Piece>)
    ensures var first := Onward(a, ps);
            var second := Onward(first.0, qs);
            Onward(a, ps + qs) == (second.0, first.1 + second.1)
    decreases |ps|
  {
    hide Arrive;
    if ps == [] {
      assert ps + qs == qs;
      assert [] + Onward(a, qs).1 == Onward(a, qs).1;
    } else {
      assert (ps + qs)[1..] == ps[1..] + qs;
      var (b, name) := Arrive(Judged, false, a, ps[0]);
      OnwardSplits(b, ps[1..], qs);
      var first := Onward(b, ps[1..]);
      var second := Onward(first.0, qs);
      assert Mention(name) + (first.1 + second.1) == (Mention(name) + first.1) + second.1;
    }
  }

  lemma {:induction false} OnwardIsTheMachine(done: seq<Piece>, ps: seq<Piece>)
    ensures After(Judged, false, done + ps) == Onward(After(Judged, false, done), ps).0
    ensures Names(Judged, false, done + ps)
            == Names(Judged, false, done) + Onward(After(Judged, false, done), ps).1
    decreases |ps|
  {
    hide Judged, Arrive;
    if ps == [] {
      assert done + ps == done;
    } else {
      var next := done + [ps[0]];
      assert next[..|next| - 1] == done;
      assert done + ps == next + ps[1..];
      OnwardIsTheMachine(next, ps[1..]);
    }
  }

  lemma ClippedOf(s: seq<byte>, p: Piece)
    requires p.Of(s)
    ensures Clipped(p).Of(s)
  {
    var c := Clipped(p);
    if c.data != [] {
      SliceOfSlice(s, p.offset, p.offset + |p.data|, 0, |c.data|);
    }
  }
}
