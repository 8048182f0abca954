/** One process-only recording from start to file in which nothing goes wrong: it ends filtered. */
module CleanRecording {
  import opened Annotate
  import opened Bytes
  import Drain
  import opened DumpFile
  import opened EtwWriter
  import opened Filter
  import opened FinishedRecording
  import opened Layout
  import opened Net
  import opened Procs
  import opened Recording
  import opened RecordingProtocol
  import opened RecordingRun
  import opened Rewriting
  import opened Rows
  import opened Wrappers

  const GAME := Identity(10, 1)
  const TUPLE := ConnKey(Udp, V4(7), 40_000, V4(9), 53)
  const ROW: StoreRow := FreshRow(5, true).(pid := Some(10), ownerStarted := Some(1))
  const WANTED := Request(true, true, Some(ProcInfo(10, 1, 0, "game")), [10], {GAME}, "dump", 0)
  const SIGHTED := [Seen(TUPLE, ROW)]

  /** The start is asked for and succeeds, a poll sees the row, and the finish is asked for. */
  const STEPS := [AskStart(0, WANTED), StartEnds(0, true, 0, []), RecordingProtocol.Poll(SIGHTED, 5),
                  AskFinish(0, false, false, 6, [])]

  /** One packet is captured, applied and counted, and the wait finds it processed. */
  const PACKETS := [Drain.TrySend(0), Drain.CountSend(0), Drain.Return(0), Drain.Take(1), Drain.Apply(1),
                    Drain.CountBatch, Drain.ReadTarget, Drain.CheckProcessed]

  lemma Further(ops: seq<Op>, op: Op)
    ensures Run(ops + [op]) == Step(Run(ops), op)
    ensures Begins(Run(ops), op) ==> LastStart(ops + [op]) == Some(Beginning(Run(ops).tasks[op.id].request, op.now))
                                     && SeenSince(ops + [op]) == op.seen
    ensures !Begins(Run(ops), op) ==> LastStart(ops + [op]) == LastStart(ops)
                                      && SeenSince(ops + [op]) == SeenSince(ops) + SeenBy(Run(ops), op)
  {
    hide Step, SeenBy, Begins;
    assert (ops + [op])[..|ops|] == ops;
  }

  /** Where the run stands: the finishing task has the recorder and what was seen. */
  lemma Finishing()
    ensures Run(STEPS).tasks.Keys == {0} && Run(STEPS).tasks[0].FinishTask?
    ensures LastStart(STEPS) == Some(Beginning(WANTED, 0)) && SeenSince(STEPS) == SIGHTED
  {
    hide Run, LastStart, SeenSince, After;
    Sighted();
    var three := [STEPS[0], STEPS[1], STEPS[2]];
    Further(three, STEPS[3]);
    assert three + [STEPS[3]] == STEPS;
    assert SIGHTED + [] == SIGHTED;
  }

  lemma Sighted()
    ensures var m, ops := Run([STEPS[0], STEPS[1], STEPS[2]]), [STEPS[0], STEPS[1], STEPS[2]];
            && m.tasks == map[] && m.app.phase == RecordingProtocol.Recording && m.app.meta.Some?
            && LastStart(ops) == Some(Beginning(WANTED, 0)) && SeenSince(ops) == SIGHTED
  {
    hide Run, LastStart, SeenSince, After;
    Started();
    var two := [STEPS[0], STEPS[1]];
    Further(two, STEPS[2]);
    assert two + [STEPS[2]] == [STEPS[0], STEPS[1], STEPS[2]];
    assert [] + SIGHTED == SIGHTED;
  }

  lemma Started()
    ensures var m, ops := Run([STEPS[0], STEPS[1]]), [STEPS[0], STEPS[1]];
            && m.tasks == map[] && m.app.phase == RecordingProtocol.Recording && m.app.meta.Some?
            && LastStart(ops) == Some(Beginning(WANTED, 0)) && SeenSince(ops) == []
  {
    hide Run, LastStart, SeenSince, After;
    var one := [STEPS[0]];
    NothingYet();
    Further([], STEPS[0]);
    assert [] + [STEPS[0]] == one;
    assert Run(one).tasks == map[0 := StartTask(NO_RECORDER, WANTED)];
    Further(one, STEPS[1]);
    assert one + [STEPS[1]] == [STEPS[0], STEPS[1]];
  }

  lemma NothingYet()
    ensures Run([]) == INITIAL && LastStart([]) == None && SeenSince([]) == []
  {}

  lemma Drained()
    ensures Drain.OneSender(PACKETS) && Drain.Run(PACKETS).finisher == Drain.Drained({0})
    ensures Drain.Run(PACKETS[..0]).dropped == 0 && Drain.Run(PACKETS).dropped == 0
  {
    hide Drain.Run;
    var s := Drain.INITIAL;
    Drain.RunOfNone();
    var a := s.(queue := [0], pushed := 1, senders := map[0 := Drain.Pushed(0)]);
    var b := a.(accepted := 1, counted := {0}, senders := map[0 := Drain.Leaving]);
    var c := b.(oks := 1, senders := map[0 := Drain.Ready]);
    var d := c.(queue := [], consumer := Drain.Holding([0]));
    var e := d.(applied := [0], consumer := Drain.Done([0]));
    var f := e.(processed := 1, consumer := Drain.Waiting);
    Sends(s, a, b, c);
    Consumes(c, d, e, f);
    StepsOf(0, s, a);
    StepsOf(1, a, b);
    StepsOf(2, b, c);
    StepsOf(3, c, d);
    StepsOf(4, d, e);
    StepsOf(5, e, f);
    StepsOf(6, f, f.(finisher := Drain.WaitingFor(1, {0})));
    StepsOf(7, f.(finisher := Drain.WaitingFor(1, {0})), f.(finisher := Drain.Drained({0})));
    assert PACKETS[..8] == PACKETS;
  }

  lemma StepsOf(n: nat, s: Drain.State, t: Drain.State)
    requires n < 8 && Drain.Run(PACKETS[..n]) == s && Drain.Step(s, PACKETS[n]) == t
    ensures Drain.Run(PACKETS[..n + 1]) == t
  {
    hide Drain.Run, Drain.Step;
    Drain.Longer(PACKETS[..n], PACKETS[n]);
    assert PACKETS[..n] + [PACKETS[n]] == PACKETS[..n + 1];
  }

  lemma Sends(s: Drain.State, a: Drain.State, b: Drain.State, c: Drain.State)
    requires s == Drain.INITIAL
    requires a == s.(queue := [0], pushed := 1, senders := map[0 := Drain.Pushed(0)])
    requires b == a.(accepted := 1, counted := {0}, senders := map[0 := Drain.Leaving])
    requires c == b.(oks := 1, senders := map[0 := Drain.Ready])
    ensures Drain.Step(s, Drain.TrySend(0)) == a
    ensures Drain.Step(a, Drain.CountSend(0)) == b
    ensures Drain.Step(b, Drain.Return(0)) == c
  {}

  lemma Consumes(c: Drain.State, d: Drain.State, e: Drain.State, f: Drain.State)
    requires c.queue == [0] && c.consumer == Drain.Waiting && c.applied == [] && c.processed == 0
    requires d == c.(queue := [], consumer := Drain.Holding([0]))
    requires e == d.(applied := [0], consumer := Drain.Done([0]))
    requires f == e.(processed := 1, consumer := Drain.Waiting)
    ensures Drain.Step(c, Drain.Take(1)) == d
    ensures Drain.Step(d, Drain.Apply(1)) == e
    ensures Drain.Step(e, Drain.CountBatch) == f
  {
    assert c.queue[..1] == [0] && c.queue[1..] == [];
  }

  /** The row was taken in when it was first seen, one recorded process owned it throughout, and no limit was hit. */
  lemma OwnedThroughout()
    ensures var start := MetaOf(WANTED, 0);
            && !After(start, SIGHTED).limitReached
            && OwnedTraffic(start, SIGHTED, map[TUPLE := ROW], Some(Endpoints(Udp, V4(7), 40_000, V4(9), 53)))
  {
    hide OwnedFrom, NoneAdmitted;
    var start := MetaOf(WANTED, 0);
    var ss := [Sighting(ROW, true), Sighting(ROW, true)];
    TwoSightings();
    assert ss[0] in ss && !NoneAdmitted(ss) by { Admitted(ss); }
    OwnedRows();
  }

  lemma Admitted(ss: seq<Sighting>)
    requires ss != [] && ss[0].admitted
    ensures !NoneAdmitted(ss) && BeginsAt(ss, 0)
  {
    assert ss[0] in ss;
  }

  lemma TwoSightings()
    ensures var start := MetaOf(WANTED, 0);
            && After(start, SIGHTED) == start.(conns := map[TUPLE := ROW])
            && Sightings(start, SIGHTED, map[TUPLE := ROW], TUPLE) == [Sighting(ROW, true), Sighting(ROW, true)]
  {
    var start := MetaOf(WANTED, 0);
    assert SIGHTED[..0] == [];
    assert After(start, []) == start && SightingsIn(start, [], TUPLE) == [];
    assert SightingsIn(start, SIGHTED, TUPLE) == [] + [Sighting(ROW, true)];
  }

  lemma OwnedRows()
    ensures OwnedFrom([Sighting(ROW, true), Sighting(ROW, true)], {GAME})
  {
    var ss := [Sighting(ROW, true), Sighting(ROW, true)];
    Admitted(ss);
    assert ss[0..] == ss && RowsOf(ss) == [ROW, ROW];
    assert OneOwner([ROW, ROW], GAME);
  }

  /** What is left of a file of one frame: the section with the comment, the interfaces, the frame with its label. */
  lemma OneFrameStays(n: Known, comment: seq<byte>, parse: LinkParser, c: Capture)
    requires var parsed := parse(if c.iface == 0 then 1 else 101, c.frame); Stays(n, parsed)
    ensures var parsed, p, head := parse(if c.iface == 0 then 1 else 101, c.frame), PieceOfCapture(c), WrittenHead();
            && WrittenPieces([c]) == head + [p] && p.PacketPiece?
            && Rewritten(n, comment, parse, [], WrittenPieces([c]))
               == [Noted(head[0], comment), head[1], head[2],
                   if LabelOf(n, parsed).None? then p else Noted(p, LabelOf(n, parsed).value)]
            && Packets(WrittenPieces([c])) == 1
            && Packets(Rewritten(n, comment, parse, [], WrittenPieces([c]))) == 1
  {
    hide Stays, LabelOf, CanBeRead, CanBeWritten, Noted, Rewritten, RewrittenOne, Packets, PieceOfCapture;
    var p, head := PieceOfCapture(c), WrittenHead();
    assert [c][1..] == [] && PiecesOfCaptures([c]) == [p];
    HeadStays(n, comment, parse, p);
    Last(n, comment, parse, c);
    var last := Rewritten(n, comment, parse, [1, 101], [p])[0];
    NotedKind(head[0], comment);
    LastKind(n, comment, parse, c);
    CountFour(head[0], head[1], head[2], p);
    CountFour(Noted(head[0], comment), head[1], head[2], last);
    assert head + [p] == [head[0], head[1], head[2], p];
  }

  lemma HeadStays(n: Known, comment: seq<byte>, parse: LinkParser, p: InPiece)
    ensures var head := WrittenHead();
            Rewritten(n, comment, parse, [], head + [p])
            == [Noted(head[0], comment), head[1], head[2]] + Rewritten(n, comment, parse, [1, 101], [p])
  {
    hide Stays, LabelOf, CanBeRead, CanBeWritten, Noted, Rewritten;
    var head := WrittenHead();
    var none: seq<nat> := [];
    assert none + [1] == [1] && [1] + [101] == [1, 101];
    assert head + [p] == [head[0]] + ([head[1]] + ([head[2]] + [p]));
    First(n, comment, parse, [], head[0], [head[1]] + ([head[2]] + [p]));
    First(n, comment, parse, [], head[1], [head[2]] + [p]);
    First(n, comment, parse, [1], head[2], [p]);
  }

  lemma First(n: Known, comment: seq<byte>, parse: LinkParser, linktypes: seq<nat>, p: InPiece, ps: seq<InPiece>)
    ensures Rewritten(n, comment, parse, linktypes, [p] + ps)
            == RewrittenOne(n, comment, parse, linktypes, p)
               + Rewritten(n, comment, parse, TypesAfter(linktypes, p), ps)
  {
    hide RewrittenOne;
    assert ([p] + ps)[1..] == ps;
  }

  lemma CountFour(a: OutPiece, b: OutPiece, c: OutPiece, d: OutPiece)
    requires !a.PacketPiece? && !b.PacketPiece? && !c.PacketPiece? && d.PacketPiece?
    ensures Packets([a, b, c, d]) == 1
  {
    hide Packets, CanBeWritten;
    CountFirst(a, [b] + ([c] + ([d] + [])));
    CountFirst(b, [c] + ([d] + []));
    CountFirst(c, [d] + []);
    CountFirst(d, []);
    assert [a, b, c, d] == [a] + ([b] + ([c] + ([d] + [])));
  }

  lemma CountFirst(p: OutPiece, ps: seq<OutPiece>)
    ensures Packets([p] + ps) == (if p.PacketPiece? then 1 else 0) + Packets(ps) && Packets([]) == 0
  {
    hide CanBeWritten;
    assert ([p] + ps)[1..] == ps;
  }

  lemma LastKind(n: Known, comment: seq<byte>, parse: LinkParser, c: Capture)
    requires var parsed := parse(if c.iface == 0 then 1 else 101, c.frame); Stays(n, parsed)
    ensures var last := Rewritten(n, comment, parse, [1, 101], [PieceOfCapture(c)]); |last| == 1 && last[0].PacketPiece?
  {
    hide Stays, LabelOf, Rewritten, Noted;
    Last(n, comment, parse, c);
    var parsed := parse(if c.iface == 0 then 1 else 101, c.frame);
    if LabelOf(n, parsed).Some? { NotedKind(PieceOfCapture(c), LabelOf(n, parsed).value); }
  }

  lemma Last(n: Known, comment: seq<byte>, parse: LinkParser, c: Capture)
    requires var parsed := parse(if c.iface == 0 then 1 else 101, c.frame); Stays(n, parsed)
    ensures var parsed, p := parse(if c.iface == 0 then 1 else 101, c.frame), PieceOfCapture(c);
            && p.PacketPiece?
            && Rewritten(n, comment, parse, [1, 101], [p])
               == [if LabelOf(n, parsed).None? then p else Noted(p, LabelOf(n, parsed).value)]
  {
    hide Stays, LabelOf, CanBeRead, CanBeWritten, WithNote;
    var p := PieceOfCapture(c);
    assert [p][1..] == [];
    assert Parsed(parse, [1, 101], p) == parse(if c.iface == 0 then 1 else 101, c.frame);
  }

  /** The file of one frame after the pass. */
  function Signed(c: Capture, comment: seq<byte>, signature: Option<seq<byte>>): seq<OutPiece> {
    var head, p := WrittenHead(), PieceOfCapture(c);
    CaptureIsPacket(c);
    [Noted(head[0], comment), head[1], head[2], if signature.None? then p else Noted(p, signature.value)]
  }

  /** A recording in which nothing goes wrong ends filtered: the one packet captured, of a row that the recorded
      process owned, is in the file with its label, and is counted. */
  lemma CleanRunIsFiltered(caption: Captions, comment: seq<byte>, parse: LinkParser, c: Capture)
    returns (ops: seq<Op>, capture: seq<Drain.Op>, rows: StoreRows)
    requires parse(if c.iface == 0 then 1 else 101, c.frame) == Some(Endpoints(Udp, V4(7), 40_000, V4(9), 53))
    ensures 0 in Run(ops).tasks && Run(ops).tasks[0].FinishTask?
    ensures LastStart(ops).Some? && LastStart(ops).value.request.filtered
    ensures Accounts(capture, 0, LastStart(ops).value.request.dropped, true, 0)
    ensures var done := FinishedBy(ops, 0, true, 0, true);
            && done.path == Some("dump") && done.meta.Some?
            && var r := Process(PlanOf(done.meta.value, rows, caption, comment), parse, done.complete,
                                FileBytes(WrittenPieces([c])));
               && !r.unfiltered && r.stats.Some? && r.stats.value.packets == 1 && r.stats.value.kept == 1
               && r.file == FileBytes(Signed(c, comment, caption(None, Some(10), None)))
  {
    hide Run, LastStart, SeenSince, After, PlanOf, Drain.Run, Drain.OneSender, FileBytes, Rewritten, Packets, Labelled,
      Process, FinishedBy, Noted, WrittenPieces, PieceOfCapture, WrittenHead, OwnedTraffic, Drain.Step;
    ops, capture, rows := STEPS, PACKETS, map[TUPLE := ROW];
    Finishing();
    Drained();
    OwnedThroughout();
    var n := Known(MetaOf(WANTED, 0), SIGHTED, rows, caption);
    assert 0 in Run(ops).tasks.Keys;
    OneFrameStays(n, comment, parse, c);
    RowsLabel(n);
    FileBegins(c);
    CompleteIff(ops, 0, true, capture, 0, true, 0);
    FinishedFile(ops, 0, true, capture, 0, true, 0, rows, caption, comment, parse, WrittenPieces([c]));
  }

  lemma FileBegins(c: Capture)
    ensures WrittenPieces([c]) != [] && WrittenPieces([c])[0].SectionPiece?
  {
    hide CanBeRead, CanBeWritten, PieceOfCapture;
  }

  lemma RowsLabel(n: Known)
    requires n.m == MetaOf(WANTED, 0) && n.events == SIGHTED && n.rows == map[TUPLE := ROW]
    ensures LabelOf(n, Some(Endpoints(Udp, V4(7), 40_000, V4(9), 53))) == n.caption(None, Some(10), None)
  {
    hide Sightings, After;
    TwoSightings();
    var ss := [Sighting(ROW, true), Sighting(ROW, true)];
    assert Counted(ss) == RowsOf(ss) == [ROW, ROW];
    assert Undisputed([ROW, ROW]);
  }
}
