/**
 What becomes of the bytes of a recording, of one process or of all traffic: the reference says of every block of
 the file, from what was seen of its tuple, whether it stays and what label it gets.
 */
module Rewriting {
  import opened Annotate
  import opened Bytes
  import opened DumpFile
  import opened Filter
  import opened Layout
  import opened Net
  import opened Pcapng
  import opened Recording
  import opened RecordingRun
  import opened Wrappers

  /** How the recording began, what it saw, and the history at its end. */
  datatype Known = Known(m: Meta, events: seq<Event>, rows: StoreRows, caption: Captions)

  /** A process-only recording keeps what one recorded process owned; any other keeps everything. */
  ghost predicate Stays(n: Known, parsed: Option<Endpoints>) {
    n.m.onlyGroup ==> OwnedTraffic(n.m, n.events, n.rows, parsed)
  }

  /** The label of a tuple: process and domain as last seen; with any doubt among several sightings that count, the
      domain alone. */
  ghost function TupleLabel(n: Known, k: ConnKey): Option<seq<byte>>
    requires Counted(Sightings(n.m, n.events, n.rows, k)) != []
  {
    var h := Counted(Sightings(n.m, n.events, n.rows, k));
    var last := h[|h| - 1];
    if |h| == 1 || Undisputed(h) then n.caption(last.pname, last.pid, last.domain)
    else n.caption(None, None, last.domain)
  }

  /** The label of a frame is that of its tuple as sent, else as received; there is none without a sighting. */
  ghost function LabelOf(n: Known, parsed: Option<Endpoints>): Option<seq<byte>> {
    match parsed
    case None => None
    case Some(Endpoints(proto, src, sport, dst, dport)) =>
      var sent, received := ConnKey(proto, src, sport, dst, dport), ConnKey(proto, dst, dport, src, sport);
      if Counted(Sightings(n.m, n.events, n.rows, sent)) != [] then TupleLabel(n, sent)
      else if Counted(Sightings(n.m, n.events, n.rows, received)) != [] then TupleLabel(n, received)
      else None
  }

  /** Interfaces count from the section header on; an unknown one is Ethernet. */
  function TypesAfter(linktypes: seq<nat>, p: Piece): seq<nat> {
    match p
    case SectionPiece(_, _) => []
    case InterfacePiece(linktype, _) => linktypes + [linktype]
    case _ => linktypes
  }

  function Parsed(parse: LinkParser, linktypes: seq<nat>, p: Piece): Option<Endpoints>
    requires p.PacketPiece?
  {
    parse(if p.iface < |linktypes| then linktypes[p.iface] else 1, p.frame)
  }

  function Noted(p: InPiece, text: seq<byte>): OutPiece
    requires p.SectionPiece? || p.PacketPiece?
  {
    NoteInFront(p, text);
    WithNote(p, text)
  }

  ghost function RewrittenOne(n: Known, comment: seq<byte>, parse: LinkParser, linktypes: seq<nat>, p: InPiece)
    : seq<OutPiece>
  {
    match p
    case SectionPiece(_, _) => [Noted(p, comment)]
    case PacketPiece(_, _, _, _, _) =>
      var parsed := Parsed(parse, linktypes, p);
      if !Stays(n, parsed) then []
      else if LabelOf(n, parsed).None? then [p]
      else [Noted(p, LabelOf(n, parsed).value)]
    case _ => [p]
  }

  ghost function Rewritten(n: Known, comment: seq<byte>, parse: LinkParser, linktypes: seq<nat>, ps: seq<InPiece>)
    : seq<OutPiece>
    decreases |ps|
  {
    if ps == [] then []
    else
      RewrittenOne(n, comment, parse, linktypes, ps[0])
      + Rewritten(n, comment, parse, TypesAfter(linktypes, ps[0]), ps[1..])
  }

  function Packets(ps: seq<OutPiece>): nat {
    if ps == [] then 0 else (if ps[0].PacketPiece? then 1 else 0) + Packets(ps[1..])
  }

  /** How many packets of the file stay with a label. */
  ghost function Labelled(n: Known, parse: LinkParser, linktypes: seq<nat>, ps: seq<InPiece>): nat
    decreases |ps|
  {
    if ps == [] then 0
    else
      (if ps[0].PacketPiece? && Stays(n, Parsed(parse, linktypes, ps[0]))
          && LabelOf(n, Parsed(parse, linktypes, ps[0])).Some? then 1 else 0)
      + Labelled(n, parse, TypesAfter(linktypes, ps[0]), ps[1..])
  }

  /** The plan of a recording judges a frame by what was seen of its tuple. */
  lemma {:induction false} JudgedAs(n: Known, comment: seq<byte>, parse: LinkParser, linktype: nat, frame: seq<byte>)
    requires n.m.conns == map[]
    ensures PlanOf(After(n.m, n.events), n.rows, n.caption, comment).Judge(parse, linktype, frame)
            == (Stays(n, parse(linktype, frame)), LabelOf(n, parse(linktype, frame)))
  {
    hide PlanOf, After, Sightings, Counted, OwnedTraffic, TupleLabel;
    var parsed := parse(linktype, frame);
    if n.m.onlyGroup {
      KeptIff(n.m, n.events, n.rows, n.caption, comment, parse, linktype, frame);
    }
    if parsed.Some? {
      var p := parsed.value;
      RowLabel(n, comment, ConnKey(p.proto, p.src, p.sport, p.dst, p.dport));
      RowLabel(n, comment, ConnKey(p.proto, p.dst, p.dport, p.src, p.sport));
    } else {
      RowLabel(n, comment, ConnKey(Tcp, V4(0), 0, V4(0), 0));
    }
  }

  lemma RowLabel(n: Known, comment: seq<byte>, k: ConnKey)
    requires n.m.conns == map[]
    ensures var plan := PlanOf(After(n.m, n.events), n.rows, n.caption, comment);
            var h := Counted(Sightings(n.m, n.events, n.rows, k));
            && plan.onlyGroup == n.m.onlyGroup
            && (k in plan.owners <==> h != [])
            && (h != [] ==> plan.owners[k].caption == TupleLabel(n, k))
  {
    hide PlanOf, After, Sightings, Counted, Undisputed, Owns;
    PlanRow(n.m, n.events, n.rows, n.caption, comment, k);
    HistoryIsCounted(n.m, n.events, n.rows, k);
    var h := Counted(Sightings(n.m, n.events, n.rows, k));
    if h != [] { FoldedIff(h); }
  }

  // The pass.

  ghost predicate Judged(n: Known, plan: Plan, parse: LinkParser) {
    forall linktype, frame ::
      plan.Judge(parse, linktype, frame) == (Stays(n, parse(linktype, frame)), LabelOf(n, parse(linktype, frame)))
  }

  lemma PassOnSection(plan: Plan, parse: LinkParser, st: Scan, p: InPiece)
    requires p.SectionPiece?
    ensures OnBlock(plan, parse, st, BlockOf(p))
            == Success((Scan([], true, st.stats), Some(BlockOf(Noted(p, plan.comment)))))
  {
    hide Body, Le32, WithNote, WithComment, Fixed;
    SectionFields(p);
    FixedAligned(p);
    NoteInFront(p, plan.comment);
  }

  lemma PassOnPacket(n: Known, plan: Plan, parse: LinkParser, st: Scan, p: InPiece)
    requires p.PacketPiece? && Judged(n, plan, parse)
    ensures var parsed := Parsed(parse, st.linktypes, p);
            var r := OnBlock(plan, parse, st, BlockOf(p));
            && r.Success? && BlocksOf(RewrittenOne(n, plan.comment, parse, st.linktypes, p)) == Filter.Listed(r.value.1)
            && r.value.0.linktypes == st.linktypes && r.value.0.sawHeader == st.sawHeader
            && r.value.0.stats.packets == st.stats.packets + 1
            && r.value.0.stats.kept == st.stats.kept + (if Stays(n, parsed) then 1 else 0)
            && r.value.0.stats.labeled
               == st.stats.labeled + if Stays(n, parsed) && LabelOf(n, parsed).Some? then 1 else 0
  {
    hide Body, Le32, WithNote, WithComment, Fixed, FixedLen, Frame, Stays, LabelOf, BlocksOf;
    PacketPieceFields(p);
    var parsed := Parsed(parse, st.linktypes, p);
    assert plan.Judge(parse, LinkType(st.linktypes, Body(p)), p.frame) == (Stays(n, parsed), LabelOf(n, parsed));
    BlocksOfFew(p);
    if LabelOf(n, parsed).Some? {
      NoteInFront(p, LabelOf(n, parsed).value);
      BlocksOfFew(Noted(p, LabelOf(n, parsed).value));
    }
  }

  lemma PassOnOther(plan: Plan, parse: LinkParser, st: Scan, p: InPiece)
    requires p.InterfacePiece? || p.OtherPiece?
    ensures OnBlock(plan, parse, st, BlockOf(p))
            == Success((st.(linktypes := TypesAfter(st.linktypes, p)), Some(BlockOf(p))))
  {
    hide Le32, Le16;
    if p.InterfacePiece? {
      assert Body(p)[0] == ToLe16(p.linktype)[0] && Body(p)[1] == ToLe16(p.linktype)[1];
    }
  }

  lemma PassOnPiece(n: Known, plan: Plan, parse: LinkParser, st: Scan, p: InPiece)
    requires Judged(n, plan, parse)
    ensures var r := OnBlock(plan, parse, st, BlockOf(p));
            && r.Success? && BlocksOf(RewrittenOne(n, plan.comment, parse, st.linktypes, p)) == Filter.Listed(r.value.1)
            && r.value.0.linktypes == TypesAfter(st.linktypes, p)
            && r.value.0.sawHeader == (st.sawHeader || p.SectionPiece?)
            && r.value.0.stats.packets == st.stats.packets + Packets([p])
            && r.value.0.stats.kept
               == st.stats.kept + Packets(RewrittenOne(n, plan.comment, parse, st.linktypes, p))
            && r.value.0.stats.labeled == st.stats.labeled + Labelled(n, parse, st.linktypes, [p])
  {
    hide OnBlock, Body, BlockOf, BlocksOf, Noted, Stays, LabelOf, WithNote, Judged;
    var out := RewrittenOne(n, plan.comment, parse, st.linktypes, p);
    assert [p][1..] == [] && (out != [] ==> out == [out[0]] && out[1..] == []);
    BlocksOfFew(p);
    if p.SectionPiece? {
      PassOnSection(plan, parse, st, p);
      BlocksOfFew(Noted(p, plan.comment));
      NotedKind(p, plan.comment);
    } else if p.PacketPiece? {
      PassOnPacket(n, plan, parse, st, p);
      if LabelOf(n, Parsed(parse, st.linktypes, p)).Some? {
        NotedKind(p, LabelOf(n, Parsed(parse, st.linktypes, p)).value);
      }
    } else {
      PassOnOther(plan, parse, st, p);
    }
  }

  lemma NotedKind(p: InPiece, text: seq<byte>)
    requires p.SectionPiece? || p.PacketPiece?
    ensures Noted(p, text).PacketPiece? <==> p.PacketPiece?
  {
    hide Body;
  }

  lemma PacketsSum(ps: seq<OutPiece>, qs: seq<OutPiece>)
    requires |ps| <= 1
    ensures Packets(ps + qs) == Packets(ps) + Packets(qs)
  {
    if ps == [] {
      assert ps + qs == qs;
    } else {
      assert (ps + qs)[1..] == qs && ps[1..] == [];
    }
  }

  /** On the blocks of a laid out file the pass is the rewriting, and its counters are those of the packets. */
  lemma {:induction false} PassOnPieces(n: Known, plan: Plan, parse: LinkParser, st: Scan, ps: seq<InPiece>)
    requires Judged(n, plan, parse) && (st.sawHeader || (ps != [] && ps[0].SectionPiece?))
    ensures var r := FilterAll(plan, parse, st, InBlocksOf(ps));
            var out := Rewritten(n, plan.comment, parse, st.linktypes, ps);
            && r.Success? && r.value.1 == BlocksOf(out)
            && r.value.0.stats == Stats(st.stats.packets + Packets(ps), st.stats.kept + Packets(out),
                                        st.stats.labeled + Labelled(n, parse, st.linktypes, ps))
    decreases |ps|
  {
    hide OnBlock, BlockOf, BlocksOf, RewrittenOne, TypesAfter, Judged, Stays, LabelOf;
    if ps != [] {
      var p, bs := ps[0], InBlocksOf(ps);
      BlocksOfFirst(ps);
      assert bs[0] == BlockOf(p) && bs[1..] == InBlocksOf(ps[1..]);
      PassOnPiece(n, plan, parse, st, p);
      var (next, b) := OnBlock(plan, parse, st, bs[0]).value;
      PassOnPieces(n, plan, parse, next, ps[1..]);
      var first := RewrittenOne(n, plan.comment, parse, st.linktypes, p);
      var others := Rewritten(n, plan.comment, parse, next.linktypes, ps[1..]);
      BlocksOfSum(first, others);
      FewRewritten(n, plan.comment, parse, st.linktypes, p);
      PacketsSum(first, others);
      assert [p][1..] == [];
    }
  }

  lemma FewRewritten(n: Known, comment: seq<byte>, parse: LinkParser, linktypes: seq<nat>, p: InPiece)
    ensures |RewrittenOne(n, comment, parse, linktypes, p)| <= 1
  {
    hide Stays, LabelOf, Noted;
  }

  lemma BlocksOfFirst(ps: seq<InPiece>)
    requires ps != []
    ensures InBlocksOf(ps)[0] == BlockOf(ps[0]) && InBlocksOf(ps)[1..] == InBlocksOf(ps[1..])
  {
    hide BlockOf;
  }

  /** The bytes of a recording's file after the pass, of whichever kind the recording is: every section gets the
      comment, every packet stays or goes and gets its label by what was seen of its tuple, and all else is as it
      was. A process-only recording that is not complete leaves the file alone. */
  lemma {:induction false} FileRewritten(n: Known, comment: seq<byte>, parse: LinkParser, complete: bool,
                                         ps: seq<InPiece>)
    requires n.m.conns == map[] && ps != [] && ps[0].SectionPiece?
    ensures var plan := PlanOf(After(n.m, n.events), n.rows, n.caption, comment);
            var out := Rewritten(n, comment, parse, [], ps);
            Process(plan, parse, complete, FileBytes(ps))
            == if n.m.onlyGroup && !complete then Processed(FileBytes(ps), true, None)
               else Processed(FileBytes(out), false,
                              Some(Stats(Packets(ps), Packets(out), Labelled(n, parse, [], ps))))
  {
    hide PlanOf, After, FilterAll, ApplyFrom, EncodeAll, FileBytes, Rewritten, Labelled, Stays, LabelOf, Packets,
      Plan.Judge;
    var plan, out := PlanOf(After(n.m, n.events), n.rows, n.caption, comment), Rewritten(n, comment, parse, [], ps);
    forall linktype, frame
      ensures plan.Judge(parse, linktype, frame)
              == (Stays(n, parse(linktype, frame)), LabelOf(n, parse(linktype, frame)))
    {
      JudgedAs(n, comment, parse, linktype, frame);
    }
    PlanComment(n, comment);
    PassOnPieces(n, plan, parse, START, ps);
    ApplyIsFilter(plan, parse, START, InBlocksOf(ps));
    EncodeOfPieces(ps);
    EncodeOfPieces(out);
  }

  lemma PlanComment(n: Known, comment: seq<byte>)
    requires n.m.conns == map[]
    ensures var plan := PlanOf(After(n.m, n.events), n.rows, n.caption, comment);
            plan.comment == comment && plan.onlyGroup == n.m.onlyGroup
  {
    hide After, Recorded, Sightings, Counted;
    RowLabel(n, comment, ConnKey(Tcp, V4(0), 0, V4(0), 0));
  }

  /** The block with its fields and its frame; a comment at most comes before the options. */
  ghost predicate SameBut(p: Piece, q: Piece) {
    match p
    case PacketPiece(iface, time, orig, frame, options) =>
      || q == p
      || exists text :: q == PacketPiece(iface, time, orig, frame, [(1, text)] + options)
    case SectionPiece(version, options) =>
      exists text :: q == SectionPiece(version, [(1, text)] + options)
    case _ => q == p
  }

  lemma OneStays(n: Known, comment: seq<byte>, parse: LinkParser, linktypes: seq<nat>, p: InPiece)
    requires !n.m.onlyGroup
    ensures var out := RewrittenOne(n, comment, parse, linktypes, p);
            |out| == 1 && SameBut(p, out[0])
  {
    hide LabelOf, CanBeWritten, CanBeRead;
    if p.SectionPiece? {
      assert WithNote(p, comment) == SectionPiece(p.version, [(1, Note(comment).1)] + p.options);
    } else if p.PacketPiece? && LabelOf(n, Parsed(parse, linktypes, p)).Some? {
      var text := LabelOf(n, Parsed(parse, linktypes, p)).value;
      assert WithNote(p, text) == PacketPiece(p.iface, p.time, p.orig, p.frame, [(1, Note(text).1)] + p.options);
    }
  }

  /** A recording of all traffic loses nothing: every block stays where it is, a packet with its interface, time,
      original length, frame and options. */
  lemma {:induction false} AllTrafficStays(n: Known, comment: seq<byte>, parse: LinkParser, linktypes: seq<nat>,
                                           ps: seq<InPiece>)
    requires !n.m.onlyGroup
    ensures var out := Rewritten(n, comment, parse, linktypes, ps);
            |out| == |ps| && forall i | 0 <= i < |ps| :: SameBut(ps[i], out[i])
    decreases |ps|
  {
    hide RewrittenOne, CanBeWritten, CanBeRead, SameBut;
    if ps != [] {
      var out := Rewritten(n, comment, parse, linktypes, ps);
      var others := Rewritten(n, comment, parse, TypesAfter(linktypes, ps[0]), ps[1..]);
      OneStays(n, comment, parse, linktypes, ps[0]);
      AllTrafficStays(n, comment, parse, TypesAfter(linktypes, ps[0]), ps[1..]);
      forall i | 0 <= i < |ps|
        ensures SameBut(ps[i], out[i])
      {
        assert i > 0 ==> out[i] == others[i - 1] && ps[i] == ps[1..][i - 1];
      }
    }
  }
}
