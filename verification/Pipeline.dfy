/** From the writer through the pass to the reader: what is recorded, kept and read back. */
module Pipeline {
  import opened Annotate
  import opened Bytes
  import opened EtwWriter
  import opened Filter
  import opened Pcapng
  import R = PcapngReader
  import opened Wrappers

  /** The frames of the packets among what a file means, with their link types. */
  function Frames(vs: seq<View>): seq<(nat, seq<byte>)> {
    if vs == [] then []
    else (match vs[0] case Packet(linktype, _, frame, _) => [(linktype, frame)] case _ => []) + Frames(vs[1..])
  }

  function Recorded(cs: seq<Capture>): seq<(nat, seq<byte>)> {
    if cs == [] then [] else [(LinkTypeOf(cs[0]), cs[0].frame)] + Recorded(cs[1..])
  }

  function Kept(plan: Plan, parse: LinkParser, fs: seq<(nat, seq<byte>)>): seq<(nat, seq<byte>)> {
    if fs == [] then []
    else (if plan.Judge(parse, fs[0].0, fs[0].1).0 then [fs[0]] else []) + Kept(plan, parse, fs[1..])
  }

  /** The pass keeps the frames that are judged to stay, in order. */
  lemma {:induction false} FramesOfExpected(plan: Plan, parse: LinkParser, vs: seq<View>)
    ensures Frames(ExpectedAll(plan, parse, vs)) == Kept(plan, parse, Frames(vs))
    decreases |vs|
  {
    if vs != [] {
      var first := Expected(plan, parse, vs[0]);
      FramesOfExpected(plan, parse, vs[1..]);
      FramesSplit(first, ExpectedAll(plan, parse, vs[1..]));
      if vs[0].Packet? {
        assert Frames(vs)[1..] == Frames(vs[1..]);
      } else {
        assert Frames(vs) == Frames(vs[1..]);
      }
      FramesOne(plan, parse, vs[0]);
    }
  }

  lemma FramesOne(plan: Plan, parse: LinkParser, v: View)
    ensures Frames(Expected(plan, parse, v))
            == match v
               case Packet(linktype, _, frame, _) =>
                 if plan.Judge(parse, linktype, frame).0 then [(linktype, frame)] else []
               case _ => []
  {}

  lemma FramesSplit(xs: seq<View>, ys: seq<View>)
    requires |xs| <= 1
    ensures Frames(xs + ys) == Frames(xs) + Frames(ys)
  {
    if xs == [] {
      assert xs + ys == ys;
    } else {
      assert (xs + ys)[1..] == ys;
      assert xs[1..] == [];
    }
  }

  // The reader on encoded blocks.

  /** A block of one section: readable, no section header, and a packet block holds its whole frame. */
  predicate Plain(b: Block) {
    && Readable(b) && b.kind != SHB
    && (IsPacket(b) ==> FixedLen(b.body) <= |b.body|)
  }

  lemma {:induction false} ReaderSeesFrames<P, K>(parse: R.LiveParser<P, K>, linktypes: seq<nat>, p: P, bs: seq<Block>)
    requires forall b | b in bs :: Plain(b)
    ensures var r := R.Drained(parse, R.State(EncodeAll(bs), linktypes, p));
            && !r.lost && r.state.buf == []
            && (r.state.parsers, r.out) == R.ParseAll(parse, p, Frames(Views(linktypes, bs)))
    decreases |bs|
  {
    hide Encode, Plain, ViewOf, Interfaces, R.OnBody;
    if bs != [] {
      var b, rest := bs[0], EncodeAll(bs[1..]);
      assert b in bs && forall x | x in bs[1..] :: x in bs;
      SameInterfaces(parse, linktypes, p, b);
      var (lts, q, k) := R.OnBody(parse, linktypes, p, b.kind, b.body);
      R.DrainedBlock(parse, linktypes, p, b, rest);
      ReaderSeesFrames(parse, lts, q, bs[1..]);
      var v, vs := ViewOf(linktypes, b), Views(lts, bs[1..]);
      assert Views(linktypes, bs)[1..] == vs;
      FramesFirst(v, vs);
      ParseSplits(parse, p, Frames([v]), Frames(vs));
    }
  }

  lemma FramesFirst(v: View, vs: seq<View>)
    ensures Frames([v] + vs) == Frames([v]) + Frames(vs)
  {
    FramesSplit([v], vs);
  }

  lemma {:induction false} ParseSplits<P, K>(parse: R.LiveParser<P, K>, p: P, xs: seq<(nat, seq<byte>)>,
                                             ys: seq<(nat, seq<byte>)>)
    ensures var (q, ks) := R.ParseAll(parse, p, xs);
            var (last, more) := R.ParseAll(parse, q, ys);
            R.ParseAll(parse, p, xs + ys) == (last, ks + more)
    decreases |xs|
  {
    if xs == [] {
      assert xs + ys == ys;
      var more := R.ParseAll(parse, p, ys).1;
      assert [] + more == more;
    } else {
      assert (xs + ys)[1..] == xs[1..] + ys;
      var (q, k) := parse(p, xs[0].0, xs[0].1);
      ParseSplits(parse, q, xs[1..], ys);
      var (r, ks) := R.ParseAll(parse, q, xs[1..]);
      R.Assoc(R.Listed(k), ks, R.ParseAll(parse, r, ys).1);
    }
  }

  /** The reader's view of one plain block is the view of the pass. */
  lemma SameInterfaces<P, K>(parse: R.LiveParser<P, K>, linktypes: seq<nat>, p: P, b: Block)
    requires Plain(b)
    ensures Readable(b)
    ensures var (lts, q, k) := R.OnBody(parse, linktypes, p, b.kind, b.body);
            && lts == Interfaces(linktypes, b)
            && (q, R.Listed(k)) == R.ParseAll(parse, p, Frames([ViewOf(linktypes, b)]))
  {
    hide Le32;
    var v := ViewOf(linktypes, b);
    FrameOfOne(v);
    if v.Packet? {
      var fs := [(v.linktype, v.frame)];
      var (q, k) := parse(p, v.linktype, v.frame);
      assert fs[1..] == [];
      assert R.Listed(k) + [] == R.Listed(k);
    }
  }

  lemma FrameOfOne(v: View)
    ensures Frames([v]) == if v.Packet? then [(v.linktype, v.frame)] else []
  {
    assert [v][1..] == [];
    assert Frames([v][1..]) == [];
  }

  // The writer's files.

  lemma PacketFields(c: Capture)
    ensures var b := PacketBody(c);
            Le32(b, 0) == c.iface && Le32(b, 12) == |c.frame| && b[EPB_FIXED..] == c.frame
  {
    hide ToLe32, Le32, Micros;
    var b := PacketBody(c);
    assert b[0..4] == ToLe32(c.iface);
    assert b[12..16] == ToLe32(|c.frame|);
    Le32At(b, 0, ToLe32(c.iface));
    Le32At(b, 12, ToLe32(|c.frame|));
  }

  /** The block written for a frame is plain, and means the frame on its interface. */
  lemma PacketBlockMeans(c: Capture)
    ensures var b := PacketBlock(c);
            && b.kind == 6 && Plain(b) && |b.body| <= 20 + 0xffff + 3
            && ViewOf([1, 101], b).Packet?
            && ViewOf([1, 101], b).linktype == LinkTypeOf(c)
            && ViewOf([1, 101], b).frame == c.frame
  {
    hide Le32, PacketBody, PaddedBlock, Options;
    var body, b := PacketBody(c), PacketBlock(c);
    PacketFields(c);
    SamePrefix(b.body, body, |body|, 0);
    SamePrefix(b.body, body, |body|, 12);
    assert b.body[EPB_FIXED..|body|] == b.body[..|body|][EPB_FIXED..] == c.frame;
    RoundedUp(|c.frame|, |b.body|);
  }

  lemma RoundedUp(n: nat, size: nat)
    requires size % 4 == 0 && EPB_FIXED + n <= size
    ensures EPB_FIXED + (n + 3) / 4 * 4 <= size
  {}

  lemma {:induction false} PacketBlocksMean(cs: seq<Capture>)
    ensures forall b | b in PacketBlocks(cs) :: Plain(b) && b.kind == EPB && |b.body| <= EPB_FIXED + MAX_FRAME + 3
    ensures Frames(Views([ETHERNET, RAW_IP], PacketBlocks(cs))) == Recorded(cs)
    decreases |cs|
  {
    hide PacketBlock, ViewOf, Plain;
    if cs != [] {
      var b, bs := PacketBlock(cs[0]), PacketBlocks(cs[1..]);
      PacketBlockMeans(cs[0]);
      PacketBlocksMean(cs[1..]);
      var v := ViewOf([ETHERNET, RAW_IP], b);
      assert PacketBlocks(cs)[1..] == bs;
      FramesFirst(v, Views([ETHERNET, RAW_IP], bs));
      FrameOfOne(v);
    }
  }

  const OPENED := Scan([ETHERNET, RAW_IP], true, Stats(0, 0, 0))

  function HeadWritten(plan: Plan, section: InBlock, ethernet: InBlock, rawIp: InBlock): seq<Block>
    requires |section.body| == SHB_FIXED
  {
    [Commented(section, SHB_FIXED, plan.comment), ethernet, rawIp]
  }

  /** A section header and two interfaces at the start of a file. */
  lemma HeadPasses(plan: Plan, parse: LinkParser, section: InBlock, ethernet: InBlock, rawIp: InBlock,
                   bs: seq<InBlock>)
    requires IsHeader(section) && |section.body| == SHB_FIXED
    requires ethernet.kind == IDB && |ethernet.body| == 8 && Le16(ethernet.body[0], ethernet.body[1]) == ETHERNET
    requires rawIp.kind == IDB && |rawIp.body| == 8 && Le16(rawIp.body[0], rawIp.body[1]) == RAW_IP
    ensures FilterAll(plan, parse, START, [section, ethernet, rawIp] + bs)
            == match FilterAll(plan, parse, OPENED, bs)
               case Failure(e) => Failure(e)
               case Success((last, out)) => Success((last, HeadWritten(plan, section, ethernet, rawIp) + out))
  {
    hide Commented, Le32, Le16, FilterAll;
    var all: seq<InBlock> := [section, ethernet, rawIp] + bs;
    assert all[1..] == [ethernet, rawIp] + bs;
    assert ([ethernet, rawIp] + bs)[1..] == [rawIp] + bs && ([rawIp] + bs)[1..] == bs;
    FilterFirst(plan, parse, START, all, section, [ethernet, rawIp] + bs);
    var st := Scan([], true, Stats(0, 0, 0));
    FilterFirst(plan, parse, st, [ethernet, rawIp] + bs, ethernet, [rawIp] + bs);
    FilterFirst(plan, parse, st.(linktypes := [] + [ETHERNET]), [rawIp] + bs, rawIp, bs);
    assert [] + [ETHERNET] + [RAW_IP] == [ETHERNET, RAW_IP];
    if FilterAll(plan, parse, OPENED, bs).Success? {
      var out := FilterAll(plan, parse, OPENED, bs).value.1;
      var a := Commented(section, SHB_FIXED, plan.comment);
      assert [a] + ([ethernet] + ([rawIp] + out)) == [a, ethernet, rawIp] + out;
    }
  }

  /** The first block of a pass. */
  lemma FilterFirst(plan: Plan, parse: LinkParser, st: Scan, bs: seq<InBlock>, b: InBlock, others: seq<InBlock>)
    requires bs != [] && bs[0] == b && bs[1..] == others && OnBlock(plan, parse, st, b).Success?
    ensures var (next, out) := OnBlock(plan, parse, st, b).value;
            FilterAll(plan, parse, st, bs)
            == match FilterAll(plan, parse, next, others)
               case Failure(e) => Failure(e)
               case Success((last, more)) => Success((last, Filter.Listed(out) + more))
  {
    hide OnBlock;
  }

  predicate Small(b: Block) {
    b.kind == EPB && Plain(b) && IsPacket(b) && |b.body| <= EPB_FIXED + MAX_FRAME + 3
  }

  lemma SmallStays(plan: Plan, parse: LinkParser, st: Scan, b: InBlock)
    requires Small(b)
    ensures OnBlock(plan, parse, st, b).Success?
    ensures var (next, out) := OnBlock(plan, parse, st, b).value;
            next.sawHeader == st.sawHeader && (out.Some? ==> Plain(out.value))
  {
    hide Le32, WithComment, FixedLen, Frame, LinkType, CommentOption;
    var (_, caption) := plan.Judge(parse, LinkType(st.linktypes, b.body), Frame(b.body));
    if caption.Some? {
      SamePacket(b, caption.value);
    }
  }

  lemma {:induction false} SmallPass(plan: Plan, parse: LinkParser, st: Scan, bs: seq<InBlock>)
    requires st.sawHeader && forall b | b in bs :: Small(b)
    ensures FilterAll(plan, parse, st, bs).Success?
    ensures forall b | b in FilterAll(plan, parse, st, bs).value.1 :: Plain(b)
    decreases |bs|
  {
    hide OnBlock, Small, Plain;
    if bs != [] {
      assert bs[0] in bs && forall x | x in bs[1..] :: x in bs;
      SmallStays(plan, parse, st, bs[0]);
      SmallPass(plan, parse, OnBlock(plan, parse, st, bs[0]).value.0, bs[1..]);
    }
  }

  lemma {:induction false} PacketBlocksSmall(cs: seq<Capture>)
    ensures forall b | b in PacketBlocks(cs) :: Small(b)
    decreases |cs|
  {
    hide PacketBlock, Small;
    if cs != [] {
      PacketBlockSmall(cs[0]);
      PacketBlocksSmall(cs[1..]);
    }
  }

  lemma PacketBlockSmall(c: Capture)
    ensures Small(PacketBlock(c))
  {
    hide Plain, Le32, Options, PacketBody;
    PacketBlockMeans(c);
  }

  /** The pass over the packets of a recording: it succeeds, its blocks are plain, and their frames are
      the kept ones. */
  lemma PacketsPass(plan: Plan, parse: LinkParser, cs: seq<Capture>)
    ensures FilterAll(plan, parse, OPENED, PacketBlocks(cs)).Success?
    ensures var out := FilterAll(plan, parse, OPENED, PacketBlocks(cs)).value.1;
            && (forall b | b in out :: Plain(b))
            && Frames(Views([ETHERNET, RAW_IP], out)) == Kept(plan, parse, Recorded(cs))
  {
    hide FilterAll, Plain, Small, Views, PacketBlocks, Kept;
    var bs := PacketBlocks(cs);
    PacketBlocksSmall(cs);
    SmallPass(plan, parse, OPENED, bs);
    FilterMeaning(plan, parse, OPENED, bs);
    PacketBlocksMean(cs);
    FramesOfExpected(plan, parse, Views([ETHERNET, RAW_IP], bs));
  }

  /** What the reader makes of a file that starts with a section header and two interfaces. */
  lemma HeadRead<P, K>(parse: R.LiveParser<P, K>, p: P, section: Block, ethernet: Block, rawIp: Block, out: seq<Block>)
    requires section.kind == SHB && Readable(section) && Readable(ethernet) && Readable(rawIp)
    requires ethernet.kind == IDB && |ethernet.body| == 8 && Le16(ethernet.body[0], ethernet.body[1]) == ETHERNET
    requires rawIp.kind == IDB && |rawIp.body| == 8 && Le16(rawIp.body[0], rawIp.body[1]) == RAW_IP
    ensures R.Drained(parse, R.State(EncodeAll([section, ethernet, rawIp] + out), [], p))
            == R.Drained(parse, R.State(EncodeAll(out), [ETHERNET, RAW_IP], p))
  {
    hide Encode, Le16, R.Drained, EncodeAll;
    EncodeAllSplits([section, ethernet, rawIp], out);
    EncodeThree(section, ethernet, rawIp);
    var rest := EncodeAll(out);
    var two := Encode(rawIp) + rest;
    var three := Encode(ethernet) + two;
    assert EncodeAll([section, ethernet, rawIp] + out) == Encode(section) + three;
    R.DrainedBlock(parse, [], p, section, three);
    R.DrainedBlock(parse, [], p, ethernet, two);
    assert [] + [ETHERNET] == [ETHERNET];
    R.DrainedBlock(parse, [ETHERNET], p, rawIp, rest);
    var r := R.Drained(parse, R.State(rest, [ETHERNET, RAW_IP], p));
    assert [ETHERNET] + [RAW_IP] == [ETHERNET, RAW_IP];
    assert R.Listed<K>(None) + r.out == r.out;
  }

  /** End to end: a recording is written, passed over, and read back in chunks of any size. The pass
      succeeds, and the reader yields exactly what its parser makes of the kept frames, in order. */
  lemma RecordedPassesThrough<P, K>(plan: Plan, parse: LinkParser, live: R.LiveParser<P, K>, p: P,
                                    cs: seq<Capture>, chunks: seq<seq<byte>>)
    requires Apply(plan, parse, EncodeAll(FileBlocks(cs))).Success? ==>
               R.Joined(chunks) == Apply(plan, parse, EncodeAll(FileBlocks(cs))).value.1
    ensures Apply(plan, parse, EncodeAll(FileBlocks(cs))).Success?
    ensures var r := R.PushedAll(live, R.State([], [], p), chunks);
            && !r.lost && r.state.buf == []
            && (r.state.parsers, r.out) == R.ParseAll(live, p, Kept(plan, parse, Recorded(cs)))
  {
    hide FilterAll, PacketBlocks, HeaderBlock, InterfaceBlock, EncodeAll, Plain, Kept, R.Drained, R.PushedAll, R.InRange, Commented;
    var section, ethernet, rawIp := HeaderBlock(), InterfaceBlock(ETHERNET), InterfaceBlock(RAW_IP);
    ApplyIsFilter(plan, parse, START, FileBlocks(cs));
    HeadPasses(plan, parse, section, ethernet, rawIp, PacketBlocks(cs));
    PacketsPass(plan, parse, cs);
    var out := FilterAll(plan, parse, OPENED, PacketBlocks(cs)).value.1;
    var commented := Commented(section, SHB_FIXED, plan.comment);
    HeadRead(live, p, commented, ethernet, rawIp, out);
    ReaderSeesFrames(live, [ETHERNET, RAW_IP], p, out);
    var start := R.State([], [], p);
    assert [] + R.Joined(chunks) == R.Joined(chunks);
    R.DrainedReads(live, R.State([] + R.Joined(chunks), [], p));
    R.ChunkingDoesNotMatter(live, start, chunks);
  }
}
