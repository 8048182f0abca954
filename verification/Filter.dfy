/** The rewriting of a whole file, block by block, and what it keeps of it. */
module Filter {
  import opened Annotate
  import opened Bytes
  import opened Pcapng
  import opened Wrappers

  datatype Stats = Stats(packets: nat, kept: nat, labeled: nat)

  datatype Scan = Scan(linktypes: seq<nat>, sawHeader: bool, stats: Stats)

  const START := Scan([], false, Stats(0, 0, 0))

  /** The block with the comment in front of its options. */
  function Commented(b: Block, fixed: nat, text: seq<byte>): (r: Block)
    requires fixed <= |b.body| && 12 + |b.body| + 0x1_0004 < TWO32
    ensures r.kind == b.kind && r.body == WithComment(b.body, fixed, text)
    ensures |r.body| <= |b.body| + 0x1_0004
  {
    WithCommentAligned(b.body, fixed, text);
    Cut(b.kind, WithComment(b.body, fixed, text))
  }

  lemma WithCommentAligned(body: seq<byte>, fixed: nat, text: seq<byte>)
    requires fixed <= |body| && |body| % 4 == 0
    ensures |WithComment(body, fixed, text)| % 4 == 0
  {
    hide WithComment, CommentOption;
    AddAligned(|body|, |CommentOption(text)|);
    AddAligned(|body| + |CommentOption(text)|, 4);
  }

  lemma AddAligned(a: nat, b: nat)
    requires a % 4 == 0 && b % 4 == 0
    ensures (a + b) % 4 == 0
  {}

  function Interfaces(linktypes: seq<nat>, b: Block): seq<nat> {
    if IsHeader(b) then []
    else if b.kind == IDB && |b.body| >= 2 then linktypes + [Le16(b.body[0], b.body[1])]
    else linktypes
  }

  /** One block: the new state and the block written, if any. */
  function OnBlock(plan: Plan, parse: LinkParser, st: Scan, b: InBlock): Result<(Scan, Option<Block>), FileError> {
    if b.kind == SHB then
      if !IsHeader(b) then Failure(BigEndian)
      else Success((Scan([], true, st.stats), Some(Commented(b, SHB_FIXED, plan.comment))))
    else if IsPacket(b) then OnPacket(plan, parse, st, b)
    else Success((st.(linktypes := Interfaces(st.linktypes, b)), Some(b)))
  }

  function OnPacket(plan: Plan, parse: LinkParser, st: Scan, b: InBlock): Result<(Scan, Option<Block>), FileError>
    requires IsPacket(b)
  {
    var fixed := FixedLen(b.body);
    if |b.body| < fixed then Failure(CorruptedPacket)
    else
      var (keep, caption) := plan.Judge(parse, LinkType(st.linktypes, b.body), Frame(b.body));
      var counted := st.stats.(packets := st.stats.packets + 1);
      if !keep then Success((st.(stats := counted), None))
      else if caption.None? then
        Success((st.(stats := counted.(kept := counted.kept + 1)), Some(b)))
      else
        Success((st.(stats := counted.(kept := counted.kept + 1, labeled := counted.labeled + 1)),
                 Some(Commented(b, fixed, caption.value))))
  }

  function Listed(b: Option<Block>): seq<Block> {
    if b.Some? then [b.value] else []
  }

  /** The pass over the blocks of a file. */
  function FilterAll(plan: Plan, parse: LinkParser, st: Scan, bs: seq<InBlock>): Result<(Scan, seq<Block>), FileError>
    decreases |bs|
  {
    if bs == [] then if st.sawHeader then Success((st, [])) else Failure(MissingHeader)
    else
      match OnBlock(plan, parse, st, bs[0])
      case Failure(e) => Failure(e)
      case Success((next, b)) =>
        match FilterAll(plan, parse, next, bs[1..])
        case Failure(e) => Failure(e)
        case Success((last, others)) => Success((last, Listed(b) + others))
  }

  /** The pass over the bytes of a file. */
  function ApplyFrom(plan: Plan, parse: LinkParser, st: Scan, d: seq<byte>): Result<(Scan, seq<byte>), FileError>
    decreases |d|
  {
    if d == [] then if st.sawHeader then Success((st, [])) else Failure(MissingHeader)
    else
      match ReadBlock(d)
      case Failure(e) => Failure(e)
      case Success((block, rest)) =>
        EncodedOfRead(d);
        match OnBlock(plan, parse, st, block)
        case Failure(e) => Failure(e)
        case Success((next, b)) =>
          match ApplyFrom(plan, parse, next, rest)
          case Failure(e) => Failure(e)
          case Success((last, others)) => Success((last, EncodeAll(Listed(b)) + others))
  }

  function Apply(plan: Plan, parse: LinkParser, d: seq<byte>): Result<(Stats, seq<byte>), FileError> {
    match ApplyFrom(plan, parse, START, d)
    case Failure(e) => Failure(e)
    case Success((last, out)) => Success((last.stats, out))
  }

  function Written(r: Result<(Scan, seq<Block>), FileError>): Result<(Scan, seq<byte>), FileError> {
    match r
    case Failure(e) => Failure(e)
    case Success((last, out)) => Success((last, EncodeAll(out)))
  }

  /** On the bytes of readable blocks the pass is the pass over the blocks. */
  lemma {:induction false} ApplyIsFilter(plan: Plan, parse: LinkParser, st: Scan, bs: seq<InBlock>)
    ensures ApplyFrom(plan, parse, st, EncodeAll(bs)) == Written(FilterAll(plan, parse, st, bs))
    decreases |bs|
  {
    hide OnBlock, Encode, ReadBlock;
    if bs != [] {
      var rest := EncodeAll(bs[1..]);
      ReadOfEncoded(bs[0], rest);
      if OnBlock(plan, parse, st, bs[0]).Success? {
        var (next, b) := OnBlock(plan, parse, st, bs[0]).value;
        ApplyIsFilter(plan, parse, next, bs[1..]);
        if FilterAll(plan, parse, next, bs[1..]).Success? {
          EncodeAllSplits(Listed(b), FilterAll(plan, parse, next, bs[1..]).value.1);
        }
      }
    }
  }

  /** A pass succeeds only on the bytes of readable blocks. */
  lemma {:induction false} ApplyOnlyOnBlocks(plan: Plan, parse: LinkParser, st: Scan, d: seq<byte>)
    returns (bs: seq<InBlock>)
    requires ApplyFrom(plan, parse, st, d).Success?
    ensures d == EncodeAll(bs)
    decreases |d|
  {
    hide OnBlock, Encode, ReadBlock;
    if d == [] {
      bs := [];
    } else {
      var (block, rest) := ReadBlock(d).value;
      EncodedOfRead(d);
      var (next, _) := OnBlock(plan, parse, st, block).value;
      var others := ApplyOnlyOnBlocks(plan, parse, next, rest);
      bs := [block] + others;
    }
  }

  // What the blocks of a file mean to a reader.

  datatype View =
    | Section(fields: seq<byte>, options: seq<(nat, seq<byte>)>)
    | Packet(linktype: nat, fields: seq<byte>, frame: seq<byte>, options: seq<(nat, seq<byte>)>)
    | Other(block: Block)

  function ViewOf(linktypes: seq<nat>, b: Block): View {
    if IsHeader(b) then Section(b.body[..SHB_FIXED], Options(b.body[SHB_FIXED..]))
    else if IsPacket(b) && FixedLen(b.body) <= |b.body| then
      Packet(LinkType(linktypes, b.body), b.body[..FixedLen(b.body)], Frame(b.body),
             Options(b.body[FixedLen(b.body)..]))
    else Other(b)
  }

  function Views(linktypes: seq<nat>, bs: seq<Block>): seq<View>
    decreases |bs|
  {
    if bs == [] then [] else
      [ViewOf(linktypes, bs[0])] + Views(Interfaces(linktypes, bs[0]), bs[1..])
  }

  /** What the pass is for, said of the meaning: a section gets the comment, a packet stays if it is
      judged to and gets its label, anything else stays as it is. */
  function Expected(plan: Plan, parse: LinkParser, v: View): seq<View> {
    match v
    case Section(fields, options) => [Section(fields, [(1, CutText(plan.comment))] + options)]
    case Packet(linktype, fields, frame, options) =>
      var (keep, caption) := plan.Judge(parse, linktype, frame);
      if !keep then []
      else if caption.None? then [v]
      else [Packet(linktype, fields, frame, [(1, CutText(caption.value))] + options)]
    case Other(_) => [v]
  }

  function ExpectedAll(plan: Plan, parse: LinkParser, vs: seq<View>): seq<View> {
    if vs == [] then [] else Expected(plan, parse, vs[0]) + ExpectedAll(plan, parse, vs[1..])
  }

  lemma SamePrefix(a: seq<byte>, b: seq<byte>, n: nat, o: nat)
    requires o + 4 <= n <= |a| && n <= |b| && a[..n] == b[..n]
    ensures Le32(a, o) == Le32(b, o)
  {
    assert forall i | 0 <= i < n :: a[i] == a[..n][i] == b[..n][i] == b[i];
  }

  lemma ViewOfSection(linktypes: seq<nat>, b: InBlock, text: seq<byte>)
    requires IsHeader(b)
    ensures var r := Commented(b, SHB_FIXED, text);
            && IsHeader(r)
            && ViewOf(linktypes, r) == Section(b.body[..SHB_FIXED],
                                               [(1, CutText(text))] + Options(b.body[SHB_FIXED..]))
  {
    hide Le32, Options, WithComment;
    var r := Commented(b, SHB_FIXED, text);
    SamePrefix(r.body, b.body, SHB_FIXED, 0);
    OptionsWithComment(b.body, SHB_FIXED, text);
  }

  /** A labelled packet keeps its interface, its fixed fields and its frame. */
  lemma SamePacket(b: InBlock, text: seq<byte>)
    requires IsPacket(b) && FixedLen(b.body) <= |b.body|
    ensures var r := Commented(b, FixedLen(b.body), text);
            && IsPacket(r) && FixedLen(r.body) == FixedLen(b.body) <= |r.body|
            && Le32(r.body, 0) == Le32(b.body, 0)
            && r.body[..FixedLen(b.body)] == b.body[..FixedLen(b.body)]
            && Frame(r.body) == Frame(b.body)
  {
    hide Le32, WithComment;
    var n := FixedLen(b.body);
    var r := Commented(b, n, text);
    SamePrefix(r.body, b.body, n, 0);
    SamePrefix(r.body, b.body, n, 12);
    var end := EPB_FIXED + CapLen(b.body);
    assert r.body[..n][EPB_FIXED..end] == r.body[EPB_FIXED..end];
    assert b.body[..n][EPB_FIXED..end] == b.body[EPB_FIXED..end];
  }

  lemma ViewOfPacket(linktypes: seq<nat>, b: InBlock, text: seq<byte>)
    requires IsPacket(b) && FixedLen(b.body) <= |b.body|
    ensures var r := Commented(b, FixedLen(b.body), text);
            var v := ViewOf(linktypes, b);
            ViewOf(linktypes, r)
            == Packet(v.linktype, v.fields, v.frame, [(1, CutText(text))] + v.options)
  {
    hide Le32, Options, WithComment, FixedLen, Frame;
    SamePacket(b, text);
    OptionsWithComment(b.body, FixedLen(b.body), text);
  }

  /** One block means, after the pass, what was expected of it, and the interfaces are the same. */
  lemma BlockMeaning(plan: Plan, parse: LinkParser, st: Scan, b: InBlock)
    requires OnBlock(plan, parse, st, b).Success?
    ensures var (next, out) := OnBlock(plan, parse, st, b).value;
            && next.linktypes == Interfaces(st.linktypes, b)
            && Views(st.linktypes, Listed(out)) == Expected(plan, parse, ViewOf(st.linktypes, b))
            && (out.Some? ==> Interfaces(st.linktypes, out.value) == Interfaces(st.linktypes, b))
  {
    hide Le32, Options, Commented, FixedLen, Frame, LinkType;
    var (next, out) := OnBlock(plan, parse, st, b).value;
    if IsHeader(b) {
      ViewOfSection(st.linktypes, b, plan.comment);
    } else if IsPacket(b) {
      PacketMeaning(plan, parse, st, b);
    }
  }

  lemma PacketMeaning(plan: Plan, parse: LinkParser, st: Scan, b: InBlock)
    requires IsPacket(b) && OnPacket(plan, parse, st, b).Success?
    ensures var (next, out) := OnPacket(plan, parse, st, b).value;
            && next.linktypes == st.linktypes
            && Views(st.linktypes, Listed(out)) == Expected(plan, parse, ViewOf(st.linktypes, b))
            && (out.Some? ==> IsPacket(out.value))
  {
    hide Le32, Options, WithComment, FixedLen, Frame, LinkType;
    var (_, caption) := plan.Judge(parse, LinkType(st.linktypes, b.body), Frame(b.body));
    if caption.Some? {
      ViewOfPacket(st.linktypes, b, caption.value);
      SamePacket(b, caption.value);
    }
  }

  lemma {:induction false} ViewsSplit(linktypes: seq<nat>, b: Option<Block>, bs: seq<Block>, after: seq<nat>)
    requires b.Some? ==> Interfaces(linktypes, b.value) == after
    requires b.None? ==> linktypes == after
    ensures Views(linktypes, Listed(b) + bs) == Views(linktypes, Listed(b)) + Views(after, bs)
  {
    hide ViewOf, Interfaces;
    if b.None? {
      assert Listed(b) + bs == bs;
    } else {
      assert (Listed(b) + bs)[1..] == bs;
    }
  }

  /** Refinement: the file written means exactly what was expected of each block, in order. */
  lemma {:induction false} FilterMeaning(plan: Plan, parse: LinkParser, st: Scan, bs: seq<InBlock>)
    requires FilterAll(plan, parse, st, bs).Success?
    ensures Views(st.linktypes, FilterAll(plan, parse, st, bs).value.1)
            == ExpectedAll(plan, parse, Views(st.linktypes, bs))
    decreases |bs|
  {
    hide OnBlock, ViewOf, Interfaces, Expected;
    if bs != [] {
      var (next, b) := OnBlock(plan, parse, st, bs[0]).value;
      BlockMeaning(plan, parse, st, bs[0]);
      FilterMeaning(plan, parse, next, bs[1..]);
      if b.None? { DroppedKeepsInterfaces(plan, parse, st, bs[0]); }
      var others := FilterAll(plan, parse, next, bs[1..]).value.1;
      ViewsSplit(st.linktypes, b, others, next.linktypes);
    }
  }

  lemma DroppedKeepsInterfaces(plan: Plan, parse: LinkParser, st: Scan, b: InBlock)
    requires OnBlock(plan, parse, st, b).Success? && OnBlock(plan, parse, st, b).value.1.None?
    ensures OnBlock(plan, parse, st, b).value.0.linktypes == st.linktypes
  {
    hide Le32, FixedLen, Frame, LinkType;
  }

  /** The pass fails exactly on a section that is short or not little-endian, on a packet block shorter
      than its frame, and on a file without a section header. */
  lemma {:induction false} FilterSucceedsIff(plan: Plan, parse: LinkParser, st: Scan, bs: seq<InBlock>)
    ensures FilterAll(plan, parse, st, bs).Success?
            <==> (forall b | b in bs :: (b.kind == 0x0A0D_0D0A ==> IsHeader(b))
                                        && (IsPacket(b) ==> FixedLen(b.body) <= |b.body|))
                 && (st.sawHeader || exists b | b in bs :: IsHeader(b))
    decreases |bs|
  {
    hide Le32, FixedLen, Frame, LinkType, IsHeader;
    if bs != [] {
      var b := bs[0];
      assert forall x | x in bs :: x == b || x in bs[1..];
      assert b in bs && forall x | x in bs[1..] :: x in bs;
      HeaderKind(b);
      if OnBlock(plan, parse, st, b).Success? {
        FilterSucceedsIff(plan, parse, OnBlock(plan, parse, st, b).value.0, bs[1..]);
      }
    }
  }

  lemma HeaderKind(b: Block)
    ensures IsHeader(b) ==> b.kind == SHB && !IsPacket(b)
  {}

  /** A section header in little-endian byte order, with its fixed fields. */
  predicate LittleEndian(b: Block) {
    && b.kind == 0x0A0D_0D0A && |b.body| >= 16
    && b.body[0] == 0x4D && b.body[1] == 0x3C && b.body[2] == 0x2B && b.body[3] == 0x1A
  }

  /** The frame that the packet block announces in its fields, padded to four bytes, is there. */
  predicate HoldsFrame(b: Block) {
    b.kind == 6 && |b.body| >= 20 ==>
      var size := b.body[12] as int + 0x100 * b.body[13] as int + 0x1_0000 * b.body[14] as int
                  + 0x100_0000 * b.body[15] as int;
      20 + (size + 3) / 4 * 4 <= |b.body|
  }

  /** Blocks a pass goes through: little-endian sections, packet blocks that hold their frame, and a section header
      somewhere. */
  ghost predicate Annotatable(bs: seq<InBlock>) {
    && (forall b | b in bs :: (b.kind == 0x0A0D_0D0A ==> LittleEndian(b)) && HoldsFrame(b))
    && (exists b :: b in bs && LittleEndian(b))
  }

  lemma HeaderIff(b: Block)
    ensures IsHeader(b) <==> LittleEndian(b)
    ensures (IsPacket(b) ==> FixedLen(b.body) <= |b.body|) <==> HoldsFrame(b)
  {}

  /** A pass over bytes succeeds exactly when they are those of such blocks. */
  lemma ApplySucceedsIff(plan: Plan, parse: LinkParser, file: seq<byte>)
    ensures Apply(plan, parse, file).Success? <==> exists bs: seq<InBlock> :: file == EncodeAll(bs) && Annotatable(bs)
  {
    hide ApplyFrom, FilterAll, EncodeAll, Annotatable;
    if Apply(plan, parse, file).Success? {
      var bs := ApplyOnlyOnBlocks(plan, parse, START, file);
      AppliedIff(plan, parse, bs);
    }
    forall bs: seq<InBlock> | file == EncodeAll(bs) && Annotatable(bs)
      ensures Apply(plan, parse, file).Success?
    {
      AppliedIff(plan, parse, bs);
    }
  }

  lemma AppliedIff(plan: Plan, parse: LinkParser, bs: seq<InBlock>)
    ensures Apply(plan, parse, EncodeAll(bs)).Success? <==> Annotatable(bs)
  {
    hide ApplyFrom, FilterAll, EncodeAll, IsHeader, FixedLen, LittleEndian, HoldsFrame;
    ApplyIsFilter(plan, parse, START, bs);
    FilterSucceedsIff(plan, parse, START, bs);
    forall b: Block
      ensures IsHeader(b) <==> LittleEndian(b)
      ensures (IsPacket(b) ==> FixedLen(b.body) <= |b.body|) <==> HoldsFrame(b)
    {
      HeaderIff(b);
    }
    assert Annotatable(bs) ==> exists b | b in bs :: IsHeader(b);
    assert FilterAll(plan, parse, START, bs).Success? ==> exists b :: b in bs && LittleEndian(b);
  }

  // A second pass.

  /** A block that survived a pass survives the next one, and is counted the same way. */
  lemma SurvivorStays(plan: Plan, parse: LinkParser, st: Scan, again: Scan, b: InBlock)
    requires OnBlock(plan, parse, st, b).Success? && again.linktypes == st.linktypes
    ensures var (next, out) := OnBlock(plan, parse, st, b).value;
            out.Some? && Readable(out.value) ==>
              && OnBlock(plan, parse, again, out.value).Success?
              && var (next', out') := OnBlock(plan, parse, again, out.value).value;
                 && out'.Some? && next'.linktypes == next.linktypes
                 && next'.sawHeader == (again.sawHeader || IsHeader(b))
                 && next'.stats.packets - again.stats.packets == next.stats.kept - st.stats.kept
                 && next'.stats.kept - again.stats.kept == next.stats.kept - st.stats.kept
  {
    hide Le32, Options, Commented, FixedLen, Frame, LinkType;
    var (next, out) := OnBlock(plan, parse, st, b).value;
    if IsHeader(b) {
      ViewOfSection(st.linktypes, b, plan.comment);
    } else if IsPacket(b) {
      PacketStays(plan, parse, st, again, b);
    }
  }

  lemma PacketStays(plan: Plan, parse: LinkParser, st: Scan, again: Scan, b: InBlock)
    requires IsPacket(b) && OnPacket(plan, parse, st, b).Success? && again.linktypes == st.linktypes
    ensures var (next, out) := OnPacket(plan, parse, st, b).value;
            out.Some? && Readable(out.value) ==>
              && IsPacket(out.value)
              && OnPacket(plan, parse, again, out.value).Success?
              && var (next', out') := OnPacket(plan, parse, again, out.value).value;
                 && out'.Some? && next'.linktypes == next.linktypes && next'.sawHeader == again.sawHeader
                 && next'.stats.packets == again.stats.packets + 1 && next'.stats.kept == again.stats.kept + 1
                 && next.stats.kept == st.stats.kept + 1
  {
    hide Le32, WithComment, FixedLen, Frame;
    var (_, caption) := plan.Judge(parse, LinkType(st.linktypes, b.body), Frame(b.body));
    if caption.Some? {
      SamePacket(b, caption.value);
    }
  }

  /** A second pass with the same plan drops nothing: as many packets are counted as the first one kept,
      and all are kept. */
  lemma {:induction false} SecondPass(plan: Plan, parse: LinkParser, st: Scan, again: Scan, bs: seq<InBlock>)
    requires FilterAll(plan, parse, st, bs).Success? && again.linktypes == st.linktypes
    requires st.sawHeader ==> again.sawHeader
    requires forall b | b in FilterAll(plan, parse, st, bs).value.1 :: Readable(b)
    ensures var (last, out) := FilterAll(plan, parse, st, bs).value;
            var r := FilterAll(plan, parse, again, out);
            && r.Success?
            && |r.value.1| == |out|
            && r.value.0.stats.packets - again.stats.packets == last.stats.kept - st.stats.kept
            && r.value.0.stats.kept - again.stats.kept == last.stats.kept - st.stats.kept
    decreases |bs|
  {
    hide OnBlock;
    if bs != [] {
      var (next, b) := OnBlock(plan, parse, st, bs[0]).value;
      var (_, others) := FilterAll(plan, parse, next, bs[1..]).value;
      var out := Listed(b) + others;
      assert forall x | x in others :: x in out;
      HeaderSeen(plan, parse, st, bs[0]);
      if b.None? {
        assert out == others;
        SecondPass(plan, parse, next, again, bs[1..]);
      } else {
        assert out[0] == b.value && out[1..] == others;
        assert b.value in out;
        SurvivorStays(plan, parse, st, again, bs[0]);
        SecondPass(plan, parse, next, OnBlock(plan, parse, again, b.value).value.0, bs[1..]);
      }
    }
  }

  lemma HeaderSeen(plan: Plan, parse: LinkParser, st: Scan, b: InBlock)
    requires OnBlock(plan, parse, st, b).Success?
    ensures var (next, out) := OnBlock(plan, parse, st, b).value;
            && next.sawHeader == (st.sawHeader || IsHeader(b))
            && (out.None? ==> next.linktypes == st.linktypes && next.stats.kept == st.stats.kept
                              && !IsHeader(b))
  {
    hide Le32, FixedLen, Frame, LinkType, Commented;
  }

  /** How long a block may be so that the block written for it is still within the readers' limit. */
  function RoomNeeded(body: seq<byte>, fixed: nat, text: seq<byte>): nat {
    12 + |body| + |CommentOption(text)| + if |body| > fixed then 0 else 4
  }

  /** The written block can be read back if and only if the comment still fits. */
  lemma CommentFitsIff(b: InBlock, fixed: nat, text: seq<byte>)
    requires fixed <= |b.body|
    ensures Readable(Commented(b, fixed, text)) <==> RoomNeeded(b.body, fixed, text) <= MAX_BLOCK
  {
    hide CommentOption, WithComment;
  }

  // The loop of `apply` over the blocks.

  function Behind(out: seq<byte>, r: Result<(Scan, seq<byte>), FileError>): Result<(Scan, seq<byte>), FileError> {
    match r
    case Failure(e) => Failure(e)
    case Success((last, others)) => Success((last, out + others))
  }

  /** Reads block after block, keeping the interfaces of the section and the counters, and writes what stays. */
  method ApplyFile(plan: Plan, parse: LinkParser, src: seq<byte>) returns (r: Result<(Stats, seq<byte>), FileError>)
    ensures r == Apply(plan, parse, src)
  {
    hide OnBlock, ReadBlock, EncodeAll;
    var st := START;
    var out: seq<byte> := [];
    var rest := src;
    BehindNothing(ApplyFrom(plan, parse, START, src));
    while rest != []
      invariant ApplyFrom(plan, parse, START, src) == Behind(out, ApplyFrom(plan, parse, st, rest))
      decreases |rest|
    {
      var read := ReadBlock(rest);
      if read.Failure? { return Failure(read.error); }
      EncodedOfRead(rest);
      var (block, following) := read.value;
      var written := OnBlock(plan, parse, st, block);
      if written.Failure? { return Failure(written.error); }
      var (next, b) := written.value;
      BehindBehind(out, EncodeAll(Listed(b)), ApplyFrom(plan, parse, next, following));
      out := out + EncodeAll(Listed(b));
      st := next;
      rest := following;
    }
    if !st.sawHeader { return Failure(MissingHeader); }
    assert out + [] == out;
    return Success((st.stats, out));
  }

  lemma BehindNothing(r: Result<(Scan, seq<byte>), FileError>)
    ensures Behind([], r) == r
  {
    if r.Success? {
      assert [] + r.value.1 == r.value.1;
    }
  }

  lemma BehindBehind(a: seq<byte>, b: seq<byte>, r: Result<(Scan, seq<byte>), FileError>)
    ensures Behind(a, Behind(b, r)) == Behind(a + b, r)
  {
    if r.Success? {
      assert a + (b + r.value.1) == a + b + r.value.1;
    }
  }
}
