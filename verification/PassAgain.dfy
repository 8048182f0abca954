/** Passing over a file that was written by a pass: when it can be read again, and what then stays. */
module PassAgain {
  import opened Annotate
  import opened Bytes
  import opened Filter
  import opened Pcapng
  import opened Wrappers

  /** The block leaves room for the comment the pass gives it, if it gives it one. */
  predicate RoomFor(plan: Plan, parse: LinkParser, linktypes: seq<nat>, b: InBlock) {
    if IsHeader(b) then RoomNeeded(b.body, SHB_FIXED, plan.comment) <= MAX_BLOCK
    else if IsPacket(b) && FixedLen(b.body) <= |b.body| then
      var (keep, caption) := plan.Judge(parse, LinkType(linktypes, b.body), Frame(b.body));
      keep && caption.Some? ==> RoomNeeded(b.body, FixedLen(b.body), caption.value) <= MAX_BLOCK
    else true
  }

  /** Every section and every kept packet with a label leaves room. */
  predicate RoomAlong(plan: Plan, parse: LinkParser, linktypes: seq<nat>, bs: seq<InBlock>)
    decreases |bs|
  {
    bs == [] || (RoomFor(plan, parse, linktypes, bs[0]) && RoomAlong(plan, parse, Interfaces(linktypes, bs[0]), bs[1..]))
  }

  lemma BlockReadableIff(plan: Plan, parse: LinkParser, st: Scan, b: InBlock)
    requires OnBlock(plan, parse, st, b).Success?
    ensures var (next, out) := OnBlock(plan, parse, st, b).value;
            && next.linktypes == Interfaces(st.linktypes, b)
            && ((out.Some? ==> Readable(out.value)) <==> RoomFor(plan, parse, st.linktypes, b))
  {
    hide Le32, FixedLen, Frame, LinkType, Commented, RoomNeeded;
    BlockMeaning(plan, parse, st, b);
    if IsHeader(b) {
      CommentFitsIff(b, SHB_FIXED, plan.comment);
    } else if IsPacket(b) {
      var (_, caption) := plan.Judge(parse, LinkType(st.linktypes, b.body), Frame(b.body));
      if caption.Some? {
        CommentFitsIff(b, FixedLen(b.body), caption.value);
      }
    }
  }

  lemma {:induction false} OutputReadableIff(plan: Plan, parse: LinkParser, st: Scan, bs: seq<InBlock>)
    requires FilterAll(plan, parse, st, bs).Success?
    ensures (forall b | b in FilterAll(plan, parse, st, bs).value.1 :: Readable(b))
            <==> RoomAlong(plan, parse, st.linktypes, bs)
    decreases |bs|
  {
    hide OnBlock, RoomFor, Interfaces, Readable;
    if bs != [] {
      var (next, b) := OnBlock(plan, parse, st, bs[0]).value;
      var others := FilterAll(plan, parse, next, bs[1..]).value.1;
      BlockReadableIff(plan, parse, st, bs[0]);
      OutputReadableIff(plan, parse, next, bs[1..]);
      assert forall x :: x in Listed(b) + others <==> (b.Some? && x == b.value) || x in others;
      assert b.Some? ==> b.value in Listed(b) + others;
    }
  }

  /** A file with a block above the limit is refused. */
  lemma {:induction false} StopsAtLarge(plan: Plan, parse: LinkParser, st: Scan, bs: seq<Block>)
    requires exists b | b in bs :: !Readable(b)
    ensures ApplyFrom(plan, parse, st, EncodeAll(bs)).Failure?
    decreases |bs|
  {
    hide OnBlock, Encode, ReadBlock, Readable;
    var rest := EncodeAll(bs[1..]);
    ReadOfEncoded(bs[0], rest);
    assert Encode(bs[0]) + rest != [];
    if Readable(bs[0]) {
      assert exists b | b in bs[1..] :: !Readable(b) by { var b :| b in bs && !Readable(b); assert b in bs[1..]; }
      EncodedOfRead(Encode(bs[0]) + rest);
      if OnBlock(plan, parse, st, bs[0]).Success? {
        StopsAtLarge(plan, parse, OnBlock(plan, parse, st, bs[0]).value.0, bs[1..]);
      }
    }
  }

  /** A second pass over what the first one wrote succeeds if and only if every section and every kept packet
      with a label of the first file left room for its comment; and then it drops nothing. */
  lemma SecondPassIff(plan: Plan, parse: LinkParser, bs: seq<InBlock>)
    requires Apply(plan, parse, EncodeAll(bs)).Success?
    ensures var (stats, out) := Apply(plan, parse, EncodeAll(bs)).value;
            var again := Apply(plan, parse, out);
            && (again.Success? <==> RoomAlong(plan, parse, [], bs))
            && (again.Success? ==> again.value.0.packets == again.value.0.kept == stats.kept)
  {
    hide FilterAll, ApplyFrom, RoomAlong, EncodeAll, Readable;
    ApplyIsFilter(plan, parse, START, bs);
    var (last, out) := FilterAll(plan, parse, START, bs).value;
    OutputReadableIff(plan, parse, START, bs);
    if forall b | b in out :: Readable(b) {
      ApplyIsFilter(plan, parse, START, out);
      SecondPass(plan, parse, START, START, bs);
    } else {
      StopsAtLarge(plan, parse, START, out);
    }
  }

  /** A section header as large as readers accept. */
  function LargeHeader(fields: seq<byte>, n: nat): Block
    requires |fields| == 4 && n % 4 == 0 && 16 + n < TWO32
  {
    Block(SHB, fields + Zeros(n))
  }

  lemma LargeIsHeader(fields: seq<byte>, n: nat)
    requires |fields| == 4 && Le32(fields, 0) == MAGIC && n % 4 == 0 && 12 <= n && 16 + n == MAX_BLOCK
    ensures var b := LargeHeader(fields, n);
            Readable(b) && IsHeader(b) && |b.body| == MAX_BLOCK - 12
  {
    hide Le32;
    var b := LargeHeader(fields, n);
    assert b.body[0..4] == fields;
    Le32At(b.body, 0, fields);
  }

  /** There is a section header of the largest size. */
  lemma LargestSection() returns (b: InBlock)
    ensures IsHeader(b) && |b.body| == 0x400_0000 - 12
  {
    hide Le32, ToLe32, IsHeader;
    var magic := ToLe32(MAGIC);
    LargeIsHeader(magic, MAX_BLOCK - 16);
    b := LargeHeader(magic, MAX_BLOCK - 16);
  }

  /** The failing input: a file of one section header of the largest size. With any plan the first pass
      succeeds and the second refuses what it wrote. */
  lemma LargestSectionFails(plan: Plan, parse: LinkParser, b: InBlock)
    requires IsHeader(b) && |b.body| == 0x400_0000 - 12
    ensures Apply(plan, parse, EncodeAll([b])).Success?
    ensures Apply(plan, parse, Apply(plan, parse, EncodeAll([b])).value.1).Failure?
  {
    hide ApplyFrom, EncodeAll, IsHeader, Commented, CommentOption;
    HeaderKind(b);
    FilterSucceedsIff(plan, parse, START, [b]);
    ApplyIsFilter(plan, parse, START, [b]);
    assert !RoomFor(plan, parse, [], b);
    assert [b][0] == b;
    SecondPassIff(plan, parse, [b]);
  }
}
