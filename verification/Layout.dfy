/**
 The bytes of a recording, field by field as the pcapng format lays them out, and what a pass makes of them: the
 reference is written without the model of the pass.
 */
module Layout {
  import opened Annotate
  import opened Bytes
  import opened EtwWriter
  import opened Filter
  import opened Pcapng
  import opened Wrappers

  type Opt = (nat, seq<byte>)

  /** Blocks of a file: a section header with version and section length, an interface, a packet with its time and
      its original length, and anything else. */
  datatype Piece =
    | SectionPiece(version: seq<byte>, options: seq<Opt>)
    | InterfacePiece(linktype: nat, fields: seq<byte>)
    | PacketPiece(iface: nat, time: seq<byte>, orig: nat, frame: seq<byte>, options: seq<Opt>)
    | OtherPiece(kind: nat, body: seq<byte>)

  function Aligned(n: nat): (z: seq<byte>)
    ensures (n + |z|) % 4 == 0 && |z| < 4
  {
    seq((4 - n % 4) % 4, _ => 0)
  }

  predicate OptionFits(o: Opt) {
    0 < o.0 < 0x1_0000 && |o.1| < 0x1_0000
  }

  predicate AllFit(os: seq<Opt>) {
    forall o | o in os :: OptionFits(o)
  }

  function OptionBytes(o: Opt): (s: seq<byte>)
    requires OptionFits(o)
    ensures |s| == 4 + |o.1| + |Aligned(|o.1|)|
  {
    ToLe16(o.0) + ToLe16(|o.1|) + o.1 + Aligned(|o.1|)
  }

  function OptionsBytes(os: seq<Opt>): (s: seq<byte>)
    requires AllFit(os)
    ensures s == [] <==> os == []
  {
    if os == [] then [] else
      assert os[0] in os && forall o | o in os[1..] :: o in os;
      OptionBytes(os[0]) + OptionsBytes(os[1..])
  }

  /** A list of options and its end mark; no list at all when there is none. */
  function OptionList(os: seq<Opt>): seq<byte>
    requires AllFit(os)
  {
    if os == [] then [] else OptionsBytes(os) + [0, 0, 0, 0]
  }

  lemma {:induction false} OptionsAligned(os: seq<Opt>)
    requires AllFit(os)
    ensures |OptionsBytes(os)| % 4 == 0 && |OptionList(os)| % 4 == 0
  {
    hide OptionBytes, Aligned;
    if os != [] {
      assert os[0] in os && forall o | o in os[1..] :: o in os;
      OptionsAligned(os[1..]);
      OptionAligned(os[0]);
      AddAligned(|OptionBytes(os[0])|, |OptionsBytes(os[1..])|);
      AddAligned(|OptionsBytes(os)|, 4);
    }
  }

  lemma OptionAligned(o: Opt)
    requires OptionFits(o)
    ensures |OptionBytes(o)| % 4 == 0
  {
    hide OptionBytes, Aligned;
    AddAligned(|o.1| + |Aligned(|o.1|)|, 4);
  }

  /** The fields of a block before its options. */
  function Fixed(p: Piece): seq<byte>
    requires p.PacketPiece? ==> p.iface < 0x1_0000_0000 && p.orig < 0x1_0000_0000 && |p.frame| < 0x1_0000_0000
    requires p.InterfacePiece? ==> p.linktype < 0x1_0000
  {
    match p
    case SectionPiece(version, _) => [0x4D, 0x3C, 0x2B, 0x1A] + version
    case InterfacePiece(linktype, fields) => ToLe16(linktype) + fields
    case PacketPiece(iface, time, orig, frame, _) =>
      ToLe32(iface) + time + ToLe32(|frame|) + ToLe32(orig) + frame + Aligned(|frame|)
    case OtherPiece(_, body) => body
  }

  function OptionsOf(p: Piece): seq<Opt> {
    match p
    case SectionPiece(_, options) => options
    case PacketPiece(_, _, _, _, options) => options
    case _ => []
  }

  function KindOf(p: Piece): nat {
    match p
    case SectionPiece(_, _) => 0x0A0D_0D0A
    case InterfacePiece(_, _) => 1
    case PacketPiece(_, _, _, _, _) => 6
    case OtherPiece(kind, _) => kind
  }

  /** The fields have their widths, and other kinds of blocks are none of the three. */
  predicate Formed(p: Piece) {
    && AllFit(OptionsOf(p))
    && match p
       case SectionPiece(version, _) => |version| == 12
       case InterfacePiece(linktype, fields) => linktype < 0x1_0000 && |fields| % 4 == 2
       case PacketPiece(iface, time, orig, frame, _) =>
         iface < 0x1_0000_0000 && |time| == 8 && orig < 0x1_0000_0000 && |frame| < 0x1_0000_0000
       case OtherPiece(kind, body) =>
         && kind < 0x1_0000_0000 && |body| % 4 == 0
         && kind != 0x0A0D_0D0A && kind != 1 && (kind == 6 ==> |body| < 20)
  }

  function Body(p: Piece): seq<byte>
    requires Formed(p)
  {
    Fixed(p) + OptionList(OptionsOf(p))
  }

  lemma FixedAligned(p: Piece)
    requires Formed(p)
    ensures |Fixed(p)| % 4 == 0
    ensures p.PacketPiece? ==> |Fixed(p)| == 20 + (|p.frame| + 3) / 4 * 4
    ensures p.SectionPiece? ==> |Fixed(p)| == 16
  {
    hide ToLe32, ToLe16, Aligned, AllFit;
    match p
    case PacketPiece(iface, time, orig, frame, _) =>
      RoundsUp(|frame|, |Aligned(|frame|)|);
      AddAligned(|frame| + |Aligned(|frame|)|, 20);
    case InterfacePiece(_, fields) => TwoMore(|fields|);
    case _ =>
  }

  lemma RoundsUp(n: nat, pad: nat)
    requires (n + pad) % 4 == 0 && pad < 4
    ensures n + pad == (n + 3) / 4 * 4
  {}

  lemma TwoMore(n: nat)
    requires n % 4 == 2
    ensures (n + 2) % 4 == 0
  {}

  lemma BodyAligned(p: Piece)
    requires Formed(p)
    ensures |Body(p)| % 4 == 0
  {
    hide Fixed, OptionList, AllFit;
    FixedAligned(p);
    OptionsAligned(OptionsOf(p));
    AddAligned(|Fixed(p)|, |OptionList(OptionsOf(p))|);
  }

  /** The block can be written: its length is a 32-bit number. */
  predicate CanBeWritten(p: Piece) {
    Formed(p) && 12 + |Body(p)| < 0x1_0000_0000
  }

  type OutPiece = p: Piece | CanBeWritten(p) witness OtherPiece(0, [])

  /** The block is within the limit of the readers, 64 MiB. */
  predicate CanBeRead(p: OutPiece) {
    12 + |Body(p)| <= 0x400_0000
  }

  type InPiece = p: OutPiece | CanBeRead(p) witness OtherPiece(0, [])

  function PieceBytes(p: OutPiece): seq<byte> {
    var size := ToLe32(12 + |Body(p)|);
    ToLe32(KindOf(p)) + size + Body(p) + size
  }

  function FileBytes(ps: seq<OutPiece>): seq<byte> {
    if ps == [] then [] else PieceBytes(ps[0]) + FileBytes(ps[1..])
  }

  // Blocks of pieces.

  function BlockOf(p: OutPiece): (b: Block)
    ensures b.kind == KindOf(p) && b.body == Body(p)
  {
    BodyAligned(p);
    Cut(KindOf(p), Body(p))
  }

  lemma EncodeOfPiece(p: OutPiece)
    ensures Encode(BlockOf(p)) == PieceBytes(p)
  {
    hide Body, ToLe32;
  }

  lemma SectionFields(p: OutPiece)
    requires p.SectionPiece?
    ensures IsHeader(BlockOf(p)) && Body(p)[..16] == Fixed(p)
  {
    hide Le32, OptionList;
    var b := Body(p);
    FixedAligned(p);
    assert b[0..4] == [0x4D, 0x3C, 0x2B, 0x1A];
    Le32At(b, 0, [0x4D, 0x3C, 0x2B, 0x1A]);
    MagicBytes();
  }

  lemma MagicBytes()
    ensures Le32([0x4D, 0x3C, 0x2B, 0x1A], 0) == 0x1A2B_3C4D
  {}

  lemma PacketPieceFields(p: OutPiece)
    requires p.PacketPiece?
    ensures var b := Body(p);
            && IsPacket(BlockOf(p)) && FixedLen(b) == |Fixed(p)| <= |b| && b[..FixedLen(b)] == Fixed(p)
            && Le32(b, 0) == p.iface && Frame(b) == p.frame
            && b[4..12] == p.time && Le32(b, 16) == p.orig
  {
    hide Le32, ToLe32, OptionList, Aligned;
    var b := Body(p);
    FixedAligned(p);
    assert b[0..4] == ToLe32(p.iface);
    assert b[12..16] == ToLe32(|p.frame|);
    assert b[16..20] == ToLe32(p.orig);
    Le32At(b, 0, ToLe32(p.iface));
    Le32At(b, 12, ToLe32(|p.frame|));
    Le32At(b, 16, ToLe32(p.orig));
    assert b[20..20 + |p.frame|] == p.frame;
  }

  // The comment.

  /** A comment has code 1 and at most 65 532 bytes; it stands before the options that were there. */
  function Note(text: seq<byte>): (o: Opt)
    ensures OptionFits(o)
  {
    (1, if |text| > 65_532 then text[..65_532] else text)
  }

  function WithNote(p: Piece, text: seq<byte>): Piece
    requires p.SectionPiece? || p.PacketPiece?
  {
    p.(options := [Note(text)] + p.options)
  }

  lemma NoteBytes(text: seq<byte>)
    ensures CommentOption(text) == OptionBytes(Note(text))
  {
    hide ToLe16;
    var n := |Note(text).1|;
    assert Zeros(Padding(n)) == Aligned(n);
  }

  lemma NoteListed(text: seq<byte>, os: seq<Opt>)
    requires AllFit(os)
    ensures AllFit([Note(text)] + os)
    ensures OptionList([Note(text)] + os)
            == CommentOption(text) + if os == [] then [0, 0, 0, 0] else OptionList(os)
  {
    hide OptionBytes, CommentOption, Note;
    NoteBytes(text);
    assert ([Note(text)] + os)[1..] == os;
  }

  lemma CommentAfter(fixed: seq<byte>, list: seq<byte>, text: seq<byte>)
    ensures WithComment(fixed + list, |fixed|, text)
            == fixed + (CommentOption(text) + if list == [] then [0, 0, 0, 0] else list)
  {
    hide CommentOption;
    assert (fixed + list)[..|fixed|] == fixed && (fixed + list)[|fixed|..] == list;
    assert Zeros(4) == [0, 0, 0, 0];
  }

  lemma NoteKeepsFields(p: Piece, text: seq<byte>)
    requires (p.SectionPiece? || p.PacketPiece?) && Formed(p)
    ensures Formed(WithNote(p, text)) && Fixed(WithNote(p, text)) == Fixed(p)
    ensures OptionsOf(WithNote(p, text)) == [Note(text)] + OptionsOf(p) && KindOf(WithNote(p, text)) == KindOf(p)
  {
    hide OptionFits, Note, ToLe32, Aligned;
  }

  lemma NoteInFront(p: InPiece, text: seq<byte>)
    requires p.SectionPiece? || p.PacketPiece?
    ensures CanBeWritten(WithNote(p, text))
    ensures WithComment(Body(p), |Fixed(p)|, text) == Body(WithNote(p, text)) && KindOf(WithNote(p, text)) == KindOf(p)
  {
    hide CommentOption, OptionsBytes, AllFit, Fixed, Note, WithNote;
    var os := OptionsOf(p);
    NoteKeepsFields(p, text);
    NoteListed(text, os);
    CommentAfter(Fixed(p), OptionList(os), text);
  }

  // Whole files.

  function BlocksOf(ps: seq<OutPiece>): (bs: seq<Block>)
    ensures |bs| == |ps|
  {
    if ps == [] then [] else [BlockOf(ps[0])] + BlocksOf(ps[1..])
  }

  function InBlocksOf(ps: seq<InPiece>): (bs: seq<InBlock>)
    ensures bs == BlocksOf(ps)
  {
    if ps == [] then [] else [BlockOf(ps[0])] + InBlocksOf(ps[1..])
  }

  lemma {:induction false} EncodeOfPieces(ps: seq<OutPiece>)
    ensures EncodeAll(BlocksOf(ps)) == FileBytes(ps)
    decreases |ps|
  {
    hide PieceBytes, Encode;
    if ps != [] {
      EncodeOfPieces(ps[1..]);
      EncodeOfPiece(ps[0]);
    }
  }

  lemma {:induction false} BlocksOfSum(ps: seq<OutPiece>, qs: seq<OutPiece>)
    ensures BlocksOf(ps + qs) == BlocksOf(ps) + BlocksOf(qs)
    decreases |ps|
  {
    if ps == [] {
      assert ps + qs == qs;
    } else {
      assert (ps + qs)[1..] == ps[1..] + qs;
      BlocksOfSum(ps[1..], qs);
    }
  }

  lemma BlocksOfFew(p: OutPiece)
    ensures BlocksOf([]) == [] && BlocksOf([p]) == [BlockOf(p)]
  {
    assert [p][1..] == [];
  }

  // What a reader makes of a laid out block.

  lemma OptionRead(o: Opt, rest: seq<byte>)
    requires OptionFits(o)
    ensures Options(OptionBytes(o) + rest) == [o] + Options(rest)
  {
    var n := |o.1|;
    var s := OptionBytes(o) + rest;
    assert s[0] == ToLe16(o.0)[0] && s[1] == ToLe16(o.0)[1];
    assert s[2] == ToLe16(n)[0] && s[3] == ToLe16(n)[1];
    assert s[4..4 + n] == o.1;
    assert s[4 + n + Padding(n)..] == rest;
  }

  lemma {:induction false} OptionsRead(os: seq<Opt>)
    requires AllFit(os)
    ensures Options(OptionsBytes(os) + [0, 0, 0, 0]) == os
  {
    hide OptionBytes, OptionFits;
    if os == [] {
      EmptyOptions();
      assert OptionsBytes(os) + [0, 0, 0, 0] == [0, 0, 0, 0] == Zeros(4);
    } else {
      assert os[0] in os && forall o | o in os[1..] :: o in os;
      OptionRead(os[0], OptionsBytes(os[1..]) + [0, 0, 0, 0]);
      OptionsRead(os[1..]);
      assert OptionsBytes(os) + [0, 0, 0, 0] == OptionBytes(os[0]) + (OptionsBytes(os[1..]) + [0, 0, 0, 0]);
    }
  }

  /** The views of sections and packets hold the fields, the frame and the options that were laid out. */
  lemma ViewOfPiece(linktypes: seq<nat>, p: OutPiece)
    ensures ViewOf(linktypes, BlockOf(p))
            == match p
               case SectionPiece(_, options) => Section(Fixed(p), options)
               case PacketPiece(iface, _, _, frame, options) =>
                 Packet(if iface < |linktypes| then linktypes[iface] else 1, Fixed(p), frame, options)
               case _ => Other(BlockOf(p))
  {
    hide Le32, Fixed, Options, OptionsBytes, Aligned, AllFit;
    if p.SectionPiece? || p.PacketPiece? {
      OptionsRead(OptionsOf(p));
      FixedAligned(p);
      assert Body(p)[|Fixed(p)|..] == OptionList(OptionsOf(p));
      NoOptions();
    }
    if p.SectionPiece? {
      SectionFields(p);
    } else if p.PacketPiece? {
      PacketPieceFields(p);
    } else {
      OtherFields(p);
    }
  }

  lemma OtherFields(p: OutPiece)
    requires p.InterfacePiece? || p.OtherPiece?
    ensures !IsHeader(BlockOf(p)) && !IsPacket(BlockOf(p))
  {
    hide Le32;
  }

  lemma NoOptions()
    ensures Options([]) == []
  {}

  // The writer.

  /** The microseconds since 1970 of a time in steps of 100 nanoseconds since 1601; earlier times are the epoch. */
  function MicrosSince1970(filetime: int): nat {
    if filetime / 10 < 11_644_473_600 * 1_000_000 then 0 else filetime / 10 - 11_644_473_600 * 1_000_000
  }

  /** What is written for a frame: its time in two halves, the high one first, and an original length that is no
      less than that of the frame. */
  function PieceOfCapture(c: Capture): (p: InPiece)
  {
    var us := MicrosSince1970(c.filetime);
    assert us / 0x1_0000_0000 < 0x1_0000_0000 by { MicrosFit(c.filetime); }
    var p := PacketPiece(c.iface, ToLe32(us / 0x1_0000_0000) + ToLe32(us % 0x1_0000_0000),
                         if c.orig < |c.frame| then |c.frame| else c.orig, c.frame, []);
    FixedAligned(p);
    p
  }

  function PiecesOfCaptures(cs: seq<Capture>): seq<InPiece> {
    if cs == [] then [] else [PieceOfCapture(cs[0])] + PiecesOfCaptures(cs[1..])
  }

  /** Version 1.0 and unknown length, and two interfaces, Ethernet and raw IP. */
  function WrittenHead(): seq<InPiece> {
    [SectionPiece([1, 0, 0, 0, 0xff, 0xff, 0xff, 0xff, 0xff, 0xff, 0xff, 0xff], []),
     InterfacePiece(1, [0, 0, 0, 0, 0, 0]), InterfacePiece(101, [0, 0, 0, 0, 0, 0])]
  }

  function WrittenPieces(cs: seq<Capture>): seq<InPiece> {
    WrittenHead() + PiecesOfCaptures(cs)
  }

  lemma CaptureLaidOut(c: Capture)
    ensures PacketBlock(c) == BlockOf(PieceOfCapture(c))
  {
    hide PacketBody, PieceOfCapture, Body, Padding, Aligned;
    var n := |c.frame|;
    CaptureBody(c);
    SameLength(n);
    assert Zeros(Padding(n)) == Aligned(n) by { SamePadding(n); }
    CaptureIsPacket(c);
  }

  lemma CaptureIsPacket(c: Capture)
    ensures PieceOfCapture(c).PacketPiece?
  {
    hide CanBeRead, CanBeWritten;
  }

  lemma SamePadding(n: nat)
    ensures Zeros(Padding(n)) == Aligned(n)
  {}

  lemma CaptureBody(c: Capture)
    ensures Body(PieceOfCapture(c)) == PacketBody(c) + Aligned(|c.frame|)
  {
    hide ToLe32, Aligned, CanBeRead, CanBeWritten, MicrosSince1970, Micros;
    MicrosSame(c.filetime);
    var p := PieceOfCapture(c);
    assert Fixed(p) == PacketBody(c) + Aligned(|c.frame|);
    assert Fixed(p) + [] == Fixed(p);
  }

  lemma MicrosSame(filetime: int)
    ensures Micros(filetime) == MicrosSince1970(filetime)
  {}

  lemma SameLength(n: nat)
    ensures Padding(n) == Padding(20 + n)
  {}

  lemma {:induction false} CapturesLaidOut(cs: seq<Capture>)
    ensures PacketBlocks(cs) == BlocksOf(PiecesOfCaptures(cs))
    decreases |cs|
  {
    hide PacketBlock, BlockOf, PieceOfCapture;
    if cs != [] {
      CaptureLaidOut(cs[0]);
      CapturesLaidOut(cs[1..]);
      assert PiecesOfCaptures(cs)[1..] == PiecesOfCaptures(cs[1..]);
    }
  }

  lemma HeadLaidOut()
    ensures Head() == BlocksOf(WrittenHead())
  {
    hide CanBeWritten, BlockOf;
    var head := WrittenHead();
    SectionLaidOut(head[0]);
    InterfaceLaidOut(head[1]);
    InterfaceLaidOut(head[2]);
    assert head[1..] == [head[1], head[2]] && head[1..][1..] == [head[2]];
    BlocksOfFew(head[2]);
  }

  lemma SectionLaidOut(p: OutPiece)
    requires p == WrittenHead()[0]
    ensures HeaderBlock() == BlockOf(p)
  {
    assert HeaderBlock().body == Body(p);
  }

  lemma InterfaceLaidOut(p: OutPiece)
    requires p.InterfacePiece? && p.fields == [0, 0, 0, 0, 0, 0]
    ensures InterfaceBlock(p.linktype) == BlockOf(p)
  {
    hide ToLe16;
    assert InterfaceBlock(p.linktype).body == Body(p);
  }

  /** The writer writes the file as it is laid out. */
  lemma WriterLaysOut(cs: seq<Capture>)
    ensures EncodeAll(FileBlocks(cs)) == FileBytes(WrittenPieces(cs))
  {
    hide EncodeAll, PacketBlocks, PiecesOfCaptures, BlocksOf, FileBytes, Head, WrittenHead;
    CapturesLaidOut(cs);
    HeadLaidOut();
    BlocksOfSum(WrittenHead(), PiecesOfCaptures(cs));
    EncodeOfPieces(WrittenPieces(cs));
  }
}
