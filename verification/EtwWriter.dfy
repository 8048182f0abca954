/** The writer of a recording: section header, two interfaces, one enhanced packet block per frame. */
module EtwWriter {
  import opened Annotate
  import opened Bytes
  import opened Pcapng
  import opened Wrappers

  const ETHERNET := 1
  const RAW_IP := 101
  const EPOCH_GAP := 11_644_473_600_000_000  // microseconds from 1601 to 1970
  const MAX_FRAME := 0xffff

  /** A frame handed to the writer: interface 0 is Ethernet, interface 1 raw IP; the time counts
      100-nanosecond steps since 1601. */
  datatype RawCapture = Capture(iface: nat, filetime: int, frame: seq<byte>, orig: nat)

  predicate Capturable(c: RawCapture) {
    && c.iface <= 1 && |c.frame| <= MAX_FRAME && c.orig < TWO32
    && -0x8000_0000_0000_0000 <= c.filetime < 0x8000_0000_0000_0000
  }

  type Capture = c: RawCapture | Capturable(c) witness Capture(0, 0, [], 0)

  function Micros(filetime: int): nat {
    var us := filetime / 10 - EPOCH_GAP;
    if us < 0 then 0 else us
  }

  lemma MicrosFit(filetime: int)
    requires filetime < 0x8000_0000_0000_0000
    ensures Micros(filetime) / TWO32 < TWO32
  {}

  /** A block with its body padded to a multiple of four. */
  function PaddedBlock(kind: nat, body: seq<byte>): (b: Block)
    requires kind < TWO32 && |body| < 0x1_0000_0000 - 15
    ensures b.kind == kind && |body| <= |b.body| <= |body| + 3 && b.body[..|body|] == body
  {
    Cut(kind, body + Zeros(Padding(|body|)))
  }

  function PacketBody(c: Capture): (b: seq<byte>)
    ensures |b| == EPB_FIXED + |c.frame|
  {
    MicrosFit(c.filetime);
    var us := Micros(c.filetime);
    ToLe32(c.iface) + ToLe32(us / TWO32) + ToLe32(us % TWO32) + ToLe32(|c.frame|)
    + ToLe32(if c.orig > |c.frame| then c.orig else |c.frame|) + c.frame
  }

  function PacketBlock(c: Capture): (b: InBlock)
  {
    PaddedBlock(EPB, PacketBody(c))
  }

  function HeaderBlock(): (b: InBlock)
    ensures IsHeader(b) && |b.body| == SHB_FIXED
  {
    HeaderIsHeader(ToLe32(MAGIC), [1, 0, 0, 0] + seq(8, _ => 0xff));
    Cut(SHB, ToLe32(MAGIC) + ([1, 0, 0, 0] + seq(8, _ => 0xff)))
  }

  lemma HeaderIsHeader(magic: seq<byte>, version: seq<byte>)
    requires |magic| == 4 && Le32(magic, 0) == MAGIC && |version| == 12
    ensures IsHeader(Cut(SHB, magic + version))
  {
    hide Le32;
    Le32At(magic + version, 0, magic);
  }

  function InterfaceBlock(linktype: nat): (b: InBlock)
    requires linktype < TWO16
    ensures b.kind == IDB && |b.body| == 8 && Le16(b.body[0], b.body[1]) == linktype
  {
    var fields := ToLe16(linktype) + Zeros(6);
    assert fields[0] == ToLe16(linktype)[0] && fields[1] == ToLe16(linktype)[1];
    Eight(IDB, fields)
  }

  function Eight(kind: nat, body: seq<byte>): (b: InBlock)
    requires kind < TWO32 && |body| == 8
    ensures b == Block(kind, body)
  {
    Block(kind, body)
  }

  function PacketBlocks(cs: seq<Capture>): seq<InBlock> {
    if cs == [] then [] else [PacketBlock(cs[0])] + PacketBlocks(cs[1..])
  }

  function Head(): seq<InBlock> {
    [HeaderBlock(), InterfaceBlock(ETHERNET), InterfaceBlock(RAW_IP)]
  }

  function FileBlocks(cs: seq<Capture>): seq<InBlock> {
    Head() + PacketBlocks(cs)
  }

  function LinkTypeOf(c: Capture): nat {
    if c.iface == 0 then ETHERNET else RAW_IP
  }

  lemma PaddedAligned(b: Block)
    requires 12 + |b.body| < 100
    ensures PaddedBlock(b.kind, b.body) == b
  {}

  lemma EncodeThree(a: Block, b: Block, c: Block)
    ensures EncodeAll([a, b, c]) == Encode(a) + Encode(b) + Encode(c)
  {
    hide Encode;
    assert [a, b, c][1..] == [b, c] && [b, c][1..] == [c];
    assert EncodeAll([c]) == Encode(c);
  }

  lemma EncodePadded(kind: nat, body: seq<byte>)
    requires kind < TWO32 && |body| < 0x1_0000_0000 - 15
    ensures |PaddedBlock(kind, body).body| == |body| + Padding(|body|)
    ensures var size := ToLe32(12 + |body| + Padding(|body|));
            Encode(PaddedBlock(kind, body)) == ToLe32(kind) + size + (body + Zeros(Padding(|body|))) + size
  {
    hide ToLe32, Padding;
  }

  lemma InARow(before: seq<byte>, kind: seq<byte>, size: seq<byte>, body: seq<byte>, pad: seq<byte>)
    ensures before + kind + size + body + pad + size == before + (kind + size + (body + pad) + size)
  {}

  /** The file as it is written, block behind block. */
  class Output {
    var bytes: seq<byte>

    constructor ()
      ensures bytes == []
    {
      bytes := [];
    }

    /** Writes one block: kind, length, body, padding, length again. */
    method WriteBlock(kind: nat, body: seq<byte>)
      requires kind < TWO32 && |body| < 0x1_0000_0000 - 15
      modifies this
      ensures bytes == old(bytes) + Encode(PaddedBlock(kind, body))
    {
      hide ToLe32, Padding, PaddedBlock, Encode;
      var pad := Padding(|body|);
      var size := ToLe32(12 + |body| + pad);
      EncodePadded(kind, body);
      InARow(bytes, ToLe32(kind), size, body, Zeros(pad));
      bytes := bytes + ToLe32(kind);
      bytes := bytes + size;
      bytes := bytes + body;
      bytes := bytes + Zeros(pad);
      bytes := bytes + size;
    }

    method WriteHeader()
      modifies this
      ensures bytes == old(bytes) + EncodeAll(Head())
    {
      hide Encode, PaddedBlock, HeaderBlock, InterfaceBlock;
      var section, ethernet, rawIp := HeaderBlock(), InterfaceBlock(ETHERNET), InterfaceBlock(RAW_IP);
      PaddedAligned(section);
      PaddedAligned(ethernet);
      PaddedAligned(rawIp);
      WriteBlock(SHB, section.body);
      WriteBlock(IDB, ethernet.body);
      WriteBlock(IDB, rawIp.body);
      EncodeThree(section, ethernet, rawIp);
    }

    method WritePacket(c: Capture)
      modifies this
      ensures bytes == old(bytes) + Encode(PacketBlock(c))
    {
      hide Encode, PaddedBlock, PacketBody;
      WriteBlock(EPB, PacketBody(c));
    }

    /** A whole recording. */
    method Record(cs: seq<Capture>)
      modifies this
      ensures bytes == old(bytes) + EncodeAll(FileBlocks(cs))
    {
      hide Encode, Head, PacketBlock;
      WriteHeader();
      EncodeAllSplits(Head(), PacketBlocks(cs));
      var i := 0;
      while i < |cs|
        invariant i <= |cs|
        invariant bytes + EncodeAll(PacketBlocks(cs[i..])) == old(bytes) + EncodeAll(FileBlocks(cs))
      {
        WritePacket(cs[i]);
        assert cs[i..][1..] == cs[i + 1..];
        i := i + 1;
      }
      assert EncodeAll(PacketBlocks(cs[i..])) == [];
    }
  }
}
