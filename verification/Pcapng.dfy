/** pcapng files as sequences of blocks, and the reading of one block. */
module Pcapng {
  import opened Bytes
  import opened Wrappers

  const SHB := 0x0A0D_0D0A
  const IDB := 1
  const EPB := 6
  const MAGIC := 0x1A2B_3C4D
  const MAX_BLOCK := 0x400_0000  // 2^26
  const SHB_FIXED := 16
  const EPB_FIXED := 20

  datatype RawBlock = Block(kind: nat, body: seq<byte>)

  /** A block as a writer may emit it: padded, its length a 32-bit number. */
  predicate Writable(b: RawBlock) {
    b.kind < TWO32 && |b.body| % 4 == 0 && 12 + |b.body| < TWO32
  }

  type Block = b: RawBlock | Writable(b) witness Block(0, [])

  /** A block the readers accept: within their limit. */
  predicate Readable(b: Block) {
    12 + |b.body| <= MAX_BLOCK
  }

  type InBlock = b: Block | Readable(b) witness Block(0, [])

  function Encode(b: Block): (s: seq<byte>)
    ensures |s| == 12 + |b.body|
  {
    var size := ToLe32(12 + |b.body|);
    ToLe32(b.kind) + size + b.body + size
  }

  function EncodeAll(bs: seq<Block>): seq<byte> {
    if bs == [] then [] else Encode(bs[0]) + EncodeAll(bs[1..])
  }

  lemma {:induction false} EncodeAllSplits(xs: seq<Block>, ys: seq<Block>)
    ensures EncodeAll(xs + ys) == EncodeAll(xs) + EncodeAll(ys)
    decreases |xs|
  {
    if xs == [] {
      assert xs + ys == ys;
    } else {
      assert (xs + ys)[1..] == xs[1..] + ys;
      EncodeAllSplits(xs[1..], ys);
    }
  }

  predicate IsHeader(b: Block) {
    b.kind == SHB && |b.body| >= SHB_FIXED && Le32(b.body, 0) == MAGIC
  }

  predicate IsPacket(b: Block) {
    b.kind == EPB && |b.body| >= EPB_FIXED
  }

  function CapLen(body: seq<byte>): nat
    requires |body| >= EPB_FIXED
  {
    Le32(body, 12)
  }

  /** The length of the fields and the padded frame before the options. */
  function FixedLen(body: seq<byte>): (n: nat)
    requires |body| >= EPB_FIXED
    ensures n >= EPB_FIXED + CapLen(body)
  {
    EPB_FIXED + (CapLen(body) + 3) / 4 * 4
  }

  function Frame(body: seq<byte>): seq<byte>
    requires |body| >= EPB_FIXED && FixedLen(body) <= |body|
  {
    body[EPB_FIXED..EPB_FIXED + CapLen(body)]
  }

  function LinkType(linktypes: seq<nat>, body: seq<byte>): nat
    requires |body| >= EPB_FIXED
  {
    var iface := Le32(body, 0);
    if iface < |linktypes| then linktypes[iface] else 1
  }

  datatype FileError = UnexpectedEof | CorruptedBlock | LengthsDisagree | BigEndian | CorruptedPacket | MissingHeader

  /** The checked length of the next block. */
  function BlockLength(d: seq<byte>): (r: Result<nat, FileError>)
    ensures r.Success? ==> 12 <= r.value <= MAX_BLOCK && (r.value - 12) % 4 == 0 && r.value <= |d|
  {
    if |d| < 8 then Failure(UnexpectedEof)
    else
      var len := Le32(d, 4);
      if !(12 <= len <= MAX_BLOCK) || len % 4 != 0 then Failure(CorruptedBlock)
      else if |d| < len then Failure(UnexpectedEof)
      else if Le32(d, len - 4) != len then Failure(LengthsDisagree)
      else Success(len)
  }

  function Cut(kind: nat, body: seq<byte>): Block
    requires kind < TWO32 && |body| % 4 == 0 && 12 + |body| < TWO32
  {
    Block(kind, body)
  }

  /** The next block of a file that is not at its end, and what follows it. */
  function ReadBlock(d: seq<byte>): (r: Result<(Block, seq<byte>), FileError>)
    requires d != []
    ensures r.Success? ==> |r.value.1| < |d|
  {
    match BlockLength(d)
    case Failure(e) => Failure(e)
    case Success(len) => Success((Cut(Le32(d, 0), d[8..len - 4]), d[len..]))
  }

  lemma Le32At(d: seq<byte>, o: nat, s: seq<byte>)
    requires o + 4 <= |d| && |s| == 4 && d[o..o + 4] == s
    ensures Le32(d, o) == Le32(s, 0)
  {
    assert d[o] == s[0] && d[o + 1] == s[1] && d[o + 2] == s[2] && d[o + 3] == s[3];
  }

  lemma Le32OfHalves(s: seq<byte>, o: nat)
    requires o + 4 <= |s|
    ensures Le32(s, o) == Le16(s[o], s[o + 1]) + 0x1_0000 * Le16(s[o + 2], s[o + 3])
  {}

  lemma ToLe32OfLe32(s: seq<byte>, o: nat)
    requires o + 4 <= |s|
    ensures ToLe32(Le32(s, o)) == s[o..o + 4]
  {
    hide Le16, ToLe16, Le32;
    var lo, hi := Le16(s[o], s[o + 1]), Le16(s[o + 2], s[o + 3]);
    Le32OfHalves(s, o);
    Bytes16(s[o], s[o + 1]);
    Bytes16(s[o + 2], s[o + 3]);
    Halves(lo, hi);
    assert s[o..o + 4] == [s[o], s[o + 1]] + [s[o + 2], s[o + 3]];
  }

  lemma Bytes16(lo: byte, hi: byte)
    ensures Le16(lo, hi) < 0x1_0000 && ToLe16(Le16(lo, hi)) == [lo, hi]
  {}

  lemma Halves(lo: nat, hi: nat)
    requires lo < 0x1_0000
    ensures (lo + 0x1_0000 * hi) % 0x1_0000 == lo && (lo + 0x1_0000 * hi) / 0x1_0000 == hi
  {}

  lemma EncodedFields(b: Block, rest: seq<byte>)
    ensures var d := Encode(b) + rest; var len := 12 + |b.body|;
            && |d| >= len
            && Le32(d, 0) == b.kind && Le32(d, 4) == len && Le32(d, len - 4) == len
            && d[8..len - 4] == b.body && d[len..] == rest
  {
    hide Le32, ToLe32;
    var d, len := Encode(b) + rest, 12 + |b.body|;
    assert d[0..4] == ToLe32(b.kind);
    assert d[4..8] == ToLe32(len);
    assert d[len - 4..len] == ToLe32(len);
    Le32At(d, 0, ToLe32(b.kind));
    Le32At(d, 4, ToLe32(len));
    Le32At(d, len - 4, ToLe32(len));
  }

  lemma ReadOfEncoded(b: Block, rest: seq<byte>)
    ensures Readable(b) ==> ReadBlock(Encode(b) + rest) == Success((b, rest))
    ensures !Readable(b) ==> ReadBlock(Encode(b) + rest) == Failure(CorruptedBlock)
  {
    hide Le32, Encode;
    EncodedFields(b, rest);
  }

  /** What is read as a block was written as that block. */
  lemma EncodedOfRead(d: seq<byte>)
    requires d != [] && ReadBlock(d).Success?
    ensures var (b, rest) := ReadBlock(d).value; Readable(b) && d == Encode(b) + rest
  {
    hide Le32, ToLe32;
    var len := Le32(d, 4);
    ToLe32OfLe32(d, 0);
    ToLe32OfLe32(d, 4);
    ToLe32OfLe32(d, len - 4);
    assert d == d[0..4] + d[4..8] + d[8..len - 4] + d[len - 4..len] + d[len..];
  }
}
