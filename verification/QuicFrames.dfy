/** The frames of an Initial packet (section 19 of RFC 9000): the pieces of the CRYPTO stream. */
module QuicFrames {
  import opened Bytes
  import opened QuicInt
  import opened Reassembly
  import opened Wrappers

  const PADDING: byte := 0x00
  const PING: byte := 0x01
  const ACK: byte := 0x02
  const ACK_ECN: byte := 0x03
  const CRYPTO: byte := 0x06
  const CLOSE: byte := 0x1c

  /** The offset behind `count` integers. */
  function Skip(d: seq<byte>, p: nat, count: nat): (r: Option<nat>)
    ensures r.Some? ==> p <= r.value
    decreases count
  {
    if count == 0 then Some(p)
    else
      match Varint(d, p)
      case None => None
      case Some((_, n)) => Skip(d, p + n, count - 1)
  }

  /** Behind the fields of an ACK frame: largest, delay, range count, ranges and, with ECN, three counts. */
  function BehindAck(d: seq<byte>, p: nat, ecn: bool): (r: Option<nat>)
    ensures r.Some? ==> p <= r.value
  {
    match Skip(d, p, 2)
    case None => None
    case Some(q) =>
      match Varint(d, q)
      case None => None
      case Some((ranges, n)) => Skip(d, q + n, 1 + 2 * ranges + if ecn then 3 else 0)
  }

  function BehindClose(d: seq<byte>, p: nat): (r: Option<nat>)
    ensures r.Some? ==> p <= r.value
  {
    match Skip(d, p, 2)
    case None => None
    case Some(q) =>
      match Varint(d, q)
      case None => None
      case Some((len, n)) => Some(q + n + len)
  }

  /** The piece of a CRYPTO frame and the offset behind it. */
  function CryptoAt(d: seq<byte>, p: nat): (r: Option<(Piece, nat)>)
    ensures r.Some? ==> p <= r.value.1 <= |d|
  {
    match Varint(d, p)
    case None => None
    case Some((offset, n)) =>
      match Varint(d, p + n)
      case None => None
      case Some((len, m)) =>
        var q := p + n + m;
        if q + len > |d| then None else Some((Piece(offset, d[q..q + len]), q + len))
  }

  /** One frame: the piece it carries, if any, and the offset behind it; an unknown or cut frame has none. */
  function Step(d: seq<byte>, p: nat): (r: Option<(Option<Piece>, nat)>)
    requires p < |d|
    ensures r.Some? ==> p < r.value.1
  {
    if d[p] == PADDING || d[p] == PING then Some((None, p + 1))
    else if d[p] == ACK || d[p] == ACK_ECN then Bare(BehindAck(d, p + 1, d[p] == ACK_ECN))
    else if d[p] == CLOSE then Bare(BehindClose(d, p + 1))
    else if d[p] == CRYPTO then
      match CryptoAt(d, p + 1)
      case None => None
      case Some((piece, q)) => Some((Some(piece), q))
    else None
  }

  function Bare(behind: Option<nat>): Option<(Option<Piece>, nat)> {
    if behind.Some? then Some((None, behind.value)) else None
  }

  function Listed(piece: Option<Piece>): seq<Piece> {
    if piece.Some? then [piece.value] else []
  }

  /** The pieces of the CRYPTO frames from offset `p` on, until the first frame that cannot be read. */
  function CryptoFrames(d: seq<byte>, p: nat): seq<Piece>
    decreases |d| - p
  {
    if p >= |d| then []
    else
      match Step(d, p)
      case None => []
      case Some((piece, q)) => Listed(piece) + CryptoFrames(d, q)
  }

  /** One cursor over the frames, up to the first that is cut off or unknown. */
  method ReadFrames(d: seq<byte>) returns (out: seq<Piece>)
    ensures out == CryptoFrames(d, 0)
  {
    out := [];
    var p := 0;
    while p < |d|
      invariant out + CryptoFrames(d, p) == CryptoFrames(d, 0)
      decreases |d| - p
    {
      var step := Step(d, p);
      if step.None? { break; }
      assert out + (Listed(step.value.0) + CryptoFrames(d, step.value.1))
             == (out + Listed(step.value.0)) + CryptoFrames(d, step.value.1);
      out := out + Listed(step.value.0);
      p := step.value.1;
    }
  }

  // What a sender writes.

  /** An integer in an encoding of one of the four widths. */
  datatype RawNum = Num(value: nat, width: nat)

  predicate ValidNum(n: RawNum) {
    && (n.width == 1 || n.width == 2 || n.width == 4 || n.width == 8)
    && n.value < 64 * Pow256(n.width - 1)
  }

  type Num = n: RawNum | ValidNum(n) witness Num(0, 1)

  datatype Frame =
    | Padding
    | Ping
    | Ack(largest: Num, delay: Num, count: Num, ranges: seq<Num>, ecn: seq<Num>)
    | Crypto(offset: Num, length: Num, data: seq<byte>)
    | Close(code: Num, kind: Num, length: Num, reason: seq<byte>)

  predicate ValidFrame(f: Frame) {
    match f
    case Ack(_, _, count, ranges, ecn) => |ranges| == 1 + 2 * count.value && (|ecn| == 0 || |ecn| == 3)
    case Crypto(_, length, data) => length.value == |data|
    case Close(_, _, length, reason) => length.value == |reason|
    case _ => true
  }

  type AnyFrame = f: Frame | ValidFrame(f) witness Padding

  function EncodeNum(n: Num): (s: seq<byte>)
    ensures |s| == n.width
  {
    EncodeVarint(n.value, n.width)
  }

  function EncodeNums(ns: seq<Num>): seq<byte> {
    if ns == [] then [] else EncodeNum(ns[0]) + EncodeNums(ns[1..])
  }

  function Kind(f: AnyFrame): byte {
    match f
    case Padding => 0x00
    case Ping => 0x01
    case Ack(_, _, _, _, ecn) => if ecn == [] then 0x02 else 0x03
    case Crypto(_, _, _) => 0x06
    case Close(_, _, _, _) => 0x1c
  }

  function Body(f: AnyFrame): seq<byte> {
    match f
    case Padding => []
    case Ping => []
    case Ack(largest, delay, count, ranges, ecn) =>
      EncodeNums([largest, delay]) + (EncodeNum(count) + EncodeNums(ranges + ecn))
    case Crypto(offset, length, data) => EncodeNum(offset) + (EncodeNum(length) + data)
    case Close(code, kind, length, reason) => EncodeNums([code, kind]) + (EncodeNum(length) + reason)
  }

  function EncodeFrame(f: AnyFrame): seq<byte> {
    [Kind(f)] + Body(f)
  }

  function EncodeFrames(fs: seq<AnyFrame>): seq<byte> {
    if fs == [] then [] else EncodeFrame(fs[0]) + EncodeFrames(fs[1..])
  }

  function PieceOf(f: AnyFrame): Option<Piece> {
    if f.Crypto? then Some(Piece(f.offset.value, f.data)) else None
  }

  function PiecesOf(fs: seq<AnyFrame>): seq<Piece> {
    if fs == [] then [] else Listed(PieceOf(fs[0])) + PiecesOf(fs[1..])
  }

  /** `d` continues at `p` with `head` and then `tail`. */
  lemma Continue(d: seq<byte>, p: nat, head: seq<byte>, tail: seq<byte>)
    requires p <= |d| && d[p..] == head + tail
    ensures p + |head| <= |d| && d[p..p + |head|] == head && d[p + |head|..] == tail
  {
    assert d[p + |head|..] == d[p..][|head|..];
    assert d[p..p + |head|] == d[p..][..|head|];
  }

  lemma NumAt(d: seq<byte>, p: nat, n: Num, tail: seq<byte>)
    requires p <= |d| && d[p..] == EncodeNum(n) + tail
    ensures Varint(d, p) == Some((n.value, n.width))
    ensures p + n.width <= |d| && d[p + n.width..] == tail
  {
    Continue(d, p, EncodeNum(n), tail);
    VarintOfEncoded(n.value, n.width, d, p);
  }

  lemma {:induction false} NumsAt(d: seq<byte>, p: nat, ns: seq<Num>, tail: seq<byte>)
    requires p <= |d| && d[p..] == EncodeNums(ns) + tail
    ensures Skip(d, p, |ns|) == Some(p + |EncodeNums(ns)|)
    ensures p + |EncodeNums(ns)| <= |d| && d[p + |EncodeNums(ns)|..] == tail
    decreases |ns|
  {
    hide Varint, EncodeNum;
    if ns == [] {
      assert d[p..] == tail;
    } else {
      var others := EncodeNums(ns[1..]) + tail;
      assert d[p..] == EncodeNum(ns[0]) + others;
      NumAt(d, p, ns[0], others);
      NumsAt(d, p + ns[0].width, ns[1..], tail);
    }
  }

  lemma AckAt(d: seq<byte>, p: nat, f: AnyFrame, tail: seq<byte>)
    requires f.Ack? && p <= |d|
    requires d[p..] == Body(f) + tail
    ensures var q := p + |Body(f)|;
            BehindAck(d, p, f.ecn != []) == Some(q) && q <= |d| && d[q..] == tail
  {
    hide Varint, EncodeNum, EncodeNums, Skip;
    var rest := EncodeNums(f.ranges + f.ecn) + tail;
    assert d[p..] == EncodeNums([f.largest, f.delay]) + (EncodeNum(f.count) + rest);
    NumsAt(d, p, [f.largest, f.delay], EncodeNum(f.count) + rest);
    var q := p + |EncodeNums([f.largest, f.delay])|;
    NumAt(d, q, f.count, rest);
    NumsAt(d, q + f.count.width, f.ranges + f.ecn, tail);
  }

  lemma CryptoFrameAt(d: seq<byte>, p: nat, f: AnyFrame, tail: seq<byte>)
    requires f.Crypto? && p <= |d|
    requires d[p..] == Body(f) + tail
    ensures var q := p + |Body(f)|;
            CryptoAt(d, p) == Some((Piece(f.offset.value, f.data), q)) && q <= |d| && d[q..] == tail
  {
    hide Varint, EncodeNum;
    var rest := EncodeNum(f.length) + (f.data + tail);
    assert d[p..] == EncodeNum(f.offset) + rest;
    NumAt(d, p, f.offset, rest);
    var q := p + f.offset.width;
    NumAt(d, q, f.length, f.data + tail);
    Continue(d, q + f.length.width, f.data, tail);
  }

  lemma CloseAt(d: seq<byte>, p: nat, f: AnyFrame, tail: seq<byte>)
    requires f.Close? && p <= |d|
    requires d[p..] == Body(f) + tail
    ensures var q := p + |Body(f)|;
            BehindClose(d, p) == Some(q) && q <= |d| && d[q..] == tail
  {
    hide Varint, EncodeNum, EncodeNums, Skip;
    var rest := EncodeNum(f.length) + (f.reason + tail);
    assert d[p..] == EncodeNums([f.code, f.kind]) + rest;
    NumsAt(d, p, [f.code, f.kind], rest);
    var q := p + |EncodeNums([f.code, f.kind])|;
    NumAt(d, q, f.length, f.reason + tail);
    Continue(d, q + f.length.width, f.reason, tail);
  }

  lemma TypeAt(d: seq<byte>, p: nat, kind: byte, body: seq<byte>, tail: seq<byte>)
    requires p <= |d| && d[p..] == [kind] + body + tail
    ensures p < |d| && d[p] == kind && d[p + 1..] == body + tail
    ensures p + 1 + |body| <= |d| && d[p + 1 + |body|..] == tail
  {
    Continue(d, p, [kind] + body, tail);
    assert d[p] == d[p..][0];
    assert d[p + 1..] == d[p..][1..];
  }

  /** A frame of any kind is stepped over, and only a CRYPTO frame leaves a piece. */
  lemma FrameAt(d: seq<byte>, p: nat, f: AnyFrame, tail: seq<byte>)
    requires p <= |d| && d[p..] == EncodeFrame(f) + tail
    ensures var q := p + |EncodeFrame(f)|;
            p < q <= |d| && d[q..] == tail && Step(d, p) == Some((PieceOf(f), q))
  {
    hide EncodeNum, EncodeNums, Body, BehindAck, BehindClose, CryptoAt;
    TypeAt(d, p, Kind(f), Body(f), tail);
    match f
    case Padding => EmptyBody(f);
    case Ping => EmptyBody(f);
    case Ack(_, _, _, _, _) => AckAt(d, p + 1, f, tail);
    case Crypto(_, _, _) => CryptoFrameAt(d, p + 1, f, tail);
    case Close(_, _, _, _) => CloseAt(d, p + 1, f, tail);
  }

  lemma EmptyBody(f: AnyFrame)
    requires f.Padding? || f.Ping?
    ensures Body(f) == []
  {}

  /** The walk over any written frames, whatever widths their integers take, finds exactly the CRYPTO
      pieces in order; what it does with the bytes behind is its own matter. */
  lemma {:induction false} FramesDecode(d: seq<byte>, p: nat, fs: seq<AnyFrame>, tail: seq<byte>)
    requires p <= |d| && d[p..] == EncodeFrames(fs) + tail
    ensures p + |EncodeFrames(fs)| <= |d|
    ensures CryptoFrames(d, p) == PiecesOf(fs) + CryptoFrames(d, p + |EncodeFrames(fs)|)
    decreases |fs|
  {
    hide Step, EncodeFrame, Listed, PieceOf;
    if fs != [] {
      var others := EncodeFrames(fs[1..]) + tail;
      assert d[p..] == EncodeFrame(fs[0]) + others;
      FrameAt(d, p, fs[0], others);
      FramesDecode(d, p + |EncodeFrame(fs[0])|, fs[1..], tail);
    }
  }

  /** Zero bytes are PADDING frames. */
  lemma {:induction false} ZerosAreNothing(d: seq<byte>, p: nat)
    requires p <= |d| && forall i | p <= i < |d| :: d[i] == 0
    ensures CryptoFrames(d, p) == []
    decreases |d| - p
  {
    if p < |d| {
      ZerosAreNothing(d, p + 1);
    }
  }
}
