/**
 QUIC Initial packets: header walking, header protection and decryption (RFC 9000, RFC 9001, RFC 9369).
 The cipher is abstract; all it has to satisfy is that decryption undoes encryption, and for what is not opened
 that decryption under another number fails. Both laws can be met.
 */
module QuicPacket {
  import opened Bits
  import opened Bytes
  import opened PacketNumber
  import opened QuicInt
  import opened Wrappers

  const TAG := 16
  const MAX_DCID := 20

  datatype Version = Version(id: nat, initial: nat, retry: nat)

  const VERSION1 := Version(1, 0, 3)
  const VERSION2 := Version(0x6b33_43cf, 1, 0)

  /** QUIC versions 1 and 2, each with its codes for Initial and Retry packets (section 17.2 of RFC 9000, sections 3.1
      and 3.2 of RFC 9369). */
  predicate Supported(v: Version) {
    v == Version(1, 0, 3) || v == Version(0x6b33_43cf, 1, 0)
  }

  function VersionOf(id: nat): (v: Option<Version>)
    ensures v.Some? ==> Supported(v.value) && v.value.id == id
  {
    if id == VERSION1.id then Some(VERSION1)
    else if id == VERSION2.id then Some(VERSION2)
    else None
  }

  type Block = s: seq<byte> | |s| == 16 witness Zeros(16)

  /** The client's Initial keys for one connection: header-protection mask of a sample, and the AEAD
      with its nonce for a packet number. */
  datatype Keys = Keys(mask: seq<byte> -> Block,
                       encrypt: (nat, seq<byte>, seq<byte>) -> (seq<byte>, Block),
                       decrypt: (nat, seq<byte>, seq<byte>, seq<byte>) -> Option<seq<byte>>)
  {
    ghost predicate Undoes() {
      forall pn, aad, plain ::
        var sealed := encrypt(pn, aad, plain);
        |sealed.0| == |plain| && decrypt(pn, aad, sealed.0, sealed.1) == Some(plain)
    }

    /** Under another number decryption fails. */
    ghost predicate Rejects() {
      forall pn: nat, other: nat, aad, plain | pn < LIMIT && pn != other ::
        var sealed := encrypt(pn, aad, plain); decrypt(other, aad, sealed.0, sealed.1) == None
    }
  }

  // Keys that meet the laws: the tag tells the number.

  function TagOf(pn: nat): Block {
    if pn < LIMIT then ToBe(pn, 16) else seq(16, _ => 0xff)
  }

  const TAGGED := Keys((_: seq<byte>) => Zeros(16),
                       (pn: nat, aad: seq<byte>, plain: seq<byte>) => (plain, TagOf(pn)),
                       (pn: nat, aad: seq<byte>, cipher: seq<byte>, tag: seq<byte>) =>
                         if tag == TagOf(pn) then Some(cipher) else None)

  lemma LimitFits()
    ensures LIMIT <= Pow256(15)
  {
    WindowIsPow(4);
    assert Pow256(8) == 0x1_0000_0000 * Pow256(4) by {
      assert Pow256(6) == 0x1_0000 * Pow256(4);
      assert Pow256(8) == 0x1_0000 * Pow256(6);
    }
    assert Pow256(10) == 0x1_0000 * Pow256(8) && Pow256(12) == 0x1_0000 * Pow256(10);
    assert Pow256(14) == 0x1_0000 * Pow256(12) && Pow256(15) == 0x100 * Pow256(14);
  }

  lemma TagsDiffer(pn: nat, other: nat)
    requires pn < LIMIT && pn != other
    ensures TagOf(pn) != TagOf(other)
  {
    hide ToBe, BeNum, Pow256;
    LimitFits();
    assert Pow256(16) == 0x100 * Pow256(15) by { MorePow(15); }
    if other < LIMIT {
      BeNumOfToBe(pn, 16);
      BeNumOfToBe(other, 16);
    } else {
      TopByte(pn, 16);
    }
  }

  lemma MorePow(n: nat)
    ensures Pow256(n + 1) == 0x100 * Pow256(n)
  {}

  lemma LawsCanBeMet()
    ensures TAGGED.Undoes() && TAGGED.Rejects()
  {
    hide TagOf;
    forall pn: nat, other: nat, aad, plain | pn < LIMIT && pn != other
      ensures var sealed := TAGGED.encrypt(pn, aad, plain); TAGGED.decrypt(other, aad, sealed.0, sealed.1) == None
    {
      TagsDiffer(pn, other);
    }
  }

  // Headers.

  datatype Header = Header(version: Version, initial: bool, dcid: seq<byte>, pnOff: nat, end: nat)

  /** The part of a long header up to the source connection id: version, kind, destination id, offset behind. */
  function Ids(d: seq<byte>): (r: Option<(Version, bool, seq<byte>, nat)>)
    ensures r.Some? ==> r.value.3 > 0
  {
    if |d| < 6 || d[0] < 0x80 then None
    else
      var version := VersionOf(BeNum(d[1..5]));
      var kind := d[0] / 16 % 4;
      if version.None? || kind == version.value.retry || d[5] > MAX_DCID || 6 + d[5] >= |d| then None
      else
        var p := 6 + d[5];
        Some((version.value, kind == version.value.initial, d[6..p], p + 1 + d[p]))
  }

  /** Behind the token that only Initial packets carry. */
  function BehindToken(d: seq<byte>, initial: bool, p: nat): (r: Option<nat>)
    ensures r.Some? ==> p <= r.value
  {
    if !initial then Some(p)
    else
      match Varint(d, p)
      case None => None
      case Some((token, n)) => Some(p + n + token)
  }

  /** The long-header packet at the start of `d`. */
  function HeaderOf(d: seq<byte>): (r: Option<Header>)
    ensures r.Some? ==> 0 < r.value.pnOff <= r.value.end <= |d|
  {
    match Ids(d)
    case None => None
    case Some((version, initial, dcid, p)) =>
      match BehindToken(d, initial, p)
      case None => None
      case Some(q) =>
        match Varint(d, q)
        case None => None
        case Some((len, n)) =>
          if q + n + len > |d| then None else Some(Header(version, initial, dcid, q + n, q + n + len))
  }

  /** What is not walked: anything without the long header form, of another version than 1 and 2, Retry packets, and
      connection ids of more than 20 bytes. */
  lemma HeaderRefused(d: seq<byte>)
    requires || |d| < 6 || d[0] / 0x80 == 0 || d[5] > 20
             || (BeNum(d[1..5]) != 1 && BeNum(d[1..5]) != 0x6b33_43cf)
             || (BeNum(d[1..5]) == 1 && d[0] / 16 % 4 == 3)
             || (BeNum(d[1..5]) == 0x6b33_43cf && d[0] / 16 % 4 == 0)
    ensures HeaderOf(d) == None
  {
    hide BeNum;
  }

  // Opening.

  function XorAll(a: seq<byte>, b: seq<byte>): (r: seq<byte>)
    requires |a| <= |b|
    ensures |r| == |a|
  {
    seq(|a|, i requires 0 <= i < |a| => Xor(a[i], b[i]))
  }

  function PnLength(first: byte): nat {
    first % 4 + 1
  }

  function Opened(keys: Keys, d: seq<byte>, h: Header, largest: Option<nat>): Option<(seq<byte>, nat)>
    requires 0 < h.pnOff <= h.end <= |d|
  {
    if h.pnOff + 20 > h.end then None
    else
      var pkt := d[..h.end];
      var mask := keys.mask(pkt[h.pnOff + 4..h.pnOff + 20]);
      var first := Xor(pkt[0], mask[0] % 16);
      var number := XorAll(pkt[h.pnOff..h.pnOff + PnLength(first)], mask[1..]);
      OpenedWith(keys, pkt, h.pnOff, first, number, largest)
  }

  /** Decryption once the first byte and the bytes of the number are in the clear. */
  function OpenedWith(keys: Keys, pkt: seq<byte>, pnOff: nat, first: byte, number: seq<byte>,
                      largest: Option<nat>): Option<(seq<byte>, nat)>
    requires 0 < pnOff && pnOff + 20 <= |pkt| && 1 <= |number| <= 4
  {
    BeNumBounded(number);
    WindowIsPow(|number|);
    var pn := Decode(BeNum(number), |number|, largest);
    Decrypt(keys, pn, [first] + pkt[1..pnOff] + number,
            pkt[pnOff + |number|..|pkt| - TAG], pkt[|pkt| - TAG..])
  }

  function Decrypt(keys: Keys, pn: nat, aad: seq<byte>, cipher: seq<byte>, tag: seq<byte>)
    : Option<(seq<byte>, nat)>
  {
    match keys.decrypt(pn, aad, cipher, tag)
    case None => None
    case Some(plain) => Some((plain, pn))
  }

  // Sealing, as a client does it.

  /** What a sender is free to choose: source id, token, the widths of the integers, the bytes of the number. */
  datatype RawShape = Shape(scid: seq<byte>, token: seq<byte>, tokenWidth: nat, lengthWidth: nat, pnLen: nat)

  predicate IsWidth(width: nat) {
    width == 1 || width == 2 || width == 4 || width == 8
  }

  predicate Shapely(f: RawShape) {
    && |f.scid| < 0x100 && IsWidth(f.tokenWidth) && |f.token| < 64 * Pow256(f.tokenWidth - 1)
    && IsWidth(f.lengthWidth) && 1 <= f.pnLen <= 4
  }

  type Shape = f: RawShape | Shapely(f) witness Shape([], [], 1, 1, 1)

  /** The header up to the packet number. */
  function Head(v: Version, dcid: seq<byte>, f: Shape, length: nat): (h: seq<byte>)
    requires Supported(v) && |dcid| <= MAX_DCID && length < 64 * Pow256(f.lengthWidth - 1)
    ensures |h| == 7 + |dcid| + |f.scid| + f.tokenWidth + |f.token| + f.lengthWidth
  {
    Front(v, dcid, f) + (EncodeVarint(|f.token|, f.tokenWidth) + f.token) + EncodeVarint(length, f.lengthWidth)
  }

  /** The header up to the token. */
  function Front(v: Version, dcid: seq<byte>, f: Shape): (h: seq<byte>)
    requires Supported(v) && |dcid| <= MAX_DCID
    ensures |h| == 7 + |dcid| + |f.scid|
  {
    [0xc0 + 16 * v.initial + (f.pnLen - 1)] + ToBe(v.id, 4) + [|dcid|] + dcid + [|f.scid|] + f.scid
  }

  /** The payload is long enough for a sample and short enough for its length. */
  predicate Fits(f: Shape, plain: seq<byte>) {
    f.pnLen + |plain| >= 4 && f.pnLen + |plain| + 16 < 64 * Pow256(f.lengthWidth - 1)
  }

  function HeadOf(v: Version, dcid: seq<byte>, f: Shape, plain: seq<byte>): (h: seq<byte>)
    requires Supported(v) && |dcid| <= MAX_DCID && Fits(f, plain)
    ensures h != []
  {
    Head(v, dcid, f, f.pnLen + |plain| + 16)
  }

  function Sealed(v: Version, keys: Keys, dcid: seq<byte>, f: Shape, pn: nat, plain: seq<byte>): seq<byte>
    requires Supported(v) && |dcid| <= MAX_DCID && Fits(f, plain)
  {
    var head := HeadOf(v, dcid, f, plain);
    var aad := head + ToBe(pn % Window(f.pnLen), f.pnLen);
    var sealed := keys.encrypt(pn, aad, plain);
    Protected(keys, aad + sealed.0 + sealed.1, |head|, f.pnLen)
  }

  /** Header protection: the sample behind the longest packet number masks the first byte and the number. */
  function Protected(keys: Keys, clear: seq<byte>, pnOff: nat, pnLen: nat): (r: seq<byte>)
    requires 0 < pnOff && 1 <= pnLen <= 4
    ensures |clear| >= pnOff + 20 ==> |r| == |clear|
  {
    if |clear| < pnOff + 20 then clear
    else
      var mask := keys.mask(clear[pnOff + 4..pnOff + 20]);
      [Xor(clear[0], mask[0] % 16)] + clear[1..pnOff]
      + XorAll(clear[pnOff..pnOff + pnLen], mask[1..]) + clear[pnOff + pnLen..]
  }

  lemma XorAllTwice(a: seq<byte>, b: seq<byte>)
    requires |a| <= |b|
    ensures XorAll(XorAll(a, b), b) == a
  {
    forall i | 0 <= i < |a|
      ensures XorAll(XorAll(a, b), b)[i] == a[i]
    {
      XorTwice(a[i], b[i]);
    }
  }

  /** Removing the protection gives back the first byte, the number and the sample. */
  lemma Unprotected(keys: Keys, clear: seq<byte>, pnOff: nat, pnLen: nat)
    requires 0 < pnOff && 1 <= pnLen <= 4 && |clear| >= pnOff + 20
    ensures var r := Protected(keys, clear, pnOff, pnLen);
            var mask := keys.mask(clear[pnOff + 4..pnOff + 20]);
            && r[pnOff + 4..pnOff + 20] == clear[pnOff + 4..pnOff + 20]
            && Xor(r[0], mask[0] % 16) == clear[0] && r[0] / 16 == clear[0] / 16
            && r[1..pnOff] == clear[1..pnOff]
            && XorAll(r[pnOff..pnOff + pnLen], mask[1..]) == clear[pnOff..pnOff + pnLen]
            && r[pnOff + pnLen..] == clear[pnOff + pnLen..]
  {
    hide Xor, XorAll;
    var r := Protected(keys, clear, pnOff, pnLen);
    var mask := keys.mask(clear[pnOff + 4..pnOff + 20]);
    XorTwice(clear[0], mask[0] % 16);
    XorLow(clear[0], mask[0] % 16);
    XorAllTwice(clear[pnOff..pnOff + pnLen], mask[1..]);
    assert r[pnOff + pnLen..] == clear[pnOff + pnLen..];
    assert r[pnOff..pnOff + pnLen] == XorAll(clear[pnOff..pnOff + pnLen], mask[1..]);
    SameTail(r, clear, pnOff + pnLen, pnOff + 4, pnOff + 20);
  }

  lemma Aligned(d: seq<byte>, head: seq<byte>, i: nat, j: nat)
    requires 1 <= i <= j <= |head| <= |d| && d[1..|head|] == head[1..]
    ensures d[i..j] == head[i..j]
  {
    forall k | i <= k < j
      ensures d[k] == head[k]
    {
      assert d[1..|head|][k - 1] == head[1..][k - 1];
    }
  }

  lemma FrontParts(v: Version, dcid: seq<byte>, f: Shape)
    requires Supported(v) && |dcid| <= MAX_DCID
    ensures var front, n := Front(v, dcid, f), 6 + |dcid|;
            && front[1..5] == ToBe(v.id, 4) && front[5..6] == [|dcid|] && front[6..n] == dcid
            && front[n..n + 1] == [|f.scid|]
  {
    hide ToBe;
  }

  lemma IdsOfFront(d: seq<byte>, v: Version, dcid: seq<byte>, f: Shape)
    requires Supported(v) && |dcid| <= MAX_DCID
    requires var front := Front(v, dcid, f);
             |front| <= |d| && d[1..|front|] == front[1..] && d[0] / 16 == front[0] / 16
    ensures Ids(d) == Some((v, true, dcid, |Front(v, dcid, f)|))
  {
    hide ToBe, BeNum;
    var front, n := Front(v, dcid, f), 6 + |dcid|;
    assert Pow256(4) == 0x1_0000_0000 by { WindowIsPow(4); }
    BeNumOfToBe(v.id, 4);
    FrontParts(v, dcid, f);
    Aligned(d, front, 1, 5);
    Aligned(d, front, 5, 6);
    Aligned(d, front, 6, n);
    Aligned(d, front, n, n + 1);
    assert d[5] == d[5..6][0] && d[n] == d[n..n + 1][0];
  }

  lemma TokenPassed(d: seq<byte>, p: nat, token: seq<byte>, width: nat)
    requires IsWidth(width) && |token| < 64 * Pow256(width - 1)
    requires p + width <= |d| && d[p..p + width] == EncodeVarint(|token|, width)
    ensures BehindToken(d, true, p) == Some(p + width + |token|)
  {
    hide EncodeVarint, Varint;
    VarintOfEncoded(|token|, width, d, p);
  }

  lemma HeadParts(v: Version, dcid: seq<byte>, f: Shape, length: nat)
    requires Supported(v) && |dcid| <= MAX_DCID && length < 64 * Pow256(f.lengthWidth - 1)
    ensures var head, front, p := Head(v, dcid, f, length), Front(v, dcid, f), 7 + |dcid| + |f.scid|;
            var q := p + f.tokenWidth + |f.token|;
            && head[..p] == front && head[0] == front[0] && head[1..p] == front[1..]
            && head[p..p + f.tokenWidth] == EncodeVarint(|f.token|, f.tokenWidth)
            && head[q..q + f.lengthWidth] == EncodeVarint(length, f.lengthWidth)
  {
    hide EncodeVarint, Front, Pow256;
  }

  /** The parts of a header as they stand in the packet. */
  lemma HeadStands(d: seq<byte>, v: Version, dcid: seq<byte>, f: Shape, length: nat)
    requires Supported(v) && |dcid| <= MAX_DCID && length < 64 * Pow256(f.lengthWidth - 1)
    requires var head := Head(v, dcid, f, length);
             |head| <= |d| && d[1..|head|] == head[1..] && d[0] / 16 == head[0] / 16
    ensures var front, p := Front(v, dcid, f), 7 + |dcid| + |f.scid|;
            var q := p + f.tokenWidth + |f.token|;
            && d[1..p] == front[1..] && d[0] / 16 == front[0] / 16
            && d[p..p + f.tokenWidth] == EncodeVarint(|f.token|, f.tokenWidth)
            && d[q..q + f.lengthWidth] == EncodeVarint(length, f.lengthWidth)
  {
    hide EncodeVarint, Front, Pow256, Head;
    var head, p := Head(v, dcid, f, length), 7 + |dcid| + |f.scid|;
    var q := p + f.tokenWidth + |f.token|;
    HeadParts(v, dcid, f, length);
    Aligned(d, head, 1, p);
    Aligned(d, head, p, p + f.tokenWidth);
    Aligned(d, head, q, q + f.lengthWidth);
  }

  lemma HeaderOfHead(d: seq<byte>, v: Version, dcid: seq<byte>, f: Shape, length: nat)
    requires Supported(v) && |dcid| <= MAX_DCID && length < 64 * Pow256(f.lengthWidth - 1)
    requires var head := Head(v, dcid, f, length);
             |head| + length <= |d| && d[1..|head|] == head[1..] && d[0] / 16 == head[0] / 16
    ensures var n := |Head(v, dcid, f, length)|;
            HeaderOf(d) == Some(Header(v, true, dcid, n, n + length))
  {
    hide Ids, Head, Front, EncodeVarint, Varint, BehindToken, Pow256;
    HeadStands(d, v, dcid, f, length);
    IdsOfFront(d, v, dcid, f);
    var p := 7 + |dcid| + |f.scid|;
    TokenPassed(d, p, f.token, f.tokenWidth);
    VarintOfEncoded(length, f.lengthWidth, d, p + f.tokenWidth + |f.token|);
  }

  /** The header walk finds the sealed packet, whatever its source id, token and widths, and whatever follows it
      in the datagram. */
  lemma HeaderOfSealed(v: Version, keys: Keys, dcid: seq<byte>, f: Shape, pn: nat, plain: seq<byte>, rest: seq<byte>)
    requires Supported(v) && |dcid| <= 20 && Fits(f, plain) && keys.Undoes()
    ensures var pkt := Sealed(v, keys, dcid, f, pn, plain);
            HeaderOf(pkt + rest) == Some(Header(v, true, dcid, |HeadOf(v, dcid, f, plain)|, |pkt|))
  {
    hide Head, HeaderOf, Protected, Pow256;
    var length := f.pnLen + |plain| + 16;
    var head := Head(v, dcid, f, length);
    var aad := head + ToBe(pn % Window(f.pnLen), f.pnLen);
    var sealed := keys.encrypt(pn, aad, plain);
    var clear := aad + sealed.0 + sealed.1;
    Unprotected(keys, clear, |head|, f.pnLen);
    var pkt := Protected(keys, clear, |head|, f.pnLen);
    assert |pkt| == |head| + length;
    assert (pkt + rest)[1..|head|] == pkt[1..|head|] == clear[1..|head|] == head[1..];
    HeaderOfHead(pkt + rest, v, dcid, f, length);
  }

  /** Opening a sealed packet decrypts it under the number that its low bytes decode to. */
  lemma {:induction false} OpenedIs(v: Version, keys: Keys, dcid: seq<byte>, f: Shape, pn: nat,
                                    plain: seq<byte>, rest: seq<byte>, largest: Option<nat>)
    requires Supported(v) && |dcid| <= MAX_DCID && Fits(f, plain) && keys.Undoes()
    ensures var pkt, head := Sealed(v, keys, dcid, f, pn, plain), HeadOf(v, dcid, f, plain);
            var aad := head + ToBe(pn % Window(f.pnLen), f.pnLen);
            var sealed := keys.encrypt(pn, aad, plain);
            Opened(keys, pkt + rest, Header(v, true, dcid, |head|, |pkt|), largest)
            == Decrypt(keys, Decode(pn % Window(f.pnLen), f.pnLen, largest), aad, sealed.0, sealed.1)
  {
    hide Head, Protected, Decode, Opened, ToBe, BeNum, Pow256, Decrypt;
    var head := HeadOf(v, dcid, f, plain);
    var number := ToBe(pn % Window(f.pnLen), f.pnLen);
    var sealed := keys.encrypt(pn, head + number, plain);
    FirstOfHead(v, dcid, f, f.pnLen + |plain| + 16);
    NumberReads(pn, f.pnLen);
    OpenedProtected(keys, head, number, sealed.0, sealed.1, rest, largest, v, dcid);
  }

  /** Opening undoes sealing: for a packet number in the window of the receiver, the payload and the number
      come back, given only that decryption undoes encryption. */
  lemma {:induction false} OpenUndoesSeal(v: Version, keys: Keys, dcid: seq<byte>, f: Shape, pn: nat,
                                          plain: seq<byte>, rest: seq<byte>, largest: Option<nat>)
    requires Supported(v) && |dcid| <= 20 && Fits(f, plain) && keys.Undoes()
    requires pn < 0x4000_0000_0000_0000 && InWindow(pn, f.pnLen, largest)
    ensures var pkt, head := Sealed(v, keys, dcid, f, pn, plain), HeadOf(v, dcid, f, plain);
            Opened(keys, pkt + rest, Header(v, true, dcid, |head|, |pkt|), largest) == Some((plain, pn))
  {
    hide HeadOf, Sealed, Decode, Opened, InWindow, ToBe, Pow256;
    OpenedIs(v, keys, dcid, f, pn, plain, rest, largest);
    RecoveredIff(pn, f.pnLen, largest);
  }

  /** With decryption that fails under other numbers, a sealed packet is opened exactly when its number is in the
      window of the receiver or at the edge of the number space. */
  lemma {:induction false} OpensIff(v: Version, keys: Keys, dcid: seq<byte>, f: Shape, pn: nat,
                                    plain: seq<byte>, rest: seq<byte>, largest: Option<nat>)
    requires Supported(v) && |dcid| <= 20 && Fits(f, plain) && keys.Undoes() && keys.Rejects() && pn < 0x4000_0000_0000_0000
    ensures var pkt, head := Sealed(v, keys, dcid, f, pn, plain), HeadOf(v, dcid, f, plain);
            Opened(keys, pkt + rest, Header(v, true, dcid, |head|, |pkt|), largest)
            == if InWindow(pn, f.pnLen, largest) || AtEdge(pn, f.pnLen, largest) then Some((plain, pn)) else None
  {
    hide HeadOf, Sealed, Decode, Opened, InWindow, AtEdge, ToBe, Pow256;
    OpenedIs(v, keys, dcid, f, pn, plain, rest, largest);
    RecoveredIff(pn, f.pnLen, largest);
  }

  lemma FirstOfHead(v: Version, dcid: seq<byte>, f: Shape, length: nat)
    requires Supported(v) && |dcid| <= MAX_DCID && length < 64 * Pow256(f.lengthWidth - 1)
    ensures PnLength(Head(v, dcid, f, length)[0]) == f.pnLen
  {
    hide EncodeVarint;
  }

  lemma NumberReads(pn: nat, pnLen: nat)
    requires 1 <= pnLen <= 4
    ensures BeNum(ToBe(pn % Window(pnLen), pnLen)) == pn % Window(pnLen) < Window(pnLen)
  {
    hide BeNum, ToBe;
    WindowIsPow(pnLen);
    BeNumOfToBe(pn % Window(pnLen), pnLen);
  }

  /** Opening a protected packet decrypts what was protected. */
  lemma {:induction false} OpenedProtected(keys: Keys, head: seq<byte>, number: seq<byte>, cipher: seq<byte>,
                                           tag: Block, rest: seq<byte>, largest: Option<nat>, v: Version,
                                           dcid: seq<byte>)
    requires head != [] && 1 <= |number| <= 4 && |number| + |cipher| >= 4 && PnLength(head[0]) == |number|
    requires BeNum(number) < Window(|number|)
    ensures var pkt := Protected(keys, head + number + cipher + tag, |head|, |number|);
            var pn := Decode(BeNum(number), |number|, largest);
            Opened(keys, pkt + rest, Header(v, true, dcid, |head|, |pkt|), largest)
            == Decrypt(keys, pn, head + number, cipher, tag)
  {
    hide Protected, Decode, Xor, XorAll, BeNum, OpenedWith;
    var clear := head + number + cipher + tag;
    var body := |head| + |number|;
    Unprotected(keys, clear, |head|, |number|);
    var pkt := Protected(keys, clear, |head|, |number|);
    assert (pkt + rest)[..|pkt|] == pkt;
    assert clear[|head|..body] == number;
    OpenedClear(keys, pkt, head, number, cipher, tag, largest);
  }

  lemma OpenedClear(keys: Keys, pkt: seq<byte>, head: seq<byte>, number: seq<byte>, cipher: seq<byte>, tag: Block,
                    largest: Option<nat>)
    requires head != [] && 1 <= |number| <= 4 && |number| + |cipher| >= 4 && BeNum(number) < Window(|number|)
    requires var clear := head + number + cipher + tag;
             && |pkt| == |clear| && pkt[1..|head|] == clear[1..|head|]
             && pkt[|head| + |number|..] == clear[|head| + |number|..]
    ensures OpenedWith(keys, pkt, |head|, head[0], number, largest)
            == Decrypt(keys, Decode(BeNum(number), |number|, largest), head + number, cipher, tag)
  {
    hide Decode, BeNum, Decrypt;
    var clear := head + number + cipher + tag;
    var body := |head| + |number|;
    var tagAt := |clear| - TAG;
    assert [head[0]] + clear[1..|head|] == head;
    SameTail(pkt, clear, body, body, tagAt);
    SameTail(pkt, clear, body, tagAt, |clear|);
    assert clear[body..tagAt] == cipher && clear[tagAt..|clear|] == tag;
    assert pkt[tagAt..|clear|] == pkt[tagAt..];
  }

  /** Unmasks the bytes of the packet number in place and reads the number off them. */
  method Unmask(pkt: array<byte>, at: nat, n: nat, mask: seq<byte>) returns (pn: nat)
    requires at + n <= pkt.Length && n <= |mask|
    modifies pkt
    ensures pkt[..at] == old(pkt[..at]) && pkt[at + n..] == old(pkt[at + n..])
    ensures pkt[at..at + n] == XorAll(old(pkt[at..at + n]), mask)
    ensures pn == BeNum(pkt[at..at + n])
  {
    hide Xor;
    pn := 0;
    var i := 0;
    ghost var target := XorAll(pkt[at..at + n], mask);
    while i < n
      invariant i <= n
      invariant forall j | 0 <= j < pkt.Length ::
                  pkt[j] == if at <= j < at + i then Xor(old(pkt[j]), mask[j - at]) else old(pkt[j])
      invariant pn == BeNum(pkt[at..at + i])
    {
      ghost var before := pkt[at..at + i];
      pkt[at + i] := Xor(pkt[at + i], mask[i]);
      assert pkt[at..at + i + 1] == before + [pkt[at + i]];
      pn := 0x100 * pn + pkt[at + i];
      i := i + 1;
    }
  }

  /** The packet is copied, the protection removed in place, and what follows decrypted. */
  method Open(keys: Keys, d: seq<byte>, h: Header, largest: Option<nat>) returns (r: Option<(seq<byte>, nat)>)
    requires 0 < h.pnOff <= h.end <= |d|
    ensures r == Opened(keys, d, h, largest)
  {
    hide Xor, XorAll, OpenedWith, Decode, BeNum, Decrypt;
    if h.pnOff + 20 > h.end { return None; }
    ghost var clear := d[..h.end];
    var pkt := new byte[h.end](i requires 0 <= i < h.end => d[i]);
    assert pkt[..] == clear;
    var mask := keys.mask(pkt[h.pnOff + 4..h.pnOff + 20]);
    assert pkt[h.pnOff + 4..h.pnOff + 20] == clear[h.pnOff + 4..h.pnOff + 20];
    pkt[0] := Xor(pkt[0], mask[0] % 16);
    var pnLen := PnLength(pkt[0]);
    assert pkt[h.pnOff..h.pnOff + pnLen] == clear[h.pnOff..h.pnOff + pnLen];
    assert pkt[h.pnOff + pnLen..] == clear[h.pnOff + pnLen..];
    assert pkt[..h.pnOff] == [pkt[0]] + clear[1..h.pnOff];
    ghost var first := pkt[0];
    var pn := Unmask(pkt, h.pnOff, pnLen, mask[1..]);
    r := Finish(keys, pkt, h.pnOff, pnLen, pn, largest, clear, first);
  }

  method Finish(keys: Keys, pkt: array<byte>, pnOff: nat, pnLen: nat, truncated: nat, largest: Option<nat>,
                ghost clear: seq<byte>, ghost first: byte)
    returns (r: Option<(seq<byte>, nat)>)
    requires 0 < pnOff && pnOff + 20 <= pkt.Length && 1 <= pnLen <= 4
    requires truncated == BeNum(pkt[pnOff..pnOff + pnLen])
    requires |clear| == pkt.Length && pkt[..pnOff] == [first] + clear[1..pnOff]
    requires pkt[pnOff + pnLen..] == clear[pnOff + pnLen..]
    ensures r == OpenedWith(keys, clear, pnOff, first, pkt[pnOff..pnOff + pnLen], largest)
  {
    hide BeNum, Decrypt, Decode;
    var body, tagAt := pnOff + pnLen, pkt.Length - TAG;
    BeNumBounded(pkt[pnOff..body]);
    WindowIsPow(pnLen);
    var pn := Decode(truncated, pnLen, largest);
    assert pkt[..body] == pkt[..pnOff] + pkt[pnOff..body];
    SameTail(pkt[..], clear, body, body, tagAt);
    SameTail(pkt[..], clear, body, tagAt, pkt.Length);
    assert pkt[..][body..tagAt] == pkt[body..tagAt];
    assert pkt[..][tagAt..pkt.Length] == pkt[tagAt..];
    assert clear[tagAt..pkt.Length] == clear[tagAt..];
    r := Decrypt(keys, pn, pkt[..body], pkt[body..tagAt], pkt[tagAt..]);
  }
}
