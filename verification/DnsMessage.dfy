/** DNS answers: the addresses they give, each under the name that was asked for when aliases lead to it. */
module DnsMessage {
  import opened Bytes
  import opened DnsName
  import Names
  import opened Net
  import opened Wrappers

  const MAX_DNS_ADDRS := 64
  const MAX_CHAIN := 16
  const LAST_TTL := 0xFFFF_FFFF

  datatype Address = Address(name: string, ip: IpAddr, ttl: nat)

  /** A resource record of the Internet class; `target` is the name its data holds, if they hold one. */
  datatype Rec = Rec(name: string, rtype: nat, ttl: nat, rdata: seq<byte>, target: Option<string>)

  // What the records say.

  /** The name asked for, its aliases so far and the least time to live along them. */
  datatype Chain = Chain(asked: Option<string>, names: seq<string>, ttl: nat)

  predicate Same(a: string, b: string) {
    Names.Lowered(a) == Names.Lowered(b)
  }

  predicate Listed(names: seq<string>, name: string) {
    exists n :: n in names && Same(n, name)
  }

  function Min(a: nat, b: nat): nat {
    if a < b then a else b
  }

  function Big(bytes: seq<byte>): nat {
    if bytes == [] then 0 else Big(bytes[..|bytes| - 1]) * 0x100 + bytes[|bytes| - 1]
  }

  function Shown(chain: Chain, name: string): string {
    if chain.asked.Some? && Listed(chain.names, name) then chain.asked.value else name
  }

  function OnRecord(found: seq<Address>, chain: Chain, r: Rec): (seq<Address>, Chain) {
    var alias := Listed(chain.names, r.name);
    var ttl := if alias then Min(r.ttl, chain.ttl) else r.ttl;
    if r.rtype == 1 && |r.rdata| == 4 then (found + [Address(Shown(chain, r.name), V4(Big(r.rdata)), ttl)], chain)
    else if r.rtype == 28 && |r.rdata| == 16 then (found + [Address(Shown(chain, r.name), V6(Big(r.rdata)), ttl)], chain)
    else if r.rtype == 5 && |chain.names| < MAX_CHAIN && alias && r.target.Some? then
      (found, Chain(chain.asked, chain.names + [r.target.value], Min(chain.ttl, ttl)))
    else (found, chain)
  }

  /** The addresses of the records in order, up to the limit. */
  function Collected(found: seq<Address>, chain: Chain, rs: seq<Rec>): seq<Address>
    decreases |rs|
  {
    if rs == [] || |found| >= MAX_DNS_ADDRS then found
    else
      var (more, next) := OnRecord(found, chain, rs[0]);
      Collected(more, next, rs[1..])
  }

  // What a message holds.

  predicate FieldsAt(d: seq<byte>, p: nat) {
    p + 10 <= |d| && Be16(d[p + 2], d[p + 3]) == 1 && p + 10 + Be16(d[p + 8], d[p + 9]) <= |d|
  }

  function TextAt(d: seq<byte>, p: nat, text: Lossy): Option<string> {
    match Decode(d, p)
    case None => None
    case Some((labels, _)) => Some(Joined(text, labels))
  }

  function RecordAt(d: seq<byte>, p: nat, name: string, text: Lossy): Rec
    requires FieldsAt(d, p)
  {
    Rec(name, Be16(d[p], d[p + 1]), Big(d[p + 4..p + 8]), d[p + 10..p + 10 + Be16(d[p + 8], d[p + 9])],
        if Be16(d[p], d[p + 1]) == 5 then TextAt(d, p + 10, text) else None)
  }

  /** The records from `p` on, up to one that is malformed or of another class. */
  function RecordsAt(d: seq<byte>, p: nat, n: nat, text: Lossy): seq<Rec>
    decreases n
  {
    if n == 0 then []
    else
      match Decode(d, p)
      case None => []
      case Some((labels, at)) =>
        if !FieldsAt(d, at) then []
        else
          [RecordAt(d, at, Joined(text, labels), text)]
          + RecordsAt(d, at + 10 + Be16(d[at + 8], d[at + 9]), n - 1, text)
  }

  /** The first question, and where the answers begin. */
  function QuestionsAt(d: seq<byte>, p: nat, n: nat, asked: Option<string>, text: Lossy)
    : Option<(Option<string>, nat)>
    decreases n
  {
    if n == 0 then Some((asked, p))
    else
      match Decode(d, p)
      case None => None
      case Some((labels, at)) => QuestionsAt(d, at + 4, n - 1, asked.Or(Some(Joined(text, labels))), text)
  }

  /** A response, complete and without error. */
  predicate IsAnswer(flags: nat) {
    flags / 0x8000 % 2 == 1 && flags / 0x200 % 2 == 0 && flags % 0x10 == 0
  }

  function StartOf(asked: Option<string>): Chain {
    Chain(asked, if asked.Some? then [asked.value] else [], LAST_TTL)
  }

  function Addresses(d: seq<byte>, text: Lossy): seq<Address> {
    if |d| < 12 || !IsAnswer(Be16(d[2], d[3])) then []
    else
      match QuestionsAt(d, 12, Be16(d[4], d[5]), None, text)
      case None => []
      case Some((asked, p)) => Collected([], StartOf(asked), RecordsAt(d, p, Be16(d[6], d[7]), text))
  }

  // The loops of `parse_dns` over the questions and the records.

  method ParseDns(d: seq<byte>, text: Lossy) returns (found: seq<Address>)
    ensures found == Addresses(d, text)
  {
    hide Decode, RecordAt, OnRecord, FieldsAt, IsAnswer;
    found := [];
    if |d| < 12 || !IsAnswer(Be16(d[2], d[3])) { return; }
    var p: nat, asked: Option<string> := 12, None;
    var i := 0;
    var qd := Be16(d[4], d[5]);
    while i < qd
      invariant i <= qd && QuestionsAt(d, p, qd - i, asked, text) == QuestionsAt(d, 12, qd, None, text)
    {
      var name := ReadName(d, p, text);
      if name.None? { return; }
      if asked.None? { asked := Some(name.value.0); }
      p := name.value.1 + 4;
      i := i + 1;
    }
    found := CollectFrom(d, p, asked, text);
  }

  method CollectFrom(d: seq<byte>, start: nat, asked: Option<string>, text: Lossy) returns (found: seq<Address>)
    requires |d| >= 12
    ensures found == Collected([], StartOf(asked), RecordsAt(d, start, Be16(d[6], d[7]), text))
  {
    hide Decode, RecordAt, OnRecord, Collected, RecordsAt, Joined;
    found := [];
    FullAlready(d, text);
    var p: nat, chain, an := start, StartOf(asked), Be16(d[6], d[7]);
    var i := 0;
    while i < an
      invariant i <= an
      invariant Collected(found, chain, RecordsAt(d, p, an - i, text))
                == Collected([], StartOf(asked), RecordsAt(d, start, an, text))
    {
      if |found| >= MAX_DNS_ADDRS { return; }
      var name := ReadName(d, p, text);
      CollectStep(d, p, an - i, found, chain, text);
      if name.None? { return; }
      var at := name.value.1;
      if !FieldsAt(d, at) { return; }
      var r := RecordAt(d, at, name.value.0, text);
      var next := OnRecord(found, chain, r);
      found, chain := next.0, next.1;
      p := at + 10 + Be16(d[at + 8], d[at + 9]);
      i := i + 1;
    }
    NoMore(d, p, found, chain, text);
  }

  lemma CollectStep(d: seq<byte>, p: nat, n: nat, found: seq<Address>, chain: Chain, text: Lossy)
    requires n > 0 && |found| < MAX_DNS_ADDRS
    ensures Collected(found, chain, RecordsAt(d, p, n, text))
            == match Decode(d, p)
               case None => found
               case Some((labels, at)) =>
                 if !FieldsAt(d, at) then found
                 else
                   var next := OnRecord(found, chain, RecordAt(d, at, Joined(text, labels), text));
                   Collected(next.0, next.1, RecordsAt(d, at + 10 + Be16(d[at + 8], d[at + 9]), n - 1, text))
  {
    hide Decode, RecordAt, OnRecord, FieldsAt, Be16;
    match Decode(d, p)
    case None =>
    case Some((labels, at)) =>
      if FieldsAt(d, at) {
        BehindFields(d, at);
        var r := RecordAt(d, at, Joined(text, labels), text);
        var rest := RecordsAt(d, at + 10 + Be16(d[at + 8], d[at + 9]), n - 1, text);
        assert ([r] + rest)[1..] == rest && ([r] + rest)[0] == r;
      }
  }

  lemma FullAlready(d: seq<byte>, text: Lossy)
    ensures forall found, chain, rs | |found| >= MAX_DNS_ADDRS :: Collected(found, chain, rs) == found
  {}

  lemma BehindFields(d: seq<byte>, p: nat)
    requires FieldsAt(d, p)
    ensures p + 10 <= |d|
  {}

  lemma NoMore(d: seq<byte>, p: nat, found: seq<Address>, chain: Chain, text: Lossy)
    ensures Collected(found, chain, RecordsAt(d, p, 0, text)) == found
  {}

  // Messages as they are sent, names in any form.

  /** The message spells the name at `p`, with pointers or without, within the limits. */
  ghost predicate Spells(d: seq<byte>, p: nat, labels: Labels) {
    exists steps: nat :: Reads(d, p, labels, steps) && steps <= 128 && WireLen(labels) <= 255
  }

  lemma SpelledIsRead(d: seq<byte>, p: nat, labels: Labels)
    requires Spells(d, p, labels)
    ensures Decode(d, p) == Some((labels, EndOf(d, p)))
  {
    hide Reads, Decode, EndOf, WireLen;
    var steps: nat :| Reads(d, p, labels, steps) && steps <= 128 && WireLen(labels) <= 255;
    DecodeOfName(d, p, labels, steps);
  }

  function ToBe32(n: nat): (s: seq<byte>)
    requires n < TWO32
    ensures |s| == 4
  {
    ToBe16(n / TWO16) + ToBe16(n % TWO16)
  }

  lemma BigOfBe32(n: nat)
    requires n < TWO32
    ensures Big(ToBe32(n)) == n
  {
    var s := ToBe32(n);
    assert s == [s[0], s[1], s[2], s[3]];
    assert s[..3] == [s[0], s[1], s[2]] && s[..3][..2] == [s[0], s[1]] && s[..3][..2][..1] == [s[0]];
    assert Big(s[..3][..2][..1]) == s[0];
    assert Big(s[..3][..2]) == Be16(s[0], s[1]) == n / TWO16;
    assert Be16(s[2], s[3]) == n % TWO16;
  }

  /** A record to be sent; `target` counts for an alias only. */
  datatype RawRecord = Record(owner: Labels, rtype: nat, ttl: nat, rdata: seq<byte>, target: Labels)

  type Record = r: RawRecord | r.rtype < TWO16 && r.ttl < TWO32 && |r.rdata| < TWO16 witness Record([], 0, 0, [], [])

  function Fields(r: Record): seq<byte> {
    ToBe16(r.rtype) + [0, 1] + ToBe32(r.ttl) + ToBe16(|r.rdata|)
  }

  function Means(r: Record, text: Lossy): Rec {
    Rec(Joined(text, r.owner), r.rtype, r.ttl, r.rdata, if r.rtype == 5 then Some(Joined(text, r.target)) else None)
  }

  function MeanAll(rs: seq<Record>, text: Lossy): seq<Rec> {
    if rs == [] then [] else [Means(rs[0], text)] + MeanAll(rs[1..], text)
  }

  /** The message holds the records from `p` on. */
  ghost predicate LaidOut(d: seq<byte>, p: nat, rs: seq<Record>)
    decreases |rs|
  {
    rs == []
    || (var at, r := EndOf(d, p), rs[0];
        && Spells(d, p, r.owner) && Holds(d, at, Fields(r) + r.rdata)
        && (r.rtype == 5 ==> Spells(d, at + 10, r.target))
        && LaidOut(d, at + 10 + |r.rdata|, rs[1..]))
  }

  /** The fields of the record stand at `p`. */
  predicate Stands(d: seq<byte>, p: nat, r: Record) {
    && FieldsAt(d, p) && Be16(d[p], d[p + 1]) == r.rtype && Be16(d[p + 8], d[p + 9]) == |r.rdata|
    && Big(d[p + 4..p + 8]) == r.ttl && d[p + 10..p + 10 + |r.rdata|] == r.rdata
  }

  lemma FieldsRead(d: seq<byte>, p: nat, r: Record)
    requires Holds(d, p, Fields(r) + r.rdata)
    ensures Stands(d, p, r)
  {
    var f := Fields(r);
    HoldsSplit(d, p, f, r.rdata);
    var s := d[p..p + 10];
    assert s == f && forall i | 0 <= i < 10 :: s[i] == d[p + i];
    FieldParts(r);
    assert d[p + 4..p + 8] == s[4..8];
    BigOfBe32(r.ttl);
  }

  lemma FieldParts(r: Record)
    ensures var f := Fields(r);
            && |f| == 10 && Be16(f[0], f[1]) == r.rtype && f[2] == 0 && f[3] == 1
            && f[4..8] == ToBe32(r.ttl) && Be16(f[8], f[9]) == |r.rdata|
  {
    hide ToBe16, ToBe32;
    var f := Fields(r);
    assert f[4..8] == ToBe32(r.ttl);
    assert f[0] == ToBe16(r.rtype)[0] && f[1] == ToBe16(r.rtype)[1];
    assert f[8] == ToBe16(|r.rdata|)[0] && f[9] == ToBe16(|r.rdata|)[1];
  }

  lemma RecordRead(d: seq<byte>, p: nat, r: Record, text: Lossy)
    requires Stands(d, p, r) && (r.rtype == 5 ==> Spells(d, p + 10, r.target))
    ensures RecordAt(d, p, Joined(text, r.owner), text) == Means(r, text)
  {
    hide Decode, Spells, Joined, FieldsAt, Big, Be16;
    if r.rtype == 5 { SpelledIsRead(d, p + 10, r.target); }
  }

  lemma StandsThere(d: seq<byte>, p: nat, r: Record)
    requires Stands(d, p, r)
    ensures FieldsAt(d, p) && Be16(d[p + 8], d[p + 9]) == |r.rdata|
  {}

  lemma FirstLaidOut(d: seq<byte>, p: nat, rs: seq<Record>)
    requires LaidOut(d, p, rs) && rs != []
    ensures var at, r := EndOf(d, p), rs[0];
            && Spells(d, p, r.owner) && Holds(d, at, Fields(r) + r.rdata)
            && (r.rtype == 5 ==> Spells(d, at + 10, r.target))
            && LaidOut(d, at + 10 + |r.rdata|, rs[1..])
  {
    hide Spells, Holds, Fields, EndOf;
  }

  lemma FirstRecord(d: seq<byte>, p: nat, n: nat, labels: Labels, at: nat, text: Lossy)
    requires Decode(d, p) == Some((labels, at)) && FieldsAt(d, at)
    ensures RecordsAt(d, p, n + 1, text)
            == [RecordAt(d, at, Joined(text, labels), text)]
               + RecordsAt(d, at + 10 + Be16(d[at + 8], d[at + 9]), n, text)
  {
    hide Decode, RecordAt, Joined;
  }

  /** Records are read back as they were laid out, compressed or not. */
  lemma {:induction false} RecordsOfLaidOut(d: seq<byte>, p: nat, rs: seq<Record>, text: Lossy)
    requires LaidOut(d, p, rs)
    ensures RecordsAt(d, p, |rs|, text) == MeanAll(rs, text)
    decreases |rs|
  {
    hide *;
    if rs == [] {
      NoRecords(d, p, text);
    } else {
      var r, at := rs[0], EndOf(d, p);
      MeanFirst(rs, text);
      FirstLaidOut(d, p, rs);
      SpelledIsRead(d, p, r.owner);
      FieldsRead(d, at, r);
      StandsThere(d, at, r);
      RecordRead(d, at, r, text);
      FirstRecord(d, p, |rs| - 1, r.owner, at, text);
      RecordsOfLaidOut(d, at + 10 + |r.rdata|, rs[1..], text);
    }
  }

  /** Reading ends at a record of another class than the Internet, or one that the message does not hold whole. */
  lemma EndsAtForeign(d: seq<byte>, p: nat, n: nat, labels: Labels, text: Lossy)
    requires Spells(d, p, labels)
    requires var at := EndOf(d, p);
             || at + 10 > |d| || d[at + 2] != 0 || d[at + 3] != 1
             || at + 10 + Be16(d[at + 8], d[at + 9]) > |d|
    ensures RecordsAt(d, p, n, text) == []
  {
    hide Decode, Spells, EndOf, RecordAt, Joined;
    SpelledIsRead(d, p, labels);
  }

  lemma MeanFirst(rs: seq<Record>, text: Lossy)
    requires rs != []
    ensures MeanAll(rs, text) == [Means(rs[0], text)] + MeanAll(rs[1..], text)
  {}

  lemma NoRecords(d: seq<byte>, p: nat, text: Lossy)
    ensures RecordsAt(d, p, 0, text) == MeanAll([], text)
  {}

  /** Questions: names with four more bytes each. */
  ghost predicate Asked(d: seq<byte>, p: nat, names: seq<Labels>, end: nat)
    decreases |names|
  {
    if names == [] then p == end
    else Spells(d, p, names[0]) && Asked(d, EndOf(d, p) + 4, names[1..], end)
  }

  lemma {:induction false} QuestionsOfAsked(d: seq<byte>, p: nat, names: seq<Labels>, end: nat, asked: Option<string>,
                                            text: Lossy)
    requires Asked(d, p, names, end)
    ensures QuestionsAt(d, p, |names|, asked, text)
            == Some((if names == [] then asked else asked.Or(Some(Joined(text, names[0]))), end))
    decreases |names|
  {
    hide Decode, Spells, EndOf, Joined;
    if names != [] {
      SpelledIsRead(d, p, names[0]);
      QuestionsOfAsked(d, EndOf(d, p) + 4, names[1..], end, asked.Or(Some(Joined(text, names[0]))), text);
    }
  }

  /** The header, field by field (section 4.1.1 of RFC 1035). */
  datatype RawHeader = Header(id: nat, qr: bool, opcode: nat, aa: bool, tc: bool, rd: bool, ra: bool, z: nat,
                              rcode: nat, questions: nat, answers: nat, authorities: nat, additional: nat)

  predicate ValidHeader(h: RawHeader) {
    && h.id < TWO16 && h.opcode < 16 && h.z < 8 && h.rcode < 16
    && h.questions < TWO16 && h.answers < TWO16 && h.authorities < TWO16 && h.additional < TWO16
  }

  type Header = h: RawHeader | ValidHeader(h)
    witness Header(0, false, 0, false, false, false, false, 0, 0, 0, 0, 0, 0)

  function Bit(b: bool, weight: nat): nat {
    if b then weight else 0
  }

  function Flags(h: Header): (f: nat)
    ensures f < TWO16
  {
    Bit(h.qr, 0x8000) + 0x800 * h.opcode + Bit(h.aa, 0x400) + Bit(h.tc, 0x200) + Bit(h.rd, 0x100) + Bit(h.ra, 0x80)
    + 0x10 * h.z + h.rcode
  }

  function EncodeHeader(h: Header): (s: seq<byte>)
    ensures |s| == 12
  {
    ToBe16(h.id) + ToBe16(Flags(h)) + ToBe16(h.questions) + ToBe16(h.answers) + ToBe16(h.authorities)
    + ToBe16(h.additional)
  }

  /** A response, complete and without error: whatever its opcode, and whether or not the answer is
      authoritative and recursion was asked for or offered. */
  predicate Answers(h: Header) {
    h.qr && !h.tc && h.rcode == 0
  }

  lemma Last4(k: nat, r: nat)
    requires r < 0x10
    ensures (0x10 * k + r) % 0x10 == r
  {}

  lemma Above9(k: nat, r: nat)
    requires r < 0x200
    ensures (0x200 * k + r) / 0x200 == k
  {}

  lemma Above15(k: nat, r: nat)
    requires r < 0x8000
    ensures (0x8000 * k + r) / 0x8000 == k
  {}

  lemma Odd(k: nat, b: bool)
    ensures (2 * k + Bit(b, 1)) % 2 == Bit(b, 1)
  {}

  /** The flags, split where they are read. */
  lemma FlagsSplit(h: Header) returns (last: nat, mid: nat, low: nat, rest: nat)
    ensures Flags(h) == 0x10 * last + h.rcode
    ensures Flags(h) == 0x200 * (2 * mid + Bit(h.tc, 1)) + low && low < 0x200
    ensures Flags(h) == 0x8000 * (2 * 0 + Bit(h.qr, 1)) + rest && rest < 0x8000
  {
    var qr, aa, tc := Bit(h.qr, 1), Bit(h.aa, 1), Bit(h.tc, 1);
    low := Bit(h.rd, 0x100) + Bit(h.ra, 0x80) + 0x10 * h.z + h.rcode;
    mid := 0x20 * qr + 2 * h.opcode + aa;
    rest := 0x800 * h.opcode + 0x400 * aa + 0x200 * tc + low;
    last := 0x20 * (2 * mid + tc) + Bit(h.rd, 0x10) + Bit(h.ra, 8) + h.z;
  }

  lemma AnswersIff(h: Header)
    ensures IsAnswer(Flags(h)) <==> Answers(h)
  {
    hide IsAnswer, Flags, Bit;
    var last, mid, low, rest := FlagsSplit(h);
    Last4(last, h.rcode);
    Above9(2 * mid + Bit(h.tc, 1), low);
    Above15(2 * 0 + Bit(h.qr, 1), rest);
    Odd(mid, h.tc);
    Odd(0, h.qr);
    AnswerBits(Flags(h), h.qr, h.tc, h.rcode);
  }

  lemma AnswerBits(f: nat, qr: bool, tc: bool, rcode: nat)
    requires f / 0x8000 % 2 == Bit(qr, 1) && f / 0x200 % 2 == Bit(tc, 1) && f % 0x10 == rcode
    ensures IsAnswer(f) <==> qr && !tc && rcode == 0
  {}

  lemma HeaderRead(d: seq<byte>, h: Header)
    requires Holds(d, 0, EncodeHeader(h))
    ensures |d| >= 12 && Be16(d[2], d[3]) == Flags(h)
    ensures Be16(d[4], d[5]) == h.questions && Be16(d[6], d[7]) == h.answers
  {
    hide ToBe16, Be16, Flags;
    var s := EncodeHeader(h);
    assert forall i | 0 <= i < 12 :: d[i] == d[0..12][i] == s[i];
    assert s[2] == ToBe16(Flags(h))[0] && s[3] == ToBe16(Flags(h))[1];
    assert s[4] == ToBe16(h.questions)[0] && s[5] == ToBe16(h.questions)[1];
    assert s[6] == ToBe16(h.answers)[0] && s[7] == ToBe16(h.answers)[1];
  }

  /** Every well-formed message with that header gives what its records say of the first question, if it is a
      response, complete and without error; any other gives nothing, well-formed or not. */
  lemma AddressesOfResponse(d: seq<byte>, h: Header, names: seq<Labels>, rs: seq<Record>, answers: nat, text: Lossy)
    requires Holds(d, 0, EncodeHeader(h))
    ensures !Answers(h) ==> Addresses(d, text) == []
    ensures Answers(h) && h.questions == |names| && h.answers == |rs|
            && Asked(d, 12, names, answers) && LaidOut(d, answers, rs) ==>
              Addresses(d, text)
              == Collected([], StartOf(if names == [] then None else Some(Joined(text, names[0]))), MeanAll(rs, text))
  {
    hide Asked, LaidOut, Collected, StartOf, MeanAll, IsAnswer, QuestionsAt, RecordsAt, EncodeHeader, Holds, Flags;
    HeaderRead(d, h);
    AnswersIff(h);
    if Answers(h) && h.questions == |names| && h.answers == |rs|
       && Asked(d, 12, names, answers) && LaidOut(d, answers, rs) {
      QuestionsOfAsked(d, 12, names, answers, None, text);
      RecordsOfLaidOut(d, answers, rs, text);
    }
  }

  // Aliases.

  /** Alias records one after another, each of the name the one before led to. */
  ghost predicate Linked(from: string, aliases: seq<Rec>)
    decreases |aliases|
  {
    aliases == []
    || (aliases[0].rtype == 5 && aliases[0].target.Some? && Same(from, aliases[0].name)
        && Linked(aliases[0].target.value, aliases[1..]))
  }

  function Leads(from: string, aliases: seq<Rec>): string
    decreases |aliases|
  {
    if aliases == [] || aliases[0].target.None? then from else Leads(aliases[0].target.value, aliases[1..])
  }

  function LeastTtl(ttl: nat, rs: seq<Rec>): nat {
    if rs == [] then ttl else LeastTtl(Min(ttl, rs[0].ttl), rs[1..])
  }

  predicate IsAddress(r: Rec) {
    (r.rtype == 1 && |r.rdata| == 4) || (r.rtype == 28 && |r.rdata| == 16)
  }

  function AddressOf(r: Rec, name: string, ttl: nat): Address
    requires IsAddress(r)
  {
    Address(name, if r.rtype == 1 then V4(Big(r.rdata)) else V6(Big(r.rdata)), Min(r.ttl, ttl))
  }

  function AddressesOf(rs: seq<Rec>, name: string, ttl: nat): seq<Address>
    requires forall r | r in rs :: IsAddress(r)
  {
    if rs == [] then [] else [AddressOf(rs[0], name, ttl)] + AddressesOf(rs[1..], name, ttl)
  }

  lemma {:induction false} AliasesFollowed(found: seq<Address>, chain: Chain, aliases: seq<Rec>, rest: seq<Rec>)
    returns (last: Chain)
    requires |found| < 64 && chain.names != [] && Linked(chain.names[|chain.names| - 1], aliases)
    requires |chain.names| + |aliases| <= 16
    ensures Collected(found, chain, aliases + rest) == Collected(found, last, rest)
    ensures last.asked == chain.asked && last.ttl == LeastTtl(chain.ttl, aliases)
    ensures last.names != [] && last.names[|last.names| - 1] == Leads(chain.names[|chain.names| - 1], aliases)
    decreases |aliases|
  {
    hide Same, Shown, Big;
    if aliases == [] {
      assert aliases + rest == rest;
      last := chain;
    } else {
      var r := aliases[0];
      var end := chain.names[|chain.names| - 1];
      assert end in chain.names && Listed(chain.names, r.name);
      assert (aliases + rest)[0] == r && (aliases + rest)[1..] == aliases[1..] + rest;
      var next := Chain(chain.asked, chain.names + [r.target.value], Min(chain.ttl, Min(r.ttl, chain.ttl)));
      assert Min(chain.ttl, Min(r.ttl, chain.ttl)) == Min(chain.ttl, r.ttl);
      last := AliasesFollowed(found, next, aliases[1..], rest);
    }
  }

  lemma {:induction false} AddressesShown(found: seq<Address>, chain: Chain, rs: seq<Rec>)
    requires chain.asked.Some? && |found| + |rs| <= 64
    requires forall r | r in rs :: IsAddress(r) && Listed(chain.names, r.name)
    ensures Collected(found, chain, rs) == found + AddressesOf(rs, chain.asked.value, chain.ttl)
    decreases |rs|
  {
    hide Listed, Big;
    if rs == [] {
      assert found + [] == found;
    } else {
      var a := AddressOf(rs[0], chain.asked.value, chain.ttl);
      assert rs[0] in rs && forall r | r in rs[1..] :: r in rs;
      AddressesShown(found + [a], chain, rs[1..]);
      assert found + [a] + AddressesOf(rs[1..], chain.asked.value, chain.ttl)
             == found + ([a] + AddressesOf(rs[1..], chain.asked.value, chain.ttl));
    }
  }

  /** However many aliases lead from the name asked for to the addresses, up to the limit of the chain, the
      addresses are given under the name asked for and for the least time of all records on the way. */
  lemma AliasesLeadBack(asked: string, aliases: seq<Rec>, rs: seq<Rec>)
    requires Linked(asked, aliases) && |aliases| < 16 && |rs| <= 64
    requires forall r | r in rs :: IsAddress(r) && Same(Leads(asked, aliases), r.name)
    ensures Collected([], StartOf(Some(asked)), aliases + rs) == AddressesOf(rs, asked, LeastTtl(0xFFFF_FFFF, aliases))
  {
    hide Collected, Linked, Leads, LeastTtl, IsAddress, Same;
    var last := AliasesFollowed([], StartOf(Some(asked)), aliases, rs);
    var end := last.names[|last.names| - 1];
    forall r | r in rs
      ensures Listed(last.names, r.name)
    {
      assert end in last.names;
    }
    AddressesShown([], last, rs);
    assert [] + AddressesOf(rs, asked, last.ttl) == AddressesOf(rs, asked, last.ttl);
  }
}
