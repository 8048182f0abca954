/** Domain names in DNS messages: labels, and pointers to labels elsewhere in the message. */
module DnsName {
  import opened Bytes
  import opened Wrappers

  const MAX_DNS_NAME := 255
  const MAX_STEPS := 128

  type Labels = seq<seq<byte>>

  /** The wire length of a name: a length byte and the bytes of each label, and the root. */
  function WireLen(labels: Labels): nat {
    if labels == [] then 1 else 1 + |labels[0]| + WireLen(labels[1..])
  }

  function Pointer(hi: byte, lo: byte): nat
    requires hi >= 0xC0
  {
    (hi - 0xC0) * 0x100 + lo
  }

  predicate LabelAt(d: seq<byte>, p: nat) {
    p < |d| && 1 <= d[p] <= 63 && p + 1 + d[p] <= |d|
  }

  predicate PointerAt(d: seq<byte>, p: nat) {
    p + 1 < |d| && d[p] >= 0xC0
  }

  function Label(d: seq<byte>, p: nat): (l: seq<byte>)
    requires LabelAt(d, p)
    ensures |l| == d[p]
  {
    d[p + 1..p + 1 + d[p]]
  }

  // The decoder.

  /** Where it is: the position, the wire length so far, whether it jumped and where the name ended then,
      the steps taken, and the labels found. */
  datatype Cursor = Cursor(p: nat, wire: nat, jumped: bool, after: nat, guard: nat, labels: Labels)

  datatype Turn = Go(cursor: Cursor) | Ends(after: nat) | Bad

  function TurnAt(d: seq<byte>, c: Cursor): Turn {
    if c.guard >= MAX_STEPS || c.p >= |d| then Bad
    else if d[c.p] == 0 then Ends(if c.jumped then c.after else c.p + 1)
    else if PointerAt(d, c.p) then
      Go(c.(p := Pointer(d[c.p], d[c.p + 1]), jumped := true, after := if c.jumped then c.after else c.p + 2,
            guard := c.guard + 1))
    else if !LabelAt(d, c.p) || c.wire + 1 + d[c.p] > MAX_DNS_NAME then Bad
    else
      Go(c.(p := c.p + 1 + d[c.p], wire := c.wire + 1 + d[c.p], guard := c.guard + 1,
            labels := c.labels + [Label(d, c.p)]))
  }

  function Walk(d: seq<byte>, c: Cursor): Option<(Labels, nat)>
    decreases MAX_STEPS - c.guard
  {
    match TurnAt(d, c)
    case Bad => None
    case Ends(after) => Some((c.labels, after))
    case Go(next) => Walk(d, next)
  }

  function Decode(d: seq<byte>, p: nat): Option<(Labels, nat)> {
    Walk(d, Cursor(p, 1, false, p, 0, []))
  }

  // What a name is, without any limit (section 4.1.4 of RFC 1035).

  /** The message has the name at `p`, read in that many steps: one a label of 1 to 63 bytes, one a pointer, whose
      first byte has its two high bits set and whose other 14 bits are an offset, one the root. */
  ghost predicate Reads(d: seq<byte>, p: nat, labels: Labels, steps: nat)
    decreases steps
  {
    && steps > 0 && p < |d|
    && if d[p] == 0 then labels == [] && steps == 1
       else if d[p] >= 192 then p + 1 < |d| && Reads(d, (d[p] as int - 192) * 256 + d[p + 1] as int, labels, steps - 1)
       else
         && d[p] <= 63 && p + 1 + d[p] <= |d| && labels != [] && labels[0] == d[p + 1..p + 1 + d[p]]
         && Reads(d, p + 1 + d[p], labels[1..], steps - 1)
  }

  /** Where the name ends in place: behind its root or its first pointer. */
  ghost function EndOf(d: seq<byte>, p: nat): nat
    decreases |d| - p
  {
    if p >= |d| then p
    else if d[p] == 0 then p + 1
    else if d[p] >= 192 then p + 2
    else if d[p] <= 63 && p + 1 + d[p] <= |d| then EndOf(d, p + 1 + d[p])
    else p
  }

  lemma {:induction false} NamesUnique(d: seq<byte>, p: nat, a: Labels, m: nat, b: Labels, n: nat)
    requires Reads(d, p, a, m) && Reads(d, p, b, n)
    ensures a == b && m == n
    decreases m
  {
    if d[p] != 0 {
      if PointerAt(d, p) {
        NamesUnique(d, Pointer(d[p], d[p + 1]), a, m - 1, b, n - 1);
      } else {
        NamesUnique(d, p + 1 + d[p], a[1..], m - 1, b[1..], n - 1);
      }
    }
  }

  // The decoder reads exactly the names within its limits.

  function EndFrom(c: Cursor, end: nat): nat {
    if c.jumped then c.after else end
  }

  lemma {:induction false} WalkReads(d: seq<byte>, c: Cursor, labels: Labels, steps: nat)
    requires Reads(d, c.p, labels, steps) && c.guard <= MAX_STEPS && 1 <= c.wire <= MAX_DNS_NAME
    ensures Walk(d, c)
            == if c.guard + steps <= MAX_STEPS && c.wire + WireLen(labels) - 1 <= MAX_DNS_NAME
               then Some((c.labels + labels, EndFrom(c, EndOf(d, c.p))))
               else None
    decreases steps
  {
    WirePositive(labels);
    match TurnAt(d, c)
    case Bad =>
    case Ends(_) => assert c.labels + [] == c.labels;
    case Go(next) =>
      if PointerAt(d, c.p) {
        WalkReads(d, next, labels, steps - 1);
      } else {
        WalkReads(d, next, labels[1..], steps - 1);
        assert c.labels + [labels[0]] + labels[1..] == c.labels + labels;
      }
  }

  lemma {:induction false} WirePositive(labels: Labels)
    ensures WireLen(labels) >= 1
    ensures labels != [] ==> WireLen(labels) >= 2 + |labels[0]|
  {
    if labels != [] { WirePositive(labels[1..]); }
  }

  lemma {:induction false} WalkOnlyNames(d: seq<byte>, c: Cursor) returns (labels: Labels, steps: nat)
    requires Walk(d, c).Some?
    ensures Reads(d, c.p, labels, steps)
    decreases MAX_STEPS - c.guard
  {
    match TurnAt(d, c)
    case Ends(_) => labels, steps := [], 1;
    case Go(next) =>
      var rest, n := WalkOnlyNames(d, next);
      if PointerAt(d, c.p) {
        labels, steps := rest, n + 1;
      } else {
        labels, steps := [Label(d, c.p)] + rest, n + 1;
        assert labels[1..] == rest;
      }
  }

  /** Exactly which names are decoded, and to what: those whose labels, pointers and root are at most 128
      and whose wire length is at most 255; the end is behind the root or the first pointer. */
  lemma DecodeOfName(d: seq<byte>, p: nat, labels: Labels, steps: nat)
    requires Reads(d, p, labels, steps)
    ensures Decode(d, p)
            == if steps <= 128 && WireLen(labels) <= 255 then Some((labels, EndOf(d, p))) else None
  {
    hide Reads, Walk, EndOf;
    WalkReads(d, Cursor(p, 1, false, p, 0, []), labels, steps);
    assert [] + labels == labels;
  }

  /** Something is decoded exactly when there is a name within the limits; a cycle of pointers is none. */
  lemma DecodesIff(d: seq<byte>, p: nat)
    ensures Decode(d, p).Some?
            <==> exists labels, steps: nat :: Reads(d, p, labels, steps) && steps <= 128 && WireLen(labels) <= 255
  {
    hide Reads, Walk, WireLen;
    if Decode(d, p).Some? {
      var labels, steps := WalkOnlyNames(d, Cursor(p, 1, false, p, 0, []));
      DecodeOfName(d, p, labels, steps);
    }
    if labels: Labels, steps: nat :| Reads(d, p, labels, steps) && steps <= MAX_STEPS && WireLen(labels) <= MAX_DNS_NAME {
      DecodeOfName(d, p, labels, steps);
    }
  }

  // Names as they are sent.

  predicate LegalLabel(part: seq<byte>) {
    1 <= |part| <= 63
  }

  predicate Legal(labels: Labels) {
    (forall l | l in labels :: 1 <= |l| <= 63) && WireLen(labels) <= 255
  }

  function EncodeLabel(part: seq<byte>): seq<byte>
    requires LegalLabel(part)
  {
    [|part|] + part
  }

  function EncodeLabels(labels: Labels): seq<byte>
    requires forall l | l in labels :: LegalLabel(l)
  {
    if labels == [] then [] else EncodeLabel(labels[0]) + EncodeLabels(labels[1..])
  }

  /** The message goes on at `p` with those bytes. */
  predicate Holds(d: seq<byte>, p: nat, s: seq<byte>) {
    p + |s| <= |d| && d[p..p + |s|] == s
  }

  lemma HoldsSplit(d: seq<byte>, p: nat, a: seq<byte>, b: seq<byte>)
    requires Holds(d, p, a + b)
    ensures Holds(d, p, a) && Holds(d, p + |a|, b)
  {
    var s := d[p..p + |a + b|];
    assert s[..|a|] == a && s[|a|..] == b;
    assert d[p..p + |a|] == s[..|a|];
    assert d[p + |a|..p + |a| + |b|] == s[|a|..];
  }

  lemma HoldsLabel(d: seq<byte>, p: nat, part: seq<byte>)
    requires LegalLabel(part) && Holds(d, p, EncodeLabel(part))
    ensures LabelAt(d, p) && !PointerAt(d, p) && d[p] == |part| && Label(d, p) == part
  {
    var s := d[p..p + 1 + |part|];
    assert s[0] == d[p] && s[1..] == part;
    assert d[p + 1..p + 1 + |part|] == s[1..];
  }

  /** Labels in front of a name lengthen it by a step each. */
  lemma {:induction false} LabelsThenName(d: seq<byte>, p: nat, labels: Labels, rest: Labels, steps: nat)
    requires (forall l | l in labels :: LegalLabel(l)) && Holds(d, p, EncodeLabels(labels))
    requires Reads(d, p + |EncodeLabels(labels)|, rest, steps)
    ensures Reads(d, p, labels + rest, |labels| + steps)
    ensures EndOf(d, p) == EndOf(d, p + |EncodeLabels(labels)|)
    decreases |labels|
  {
    hide Reads, EndOf, Holds, LegalLabel;
    if labels == [] {
      assert labels + rest == rest;
    } else {
      var part, others := labels[0], labels[1..];
      assert part in labels && forall l | l in others :: l in labels;
      HoldsSplit(d, p, EncodeLabel(part), EncodeLabels(others));
      LabelsThenName(d, p + |EncodeLabel(part)|, others, rest, steps);
      OneLabel(d, p, part, others + rest, |others| + steps);
      assert [part] + (others + rest) == labels + rest;
    }
  }

  lemma OneLabel(d: seq<byte>, p: nat, part: seq<byte>, rest: Labels, steps: nat)
    requires LegalLabel(part) && Holds(d, p, EncodeLabel(part)) && Reads(d, p + |EncodeLabel(part)|, rest, steps)
    ensures Reads(d, p, [part] + rest, steps + 1) && EndOf(d, p) == EndOf(d, p + |EncodeLabel(part)|)
  {
    hide Pointer, Label;
    HoldsLabel(d, p, part);
    assert ([part] + rest)[1..] == rest;
  }

  lemma {:induction false} FewLabels(labels: Labels)
    requires forall l | l in labels :: LegalLabel(l)
    ensures WireLen(labels) >= 1 + 2 * |labels|
  {
    if labels != [] {
      assert labels[0] in labels;
      FewLabels(labels[1..]);
    }
  }

  /** Every legal name, up to 127 labels of one byte, is read back from its uncompressed form whatever
      surrounds it. */
  lemma DecodeOfEncoded(d: seq<byte>, p: nat, labels: Labels)
    requires Legal(labels) && Holds(d, p, EncodeLabels(labels) + [0])
    ensures Decode(d, p) == Some((labels, p + |EncodeLabels(labels)| + 1))
  {
    hide Decode, EncodeLabels, WireLen;
    var end := p + |EncodeLabels(labels)|;
    HoldsSplit(d, p, EncodeLabels(labels), [0]);
    assert d[end] == d[end..end + 1][0] == 0;
    assert Reads(d, end, [], 1);
    LabelsThenName(d, p, labels, [], 1);
    assert labels + [] == labels;
    FewLabels(labels);
    DecodeOfName(d, p, labels, |labels| + 1);
  }

  lemma PointerThenName(d: seq<byte>, p: nat, q: nat, rest: Labels, steps: nat)
    requires q < 0x4000 && p + 1 < |d| && d[p] == 0xC0 + q / 0x100 && d[p + 1] == q % 0x100
    requires Reads(d, q, rest, steps)
    ensures Reads(d, p, rest, steps + 1) && EndOf(d, p) == p + 2
  {
    assert Pointer(d[p], d[p + 1]) == q;
  }

  /** A compressed name: labels and a pointer to a name elsewhere. It is read back exactly when the labels,
      the pointers and the root are at most 128 steps; the longest names leave no room for a pointer. */
  lemma DecodeOfCompressed(d: seq<byte>, p: nat, labels: Labels, q: nat, rest: Labels, steps: nat)
    requires (forall l | l in labels :: LegalLabel(l)) && WireLen(labels + rest) <= 255
    requires q < 0x4000 && Holds(d, p, EncodeLabels(labels) + [(0xC0 + q / 0x100), (q % 0x100)])
    requires Reads(d, q, rest, steps)
    ensures Decode(d, p)
            == if |labels| + 1 + steps <= 128 then Some((labels + rest, p + |EncodeLabels(labels)| + 2)) else None
  {
    hide Decode, EncodeLabels, WireLen, Reads, EndOf;
    var at := p + |EncodeLabels(labels)|;
    var pointer := [(0xC0 + q / 0x100), (q % 0x100)];
    HoldsSplit(d, p, EncodeLabels(labels), pointer);
    assert d[at] == d[at..at + 2][0] && d[at + 1] == d[at..at + 2][1];
    PointerThenName(d, at, q, rest, steps);
    LabelsThenName(d, p, labels, rest, steps + 1);
    DecodeOfName(d, p, labels + rest, |labels| + (steps + 1));
  }

  /** A legal name of 127 labels, the last of them behind a pointer, is not read. */
  lemma LongestCompressedFails(d: seq<byte>, p: nat, labels: Labels, q: nat, rest: Labels)
    requires Legal(labels + rest) && |labels + rest| == 127 && forall l | l in labels :: LegalLabel(l)
    requires q < 0x4000 && Holds(d, p, EncodeLabels(labels) + [0xC0 + q / 0x100, q % 0x100])
    requires Reads(d, q, rest, |rest| + 1)
    ensures Decode(d, p) == None
  {
    DecodeOfCompressed(d, p, labels, q, rest, |rest| + 1);
  }

  // Such a message: the name "a" at its beginning, then 126 times the label "a" and a pointer to it.

  const LETTER: seq<byte> := [97]

  function Ones(n: nat): Labels
    decreases n
  {
    if n == 0 then [] else [LETTER] + Ones(n - 1)
  }

  lemma {:induction false} OnesLegal(n: nat)
    ensures |Ones(n)| == n && WireLen(Ones(n)) == 1 + 2 * n && forall l | l in Ones(n) :: l == LETTER
    ensures Ones(n) + [LETTER] == Ones(n + 1)
  {
    if n > 0 {
      OnesLegal(n - 1);
      assert Ones(n)[1..] == Ones(n - 1);
      assert Ones(n) + [LETTER] == [LETTER] + (Ones(n - 1) + [LETTER]);
    } else {
      assert Ones(1) == [LETTER] + Ones(0);
    }
  }

  lemma LegalOnes(n: nat)
    ensures forall l | l in Ones(n) :: LegalLabel(l)
  {
    OnesLegal(n);
  }

  function LongMessage(): seq<byte> {
    LegalOnes(126);
    [1, 97, 0] + (EncodeLabels(Ones(126)) + [0xC0, 0])
  }

  lemma ShortName(tail: seq<byte>)
    ensures Reads([1, 97, 0] + tail, 0, [LETTER], 2)
  {
    var d := [1, 97, 0] + tail;
    assert d[0] == 1 && d[2] == 0;
    assert Label(d, 0) == d[1..2] == LETTER;
    assert Reads(d, 2, [], 1);
    assert [LETTER][1..] == [];
  }

  lemma Behind(front: seq<byte>, s: seq<byte>)
    ensures Holds(front + s, |front|, s)
  {}

  /** The same legal name is read when it is written out, and not read when its last label is behind a
      pointer. */
  lemma LongNameFails()
    ensures Legal(Ones(127)) && Holds(LongMessage(), 3, EncodeLabels(Ones(126)) + [0xC0, 0])
    ensures Reads(LongMessage(), 3, Ones(127), 129) && Decode(LongMessage(), 3) == None
    ensures Decode(EncodeLabels(Ones(127)) + [0], 0).Some?
  {
    hide Decode, EncodeLabels, Ones, Reads, EndOf, WireLen, Holds;
    OnesLegal(126);
    OnesLegal(127);
    LegalOnes(126);
    LegalOnes(127);
    var d := LongMessage();
    var pointed := EncodeLabels(Ones(126)) + [0xC0, 0];
    Behind([1, 97, 0], pointed);
    ShortName(pointed);
    assert d == [1, 97, 0] + pointed;
    LongestCompressedFails(d, 3, Ones(126), 0, [LETTER]);
    HoldsSplit(d, 3, EncodeLabels(Ones(126)), [0xC0, 0]);
    var at := 3 + |EncodeLabels(Ones(126))|;
    assert d[at] == 0xC0 && d[at + 1] == 0;
    PointerThenName(d, at, 0, [LETTER], 2);
    LabelsThenName(d, 3, Ones(126), [LETTER], 3);
    var out := EncodeLabels(Ones(127)) + [0];
    assert [] + out == out;
    Behind([], out);
    DecodeOfEncoded(out, 0, Ones(127));
  }

  // The loop of `dns_name`, with the text it builds.

  type Lossy = seq<byte> -> string

  /** The labels as text with dots between them. */
  function Joined(text: Lossy, labels: Labels): string {
    if labels == [] then ""
    else
      var init, last := Joined(text, labels[..|labels| - 1]), text(labels[|labels| - 1]);
      if init == "" then last else init + "." + last
  }

  /** Of labels with a text of their own the first comes before a dot and the others. */
  lemma {:induction false} JoinedFirst(text: Lossy, first: seq<byte>, labels: Labels)
    requires text(first) != "" && forall l | l in labels :: text(l) != ""
    ensures Joined(text, [first] + labels)
            == if labels == [] then text(first) else text(first) + "." + Joined(text, labels)
    ensures labels != [] ==> Joined(text, labels) != ""
    decreases |labels|
  {
    hide Joined;
    JoinedLast(text, [], first);
    assert [] + [first] == [first] == [first] + [];
    if labels != [] {
      var n := |labels| - 1;
      var init, last := labels[..n], labels[n];
      assert last in labels && forall l | l in init :: l in labels;
      JoinedFirst(text, first, init);
      JoinedLast(text, [first] + init, last);
      JoinedLast(text, init, last);
      assert labels == init + [last] && [first] + labels == [first] + init + [last];
      var head, middle := text(first) + ".", Joined(text, init);
      assert init != [] ==> head + middle + "." + text(last) == head + (middle + "." + text(last));
    }
  }

  lemma JoinedLast(text: Lossy, init: Labels, last: seq<byte>)
    ensures Joined(text, []) == ""
    ensures Joined(text, init + [last])
            == if Joined(text, init) == "" then text(last) else Joined(text, init) + "." + text(last)
  {
    assert (init + [last])[..|init|] == init;
  }

  method ReadName(d: seq<byte>, start: nat, text: Lossy) returns (r: Option<(string, nat)>)
    ensures r == match Decode(d, start)
                 case None => None
                 case Some((labels, after)) => Some((Joined(text, labels), after))
  {
    hide Pointer, Label;
    var p: nat, wire: nat, jumped, after: nat, guard: nat := start, 1, false, start, 0;
    var out := "";
    ghost var labels: Labels := [];
    while true
      invariant guard <= MAX_STEPS && out == Joined(text, labels)
      invariant Walk(d, Cursor(p, wire, jumped, after, guard, labels)) == Decode(d, start)
      decreases MAX_STEPS - guard
    {
      if guard >= MAX_STEPS { return None; }
      if p >= |d| { return None; }
      if d[p] == 0 {
        return Some((out, if jumped then after else p + 1));
      }
      guard := guard + 1;
      if d[p] > 63 {
        if !PointerAt(d, p) { return None; }
        if !jumped { after := p + 2; }
        jumped := true;
        p := Pointer(d[p], d[p + 1]);
      } else {
        if !LabelAt(d, p) { return None; }
        var part := Label(d, p);
        wire := wire + 1 + d[p];
        if wire > MAX_DNS_NAME { return None; }
        assert (labels + [part])[..|labels|] == labels;
        labels := labels + [part];
        out := if out == "" then text(part) else out + "." + text(part);
        p := p + 1 + d[p];
      }
    }
  }
}
