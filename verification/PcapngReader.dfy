/** The incremental reader of a live pcapng stream: bytes in pieces of any size, parsed packets out. */
module PcapngReader {
  import opened Bytes
  import opened Pcapng
  import opened Wrappers

  const MIN_BLOCK := 12

  /** Link-layer parsing that carries the state of the stream assemblers along. */
  type LiveParser<!P, !K> = (P, nat, seq<byte>) -> (P, Option<K>)

  /** The reader's fields: the unread tail, the link types by interface, the parser state. */
  datatype State<P> = State(buf: seq<byte>, linktypes: seq<nat>, parsers: P)

  /** The outcome of reading what can be read: the new state, the packets, and whether a bad length
      threw the buffer away. */
  datatype Outcome<P, K> = Outcome(state: State<P>, out: seq<K>, lost: bool)

  function Length(buf: seq<byte>): nat
    requires |buf| >= MIN_BLOCK
  {
    Le32(buf, 4)
  }

  predicate BadLength(buf: seq<byte>) {
    |buf| >= MIN_BLOCK && !(MIN_BLOCK <= Length(buf) <= MAX_BLOCK)
  }

  predicate Whole(buf: seq<byte>) {
    |buf| >= MIN_BLOCK && MIN_BLOCK <= Length(buf) <= MAX_BLOCK && Length(buf) <= |buf|
  }

  /** What one whole block does to the link types and the parser. */
  function OnBody<P, K>(parse: LiveParser<P, K>, linktypes: seq<nat>, parsers: P, kind: nat, body: seq<byte>)
    : (seq<nat>, P, Option<K>)
  {
    if kind == IDB then
      (if |body| >= 2 then linktypes + [Le16(body[0], body[1])] else linktypes, parsers, None)
    else if kind == EPB && |body| >= EPB_FIXED && |body| >= EPB_FIXED + CapLen(body) then
      var r := parse(parsers, LinkType(linktypes, body), body[EPB_FIXED..EPB_FIXED + CapLen(body)]);
      (linktypes, r.0, r.1)
    else (linktypes, parsers, None)
  }

  function Listed<K>(k: Option<K>): seq<K> {
    if k.Some? then [k.value] else []
  }

  /** Reads the whole block at the front of the buffer. */
  function Next<P, K>(parse: LiveParser<P, K>, s: State<P>): (r: (State<P>, Option<K>))
    requires Whole(s.buf)
    ensures |r.0.buf| < |s.buf|
  {
    var len := Length(s.buf);
    var (linktypes, parsers, k) := OnBody(parse, s.linktypes, s.parsers, Le32(s.buf, 0), s.buf[8..len - 4]);
    (State(s.buf[len..], linktypes, parsers), k)
  }

  /** Reads every whole block at the front of the buffer. */
  function Drained<P, K>(parse: LiveParser<P, K>, s: State<P>): (r: Outcome<P, K>)
    ensures !r.lost ==> |r.state.buf| < MAX_BLOCK
    decreases |s.buf|
  {
    if BadLength(s.buf) then Outcome(s.(buf := []), [], true)
    else if !Whole(s.buf) then Outcome(s, [], false)
    else
      var (next, k) := Next(parse, s);
      var r := Drained(parse, next);
      r.(out := Listed(k) + r.out)
  }

  function Pushed<P, K>(parse: LiveParser<P, K>, s: State<P>, data: seq<byte>): Outcome<P, K> {
    Drained(parse, s.(buf := s.buf + data))
  }

  lemma LengthStays(x: seq<byte>, y: seq<byte>)
    requires |x| >= MIN_BLOCK
    ensures Le32(x + y, 0) == Le32(x, 0) && Length(x + y) == Length(x)
  {
    var z := x + y;
    assert forall i | 0 <= i < 8 :: z[i] == x[i];
  }

  lemma NextStays<P, K>(parse: LiveParser<P, K>, s: State<P>, y: seq<byte>)
    requires Whole(s.buf)
    ensures Whole(s.buf + y) && !BadLength(s.buf + y)
    ensures Next(parse, s.(buf := s.buf + y))
            == (Next(parse, s).0.(buf := Next(parse, s).0.buf + y), Next(parse, s).1)
  {
    hide Le32, OnBody;
    LengthStays(s.buf, y);
    var len := Length(s.buf);
    assert (s.buf + y)[8..len - 4] == s.buf[8..len - 4];
    assert (s.buf + y)[len..] == s.buf[len..] + y;
  }

  /** Reading in two goes: what the first push leaves unread is read with the second. */
  lemma {:induction false} DrainedInTwo<P, K>(parse: LiveParser<P, K>, s: State<P>, y: seq<byte>)
    ensures var first := Drained(parse, s);
            var whole := Drained(parse, s.(buf := s.buf + y));
            if first.lost then whole == first
            else
              var second := Drained(parse, first.state.(buf := first.state.buf + y));
              whole == second.(out := first.out + second.out)
    decreases |s.buf|
  {
    hide Length, Next;
    if BadLength(s.buf) {
      LengthStays(s.buf, y);
    } else if Whole(s.buf) {
      NextStays(parse, s, y);
      var (next, k) := Next(parse, s);
      DrainedInTwo(parse, next, y);
      var first := Drained(parse, next);
      var second := Drained(parse, first.state.(buf := first.state.buf + y));
      assert Listed(k) + (first.out + second.out) == Listed(k) + first.out + second.out;
    }
  }

  // The same, read off the bytes.

  /** Walking from block to block, no length is out of range. */
  predicate InRange(buf: seq<byte>)
    decreases |buf|
  {
    !BadLength(buf) && (Whole(buf) ==> InRange(buf[Length(buf)..]))
  }

  function BodyOf(buf: seq<byte>): seq<byte>
    requires Whole(buf)
  {
    buf[8..Length(buf) - 4]
  }

  function TypesOf(linktypes: seq<nat>, kind: nat, body: seq<byte>): seq<nat> {
    if kind == IDB && |body| >= 2 then linktypes + [Le16(body[0], body[1])] else linktypes
  }

  function FrameOf(linktypes: seq<nat>, kind: nat, body: seq<byte>): seq<(nat, seq<byte>)> {
    if kind == EPB && |body| >= EPB_FIXED && |body| >= EPB_FIXED + CapLen(body)
    then [(LinkType(linktypes, body), body[EPB_FIXED..EPB_FIXED + CapLen(body)])]
    else []
  }

  /** What is left unread: a cut block at the end, or nothing behind a bad length. */
  function RestOf(buf: seq<byte>): seq<byte>
    decreases |buf|
  {
    if BadLength(buf) then [] else if Whole(buf) then RestOf(buf[Length(buf)..]) else buf
  }

  function TypesAfter(linktypes: seq<nat>, buf: seq<byte>): seq<nat>
    decreases |buf|
  {
    if Whole(buf) then TypesAfter(TypesOf(linktypes, Le32(buf, 0), BodyOf(buf)), buf[Length(buf)..]) else linktypes
  }

  function FramesIn(linktypes: seq<nat>, buf: seq<byte>): seq<(nat, seq<byte>)>
    decreases |buf|
  {
    if Whole(buf) then
      FrameOf(linktypes, Le32(buf, 0), BodyOf(buf))
      + FramesIn(TypesOf(linktypes, Le32(buf, 0), BodyOf(buf)), buf[Length(buf)..])
    else []
  }

  /** Feeding frames one after another to a parser that carries its state. */
  function ParseAll<P, K>(parse: LiveParser<P, K>, p: P, fs: seq<(nat, seq<byte>)>): (P, seq<K>) {
    if fs == [] then (p, [])
    else
      var (q, k) := parse(p, fs[0].0, fs[0].1);
      var (last, others) := ParseAll(parse, q, fs[1..]);
      (last, Listed(k) + others)
  }

  lemma BodyReads<P, K>(parse: LiveParser<P, K>, linktypes: seq<nat>, p: P, kind: nat, body: seq<byte>,
                        more: seq<(nat, seq<byte>)>)
    ensures var (lts, q, k) := OnBody(parse, linktypes, p, kind, body);
            && lts == TypesOf(linktypes, kind, body)
            && ParseAll(parse, p, FrameOf(linktypes, kind, body) + more)
               == var r := ParseAll(parse, q, more); (r.0, Listed(k) + r.1)
  {
    hide Le16, CapLen, LinkType;
    var fs := FrameOf(linktypes, kind, body);
    if fs == [] {
      assert fs + more == more;
      var r := ParseAll(parse, p, more);
      assert [] + r.1 == r.1;
    } else {
      assert (fs + more)[0] == fs[0] && (fs + more)[1..] == more;
    }
  }

  /** What a reader does is what the bytes hold: the frames up to a bad length or a cut block are parsed in
      order, and the buffer is lost exactly when a length is out of range. */
  lemma {:induction false} DrainedReads<P, K>(parse: LiveParser<P, K>, s: State<P>)
    ensures var r := Drained(parse, s);
            && (r.lost <==> !InRange(s.buf))
            && r.state.buf == RestOf(s.buf) && r.state.linktypes == TypesAfter(s.linktypes, s.buf)
            && (r.state.parsers, r.out) == ParseAll(parse, s.parsers, FramesIn(s.linktypes, s.buf))
    decreases |s.buf|
  {
    hide Le32, OnBody, TypesOf, FrameOf;
    if Whole(s.buf) {
      var next := Next(parse, s).0;
      BodyReads(parse, s.linktypes, s.parsers, Le32(s.buf, 0), BodyOf(s.buf), FramesIn(next.linktypes, next.buf));
      DrainedReads(parse, next);
    }
  }

  /** The bytes leave no trace in a reader with an empty buffer. */
  predicate Traceless<P(==), K(==)>(parse: LiveParser<P, K>, linktypes: seq<nat>, p: P, buf: seq<byte>) {
    RestOf(buf) == [] && TypesAfter(linktypes, buf) == linktypes && ParseAll(parse, p, FramesIn(linktypes, buf)) == (p, [])
  }

  /** Two pushes and one push of the same bytes agree, in packets, link types, parser state and unread tail,
      if and only if all lengths up to the split are in range or the bytes behind it leave no trace. */
  lemma SplitAgreesIff<P, K>(parse: LiveParser<P, K>, s: State<P>, a: seq<byte>, b: seq<byte>)
    ensures var first := Pushed(parse, s, a);
            var second := Pushed(parse, first.state, b);
            var whole := Pushed(parse, s, a + b);
            var read := s.buf + a;
            (whole.state == second.state && whole.out == first.out + second.out)
            <==> InRange(read)
                 || Traceless(parse, TypesAfter(s.linktypes, read),
                              ParseAll(parse, s.parsers, FramesIn(s.linktypes, read)).0, b)
  {
    hide Drained, InRange, RestOf, TypesAfter, FramesIn, ParseAll;
    assert s.buf + a + b == s.buf + (a + b);
    DrainedInTwo(parse, s.(buf := s.buf + a), b);
    DrainedReads(parse, s.(buf := s.buf + a));
    var first := Pushed(parse, s, a);
    if first.lost {
      LostIsEmpty(parse, s.(buf := s.buf + a));
      assert [] + b == b;
      DrainedReads(parse, first.state.(buf := b));
      var second := Pushed(parse, first.state, b);
      assert second.out != [] ==> |first.out + second.out| > |first.out|;
      assert first.out + [] == first.out;
    }
  }

  lemma {:induction false} LostIsEmpty<P, K>(parse: LiveParser<P, K>, s: State<P>)
    ensures Drained(parse, s).lost ==> Drained(parse, s).state.buf == []
    decreases |s.buf|
  {
    hide Le32, Next;
    if Whole(s.buf) {
      LostIsEmpty(parse, Next(parse, s).0);
    }
  }

  function Joined(chunks: seq<seq<byte>>): seq<byte> {
    if chunks == [] then [] else chunks[0] + Joined(chunks[1..])
  }

  /** The pushes of a run: the last state, all packets, whether any push lost the buffer. */
  function PushedAll<P, K>(parse: LiveParser<P, K>, s: State<P>, chunks: seq<seq<byte>>): Outcome<P, K>
    decreases |chunks|
  {
    if chunks == [] then Outcome(s, [], false)
    else
      var first := Pushed(parse, s, chunks[0]);
      var r := PushedAll(parse, first.state, chunks[1..]);
      Outcome(r.state, first.out + r.out, first.lost || r.lost)
  }

  /** The tail is never a whole block nor a bad length. */
  predicate Tail(buf: seq<byte>) {
    !BadLength(buf) && !Whole(buf)
  }

  lemma {:induction false} DrainedTail<P, K>(parse: LiveParser<P, K>, s: State<P>)
    ensures Tail(Drained(parse, s).state.buf)
    decreases |s.buf|
  {
    hide Le32, Next;
    if Whole(s.buf) {
      DrainedTail(parse, Next(parse, s).0);
    }
  }

  /** Chunking does not matter: over a stream whose block lengths stay in range, any split leaves the same
      packets, link types, parser state and unread tail as one push of it all. */
  lemma {:induction false} ChunkingDoesNotMatter<P, K>(parse: LiveParser<P, K>, s: State<P>, chunks: seq<seq<byte>>)
    requires Tail(s.buf) && InRange(s.buf + Joined(chunks))
    ensures PushedAll(parse, s, chunks) == Pushed(parse, s, Joined(chunks))
    decreases |chunks|
  {
    hide Drained, InRange;
    DrainedReads(parse, s.(buf := s.buf + Joined(chunks)));
    if chunks == [] {
      NothingToRead(parse, s);
      assert s.buf + [] == s.buf;
    } else {
      var a, b := chunks[0], Joined(chunks[1..]);
      assert s.buf + a + b == s.buf + (a + b);
      DrainedInTwo(parse, s.(buf := s.buf + a), b);
      DrainedTail(parse, s.(buf := s.buf + a));
      var first := Pushed(parse, s, a);
      DrainedReads(parse, first.state.(buf := first.state.buf + b));
      ChunkingDoesNotMatter(parse, Pushed(parse, s, a).state, chunks[1..]);
    }
  }

  lemma NothingToRead<P, K>(parse: LiveParser<P, K>, s: State<P>)
    requires Tail(s.buf)
    ensures Drained(parse, s) == Outcome(s, [], false)
  {}

  /** A parser that hands back the link type it was given, and keeps no state. */
  function Echo(p: (), linktype: nat, frame: seq<byte>): ((), Option<nat>) {
    ((), Some(linktype))
  }

  /** With a bad length the split does matter: in one push the block behind it is thrown away unread,
      in two it is read. */
  lemma BadLengthSplitsDiffer()
    ensures var s := State([], [], ());
            var bad: seq<byte> := Zeros(12);
            var good := Encode(Block(1, [1, 0, 0, 0]));
            && Pushed(Echo, s, bad + good).state.linktypes == []
            && Pushed(Echo, Pushed(Echo, s, bad).state, good).state.linktypes == [1]
  {
    hide Drained, Encode;
    var block: Block := Block(IDB, [1, 0, 0, 0]);
    BadFirst(Encode(block));
    BadFirst([]);
    GoodAlone(block);
    var bad, good: seq<byte> := Zeros(12), Encode(block);
    assert [] + bad == bad + [] && [] + (bad + good) == bad + good && [] + good == good;
  }

  lemma BadFirst(y: seq<byte>)
    ensures Drained(Echo, State(Zeros(12) + y, [], ())) == Outcome(State([], [], ()), [], true)
  {
    var bad: seq<byte> := Zeros(12);
    assert Le32(bad, 4) == 0;
    LengthStays(bad, y);
  }

  lemma GoodAlone(b: Block)
    requires b == Block(IDB, [1, 0, 0, 0])
    ensures Drained(Echo, State(Encode(b), [], ())).state.linktypes == [1]
  {
    hide Encode;
    DrainedBlock(Echo, [], (), b, []);
    assert Encode(b) + [] == Encode(b);
  }

  /** An encoded block at the front is read as that block. */
  lemma DrainedBlock<P, K>(parse: LiveParser<P, K>, linktypes: seq<nat>, parsers: P, b: Block, rest: seq<byte>)
    requires Readable(b)
    ensures var s := State(Encode(b) + rest, linktypes, parsers);
            var (lts, ps, k) := OnBody(parse, linktypes, parsers, b.kind, b.body);
            var r := Drained(parse, State(rest, lts, ps));
            Drained(parse, s) == r.(out := Listed(k) + r.out)
  {
    hide Le32, Encode, OnBody;
    EncodedFields(b, rest);
  }

  /** The reader itself: bytes are appended, whole blocks consumed from the front. */
  class Reader<!P, !K> {
    const parse: LiveParser<P, K>
    var buf: seq<byte>
    var linktypes: seq<nat>
    var parsers: P

    constructor (parse: LiveParser<P, K>, parsers: P)
      ensures Fields() == State([], [], parsers) && this.parse == parse
    {
      this.parse := parse;
      this.parsers := parsers;
      buf, linktypes := [], [];
    }

    function Fields(): State<P>
      reads this
    {
      State(buf, linktypes, parsers)
    }

    method Push(data: seq<byte>) returns (out: seq<K>)
      modifies this
      ensures Fields() == Pushed(parse, old(Fields()), data).state
      ensures out == Pushed(parse, old(Fields()), data).out
    {
      hide Next, Length;
      buf := buf + data;
      ghost var start := Fields();
      var pos := 0;
      out := [];
      while Whole(buf[pos..])
        invariant pos <= |buf| && buf == start.buf
        invariant var r := Drained(parse, Unread(pos));
                  Drained(parse, start) == r.(out := out + r.out)
        decreases |buf| - pos
      {
        ghost var before := Unread(pos);
        var next, k := Take(pos);
        Assoc(out, Listed(k), Drained(parse, Unread(next)).out);
        out := out + Listed(k);
        pos := next;
      }
      if BadLength(buf[pos..]) {
        buf := [];
        return;
      }
      buf := buf[pos..];
    }

    ghost function Unread(pos: nat): State<P>
      requires pos <= |buf|
      reads this
    {
      State(buf[pos..], linktypes, parsers)
    }

    /** Takes the whole block at `pos`. */
    method Take(pos: nat) returns (next: nat, k: Option<K>)
      requires pos <= |buf| && Whole(buf[pos..])
      modifies this`linktypes, this`parsers
      ensures pos < next <= |buf| && (Unread(next), k) == Next(parse, old(Unread(pos)))
    {
      hide OnBody, Le32;
      var blen := Length(buf[pos..]);
      next := pos + blen;
      SliceOfSlice(buf, pos, |buf|, 8, blen - 4);
      assert buf[pos..] == buf[pos..|buf|] && buf[pos..][blen..] == buf[next..];
      var (lts, ps, found) := OnBody(parse, linktypes, parsers, Le32(buf[pos..], 0), buf[pos + 8..next - 4]);
      linktypes := lts;
      parsers := ps;
      k := found;
    }
  }

  lemma Assoc<K>(a: seq<K>, b: seq<K>, c: seq<K>)
    ensures a + (b + c) == (a + b) + c
  {}
}
