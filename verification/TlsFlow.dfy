/** The mutable flow and the table of flows, step for step; Tls states what they compute. */
module TlsFlow {
  import opened Bytes
  import opened ClientHello
  import opened Hello
  import opened Reassembly
  import opened SparseBuffer
  import opened Tls
  import opened Wrappers

  class Flow {
    var base: Option<nat>
    var pending: seq<(nat, seq<byte>)>
    var buf: seq<byte>
    var filled: seq<bool>
    var ready: nat
    var done: bool

    constructor (base: Option<nat>)
      ensures State() == Fresh(base)
    {
      this.base, pending, buf, filled, ready, done := base, [], [], [], 0, false;
    }

    constructor Resume(f: FlowState)
      ensures State() == f
    {
      base, pending, buf, filled, ready, done := f.base, f.pending, f.buf, f.filled, f.ready, f.done;
    }

    function State(): FlowState
      reads this
    {
      FlowState(base, pending, buf, filled, ready, done)
    }

    method Finish()
      modifies this
      ensures State() == Finished(old(State()))
    {
      done := true;
      pending := [];
      buf := [];
      filled := [];
    }

    method Place(sequence: nat, data: seq<byte>)
      requires State().Valid()
      modifies this
      ensures State() == Placed(old(State()), sequence, data)
    {
      if base.None? { return; }
      var offset := Offset(sequence, base.value);
      if offset >= MAX_STREAM || |data| > MAX_STREAM - offset { return; }
      var end := offset + |data|;
      buf := Grown(buf, end, 0);
      filled := Grown(filled, end, false);
      var clash := Write(offset, data);
      if clash {
        Finish();
        return;
      }
      Advance();
    }

    /** Copies byte by byte; a byte that contradicts one already there stops the copy. */
    method Write(offset: nat, data: seq<byte>) returns (clash: bool)
      requires |buf| == |filled| && offset + |data| <= |buf|
      modifies this`buf, this`filled
      ensures clash == Clash(old(buf), old(filled), offset, data)
      ensures !clash ==> buf == Written(old(buf), offset, data) && filled == Marked(old(filled), offset, |data|)
    {
      var i := 0;
      while i < |data|
        invariant i <= |data| && |buf| == |filled| == |old(buf)|
        invariant forall j | 0 <= j < |buf| ::
                    buf[j] == if offset <= j < offset + i then data[j - offset] else old(buf)[j]
        invariant forall j | 0 <= j < |filled| :: filled[j] == (offset <= j < offset + i || old(filled)[j])
        invariant forall j: nat | offset <= j < offset + i && old(filled)[j] :: old(buf)[j] == data[j - offset]
      {
        var at := offset + i;
        if filled[at] && buf[at] != data[i] {
          assert old(filled)[at] && old(buf)[at] != data[at - offset];
          return true;
        }
        buf := buf[at := data[i]];
        filled := filled[at := true];
        i := i + 1;
      }
      return false;
    }

    method Advance()
      modifies this`ready
      ensures ready == Hole(filled, old(ready))
    {
      while ready < |filled| && filled[ready]
        invariant Hole(filled, ready) == Hole(filled, old(ready))
        decreases |filled| - ready
      {
        ready := ready + 1;
      }
    }

    method PlacePending(segments: seq<(nat, seq<byte>)>)
      requires State().Valid()
      modifies this
      ensures State() == PlacedAll(old(State()), segments)
    {
      var i := 0;
      while i < |segments|
        invariant i <= |segments| && State().Valid()
        invariant PlacedAll(State(), segments[i..]) == PlacedAll(old(State()), segments)
      {
        ghost var before := State();
        Place(segments[i].0, segments[i].1);
        assert segments[i..][1..] == segments[i + 1..];
        i := i + 1;
      }
    }

    method Add(sequence: nat, data: seq<byte>) returns (name: Option<string>)
      requires State().Valid()
      modifies this
      ensures (State(), name) == Added(old(State()), sequence, data)
    {
      if done || data == [] || |data| > MAX_STREAM { return None; }
      if base.None? {
        if data[0] == HANDSHAKE {
          base := Some(sequence);
          var taken := pending;
          pending := [];
          PlacePending(taken);
        } else {
          var held := HeldBytes();
          if |pending| < MAX_PENDING && held + |data| <= MAX_STREAM {
            pending := pending + [(sequence, data)];
          }
          return None;
        }
      }
      Place(sequence, data);
      if done { return None; }
      var report := Read();
      match report {
        case NeedMore => name := None;
        case Stop(found) => Finish(); name := found;
      }
    }

    method HeldBytes() returns (held: nat)
      ensures held == Held(pending)
    {
      held := 0;
      var i := 0;
      while i < |pending|
        invariant i <= |pending| && held == Held(pending[..i])
      {
        assert pending[..i + 1][..i] == pending[..i];
        held := held + |pending[i].1|;
        i := i + 1;
      }
      assert pending[..i] == pending;
    }

    /** The loop over records: `offset` moves over the contiguous prefix, `hello` grows. */
    method Read() returns (report: Report)
      requires ready <= |buf|
      ensures report == Records(buf[..ready])
    {
      hide Judged;
      var hello: seq<byte> := [];
      var offset: nat := 0;
      while ready - offset >= 5
        invariant offset <= ready && |hello| <= MAX_HELLO
        invariant Scan(buf[offset..ready], hello) == Records(buf[..ready])
      {
        ghost var b := buf[offset..ready];
        if buf[offset] != HANDSHAKE || buf[offset + 1] != 3 { return Stop(None); }
        var size := Be16(buf[offset + 3], buf[offset + 4]);
        if size == 0 || size > MAX_HELLO || |hello| + size > MAX_HELLO { return Stop(None); }
        if offset + 5 + size > ready { return NeedMore; }
        SliceOfSlice(buf, offset, ready, 5, 5 + size);
        SliceOfSlice(buf, offset, ready, 5 + size, ready - offset);
        assert b[5 + size..] == buf[offset + 5 + size..ready];
        hello := hello + buf[offset + 5..offset + 5 + size];
        offset := offset + 5 + size;
        var report := Decide(hello);
        if report.Stop? { return report; }
      }
      return NeedMore;
    }

    static method Decide(hello: seq<byte>) returns (report: Report)
      ensures report == Judged(hello)
    {
      if |hello| < 4 { return NeedMore; }
      var total := 4 + Be24(hello[1], hello[2], hello[3]);
      if hello[0] != CLIENT_HELLO || total > MAX_HELLO { return Stop(None); }
      if |hello| < total { return NeedMore; }
      var name := FindServerName(hello[..total]);
      return Stop(name);
    }
  }
}
