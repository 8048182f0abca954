/** The decision both assemblers take on the handshake bytes they hold. */
module Hello {
  import opened Bytes
  import opened ClientHello
  import opened Reassembly
  import opened Wrappers

  const MAX_HELLO := 16 * 1024

  /** The decision on the handshake bytes gathered so far. */
  function Judged(hello: seq<byte>): Report {
    if |hello| < 4 then NeedMore
    else
      var total := 4 + Be24(hello[1], hello[2], hello[3]);
      if hello[0] != CLIENT_HELLO || total > MAX_HELLO then Stop(None)
      else if |hello| < total then NeedMore
      else Stop(Sni(hello[..total]))
  }

  /** One whole ClientHello message (type 1, section 4 of RFC 8446) of at most 16 KiB. */
  predicate IsMessage(msg: seq<byte>) {
    && 4 <= |msg| <= 0x4000
    && msg[0] == 1
    && |msg| == 4 + Be24(msg[1], msg[2], msg[3])
  }

  /** A message of another type, or longer than 16 KiB, is given up as soon as its header is there. */
  lemma OthersGivenUp(hello: seq<byte>)
    requires |hello| >= 4 && (hello[0] != 1 || 4 + Be24(hello[1], hello[2], hello[3]) > 0x4000)
    ensures Judged(hello) == Stop(None)
  {}

  lemma MessageIncomplete(msg: seq<byte>, n: nat)
    requires IsMessage(msg) && n < |msg|
    ensures Judged(msg[..n]).NeedMore?
  {}

  lemma JudgedStable()
    ensures Stable(Judged)
  {
    forall p, q | p <= q && Judged(p).Stop?
      ensures Judged(q) == Judged(p)
    {
      if |p| >= 4 && p[0] == CLIENT_HELLO {
        var total := 4 + Be24(p[1], p[2], p[3]);
        if total <= |p| {
          assert p[..total] == q[..total];
        }
      }
    }
  }
}
