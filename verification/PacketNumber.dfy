/** Recovery of truncated packet numbers (Appendix A.3 of RFC 9000). */
module PacketNumber {
  import opened Wrappers

  const LIMIT := 0x4000_0000_0000_0000  // 2^62

  /** 2 to the power of 8 * `bytes`. */
  function Window(bytes: nat): (w: nat)
    requires 1 <= bytes <= 4
    ensures w > 0 && w % 0x100 == 0
  {
    match bytes case 1 => 0x100 case 2 => 0x1_0000 case 3 => 0x100_0000 case 4 => 0x1_0000_0000
  }

  function Expected(largest: Option<nat>): nat {
    if largest.Some? then largest.value + 1 else 0
  }

  function Decode(truncated: nat, bytes: nat, largest: Option<nat>): nat
    requires 1 <= bytes <= 4 && truncated < Window(bytes)
  {
    var window := Window(bytes);
    var half := window / 2;
    var expected := Expected(largest);
    var candidate := expected - expected % window + truncated;
    if candidate + half <= expected && candidate < LIMIT - window then candidate + window
    else if candidate > expected + half && candidate >= window then candidate - window
    else candidate
  }

  ghost predicate InWindow(pn: nat, bytes: nat, largest: Option<nat>)
    requires 1 <= bytes <= 4
  {
    Expected(largest) - Window(bytes) / 2 < pn <= Expected(largest) + Window(bytes) / 2
  }

  /** The two ends of the number space, where the nearest congruent number does not exist. */
  ghost predicate AtEdge(pn: nat, bytes: nat, largest: Option<nat>)
    requires 1 <= bytes <= 4
  {
    var window, expected := Window(bytes), Expected(largest);
    || (expected + window / 2 < pn < window)
    || (LIMIT - window <= pn && expected - expected % window <= pn && pn + window / 2 <= expected)
  }

  lemma Multiple(k: int, w: nat)
    requires w > 0
    ensures k * w == 0 || k * w == w || k * w + w == 0 || k * w >= 2 * w || k * w <= -2 * w
  {
    if k >= 2 {
      assert k * w == 2 * w + (k - 2) * w;
    } else if k <= -2 {
      assert k * w == -2 * w + (k + 2) * w;
    }
  }

  /** The candidate differs from the number by a multiple of the window. */
  lemma Candidate(expected: nat, pn: nat, w: nat) returns (gap: int)
    requires w > 0
    ensures expected - expected % w + pn % w == pn + gap
    ensures gap == 0 || gap == w || gap + w == 0 || gap >= 2 * w || gap <= -2 * w
  {
    var k := expected / w - pn / w;
    assert expected == expected / w * w + expected % w;
    assert pn == pn / w * w + pn % w;
    gap := k * w;
    assert gap == expected / w * w - pn / w * w;
    Multiple(k, w);
  }

  /** A number is recovered from its low bytes if and only if it lies in the window around the expected
      one or at the edge of the number space. */
  lemma RecoveredIff(pn: nat, bytes: nat, largest: Option<nat>)
    requires 1 <= bytes <= 4 && pn < 0x4000_0000_0000_0000
    ensures Decode(pn % Window(bytes), bytes, largest) == pn
            <==> InWindow(pn, bytes, largest) || AtEdge(pn, bytes, largest)
  {
    var w, expected := Window(bytes), Expected(largest);
    var gap := Candidate(expected, pn, w);
    Nearest(pn + gap, pn, w, expected, expected % w, pn % w);
  }

  /** The comparison of the decoder, once the candidate is known. */
  lemma Nearest(candidate: int, pn: nat, w: nat, expected: nat, r: nat, t: nat)
    requires w > 0 && w % 2 == 0 && pn < LIMIT && r < w && t < w && r <= expected
    requires candidate == expected - r + t
    requires var gap := candidate - pn;
             gap == 0 || gap == w || gap + w == 0 || gap >= 2 * w || gap <= -2 * w
    ensures (if candidate + w / 2 <= expected && candidate < LIMIT - w then candidate + w
             else if candidate > expected + w / 2 && candidate >= w then candidate - w
             else candidate) == pn
            <==> || (expected - w / 2 < pn <= expected + w / 2)
                 || (expected + w / 2 < pn < w)
                 || (LIMIT - w <= pn && expected - r <= pn && pn + w / 2 <= expected)
  {}

  /** What a receiver does with the numbers of one connection: the largest one steers the decoder. */
  function DecodeAll(sent: seq<(nat, nat)>, largest: Option<nat>): seq<nat>
    requires forall s | s in sent :: 1 <= s.1 <= 4
  {
    if sent == [] then [] else
      assert sent[0] in sent;
      var pn := Decode(sent[0].0 % Window(sent[0].1), sent[0].1, largest);
      [pn] + DecodeAll(sent[1..], Some(Max(pn, largest)))
  }

  function Max(pn: nat, largest: Option<nat>): nat {
    if largest.Some? && largest.value > pn then largest.value else pn
  }

  function Largest(numbers: seq<nat>, largest: Option<nat>): Option<nat> {
    if numbers == [] then largest else Largest(numbers[1..], Some(Max(numbers[0], largest)))
  }

  function Numbers(sent: seq<(nat, nat)>): seq<nat> {
    if sent == [] then [] else [sent[0].0] + Numbers(sent[1..])
  }

  /** Every packet is in the window around the largest number sent before it. */
  ghost predicate StaysInWindow(sent: seq<(nat, nat)>, largest: Option<nat>)
    requires forall s | s in sent :: 1 <= s.1 <= 4
  {
    sent == []
    || (assert sent[0] in sent;
        && sent[0].0 < LIMIT && InWindow(sent[0].0, sent[0].1, largest)
        && StaysInWindow(sent[1..], Some(Max(sent[0].0, largest))))
  }

  /** Over a whole run inside the window, in any order, every number is recovered. */
  lemma {:induction false} RunRecovered(sent: seq<(nat, nat)>, largest: Option<nat>)
    requires forall s | s in sent :: 1 <= s.1 <= 4
    requires StaysInWindow(sent, largest)
    ensures DecodeAll(sent, largest) == Numbers(sent)
    decreases |sent|
  {
    if sent != [] {
      assert sent[0] in sent;
      RecoveredIff(sent[0].0, sent[0].1, largest);
      RunRecovered(sent[1..], Some(Max(sent[0].0, largest)));
    }
  }

  /** The steering number is the maximum of what was received. */
  lemma {:induction false} LargestIsMax(numbers: seq<nat>, largest: Option<nat>)
    ensures Largest(numbers, largest).Some? <==> largest.Some? || numbers != []
    ensures Largest(numbers, largest).Some? ==>
              var top := Largest(numbers, largest).value;
              && (top in numbers || largest == Some(top))
              && (forall n | n in numbers :: n <= top)
              && (largest.Some? ==> largest.value <= top)
    decreases |numbers|
  {
    if numbers != [] {
      LargestIsMax(numbers[1..], Some(Max(numbers[0], largest)));
      assert forall n | n in numbers :: n == numbers[0] || n in numbers[1..];
    }
  }
}
