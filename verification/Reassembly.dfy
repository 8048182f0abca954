/**
 Reassembly of the beginning of a byte stream out of pieces that arrive in any order, several
 times and overlapping. The TLS and the QUIC assembler both refine this machine: they differ
 only in the verdict they read off the contiguous prefix and in what a contradiction does.
 */
module Reassembly {
  import opened Bytes
  import opened Wrappers

  /** What a parser says of the bytes gathered so far. */
  datatype Report = NeedMore | Stop(name: Option<string>)

  type Verdict = seq<byte> -> Report

  datatype Piece = Piece(offset: nat, data: seq<byte>)
  {
    ghost predicate Covers(i: nat) {
      offset <= i < offset + |data|
    }

    ghost function At(i: nat): byte
      requires Covers(i)
    {
      data[i - offset]
    }

    ghost function Places(): set<nat> {
      set i: nat | offset <= i < offset + |data| && Covers(i)
    }

    /** The piece carries the bytes of stream `s` at its offset. */
    ghost predicate Of(s: seq<byte>) {
      && offset + |data| <= |s|
      && data == s[offset..offset + |data|]
    }
  }

  type Cells = map<nat, byte>

  datatype Assembly = Live(cells: Cells) | Ended

  /** A verdict that asks for bytes first and never takes a decision back when more of them arrive. */
  ghost predicate Stable(v: Verdict) {
    && v([]) == NeedMore
    && forall p, q :: p <= q && v(p).Stop? ==> v(q) == v(p)
  }

  ghost function From(at: set<nat>, n: nat): set<nat> {
    set i | i in at && n <= i
  }

  /** The first number from `n` on that is not in `at`. */
  ghost function Gap(at: set<nat>, n: nat): (g: nat)
    ensures n <= g && g !in at
    ensures forall i :: n <= i < g ==> i in at
    decreases From(at, n)
  {
    if n !in at then n else
      assert n in From(at, n) && n !in From(at, n + 1);
      Gap(at, n + 1)
  }

  /** The bytes from offset 0 up to the first hole. */
  ghost function Prefix(cells: Cells): (p: seq<byte>)
    ensures |p| == Gap(cells.Keys, 0)
    ensures forall i :: 0 <= i < |p| ==> i in cells && p[i] == cells[i]
  {
    seq(Gap(cells.Keys, 0), i requires 0 <= i < Gap(cells.Keys, 0) => cells[i])
  }

  ghost predicate Contradicts(cells: Cells, p: Piece) {
    exists i: nat :: p.Covers(i) && i in cells && cells[i] != p.At(i)
  }

  ghost function Overlay(cells: Cells, p: Piece): (r: Cells)
    ensures r.Keys == cells.Keys + p.Places()
  {
    cells + (map i | i in p.Places() :: p.At(i))
  }

  ghost function Judge(v: Verdict, cells: Cells): (Assembly, Option<string>) {
    match v(Prefix(cells))
    case NeedMore => (Live(cells), None)
    case Stop(name) => (Ended, name)
  }

  /** One arriving piece. A strict assembler gives up on the first contradicting byte. */
  ghost function Arrive(v: Verdict, strict: bool, a: Assembly, p: Piece): (Assembly, Option<string>) {
    match a
    case Ended => (Ended, None)
    case Live(cells) =>
      if strict && Contradicts(cells, p) then (Ended, None) else Judge(v, Overlay(cells, p))
  }

  ghost function After(v: Verdict, strict: bool, ps: seq<Piece>): Assembly {
    if ps == [] then Live(map[]) else
      Arrive(v, strict, After(v, strict, ps[..|ps| - 1]), ps[|ps| - 1]).0
  }

  /** What is reported on the arrival of piece number `k`. */
  ghost function ReportAt(v: Verdict, strict: bool, ps: seq<Piece>, k: nat): Option<string>
    requires k < |ps|
  {
    Arrive(v, strict, After(v, strict, ps[..k]), ps[k]).1
  }

  /** Every name reported over the run, in order. */
  ghost function Names(v: Verdict, strict: bool, ps: seq<Piece>): seq<string> {
    if ps == [] then [] else
      Names(v, strict, ps[..|ps| - 1])
      + match ReportAt(v, strict, ps, |ps| - 1) case None => [] case Some(name) => [name]
  }

  ghost function Covered(ps: seq<Piece>): set<nat> {
    if ps == [] then {} else Covered(ps[..|ps| - 1]) + ps[|ps| - 1].Places()
  }

  /** The part of stream `s` received contiguously from its start. */
  ghost function Received(s: seq<byte>, ps: seq<Piece>): seq<byte>
    requires AllOf(s, ps)
  {
    CoveredInside(s, ps);
    s[..Gap(Covered(ps), 0)]
  }

  ghost predicate AllOf(s: seq<byte>, ps: seq<Piece>) {
    forall p | p in ps :: p.Of(s)
  }

  lemma CoveredInside(s: seq<byte>, ps: seq<Piece>)
    requires AllOf(s, ps)
    ensures forall i | i in Covered(ps) :: i < |s|
    ensures Gap(Covered(ps), 0) <= |s|
  {
    if ps != [] {
      CoveredInside(s, ps[..|ps| - 1]);
      assert ps[|ps| - 1].Of(s);
    }
    assert |s| !in Covered(ps);
  }

  /** While pieces of one stream arrive, the machine holds exactly the covered bytes of the stream,
      and it has ended exactly when the received prefix is enough for a decision. */
  lemma {:induction false} HoldsTheStream(v: Verdict, strict: bool, s: seq<byte>, ps: seq<Piece>)
    requires Stable(v) && AllOf(s, ps)
    ensures v(Received(s, ps)).Stop? <==> After(v, strict, ps).Ended?
    ensures After(v, strict, ps).Live? ==>
              var cells := After(v, strict, ps).cells;
              && cells.Keys == Covered(ps)
              && (forall i | i in cells :: i < |s| && cells[i] == s[i])
              && Prefix(cells) == Received(s, ps)
  {
    CoveredInside(s, ps);
    if ps == [] {
      assert Received(s, ps) == [];
      assert Prefix(map[]) == [];
    } else {
      var init, p := ps[..|ps| - 1], ps[|ps| - 1];
      HoldsTheStream(v, strict, s, init);
      assert init + [p] == ps;
      if After(v, strict, init).Live? {
        TakesIn(s, init, p, After(v, strict, init).cells);
      } else {
        CoveredInside(s, init);
        GapGrows(Covered(init), Covered(ps));
        assert Received(s, init) <= Received(s, ps);
      }
    }
  }

  lemma GapGrows(a: set<nat>, b: set<nat>)
    requires a <= b
    ensures Gap(a, 0) <= Gap(b, 0)
  {
    assert Gap(b, 0) !in a;
  }

  lemma OverlaysTheStream(s: seq<byte>, p: Piece, cells: Cells)
    requires p.Of(s)
    requires forall i | i in cells :: i < |s| && cells[i] == s[i]
    ensures !Contradicts(cells, p)
    ensures var next := Overlay(cells, p); forall i | i in next :: i < |s| && next[i] == s[i]
  {
    assert forall i: nat | p.Covers(i) :: p.At(i) == s[i];
  }

  /** A live machine that holds bytes of the stream takes the next piece of the stream in. */
  lemma TakesIn(s: seq<byte>, ps: seq<Piece>, p: Piece, cells: Cells)
    requires AllOf(s, ps) && p.Of(s) && AllOf(s, ps + [p])
    requires cells.Keys == Covered(ps)
    requires forall i | i in cells :: i < |s| && cells[i] == s[i]
    ensures !Contradicts(cells, p)
    ensures var next := Overlay(cells, p);
            && next.Keys == Covered(ps + [p])
            && (forall i | i in next :: i < |s| && next[i] == s[i])
            && Prefix(next) == Received(s, ps + [p])
    ensures Received(s, ps) <= Received(s, ps + [p])
  {
    OverlaysTheStream(s, p, cells);
    assert (ps + [p])[..|ps + [p]| - 1] == ps;
    var next := Overlay(cells, p);
    CoveredInside(s, ps);
    CoveredInside(s, ps + [p]);
    GapGrows(Covered(ps), Covered(ps + [p]));
    assert Prefix(next) == Received(s, ps + [p]);
  }

  /** A name is reported once, on the piece that completes the decision, and it is the parser's
      verdict on the contiguous prefix of the stream. */
  lemma ReportedOnCompletion(v: Verdict, strict: bool, s: seq<byte>, ps: seq<Piece>, k: nat)
    requires Stable(v) && AllOf(s, ps) && k < |ps|
    ensures AllOf(s, ps[..k]) && AllOf(s, ps[..k + 1])
    ensures ReportAt(v, strict, ps, k)
            == if v(Received(s, ps[..k])).NeedMore? && v(Received(s, ps[..k + 1])).Stop?
               then v(Received(s, ps[..k + 1])).name else None
  {
    var upto := ps[..k + 1];
    assert upto == ps[..k] + [ps[k]];
    HoldsTheStream(v, strict, s, ps[..k]);
    if After(v, strict, ps[..k]).Live? {
      TakesIn(s, ps[..k], ps[k], After(v, strict, ps[..k]).cells);
    }
  }

  /** Whatever the order, the duplicates and the overlaps, a run reports what the parser says of
      the prefix received in the end, once. */
  lemma {:induction false} NamesAreTheVerdict(v: Verdict, strict: bool, s: seq<byte>, ps: seq<Piece>)
    requires Stable(v) && AllOf(s, ps)
    ensures Names(v, strict, ps)
            == match v(Received(s, ps)) case Stop(Some(name)) => [name] case _ => []
  {
    if ps == [] {
      assert Received(s, ps) == [];
    } else {
      var init := ps[..|ps| - 1];
      NamesAreTheVerdict(v, strict, s, init);
      ReportedOnCompletion(v, strict, s, ps, |ps| - 1);
      assert ps[..|ps| - 1 + 1] == ps;
      CoveredInside(s, init);
      CoveredInside(s, ps);
      GapGrows(Covered(init), Covered(ps));
      assert Received(s, init) <= Received(s, ps);
    }
  }

  /** Order independence: two deliveries that cover the same bytes of a stream report the same. */
  lemma OrderIndependent(v: Verdict, strict: bool, s: seq<byte>, ps: seq<Piece>, qs: seq<Piece>)
    requires Stable(v) && AllOf(s, ps) && AllOf(s, qs)
    requires Covered(ps) == Covered(qs)
    ensures Names(v, strict, ps) == Names(v, strict, qs)
    ensures After(v, strict, ps) == After(v, strict, qs)
  {
    NamesAreTheVerdict(v, strict, s, ps);
    NamesAreTheVerdict(v, strict, s, qs);
    HoldsTheStream(v, strict, s, ps);
    HoldsTheStream(v, strict, s, qs);
  }

  lemma EndedForever(v: Verdict, strict: bool, ps: seq<Piece>, k: nat, n: nat)
    requires k <= n <= |ps| && After(v, strict, ps[..k]) == Ended
    ensures After(v, strict, ps[..n]) == Ended
    decreases n - k
  {
    if k < n {
      assert ps[..k + 1][..k] == ps[..k];
      EndedForever(v, strict, ps, k + 1, n);
    }
  }

  ghost predicate Holds(cells: Cells, p: Piece) {
    forall i: nat | p.Covers(i) :: i in cells && cells[i] == p.At(i)
  }

  /** A live machine remembers every byte of every piece it was given. */
  lemma {:induction false} LiveRemembers(v: Verdict, ps: seq<Piece>, a: nat, b: nat)
    requires a < b <= |ps| && After(v, true, ps[..b]).Live?
    ensures Holds(After(v, true, ps[..b]).cells, ps[a])
    decreases b
  {
    var init := ps[..b - 1];
    assert ps[..b] == init + [ps[b - 1]];
    if a < b - 1 {
      LiveRemembers(v, ps, a, b - 1);
    }
  }

  /** After two pieces that disagree on a byte, a strict assembler reports nothing any more. */
  lemma SilentAfterContradiction(v: Verdict, ps: seq<Piece>, a: nat, b: nat, i: nat, k: nat)
    requires a < b <= k < |ps|
    requires ps[a].Covers(i) && ps[b].Covers(i) && ps[a].At(i) != ps[b].At(i)
    ensures ReportAt(v, true, ps, k) == None
  {
    if After(v, true, ps[..b]).Live? {
      ContradictionEnds(v, ps, a, b, i);
      if b < k {
        EndedForever(v, true, ps, b + 1, k);
      }
    } else {
      EndedForever(v, true, ps, b, k);
    }
  }

  lemma ContradictionEnds(v: Verdict, ps: seq<Piece>, a: nat, b: nat, i: nat)
    requires a < b < |ps| && After(v, true, ps[..b]).Live?
    requires ps[a].Covers(i) && ps[b].Covers(i) && ps[a].At(i) != ps[b].At(i)
    ensures ReportAt(v, true, ps, b) == None && After(v, true, ps[..b + 1]) == Ended
  {
    hide Judge, Overlay;
    LiveRemembers(v, ps, a, b);
    assert Contradicts(After(v, true, ps[..b]).cells, ps[b]);
    assert ps[..b + 1] == ps[..b] + [ps[b]];
  }
}
