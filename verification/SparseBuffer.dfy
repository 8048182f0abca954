/** A growing buffer with holes: bytes, and which of them have been written. */
module SparseBuffer {
  import opened Bytes
  import opened Reassembly

  function Grown<T>(s: seq<T>, n: nat, fill: T): (r: seq<T>)
    ensures |r| == if |s| < n then n else |s|
    ensures forall i | 0 <= i < |r| :: r[i] == if i < |s| then s[i] else fill
  {
    if |s| < n then s + seq(n - |s|, _ => fill) else s
  }

  function Written(buf: seq<byte>, o: nat, data: seq<byte>): (r: seq<byte>)
    requires o + |data| <= |buf|
    ensures |r| == |buf|
    ensures forall i | 0 <= i < |r| :: r[i] == if o <= i < o + |data| then data[i - o] else buf[i]
  {
    buf[..o] + data + buf[o + |data|..]
  }

  function Marked(filled: seq<bool>, o: nat, n: nat): (r: seq<bool>)
    requires o + n <= |filled|
    ensures |r| == |filled|
    ensures forall i | 0 <= i < |r| :: r[i] == (o <= i < o + n || filled[i])
  {
    filled[..o] + seq(n, _ => true) + filled[o + n..]
  }

  function Hole(filled: seq<bool>, n: nat): (h: nat)
    ensures n <= h && (h < |filled| ==> !filled[h])
    ensures n <= |filled| ==> h <= |filled|
    ensures forall i | n <= i < h :: i < |filled| && filled[i]
    decreases |filled| - n
  {
    if n < |filled| && filled[n] then Hole(filled, n + 1) else n
  }

  predicate Clash(buf: seq<byte>, filled: seq<bool>, o: nat, data: seq<byte>)
    requires |buf| == |filled|
  {
    exists i: nat :: o <= i < o + |data| && i < |filled| && filled[i] && buf[i] != data[i - o]
  }

  /** Everything before `n` is there, and nothing at `n`. */
  ghost predicate FirstHole(filled: seq<bool>, n: nat) {
    && n <= |filled|
    && (forall i | 0 <= i < n :: filled[i])
    && (n < |filled| ==> !filled[n])
  }

  ghost function CellsIn(buf: seq<byte>, filled: seq<bool>): Cells
    requires |buf| == |filled|
  {
    map i: nat | i < |filled| && filled[i] :: buf[i]
  }

  lemma PrefixIn(buf: seq<byte>, filled: seq<bool>, n: nat)
    requires |buf| == |filled| && FirstHole(filled, n)
    ensures Prefix(CellsIn(buf, filled)) == buf[..n]
  {
    var cells := CellsIn(buf, filled);
    assert n !in cells;
    assert forall i: nat | i < n :: i in cells;
  }

  lemma ClashIsContradiction(had: seq<byte>, known: seq<bool>, o: nat, data: seq<byte>)
    requires |had| == |known|
    ensures Clash(Grown(had, o + |data|, 0), Grown(known, o + |data|, false), o, data)
            <==> Contradicts(CellsIn(had, known), Piece(o, data))
  {
    var p, cells := Piece(o, data), CellsIn(had, known);
    var buf, filled := Grown(had, o + |data|, 0), Grown(known, o + |data|, false);
    if i: nat :| o <= i < o + |data| && i < |filled| && filled[i] && buf[i] != data[i - o] {
      assert p.Covers(i) && i in cells;
    }
    if i: nat :| p.Covers(i) && i in cells && cells[i] != p.At(i) {
      assert filled[i] && buf[i] != data[i - o];
    }
  }

  lemma WrittenCells(buf: seq<byte>, filled: seq<bool>, o: nat, data: seq<byte>)
    requires |buf| == |filled|
    ensures CellsIn(Written(Grown(buf, o + |data|, 0), o, data), Marked(Grown(filled, o + |data|, false), o, |data|))
            == Overlay(CellsIn(buf, filled), Piece(o, data))
  {
    var p := Piece(o, data);
    var buf', filled' := Written(Grown(buf, o + |data|, 0), o, data), Marked(Grown(filled, o + |data|, false), o, |data|);
    var left, right := CellsIn(buf', filled'), Overlay(CellsIn(buf, filled), p);
    forall i: nat
      ensures i in left <==> i in right
      ensures i in left ==> left[i] == right[i]
    {
      if p.Covers(i) {
        assert p.At(i) == data[i - o];
      }
    }
  }
}
