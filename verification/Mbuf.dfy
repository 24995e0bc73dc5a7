/** Chains of fixed-size memory blocks, as the packet pool of the backhaul hands them out. */
module Mbuf {
  import opened Bytes

  type Chain = seq<seq<Byte>>

  /** Payload that fits the first block of a chain (behind its packet header) and each later block. */
  datatype Geometry = Geometry(first: nat, rest: nat)
  {
    predicate Valid() { rest > 0 }
  }

  function Pieces(data: seq<Byte>, cap: nat): (c: Chain)
    requires cap > 0
    decreases |data|
  {
    if data == [] then []
    else if |data| <= cap then [data]
    else [data[..cap]] + Pieces(data[cap..], cap)
  }

  /** The chain that holds data: one header block, then as many further blocks as the data needs. */
  function Chunks(g: Geometry, data: seq<Byte>): (c: Chain)
    requires g.Valid()
    ensures |c| >= 1
  {
    var n := Min(g.first, |data|);
    [data[..n]] + Pieces(data[n..], g.rest)
  }

  lemma {:induction false} PiecesJoin(data: seq<Byte>, cap: nat)
    requires cap > 0
    ensures Join(Pieces(data, cap)) == data
    ensures forall i :: 0 <= i < |Pieces(data, cap)| ==> 0 < |Pieces(data, cap)[i]| <= cap
    ensures forall i :: 0 <= i < |Pieces(data, cap)| - 1 ==> |Pieces(data, cap)[i]| == cap
    decreases |data|
  {
    var c := Pieces(data, cap);
    if |data| > cap {
      PiecesJoin(data[cap..], cap);
      assert c[1..] == Pieces(data[cap..], cap);
      assert data == data[..cap] + data[cap..];
    } else if data != [] {
      assert c == [data] && c[1..] == [];
    }
  }

  lemma OneMorePiece(cap: nat, n: nat)
    ensures cap * (1 + n) == cap + cap * n
  {
  }

  lemma {:induction false} PiecesNeeded(data: seq<Byte>, cap: nat)
    requires cap > 0
    ensures cap * |Pieces(data, cap)| < |data| + cap && |data| <= cap * |Pieces(data, cap)|
    decreases |data|
  {
    if |data| > cap {
      PiecesNeeded(data[cap..], cap);
      OneMorePiece(cap, |Pieces(data[cap..], cap)|);
    }
  }

  /** Copy-in keeps every byte in order, every block but the last is full, and no more blocks are taken than the data
      needs. */
  lemma ChunksJoin(g: Geometry, data: seq<Byte>)
    requires g.Valid()
    ensures Join(Chunks(g, data)) == data
    ensures |Chunks(g, data)[0]| <= g.first
    ensures |Chunks(g, data)| > 1 ==> |Chunks(g, data)[0]| == g.first
    ensures forall i :: 1 <= i < |Chunks(g, data)| ==> 0 < |Chunks(g, data)[i]| <= g.rest
    ensures forall i :: 1 <= i < |Chunks(g, data)| - 1 ==> |Chunks(g, data)[i]| == g.rest
    ensures |Chunks(g, data)| == 1 <==> |data| <= g.first
    ensures var later := |Chunks(g, data)| - 1; g.rest * (later - 1) < |data| - Min(g.first, |data|) <= g.rest * later
  {
    var n := Min(g.first, |data|);
    PiecesJoin(data[n..], g.rest);
    PiecesNeeded(data[n..], g.rest);
    var c := Chunks(g, data);
    assert c[1..] == Pieces(data[n..], g.rest);
    assert data == data[..n] + data[n..];
    assert g.rest * (|c| - 1 - 1) == g.rest * (|c| - 1) - g.rest;
    forall i | 1 <= i < |c| ensures 0 < |c[i]| <= g.rest && (i < |c| - 1 ==> |c[i]| == g.rest) {
      assert c[i] == c[1..][i - 1];
    }
  }

  /** Blocks held by a queue of chains. */
  function BlocksIn(queue: seq<Chain>): (n: nat) {
    if queue == [] then 0 else |queue[0]| + BlocksIn(queue[1..])
  }

  lemma {:induction false} BlocksInAppend(queue: seq<Chain>, c: Chain)
    ensures BlocksIn(queue + [c]) == BlocksIn(queue) + |c|
  {
    if queue == [] {
      assert queue + [c] == [c];
    } else {
      BlocksInAppend(queue[1..], c);
      assert (queue + [c])[1..] == queue[1..] + [c];
    }
  }
}
