/** Fixed-width integers and their little-endian byte images, as the packed structs of the firmware store them. */
module Bytes {
  import Arith

  type Byte = x: int | 0 <= x < 0x100
  type U14 = x: int | 0 <= x < 0x4000
  type U16 = x: int | 0 <= x < 0x1_0000
  type U32 = x: int | 0 <= x < 0x1_0000_0000
  type U64 = x: int | 0 <= x < 0x1_0000_0000_0000_0000
  type Bit = x: int | 0 <= x < 2
  type I2 = x: int | -2 <= x < 2
  type I8 = x: int | -0x80 <= x < 0x80
  type I14 = x: int | -0x2000 <= x < 0x2000
  type I16 = x: int | -0x8000 <= x < 0x8000
  type I32 = x: int | -0x8000_0000 <= x < 0x8000_0000

  function Pow256(n: nat): (p: nat)
    ensures p >= 1
  {
    if n == 0 then 1 else 256 * Pow256(n - 1)
  }

  /** The n low bytes of x, least significant first. */
  function Le(x: nat, n: nat): (b: seq<Byte>)
    ensures |b| == n
  {
    if n == 0 then [] else [x % 256] + Le(x / 256, n - 1)
  }

  /** The number that a little-endian byte string stands for. */
  function Value(b: seq<Byte>): (v: nat)
    ensures v < Pow256(|b|)
  {
    if b == [] then 0 else b[0] + 256 * Value(b[1..])
  }

  lemma {:induction false} ValueLe(x: nat, n: nat)
    requires x < Pow256(n)
    ensures Value(Le(x, n)) == x
  {
    if n > 0 {
      ValueLe(x / 256, n - 1);
      assert Le(x, n)[1..] == Le(x / 256, n - 1);
    }
  }

  lemma {:induction false} LeValue(b: seq<Byte>)
    ensures Le(Value(b), |b|) == b
  {
    if b != [] {
      LeValue(b[1..]);
      var t := Value(b[1..]);
      assert (b[0] + 256 * t) % 256 == b[0] && (b[0] + 256 * t) / 256 == t;
    }
  }

  lemma Divide(x: nat, p: nat)
    requires p > 0
    ensures x / 256 / p == x / (256 * p)
  {
    var y, m := x / 256, 256 * p;
    var q, r := y / p, y % p;
    assert m * q == 256 * (p * q);
    assert x == m * q + (256 * r + x % 256);
    assert 256 * r + x % 256 < m;
    Arith.ModOf(x, m, q, 256 * r + x % 256);
  }

  /** Byte i is the i-th digit of x in base 256, the lowest first. */
  lemma {:induction false} LeAt(x: nat, n: nat, i: nat)
    requires i < n
    ensures Le(x, n)[i] == x / Pow256(i) % 256
    decreases n
  {
    if i > 0 {
      LeAt(x / 256, n - 1, i - 1);
      Divide(x, Pow256(i - 1));
    }
  }

  lemma Widths()
    ensures Pow256(1) == 0x100 && Pow256(2) == 0x1_0000 && Pow256(4) == 0x1_0000_0000
    ensures Pow256(8) == 0x1_0000_0000_0000_0000
  {
    assert Pow256(3) == 0x100_0000;
    assert Pow256(5) == 0x100_0000_0000;
    assert Pow256(6) == 0x1_0000_0000_0000;
    assert Pow256(7) == 0x100_0000_0000_0000;
  }

  /** Two's complement image of x in a field that holds m values. */
  function Unsigned(x: int, m: nat): (u: nat)
    requires m % 2 == 0 && -(m / 2) <= x < m / 2
    ensures u < m && Signed(u, m) == x
  {
    if x < 0 then x + m else x
  }

  /** The signed number that a field of m values holds. */
  function Signed(u: nat, m: nat): (x: int)
    requires m % 2 == 0 && u < m
    ensures -(m / 2) <= x < m / 2
  {
    if u >= m / 2 then u - m else u
  }

  function Zeros(n: nat): (z: seq<Byte>)
    ensures |z| == n && forall i :: 0 <= i < n ==> z[i] == 0
  {
    seq(n, i => 0)
  }

  lemma ZerosJoin(m: nat, n: nat)
    ensures Zeros(m) + Zeros(n) == Zeros(m + n)
  {
  }

  lemma {:induction false} LeZero(n: nat)
    ensures Le(0, n) == Zeros(n)
  {
    if n > 0 {
      LeZero(n - 1);
      ZerosJoin(1, n - 1);
    }
  }

  function Min(a: nat, b: nat): (m: nat)
    ensures m <= a && m <= b && (m == a || m == b)
  {
    if a < b then a else b
  }

  /** n copies of x. */
  function Fill<T>(x: T, n: nat): (xs: seq<T>)
    ensures |xs| == n && forall i :: 0 <= i < n ==> xs[i] == x
  {
    seq(n, i => x)
  }

  /** The pieces of a split-up byte string, put together again. */
  function Join(pieces: seq<seq<Byte>>): (b: seq<Byte>) {
    if pieces == [] then [] else pieces[0] + Join(pieces[1..])
  }

  lemma {:induction false} JoinLength(pieces: seq<seq<Byte>>, w: nat)
    requires forall i :: 0 <= i < |pieces| ==> |pieces[i]| == w
    ensures |Join(pieces)| == w * |pieces|
  {
    if pieces != [] {
      JoinLength(pieces[1..], w);
    }
  }

  lemma {:induction false} JoinAppend(a: seq<seq<Byte>>, b: seq<seq<Byte>>)
    ensures Join(a + b) == Join(a) + Join(b)
  {
    if a == [] {
      assert a + b == b;
    } else {
      assert (a + b)[0] == a[0] && (a + b)[1..] == a[1..] + b;
      JoinAppend(a[1..], b);
      assert Join(a + b) == a[0] + (Join(a[1..]) + Join(b));
    }
  }

  lemma {:induction false} JoinZeros(w: nat, n: nat)
    ensures Join(Fill(Zeros(w), n)) == Zeros(w * n)
  {
    if n > 0 {
      assert Fill(Zeros(w), n)[1..] == Fill(Zeros(w), n - 1);
      JoinZeros(w, n - 1);
      assert w * n == w + w * (n - 1);
      ZerosJoin(w, w * (n - 1));
    }
  }
}
