/** Alignment of the channel impulse responses of two receivers by shifting one of them, in two ways. */
module CirShift {

  const PAD: real := 4000.0

  // ---- shifting one array ----

  /** Moved n places to the front, padded at the back; n may exceed the length. */
  function Left(s: seq<real>, n: nat): (t: seq<real>)
    ensures |t| == |s|
    ensures forall k :: 0 <= k < |s| ==> t[k] == if k + n < |s| then s[k + n] else 4000.0
  {
    seq(|s|, k requires 0 <= k < |s| => if k + n < |s| then s[k + n] else PAD)
  }

  /** Moved n places to the back, padded at the front. */
  function Right(s: seq<real>, n: nat): (t: seq<real>)
    ensures |t| == |s|
    ensures forall k :: 0 <= k < |s| ==> t[k] == if n <= k then s[k - n] else 4000.0
  {
    seq(|s|, k requires 0 <= k < |s| => if n <= k then s[k - n] else PAD)
  }

  lemma LeftOnce(s: seq<real>, n: nat)
    requires s != []
    ensures Left(s, n)[1..] + [PAD] == Left(s, n + 1)
  {
  }

  lemma RightOnce(s: seq<real>, n: nat)
    requires s != []
    ensures [PAD] + Right(s, n)[..|s| - 1] == Right(s, n + 1)
  {
  }

  lemma Unmoved(s: seq<real>)
    ensures Left(s, 0) == s && Right(s, 0) == s
  {
  }

  // ---- the offset between two receivers ----

  /** Rounding to the nearest integer, ties to the even one. */
  function Round(x: real): (r: int)
    ensures r as real - 0.5 <= x <= r as real + 0.5
    ensures x == r as real - 0.5 || x == r as real + 0.5 ==> r % 2 == 0
  {
    var f := x.Floor;
    var d := x - f as real;
    if d < 0.5 || (d == 0.5 && f % 2 == 0) then f else f + 1
  }

  /** One receiver's samples: first-path index, index of the sample of interest, raw timestamp in 1/64 samples. */
  class Cir {
    var samples: seq<real>
    var imag: seq<real>
    const fpIdx: real
    const o: int
    const rts: real

    constructor (samples: seq<real>, imag: seq<real>, fpIdx: real, o: int, rts: real)
      ensures this.samples == samples && this.imag == imag && this.fpIdx == fpIdx && this.o == o && this.rts == rts
    {
      this.samples, this.imag, this.fpIdx, this.o, this.rts := samples, imag, fpIdx, o, rts;
    }

    /** Removing from an empty list is an error, so there have to be samples if there is a round. */
    method DropFront(n: nat)
      requires n > 0 ==> samples != [] && imag != []
      modifies this
      ensures samples == Left(old(samples), n) && imag == Left(old(imag), n)
    {
      ghost var s, m := samples, imag;
      Unmoved(s);
      Unmoved(m);
      for i := 0 to n
        invariant samples == Left(s, i) && imag == Left(m, i)
      {
        LeftOnce(s, i);
        LeftOnce(m, i);
        samples := samples[1..];
        samples := samples + [PAD];
        imag := imag[1..];
        imag := imag + [PAD];
      }
    }

    /** Removing from an empty list is an error, so there have to be samples if there is a round. */
    method DropBack(n: nat)
      requires n > 0 ==> samples != [] && imag != []
      modifies this
      ensures samples == Right(old(samples), n) && imag == Right(old(imag), n)
    {
      ghost var s, m := samples, imag;
      Unmoved(s);
      Unmoved(m);
      for i := 0 to n
        invariant samples == Right(s, i) && imag == Right(m, i)
      {
        RightOnce(s, i);
        RightOnce(m, i);
        samples := samples[..|samples| - 1];
        samples := [PAD] + samples;
        imag := imag[..|imag| - 1];
        imag := [PAD] + imag;
      }
    }
  }

  /** How many samples later than cir0 the array of cir1 starts. */
  function Offset(cir0: Cir, cir1: Cir): (d: real) {
    Round(cir1.fpIdx - cir1.o as real) as real - Round(cir0.fpIdx - cir0.o as real) as real
    + (cir1.rts - cir0.rts) / 64.0
  }

  /** Steps taken for an offset d under an upper guard. */
  function Steps(d: real, guard: real): (n: nat)
    ensures n > 0 ==> d > 0.1 && n as real <= d < guard
    ensures 0.1 < d < guard ==> n as real <= d < n as real + 1.0
  {
    if 0.1 < d < guard then d.Floor else 0
  }

  /** The two guards of the second routine in one. */
  function Reach(o: int, s: seq<real>): (guard: real)
    ensures guard <= o as real && guard <= |s| as real && (guard == o as real || guard == |s| as real)
  {
    if o < |s| then o as real else |s| as real
  }

  /** The four lists may differ in length; one that is shifted must not be empty, since removing from it would fail. */
  predicate HasSamples(cir: Cir)
    reads cir
  {
    cir.samples != [] && cir.imag != []
  }

  method CirFpidxShift(cir0: Cir, cir1: Cir)
    requires cir0 != cir1
    requires Steps(Offset(cir0, cir1), |cir0.samples| as real) > 0 ==> HasSamples(cir0)
    requires Steps(-Offset(cir0, cir1), |cir1.samples| as real) > 0 ==> HasSamples(cir1)
    modifies cir0, cir1
    ensures var n := Steps(Offset(cir0, cir1), |old(cir0.samples)| as real);
      cir0.samples == Left(old(cir0.samples), n) && cir0.imag == Left(old(cir0.imag), n)
    ensures var n := Steps(-Offset(cir0, cir1), |old(cir1.samples)| as real);
      cir1.samples == Left(old(cir1.samples), n) && cir1.imag == Left(old(cir1.imag), n)
  {
    Still(cir0, cir1);
    var lag := (cir1.rts - cir0.rts) / 64.0;
    var diff := Round(cir1.fpIdx - cir1.o as real) as real - Round(cir0.fpIdx - cir0.o as real) as real + lag;
    if diff > 0.1 {
      if diff < |cir0.samples| as real {
        cir0.DropFront(diff.Floor);
      }
    }
    diff := Round(cir0.fpIdx - cir0.o as real) as real - Round(cir1.fpIdx - cir1.o as real) as real - lag;
    if diff > 0.1 {
      if diff < |cir1.samples| as real {
        cir1.DropFront(diff.Floor);
      }
    }
  }

  lemma Still(cir0: Cir, cir1: Cir)
    ensures Left(cir0.samples, 0) == cir0.samples == Right(cir0.samples, 0)
    ensures Left(cir0.imag, 0) == cir0.imag == Right(cir0.imag, 0)
    ensures Left(cir1.samples, 0) == cir1.samples == Right(cir1.samples, 0)
    ensures Left(cir1.imag, 0) == cir1.imag == Right(cir1.imag, 0)
  {
  }

  method CirFpidxShift3(cir0: Cir, cir1: Cir)
    requires cir0 != cir1
    requires Steps(Offset(cir0, cir1), Reach(cir0.o, cir0.samples)) > 0 ==> HasSamples(cir1)
    requires Steps(-Offset(cir0, cir1), Reach(cir0.o, cir1.samples)) > 0 ==> HasSamples(cir0)
    modifies cir0, cir1
    ensures var n := Steps(Offset(cir0, cir1), Reach(cir0.o, old(cir0.samples)));
      cir1.samples == Right(old(cir1.samples), n) && cir1.imag == Right(old(cir1.imag), n)
    ensures var n := Steps(-Offset(cir0, cir1), Reach(cir0.o, old(cir1.samples)));
      cir0.samples == Right(old(cir0.samples), n) && cir0.imag == Right(old(cir0.imag), n)
  {
    Still(cir0, cir1);
    var lag := (cir1.rts - cir0.rts) / 64.0;
    var diff := Round(cir1.fpIdx - cir1.o as real) as real - Round(cir0.fpIdx - cir0.o as real) as real + lag;
    if diff > 0.1 && diff < cir0.o as real {
      if diff < |cir0.samples| as real {
        cir1.DropBack(diff.Floor);
      }
    }
    diff := Round(cir0.fpIdx - cir0.o as real) as real - Round(cir1.fpIdx - cir1.o as real) as real - lag;
    if diff > 0.1 && diff < cir0.o as real {
      if diff < |cir1.samples| as real {
        cir0.DropBack(diff.Floor);
      }
    }
  }

  // ---- alignment ----

  predicate IsInteger(d: real) {
    d.Floor as real == d
  }

  /** At most one of the two arrays is touched. */
  lemma OneSideMoves(d: real, up: real, down: real)
    ensures Steps(d, up) == 0 || Steps(-d, down) == 0
  {
  }

  /** How much further into its array the sample of cir0 is that ends up beside a sample of cir1. */
  function Distance(d: real, up: real, down: real): (n: int) {
    Steps(d, up) - Steps(-d, down)
  }

  predicate Within(d: real, up: real, down: real) {
    if d > 0.0 then d < up else if d < 0.0 then -d < down else true
  }

  /** It is the offset, so that side by side means the same absolute sample, exactly when the offset is an integer
      within the guards; otherwise, within the guards, less than one sample is left. */
  lemma AlignedIff(d: real, up: real, down: real)
    ensures Distance(d, up, down) as real == d <==> IsInteger(d) && Within(d, up, down)
    ensures Within(d, up, down) ==> -1.0 < d - Distance(d, up, down) as real < 1.0
  {
    var n := Distance(d, up, down);
    if IsInteger(d) && Within(d, up, down) {
      var i := d.Floor;
      assert i > 0 ==> d >= 1.0;
      assert i < 0 ==> d <= -1.0 && (-d).Floor == -i;
    }
    if n as real == d {
      assert d.Floor == n;
    }
  }

  /** What the first routine does to the samples of the two receivers, at positions that neither pads. */
  lemma ShiftAligns(s0: seq<real>, s1: seq<real>, d: real, k: nat)
    requires IsInteger(d) && Within(d, |s0| as real, |s1| as real)
    requires k + Steps(d, |s0| as real) < |s0| && k + Steps(-d, |s1| as real) < |s1|
    ensures var n0, n1 := Steps(d, |s0| as real), Steps(-d, |s1| as real);
      && Left(s0, n0)[k] == s0[k + n0] && Left(s1, n1)[k] == s1[k + n1]
      && (k + n0) as real == (k + n1) as real + d
  {
    AlignedIff(d, |s0| as real, |s1| as real);
  }

  /** In absolute terms: where a receiver's array starts is its rounded first-path index behind the sample of interest,
      plus its timestamp in samples. Samples that end up beside each other were taken at the same time. */
  lemma SameInstant(cir0: Cir, cir1: Cir, s0: seq<real>, s1: seq<real>, k: nat)
    requires IsInteger(Offset(cir0, cir1)) && Within(Offset(cir0, cir1), |s0| as real, |s1| as real)
    requires k + Steps(Offset(cir0, cir1), |s0| as real) < |s0| && k + Steps(-Offset(cir0, cir1), |s1| as real) < |s1|
    ensures var n0, n1 := Steps(Offset(cir0, cir1), |s0| as real), Steps(-Offset(cir0, cir1), |s1| as real);
      && Left(s0, n0)[k] == s0[k + n0] && Left(s1, n1)[k] == s1[k + n1]
      && Round(cir0.fpIdx - cir0.o as real) as real + cir0.rts / 64.0 + (k + n0) as real
         == Round(cir1.fpIdx - cir1.o as real) as real + cir1.rts / 64.0 + (k + n1) as real
  {
    ShiftAligns(s0, s1, Offset(cir0, cir1), k);
  }

  /** The same for the second routine. */
  lemma Shift3Aligns(s0: seq<real>, s1: seq<real>, d: real, o: int, k: nat)
    requires IsInteger(d) && Within(d, Reach(o, s0), Reach(o, s1))
    requires Steps(d, Reach(o, s0)) <= k < |s1| && Steps(-d, Reach(o, s1)) <= k < |s0|
    ensures var n1, n0 := Steps(d, Reach(o, s0)), Steps(-d, Reach(o, s1));
      && Right(s0, n0)[k] == s0[k - n0] && Right(s1, n1)[k] == s1[k - n1]
      && (k - n0) as real == (k - n1) as real + d
  {
    AlignedIff(d, Reach(o, s0), Reach(o, s1));
  }

  /** The two routines put the same samples side by side, the second one a fixed number of positions later. */
  lemma RoutinesAgree(s0: seq<real>, s1: seq<real>, d: real, o: int, k: nat)
    requires Within(d, Reach(o, s0), Reach(o, s1))
    requires var m := k + Steps(d, |s0| as real) + Steps(-d, |s1| as real); m < |s0| && m < |s1|
    ensures var n0, n1 := Steps(d, |s0| as real), Steps(-d, |s1| as real);
      && Steps(d, Reach(o, s0)) == n0 && Steps(-d, Reach(o, s1)) == n1
      && Left(s0, n0)[k] == Right(s0, n1)[k + n0 + n1]
      && Left(s1, n1)[k] == Right(s1, n0)[k + n0 + n1]
  {
    OneSideMoves(d, |s0| as real, |s1| as real);
  }
}
