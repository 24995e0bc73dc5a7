/** The packed layout of the result packet, field by field at its offset, in numbers. */
module Layout {
  import opened Bytes
  import opened Wire
  import Seqs

  /** A two's complement field of one, two or four bytes. */
  lemma SignedField(x: int, n: nat)
    requires n == 1 || n == 2 || n == 4
    requires -(Pow256(n) / 2) <= x < Pow256(n) / 2
    ensures n == 1 ==> SignedBytes(x, n) == Le(if x < 0 then x + 0x100 else x, 1)
    ensures n == 2 ==> SignedBytes(x, n) == Le(if x < 0 then x + 0x1_0000 else x, 2)
    ensures n == 4 ==> SignedBytes(x, n) == Le(if x < 0 then x + 0x1_0000_0000 else x, 4)
  {
    Widths();
  }

  lemma Cut3(a: seq<Byte>, b: seq<Byte>, c: seq<Byte>)
    ensures var s := a + (b + c); var i, j := |a|, |a| + |b|;
      s[..i] == a && s[i..j] == b && s[j..] == c
  {
  }

  lemma Cut4(a: seq<Byte>, b: seq<Byte>, c: seq<Byte>, d: seq<Byte>)
    ensures var s := a + (b + (c + d)); var i, j, k := |a|, |a| + |b|, |a| + |b| + |c|;
      s[..i] == a && s[i..j] == b && s[j..k] == c && s[k..] == d
  {
    var s, i, j := a + (b + (c + d)), |a|, |a| + |b|;
    Cut3(a, b, c + d);
    Seqs.Halves(c, d);
    assert s[j..j + |c|] == s[j..][..|c|] && s[j + |c|..] == s[j..][|c|..];
  }

  lemma Cut6(a: seq<Byte>, b: seq<Byte>, c: seq<Byte>, d: seq<Byte>, e: seq<Byte>, f: seq<Byte>)
    requires |a| == 2 && |b| == 1 && |c| == 2 && |d| == 2 && |e| == 2 && |f| == 2
    ensures var s := a + (b + (c + (d + (e + f))));
      s[..2] == a && s[2..3] == b && s[3..5] == c && s[5..7] == d && s[7..9] == e && s[9..] == f
  {
    var s := a + (b + (c + (d + (e + f))));
    Cut3(a, b, c + (d + (e + f)));
    Cut4(c, d, e, f);
    assert s[3..5] == s[3..][..2] && s[5..7] == s[3..][2..4] && s[7..9] == s[3..][4..6] && s[9..] == s[3..][6..];
  }

  lemma HeaderLayout(h: Header)
    ensures var b := HeaderBytes(h);
      && b[..2] == Le(h.fctrl, 2) && b[2..3] == Le(h.seqNum, 1) && b[3..5] == Le(h.panId, 2)
      && b[5..7] == Le(h.dst, 2) && b[7..9] == Le(h.src, 2) && b[9..] == Le(h.code, 2)
  {
    Cut6(Le(h.fctrl, 2), Le(h.seqNum, 1), Le(h.panId, 2), Le(h.dst, 2), Le(h.src, 2), Le(h.code, 2));
  }

  lemma VecLayout(v: Vec3)
    ensures var b := VecBytes(v);
      && b[..2] == Le(if v.x < 0 then v.x + 0x1_0000 else v.x, 2)
      && b[2..4] == Le(if v.y < 0 then v.y + 0x1_0000 else v.y, 2)
      && b[4..] == Le(if v.z < 0 then v.z + 0x1_0000 else v.z, 2)
  {
    Widths();
    SignedField(v.x, 2);
    SignedField(v.y, 2);
    SignedField(v.z, 2);
    Cut3(SignedBytes(v.x, 2), SignedBytes(v.y, 2), SignedBytes(v.z, 2));
  }

  lemma ClockLayout(s: Sensors)
    ensures var b := ClockBytes(s);
      && b[..8] == Le(s.ts, 8) && b[8..10] == Le(s.valid + 0x4000 * s.usbPower + 0x8000 * s.anchorData, 2)
      && b[10..14] == Le(s.gpsLat, 4) && b[14..] == Le(s.gpsLong, 4)
  {
    Cut4(Le(s.ts, 8), Le(Flags(s), 2), Le(s.gpsLat, 4), Le(s.gpsLong, 4));
  }

  lemma Cut5(a: seq<Byte>, b: seq<Byte>, c: seq<Byte>, d: seq<Byte>, e: seq<Byte>)
    requires |a| == 1 && |b| == 2 && |c| == 6 && |d| == 6 && |e| == 6
    ensures var s := a + (b + (c + (d + e)));
      s[..1] == a && s[1..3] == b && s[3..9] == c && s[9..15] == d && s[15..] == e
  {
    var s := a + (b + (c + (d + e)));
    Cut3(a, b, c + (d + e));
    Cut3(c, d, e);
    assert s[3..9] == s[3..][..6] && s[9..15] == s[3..][6..12] && s[15..] == s[3..][12..];
  }

  lemma MotionLayout(s: Sensors)
    ensures var b := MotionBytes(s);
      && b[..1] == Le(if s.battery < 0 then s.battery + 0x100 else s.battery, 1)
      && b[1..3] == Le(if s.pressure < 0 then s.pressure + 0x1_0000 else s.pressure, 2)
      && b[3..9] == VecBytes(s.compass) && b[9..15] == VecBytes(s.acceleration) && b[15..] == VecBytes(s.gyro)
  {
    Widths();
    SignedField(s.battery, 1);
    SignedField(s.pressure, 2);
    Cut5(SignedBytes(s.battery, 1), SignedBytes(s.pressure, 2), VecBytes(s.compass), VecBytes(s.acceleration),
         VecBytes(s.gyro));
  }

  lemma RangeLayout(r: RangeRec)
    ensures var b := RangeBytes(r);
      && b[..2] == Le(r.addr, 2)
      && b[2..6] == Le(if r.diffMm < 0 then r.diffMm + 0x1_0000_0000 else r.diffMm, 4)
      && b[6..] == Le((if r.rssi < 0 then r.rssi + 0x4000 else r.rssi)
                      + 0x4000 * (if r.quality < 0 then r.quality + 4 else r.quality), 2)
  {
    Widths();
    SignedField(r.diffMm, 4);
    Cut3(Le(r.addr, 2), SignedBytes(r.diffMm, 4), Le(RangeTail(r), 2));
  }

  lemma {:induction false} PieceAt(pieces: seq<seq<Byte>>, w: nat, k: nat)
    requires k < |pieces| && forall i :: 0 <= i < |pieces| ==> |pieces[i]| == w
    ensures w * k + w <= |Join(pieces)| && Join(pieces)[w * k..w * k + w] == pieces[k]
  {
    JoinLength(pieces[1..], w);
    if k > 0 {
      PieceAt(pieces[1..], w, k - 1);
      assert w * k == w + w * (k - 1);
      Seqs.Later(pieces[0], Join(pieces[1..]), w * (k - 1), w * (k - 1) + w);
    }
  }

  lemma CutTop(a: seq<Byte>, b: seq<Byte>, c: seq<Byte>, d: seq<Byte>, e: seq<Byte>)
    requires |a| == 11 && |b| == 18 && |c| == 21
    ensures var s := a + (b + c) + (d + e);
      s[..11] == a && s[11..29] == b && s[29..50] == c && s[50..] == d + e
  {
    var s := a + (b + c) + (d + e);
    Seqs.Halves(a + (b + c), d + e);
    Cut3(a, b, c);
    assert s[..11] == s[..50][..11] && s[11..29] == s[..50][11..29] && s[29..50] == s[..50][29..];
  }

  lemma TopLayout(p: Packet)
    ensures var b := Encode(p);
      && |b| == 181
      && b[..11] == HeaderBytes(p.head) && b[11..29] == ClockBytes(p.sensors) && b[29..50] == MotionBytes(p.sensors)
      && b[50..] == Le(p.refAnchor, 2) + (Le(p.numRanges, 1) + RangesBytes(p.ranges))
  {
    CutTop(HeaderBytes(p.head), ClockBytes(p.sensors), MotionBytes(p.sensors), Le(p.refAnchor, 2),
           Le(p.numRanges, 1) + RangesBytes(p.ranges));
  }

  /** The fixed parts of the packet stand at 0, 11, 29, 50 and 52, and the k-th of 16 range slots at 53 + 8k. */
  lemma PacketLayout(p: Packet, k: nat)
    requires k < 16
    ensures |Encode(p)| == 181
    ensures Encode(p)[..11] == HeaderBytes(p.head)
    ensures Encode(p)[11..29] == ClockBytes(p.sensors) && Encode(p)[29..50] == MotionBytes(p.sensors)
    ensures Encode(p)[50..52] == Le(p.refAnchor, 2) && Encode(p)[52..53] == Le(p.numRanges, 1)
    ensures Encode(p)[53 + 8 * k..61 + 8 * k] == RangeBytes(p.ranges[k])
  {
    TopLayout(p);
    BackLayout(Encode(p), Le(p.refAnchor, 2), Le(p.numRanges, 1), p.ranges, k);
  }

  lemma BackLayout(b: seq<Byte>, ref: seq<Byte>, num: seq<Byte>, rs: seq<RangeRec>, k: nat)
    requires |b| == 181 && |ref| == 2 && |num| == 1 && |rs| == 16 && k < 16
    requires b[50..] == ref + (num + RangesBytes(rs))
    ensures b[50..52] == ref && b[52..53] == num && b[53 + 8 * k..61 + 8 * k] == RangeBytes(rs[k])
  {
    var ranges := RangesBytes(rs);
    PieceAt(RangeImages(rs), 8, k);
    Cut3(ref, num, ranges);
    assert b[50..52] == b[50..][..2] && b[52..53] == b[50..][2..3] && b[53..] == b[50..][3..];
    assert b[53 + 8 * k..61 + 8 * k] == b[53..][8 * k..8 * k + 8];
  }

  /** A packet with n ranges is sent up to the end of the last of them. */
  lemma SentLength(n: nat)
    requires n <= 16
    ensures Length(n) == 53 + 8 * n
  {
  }
}
