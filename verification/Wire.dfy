/** The packed result packet of the RTDoA backhaul: its records, their byte image, and what truncation does to it. */
module Wire {
  import opened Bytes
  import Seqs

  const HEAD_SIZE: nat := 11
  const SENSOR_SIZE: nat := 39
  const RANGE_SIZE: nat := 8
  const MAX_RANGES: nat := 16

  /** Offset of `ref_anchor_addr`, offset of `num_ranges`, and the length in front of the first range slot. */
  const REF_AT: nat := HEAD_SIZE + SENSOR_SIZE
  const SPLIT_AT: nat := REF_AT + 2
  const FIXED_SIZE: nat := SPLIT_AT + 1
  const PACKET_SIZE: nat := FIXED_SIZE + RANGE_SIZE * MAX_RANGES

  datatype Header = Header(fctrl: U16, seqNum: Byte, panId: U16, dst: U16, src: U16, code: U16)

  datatype Vec3 = Vec3(x: I16, y: I16, z: I16)

  /** The floats of the source are kept as their 32-bit patterns. */
  datatype Sensors = Sensors(ts: U64, valid: U14, usbPower: Bit, anchorData: Bit, gpsLat: U32, gpsLong: U32,
                             battery: I8, pressure: I16, compass: Vec3, acceleration: Vec3, gyro: Vec3)

  datatype RangeRec = RangeRec(addr: U16, diffMm: I32, rssi: I14, quality: I2)

  datatype PacketFields = PacketFields(head: Header, sensors: Sensors, refAnchor: U16, numRanges: Byte,
                                       ranges: seq<RangeRec>)

  const ZERO_VEC := Vec3(0, 0, 0)
  const ZERO_SENSORS := Sensors(0, 0, 0, 0, 0, 0, 0, 0, ZERO_VEC, ZERO_VEC, ZERO_VEC)
  const ZERO_RANGE := RangeRec(0, 0, 0, 0)
  const NO_RANGES: seq<RangeRec> := Fill(ZERO_RANGE, MAX_RANGES)

  type Packet = p: PacketFields | |p.ranges| == MAX_RANGES
    witness PacketFields(Header(0, 0, 0, 0, 0, 0), ZERO_SENSORS, 0, 0, seq(MAX_RANGES, i => ZERO_RANGE))

  // ---- byte images ----

  function HeaderBytes(h: Header): (b: seq<Byte>)
    ensures |b| == HEAD_SIZE
  {
    Le(h.fctrl, 2) + (Le(h.seqNum, 1) + (Le(h.panId, 2) + (Le(h.dst, 2) + (Le(h.src, 2) + Le(h.code, 2)))))
  }

  function HeaderOf(b: seq<Byte>): (h: Header)
    requires |b| == HEAD_SIZE
  {
    Widths();
    Header(Value(b[..2]), Value(b[2..][..1]), Value(b[2..][1..][..2]), Value(b[2..][1..][2..][..2]),
           Value(b[2..][1..][2..][2..][..2]), Value(b[2..][1..][2..][2..][2..]))
  }

  function SignedBytes(x: int, n: nat): (b: seq<Byte>)
    requires n == 1 || n == 2 || n == 4
    requires -(Pow256(n) / 2) <= x < Pow256(n) / 2
    ensures |b| == n
  {
    Widths();
    Le(Unsigned(x, Pow256(n)), n)
  }

  function SignedOf(b: seq<Byte>): (x: int)
    requires |b| == 1 || |b| == 2 || |b| == 4
    ensures -(Pow256(|b|) / 2) <= x < Pow256(|b|) / 2
  {
    Widths();
    Signed(Value(b), Pow256(|b|))
  }

  lemma SignedRoundTrip(x: int, n: nat)
    requires n == 1 || n == 2 || n == 4
    requires -(Pow256(n) / 2) <= x < Pow256(n) / 2
    ensures SignedOf(SignedBytes(x, n)) == x
  {
    Widths();
    ValueLe(Unsigned(x, Pow256(n)), n);
  }

  lemma SignedBytesRoundTrip(b: seq<Byte>)
    requires |b| == 1 || |b| == 2 || |b| == 4
    ensures SignedBytes(SignedOf(b), |b|) == b
  {
    Widths();
    LeValue(b);
  }

  function VecBytes(v: Vec3): (b: seq<Byte>)
    ensures |b| == 6
  {
    Widths();
    SignedBytes(v.x, 2) + (SignedBytes(v.y, 2) + SignedBytes(v.z, 2))
  }

  function VecOf(b: seq<Byte>): (v: Vec3)
    requires |b| == 6
  {
    Widths();
    Vec3(SignedOf(b[..2]), SignedOf(b[2..][..2]), SignedOf(b[2..][2..]))
  }

  /** The first sixteen bits after the timestamp: 14 valid flags, the USB flag, the anchor flag, low bits first. */
  function Flags(s: Sensors): (f: U16) {
    s.valid + 0x4000 * s.usbPower + 0x8000 * s.anchorData
  }

  function ClockBytes(s: Sensors): (b: seq<Byte>)
    ensures |b| == 18
  {
    Le(s.ts, 8) + (Le(Flags(s), 2) + (Le(s.gpsLat, 4) + Le(s.gpsLong, 4)))
  }

  function ClockOf(b: seq<Byte>): (c: (U64, U16, U32, U32))
    requires |b| == 18
  {
    Widths();
    (Value(b[..8]), Value(b[8..][..2]), Value(b[8..][2..][..4]), Value(b[8..][2..][4..]))
  }

  function MotionBytes(s: Sensors): (b: seq<Byte>)
    ensures |b| == 21
  {
    Widths();
    SignedBytes(s.battery, 1) +
    (SignedBytes(s.pressure, 2) + (VecBytes(s.compass) + (VecBytes(s.acceleration) + VecBytes(s.gyro))))
  }

  function MotionOf(b: seq<Byte>): (m: (I8, I16, Vec3, Vec3, Vec3))
    requires |b| == 21
  {
    Widths();
    var v := b[1..][2..];
    (SignedOf(b[..1]), SignedOf(b[1..][..2]), VecOf(v[..6]), VecOf(v[6..][..6]), VecOf(v[6..][6..]))
  }

  function SensorBytes(s: Sensors): (b: seq<Byte>)
    ensures |b| == SENSOR_SIZE
  {
    ClockBytes(s) + MotionBytes(s)
  }

  function SensorsOf(b: seq<Byte>): (s: Sensors)
    requires |b| == SENSOR_SIZE
  {
    Assemble(ClockOf(b[..18]), MotionOf(b[18..]))
  }

  function Assemble(c: (U64, U16, U32, U32), m: (I8, I16, Vec3, Vec3, Vec3)): (s: Sensors) {
    Sensors(c.0, c.1 % 0x4000, c.1 / 0x4000 % 2, c.1 / 0x8000, c.2, c.3, m.0, m.1, m.2, m.3, m.4)
  }

  /** The two bit-fields of a range slot: 14 bits of rssi, 2 bits of quality, both signed, low bits first. */
  function RangeTail(r: RangeRec): (t: U16) {
    Unsigned(r.rssi, 0x4000) + 0x4000 * Unsigned(r.quality, 4)
  }

  function RangeBytes(r: RangeRec): (b: seq<Byte>)
    ensures |b| == RANGE_SIZE
  {
    Widths();
    Le(r.addr, 2) + (SignedBytes(r.diffMm, 4) + Le(RangeTail(r), 2))
  }

  function RangeOf(b: seq<Byte>): (r: RangeRec)
    requires |b| == RANGE_SIZE
  {
    Widths();
    var t := Value(b[2..][4..]);
    RangeRec(Value(b[..2]), SignedOf(b[2..][..4]), Signed(t % 0x4000, 0x4000), Signed(t / 0x4000, 4))
  }

  function RangeImages(rs: seq<RangeRec>): (images: seq<seq<Byte>>)
    ensures |images| == |rs| && forall i :: 0 <= i < |rs| ==> images[i] == RangeBytes(rs[i])
  {
    seq(|rs|, i requires 0 <= i < |rs| => RangeBytes(rs[i]))
  }

  function RangesBytes(rs: seq<RangeRec>): (b: seq<Byte>)
    ensures |b| == RANGE_SIZE * |rs|
  {
    JoinLength(RangeImages(rs), RANGE_SIZE);
    Join(RangeImages(rs))
  }

  lemma RangesBytesStep(rs: seq<RangeRec>)
    requires rs != []
    ensures RangesBytes(rs) == RangeBytes(rs[0]) + RangesBytes(rs[1..])
  {
    assert RangeImages(rs)[1..] == RangeImages(rs[1..]);
  }

  function RangesOf(b: seq<Byte>): (rs: seq<RangeRec>)
    requires |b| % RANGE_SIZE == 0
    ensures RANGE_SIZE * |rs| == |b|
  {
    if b == [] then [] else [RangeOf(b[..RANGE_SIZE])] + RangesOf(b[RANGE_SIZE..])
  }

  /** Everything in front of the reference address. */
  function TopBytes(p: Packet): (b: seq<Byte>)
    ensures |b| == REF_AT
  {
    HeaderBytes(p.head) + SensorBytes(p.sensors)
  }

  /** Everything from the reference address on. */
  function BackBytes(p: Packet): (b: seq<Byte>)
    ensures |b| == PACKET_SIZE - REF_AT
  {
    Le(p.refAnchor, 2) + (Le(p.numRanges, 1) + RangesBytes(p.ranges))
  }

  /** The memory image of a packet. */
  function Encode(p: Packet): (b: seq<Byte>)
    ensures |b| == PACKET_SIZE
  {
    TopBytes(p) + (Le(p.refAnchor, 2) + (Le(p.numRanges, 1) + RangesBytes(p.ranges)))
  }

  /** The packet that a memory image holds. */
  function Decode(b: seq<Byte>): (p: Packet)
    requires |b| == PACKET_SIZE
  {
    Widths();
    var tail := b[REF_AT..];
    PacketFields(HeaderOf(b[..REF_AT][..HEAD_SIZE]), SensorsOf(b[..REF_AT][HEAD_SIZE..]),
                 Value(tail[..2]), Value(tail[2..][..1]), RangesOf(tail[2..][1..]))
  }

  // ---- round trips ----

  lemma HeaderRoundTrip(h: Header)
    ensures HeaderOf(HeaderBytes(h)) == h
  {
    Widths();
    ValueLe(h.fctrl, 2);
    ValueLe(h.seqNum, 1);
    ValueLe(h.panId, 2);
    ValueLe(h.dst, 2);
    ValueLe(h.src, 2);
    ValueLe(h.code, 2);
  }

  lemma VecRoundTrip(v: Vec3)
    ensures VecOf(VecBytes(v)) == v
  {
    Widths();
    SignedRoundTrip(v.x, 2);
    SignedRoundTrip(v.y, 2);
    SignedRoundTrip(v.z, 2);
  }

  lemma ClockRoundTrip(s: Sensors)
    ensures ClockOf(ClockBytes(s)) == (s.ts, Flags(s), s.gpsLat, s.gpsLong)
  {
    Widths();
    ValueLe(s.ts, 8);
    ValueLe(Flags(s), 2);
    ValueLe(s.gpsLat, 4);
    ValueLe(s.gpsLong, 4);
  }

  lemma MotionRoundTrip(s: Sensors)
    ensures MotionOf(MotionBytes(s)) == (s.battery, s.pressure, s.compass, s.acceleration, s.gyro)
  {
    Widths();
    SignedRoundTrip(s.battery, 1);
    SignedRoundTrip(s.pressure, 2);
    VecRoundTrip(s.compass);
    VecRoundTrip(s.acceleration);
    VecRoundTrip(s.gyro);
  }

  lemma AssembleParts(s: Sensors)
    ensures Assemble((s.ts, Flags(s), s.gpsLat, s.gpsLong),
                     (s.battery, s.pressure, s.compass, s.acceleration, s.gyro)) == s
  {
  }

  lemma SensorsRoundTrip(s: Sensors)
    ensures SensorsOf(SensorBytes(s)) == s
  {
    ClockRoundTrip(s);
    MotionRoundTrip(s);
    AssembleParts(s);
    Seqs.Halves(ClockBytes(s), MotionBytes(s));
  }

  lemma TailParts(r: RangeRec)
    ensures Signed(RangeTail(r) % 0x4000, 0x4000) == r.rssi && Signed(RangeTail(r) / 0x4000, 4) == r.quality
  {
  }

  lemma RangeRoundTrip(r: RangeRec)
    ensures RangeOf(RangeBytes(r)) == r
  {
    Widths();
    TailParts(r);
    ValueLe(r.addr, 2);
    SignedRoundTrip(r.diffMm, 4);
    ValueLe(RangeTail(r), 2);
  }

  lemma {:induction false} RangesRoundTrip(rs: seq<RangeRec>)
    ensures RangesOf(RangesBytes(rs)) == rs
  {
    if rs != [] {
      RangeRoundTrip(rs[0]);
      RangesRoundTrip(rs[1..]);
      RangesBytesStep(rs);
    }
  }

  /** Reading back the image of a packet yields the packet. */
  lemma DecodeEncode(p: Packet)
    ensures Decode(Encode(p)) == p
  {
    Widths();
    HeaderRoundTrip(p.head);
    SensorsRoundTrip(p.sensors);
    assert TopBytes(p)[HEAD_SIZE..] == SensorBytes(p.sensors);
    ValueLe(p.refAnchor, 2);
    ValueLe(p.numRanges, 1);
    RangesRoundTrip(p.ranges);
  }

  lemma HeaderBytesRoundTrip(b: seq<Byte>)
    requires |b| == HEAD_SIZE
    ensures HeaderBytes(HeaderOf(b)) == b
  {
    LeValue(b[..2]);
    LeValue(b[2..][..1]);
    LeValue(b[2..][1..][..2]);
    LeValue(b[2..][1..][2..][..2]);
    LeValue(b[2..][1..][2..][2..][..2]);
    LeValue(b[2..][1..][2..][2..][2..]);
  }

  lemma VecBytesRoundTrip(b: seq<Byte>)
    requires |b| == 6
    ensures VecBytes(VecOf(b)) == b
  {
    SignedBytesRoundTrip(b[..2]);
    SignedBytesRoundTrip(b[2..][..2]);
    SignedBytesRoundTrip(b[2..][2..]);
  }

  lemma ClockBytesRoundTrip(b: seq<Byte>, s: Sensors)
    requires |b| == 18 && ClockOf(b) == (s.ts, Flags(s), s.gpsLat, s.gpsLong)
    ensures ClockBytes(s) == b
  {
    LeValue(b[..8]);
    LeValue(b[8..][..2]);
    LeValue(b[8..][2..][..4]);
    LeValue(b[8..][2..][4..]);
  }

  lemma VecsRoundTrip(v: seq<Byte>)
    requires |v| == 18
    ensures VecBytes(VecOf(v[..6])) + (VecBytes(VecOf(v[6..][..6])) + VecBytes(VecOf(v[6..][6..]))) == v
  {
    VecBytesRoundTrip(v[..6]);
    VecBytesRoundTrip(v[6..][..6]);
    VecBytesRoundTrip(v[6..][6..]);
  }

  lemma MotionBytesRoundTrip(b: seq<Byte>, s: Sensors)
    requires |b| == 21 && MotionOf(b) == (s.battery, s.pressure, s.compass, s.acceleration, s.gyro)
    ensures MotionBytes(s) == b
  {
    SignedBytesRoundTrip(b[..1]);
    SignedBytesRoundTrip(b[1..][..2]);
    VecsRoundTrip(b[1..][2..]);
    assert b == b[..1] + (b[1..][..2] + b[1..][2..]);
  }

  lemma AssembledFlags(c: (U64, U16, U32, U32), m: (I8, I16, Vec3, Vec3, Vec3))
    ensures Flags(Assemble(c, m)) == c.1
  {
  }

  lemma SensorBytesRoundTrip(b: seq<Byte>)
    requires |b| == SENSOR_SIZE
    ensures SensorBytes(SensorsOf(b)) == b
  {
    AssembledFlags(ClockOf(b[..18]), MotionOf(b[18..]));
    ClockBytesRoundTrip(b[..18], SensorsOf(b));
    MotionBytesRoundTrip(b[18..], SensorsOf(b));
  }

  lemma RangeBytesRoundTrip(b: seq<Byte>)
    requires |b| == RANGE_SIZE
    ensures RangeBytes(RangeOf(b)) == b
  {
    Widths();
    LeValue(b[..2]);
    SignedBytesRoundTrip(b[2..][..4]);
    LeValue(b[2..][4..]);
    assert RangeTail(RangeOf(b)) == Value(b[2..][4..]);
  }

  lemma {:induction false} RangesBytesRoundTrip(b: seq<Byte>)
    requires |b| % RANGE_SIZE == 0
    ensures RangesBytes(RangesOf(b)) == b
  {
    if b != [] {
      RangeBytesRoundTrip(b[..RANGE_SIZE]);
      RangesBytesRoundTrip(b[RANGE_SIZE..]);
      var rs := RangesOf(b);
      assert rs[1..] == RangesOf(b[RANGE_SIZE..]);
      RangesBytesStep(rs);
    }
  }

  lemma TopBytesRoundTrip(b: seq<Byte>, p: Packet)
    requires |b| == REF_AT && p.head == HeaderOf(b[..HEAD_SIZE]) && p.sensors == SensorsOf(b[HEAD_SIZE..])
    ensures TopBytes(p) == b
  {
    HeaderBytesRoundTrip(b[..HEAD_SIZE]);
    SensorBytesRoundTrip(b[HEAD_SIZE..]);
  }

  lemma Parts(b: seq<Byte>, k: nat)
    requires k + 3 <= |b|
    ensures b == b[..k] + (b[k..][..2] + (b[k..][2..][..1] + b[k..][2..][1..]))
  {
  }

  lemma BackRoundTrip(tail: seq<Byte>, ref: U16, num: Byte, ranges: seq<RangeRec>)
    requires |tail| == PACKET_SIZE - REF_AT && ref == Value(tail[..2])
    requires num == Value(tail[2..][..1]) && ranges == RangesOf(tail[2..][1..])
    ensures Le(ref, 2) + (Le(num, 1) + RangesBytes(ranges)) == tail
  {
    LeValue(tail[..2]);
    LeValue(tail[2..][..1]);
    RangesBytesRoundTrip(tail[2..][1..]);
    Parts(tail, 0);
  }

  lemma TwoHalves(b: seq<Byte>, k: nat, top: seq<Byte>, back: seq<Byte>)
    requires k <= |b| && top == b[..k] && back == b[k..]
    ensures top + back == b
  {
  }

  /** Every image of the right size is the image of the packet read from it: the layout leaves no byte out. */
  lemma EncodeDecode(b: seq<Byte>)
    requires |b| == PACKET_SIZE
    ensures Encode(Decode(b)) == b
  {
    var p := Decode(b);
    TopBytesRoundTrip(b[..REF_AT], p);
    BackRoundTrip(b[REF_AT..], p.refAnchor, p.numRanges, p.ranges);
    TwoHalves(b, REF_AT, TopBytes(p), Le(p.refAnchor, 2) + (Le(p.numRanges, 1) + RangesBytes(p.ranges)));
  }

  // ---- truncation ----

  /** The packet with every range slot at or past n zeroed. */
  function ZeroTail(p: Packet, n: nat): (q: Packet)
    requires n <= MAX_RANGES
    ensures q.ranges[..n] == p.ranges[..n]
    ensures forall k :: n <= k < MAX_RANGES ==> q.ranges[k] == ZERO_RANGE
  {
    p.(ranges := p.ranges[..n] + Fill(ZERO_RANGE, MAX_RANGES - n))
  }

  /** Length of a packet that carries n ranges. */
  function Length(n: nat): (len: nat)
    requires n <= MAX_RANGES
    ensures FIXED_SIZE <= len <= PACKET_SIZE
  {
    FIXED_SIZE + RANGE_SIZE * n
  }

  lemma ZeroRangeBytes()
    ensures RangeBytes(ZERO_RANGE) == Zeros(RANGE_SIZE)
  {
    Widths();
    LeZero(2);
    LeZero(4);
    ZerosJoin(4, 2);
    ZerosJoin(2, 6);
    assert Unsigned(0, 0x1_0000_0000) == 0;
  }

  lemma CutAndFill(a: seq<Byte>, b: seq<Byte>, c: seq<Byte>, z: seq<Byte>, k: nat)
    requires k == |a| + |b|
    ensures (a + (b + c))[..k] + z == a + (b + z)
  {
    assert (a + (b + c))[..|a| + |b|] == a + b;
  }

  lemma CutPieces(fixed: seq<Byte>, cut: seq<seq<Byte>>, tail: seq<seq<Byte>>, w: nat)
    requires forall i :: 0 <= i < |cut| ==> |cut[i]| == w
    requires forall i :: 0 <= i < |tail| ==> |tail[i]| == w
    ensures |Join(cut)| == w * |cut| && |Join(cut + tail)| == w * |cut| + w * |tail|
    ensures (fixed + Join(cut + tail))[..|fixed| + w * |cut|] + Zeros(w * |tail|)
         == fixed + Join(cut + Fill(Zeros(w), |tail|))
  {
    JoinAppend(cut, tail);
    JoinAppend(cut, Fill(Zeros(w), |tail|));
    JoinLength(cut, w);
    JoinLength(tail, w);
    JoinZeros(w, |tail|);
    CutAndFill(fixed, Join(cut), Join(tail), Zeros(w * |tail|), |fixed| + w * |cut|);
  }

  lemma ImagesAppend(a: seq<RangeRec>, b: seq<RangeRec>)
    ensures RangeImages(a + b) == RangeImages(a) + RangeImages(b)
  {
  }

  lemma ImagesOfZeros(n: nat)
    ensures RangeImages(Fill(ZERO_RANGE, n)) == Fill(Zeros(RANGE_SIZE), n)
  {
    ZeroRangeBytes();
  }

  /** The part of a packet that is always sent. */
  function FixedBytes(p: Packet): (b: seq<Byte>)
    ensures |b| == FIXED_SIZE
  {
    TopBytes(p) + (Le(p.refAnchor, 2) + Le(p.numRanges, 1))
  }

  lemma EncodeSplits(p: Packet)
    ensures Encode(p) == FixedBytes(p) + RangesBytes(p.ranges)
  {
    Seqs.Regroup(TopBytes(p), Le(p.refAnchor, 2), Le(p.numRanges, 1), RangesBytes(p.ranges));
  }

  lemma CutRanges(fixed: seq<Byte>, cut: seq<RangeRec>, tail: seq<RangeRec>, k: nat)
    requires k == |fixed| + RANGE_SIZE * |cut|
    ensures (fixed + RangesBytes(cut + tail))[..k] + Zeros(RANGE_SIZE * |tail|)
         == fixed + RangesBytes(cut + Fill(ZERO_RANGE, |tail|))
  {
    ImagesAppend(cut, tail);
    ImagesAppend(cut, Fill(ZERO_RANGE, |tail|));
    ImagesOfZeros(|tail|);
    CutPieces(fixed, RangeImages(cut), RangeImages(tail), RANGE_SIZE);
  }

  /** Cutting a packet after n ranges and filling up with zero bytes is the image of the packet without later ranges. */
  lemma TruncateAndFill(p: Packet, n: nat)
    requires n <= MAX_RANGES
    ensures Encode(p)[..Length(n)] + Zeros(PACKET_SIZE - Length(n)) == Encode(ZeroTail(p, n))
  {
    EncodeSplits(p);
    EncodeSplits(ZeroTail(p, n));
    assert p.ranges == p.ranges[..n] + p.ranges[n..];
    CutRanges(FixedBytes(p), p.ranges[..n], p.ranges[n..], Length(n));
  }

  /** The packets that agree up to the end of the first n ranges have the same first `Length(n)` bytes. */
  lemma SamePrefix(p: Packet, q: Packet, n: nat)
    requires n <= MAX_RANGES && ZeroTail(p, n) == ZeroTail(q, n)
    ensures Encode(p)[..Length(n)] == Encode(q)[..Length(n)]
  {
    TruncateAndFill(p, n);
    TruncateAndFill(q, n);
    var z := Zeros(PACKET_SIZE - Length(n));
    assert Encode(p)[..Length(n)] == (Encode(p)[..Length(n)] + z)[..Length(n)];
    assert Encode(q)[..Length(n)] == (Encode(q)[..Length(n)] + z)[..Length(n)];
  }

  lemma MiddlePart(a: seq<Byte>, b: seq<Byte>, c: seq<Byte>, d: seq<Byte>)
    ensures (a + (b + c))[|a|..|a| + |b|] == b
    ensures a + (d + c) == (a + (b + c))[..|a|] + d + (a + (b + c))[|a| + |b|..]
  {
  }

  /** Where the two bytes of the reference address sit, and that no other byte depends on it. */
  lemma RefBytes(p: Packet, x: U16)
    ensures Encode(p)[REF_AT..SPLIT_AT] == Le(p.refAnchor, 2)
    ensures Encode(p.(refAnchor := x)) == Encode(p)[..REF_AT] + Le(x, 2) + Encode(p)[SPLIT_AT..]
  {
    MiddlePart(TopBytes(p), Le(p.refAnchor, 2), Le(p.numRanges, 1) + RangesBytes(p.ranges), Le(x, 2));
  }

  /** What copying a received payload over a zeroed packet leaves in memory; payload past the packet is cut off. */
  function CopyOut(payload: seq<Byte>): (b: seq<Byte>)
    ensures |b| == PACKET_SIZE
    ensures forall i :: 0 <= i < PACKET_SIZE ==> b[i] == if i < |payload| then payload[i] else 0
  {
    var n := Min(|payload|, PACKET_SIZE);
    payload[..n] + Zeros(PACKET_SIZE - n)
  }

  /** The record that the printer is given for a received payload. */
  function Record(payload: seq<Byte>): (p: Packet) {
    Decode(CopyOut(payload))
  }

  lemma CopyOutOf(payload: seq<Byte>, b: seq<Byte>)
    requires |payload| <= PACKET_SIZE && b == payload + Zeros(PACKET_SIZE - |payload|)
    ensures CopyOut(payload) == b
  {
  }

  lemma NoRangesBytes()
    ensures RangesBytes(NO_RANGES) == Zeros(RANGE_SIZE * MAX_RANGES)
  {
    ImagesOfZeros(MAX_RANGES);
    JoinZeros(RANGE_SIZE, MAX_RANGES);
  }

  /** A packet without reference address and ranges has only zero bytes behind its sensors. */
  lemma NoRangesBack(p: Packet)
    requires p.refAnchor == 0 && p.numRanges == 0 && p.ranges == NO_RANGES
    ensures BackBytes(p) == Zeros(PACKET_SIZE - REF_AT)
  {
    LeZero(2);
    LeZero(1);
    NoRangesBytes();
    ZerosJoin(1, RANGE_SIZE * MAX_RANGES);
    ZerosJoin(2, 1 + RANGE_SIZE * MAX_RANGES);
  }

  lemma BackOf(p: Packet)
    ensures Encode(p)[REF_AT..] == BackBytes(p)
  {
    Seqs.Halves(TopBytes(p), BackBytes(p));
  }
}
