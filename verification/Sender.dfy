/** The sending half of the RTDoA backhaul: it collects ranges into the static packet and sends or queues it. */
module Sender {
  import opened Backhaul
  import opened Bytes
  import opened Mbuf
  import opened Options
  import opened Wire
  import Seqs

  /** A received RTDoA frame: its range difference in mm (none where the source computes NaN), its sender, its rssi
      and its line-of-sight estimate as the packet stores them. */
  datatype Frame = Frame(tdoa: Option<I32>, src: U16, rssi: I14, quality: I2)

  predicate Counts(f: Frame) {
    f.tdoa.Some? && f.src != 0
  }

  function RangeFrom(f: Frame): (r: RangeRec)
    requires Counts(f)
  {
    RangeRec(f.src, f.tdoa.value, f.rssi, f.quality)
  }

  /** The ranges of the frames that count, in order. */
  function Accepted(frames: seq<Frame>): (rs: seq<RangeRec>)
    ensures |rs| <= |frames|
  {
    if frames == [] then []
    else (if Counts(frames[0]) then [RangeFrom(frames[0])] else []) + Accepted(frames[1..])
  }

  lemma {:induction false} AcceptedAppend(a: seq<Frame>, b: seq<Frame>)
    ensures Accepted(a + b) == Accepted(a) + Accepted(b)
  {
    if a == [] {
      assert a + b == b;
    } else {
      assert (a + b)[0] == a[0] && (a + b)[1..] == a[1..] + b;
      AcceptedAppend(a[1..], b);
      var first := if Counts(a[0]) then [RangeFrom(a[0])] else [];
      assert Accepted(a + b) == first + (Accepted(a[1..]) + Accepted(b));
    }
  }

  lemma AcceptedNext(frames: seq<Frame>, i: nat)
    requires i < |frames|
    ensures Accepted(frames[..i + 1])
         == Accepted(frames[..i]) + if Counts(frames[i]) then [RangeFrom(frames[i])] else []
  {
    assert frames[..i + 1] == frames[..i] + [frames[i]];
    AcceptedAppend(frames[..i], [frames[i]]);
  }

  /** A frame with a difference and a sender lands, field by field, behind exactly the counting frames in front of
      it. */
  lemma AcceptedAt(frames: seq<Frame>, i: nat)
    requires i < |frames| && frames[i].tdoa.Some? && frames[i].src != 0
    ensures var k := |Accepted(frames[..i])|; k < |Accepted(frames)| && Accepted(frames)[k] == RangeFrom(frames[i])
    ensures var r := Accepted(frames)[|Accepted(frames[..i])|];
      && r.addr == frames[i].src && r.diffMm == frames[i].tdoa.value
      && r.rssi == frames[i].rssi && r.quality == frames[i].quality
  {
    AcceptedNext(frames, i);
    AcceptedAppend(frames[..i + 1], frames[i + 1..]);
    assert frames == frames[..i + 1] + frames[i + 1..];
  }

  /** Every collected range comes from a frame with a difference and a sender, so nothing else ever shows up. */
  lemma {:induction false} AcceptedFrom(frames: seq<Frame>, k: nat) returns (i: nat)
    requires k < |Accepted(frames)|
    ensures i < |frames| && frames[i].tdoa.Some? && frames[i].src != 0
    ensures |Accepted(frames[..i])| == k && Accepted(frames)[k] == RangeFrom(frames[i])
    ensures Accepted(frames)[k].addr == frames[i].src && Accepted(frames)[k].diffMm == frames[i].tdoa.value
    ensures Accepted(frames)[k].rssi == frames[i].rssi && Accepted(frames)[k].quality == frames[i].quality
  {
    if Counts(frames[0]) && k == 0 {
      i := 0;
    } else {
      var j := AcceptedFrom(frames[1..], if Counts(frames[0]) then k - 1 else k);
      i := j + 1;
      assert frames[..i] == [frames[0]] + frames[1..][..j];
      AcceptedAppend([frames[0]], frames[1..][..j]);
    }
  }

  /** Where in the list the frames with a difference and a sender are. */
  function CountingAt(frames: seq<Frame>): (at: set<nat>)
    ensures forall i: nat {:trigger i in at} ::
      i in at <==> i < |frames| && frames[i].tdoa.Some? && frames[i].src != 0
  {
    set i: nat | i < |frames| && frames[i].tdoa.Some? && frames[i].src != 0
  }

  lemma CountingNext(frames: seq<Frame>, n: nat)
    requires |frames| == n + 1
    ensures CountingAt(frames) == CountingAt(frames[..n]) + if Counts(frames[n]) then {n} else {}
  {
    forall i: nat ensures i in CountingAt(frames) <==> i in CountingAt(frames[..n]) || (i == n && Counts(frames[n])) {
      if i < n {
        assert frames[..n][i] == frames[i];
      }
    }
  }

  /** There are as many ranges as frames with a difference and a sender. */
  lemma {:induction false} AcceptedCount(frames: seq<Frame>)
    ensures |Accepted(frames)| == |CountingAt(frames)|
    decreases |frames|
  {
    if frames != [] {
      var n := |frames| - 1;
      AcceptedCount(frames[..n]);
      AcceptedNext(frames, n);
      CountingNext(frames, n);
      assert frames[..n + 1] == frames;
    }
  }

  /** Every difference that is a number is written to the first free slot before its sender is looked at, so that slot
      has to exist. */
  predicate WritesFit(frames: seq<Frame>) {
    Fits(frames, MAX_RANGES)
  }

  predicate Fits(frames: seq<Frame>, slots: nat) {
    forall i :: 0 <= i < |frames| && frames[i].tdoa.Some? ==> |Accepted(frames[..i])| < slots
  }

  /** The frames behind the n-th one that counts. */
  function Behind(frames: seq<Frame>, n: nat): (rest: seq<Frame>) {
    if n == 0 || frames == [] then frames
    else Behind(frames[1..], if Counts(frames[0]) then n - 1 else n)
  }

  predicate NoDifference(frames: seq<Frame>) {
    forall i :: 0 <= i < |frames| ==> frames[i].tdoa.None?
  }

  lemma FitsNext(frames: seq<Frame>, n: nat)
    requires frames != [] && n > 0
    ensures Fits(frames, n) <==> Fits(frames[1..], if Counts(frames[0]) then n - 1 else n)
  {
    var tail, m := frames[1..], if Counts(frames[0]) then n - 1 else n;
    forall i | 0 <= i < |tail|
      ensures frames[i + 1] == tail[i]
      ensures |Accepted(frames[..i + 1])| == |Accepted(tail[..i])| + n - m
    {
      assert frames[..i + 1][1..] == tail[..i];
    }
    if Fits(frames, n) {
      forall i | 0 <= i < |tail| && tail[i].tdoa.Some? ensures |Accepted(tail[..i])| < m {
        assert frames[i + 1].tdoa.Some?;
      }
    }
    if Fits(tail, m) {
      forall i | 0 <= i < |frames| && frames[i].tdoa.Some? ensures |Accepted(frames[..i])| < n {
        if i > 0 {
          assert tail[i - 1].tdoa.Some?;
        }
      }
    }
  }

  lemma {:induction false} FitsIff(frames: seq<Frame>, n: nat)
    ensures Fits(frames, n) <==> NoDifference(Behind(frames, n))
    decreases |frames|
  {
    if n > 0 && frames != [] {
      FitsNext(frames, n);
      FitsIff(frames[1..], if Counts(frames[0]) then n - 1 else n);
    }
  }

  /** Every write stays in the array if and only if no frame behind the sixteenth one that counts has a difference. */
  lemma WritesFitIff(frames: seq<Frame>)
    ensures WritesFit(frames) <==> NoDifference(Behind(frames, 16))
  {
    FitsIff(frames, MAX_RANGES);
  }

  lemma {:induction false} AllCount(f: Frame, n: nat)
    requires Counts(f)
    ensures |Accepted(Fill(f, n))| == n
  {
    if n > 0 {
      AllCount(f, n - 1);
      assert Fill(f, n)[1..] == Fill(f, n - 1);
    }
  }

  /** Seventeen frames can be too many: behind sixteen that count, one with a difference is written past the array,
      even if it does not count itself. */
  lemma OverrunWitness(f: Frame, g: Frame)
    requires f.tdoa.Some? && f.src != 0 && g.tdoa.Some?
    ensures !WritesFit(Fill(f, 16) + [g])
  {
    var frames := Fill(f, MAX_RANGES) + [g];
    AllCount(f, MAX_RANGES);
    assert frames[MAX_RANGES] == g && frames[..MAX_RANGES] == Fill(f, MAX_RANGES);
  }

  lemma FewFramesFit(frames: seq<Frame>)
    requires |frames| <= 16
    ensures WritesFit(frames)
  {
  }

  lemma FittingRanges(frames: seq<Frame>)
    requires WritesFit(frames)
    ensures |Accepted(frames)| <= MAX_RANGES
  {
    if |Accepted(frames)| > MAX_RANGES {
      var i := AcceptedFrom(frames, MAX_RANGES);
      assert false;
    }
  }

  /** The packet as it is meant when it is sent: numbered, addressed, with the counted ranges and nothing behind
      them. */
  function ReportOf(p: Packet, ref: U16, frames: seq<Frame>): (r: Packet)
    requires |Accepted(frames)| <= MAX_RANGES
  {
    var rs := Accepted(frames);
    p.(head := p.head.(seqNum := (p.head.seqNum + 1) % 0x100, code := BACKHAUL_CODE), refAnchor := ref,
       numRanges := |rs|, ranges := rs + Fill(ZERO_RANGE, MAX_RANGES - |rs|))
  }

  /** What the radio transmits for it: the counted ranges, and the reference address of the packet before. */
  function AirBytes(p: Packet, ref: U16, frames: seq<Frame>): (b: seq<Byte>)
    requires |Accepted(frames)| <= MAX_RANGES
  {
    Encode(ReportOf(p, ref, frames).(refAnchor := p.refAnchor))[..Length(|Accepted(frames)|)]
  }

  /** What a local bridge queues for it. */
  function LocalBytes(p: Packet, ref: U16, frames: seq<Frame>): (b: seq<Byte>)
    requires |Accepted(frames)| <= MAX_RANGES
  {
    Encode(ReportOf(p, ref, frames))[..Length(|Accepted(frames)|)]
  }

  function Cleared(p: Packet): (q: Packet) {
    p.(sensors := ZERO_SENSORS, ranges := NO_RANGES)
  }

  /** The static packet after the send has cleared its sensors and its ranges. */
  function PacketAfter(p: Packet, ref: U16, frames: seq<Frame>): (q: Packet)
    requires |Accepted(frames)| <= MAX_RANGES
  {
    Cleared(ReportOf(p, ref, frames))
  }

  /** The report, field by field: the next 8-bit number, the sender's own address part and sensors, the counted
      ranges and zeros behind them. */
  lemma ReportFields(p: Packet, ref: U16, frames: seq<Frame>, k: nat)
    requires |Accepted(frames)| <= 16 && k < 16
    ensures var r := ReportOf(p, ref, frames);
      && r.head.fctrl == p.head.fctrl && r.head.panId == p.head.panId && r.head.code == 0x6003
      && r.head.dst == p.head.dst && r.head.src == p.head.src
      && r.head.seqNum == (if p.head.seqNum == 0xff then 0 else p.head.seqNum + 1)
      && r.sensors == p.sensors && r.refAnchor == ref && r.numRanges == |Accepted(frames)|
      && r.ranges[k] == if k < |Accepted(frames)| then Accepted(frames)[k] else RangeRec(0, 0, 0, 0)
  {
  }

  /** The next report starts from the same header and reference with every sensor and every range at zero. */
  lemma ClearedFields(p: Packet, ref: U16, frames: seq<Frame>, k: nat)
    requires |Accepted(frames)| <= 16 && k < 16
    ensures var q := PacketAfter(p, ref, frames);
      && q.head == ReportOf(p, ref, frames).head && q.refAnchor == ref && q.numRanges == |Accepted(frames)|
      && q.sensors == Sensors(0, 0, 0, 0, 0, 0, 0, 0, Vec3(0, 0, 0), Vec3(0, 0, 0), Vec3(0, 0, 0))
      && q.ranges[k] == RangeRec(0, 0, 0, 0)
  {
  }

  lemma FirstPart(p: Packet)
    ensures Encode(p)[..SPLIT_AT] == TopBytes(p) + Le(p.refAnchor, 2)
  {
    Seqs.Regroup(TopBytes(p), Le(p.refAnchor, 2), Le(p.numRanges, 1), RangesBytes(p.ranges));
    EncodeSplits(p);
  }

  lemma Overlap(a: seq<Byte>, b: seq<Byte>, c: seq<Byte>, k: nat, m: nat)
    requires k <= m <= |a| && m <= |b| && m <= |c|
    requires a[..k] == c[..k] && b[k..] == c[k..]
    ensures a[..k] + b[k..m] == c[..m]
  {
    assert b[k..m] == b[k..][..m - k] == c[k..][..m - k] == c[k..m];
  }

  lemma FrontWritten(was: seq<Byte>, now: seq<Byte>, part: seq<Byte>)
    requires |part| <= |was| && now == was[..0] + part + was[|part|..]
    ensures forall k :: 0 <= k <= |part| ==> now[..k] == part[..k]
    ensures forall k :: |part| <= k <= |was| ==> now[k..] == was[k..]
  {
  }

  /** The two partial buffer writes agree with one write of the packet that carries the earlier reference address. */
  lemma TwoWrites(early: Packet, late: Packet, n: nat)
    requires n <= MAX_RANGES && early.head == late.head && early.sensors == late.sensors
    ensures Encode(early)[..SPLIT_AT] + Encode(late)[SPLIT_AT..Length(n)]
         == Encode(late.(refAnchor := early.refAnchor))[..Length(n)]
  {
    var whole := late.(refAnchor := early.refAnchor);
    FirstPart(early);
    FirstPart(whole);
    RefBytes(late, early.refAnchor);
    Suffix(Encode(late)[..REF_AT], Le(early.refAnchor, 2), Encode(late)[SPLIT_AT..]);
    Overlap(Encode(early), Encode(late), Encode(whole), SPLIT_AT, Length(n));
  }

  lemma Suffix(a: seq<Byte>, b: seq<Byte>, c: seq<Byte>)
    ensures (a + b + c)[|a| + |b|..] == c
  {
  }

  class Reporter {
    var head: Header
    var sensors: Sensors
    var refAnchor: U16
    var numRanges: Byte
    const ranges: array<RangeRec>
    var imu: Packet
    const tx: array<Byte>
    const node: Node

    function Pkg(): (p: Packet)
      requires ranges.Length == MAX_RANGES
      reads this, ranges
    {
      PacketFields(head, sensors, refAnchor, numRanges, ranges[..])
    }

    ghost predicate Valid()
      reads this, ranges, node
    {
      && ranges.Length == MAX_RANGES
      && tx.Length >= PACKET_SIZE
      && node.Valid()
      && Pkg().ranges == NO_RANGES
      && OnlySensors(imu)
    }

    constructor (node: Node, txSize: nat)
      requires node.Valid() && txSize >= PACKET_SIZE
      ensures Valid() && this.node == node && fresh(ranges) && fresh(tx)
      ensures Pkg() == FirstPacket(node.myAddress)
      ensures imu.head == FirstHeader(node.myAddress) && imu.sensors == ZERO_SENSORS && OnlySensors(imu)
    {
      head := FirstHeader(node.myAddress);
      var first := InitialPacket(node.myAddress);
      imu := first;
      sensors, refAnchor, numRanges := ZERO_SENSORS, 0, 0;
      ranges := new RangeRec[MAX_RANGES](i => ZERO_RANGE);
      tx := new Byte[txSize](i => 0);
      this.node := node;
      new;
      assert ranges[..] == NO_RANGES;
    }

    method SetTs(ts: U64)
      requires Valid()
      modifies `sensors
      ensures Valid() && Pkg() == old(Pkg()).(sensors := old(Pkg()).sensors.(ts := ts))
    {
      sensors := sensors.(ts := ts);
    }

    /** The loop over the received frames, in place on the packet's range slots. A write behind the last slot has no
        meaning; the loop stops in front of it. */
    method Collect(frames: seq<Frame>) returns (fits: bool)
      requires ranges.Length == MAX_RANGES
      modifies `numRanges, ranges
      ensures fits <==> WritesFit(frames)
      ensures fits ==> numRanges == |Accepted(frames)| <= MAX_RANGES
      ensures fits ==> ranges[..numRanges] == Accepted(frames)
      ensures fits ==> forall k :: numRanges < k < MAX_RANGES ==> ranges[k] == old(ranges[k])
      ensures fits && numRanges < MAX_RANGES ==>
        ranges[numRanges].(diffMm := 0) == old(ranges[..])[numRanges].(diffMm := 0)
    {
      numRanges := 0;
      for i := 0 to |frames|
        invariant numRanges == |Accepted(frames[..i])| <= MAX_RANGES
        invariant ranges[..numRanges] == Accepted(frames[..i])
        invariant forall k :: numRanges < k < MAX_RANGES ==> ranges[k] == old(ranges[k])
        invariant numRanges < MAX_RANGES ==> ranges[numRanges].(diffMm := 0) == old(ranges[..])[numRanges].(diffMm := 0)
        invariant forall k :: 0 <= k < i && frames[k].tdoa.Some? ==> |Accepted(frames[..k])| < MAX_RANGES
      {
        AcceptedNext(frames, i);
        if frames[i].tdoa.None? {
          continue;
        }
        if numRanges == MAX_RANGES {
          return false;
        }
        ranges[numRanges] := ranges[numRanges].(diffMm := frames[i].tdoa.value);
        if frames[i].src == 0 {
          continue;
        }
        ranges[numRanges] := ranges[numRanges].(addr := frames[i].src);
        ranges[numRanges] := ranges[numRanges].(rssi := frames[i].rssi);
        ranges[numRanges] := ranges[numRanges].(quality := frames[i].quality);
        numRanges := numRanges + 1;
      }
      assert frames[..|frames|] == frames;
      return true;
    }

    /** The radio's buffered write. */
    method WriteTx(data: seq<Byte>, offset: nat)
      requires offset + |data| <= tx.Length
      modifies tx
      ensures tx[..] == old(tx[..])[..offset] + data + old(tx[..])[offset + |data|..]
    {
      forall i | 0 <= i < |data| {
        tx[offset + i] := data[i];
      }
    }

    method ClearPackage()
      requires ranges.Length == MAX_RANGES
      modifies `sensors, ranges
      ensures sensors == ZERO_SENSORS && ranges[..] == NO_RANGES
    {
      sensors := ZERO_SENSORS;
      forall i | 0 <= i < MAX_RANGES {
        ranges[i] := ZERO_RANGE;
      }
    }

    /** Second half of an over-the-air send: the rest of the packet behind the first write. */
    method FinishAir(ghost early: Packet, n: nat, startError: bool) returns (air: Option<seq<Byte>>)
      requires ranges.Length == MAX_RANGES && tx.Length >= PACKET_SIZE && n <= MAX_RANGES
      requires early.head == head && early.sensors == sensors
      requires tx[..SPLIT_AT] == Encode(early)[..SPLIT_AT]
      modifies tx
      ensures air == if startError then None else Some(Encode(Pkg().(refAnchor := early.refAnchor))[..Length(n)])
      ensures tx[..] == Encode(Pkg().(refAnchor := early.refAnchor))[..Length(n)] + old(tx[Length(n)..])
    {
      TwoWrites(early, Pkg(), n);
      var part := Encode(Pkg())[SPLIT_AT..Length(n)];
      WriteTx(part, SPLIT_AT);
      assert tx[..Length(n)] == Encode(early)[..SPLIT_AT] + part;
      assert tx[..] == tx[..Length(n)] + tx[Length(n)..];
      air := if startError then None else Some(tx[..Length(n)]);
    }

    /** First half: number the packet and, over the air, write it up to and including the zero range count. */
    method BeginSend(dxTime: U64)
      requires ranges.Length == MAX_RANGES && tx.Length >= PACKET_SIZE
      modifies `head, `numRanges, tx
      ensures head == old(head).(seqNum := (old(head).seqNum + 1) % 0x100, code := BACKHAUL_CODE) && numRanges == 0
      ensures dxTime != 0 ==> tx[..SPLIT_AT] == Encode(Pkg())[..SPLIT_AT]
      ensures forall n {:trigger Length(n)} :: 0 <= n <= MAX_RANGES ==> tx[Length(n)..] == old(tx[Length(n)..])
      ensures dxTime == 0 ==> tx[..] == old(tx[..])
    {
      head := head.(seqNum := (head.seqNum + 1) % 0x100);
      numRanges := 0;
      head := head.(code := BACKHAUL_CODE);
      if dxTime != 0 {
        var part := Encode(Pkg())[..SPLIT_AT + 1];
        ghost var was := tx[..];
        WriteTx(part, 0);
        FrontWritten(was, tx[..], part);
        assert tx[..SPLIT_AT] == tx[..][..SPLIT_AT] == part[..SPLIT_AT] == Encode(Pkg())[..SPLIT_AT];
        forall n {:trigger Length(n)} | 0 <= n <= MAX_RANGES ensures tx[Length(n)..] == was[Length(n)..] {
          assert tx[Length(n)..] == tx[..][Length(n)..];
        }
      }
    }

    method QueueLocally(data: seq<Byte>, env: Env)
      requires node.Valid()
      modifies node
      ensures node.Valid() && node.Abs() == LocalStep(old(node.Abs()), data, env)
    {
      var ok := node.LocalSend(data, env);
    }

    /** The send up to the local queue: collect, and start the radio when dxTime is not zero. */
    method SendOverAir(ref: U16, frames: seq<Frame>, dxTime: U64, startError: bool)
      returns (fits: bool, air: Option<seq<Byte>>)
      requires ranges.Length == MAX_RANGES && tx.Length >= PACKET_SIZE
      modifies `head, `numRanges, `refAnchor, ranges, tx
      ensures fits <==> WritesFit(frames)
      ensures fits ==> |Accepted(frames)| <= MAX_RANGES
      ensures head == old(head).(seqNum := (old(head).seqNum + 1) % 0x100, code := BACKHAUL_CODE)
      ensures fits ==> refAnchor == ref && numRanges == |Accepted(frames)|
      ensures fits ==> Cleared(Pkg()) == PacketAfter(old(Pkg()), ref, frames)
      ensures fits ==> Encode(Pkg())[..Length(|Accepted(frames)|)] == LocalBytes(old(Pkg()), ref, frames)
      ensures fits ==> air == if dxTime != 0 && !startError then Some(AirBytes(old(Pkg()), ref, frames)) else None
      ensures fits ==>
        tx[..] == if dxTime == 0 then old(tx[..]) else Overwritten(old(tx[..]), AirBytes(old(Pkg()), ref, frames))
    {
      ghost var was := Pkg();
      air := None;
      BeginSend(dxTime);
      ghost var early := Pkg();
      refAnchor := ref;
      fits := Collect(frames);
      if !fits {
        return;
      }
      FittingRanges(frames);
      SendFacts(was, Pkg(), early, ref, frames);
      ghost var now := Pkg();
      if dxTime != 0 {
        air := FinishAir(early, numRanges, startError);
      }
      assert Pkg() == now;
    }

    /** The end of a send: into the local queue on a bridge, unless the radio failed to start, and cleared. */
    method FinishSend(started: bool, env: Env, ghost data: seq<Byte>)
      requires ranges.Length == MAX_RANGES && node.Valid() && numRanges <= MAX_RANGES
      requires data == Encode(Pkg())[..Length(numRanges)]
      modifies `sensors, ranges, node
      ensures Pkg() == Cleared(old(Pkg())) && node.Valid()
      ensures node.Abs() == if started && old(node.role) == Bridge
                            then LocalStep(old(node.Abs()), data, env)
                            else old(node.Abs())
    {
      if started && node.role == Bridge {
        QueueLocally(Encode(Pkg())[..Length(numRanges)], env);
      }
      ClearPackage();
    }

    /** A send over the air when dxTime is not zero, and into the local queue on a bridge. The result is whether all
        writes fit and the frame the radio was started with. A start error skips the local queue. */
    method Send(ref: U16, frames: seq<Frame>, dxTime: U64, startError: bool, env: Env)
      returns (fits: bool, air: Option<seq<Byte>>)
      requires Valid()
      modifies this, ranges, tx, node
      ensures fits <==> WritesFit(frames)
      ensures fits ==> Valid() && |Accepted(frames)| <= MAX_RANGES
      ensures fits ==> Pkg() == PacketAfter(old(Pkg()), ref, frames) && imu == old(imu)
      ensures fits ==> air == if dxTime != 0 && !startError then Some(AirBytes(old(Pkg()), ref, frames)) else None
      ensures fits ==>
        tx[..] == if dxTime == 0 then old(tx[..]) else Overwritten(old(tx[..]), AirBytes(old(Pkg()), ref, frames))
      ensures fits ==>
        node.Abs() == if old(node.role) == Bridge && !(dxTime != 0 && startError)
                      then LocalStep(old(node.Abs()), LocalBytes(old(Pkg()), ref, frames), env)
                      else old(node.Abs())
    {
      fits, air := SendOverAir(ref, frames, dxTime, startError);
      if !fits {
        return;
      }
      FinishSend(!(dxTime != 0 && startError), env, LocalBytes(old(Pkg()), ref, frames));
    }

    /** An IMU report goes into the local queue only, without the range part. */
    method SendImuOnly(ts: U64, env: Env)
      requires Valid()
      modifies `imu, node
      ensures Valid()
      ensures imu == ImuAfter(old(imu), ts)
      ensures node.Abs() == LocalStep(old(node.Abs()), Encode(ImuReport(old(imu), ts))[..50], env)
    {
      imu := imu.(head := imu.head.(seqNum := (imu.head.seqNum + 1) % 0x100));
      imu := imu.(sensors := imu.sensors.(ts := ts));
      assert imu == ImuReport(old(imu), ts);
      QueueLocally(Encode(imu)[..REF_AT], env);
      imu := imu.(sensors := ZERO_SENSORS);
    }
  }

  lemma AirPrefix(p: Packet, report: Packet, ref: U16, n: nat)
    requires n <= MAX_RANGES && ZeroTail(p, n) == report == ZeroTail(report, n)
    ensures Encode(p.(refAnchor := ref))[..Length(n)] == Encode(report.(refAnchor := ref))[..Length(n)]
  {
    SamePrefix(p.(refAnchor := ref), report.(refAnchor := ref), n);
  }

  /** After the loop the packet differs from the report at most behind its last range, where nothing is sent. */
  lemma SendFacts(was: Packet, now: Packet, early: Packet, ref: U16, frames: seq<Frame>)
    requires var n := |Accepted(frames)|;
      && n <= MAX_RANGES
      && early == was.(head := was.head.(seqNum := (was.head.seqNum + 1) % 0x100, code := BACKHAUL_CODE),
                       numRanges := 0)
      && now == early.(refAnchor := ref, numRanges := n, ranges := now.ranges)
      && now.ranges[..n] == Accepted(frames)
    ensures Cleared(now) == PacketAfter(was, ref, frames)
    ensures Encode(now)[..Length(|Accepted(frames)|)] == LocalBytes(was, ref, frames)
    ensures Encode(now.(refAnchor := early.refAnchor))[..Length(|Accepted(frames)|)] == AirBytes(was, ref, frames)
  {
    var n, report := |Accepted(frames)|, ReportOf(was, ref, frames);
    assert ZeroTail(now, n) == report && ZeroTail(report, n) == report;
    SamePrefix(now, report, n);
    AirPrefix(now, report, early.refAnchor, n);
  }

  /** A buffer whose first bytes have been replaced by data. */
  function Overwritten(buffer: seq<Byte>, data: seq<Byte>): (b: seq<Byte>)
    ensures |data| <= |buffer| ==>
      |b| == |buffer| && forall i :: 0 <= i < |b| ==> b[i] == if i < |data| then data[i] else buffer[i]
  {
    if |data| <= |buffer| then data + buffer[|data|..] else data
  }

  function ImuReport(p: Packet, ts: U64): (r: Packet) {
    p.(head := p.head.(seqNum := (p.head.seqNum + 1) % 0x100), sensors := p.sensors.(ts := ts))
  }

  /** The IMU packet after its sensors have been cleared. */
  function ImuAfter(p: Packet, ts: U64): (q: Packet) {
    ImuReport(p, ts).(sensors := ZERO_SENSORS)
  }

  /** An IMU report is numbered and stamped and is the packet otherwise; afterwards every sensor is at zero. */
  lemma ImuFields(p: Packet, ts: U64)
    ensures var r, q := ImuReport(p, ts), ImuAfter(p, ts);
      && r.head.seqNum == (if p.head.seqNum == 0xff then 0 else p.head.seqNum + 1)
      && r.head.(seqNum := p.head.seqNum) == p.head
      && r.sensors.ts == ts && r.sensors.(ts := p.sensors.ts) == p.sensors
      && r.refAnchor == p.refAnchor && r.numRanges == p.numRanges && r.ranges == p.ranges
      && q == r.(sensors := Sensors(0, 0, 0, 0, 0, 0, 0, 0, Vec3(0, 0, 0), Vec3(0, 0, 0), Vec3(0, 0, 0)))
  {
  }

  function FirstHeader(address: U16): (h: Header) {
    Header(FRAME_CONTROL, 0, 0xDECA, BROADCAST, address, BACKHAUL_CODE)
  }

  function FirstPacket(address: U16): (p: Packet) {
    PacketFields(FirstHeader(address), ZERO_SENSORS, 0, 0, NO_RANGES)
  }

  lemma FirstFields(address: U16, k: nat)
    requires k < 16
    ensures var p := FirstPacket(address);
      && p.head == Header(0x88C1, 0, 0xDECA, 0xffff, address, 0x6003)
      && p.sensors == Sensors(0, 0, 0, 0, 0, 0, 0, 0, Vec3(0, 0, 0), Vec3(0, 0, 0), Vec3(0, 0, 0))
      && p.refAnchor == 0 && p.numRanges == 0 && p.ranges[k] == RangeRec(0, 0, 0, 0)
  {
  }

  /** Nothing behind the sensors. */
  predicate OnlySensors(p: Packet) {
    BackBytes(p) == Zeros(PACKET_SIZE - REF_AT)
  }

  /** Sending IMU reports never fills the range part of their packet, which is empty at power-up. */
  lemma OnlySensorsKept(p: Packet, ts: U64)
    requires OnlySensors(p)
    ensures OnlySensors(ImuReport(p, ts)) && OnlySensors(ImuAfter(p, ts))
  {
  }

  lemma OnlySensorsFirst(address: U16)
    ensures OnlySensors(FirstPacket(address))
  {
    NoRangesBack(FirstPacket(address));
  }

  lemma BackInjective(p: Packet, q: Packet)
    requires BackBytes(p) == BackBytes(q)
    ensures p.refAnchor == q.refAnchor && p.numRanges == q.numRanges && p.ranges == q.ranges
  {
    var r := p.(head := q.head, sensors := q.sensors);
    assert Encode(r) == TopBytes(q) + BackBytes(q) == Encode(q);
    DecodeEncode(r);
    DecodeEncode(q);
  }

  /** Only the packet of power-up has its header, cleared sensors and nothing behind them. */
  lemma FirstPacketIff(p: Packet, address: U16)
    ensures p == FirstPacket(address) <==> p.head == FirstHeader(address) && p.sensors == ZERO_SENSORS && OnlySensors(p)
  {
    OnlySensorsFirst(address);
    if OnlySensors(p) {
      BackInjective(p, FirstPacket(address));
    }
  }

  method InitialPacket(address: U16) returns (p: Packet)
    ensures p.head == FirstHeader(address) && p.sensors == ZERO_SENSORS && OnlySensors(p)
  {
    p := FirstPacket(address);
    OnlySensorsFirst(address);
  }
}
