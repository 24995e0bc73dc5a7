/** From the sender's range list to the receiver's printer: what arrives, locally and over the air. */
module Delivery {
  import opened Backhaul
  import opened BackhaulRuns
  import opened Bytes
  import opened Mbuf
  import opened Sender
  import opened Wire

  lemma PrefixImage(q: Packet, n: nat)
    requires n <= MAX_RANGES && ZeroTail(q, n) == q
    ensures CopyOut(Encode(q)[..Length(n)]) == Encode(q)
  {
    TruncateAndFill(q, n);
    CopyOutOf(Encode(q)[..Length(n)], Encode(q));
  }

  lemma ReportTail(p: Packet, ref: U16, frames: seq<Frame>, x: U16)
    requires |Accepted(frames)| <= MAX_RANGES
    ensures ZeroTail(ReportOf(p, ref, frames).(refAnchor := x), |Accepted(frames)|)
         == ReportOf(p, ref, frames).(refAnchor := x)
  {
  }

  /** The record printed for a locally queued packet is the report itself. */
  lemma LocalImage(p: Packet, ref: U16, frames: seq<Frame>)
    requires |Accepted(frames)| <= MAX_RANGES
    ensures CopyOut(LocalBytes(p, ref, frames)) == Encode(ReportOf(p, ref, frames))
  {
    ReportTail(p, ref, frames, ref);
    PrefixImage(ReportOf(p, ref, frames), |Accepted(frames)|);
  }

  /** The record printed for a received packet is the report with the sender's previous reference address. */
  lemma AirImage(p: Packet, ref: U16, frames: seq<Frame>)
    requires |Accepted(frames)| <= MAX_RANGES
    ensures CopyOut(AirBytes(p, ref, frames)) == Encode(ReportOf(p, ref, frames).(refAnchor := p.refAnchor))
    ensures Record(AirBytes(p, ref, frames)) == ReportOf(p, ref, frames).(refAnchor := p.refAnchor)
  {
    ReportTail(p, ref, frames, p.refAnchor);
    PrefixImage(ReportOf(p, ref, frames).(refAnchor := p.refAnchor), |Accepted(frames)|);
    DecodeEncode(ReportOf(p, ref, frames).(refAnchor := p.refAnchor));
  }

  lemma OnlyMiddleDiffers(a: seq<Byte>, x: seq<Byte>, y: seq<Byte>, c: seq<Byte>, k: nat)
    requires |x| == |y| && |a| + |x| <= k <= |a| + |x| + |c|
    ensures var u, v := (a + (x + c))[..k], (a + (y + c))[..k];
      && (forall i :: 0 <= i < k && !(|a| <= i < |a| + |x|) ==> u[i] == v[i])
      && u[|a|..|a| + |x|] == x && v[|a|..|a| + |x|] == y
  {
  }

  /** Byte for byte, the packet on air and the local copy of the same call differ at most in the two bytes of the
      reference address, where the one has the previous call's address and the other the current one. */
  lemma AirDiffersOnlyInRef(p: Packet, ref: U16, frames: seq<Frame>)
    requires |Accepted(frames)| <= MAX_RANGES
    ensures var air, loc := AirBytes(p, ref, frames), LocalBytes(p, ref, frames);
      && |air| == |loc| == 53 + 8 * |Accepted(frames)|
      && (forall i :: 0 <= i < |air| && i != 50 && i != 51 ==> air[i] == loc[i])
      && air[50..52] == Le(p.refAnchor, 2) && loc[50..52] == Le(ref, 2)
  {
    var r := ReportOf(p, ref, frames);
    OnlyMiddleDiffers(TopBytes(r), Le(p.refAnchor, 2), Le(ref, 2), Le(r.numRanges, 1) + RangesBytes(r.ranges),
                      Length(|Accepted(frames)|));
    assert TopBytes(r.(refAnchor := p.refAnchor)) == TopBytes(r);
  }

  lemma LocalLog(s: State, data: seq<Byte>, env: Env)
    requires s.Valid() && |data| < 0x8000 && |LocalStep(s, data, env).queue| > |s.queue|
    ensures Log(LocalStep(s, data, env)) == Log(s) + [CopyOut(data)]
  {
    assert data[..|data| % 0x8000] == data;
    EnqueueLogs(s, data);
  }

  /** Backhaul round trip: when a bridge's local send succeeds, then whatever happens next, a later drain prints the
      report as it was at the send, behind everything that was logged before and ahead of everything queued after. */
  lemma BridgeRoundTrip(s: State, p: Packet, ref: U16, frames: seq<Frame>, env: Env, es: seq<Event>)
    requires s.Valid() && s.role == Bridge && |Accepted(frames)| <= MAX_RANGES
    requires |LocalStep(s, LocalBytes(p, ref, frames), env).queue| > |s.queue|
    requires Legal(LocalStep(s, LocalBytes(p, ref, frames), env), es)
    ensures var t := LocalStep(s, LocalBytes(p, ref, frames), env);
      Drained(Run(t, es)).printed == Log(s) + [Encode(ReportOf(p, ref, frames))] + RunImages(t, es)
    ensures Decode(Encode(ReportOf(p, ref, frames))) == ReportOf(p, ref, frames)
  {
    var t := LocalStep(s, LocalBytes(p, ref, frames), env);
    LocalImage(p, ref, frames);
    LocalLog(s, LocalBytes(p, ref, frames), env);
    AllPrinted(t, es);
    DecodeEncode(ReportOf(p, ref, frames));
  }

  // ---- IMU reports ----

  lemma TopImage(b: seq<Byte>)
    requires |b| == PACKET_SIZE && b[REF_AT..] == Zeros(PACKET_SIZE - REF_AT)
    ensures CopyOut(b[..REF_AT]) == b
  {
    assert b == b[..REF_AT] + b[REF_AT..];
    CopyOutOf(b[..REF_AT], b);
  }

  /** The IMU report, sent without its range part, is printed complete. */
  lemma ImuRoundTrip(s: State, p: Packet, ts: U64, data: seq<Byte>, env: Env, es: seq<Event>)
    requires s.Valid() && s.role == Bridge && OnlySensors(p) && data == Encode(ImuReport(p, ts))[..50]
    requires |LocalStep(s, data, env).queue| > |s.queue| && Legal(LocalStep(s, data, env), es)
    ensures Drained(Run(LocalStep(s, data, env), es)).printed
         == Log(s) + [Encode(ImuReport(p, ts))] + RunImages(LocalStep(s, data, env), es)
  {
    OnlySensorsKept(p, ts);
    BackOf(ImuReport(p, ts));
    TopImage(Encode(ImuReport(p, ts)));
    LocalLog(s, data, env);
    AllPrinted(LocalStep(s, data, env), es);
  }

  // ---- sequences of sends ----

  /** One send: the timestamp set before it, its reference anchor, its received frames. */
  datatype Call = Call(ts: U64, ref: U16, frames: seq<Frame>)

  predicate Fit(calls: seq<Call>) {
    forall i :: 0 <= i < |calls| ==> |Accepted(calls[i].frames)| <= MAX_RANGES
  }

  function Stamped(p: Packet, ts: U64): (q: Packet) {
    p.(sensors := p.sensors.(ts := ts))
  }

  /** The static packet in front of the i-th call. */
  function PacketAt(p: Packet, calls: seq<Call>, i: nat): (q: Packet)
    requires i <= |calls| && Fit(calls)
  {
    if i == 0 then p
    else PacketAfter(Stamped(PacketAt(p, calls, i - 1), calls[i - 1].ts), calls[i - 1].ref, calls[i - 1].frames)
  }

  function ReportAt(p: Packet, calls: seq<Call>, i: nat): (r: Packet)
    requires i < |calls| && Fit(calls)
  {
    ReportOf(Stamped(PacketAt(p, calls, i), calls[i].ts), calls[i].ref, calls[i].frames)
  }

  function AirAt(p: Packet, calls: seq<Call>, i: nat): (b: seq<Byte>)
    requires i < |calls| && Fit(calls)
  {
    AirBytes(Stamped(PacketAt(p, calls, i), calls[i].ts), calls[i].ref, calls[i].frames)
  }

  /** The reference address that goes on air with the i-th call. */
  function AirRef(p: Packet, calls: seq<Call>, i: nat): (ref: U16)
    requires i < |calls|
  {
    if i == 0 then p.refAnchor else calls[i - 1].ref
  }

  function HeadAt(p: Packet, i: nat): (h: Header) {
    p.head.(seqNum := (p.head.seqNum + i) % 0x100, code := BACKHAUL_CODE)
  }

  lemma NextHead(h: Header, p: Packet, i: nat)
    requires h.(code := BACKHAUL_CODE) == HeadAt(p, i)
    ensures h.(seqNum := (h.seqNum + 1) % 0x100, code := BACKHAUL_CODE) == HeadAt(p, i + 1)
  {
    var s := p.head.seqNum;
    assert ((s + i) % 0x100 + 1) % 0x100 == (s + (i + 1)) % 0x100;
  }

  lemma {:induction false} PacketAtFacts(p: Packet, calls: seq<Call>, i: nat)
    requires i <= |calls| && Fit(calls)
    ensures PacketAt(p, calls, i).refAnchor == if i == 0 then p.refAnchor else calls[i - 1].ref
    ensures PacketAt(p, calls, i).head.(code := BACKHAUL_CODE) == HeadAt(p, i)
  {
    if i > 0 {
      PacketAtFacts(p, calls, i - 1);
      NextHead(PacketAt(p, calls, i - 1).head, p, i - 1);
    }
  }

  /** Over any sequence of sends the i-th report is numbered i + 1 further, names its own reference anchor, and
      carries the timestamp set before it. */
  lemma ReportAtFacts(p: Packet, calls: seq<Call>, i: nat)
    requires i < |calls| && Fit(calls)
    ensures ReportAt(p, calls, i).refAnchor == calls[i].ref
    ensures ReportAt(p, calls, i).head == HeadAt(p, i + 1)
    ensures ReportAt(p, calls, i).head ==
      p.head.(seqNum := (p.head.seqNum + i + 1) % 0x100, code := 0x6003)
    ensures ReportAt(p, calls, i).sensors.ts == calls[i].ts
  {
    PacketAtFacts(p, calls, i);
    NextHead(PacketAt(p, calls, i).head, p, i);
  }

  lemma AirImageAfter(q: Packet, ref: U16, frames: seq<Frame>, x: U16)
    requires |Accepted(frames)| <= MAX_RANGES && q.refAnchor == x
    ensures CopyOut(AirBytes(q, ref, frames)) == Encode(ReportOf(q, ref, frames).(refAnchor := x))
    ensures Record(AirBytes(q, ref, frames)) == ReportOf(q, ref, frames).(refAnchor := x)
  {
    AirImage(q, ref, frames);
  }

  /** The packet that goes on air with the i-th call yields that report, except that it names the reference anchor
      of the call before; the local copy names the current one. */
  lemma AirLagsOneCall(p: Packet, calls: seq<Call>, i: nat)
    requires i < |calls| && Fit(calls)
    ensures CopyOut(AirAt(p, calls, i)) == Encode(ReportAt(p, calls, i).(refAnchor := AirRef(p, calls, i)))
    ensures Record(AirAt(p, calls, i)) == ReportAt(p, calls, i).(refAnchor := AirRef(p, calls, i))
    ensures Record(AirAt(p, calls, i)).refAnchor == if i == 0 then p.refAnchor else calls[i - 1].ref
  {
    PacketAtFacts(p, calls, i);
    AirImageAfter(Stamped(PacketAt(p, calls, i), calls[i].ts), calls[i].ref, calls[i].frames, AirRef(p, calls, i));
  }

  /** So an air frame names its own reference anchor exactly when that is also the one of the call before. */
  lemma AirNamesOwnIff(p: Packet, calls: seq<Call>, i: nat)
    requires i < |calls| && Fit(calls)
    ensures Record(AirAt(p, calls, i)).refAnchor == calls[i].ref
       <==> calls[i].ref == if i == 0 then p.refAnchor else calls[i - 1].ref
  {
    AirLagsOneCall(p, calls, i);
  }

  /** Two calls without frames, one with anchor 1 and one with anchor 2: the second goes on air as from anchor 1. */
  lemma LagWitness(p: Packet, ts: U64)
    ensures var calls := [Call(ts, 1, []), Call(ts, 2, [])];
      Fit(calls) && Record(AirAt(p, calls, 1)).refAnchor == 1 && ReportAt(p, calls, 1).refAnchor == 2
  {
    var calls := [Call(ts, 1, []), Call(ts, 2, [])];
    AirLagsOneCall(p, calls, 1);
    ReportAtFacts(p, calls, 1);
  }
}
