/** Over the air: from the calls of any number of senders to the printer of a bridge, through its repeat filter. */
module AirDelivery {
  import opened Backhaul
  import opened BackhaulRuns
  import opened Bytes
  import opened Delivery
  import opened Mbuf
  import opened Sender
  import opened Wire

  // ---- reception ----

  /** What the receiving device holds after receiving air, whatever an earlier frame left behind it in the buffer. */
  ghost predicate Received(f: RxFrame, air: seq<Byte>) {
    exists ts: U64, stale: seq<Byte> ::
      HEAD_SIZE <= |air| < 0x8000 && f == FrameIn(FRAME_CONTROL, ts, |air|, air + stale)
  }

  lemma ReceivedHead(f: RxFrame, p: Packet, ref: U16, frames: seq<Frame>)
    requires |Accepted(frames)| <= MAX_RANGES && Received(f, AirBytes(p, ref, frames))
    ensures f.head == ReportOf(p, ref, frames).head && f.payload == AirBytes(p, ref, frames)
    ensures f.len == |AirBytes(p, ref, frames)| && f.fctrl == FRAME_CONTROL
  {
    var air := AirBytes(p, ref, frames);
    var ts: U64, stale: seq<Byte> :| f == FrameIn(FRAME_CONTROL, ts, |air|, air + stale);
    var q := ReportOf(p, ref, frames).(refAnchor := p.refAnchor);
    HeaderRoundTrip(q.head);
    Front(HeaderBytes(q.head), SensorBytes(q.sensors),
          Le(q.refAnchor, 2) + (Le(q.numRanges, 1) + RangesBytes(q.ranges)), Length(|Accepted(frames)|), stale);
  }

  lemma Front(a: seq<Byte>, b: seq<Byte>, c: seq<Byte>, k: nat, stale: seq<Byte>)
    requires |a| <= k <= |a| + |b| + |c|
    ensures ((a + b + c)[..k] + stale)[..|a|] == a
    ensures ((a + b + c)[..k] + stale)[..k] == (a + b + c)[..k]
  {
  }

  /** A bridge that hears a broadcast report takes it for one of its own protocol. */
  lemma ReceivedQualifies(s: State, f: RxFrame, p: Packet, ref: U16, frames: seq<Frame>)
    requires |Accepted(frames)| <= MAX_RANGES && Received(f, AirBytes(p, ref, frames))
    requires s.role == Bridge && p.head.dst == BROADCAST
    ensures Qualifies(s, f)
    ensures KeyOf(f) == (p.head.src, (p.head.seqNum + 1) % 0x100)
  {
    ReceivedHead(f, p, ref, frames);
  }

  /** Frames of a run that reach the repeat filter. */
  function QualifyingFrames(s: State, es: seq<Event>): (fs: seq<RxFrame>) {
    if es == [] then []
    else (if es[0].Rx? && Qualifies(s, es[0].frame) then [es[0].frame] else []) + QualifyingFrames(s, es[1..])
  }

  lemma {:induction false} QualifyingFramesFrame(s: State, t: State, es: seq<Event>)
    requires s.role == t.role && s.myAddress == t.myAddress
    ensures QualifyingFrames(s, es) == QualifyingFrames(t, es)
  {
    if es != [] {
      QualifyingFramesFrame(s, t, es[1..]);
    }
  }

  lemma {:induction false} KeysOfFrames(s: State, es: seq<Event>)
    ensures var fs, ks := QualifyingFrames(s, es), QualifyingKeys(s, es);
      |ks| == |fs| && forall k :: 0 <= k < |fs| ==> ks[k] == KeyOf(fs[k])
  {
    if es != [] {
      KeysOfFrames(s, es[1..]);
    }
  }

  // ---- where frames come from ----

  /** The i-th call of a sender whose static packet was p in front of its calls. */
  datatype Origin = Origin(p: Packet, calls: seq<Call>, i: nat)
  {
    predicate Valid() { Fit(calls) && i < |calls| }
  }

  function SentBy(o: Origin): (air: seq<Byte>)
    requires o.Valid()
  {
    AirAt(o.p, o.calls, o.i)
  }

  /** The report of the call, under the reference anchor of the sender's call before. */
  function RecordFor(o: Origin): (q: Packet)
    requires o.Valid()
  {
    ReportAt(o.p, o.calls, o.i).(refAnchor := AirRef(o.p, o.calls, o.i))
  }

  /** The filter's key of the i-th call's packet. */
  function KeyAt(p: Packet, i: nat): (k: Key)
    ensures k == (p.head.src, (p.head.seqNum + i + 1) % 0x100)
  {
    (p.head.src, HeadAt(p, i + 1).seqNum)
  }

  function KeyFor(o: Origin): (k: Key) {
    KeyAt(o.p, o.i)
  }

  /** Every frame of the run that reaches the filter comes from such a call; calls may be lost, repeated and mixed. */
  ghost predicate Carries(s: State, es: seq<Event>, from: seq<Origin>) {
    CarriesFrames(QualifyingFrames(s, es), from)
  }

  ghost predicate CarriesFrames(fs: seq<RxFrame>, from: seq<Origin>) {
    && |fs| == |from| && AllValid(from)
    && forall k {:trigger CameFrom(fs[k], from[k])} :: 0 <= k < |from| ==> CameFrom(fs[k], from[k])
  }

  predicate AllValid(from: seq<Origin>) {
    forall k :: 0 <= k < |from| ==> from[k].Valid()
  }

  ghost predicate CameFrom(f: RxFrame, o: Origin) {
    o.Valid() && Received(f, SentBy(o))
  }

  function PrintedFor(from: seq<Origin>): (bs: seq<Image>)
    requires AllValid(from)
    ensures |bs| == |from|
  {
    seq(|from|, k requires 0 <= k < |from| => Encode(RecordFor(from[k])))
  }

  lemma CallHead(f: RxFrame, p: Packet, calls: seq<Call>, i: nat)
    requires i < |calls| && Fit(calls) && Received(f, AirAt(p, calls, i))
    ensures f.head == HeadAt(p, i + 1) && f.payload == AirAt(p, calls, i)
  {
    ReportAtFacts(p, calls, i);
    ReceivedHead(f, Stamped(PacketAt(p, calls, i), calls[i].ts), calls[i].ref, calls[i].frames);
  }

  lemma CarriedHead(f: RxFrame, o: Origin)
    requires CameFrom(f, o)
    ensures f.head == HeadAt(o.p, o.i + 1) && f.payload == SentBy(o)
  {
    CallHead(f, o.p, o.calls, o.i);
  }

  lemma CarriedKey(f: RxFrame, o: Origin)
    requires CameFrom(f, o)
    ensures KeyOf(f) == KeyFor(o)
  {
    CarriedHead(f, o);
  }

  lemma CarriedImage(f: RxFrame, o: Origin)
    requires CameFrom(f, o)
    ensures CopyOut(f.payload) == Encode(RecordFor(o))
  {
    CarriedHead(f, o);
    AirLagsOneCall(o.p, o.calls, o.i);
  }

  lemma CarriedKeys(s: State, es: seq<Event>, from: seq<Origin>)
    requires Carries(s, es, from)
    ensures |QualifyingKeys(s, es)| == |from|
    ensures forall k :: 0 <= k < |from| ==> QualifyingKeys(s, es)[k] == KeyFor(from[k])
  {
    KeysOfFrames(s, es);
    KeysMatch(QualifyingFrames(s, es), QualifyingKeys(s, es), from);
  }

  lemma KeysMatch(fs: seq<RxFrame>, ks: seq<Key>, from: seq<Origin>)
    requires CarriesFrames(fs, from) && |ks| == |fs| && forall k :: 0 <= k < |fs| ==> ks[k] == KeyOf(fs[k])
    ensures forall k :: 0 <= k < |from| ==> ks[k] == KeyFor(from[k])
  {
    forall k | 0 <= k < |from| ensures ks[k] == KeyFor(from[k]) {
      assert CameFrom(fs[k], from[k]);
      CarriedKey(fs[k], from[k]);
    }
  }

  lemma ImagesMatch(fs: seq<RxFrame>, from: seq<Origin>)
    requires CarriesFrames(fs, from)
    ensures CopyOuts(fs) == PrintedFor(from)
  {
    forall k | 0 <= k < |fs| ensures CopyOuts(fs)[k] == PrintedFor(from)[k] {
      assert CameFrom(fs[k], from[k]);
      CarriedImage(fs[k], from[k]);
    }
  }

  function CopyOuts(fs: seq<RxFrame>): (bs: seq<Image>)
    ensures |bs| == |fs| && forall k :: 0 <= k < |fs| ==> bs[k] == CopyOut(fs[k].payload)
  {
    seq(|fs|, k requires 0 <= k < |fs| => CopyOut(fs[k].payload))
  }

  lemma CopyOutsFirst(f: RxFrame, fs: seq<RxFrame>)
    ensures CopyOuts([f] + fs) == [CopyOut(f.payload)] + CopyOuts(fs)
  {
  }

  // ---- what is printed ----

  /** A packet on its way to the printer, received or queued by the bridge itself. */
  datatype Print = FromAir(image: Image) | FromHere(image: Image)

  function PrintsOf(s: State, e: Event): (ps: seq<Print>)
    requires s.Valid() && Enabled(s, e)
  {
    match e
    case Rx(f, env) =>
      if Qualifies(s, f) && !Repeats(s, f) && Ingest(s, f.payload, env).Queued?
      then [FromAir(CopyOut(f.payload))] else []
    case Local(data, env) =>
      if Ingest(s, data[..|data| % 0x8000], env).Queued? then [FromHere(CopyOut(data[..|data| % 0x8000]))] else []
    case _ => []
  }

  function Prints(s: State, es: seq<Event>): (ps: seq<Print>)
    requires s.Valid() && Legal(s, es)
    decreases |es|
  {
    if es == [] then [] else PrintsOf(s, es[0]) + Prints(Step(s, es[0]), es[1..])
  }

  function ImagesOf(ps: seq<Print>): (bs: seq<Image>) {
    if ps == [] then [] else [ps[0].image] + ImagesOf(ps[1..])
  }

  /** The received ones among them. */
  function AirOf(ps: seq<Print>): (bs: seq<Image>) {
    if ps == [] then [] else (if ps[0].FromAir? then [ps[0].image] else []) + AirOf(ps[1..])
  }

  /** Of the qualifying frames of a run, which ones memory and the queue took. */
  function TakenMask(s: State, es: seq<Event>): (mask: seq<bool>)
    requires s.Valid() && Legal(s, es)
    decreases |es|
  {
    if es == [] then []
    else
      var rest := TakenMask(Step(s, es[0]), es[1..]);
      if es[0].Rx? && Qualifies(s, es[0].frame)
      then [Ingest(s, es[0].frame.payload, es[0].env).Queued?] + rest else rest
  }

  function Select<T>(xs: seq<T>, mask: seq<bool>): (ys: seq<T>) {
    if xs == [] || mask == [] then [] else (if mask[0] then [xs[0]] else []) + Select(xs[1..], mask[1..])
  }

  lemma AtMostOne(s: State, e: Event, ps: seq<Print>)
    requires s.Valid() && Enabled(s, e)
    ensures ImagesOf(PrintsOf(s, e) + ps) == QueuedImages(s, e) + ImagesOf(ps)
    ensures AirOf(PrintsOf(s, e) + ps) == (if e.Rx? then QueuedImages(s, e) else []) + AirOf(ps)
  {
    var qs := PrintsOf(s, e);
    if qs == [] {
      assert qs + ps == ps;
    } else {
      assert (qs + ps)[0] == qs[0] && (qs + ps)[1..] == ps;
    }
  }

  lemma {:induction false} PrintsAreImages(s: State, es: seq<Event>)
    requires s.Valid() && Legal(s, es)
    ensures ImagesOf(Prints(s, es)) == RunImages(s, es)
    decreases |es|
  {
    if es != [] {
      var t := Step(s, es[0]);
      PrintsAreImages(t, es[1..]);
      AtMostOne(s, es[0], Prints(t, es[1..]));
    }
  }

  lemma SelectFirst<T>(x: T, xs: seq<T>, b: bool, mask: seq<bool>)
    ensures Select([x] + xs, [b] + mask) == (if b then [x] else []) + Select(xs, mask)
  {
    assert ([x] + xs)[1..] == xs && ([b] + mask)[1..] == mask;
  }

  /** Of the qualifying frames of a run, which ones are accepted: no repeat of the one before, and taken. */
  function AcceptMask(s: State, es: seq<Event>): (mask: seq<bool>)
    requires s.Valid() && Legal(s, es)
    decreases |es|
  {
    if es == [] then []
    else
      var rest := AcceptMask(Step(s, es[0]), es[1..]);
      if es[0].Rx? && Qualifies(s, es[0].frame)
      then [!Repeats(s, es[0].frame) && Ingest(s, es[0].frame.payload, es[0].env).Queued?] + rest else rest
  }

  lemma AirNext(s: State, e: Event, ps: seq<Print>)
    requires s.Valid() && Enabled(s, e)
    ensures AirOf(PrintsOf(s, e) + ps) ==
      if e.Rx? && Qualifies(s, e.frame)
      then (if !Repeats(s, e.frame) && Ingest(s, e.frame.payload, e.env).Queued?
            then [CopyOut(e.frame.payload)] else []) + AirOf(ps)
      else AirOf(ps)
  {
    AtMostOne(s, e, ps);
    assert [] + AirOf(ps) == AirOf(ps);
  }

  lemma {:induction false} AirAccepted(s: State, es: seq<Event>)
    requires s.Valid() && Legal(s, es)
    ensures |AcceptMask(s, es)| == |QualifyingFrames(s, es)|
    ensures AirOf(Prints(s, es)) == Select(CopyOuts(QualifyingFrames(s, es)), AcceptMask(s, es))
    decreases |es|
  {
    if es != [] {
      var e, rest := es[0], es[1..];
      var t := Step(s, e);
      QualifyingFramesFrame(s, t, rest);
      if e.Rx? && Qualifies(s, e.frame) {
        CopyOutsFirst(e.frame, QualifyingFrames(s, rest));
        SelectFirst(CopyOut(e.frame.payload), CopyOuts(QualifyingFrames(s, rest)),
                    !Repeats(s, e.frame) && Ingest(s, e.frame.payload, e.env).Queued?, AcceptMask(t, rest));
      } else {
        assert QualifyingFrames(s, es) == QualifyingFrames(s, rest);
      }
      AirNext(s, e, Prints(t, rest));
      AirAccepted(t, rest);
    } else {
      assert CopyOuts([]) == [];
    }
  }

  /** What the filter remembers. */
  function Remembered(s: State): (k: Key) {
    (s.lastAddress, s.lastSeqNum)
  }

  function Before(prev: Key, ks: seq<Key>, k: nat): (b: Key)
    requires k < |ks|
  {
    if k == 0 then prev else ks[k - 1]
  }

  /** A taken frame is accepted exactly when its key differs from that of the qualifying frame right before it. */
  lemma {:induction false} MasksDiffer(s: State, es: seq<Event>)
    requires s.Valid() && Legal(s, es)
    ensures |AcceptMask(s, es)| == |TakenMask(s, es)| == |QualifyingKeys(s, es)|
    ensures forall k :: 0 <= k < |QualifyingKeys(s, es)| ==>
      (AcceptMask(s, es)[k] <==>
         TakenMask(s, es)[k] && QualifyingKeys(s, es)[k] != Before(Remembered(s), QualifyingKeys(s, es), k))
    decreases |es|
  {
    if es != [] {
      var e, rest := es[0], es[1..];
      var t := Step(s, e);
      FilterStep(s, e);
      QualifyingKeysFrame(s, t, rest);
      MasksDiffer(t, rest);
      var first := e.Rx? && Qualifies(s, e.frame);
      MasksShift(AcceptMask(t, rest), TakenMask(t, rest), QualifyingKeys(s, rest), Remembered(t),
                 if first then [!Repeats(s, e.frame) && Ingest(s, e.frame.payload, e.env).Queued?] else [],
                 if first then [Ingest(s, e.frame.payload, e.env).Queued?] else [],
                 if first then [KeyOf(e.frame)] else [], Remembered(s));
      assert [] + AcceptMask(t, rest) == AcceptMask(t, rest) && [] + TakenMask(t, rest) == TakenMask(t, rest);
      assert [] + QualifyingKeys(s, rest) == QualifyingKeys(s, rest);
    }
  }

  lemma MasksShift(accept: seq<bool>, taken: seq<bool>, ks: seq<Key>, prev: Key,
                   a: seq<bool>, b: seq<bool>, c: seq<Key>, first: Key)
    requires |accept| == |taken| == |ks| && |a| == |b| == |c| <= 1
    requires forall k :: 0 <= k < |ks| ==> (accept[k] <==> taken[k] && ks[k] != Before(prev, ks, k))
    requires if c == [] then prev == first else prev == c[0] && (a[0] <==> b[0] && c[0] != first)
    ensures |a + accept| == |b + taken| == |c + ks|
    ensures forall k :: 0 <= k < |c + ks| ==>
      ((a + accept)[k] <==> (b + taken)[k] && (c + ks)[k] != Before(first, c + ks, k))
  {
    forall k | 0 <= k < |c + ks|
      ensures (a + accept)[k] <==> (b + taken)[k] && (c + ks)[k] != Before(first, c + ks, k)
    {
      if c == [] {
        assert a + accept == accept && b + taken == taken && c + ks == ks;
      } else if k > 0 {
        assert Before(first, c + ks, k) == Before(prev, ks, k - 1);
      }
    }
  }

  /** Another source or number than the packet right before, or than what the filter remembers at first. */
  predicate Differs(prev: Key, from: seq<Origin>, k: nat)
    requires k < |from|
  {
    KeyFor(from[k]) != if k == 0 then prev else KeyFor(from[k - 1])
  }

  lemma AcceptedIff(s: State, es: seq<Event>, from: seq<Origin>)
    requires s.Valid() && Legal(s, es) && Carries(s, es, from)
    ensures |AcceptMask(s, es)| == |TakenMask(s, es)| == |from|
    ensures forall k :: 0 <= k < |from| ==>
      (AcceptMask(s, es)[k] <==> TakenMask(s, es)[k] && Differs(Remembered(s), from, k))
  {
    CarriedKeys(s, es, from);
    MasksDiffer(s, es);
  }

  lemma AcceptedPrinted(s: State, es: seq<Event>, from: seq<Origin>)
    requires s.Valid() && Legal(s, es) && Carries(s, es, from)
    ensures AirOf(Prints(s, es)) == Select(PrintedFor(from), AcceptMask(s, es))
  {
    AirAccepted(s, es);
    ImagesMatch(QualifyingFrames(s, es), from);
  }

  /** The whole path, for any senders and any losses, repetitions and mixtures of their packets: after a drain
      everything queued has been printed in order, and what came over the air are exactly the accepted packets,
      complete, each with the reference anchor of its sender's call before. A packet is accepted if and only if
      memory and the queue take it and its source and number differ from those of the qualifying packet right before
      it. */
  lemma EndToEnd(s: State, es: seq<Event>, from: seq<Origin>)
    requires s.Valid() && s.role == Bridge && Legal(s, es) && Carries(s, es, from)
    ensures Drained(Run(s, es)).printed == Log(s) + ImagesOf(Prints(s, es))
    ensures |AcceptMask(s, es)| == |TakenMask(s, es)| == |from|
    ensures AirOf(Prints(s, es)) == Select(PrintedFor(from), AcceptMask(s, es))
    ensures forall k :: 0 <= k < |from| ==>
      (AcceptMask(s, es)[k] <==> TakenMask(s, es)[k] && Differs(Remembered(s), from, k))
  {
    AcceptedIff(s, es, from);
    AcceptedPrinted(s, es, from);
    PrintsAreImages(s, es);
    AllPrinted(s, es);
  }

  // ---- one sender ----

  /** So far apart that the 8-bit numbers agree. */
  predicate WholeTurns(i: int, j: int) {
    (j - i) % 0x100 == 0
  }

  /** Two calls of one sender look like a repeat exactly when their distance is a multiple of 256. */
  lemma SameKeyIff(p: Packet, i: nat, j: nat)
    ensures KeyAt(p, i) == KeyAt(p, j) <==> WholeTurns(i, j)
  {
    if i <= j {
      SameByteIff(p.head.seqNum + (i + 1), j - i);
    } else {
      SameByteIff(p.head.seqNum + (j + 1), i - j);
      assert (j - i) % 0x100 == 0 <==> (i - j) % 0x100 == 0;
    }
  }

  lemma SameByteIff(a: nat, d: nat)
    ensures a % 0x100 == (a + d) % 0x100 <==> d % 0x100 == 0
  {
    var x, y := a % 0x100, d % 0x100;
    assert a + d == 0x100 * (a / 0x100 + d / 0x100) + x + y;
    assert (a + d) % 0x100 == if x + y < 0x100 then x + y else x + y - 0x100;
  }

  function OneSender(p: Packet, calls: seq<Call>, through: seq<nat>): (from: seq<Origin>)
    ensures |from| == |through| && forall k :: 0 <= k < |from| ==> from[k] == Origin(p, calls, through[k])
  {
    seq(|through|, k requires 0 <= k < |through| => Origin(p, calls, through[k]))
  }

  /** With one sender the distances of its calls decide: a repetition and a gap of a multiple of 256 are dropped
      alike. */
  lemma OneSenderAccepted(s: State, es: seq<Event>, p: Packet, calls: seq<Call>, through: seq<nat>)
    requires s.Valid() && Legal(s, es) && Carries(s, es, OneSender(p, calls, through))
    ensures |AcceptMask(s, es)| == |TakenMask(s, es)| == |through|
    ensures forall k :: 0 <= k < |through| ==>
      (AcceptMask(s, es)[k] <==> TakenMask(s, es)[k] && IsNew(Remembered(s), p, through, k))
  {
    var from := OneSender(p, calls, through);
    AcceptedIff(s, es, from);
    forall k | 0 <= k < |through|
      ensures AcceptMask(s, es)[k] <==> TakenMask(s, es)[k] && IsNew(Remembered(s), p, through, k)
    {
      NewIff(Remembered(s), p, calls, through, k);
    }
  }

  lemma NewIff(prev: Key, p: Packet, calls: seq<Call>, through: seq<nat>, k: nat)
    requires k < |through|
    ensures Differs(prev, OneSender(p, calls, through), k) <==> IsNew(prev, p, through, k)
  {
    if k > 0 {
      SameKeyIff(p, through[k - 1], through[k]);
    }
  }

  /** Not what the filter remembers, and not a multiple of 256 calls from the packet before. */
  predicate IsNew(prev: Key, p: Packet, through: seq<nat>, k: nat)
    requires k < |through|
  {
    if k == 0 then prev != KeyAt(p, through[0]) else !WholeTurns(through[k - 1], through[k])
  }

  predicate Fresh(s: State, p: Packet, through: seq<nat>) {
    forall k :: 0 <= k < |through| ==> IsNew(Remembered(s), p, through, k)
  }

  lemma SameMasks(a: seq<bool>, b: seq<bool>, prev: Key, p: Packet, through: seq<nat>)
    requires |a| == |b| == |through|
    requires forall k :: 0 <= k < |through| ==> (a[k] <==> b[k] && IsNew(prev, p, through, k))
    requires forall k :: 0 <= k < |through| ==> IsNew(prev, p, through, k)
    ensures a == b
  {
  }

  /** So without repetitions and such gaps every packet that memory takes is printed. */
  lemma EndToEndFresh(s: State, es: seq<Event>, p: Packet, calls: seq<Call>, through: seq<nat>)
    requires s.Valid() && s.role == Bridge && Legal(s, es) && Carries(s, es, OneSender(p, calls, through))
    requires Fresh(s, p, through)
    ensures AirOf(Prints(s, es)) == Select(PrintedFor(OneSender(p, calls, through)), TakenMask(s, es))
  {
    AcceptedPrinted(s, es, OneSender(p, calls, through));
    OneSenderAccepted(s, es, p, calls, through);
    SameMasks(AcceptMask(s, es), TakenMask(s, es), Remembered(s), p, through);
  }

  /** No local sends, and memory and the queue take every frame that passes the filter. */
  predicate AllTaken(s: State, es: seq<Event>)
    requires s.Valid() && Legal(s, es)
    decreases |es|
  {
    es == [] ||
    (&& !es[0].Local?
     && (es[0].Rx? && Qualifies(s, es[0].frame) && !Repeats(s, es[0].frame)
         ==> Ingest(s, es[0].frame.payload, es[0].env).Queued?)
     && AllTaken(Step(s, es[0]), es[1..]))
  }

  lemma TakenStep(s: State, e: Event)
    requires s.Valid() && Enabled(s, e) && !e.Local?
    requires e.Rx? && Qualifies(s, e.frame) ==> !Repeats(s, e.frame) && Ingest(s, e.frame.payload, e.env).Queued?
    ensures QueuedImages(s, e) == if e.Rx? && Qualifies(s, e.frame) then [CopyOut(e.frame.payload)] else []
  {
  }

  lemma {:induction false} TakenImages(s: State, es: seq<Event>)
    requires s.Valid() && Legal(s, es) && AllTaken(s, es)
    requires NoRepeat((s.lastAddress, s.lastSeqNum), QualifyingKeys(s, es))
    ensures RunImages(s, es) == CopyOuts(QualifyingFrames(s, es))
    decreases |es|
  {
    if es != [] {
      var e, rest := es[0], es[1..];
      var t := Step(s, e);
      FilterStep(s, e);
      QualifyingKeysFrame(s, t, rest);
      QualifyingFramesFrame(s, t, rest);
      if e.Rx? && Qualifies(s, e.frame) {
        assert QualifyingKeys(s, es)[1..] == QualifyingKeys(s, rest);
        NoRepeatStep((s.lastAddress, s.lastSeqNum), QualifyingKeys(s, es));
        CopyOutsFirst(e.frame, QualifyingFrames(s, rest));
      } else {
        assert QualifyingKeys(s, es) == QualifyingKeys(s, rest);
      }
      TakenStep(s, e);
      TakenImages(t, rest);
    }
  }

  lemma FreshNoRepeat(s: State, es: seq<Event>, p: Packet, calls: seq<Call>, through: seq<nat>)
    requires Carries(s, es, OneSender(p, calls, through)) && Fresh(s, p, through)
    ensures NoRepeat(Remembered(s), QualifyingKeys(s, es))
  {
    CarriedKeys(s, es, OneSender(p, calls, through));
    KeysNoRepeat(Remembered(s), QualifyingKeys(s, es), p, through);
  }

  lemma KeysNoRepeat(prev: Key, ks: seq<Key>, p: Packet, through: seq<nat>)
    requires |ks| == |through| && forall k :: 0 <= k < |ks| ==> ks[k] == KeyAt(p, through[k])
    requires forall k :: 0 <= k < |through| ==> IsNew(prev, p, through, k)
    ensures NoRepeat(prev, ks)
  {
    forall k | 0 <= k < |ks| ensures ks[k] != Last(prev, ks[..k]) {
      assert IsNew(prev, p, through, k);
      if k > 0 {
        SameKeyIff(p, through[k - 1], through[k]);
        assert ks[..k][k - 1] == ks[k - 1];
      }
    }
  }

  /** And without local sends and with memory for all, the output is those packets one by one. */
  lemma EndToEndAll(s: State, es: seq<Event>, p: Packet, calls: seq<Call>, through: seq<nat>)
    requires s.Valid() && s.role == Bridge && Legal(s, es) && AllTaken(s, es)
    requires Carries(s, es, OneSender(p, calls, through)) && Fresh(s, p, through)
    ensures Drained(Run(s, es)).printed == Log(s) + PrintedFor(OneSender(p, calls, through))
  {
    FreshNoRepeat(s, es, p, calls, through);
    TakenImages(s, es);
    ImagesMatch(QualifyingFrames(s, es), OneSender(p, calls, through));
    AllPrinted(s, es);
  }

  // ---- where the filter goes wrong ----

  /** A new packet that comes 256 calls after the last one received is dropped without a trace, free memory or not. */
  lemma FreshPacketDropped(s: State, fs: seq<RxFrame>, p: Packet, calls: seq<Call>, i: nat, env0: Env, env1: Env)
    requires s.Valid() && s.role == Bridge && p.head.dst == BROADCAST
    requires CarriesFrames(fs, OneSender(p, calls, [i, i + 0x100]))
    ensures var t := Step(s, Rx(fs[0], env0)); var u := Step(t, Rx(fs[1], env1));
      u == t.(rxTimeout := u.rxTimeout)
  {
    AllQualify(s, fs, OneSender(p, calls, [i, i + 0x100]));
    SameKeyIff(p, i, i + 0x100);
    SameKeyDropped(s, fs[0], fs[1], env0, env1);
  }

  lemma AllQualify(s: State, fs: seq<RxFrame>, from: seq<Origin>)
    requires CarriesFrames(fs, from) && s.role == Bridge
    requires forall k :: 0 <= k < |from| ==> from[k].p.head.dst == BROADCAST
    ensures forall k :: 0 <= k < |fs| ==> Qualifies(s, fs[k]) && KeyOf(fs[k]) == KeyFor(from[k])
  {
    forall k | 0 <= k < |fs| ensures Qualifies(s, fs[k]) && KeyOf(fs[k]) == KeyFor(from[k]) {
      assert CameFrom(fs[k], from[k]);
      CallQualifies(s, fs[k], from[k]);
    }
  }

  lemma SameKeyDropped(s: State, f: RxFrame, g: RxFrame, env0: Env, env1: Env)
    requires s.Valid() && Qualifies(s, f) && Qualifies(s, g) && KeyOf(f) == KeyOf(g)
    ensures var t := Step(s, Rx(f, env0)); var u := Step(t, Rx(g, env1));
      u == t.(rxTimeout := u.rxTimeout)
  {
    FilterStep(s, Rx(f, env0));
  }

  /** It is another packet: its report differs as soon as its timestamp does. */
  lemma FreshReportDiffers(p: Packet, calls: seq<Call>, i: nat)
    requires Fit(calls) && i + 0x100 < |calls| && calls[i].ts != calls[i + 0x100].ts
    ensures ReportAt(p, calls, i) != ReportAt(p, calls, i + 0x100)
  {
    ReportAtFacts(p, calls, i);
    ReportAtFacts(p, calls, i + 0x100);
  }

  lemma CallQualifies(s: State, f: RxFrame, o: Origin)
    requires CameFrom(f, o) && s.role == Bridge && o.p.head.dst == BROADCAST
    ensures Qualifies(s, f) && KeyOf(f) == KeyFor(o)
  {
    CarriedHead(f, o);
  }

  /** There are such frames for every sender with that many calls. */
  lemma HeardFrame(o: Origin, ts: U64)
    requires o.Valid()
    ensures HEAD_SIZE <= |SentBy(o)| < 0x8000 && CameFrom(FrameIn(FRAME_CONTROL, ts, |SentBy(o)|, SentBy(o)), o)
  {
    assert SentBy(o) + [] == SentBy(o);
  }

  /** A packet that is heard again behind one of another sender passes the filter a second time. */
  lemma RepeatPassesAfterOther(s: State, f: RxFrame, g: RxFrame, env0: Env, env1: Env, env2: Env)
    requires s.Valid() && s.role == Bridge && Qualifies(s, f) && Qualifies(s, g) && f.head.src != g.head.src
    requires Ingest(Step(Step(s, Rx(f, env0)), Rx(g, env1)), f.payload, env2).Queued?
    ensures var t := Step(Step(s, Rx(f, env0)), Rx(g, env1));
      Log(Step(t, Rx(f, env2))) == Log(t) + [CopyOut(f.payload)]
  {
    var t1 := Step(s, Rx(f, env0));
    var t := Step(t1, Rx(g, env1));
    FilterStep(s, Rx(f, env0));
    FilterStep(t1, Rx(g, env1));
    StepLogs(t, Rx(f, env2));
  }
}
