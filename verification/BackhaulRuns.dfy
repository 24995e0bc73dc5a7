/** What holds over every run of the backhaul: any interleaving of the listener task, the callbacks, sends and
    drains. */
module BackhaulRuns {
  import opened Backhaul
  import opened Bytes
  import opened Mbuf
  import opened Wire
  import Seqs

  predicate Legal(s: State, es: seq<Event>)
    requires s.Valid()
    decreases |es|
  {
    es == [] || (Enabled(s, es[0]) && Legal(Step(s, es[0]), es[1..]))
  }

  function Run(s: State, es: seq<Event>): (t: State)
    requires s.Valid() && Legal(s, es)
    ensures t.geo == s.geo && t.role == s.role && t.myAddress == s.myAddress
    decreases |es|
  {
    if es == [] then s else Run(Step(s, es[0]), es[1..])
  }

  lemma Extend(s: State, e: Event, es: seq<Event>)
    requires s.Valid() && Enabled(s, e) && Legal(Step(s, e), es)
    ensures Legal(s, [e] + es) && Run(s, [e] + es) == Run(Step(s, e), es)
  {
    assert ([e] + es)[1..] == es;
  }

  // ---- blocks ----

  function Blocks(s: State): (n: nat) {
    s.free + BlocksIn(s.queue) + s.kept
  }

  lemma EnqueueConserves(s: State, c: Chain)
    requires |c| <= s.free
    ensures Blocks(Enqueue(s, c)) == Blocks(s)
  {
    BlocksInAppend(s.queue, c);
  }

  lemma RxConserves(s: State, f: RxFrame, env: Env)
    requires s.Valid()
    ensures Blocks(RxStep(s, f, env)) == Blocks(s)
  {
    if Qualifies(s, f) && !Repeats(s, f) {
      var t := Retime(s, f).(lastAddress := f.head.src, lastSeqNum := f.head.seqNum);
      var o := Ingest(t, f.payload, env);
      if o.Queued? {
        EnqueueConserves(t, o.chain);
      }
    }
  }

  lemma LocalConserves(s: State, data: seq<Byte>, env: Env)
    requires s.Valid()
    ensures Blocks(LocalStep(s, data, env)) == Blocks(s)
  {
    var o := Ingest(s, data[..|data| % 0x8000], env);
    if o.Queued? {
      EnqueueConserves(s, o.chain);
    }
  }

  lemma StepConserves(s: State, e: Event)
    requires s.Valid() && Enabled(s, e)
    ensures Blocks(Step(s, e)) == Blocks(s)
    ensures !e.Rx? ==> Step(s, e).kept == s.kept
  {
    match e
    case Rx(f, env) => RxConserves(s, f, env);
    case Local(data, env) => LocalConserves(s, data, env);
    case _ =>
  }

  /** Free blocks, queued blocks and blocks kept by failing receptions always add up to the same pool. */
  lemma {:induction false} RunConserves(s: State, es: seq<Event>)
    requires s.Valid() && Legal(s, es)
    ensures Blocks(Run(s, es)) == Blocks(s)
    decreases |es|
  {
    if es != [] {
      StepConserves(s, es[0]);
      RunConserves(Step(s, es[0]), es[1..]);
    }
  }

  /** A local send either queues its packet or leaves the pool and the queue as they were. */
  lemma LocalSendAllOrNothing(s: State, data: seq<Byte>, env: Env)
    requires s.Valid()
    ensures var t := Step(s, Local(data, env)); var payload := data[..|data| % 0x8000];
      && t.kept == s.kept && t.sem == s.sem && t.printed == s.printed
      && (|Chunks(s.geo, payload)| <= s.free && |Chunks(s.geo, payload)| <= env.grant && env.putOk
          <==> t.queue == s.queue + [Chunks(s.geo, payload)])
      && (t.queue == s.queue ==> t.free == s.free)
      && (t.queue == s.queue || t.queue == s.queue + [Chunks(s.geo, payload)])
  {
    var t, c := Step(s, Local(data, env)), Chunks(s.geo, data[..|data| % 0x8000]);
    if t.queue == s.queue {
      assert |t.queue| != |s.queue + [c]|;
    } else {
      assert |t.queue| == |s.queue| + 1;
    }
  }

  /** The records that the packets of a queue will be printed from. */
  function Images(queue: seq<Chain>): (rs: seq<Image>)
    ensures |rs| == |queue|
  {
    if queue == [] then [] else [CopyOut(Join(queue[0]))] + Images(queue[1..])
  }

  lemma {:induction false} QueuedImagesAppend(queue: seq<Chain>, c: Chain)
    ensures Images(queue + [c]) == Images(queue) + [CopyOut(Join(c))]
  {
    if queue == [] {
      assert queue + [c] == [c];
    } else {
      QueuedImagesAppend(queue[1..], c);
      assert (queue + [c])[0] == queue[0] && (queue + [c])[1..] == queue[1..] + [c];
      Seqs.Assoc([CopyOut(Join(queue[0]))], Images(queue[1..]), [CopyOut(Join(c))]);
    }
  }

  /** A full drain frees every queued block, keeps the rest, and prints the queued packets in order. */
  lemma {:induction false} DrainEmpties(s: State)
    requires s.Valid()
    ensures var t := Drained(s);
      && t == s.(queue := [], free := s.free + BlocksIn(s.queue),
                 printed := if s.role == Bridge then s.printed + Images(s.queue) else s.printed)
    decreases |s.queue|
  {
    if s.queue != [] {
      DrainEmpties(DrainStep(s));
      Seqs.Assoc(s.printed, [CopyOut(Join(s.queue[0]))], Images(s.queue[1..]));
    }
  }

  // ---- blocks that are lost ----

  /** Blocks that a payload is given, of those it needs. */
  function Got(s: State, data: seq<Byte>, env: Env): (n: nat)
    requires s.Valid()
  {
    Min(Min(s.free, env.grant), Need(s, data))
  }

  function Need(s: State, data: seq<Byte>): (n: nat)
    requires s.Valid()
  {
    |Chunks(s.geo, data)|
  }

  /** The guard of the two error returns: a new frame that is given blocks, but too few or a full queue. */
  predicate Keeps(s: State, f: RxFrame, env: Env)
    requires s.Valid()
  {
    var got := Got(s, f.payload, env);
    Qualifies(s, f) && !Repeats(s, f) && got > 0 && (got < Need(s, f.payload) || !env.putOk)
  }

  /** Blocks that a step takes out of use. */
  function LostBy(s: State, e: Event): (n: nat)
    requires s.Valid()
  {
    if e.Rx? && Keeps(s, e.frame, e.env) then Got(s, e.frame.payload, e.env) else 0
  }

  /** A step loses blocks for good exactly under that guard, and then all it was given. */
  lemma LostExact(s: State, e: Event)
    requires s.Valid() && Enabled(s, e)
    ensures Step(s, e).kept == s.kept + LostBy(s, e)
    ensures Step(s, e).kept > s.kept <==> e.Rx? && Keeps(s, e.frame, e.env)
  {
    if !e.Rx? {
      StepConserves(s, e);
    }
  }

  function Lost(s: State, es: seq<Event>): (n: nat)
    requires s.Valid() && Legal(s, es)
    decreases |es|
  {
    if es == [] then 0 else LostBy(s, es[0]) + Lost(Step(s, es[0]), es[1..])
  }

  /** No reception of the run meets the guard. */
  predicate NothingKept(s: State, es: seq<Event>)
    requires s.Valid() && Legal(s, es)
    decreases |es|
  {
    es == [] || (!(es[0].Rx? && Keeps(s, es[0].frame, es[0].env)) && NothingKept(Step(s, es[0]), es[1..]))
  }

  lemma {:induction false} RunLost(s: State, es: seq<Event>)
    requires s.Valid() && Legal(s, es)
    ensures Run(s, es).kept == s.kept + Lost(s, es)
    ensures Lost(s, es) == 0 <==> NothingKept(s, es)
    decreases |es|
  {
    if es != [] {
      LostExact(s, es[0]);
      RunLost(Step(s, es[0]), es[1..]);
    }
  }

  /** After any run from power-up and a full drain, exactly the blocks lost to failed receptions are missing from the
      pool, so it is whole if and only if no reception met the guard. */
  lemma QueueSizeAfterDrain(s: State, es: seq<Event>, numBlocks: nat)
    requires s.Valid() && Legal(s, es)
    requires s.queue == [] && s.kept == 0 && s.free == numBlocks
    ensures numBlocks - Drained(Run(s, es)).free == Run(s, es).kept == Lost(s, es)
    ensures Drained(Run(s, es)).free == numBlocks <==> NothingKept(s, es)
  {
    RunConserves(s, es);
    DrainEmpties(Run(s, es));
    RunLost(s, es);
  }

  /** A bridge with a waiting listener, one free block of that size and nothing queued. */
  function Waiting(first: nat): (s: State) {
    Initial(Geometry(first, 20), 1, 7).(role := Bridge, listener := Started, sem := 0)
  }

  /** A broadcast frame of the protocol with that payload. */
  function Heard(payload: seq<Byte>): (f: RxFrame)
    requires |payload| < 0x8000
  {
    RxFrame(FRAME_CONTROL, 0, |payload|, Header(FRAME_CONTROL, 1, 0xDECA, BROADCAST, 5, BACKHAUL_CODE), payload)
  }

  lemma KeepsWaiting(first: nat, payload: seq<Byte>, env: Env)
    requires SENSOR_SIZE <= |payload| < 0x8000 && env.grant == 1 && (|payload| > first || !env.putOk)
    ensures var s, f := Waiting(first), Heard(payload);
      && Keeps(s, f, env) && Drained(Step(s, Rx(f, env))).free == 0 && Step(s, Rx(f, env)).sem == 0
  {
    ChunksJoin(Geometry(first, 20), payload);
    LostExact(Waiting(first), Rx(Heard(payload), env));
  }

  /** Inputs that lose a block for good: one free block for a payload that needs two, and a queue that refuses a
      payload of one block. Neither wakes the listener. */
  lemma CopyFailWitness()
    ensures var s, f := Waiting(20), Heard(Zeros(39));
      && Keeps(s, f, Env(1, true)) && Drained(Step(s, Rx(f, Env(1, true)))).free == 0
      && Step(s, Rx(f, Env(1, true))).sem == 0
  {
    KeepsWaiting(20, Zeros(39), Env(1, true));
  }

  lemma PutFailWitness()
    ensures var s, f := Waiting(40), Heard(Zeros(39));
      && Keeps(s, f, Env(1, false)) && Drained(Step(s, Rx(f, Env(1, false)))).free == 0
      && Step(s, Rx(f, Env(1, false))).sem == 0
  {
    KeepsWaiting(40, Zeros(39), Env(1, false));
  }

  // ---- the repeat filter ----

  type Key = (U16, Byte)

  function KeyOf(f: RxFrame): (k: Key) {
    (f.head.src, f.head.seqNum)
  }

  /** Runs of equal keys reduced to one, a leading run equal to prev to none. */
  function Collapse(prev: Key, ks: seq<Key>): (r: seq<Key>)
    decreases |ks|
  {
    if ks == [] then []
    else if ks[0] == prev then Collapse(prev, ks[1..])
    else [ks[0]] + Collapse(ks[0], ks[1..])
  }

  function Last(prev: Key, ks: seq<Key>): (k: Key) {
    if ks == [] then prev else ks[|ks| - 1]
  }

  /** A key passes exactly when it differs from the key right before it. */
  lemma {:induction false} CollapseSnoc(prev: Key, ks: seq<Key>, k: Key)
    ensures Collapse(prev, ks + [k]) == Collapse(prev, ks) + (if k == Last(prev, ks) then [] else [k])
    decreases |ks|
  {
    if ks == [] {
      assert ks + [k] == [k];
    } else {
      CollapseSnoc(ks[0], ks[1..], k);
      assert (ks + [k])[1..] == ks[1..] + [k];
      assert Last(ks[0], ks[1..]) == Last(prev, ks);
    }
  }

  ghost predicate NoRepeat(prev: Key, ks: seq<Key>) {
    forall i :: 0 <= i < |ks| ==> ks[i] != Last(prev, ks[..i])
  }

  lemma {:induction false} NoRepeatStep(prev: Key, ks: seq<Key>)
    requires ks != []
    ensures NoRepeat(prev, ks) <==> ks[0] != prev && NoRepeat(ks[0], ks[1..])
  {
    if NoRepeat(prev, ks) {
      assert ks[0] != Last(prev, ks[..0]);
      forall i | 0 <= i < |ks[1..]| ensures ks[1..][i] != Last(ks[0], ks[1..][..i]) {
        assert ks[i + 1] != Last(prev, ks[..i + 1]);
      }
    }
    if ks[0] != prev && NoRepeat(ks[0], ks[1..]) {
      forall i | 0 <= i < |ks| ensures ks[i] != Last(prev, ks[..i]) {
        if i > 0 {
          assert ks[1..][i - 1] != Last(ks[0], ks[1..][..i - 1]);
        }
      }
    }
  }

  /** No two neighbours of the collapsed sequence agree. */
  lemma {:induction false} CollapseNoRepeat(prev: Key, ks: seq<Key>)
    ensures NoRepeat(prev, Collapse(prev, ks))
    decreases |ks|
  {
    if ks != [] {
      if ks[0] == prev {
        CollapseNoRepeat(prev, ks[1..]);
      } else {
        CollapseNoRepeat(ks[0], ks[1..]);
        assert Collapse(prev, ks)[1..] == Collapse(ks[0], ks[1..]);
        NoRepeatStep(prev, Collapse(prev, ks));
      }
    }
  }

  lemma {:induction false} CollapseFixed(prev: Key, ks: seq<Key>)
    requires NoRepeat(prev, ks)
    ensures Collapse(prev, ks) == ks
    decreases |ks|
  {
    if ks != [] {
      NoRepeatStep(prev, ks);
      CollapseFixed(ks[0], ks[1..]);
    }
  }

  /** Filtering a filtered sequence removes nothing more. */
  lemma CollapseTwice(prev: Key, ks: seq<Key>)
    ensures Collapse(prev, Collapse(prev, ks)) == Collapse(prev, ks)
  {
    CollapseNoRepeat(prev, ks);
    CollapseFixed(prev, Collapse(prev, ks));
  }

  /** Keys of the frames of a run that reach the repeat filter. */
  function QualifyingKeys(s: State, es: seq<Event>): (ks: seq<Key>) {
    if es == [] then []
    else (if es[0].Rx? && Qualifies(s, es[0].frame) then [KeyOf(es[0].frame)] else [])
         + QualifyingKeys(s, es[1..])
  }

  lemma {:induction false} QualifyingKeysFrame(s: State, t: State, es: seq<Event>)
    requires s.role == t.role && s.myAddress == t.myAddress
    ensures QualifyingKeys(s, es) == QualifyingKeys(t, es)
  {
    if es != [] {
      QualifyingKeysFrame(s, t, es[1..]);
    }
  }

  /** Keys of the frames of a run that pass it. */
  function PassedKeys(s: State, es: seq<Event>): (ks: seq<Key>)
    requires s.Valid() && Legal(s, es)
    decreases |es|
  {
    if es == [] then []
    else (if es[0].Rx? && Qualifies(s, es[0].frame) && !Repeats(s, es[0].frame) then [KeyOf(es[0].frame)] else [])
         + PassedKeys(Step(s, es[0]), es[1..])
  }

  lemma FilterStep(s: State, e: Event)
    requires s.Valid() && Enabled(s, e)
    ensures var t := Step(s, e);
      (t.lastAddress, t.lastSeqNum) ==
        if e.Rx? && Qualifies(s, e.frame) then KeyOf(e.frame) else (s.lastAddress, s.lastSeqNum)
  {
  }

  /** Over every run the passed frames are the qualifying ones with repeats collapsed, whatever memory was available. */
  lemma {:induction false} FilterCollapses(s: State, es: seq<Event>)
    requires s.Valid() && Legal(s, es)
    ensures PassedKeys(s, es) == Collapse((s.lastAddress, s.lastSeqNum), QualifyingKeys(s, es))
    ensures (Run(s, es).lastAddress, Run(s, es).lastSeqNum)
         == Last((s.lastAddress, s.lastSeqNum), QualifyingKeys(s, es))
    decreases |es|
  {
    if es != [] {
      var e, t := es[0], Step(s, es[0]);
      FilterStep(s, e);
      FilterCollapses(t, es[1..]);
      QualifyingKeysFrame(s, t, es[1..]);
      var prev, rest := (s.lastAddress, s.lastSeqNum), QualifyingKeys(s, es[1..]);
      if e.Rx? && Qualifies(s, e.frame) {
        assert QualifyingKeys(s, es) == [KeyOf(e.frame)] + rest;
        assert QualifyingKeys(s, es)[1..] == rest;
        assert Last(prev, QualifyingKeys(s, es)) == Last(KeyOf(e.frame), rest);
      } else {
        assert QualifyingKeys(s, es) == rest;
      }
    }
  }

  // ---- delivery ----

  /** Everything printed so far followed by everything that is waiting to be printed. */
  function Log(s: State): (rs: seq<Image>) {
    s.printed + Images(s.queue)
  }

  function QueuedImages(s: State, e: Event): (rs: seq<Image>)
    requires s.Valid() && Enabled(s, e)
  {
    match e
    case Rx(f, env) =>
      if Qualifies(s, f) && !Repeats(s, f) && Ingest(s, f.payload, env).Queued? then [CopyOut(f.payload)] else []
    case Local(data, env) =>
      if Ingest(s, data[..|data| % 0x8000], env).Queued? then [CopyOut(data[..|data| % 0x8000])] else []
    case _ => []
  }

  function RunImages(s: State, es: seq<Event>): (rs: seq<Image>)
    requires s.Valid() && Legal(s, es)
    decreases |es|
  {
    if es == [] then [] else QueuedImages(s, es[0]) + RunImages(Step(s, es[0]), es[1..])
  }

  lemma EnqueueLogs(s: State, payload: seq<Byte>)
    requires s.Valid() && |Chunks(s.geo, payload)| <= s.free
    ensures Log(Enqueue(s, Chunks(s.geo, payload))) == Log(s) + [CopyOut(payload)]
  {
    ChunksJoin(s.geo, payload);
    QueuedImagesAppend(s.queue, Chunks(s.geo, payload));
  }

  lemma AcceptLogs(s: State, f: RxFrame, env: Env)
    requires s.Valid()
    ensures Log(Accept(s, f, env)) == Log(s) + if Ingest(s, f.payload, env).Queued? then [CopyOut(f.payload)] else []
  {
    var t := s.(lastAddress := f.head.src, lastSeqNum := f.head.seqNum);
    assert Ingest(t, f.payload, env) == Ingest(s, f.payload, env);
    if Ingest(s, f.payload, env).Queued? {
      EnqueueLogs(t, f.payload);
    }
  }

  lemma RxLogs(s: State, f: RxFrame, env: Env)
    requires s.Valid() && s.role == Bridge
    ensures Log(RxStep(s, f, env)) == Log(s) + QueuedImages(s, Rx(f, env))
  {
    if Qualifies(s, f) && !Repeats(s, f) {
      AcceptLogs(Retime(s, f), f, env);
    }
  }

  lemma DrainLogs(s: State)
    requires s.Valid() && s.role == Bridge && s.queue != []
    ensures Log(DrainStep(s)) == Log(s)
  {
    Seqs.Assoc(s.printed, [CopyOut(Join(s.queue[0]))], Images(s.queue[1..]));
  }

  lemma StepLogs(s: State, e: Event)
    requires s.Valid() && Enabled(s, e) && s.role == Bridge
    ensures Log(Step(s, e)) == Log(s) + QueuedImages(s, e)
  {
    match e
    case Rx(f, env) => RxLogs(s, f, env);
    case Local(data, env) =>
      if QueuedImages(s, e) != [] {
        EnqueueLogs(s, data[..|data| % 0x8000]);
      }
    case DrainOne => DrainLogs(s);
    case _ =>
  }

  /** Over every run of a bridge the queued packets reach the printer in order, none lost, none doubled, none
      altered. */
  lemma {:induction false} RunLogs(s: State, es: seq<Event>)
    requires s.Valid() && Legal(s, es) && s.role == Bridge
    ensures Log(Run(s, es)) == Log(s) + RunImages(s, es)
    decreases |es|
  {
    if es != [] {
      var t := Step(s, es[0]);
      StepLogs(s, es[0]);
      RunLogs(t, es[1..]);
      Seqs.Assoc(Log(s), QueuedImages(s, es[0]), RunImages(t, es[1..]));
    }
  }

  /** After a full drain all of them have been printed. */
  lemma AllPrinted(s: State, es: seq<Event>)
    requires s.Valid() && Legal(s, es) && s.role == Bridge
    ensures Drained(Run(s, es)).printed == Log(s) + RunImages(s, es)
  {
    RunLogs(s, es);
    DrainEmpties(Run(s, es));
  }

  // ---- the deadline of a listen ----

  /** A reprogrammed timeout ends less than one timeout unit before the deadline exactly when the frame arrived at most
      2^32 ticks before it and not after it. */
  lemma TimeoutExact(deadline: U64, t: U64)
    ensures deadline - 0x1_0000 < t + TimeoutAt(deadline, t) * 0x1_0000 <= deadline
       <==> 0 <= deadline - t < 0x1_0000_0000
  {
    var x := (deadline - t) % 0x1_0000_0000_0000_0000;
    assert x / 0x1_0000 % 0x1_0000 * 0x1_0000 == x % 0x1_0000_0000 - x % 0x1_0000;
  }

  lemma TimeoutMonotone(deadline: U64, t: U64, u: U64)
    requires t <= u <= deadline && deadline - t < 0x1_0000_0000
    ensures TimeoutAt(deadline, u) <= TimeoutAt(deadline, t)
  {
    assert (deadline - u) / 0x1_0000 <= (deadline - t) / 0x1_0000;
  }

  /** The radio's clock counts 40 bits, so the timestamp of a frame is its true time modulo 2^40. */
  const CLOCK: nat := 0x100_0000_0000

  /** A deadline within reach of the clock and a true time at most 2^32 ticks before it: the wrap of the clock
      cancels out. */
  lemma WrapCancels(deadline: nat, t: nat)
    requires deadline < 2 * 0x100_0000_0000 && t <= deadline && deadline - t < 0x1_0000_0000
    ensures TimeoutAt(deadline, t % 0x100_0000_0000) == TimeoutAt(deadline, t)
  {
    var x := deadline - t;
    if t >= CLOCK {
      assert t % CLOCK == t - CLOCK;
      assert (x + CLOCK) / 0x1_0000 == x / 0x1_0000 + 0x100_0000;
      assert x / 0x1_0000 < 0x1_0000;
    }
  }

  /** Receptions at the given true times, in order, none before t, none after the deadline, and no end of the listen in
      between; other events have a time of no meaning. */
  predicate InWindow(es: seq<Event>, times: seq<nat>, t: nat, deadline: nat) {
    |times| == |es| &&
    (es == [] ||
     (match es[0]
      case Disarm => false
      case Rx(f, _) =>
        && t <= times[0] <= deadline && f.timestamp == times[0] % CLOCK
        && InWindow(es[1..], times[1..], times[0], deadline)
      case _ => InWindow(es[1..], times[1..], t, deadline)))
  }

  function LastTime(es: seq<Event>, times: seq<nat>, t: nat): (u: nat)
    requires |times| == |es|
  {
    if es == [] then t
    else LastTime(es[1..], times[1..], if es[0].Rx? then times[0] else t)
  }

  predicate Listening(s: State) {
    s.listener == Armed || s.listener == Started || s.listener == Woken || s.listener == Released
  }

  /** The radio's timeout, counted from the true time t, runs out within one unit before the deadline. */
  predicate RunsTo(s: State, t: nat, deadline: nat) {
    deadline - 0x1_0000 < t + s.rxTimeout * 0x1_0000 <= deadline
  }

  lemma RetimedStep(s: State, e: Event, t: nat)
    requires s.Valid() && Enabled(s, e) && Listening(s) && e.Rx? && s.deadline != 0 && s.deadline < 2 * 0x100_0000_0000
    requires t <= s.deadline && s.deadline - t < 0x1_0000_0000 && e.frame.timestamp == t % 0x100_0000_0000
    ensures Step(s, e).rxTimeout == TimeoutAt(s.deadline, t)
  {
    WrapCancels(s.deadline, t);
  }

  /** During a listen the deadline stands still, the radio's timeout always runs to within one unit of it, and no
      reception lengthens the timeout, also across a wrap of the clock. */
  lemma {:induction false} DeadlineKept(s: State, es: seq<Event>, times: seq<nat>, t: nat)
    requires s.Valid() && Legal(s, es) && Listening(s) && s.deadline < 2 * 0x100_0000_0000
    requires InWindow(es, times, t, s.deadline) && t <= s.deadline && s.deadline - t < 0x1_0000_0000
    requires s.rxTimeout == TimeoutAt(s.deadline, t)
    ensures var r, u := Run(s, es), LastTime(es, times, t);
      && Listening(r) && r.deadline == s.deadline
      && t <= u <= s.deadline
      && r.rxTimeout == TimeoutAt(s.deadline, u) <= s.rxTimeout
      && RunsTo(r, u, s.deadline)
    decreases |es|
  {
    TimeoutExact(s.deadline, t);
    if es != [] {
      var u := if es[0].Rx? then times[0] else t;
      TimeoutMonotone(s.deadline, t, u);
      ListeningStep(s, es[0]);
      if es[0].Rx? && s.deadline != 0 {
        RetimedStep(s, es[0], u);
      }
      DeadlineKept(Step(s, es[0]), es[1..], times[1..], u);
    }
  }

  lemma ListeningStep(s: State, e: Event)
    requires s.Valid() && Enabled(s, e) && Listening(s) && !e.Disarm?
    ensures Listening(Step(s, e)) && Step(s, e).deadline == s.deadline
    ensures !e.Rx? || s.deadline == 0 ==> Step(s, e).rxTimeout == s.rxTimeout
  {
  }

  /** The deadline is set exactly in the second half of a listen, to its start plus its window. */
  predicate DeadlineSet(s: State) {
    s.deadline == if s.listener == Dated || Listening(s) then Deadline(s.start, s.window) else 0
  }

  lemma DeadlineStep(s: State, e: Event)
    requires s.Valid() && Enabled(s, e) && DeadlineSet(s)
    ensures DeadlineSet(Step(s, e))
    ensures s.listener != Idle ==> Step(s, e).start == s.start && Step(s, e).window == s.window
  {
  }

  lemma {:induction false} RunDeadlineSet(s: State, es: seq<Event>)
    requires s.Valid() && Legal(s, es) && DeadlineSet(s)
    ensures DeadlineSet(Run(s, es))
    decreases |es|
  {
    if es != [] {
      DeadlineStep(s, es[0]);
      RunDeadlineSet(Step(s, es[0]), es[1..]);
    }
  }

  predicate Beginning(l: Listener) {
    l == Entered || l == Acquired || l == Dated
  }

  /** The events of a listen up to some point: receptions count from the moment the radio's timeout is set. */
  predicate InListen(es: seq<Event>, times: seq<nat>, start: nat, deadline: nat) {
    |times| == |es| &&
    (es == [] ||
     if es[0].Arm? then InWindow(es[1..], times[1..], start, deadline)
     else InListen(es[1..], times[1..], start, deadline))
  }

  /** The true time of the last of these receptions, or the start of the listen. */
  function ListenTime(es: seq<Event>, times: seq<nat>, start: nat): (u: nat)
    requires |times| == |es|
  {
    if es == [] then start
    else if es[0].Arm? then LastTime(es[1..], times[1..], start)
    else ListenTime(es[1..], times[1..], start)
  }

  lemma ArmedAt(start: nat, window: U16)
    requires start < 0x100_0000_0000
    ensures Deadline(start, window) == start + window * 0x1_0000
    ensures TimeoutAt(Deadline(start, window), start) == window
  {
  }

  lemma {:induction false} FromBeginning(s: State, es: seq<Event>, times: seq<nat>)
    requires s.Valid() && Legal(s, es) && DeadlineSet(s) && Beginning(s.listener) && s.start < 0x100_0000_0000
    requires InListen(es, times, s.start, s.start + s.window * 0x1_0000)
    ensures var r, u, d := Run(s, es), ListenTime(es, times, s.start), s.start + s.window * 0x1_0000;
      Beginning(r.listener) || (Listening(r) && r.deadline == d && RunsTo(r, u, d) && r.rxTimeout <= s.window)
    decreases |es|
  {
    if es != [] {
      var t := Step(s, es[0]);
      DeadlineStep(s, es[0]);
      if es[0].Arm? {
        ArmedAt(s.start, s.window);
        DeadlineKept(t, es[1..], times[1..], s.start);
      } else {
        BeginningStep(s, es[0]);
        FromBeginning(t, es[1..], times[1..]);
      }
    }
  }

  lemma BeginningStep(s: State, e: Event)
    requires s.Valid() && Enabled(s, e) && Beginning(s.listener) && !e.Arm?
    ensures Beginning(Step(s, e).listener)
  {
  }

  /** A whole listen, from its call on and however it interleaves: once the radio's timeout is set, the deadline is
      start plus window, and after every reception up to it, at whatever true times, the timeout runs out less than
      one unit before it. */
  lemma ListenDeadline(s: State, start: U64, window: U16, es: seq<Event>, times: seq<nat>)
    requires s.Valid() && s.listener == Idle && DeadlineSet(s) && start < 0x100_0000_0000
    requires Legal(Step(s, Enter(start, window)), es) && InListen(es, times, start, start + window * 0x1_0000)
    ensures var r, u := Run(Step(s, Enter(start, window)), es), ListenTime(es, times, start);
      var d := start + window * 0x1_0000;
      Beginning(r.listener) || (Listening(r) && r.deadline == d && RunsTo(r, u, d) && r.rxTimeout <= window)
  {
    FromBeginning(Step(s, Enter(start, window)), es, times);
  }
}
