/** The receiving half of the RTDoA backhaul: one listener task, two radio callbacks, a block pool and a packet
    queue. */
module Backhaul {
  import opened Bytes
  import opened Mbuf
  import opened Wire

  const FRAME_CONTROL: U16 := 0x88C1
  const BACKHAUL_CODE: U16 := 0x6003
  const BROADCAST: U16 := 0xffff

  /** A packet record in memory, as the printer is given it. */
  type Image = b: seq<Byte> | |b| == PACKET_SIZE witness Zeros(PACKET_SIZE)

  datatype Role = Invalid | Bridge | Producer

  /** Where the listener task stands; every arrow between two of these is one uninterrupted step. */
  datatype Listener = Idle | Entered | Acquired | Dated | Armed | Started | Woken | Released

  datatype State = State(
    geo: Geometry, role: Role, myAddress: U16,
    sem: nat, listener: Listener, start: U64, window: U16, deadline: U64, rxTimeout: U16,
    lastAddress: U16, lastSeqNum: Byte,
    free: nat, queue: seq<Chain>, kept: nat,
    printed: seq<Image>)
  {
    predicate Valid() { geo.Valid() }
  }

  /** A received frame as the callback reads it off the device: its frame control word, timestamp and length, the
      header at the start of the receive buffer, and the part of the buffer that goes into the message. */
  datatype RxFrame = RxFrame(fctrl: U16, timestamp: U64, len: U16, head: Header, payload: seq<Byte>)

  /** The length goes through a 15-bit field of the message header before it is used. */
  function FrameIn(fctrl: U16, timestamp: U64, len: U16, buf: seq<Byte>): (f: RxFrame)
    requires HEAD_SIZE <= |buf| && len <= |buf|
    ensures f.fctrl == fctrl && f.timestamp == timestamp && f.len == len && f.head == HeaderOf(buf[..11])
    ensures f.payload == buf[..if len < 0x8000 then len else len - 0x8000]
  {
    RxFrame(fctrl, timestamp, len, HeaderOf(buf[..HEAD_SIZE]), buf[..len % 0x8000])
  }

  /** What the pool and the queue answer: how many block requests are granted, and whether the queue takes the chain. */
  datatype Env = Env(grant: nat, putOk: bool)

  datatype Outcome = NoBlock | CopyFailed(taken: nat) | PutFailed(taken: nat) | Queued(chain: Chain)

  datatype Event =
    | Enter(start: U64, window: U16) | Acquire | SetDeadline | Arm | StartRx(error: bool) | AcquireAgain
    | Release | Disarm
    | Rx(frame: RxFrame, env: Env) | Tx(fctrl: U16)
    | Local(data: seq<Byte>, env: Env) | DrainOne

  // ---- what one step does ----

  /** A callback releases the semaphore only when its count is zero. */
  function Wake(s: State): (t: State) {
    if s.sem == 0 then s.(sem := 1) else s
  }

  function Deadline(start: U64, window: U16): (d: U64) {
    (start + window * 0x1_0000) % 0x1_0000_0000_0000_0000
  }

  function TimeoutAt(deadline: U64, timestamp: U64): (t: U16) {
    (deadline - timestamp) % 0x1_0000_0000_0000_0000 / 0x1_0000 % 0x1_0000
  }

  function Ingest(s: State, data: seq<Byte>, env: Env): (o: Outcome)
    requires s.Valid()
    ensures o.CopyFailed? || o.PutFailed? ==> 1 <= o.taken <= s.free
    ensures o.Queued? ==> o.chain == Chunks(s.geo, data) && |o.chain| <= s.free
  {
    var need := |Chunks(s.geo, data)|;
    var taken := Min(Min(s.free, env.grant), need);
    if taken == 0 then NoBlock
    else if taken < need then CopyFailed(taken)
    else if !env.putOk then PutFailed(taken)
    else Queued(Chunks(s.geo, data))
  }

  function Enqueue(s: State, c: Chain): (t: State)
    requires |c| <= s.free
  {
    s.(free := s.free - |c|, queue := s.queue + [c])
  }

  function Keep(s: State, n: nat): (t: State)
    requires n <= s.free
  {
    s.(free := s.free - n, kept := s.kept + n)
  }

  predicate Ours(f: RxFrame) {
    f.fctrl == FRAME_CONTROL && f.head.code >= BACKHAUL_CODE
  }

  predicate Addressed(s: State, f: RxFrame) {
    (f.head.dst == s.myAddress || f.head.dst == BROADCAST) && s.role == Bridge
  }

  predicate Qualifies(s: State, f: RxFrame) {
    Ours(f) && Addressed(s, f) && f.len >= SENSOR_SIZE
  }

  predicate Repeats(s: State, f: RxFrame) {
    f.head.src == s.lastAddress && f.head.seqNum == s.lastSeqNum
  }

  function Retime(s: State, f: RxFrame): (t: State) {
    if s.deadline != 0 then s.(rxTimeout := TimeoutAt(s.deadline, f.timestamp)) else s
  }

  function Accept(s: State, f: RxFrame, env: Env): (t: State)
    requires s.Valid()
  {
    var t := s.(lastAddress := f.head.src, lastSeqNum := f.head.seqNum);
    match Ingest(t, f.payload, env)
    case NoBlock => Wake(t)
    case CopyFailed(n) => Keep(t, n)
    case PutFailed(n) => Keep(t, n)
    case Queued(c) => Wake(Enqueue(t, c))
  }

  function RxStep(s: State, f: RxFrame, env: Env): (t: State)
    requires s.Valid()
  {
    var t := Retime(s, f);
    if !Ours(f) then t
    else if !Qualifies(s, f) then Wake(t)
    else if Repeats(s, f) then t
    else Accept(t, f, env)
  }

  function TxStep(s: State, fctrl: U16): (t: State) {
    if fctrl != FRAME_CONTROL || s.deadline != 0 then s else Wake(s)
  }

  function LocalStep(s: State, data: seq<Byte>, env: Env): (t: State)
    requires s.Valid()
  {
    match Ingest(s, data[..|data| % 0x8000], env)
    case Queued(c) => Enqueue(s, c)
    case _ => s
  }

  function DrainStep(s: State): (t: State)
    requires s.queue != []
  {
    var c := s.queue[0];
    s.(queue := s.queue[1..], free := s.free + |c|,
       printed := if s.role == Bridge then s.printed + [CopyOut(Join(c))] else s.printed)
  }

  predicate Enabled(s: State, e: Event) {
    match e
    case Enter(_, _) => s.listener == Idle
    case Acquire => s.listener == Entered && s.sem > 0
    case SetDeadline => s.listener == Acquired
    case Arm => s.listener == Dated
    case StartRx(_) => s.listener == Armed
    case AcquireAgain => s.listener == Started && s.sem > 0
    case Release => s.listener == Woken
    case Disarm => s.listener == Released
    case Rx(_, _) => true
    case Tx(_) => true
    case Local(_, _) => true
    case DrainOne => s.queue != []
  }

  function Step(s: State, e: Event): (t: State)
    requires s.Valid() && Enabled(s, e)
    ensures t.geo == s.geo && t.role == s.role && t.myAddress == s.myAddress
  {
    match e
    case Enter(start, window) => s.(listener := Entered, start := start, window := window)
    case Acquire => s.(listener := Acquired, sem := s.sem - 1)
    case SetDeadline => s.(listener := Dated, deadline := Deadline(s.start, s.window))
    case Arm => s.(listener := Armed, rxTimeout := s.window)
    case StartRx(error) => s.(listener := Started, sem := if error then s.sem + 1 else s.sem)
    case AcquireAgain => s.(listener := Woken, sem := s.sem - 1)
    case Release => s.(listener := Released, sem := s.sem + 1)
    case Disarm => s.(listener := Idle, deadline := 0)
    case Rx(f, env) => RxStep(s, f, env)
    case Tx(fctrl) => TxStep(s, fctrl)
    case Local(data, env) => LocalStep(s, data, env)
    case DrainOne => DrainStep(s)
  }

  /** Every queued packet taken out, oldest first. */
  function Drained(s: State): (t: State)
    decreases |s.queue|
  {
    if s.queue == [] then s else Drained(DrainStep(s))
  }

  // ---- the same as an object that the task and the callbacks update ----

  class Node {
    const geo: Geometry
    const myAddress: U16
    const total: nat
    var role: Role
    var sem: nat
    var listener: Listener
    var start: U64
    var window: U16
    var deadline: U64
    var rxTimeout: U16
    var lastAddress: U16
    var lastSeqNum: Byte
    var free: nat
    var queue: seq<Chain>
    ghost var kept: nat
    var printed: seq<Image>

    ghost function Abs(): (s: State)
      reads this
    {
      State(geo, role, myAddress, sem, listener, start, window, deadline, rxTimeout, lastAddress, lastSeqNum,
            free, queue, kept, printed)
    }

    ghost predicate Valid()
      reads this
    {
      geo.Valid() && free + BlocksIn(queue) + kept == total
    }

    constructor (geo: Geometry, numBlocks: nat, address: U16)
      requires geo.Valid()
      ensures Valid() && total == numBlocks
      ensures Abs() == Initial(geo, numBlocks, address)
    {
      this.geo, total, free, myAddress := geo, numBlocks, numBlocks, address;
      role, sem, listener := Invalid, 1, Idle;
      start, window, deadline, rxTimeout := 0, 0, 0, 0;
      lastAddress, lastSeqNum := 0, 0;
      queue, kept, printed := [], 0, [];
    }

    method SetRole(r: Role)
      requires Valid()
      modifies this`role
      ensures Valid() && Abs() == old(Abs()).(role := r)
    {
      role := r;
    }

    /** Blocks that are not free. */
    method QueueSize() returns (n: int)
      requires Valid()
      ensures n == BlocksIn(queue) + kept
    {
      n := total - free;
    }

    method BuildChain(data: seq<Byte>, grant: nat) returns (chain: Chain, ok: bool)
      requires geo.Valid()
      modifies this`free
      ensures |chain| == Min(Min(old(free), grant), |Chunks(geo, data)|)
      ensures free == old(free) - |chain|
      ensures ok <==> |chain| == |Chunks(geo, data)|
      ensures ok ==> chain == Chunks(geo, data)
    {
      if free == 0 || grant == 0 {
        return [], false;
      }
      var n := Min(geo.first, |data|);
      chain, free := [data[..n]], free - 1;
      var rest := data[n..];
      while rest != []
        invariant |chain| >= 1 && |chain| <= grant && |chain| <= old(free)
        invariant free == old(free) - |chain|
        invariant chain + Pieces(rest, geo.rest) == Chunks(geo, data)
        decreases |rest|
      {
        if free == 0 || |chain| == grant {
          return chain, false;
        }
        var k := Min(geo.rest, |rest|);
        assert Pieces(rest, geo.rest) == [rest[..k]] + Pieces(rest[k..], geo.rest) by {
          assert k == |rest| ==> rest[..k] == rest;
        }
        chain, free := chain + [rest[..k]], free - 1;
        rest := rest[k..];
      }
      ok := true;
    }

    method WakeListener()
      modifies this`sem
      ensures Abs() == Wake(old(Abs()))
    {
      if sem == 0 {
        sem := 1;
      }
    }

    /** The part of the receive callback behind the repeat filter; its two error returns keep their blocks for good. */
    method TakeIn(f: RxFrame, env: Env)
      requires Valid()
      modifies `lastAddress, `lastSeqNum, `free, `queue, `kept, `sem
      ensures Valid() && Abs() == Accept(old(Abs()), f, env)
    {
      var head := f.head;
      lastAddress, lastSeqNum := head.src, head.seqNum;
      ghost var seen := Abs();
      var chain, ok := BuildChain(f.payload, env.grant);
      if chain != [] {
        if !ok || !env.putOk {
          kept := kept + |chain|;
          assert Abs() == Keep(seen, |chain|);
          return;
        }
        BlocksInAppend(queue, chain);
        queue := queue + [chain];
      }
      WakeListener();
    }

    method RxComplete(f: RxFrame, env: Env) returns (handled: bool)
      requires Valid()
      modifies this
      ensures Valid() && Abs() == Step(old(Abs()), Rx(f, env))
      ensures handled <==> f.fctrl == 0x88C1 && f.head.code >= 0x6003
    {
      if deadline != 0 {
        rxTimeout := TimeoutAt(deadline, f.timestamp);
      }
      if f.fctrl != FRAME_CONTROL {
        return false;
      }
      var head := f.head;
      if head.code < BACKHAUL_CODE {
        return false;
      }
      if (head.dst != myAddress && head.dst != BROADCAST) || role == Invalid || role == Producer {
        WakeListener();
        return true;
      }
      if f.len >= SENSOR_SIZE {
        if head.src == lastAddress && head.seqNum == lastSeqNum {
          return true;
        }
        TakeIn(f, env);
        return true;
      }
      WakeListener();
      return true;
    }

    /** The receive callback on the raw receive buffer. */
    method OnReceive(fctrl: U16, timestamp: U64, len: U16, buf: seq<Byte>, env: Env) returns (handled: bool)
      requires Valid() && HEAD_SIZE <= |buf| && len <= |buf|
      modifies this
      ensures Valid() && Abs() == Step(old(Abs()), Rx(FrameIn(fctrl, timestamp, len, buf), env))
      ensures handled <==> fctrl == 0x88C1 && HeaderOf(buf[..11]).code >= 0x6003
    {
      handled := RxComplete(FrameIn(fctrl, timestamp, len, buf), env);
    }

    method TxComplete(fctrl: U16) returns (handled: bool)
      requires Valid()
      modifies this`sem
      ensures Valid() && Abs() == Step(old(Abs()), Tx(fctrl))
      ensures handled <==> fctrl == 0x88C1 && deadline == 0
    {
      if fctrl != FRAME_CONTROL || deadline != 0 {
        return false;
      }
      WakeListener();
      return true;
    }

    method LocalSend(data: seq<Byte>, env: Env) returns (ok: bool)
      requires Valid()
      modifies this`free, this`queue
      ensures Valid() && Abs() == Step(old(Abs()), Local(data, env))
      ensures ok <==> |queue| == |old(queue)| + 1
    {
      var chain, built := BuildChain(data[..|data| % 0x8000], env.grant);
      if !built || !env.putOk {
        free := free + |chain|;
        return false;
      }
      BlocksInAppend(queue, chain);
      queue := queue + [chain];
      return true;
    }

    method DrainHead()
      requires Valid() && queue != []
      modifies `free, `queue, `printed
      ensures Valid() && Abs() == DrainStep(old(Abs()))
    {
      var chain := queue[0];
      queue := queue[1..];
      if role == Bridge {
        printed := printed + [CopyOut(Join(chain))];
      }
      free := free + |chain|;
    }

    method Drain()
      requires Valid()
      modifies `free, `queue, `printed
      ensures Valid() && Abs() == Drained(old(Abs()))
      ensures queue == [] && free == total - kept
    {
      while queue != []
        invariant Valid() && Drained(Abs()) == Drained(old(Abs()))
        invariant kept == old(kept)
        decreases |queue|
      {
        DrainHead();
      }
    }

    // The blocking listen call, cut where a callback can run in between.

    method ListenEnter(start: U64, window: U16)
      requires Valid() && listener == Idle
      modifies this
      ensures Valid() && Abs() == Step(old(Abs()), Enter(start, window))
    {
      listener, this.start, this.window := Entered, start, window;
    }

    method ListenAcquire()
      requires Valid() && listener == Entered && sem > 0
      modifies this
      ensures Valid() && Abs() == Step(old(Abs()), Acquire)
    {
      listener, sem := Acquired, sem - 1;
    }

    method ListenSetDeadline()
      requires Valid() && listener == Acquired
      modifies this
      ensures Valid() && Abs() == Step(old(Abs()), SetDeadline)
    {
      deadline := Deadline(start, window);
      listener := Dated;
    }

    method ListenArm()
      requires Valid() && listener == Dated
      modifies this
      ensures Valid() && Abs() == Step(old(Abs()), Arm)
    {
      rxTimeout := window;
      listener := Armed;
    }

    method ListenStart(error: bool)
      requires Valid() && listener == Armed
      modifies this
      ensures Valid() && Abs() == Step(old(Abs()), StartRx(error))
    {
      if error {
        sem := sem + 1;
      }
      listener := Started;
    }

    method ListenAcquireAgain()
      requires Valid() && listener == Started && sem > 0
      modifies this
      ensures Valid() && Abs() == Step(old(Abs()), AcquireAgain)
    {
      listener, sem := Woken, sem - 1;
    }

    method ListenRelease()
      requires Valid() && listener == Woken
      modifies this
      ensures Valid() && Abs() == Step(old(Abs()), Release)
    {
      listener, sem := Released, sem + 1;
    }

    method ListenDisarm()
      requires Valid() && listener == Released
      modifies this
      ensures Valid() && Abs() == Step(old(Abs()), Disarm)
    {
      listener, deadline := Idle, 0;
    }
  }

  function Initial(geo: Geometry, numBlocks: nat, address: U16): (s: State) {
    State(geo, Invalid, address, 1, Idle, 0, 0, 0, 0, 0, 0, numBlocks, [], 0, [])
  }
}
