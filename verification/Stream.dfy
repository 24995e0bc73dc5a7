/** The streaming demo: packets numbered modulo 256, a lossy channel, and a receiver that counts what it got and
    missed. */
module Stream {
  import opened Bytes

  /** The checksum is not part of this model; any function of the bytes behind it will do. */
  type Checksum = seq<Byte> -> Byte

  const BURST: nat := 18
  const WRAP: nat := 0x1_0000_0000

  // ---- sender ----

  /** The send buffer t with index idx and the checksum that goes with it. */
  function Numbered(crc: Checksum, t: seq<Byte>, idx: Byte): (p: seq<Byte>)
    requires |t| >= 2
    ensures |p| == |t| && p[1] == idx && p[2..] == t[2..] && p[0] == crc(p[1..])
  {
    var tail := [idx] + t[2..];
    var p := [crc(tail)] + tail;
    assert p[1..] == tail;
    p
  }

  function Index(t: seq<Byte>, k: nat): (idx: Byte)
    requires |t| >= 2
  {
    (t[1] + k) % 0x100
  }

  /** The buffer after k packets. */
  function Advanced(crc: Checksum, t: seq<Byte>, k: nat): (u: seq<Byte>)
    requires |t| >= 2
    ensures |u| == |t| && u[1] == Index(t, k)
  {
    if k == 0 then t else Numbered(crc, t, Index(t, k))
  }

  /** The packets of one timer event of which k got a buffer. */
  function Burst(crc: Checksum, t: seq<Byte>, k: nat): (ps: seq<seq<Byte>>)
    requires |t| >= 2
    ensures |ps| == k
  {
    seq(k, i requires 0 <= i < k => Numbered(crc, t, Index(t, i + 1)))
  }

  class Transmitter {
    const crc: Checksum
    const test: array<Byte>

    constructor (crc: Checksum, size: nat)
      requires size >= 2
      ensures this.crc == crc && fresh(test) && test.Length == size
      ensures forall i :: 0 <= i < size ==> test[i] == i % 0x100
    {
      this.crc := crc;
      test := new Byte[size](i => i % 0x100);
    }

    method Renumber()
      requires test.Length >= 2
      modifies test
      ensures test[..] == Numbered(crc, old(test[..]), Index(old(test[..]), 1))
    {
      ghost var t := test[..];
      var next: int := test[1];
      test[1] := (next + 1) % 0x100;
      assert test[1..] == [Index(t, 1)] + t[2..];
      test[0] := crc(test[1..]);
      assert test[1..] == [Index(t, 1)] + t[2..];
    }

    /** One timer event. The loop ends early at the first round without a destination or without a free buffer; `rounds`
        is the number of rounds before that. */
    method StreamTimer(rounds: nat) returns (sent: seq<seq<Byte>>)
      requires test.Length >= 2
      modifies test
      ensures sent == Burst(crc, old(test[..]), Min(18, rounds))
      ensures test[..] == Advanced(crc, old(test[..]), Min(18, rounds))
    {
      ghost var t := test[..];
      sent := [];
      for i := 0 to BURST
        invariant |sent| == i <= rounds
        invariant forall k :: 0 <= k < i ==> sent[k] == Numbered(crc, t, Index(t, k + 1))
        invariant test[..] == Advanced(crc, t, i)
      {
        if i == rounds {
          assert sent == Burst(crc, t, i);
          return;
        }
        Renumber();
        sent := sent + [test[..]];
        NumberedAgain(crc, t, i, Index(t, i + 1));
        IndexAgain(crc, t, i, 1);
      }
      assert sent == Burst(crc, t, BURST);
    }
  }

  /** Everything that a sequence of timer events sends. */
  function Sent(crc: Checksum, t: seq<Byte>, rounds: seq<nat>): (ps: seq<seq<Byte>>)
    requires |t| >= 2
    decreases |rounds|
  {
    if rounds == [] then []
    else
      var k := Min(BURST, rounds[0]);
      Burst(crc, t, k) + Sent(crc, Advanced(crc, t, k), rounds[1..])
  }

  lemma NumberedAgain(crc: Checksum, t: seq<Byte>, k: nat, idx: Byte)
    requires |t| >= 2
    ensures Numbered(crc, Advanced(crc, t, k), idx) == Numbered(crc, t, idx)
  {
  }

  lemma IndexAgain(crc: Checksum, t: seq<Byte>, k: nat, i: nat)
    requires |t| >= 2
    ensures Index(Advanced(crc, t, k), i) == Index(t, k + i)
  {
  }

  /** However the timer events fall, the k-th packet sent carries the first index plus k + 1, modulo 256. */
  lemma {:induction false} SentNumbered(crc: Checksum, t: seq<Byte>, rounds: seq<nat>, k: nat)
    requires |t| >= 2 && k < |Sent(crc, t, rounds)|
    ensures Sent(crc, t, rounds)[k] == Numbered(crc, t, Index(t, k + 1))
    ensures var p := Sent(crc, t, rounds)[k];
      |p| == |t| && p[0] == crc(p[1..]) && p[1] == (t[1] + k + 1) % 0x100 && p[2..] == t[2..]
    decreases |rounds|
  {
    var n := Min(BURST, rounds[0]);
    if k >= n {
      SentNumbered(crc, Advanced(crc, t, n), rounds[1..], k - n);
      IndexAgain(crc, t, n, k - n + 1);
      NumberedAgain(crc, t, n, Index(t, k + 1));
    }
  }

  // ---- receiver ----

  datatype Counters = Counters(test: seq<Byte>, idx: Byte, missed: U32, ok: U32)
  {
    predicate Valid() { |test| >= 2 }
  }

  /** A copy-out that stops at the end of the shorter side. */
  function CopyOver(t: seq<Byte>, data: seq<Byte>): (u: seq<Byte>)
    ensures |u| == |t|
    ensures |data| == |t| ==> u == data
  {
    var n := Min(|t|, |data|);
    data[..n] + t[n..]
  }

  /** How far the received index is ahead of the expected one. */
  function Ahead(got: Byte, idx: Byte): (n: Byte)
    ensures (idx + 1 + n) % 0x100 == got
  {
    (got - (idx + 1) % 0x100) % 0x100
  }

  predicate Intact(crc: Checksum, s: Counters, data: seq<Byte>)
    requires s.Valid()
  {
    var t := CopyOver(s.test, data);
    t[0] == crc(t[1..]) && |data| % 0x1_0000 == |t|
  }

  function Receive(crc: Checksum, s: Counters, data: seq<Byte>): (r: Counters)
    requires s.Valid()
    ensures r.Valid() && |r.test| == |s.test|
  {
    var t := CopyOver(s.test, data);
    if !Intact(crc, s, data) then s.(test := t, idx := t[1])
    else s.(test := t, idx := t[1], ok := (s.ok + 1) % WRAP, missed := (s.missed + Ahead(t[1], s.idx)) % WRAP)
  }

  class Receiver {
    const crc: Checksum
    const test: array<Byte>
    var idx: Byte
    var missed: U32
    var ok: U32

    function Abs(): (s: Counters)
      reads this, test
    {
      Counters(test[..], idx, missed, ok)
    }

    constructor (crc: Checksum, size: nat)
      requires size >= 2
      ensures this.crc == crc && fresh(test) && Abs().Valid() && test.Length == size
      ensures forall i :: 0 <= i < size ==> test[i] == i % 0x100
      ensures idx == 0 && missed == 0 && ok == 0
    {
      this.crc := crc;
      test := new Byte[size](i => i % 0x100);
      idx, missed, ok := 0, 0, 0;
    }

    method TransportCb(data: seq<Byte>) returns (handled: bool)
      requires test.Length >= 2
      modifies this, test
      ensures Abs() == Receive(crc, old(Abs()), data)
      ensures handled
    {
      var len := |data| % 0x1_0000;
      var n := Min(test.Length, |data|);
      forall i | 0 <= i < n {
        test[i] := data[i];
      }
      assert test[..] == CopyOver(old(test[..]), data);
      assert test[1..] == test[..][1..];
      var got, expected: int := test[1], idx;
      idx := (expected + 1) % 0x100;
      if test[0] != crc(test[1..]) || len != test.Length {
        // counted neither as received nor as missed
      } else if test[1] != idx {
        ok := (ok + 1) % WRAP;
        missed := (missed + (got - idx) % 0x100) % WRAP;
      } else {
        ok := (ok + 1) % WRAP;
      }
      idx := test[1];
      return true;
    }
  }

  function ReceiveAll(crc: Checksum, s: Counters, packets: seq<seq<Byte>>): (r: Counters)
    requires s.Valid()
    ensures r.Valid() && |r.test| == |s.test|
    decreases |packets|
  {
    if packets == [] then s else ReceiveAll(crc, Receive(crc, s, packets[0]), packets[1..])
  }

  /** One reception in full: the packet overwrites the front of the buffer, its index is taken over whatever it is,
      and it is counted only with the checksum of what is then in the buffer and with the length of the buffer. */
  lemma ReceiveExact(crc: Checksum, s: Counters, data: seq<Byte>)
    requires s.Valid()
    ensures var r := Receive(crc, s, data); var t := r.test;
      && |t| == |s.test| && (forall i :: 0 <= i < |t| ==> t[i] == if i < |data| then data[i] else s.test[i])
      && r.idx == t[1]
      && (t[0] != crc(t[1..]) || |data| % 0x1_0000 != |t| ==> r.ok == s.ok && r.missed == s.missed)
      && (t[0] == crc(t[1..]) && |data| % 0x1_0000 == |t| ==>
            && r.ok == (s.ok + 1) % 0x1_0000_0000
            && r.missed == (s.missed + (r.idx - s.idx - 1) % 0x100) % 0x1_0000_0000)
  {
    AheadExact(CopyOver(s.test, data)[1], s.idx);
  }

  lemma AheadExact(got: Byte, idx: Byte)
    ensures Ahead(got, idx) == (got - idx - 1) % 0x100
  {
    Shift(got - idx - 1, if idx == 0xff then 1 else 0);
  }

  // ---- accounting ----

  /** The two counters together and the last index agree modulo 256, also across a wrap of either counter. */
  predicate Congruent(s: Counters) {
    (s.ok + s.missed) % 0x100 == s.idx
  }

  lemma WrapKeepsByte(a: nat, b: nat)
    ensures (a % WRAP + b % WRAP) % 0x100 == (a + b) % 0x100
  {
    assert a % WRAP == a - WRAP * (a / WRAP) && b % WRAP == b - WRAP * (b / WRAP);
    assert (a + b - 0x100 * (0x100_0000 * (a / WRAP + b / WRAP))) % 0x100 == (a + b) % 0x100;
  }

  lemma ByteSum(a: nat, b: nat)
    ensures (a + b) % 0x100 == (a % 0x100 + b) % 0x100
  {
  }

  /** One reception keeps the agreement exactly when the packet is intact or repeats the index before it. */
  lemma CongruentStep(crc: Checksum, s: Counters, data: seq<Byte>)
    requires s.Valid() && Congruent(s)
    ensures var r := Receive(crc, s, data);
      Congruent(r) <==> (r.test[0] == crc(r.test[1..]) && |data| % 0x1_0000 == |r.test|) || r.idx == s.idx
  {
    var got := CopyOver(s.test, data)[1];
    if Intact(crc, s, data) {
      WrapKeepsByte(s.ok + 1, s.missed + Ahead(got, s.idx));
      ByteSum(s.ok + s.missed, 1 + Ahead(got, s.idx));
    }
  }

  predicate AllIntact(crc: Checksum, s: Counters, packets: seq<seq<Byte>>)
    requires s.Valid()
    decreases |packets|
  {
    packets == [] || (Intact(crc, s, packets[0]) && AllIntact(crc, Receive(crc, s, packets[0]), packets[1..]))
  }

  /** Whatever intact packets arrive, in whatever order and with whatever gaps, the agreement holds. */
  lemma {:induction false} CongruentAlways(crc: Checksum, s: Counters, packets: seq<seq<Byte>>)
    requires s.Valid() && Congruent(s) && AllIntact(crc, s, packets)
    ensures Congruent(ReceiveAll(crc, s, packets))
    decreases |packets|
  {
    if packets != [] {
      CongruentStep(crc, s, packets[0]);
      CongruentAlways(crc, Receive(crc, s, packets[0]), packets[1..]);
    }
  }

  /** How many packets of a run are counted: those with the checksum and the length of the buffer. */
  function Good(crc: Checksum, s: Counters, packets: seq<seq<Byte>>): (n: nat)
    requires s.Valid()
    decreases |packets|
  {
    if packets == [] then 0
    else
      var r := Receive(crc, s, packets[0]);
      (if r.test[0] == crc(r.test[1..]) && |packets[0]| % 0x1_0000 == |r.test| then 1 else 0)
      + Good(crc, r, packets[1..])
  }

  /** How far the index moves on packets that are not counted. */
  function Drift(crc: Checksum, s: Counters, packets: seq<seq<Byte>>): (d: int)
    requires s.Valid()
    decreases |packets|
  {
    if packets == [] then 0
    else
      var r := Receive(crc, s, packets[0]);
      (if r.test[0] == crc(r.test[1..]) && |packets[0]| % 0x1_0000 == |r.test| then 0 else r.idx - s.idx)
      + Drift(crc, r, packets[1..])
  }

  /** Whatever arrives, damaged packets and packets of any length included: the first counter grows by the number of
      good packets, modulo its width. */
  lemma {:induction false} GoodCounted(crc: Checksum, s: Counters, packets: seq<seq<Byte>>)
    requires s.Valid()
    ensures ReceiveAll(crc, s, packets).ok == (s.ok + Good(crc, s, packets)) % 0x1_0000_0000
    decreases |packets|
  {
    if packets != [] {
      var r := Receive(crc, s, packets[0]);
      ReceiveExact(crc, s, packets[0]);
      GoodCounted(crc, r, packets[1..]);
      WrapAdd(s.ok, if r.ok == s.ok then 0 else 1, Good(crc, r, packets[1..]));
    }
  }

  /** What one reception does to the two counters together, against the index. */
  lemma StepDrift(crc: Checksum, s: Counters, data: seq<Byte>)
    requires s.Valid()
    ensures var r := Receive(crc, s, data);
      var d := if r.test[0] == crc(r.test[1..]) && |data| % 0x1_0000 == |r.test| then 0 else r.idx - s.idx;
      (r.ok + r.missed + d - r.idx) % 0x100 == (s.ok + s.missed - s.idx) % 0x100
  {
    ReceiveExact(crc, s, data);
    var r := Receive(crc, s, data);
    if r.test[0] == crc(r.test[1..]) && |data| % 0x1_0000 == |r.test| {
      CountDrift(s.ok, s.missed, s.idx, r.idx);
    }
  }

  lemma CountDrift(ok: nat, missed: nat, idx: Byte, got: Byte)
    ensures ((ok + 1) % WRAP + (missed + (got - idx - 1) % 0x100) % WRAP - got) % 0x100 == (ok + missed - idx) % 0x100
  {
    var gap := (got - idx - 1) % 0x100;
    WrapKeepsByte(ok + 1, missed + gap);
    var x, y := (ok + 1) % WRAP + (missed + gap) % WRAP, ok + 1 + missed + gap;
    assert x == y + 0x100 * (x / 0x100 - y / 0x100);
    Shift(y - got, x / 0x100 - y / 0x100);
    Shift(ok + missed - idx, -((got - idx - 1) / 0x100));
  }

  lemma {:induction false} RunDrift(crc: Checksum, s: Counters, packets: seq<seq<Byte>>)
    requires s.Valid()
    ensures var r := ReceiveAll(crc, s, packets);
      (r.ok + r.missed + Drift(crc, s, packets) - r.idx) % 0x100 == (s.ok + s.missed - s.idx) % 0x100
    decreases |packets|
  {
    if packets != [] {
      var r := Receive(crc, s, packets[0]);
      StepDrift(crc, s, packets[0]);
      RunDrift(crc, r, packets[1..]);
      var u, rest := ReceiveAll(crc, s, packets), Drift(crc, r, packets[1..]);
      var d := Drift(crc, s, packets) - rest;
      AddDrift(u.ok + u.missed + rest - u.idx, r.ok + r.missed - r.idx, d);
    }
  }

  lemma AddDrift(x: int, y: int, d: int)
    requires x % 0x100 == y % 0x100
    ensures (x + d) % 0x100 == (y + d) % 0x100
  {
    Shift(y + d, x / 0x100 - y / 0x100);
  }

  /** After any run whatever the counters together agree with the index, modulo 256, exactly when the packets that were
      not counted have moved the index by a multiple of 256 in all. */
  lemma CongruentIff(crc: Checksum, s: Counters, packets: seq<seq<Byte>>)
    requires s.Valid() && (s.ok + s.missed) % 0x100 == s.idx
    ensures var r := ReceiveAll(crc, s, packets);
      (r.ok + r.missed) % 0x100 == r.idx <==> Drift(crc, s, packets) % 0x100 == 0
  {
    RunDrift(crc, s, packets);
    var r, d := ReceiveAll(crc, s, packets), Drift(crc, s, packets);
    Shift(0, (s.ok + s.missed) / 0x100);
    assert (r.ok + r.missed + d - r.idx) % 0x100 == 0;
    Agree(r.ok + r.missed, d, r.idx);
  }

  lemma Agree(x: int, d: int, idx: Byte)
    requires (x + d - idx) % 0x100 == 0
    ensures x % 0x100 == idx <==> d % 0x100 == 0
  {
    var q := (x + d - idx) / 0x100;
    if d % 0x100 == 0 {
      Shift(idx, q - d / 0x100);
    }
    if x % 0x100 == idx {
      Shift(0, q - x / 0x100);
    }
  }

  /** Packets that get through, by the number of the send that made them, counting from one. */
  predicate Increasing(got: seq<int>, o: int) {
    got == [] || (o < got[0] && Increasing(got[1..], got[0]))
  }

  function LastOf(got: seq<int>, o: int): (l: int)
    ensures got != [] ==> l == got[|got| - 1]
  {
    if got == [] then o else LastOf(got[1..], got[0])
  }

  /** What an 8-bit index can tell of the gaps. */
  function Missed(got: seq<int>, o: int): (m: int)
  {
    if got == [] then 0 else (got[0] - o - 1) % 0x100 + Missed(got[1..], got[0])
  }

  /** Whole turns of the index that went unseen. */
  function Turns(got: seq<int>, o: int): (n: int) {
    if got == [] then 0 else (got[0] - o - 1) / 0x100 + Turns(got[1..], got[0])
  }

  /** Fewer than 256 packets are lost in every gap. */
  predicate ShortGaps(got: seq<int>, o: int) {
    got == [] || (got[0] - o <= 0x100 && ShortGaps(got[1..], got[0]))
  }

  lemma {:induction false} GapSum(got: seq<int>, o: int)
    requires Increasing(got, o)
    ensures |got| + Missed(got, o) + 0x100 * Turns(got, o) == LastOf(got, o) - o
    ensures 0 <= Missed(got, o) && 0 <= Turns(got, o) && o <= LastOf(got, o)
    ensures Turns(got, o) == 0 <==> ShortGaps(got, o)
    decreases |got|
  {
    if got != [] {
      GapSum(got[1..], got[0]);
    }
  }

  /** The packets `got` of a sender whose first index is 2. */
  function Delivered(crc: Checksum, t: seq<Byte>, got: seq<int>): (ps: seq<seq<Byte>>)
    requires |t| >= 2
    ensures |ps| == |got|
  {
    if got == [] then [] else [Numbered(crc, t, (1 + got[0]) % 0x100)] + Delivered(crc, t, got[1..])
  }

  lemma {:induction false} DeliveredAt(crc: Checksum, t: seq<Byte>, got: seq<int>, k: nat)
    requires |t| >= 2 && k < |got|
    ensures Delivered(crc, t, got)[k] == Numbered(crc, t, (1 + got[k]) % 0x100)
  {
    if k > 0 {
      DeliveredAt(crc, t, got[1..], k - 1);
    }
  }

  lemma Shift(x: int, k: int)
    ensures (x + 0x100 * k) % 0x100 == x % 0x100
  {
  }

  lemma AheadOf(g: int, o: int)
    ensures Ahead((1 + g) % 0x100, (1 + o) % 0x100) == (g - o - 1) % 0x100
  {
    var a, b := (1 + g) % 0x100, (1 + o) % 0x100;
    var qa, qb := (1 + g) / 0x100, (1 + o) / 0x100;
    var c := if b == 0xff then 1 else 0;
    assert (b + 1) % 0x100 == b + 1 - 0x100 * c;
    Shift(a - (b + 1) % 0x100, qa - qb - c);
  }

  lemma ReceiveNumbered(crc: Checksum, s: Counters, t: seq<Byte>, idx: Byte)
    requires s.Valid() && |t| == |s.test| < 0x1_0000
    ensures var p := Numbered(crc, t, idx);
      Receive(crc, s, p) == Counters(p, idx, (s.missed + Ahead(idx, s.idx)) % WRAP, (s.ok + 1) % WRAP)
  {
    var p := Numbered(crc, t, idx);
    assert CopyOver(s.test, p) == p;
    assert Intact(crc, s, p);
  }

  /** The two wrapping counters after the packets `got`. */
  function Tally(ok: U32, missed: U32, got: seq<int>, o: int): (c: (U32, U32))
    decreases |got|
  {
    if got == [] then (ok, missed)
    else Tally((ok + 1) % WRAP, (missed + (got[0] - o - 1) % 0x100) % WRAP, got[1..], got[0])
  }

  lemma ReceiveDelivered(crc: Checksum, s: Counters, t: seq<Byte>, g: int, o: int)
    requires s.Valid() && |t| == |s.test| < 0x1_0000 && s.idx == (1 + o) % 0x100
    ensures var p := Numbered(crc, t, (1 + g) % 0x100);
      Receive(crc, s, p)
        == Counters(p, (1 + g) % 0x100, (s.missed + (g - o - 1) % 0x100) % WRAP, (s.ok + 1) % WRAP)
  {
    AheadOf(g, o);
    ReceiveNumbered(crc, s, t, (1 + g) % 0x100);
  }

  lemma {:induction false} DeliveryTally(crc: Checksum, s: Counters, t: seq<Byte>, got: seq<int>, o: int)
    requires s.Valid() && |t| == |s.test| < 0x1_0000 && s.idx == (1 + o) % 0x100
    ensures var r := ReceiveAll(crc, s, Delivered(crc, t, got));
      r.idx == (1 + LastOf(got, o)) % 0x100 && (r.ok, r.missed) == Tally(s.ok, s.missed, got, o)
    decreases |got|
  {
    if got != [] {
      var p := Numbered(crc, t, (1 + got[0]) % 0x100);
      var r := Receive(crc, s, p);
      ReceiveDelivered(crc, s, t, got[0], o);
      DeliveryTally(crc, r, t, got[1..], got[0]);
      ReceiveNext(crc, s, p, Delivered(crc, t, got[1..]));
    }
  }

  lemma ReceiveNext(crc: Checksum, s: Counters, p: seq<Byte>, packets: seq<seq<Byte>>)
    requires s.Valid()
    ensures ReceiveAll(crc, s, [p] + packets) == ReceiveAll(crc, Receive(crc, s, p), packets)
  {
    assert ([p] + packets)[1..] == packets;
  }

  lemma {:induction false} TallySums(ok: U32, missed: U32, got: seq<int>, o: int)
    ensures 0 <= Missed(got, o)
    ensures Tally(ok, missed, got, o) == ((ok + |got|) % WRAP, (missed + Missed(got, o)) % WRAP)
    decreases |got|
  {
    if got != [] {
      var gap := (got[0] - o - 1) % 0x100;
      TallySums((ok + 1) % WRAP, (missed + gap) % WRAP, got[1..], got[0]);
      WrapAdd(ok, 1, |got| - 1);
      WrapAdd(missed, gap, Missed(got[1..], got[0]));
    }
  }

  lemma WrapAdd(a: nat, b: nat, c: nat)
    ensures ((a + b) % WRAP + c) % WRAP == (a + (b + c)) % WRAP
  {
  }

  /** A run of the whole demo: any timer events, any increasing selection of the packets gets through. */
  predicate Demo(crc: Checksum, t: seq<Byte>, rounds: seq<nat>, packets: seq<seq<Byte>>, got: seq<int>)
    requires |t| >= 2
  {
    && |packets| == |got| && Increasing(got, 0)
    && forall k :: 0 <= k < |got| ==>
         1 <= got[k] <= |Sent(crc, t, rounds)| && packets[k] == Sent(crc, t, rounds)[got[k] - 1]
  }

  predicate PowerUp(s: Counters, t: seq<Byte>) {
    s.idx == 0 && s.ok == 0 && s.missed == 0 && |s.test| == |t| && 2 <= |t| < 0x1_0000 && t[1] == 1
  }

  lemma DemoDelivers(crc: Checksum, t: seq<Byte>, rounds: seq<nat>, packets: seq<seq<Byte>>, got: seq<int>)
    requires |t| >= 2 && t[1] == 1 && Demo(crc, t, rounds, packets, got)
    ensures packets == Delivered(crc, t, got) && Increasing(got, -1)
  {
    forall k | 0 <= k < |got| ensures packets[k] == Delivered(crc, t, got)[k] {
      SentNumbered(crc, t, rounds, got[k] - 1);
      DeliveredAt(crc, t, got, k);
    }
  }

  lemma DemoCounts(crc: Checksum, s: Counters, t: seq<Byte>, rounds: seq<nat>, packets: seq<seq<Byte>>, got: seq<int>)
    requires PowerUp(s, t) && Demo(crc, t, rounds, packets, got)
    ensures Increasing(got, -1)
    ensures ReceiveAll(crc, s, packets).idx == (1 + LastOf(got, -1)) % 0x100
    ensures (ReceiveAll(crc, s, packets).ok, ReceiveAll(crc, s, packets).missed) == Tally(0, 0, got, -1)
  {
    DemoDelivers(crc, t, rounds, packets, got);
    DeliveryTally(crc, s, t, got, -1);
  }

  lemma TallyAccount(got: seq<int>)
    requires Increasing(got, -1)
    ensures var (ok, missed) := Tally(0, 0, got, -1);
      && ok == |got| % 0x1_0000_0000
      && (ok + missed) % 0x1_0000_0000 == (LastOf(got, -1) + 1 - 0x100 * Turns(got, -1)) % 0x1_0000_0000
  {
    TallySums(0, 0, got, -1);
    GapSum(got, -1);
    WrapBoth(|got|, Missed(got, -1));
  }

  lemma TallyExact(got: seq<int>)
    requires Increasing(got, -1) && LastOf(got, -1) + 1 < WRAP
    ensures var (ok, missed) := Tally(0, 0, got, -1);
      && (ok + missed == LastOf(got, -1) + 1 <==> ShortGaps(got, -1))
      && (ShortGaps(got, -1) ==> ok == |got| && missed == LastOf(got, -1) + 1 - |got|)
  {
    TallySums(0, 0, got, -1);
    GapSum(got, -1);
    assert 0 <= |got| < WRAP && 0 <= Missed(got, -1) < WRAP;
  }

  lemma WrapBoth(a: nat, b: nat)
    ensures (a % WRAP + b % WRAP) % WRAP == (a + b) % WRAP
  {
  }

  /** After any run from power-up the first counter is the number of packets that got through, and both together are the
      number of the last one plus one, less 256 for every whole turn of the index that was lost, modulo their width. */
  lemma StreamAccount(crc: Checksum, s: Counters, t: seq<Byte>, rounds: seq<nat>, packets: seq<seq<Byte>>,
                      got: seq<int>)
    requires PowerUp(s, t) && Demo(crc, t, rounds, packets, got)
    ensures var r := ReceiveAll(crc, s, packets);
      && r.ok == |got| % 0x1_0000_0000
      && (r.ok + r.missed) % 0x1_0000_0000 == (LastOf(got, -1) + 1 - 0x100 * Turns(got, -1)) % 0x1_0000_0000
      && r.idx == (1 + LastOf(got, -1)) % 0x100
  {
    DemoCounts(crc, s, t, rounds, packets, got);
    TallyAccount(got);
  }

  /** As long as the counters have not wrapped, they are exact precisely when fewer than 256 packets are lost in
      every gap; the gap in front of the first delivery counts from number -1. */
  lemma StreamExact(crc: Checksum, s: Counters, t: seq<Byte>, rounds: seq<nat>, packets: seq<seq<Byte>>, got: seq<int>)
    requires PowerUp(s, t) && Demo(crc, t, rounds, packets, got) && LastOf(got, -1) + 1 < 0x1_0000_0000
    ensures var r := ReceiveAll(crc, s, packets);
      && (r.ok + r.missed == LastOf(got, -1) + 1 <==> ShortGaps(got, -1))
      && (ShortGaps(got, -1) ==> r.ok == |got| && r.missed == LastOf(got, -1) + 1 - |got|)
  {
    DemoCounts(crc, s, t, rounds, packets, got);
    TallyExact(got);
  }
}
