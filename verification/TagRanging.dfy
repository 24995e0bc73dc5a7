/** Tags that range with all anchors in their own TDMA slots, and the mask of anchors that shall answer. */
module TagRanging {
  import opened Bytes
  import Arith

  const UNJOINED: U16 := 0xffff

  // ---- the response mask ----

  function Pow2(n: nat): (p: nat)
    ensures p >= 1
  {
    if n == 0 then 1 else 2 * Pow2(n - 1)
  }

  /** Bit k of a word. */
  function BitAt(mask: nat, k: nat): (b: nat)
    ensures b < 2
    decreases k
  {
    if k == 0 then mask % 2 else BitAt(mask / 2, k - 1)
  }

  /** Bitwise or with the single bit i. */
  function OrBit(mask: nat, i: nat): (m: nat) {
    if BitAt(mask, i) == 1 then mask else mask + Pow2(i)
  }

  /** It sets that bit and no other. */
  lemma {:induction false} OrBitSets(mask: nat, i: nat, k: nat)
    ensures BitAt(OrBit(mask, i), k) == if k == i then 1 else BitAt(mask, k)
    decreases i
  {
    if i > 0 && k > 0 {
      OrBitSets(mask / 2, i - 1, k - 1);
      assert (mask + 2 * Pow2(i - 1)) / 2 == mask / 2 + Pow2(i - 1);
    } else if i == 0 && k > 0 {
      assert mask % 2 == 0 ==> (mask + 1) / 2 == mask / 2;
    }
  }

  lemma {:induction false} Pow2Monotone(a: nat, b: nat)
    requires a <= b
    ensures Pow2(a) <= Pow2(b)
    decreases b
  {
    if a < b {
      Pow2Monotone(a, b - 1);
    }
  }

  /** The bits of 2^e - 2^s: exactly those from s up to e - 1. */
  lemma {:induction false} BitsOfRange(s: nat, e: nat, k: nat)
    requires s <= e
    ensures Pow2(s) <= Pow2(e)
    ensures BitAt(Pow2(e) - Pow2(s), k) == if s <= k < e then 1 else 0
    decreases k
  {
    Pow2Monotone(s, e);
    if k > 0 {
      var s1, e1 := if s == 0 then 0 else s - 1, if e == 0 then 0 else e - 1;
      assert (Pow2(e) - Pow2(s)) / 2 == Pow2(e1) - Pow2(s1);
      BitsOfRange(s1, e1, k - 1);
    }
  }

  lemma RangeBits(mask: nat, s: nat, e: nat)
    requires s <= e && mask == Pow2(e) - Pow2(s)
    ensures forall k: nat {:trigger BitAt(mask, k)} :: BitAt(mask, k) == if s <= k < e then 1 else 0
  {
    forall k: nat ensures BitAt(mask, k) == if s <= k < e then 1 else 0 {
      BitsOfRange(s, e, k);
    }
  }

  /** The mask that asks the anchors from slot id `first` to slot id `last` to answer, in a 32-bit word. */
  method ResponseMask(first: nat, last: nat) returns (mask: nat)
    requires last < 32
    ensures first <= last ==> mask == Pow2(last + 1) - Pow2(first)
    ensures forall k: nat {:trigger BitAt(mask, k)} :: BitAt(mask, k) == if first <= k <= last then 1 else 0
    ensures mask < Pow2(32)
  {
    mask := 0;
    var i := first;
    while i <= last
      invariant first <= i <= last + 1 || (i == first && last < first)
      invariant Pow2(first) <= Pow2(i) && mask == Pow2(i) - Pow2(first)
    {
      BitsOfRange(first, i, i);
      mask := OrBit(mask, i);
      i := i + 1;
      Pow2Monotone(first, i);
    }
    RangeBits(mask, first, i);
    if first <= last {
      Pow2Monotone(last + 1, 32);
    }
  }

  // ---- the slot callback ----

  datatype Handler = Empty | Pan | Survey | Ranging

  /** `synced`: the clock semaphore is free. `epoch`: the local epoch is set. */
  datatype Device = Device(anchor: bool, slotId: U16, synced: bool, configPending: bool, epoch: bool, queued: nat)

  datatype Action = Idle | ManagementFrame | Listen | Request

  /** Slots in which queued management frames go first. */
  predicate ManagementSlot(i: int, nslots: int) {
    i > 6 && i < nslots - 6 && i % 4 == 0
  }

  function OnSlot(d: Device, i: nat, nslots: nat, ntags: nat): (r: (Device, Action))
    requires ntags > 0
  {
    if !d.synced then (d, Idle)
    else if d.configPending then (d.(configPending := false), Idle)
    else if !d.epoch || d.slotId == UNJOINED then (d, Idle)
    else if ManagementSlot(i, nslots) && d.queued > 0 then (d.(queued := d.queued - 1), ManagementFrame)
    else if d.anchor then (d, Listen)
    else (d, if i % ntags == d.slotId then Request else Idle)
  }

  class RangingNode {
    const anchor: bool
    var slotId: U16
    var synced: bool
    var configPending: bool
    var epoch: bool
    var queued: nat
    const slots: array<Handler>

    function Abs(): (d: Device)
      reads this
    {
      Device(anchor, slotId, synced, configPending, epoch, queued)
    }

    /** Slots 1 and 2 go to the PAN; with the survey its two slots and a spare one follow; the rest is for ranging. */
    constructor (anchor: bool, nslots: nat, survey: bool)
      requires (if survey then 5 else 3) <= nslots < 0x1_0000
      ensures Abs() == Device(anchor, 0xffff, false, false, false, 0)
      ensures slots.Length == nslots
      ensures forall i :: 0 <= i < nslots ==>
        (slots[i] == Ranging <==> i >= if survey then 6 else 3)
      ensures slots[0] == Empty && slots[1] == Pan && slots[2] == Pan
      ensures survey ==> slots[3] == Survey && slots[4] == Survey && (nslots > 5 ==> slots[5] == Empty)
    {
      this.anchor, slotId := anchor, UNJOINED;
      synced, configPending, epoch, queued := false, false, false, 0;
      slots := new Handler[nslots](i => Empty);
      new;
      slots[1] := Pan;
      slots[2] := Pan;
      var first := 3;
      if survey {
        slots[3] := Survey;
        slots[4] := Survey;
        first := 6;
      }
      var i := first;
      while i < nslots
        invariant first <= i
        invariant Abs() == Device(anchor, UNJOINED, false, false, false, 0)
        invariant forall k :: 0 <= k < nslots ==> (slots[k] == Ranging <==> first <= k < i)
        invariant slots[0] == Empty && slots[1] == Pan && slots[2] == Pan
        invariant survey ==> slots[3] == Survey && slots[4] == Survey && (nslots > 5 ==> slots[5] == Empty)
      {
        slots[i] := Ranging;
        i := i + 1;
      }
    }

    method SlotCb(i: nat, ntags: nat, firstId: nat, lastId: nat) returns (action: Action, mask: nat)
      requires ntags > 0 && lastId < 32
      modifies this
      ensures (Abs(), action) == OnSlot(old(Abs()), i, slots.Length, ntags)
      ensures forall k: nat {:trigger BitAt(mask, k)} ::
        BitAt(mask, k) == if action == Request && firstId <= k <= lastId then 1 else 0
    {
      RangeBits(0, 0, 0);
      mask := 0;
      if !synced {
        return Idle, 0;
      }
      if configPending {
        configPending := false;
        return Idle, 0;
      }
      if !epoch || slotId == UNJOINED {
        return Idle, 0;
      }
      if i > 6 && i < slots.Length - 6 && i % 4 == 0 {
        if queued > 0 {
          queued := queued - 1;
          return ManagementFrame, 0;
        }
      }
      if anchor {
        return Listen, 0;
      }
      if i % ntags != slotId {
        return Idle, 0;
      }
      mask := ResponseMask(firstId, lastId);
      return Request, mask;
    }
  }

  /** The callback in full. Without its clock the device does nothing; a pending configuration takes the slot; without
      an epoch or an id it does nothing; in the management slots a queued frame goes first; then an anchor listens in
      every slot and a tag asks in its own. */
  lemma SlotExact(d: Device, i: nat, nslots: nat, ntags: nat)
    requires ntags > 0
    ensures var (e, action) := OnSlot(d, i, nslots, ntags);
      && e == d.(configPending := e.configPending, queued := e.queued)
      && (e.configPending <==> d.configPending && !d.synced)
      && (action == ManagementFrame
          <==> && d.synced && !d.configPending && d.epoch && d.slotId != 0xffff
               && 6 < i < nslots - 6 && i % 4 == 0 && d.queued > 0)
      && e.queued == d.queued - (if action == ManagementFrame then 1 else 0)
      && (action == Listen
          <==> && d.synced && !d.configPending && d.epoch && d.slotId != 0xffff
               && d.anchor && action != ManagementFrame)
      && (action == Request
          <==> && d.synced && !d.configPending && d.epoch && d.slotId != 0xffff
               && !d.anchor && action != ManagementFrame && i % ntags == d.slotId)
  {
  }

  /** With distinct slot ids at most one tag asks for ranges in any slot, whatever state the devices are in. */
  lemma OneTagAsks(devices: seq<Device>, i: nat, nslots: nat, ntags: nat, j: nat, k: nat)
    requires ntags > 0 && j < k < |devices|
    requires devices[j].slotId == devices[k].slotId ==>
      devices[j].anchor || devices[k].anchor || devices[j].slotId == 0xffff
    ensures !(OnSlot(devices[j], i, nslots, ntags).1 == Request && OnSlot(devices[k], i, nslots, ntags).1 == Request)
  {
  }

  /** A joined tag with a clock, no configuration to apply and no management frames. */
  predicate Ready(d: Device) {
    !d.anchor && d.synced && !d.configPending && d.epoch && d.slotId != UNJOINED
  }

  /** A ready tag asks in its own slots, and loses one exactly to a queued management frame. */
  lemma AsksIff(d: Device, i: nat, nslots: nat, ntags: nat)
    requires ntags > 0 && Ready(d)
    ensures OnSlot(d, i, nslots, ntags).1 == Request
       <==> i % ntags == d.slotId && !(6 < i < nslots - 6 && i % 4 == 0 && d.queued > 0)
  {
  }

  // ---- service ----

  /** Where in a window of n slots from slot `from` on the slots of tag `id` are. */
  function OwnSlot(from: nat, n: nat, id: nat): (i: nat)
    requires id < n
    ensures from <= i < from + n
  {
    var first := from % n;
    if id >= first then from + id - first else from + id + n - first
  }

  lemma OwnSlotIff(from: nat, n: nat, id: nat, i: nat)
    requires id < n && from <= i < from + n
    ensures i % n == id <==> i == OwnSlot(from, n, id)
  {
    var first, x, q := from % n, i - from, from / n;
    assert from == n * q + first;
    if first + x < n {
      Arith.ModOf(i, n, q, first + x);
    } else {
      assert n * (q + 1) == n * q + n;
      Arith.ModOf(i, n, q + 1, first + x - n);
    }
  }

  /** The ranging slots in the order in which they come: those from `first` up, superframe after superframe. */
  function SlotAt(first: nat, nslots: nat, t: nat): (i: nat)
    requires first < nslots
    ensures first <= i < nslots
  {
    first + t % (nslots - first)
  }

  /** Whose turn the t-th ranging slot is. */
  function Owner(first: nat, nslots: nat, ntags: nat, t: nat): (id: nat)
    requires ntags > 0 && first < nslots
    ensures id < ntags
  {
    SlotAt(first, nslots, t) % ntags
  }

  function Owners(first: nat, nslots: nat, ntags: nat, t: nat, len: nat): (ids: seq<nat>)
    requires ntags > 0 && first < nslots
    ensures |ids| == len && forall k :: 0 <= k < len ==> ids[k] == Owner(first, nslots, ntags, t + k)
  {
    seq<nat>(len, k requires 0 <= k < len => Owner(first, nslots, ntags, t + k))
  }

  function Count(id: nat, ids: seq<nat>): (n: nat) {
    if ids == [] then 0 else (if ids[0] == id then 1 else 0) + Count(id, ids[1..])
  }

  lemma {:induction false} CountAppend(id: nat, a: seq<nat>, b: seq<nat>)
    ensures Count(id, a + b) == Count(id, a) + Count(id, b)
  {
    if a == [] {
      assert a + b == b;
    } else {
      CountAppend(id, a[1..], b);
      assert (a + b)[1..] == a[1..] + b;
    }
  }

  /** Requests that a tag makes in `len` consecutive ranging slots, the first of them the t-th. */
  function Requests(d: Device, first: nat, nslots: nat, ntags: nat, t: nat, len: nat): (n: nat)
    requires ntags > 0 && first < nslots
    decreases len
  {
    if len == 0 then 0
    else
      var (e, action) := OnSlot(d, SlotAt(first, nslots, t), nslots, ntags);
      (if action == Request then 1 else 0) + Requests(e, first, nslots, ntags, t + 1, len - 1)
  }

  lemma {:induction false} RequestsAreTurns(d: Device, first: nat, nslots: nat, ntags: nat, t: nat, len: nat)
    requires ntags > 0 && first < nslots && Ready(d) && d.queued == 0
    ensures Requests(d, first, nslots, ntags, t, len) == Count(d.slotId, Owners(first, nslots, ntags, t, len))
    decreases len
  {
    if len > 0 {
      AsksIff(d, SlotAt(first, nslots, t), nslots, ntags);
      RequestsAreTurns(d, first, nslots, ntags, t + 1, len - 1);
      assert Owners(first, nslots, ntags, t, len)[1..] == Owners(first, nslots, ntags, t + 1, len - 1);
    }
  }

  /** Owners of slots that are numbered from `base` on without a break. */
  function Line(base: nat, ntags: nat, len: nat): (ids: seq<nat>)
    requires ntags > 0
    ensures |ids| == len && forall k :: 0 <= k < len ==> ids[k] == (base + k) % ntags
  {
    seq(len, k requires 0 <= k < len => (base + k) % ntags)
  }

  function Within(i: nat, from: nat, len: nat): (n: nat) {
    if from <= i < from + len then 1 else 0
  }

  lemma {:induction false} CountLine(id: nat, base: nat, ntags: nat, off: nat, len: nat)
    requires id < ntags && off + len <= ntags
    ensures Count(id, Line(base + off, ntags, len)) == Within(OwnSlot(base, ntags, id), base + off, len)
    decreases len
  {
    if len > 0 {
      OwnSlotIff(base, ntags, id, base + off);
      CountLine(id, base, ntags, off + 1, len - 1);
      assert Line(base + off, ntags, len)[1..] == Line(base + (off + 1), ntags, len - 1);
    }
  }

  lemma SlotInside(first: nat, nslots: nat, t: nat, k: nat)
    requires first < nslots && t % (nslots - first) + k < nslots - first
    ensures SlotAt(first, nslots, t + k) == SlotAt(first, nslots, t) + k
  {
    var n := nslots - first;
    Arith.ModOf(t + k, n, t / n, t % n + k);
  }

  /** Inside one superframe the owners follow the slot numbers. */
  lemma OwnersInside(first: nat, nslots: nat, ntags: nat, t: nat, len: nat)
    requires ntags > 0 && first < nslots && t % (nslots - first) + len <= nslots - first
    ensures Owners(first, nslots, ntags, t, len) == Line(SlotAt(first, nslots, t), ntags, len)
  {
    forall k | 0 <= k < len
      ensures Owners(first, nslots, ntags, t, len)[k] == Line(SlotAt(first, nslots, t), ntags, len)[k]
    {
      SlotInside(first, nslots, t, k);
    }
  }

  lemma Multiply(a: nat, b: nat, c: nat)
    ensures a * b * c == a * (b * c)
  {
  }

  lemma Distribute(a: nat, b: nat, c: nat)
    ensures a * (b + c) == a * b + a * c
  {
  }

  /** A multiple of a multiple of m does not change a remainder by m. */
  lemma DropTurns(i: nat, n: nat, q: nat, m: nat)
    requires m > 0 && n % m == 0
    ensures (n * q + i) % m == i % m
  {
    var c := n / m;
    assert n == m * c;
    Multiply(m, c, q);
    Distribute(m, c * q, i / m);
    Arith.ModOf(n * q + i, m, c * q + i / m, i % m);
  }

  /** If the ranging slots are a multiple of the tags, the owners follow the count of the slots for ever. */
  lemma OwnersAlways(first: nat, nslots: nat, ntags: nat, t: nat, len: nat)
    requires ntags > 0 && first < nslots && (nslots - first) % ntags == 0
    ensures Owners(first, nslots, ntags, t, len) == Line(first + t, ntags, len)
  {
    forall k | 0 <= k < len ensures Owners(first, nslots, ntags, t, len)[k] == Line(first + t, ntags, len)[k] {
      OwnerAlways(first, nslots, ntags, t + k);
    }
  }

  lemma OwnerAlways(first: nat, nslots: nat, ntags: nat, t: nat)
    requires ntags > 0 && first < nslots && (nslots - first) % ntags == 0
    ensures Owner(first, nslots, ntags, t) == (first + t) % ntags
  {
    var n := nslots - first;
    DropTurns(first + t % n, n, t / n, ntags);
    assert n * (t / n) + (first + t % n) == first + t;
  }

  /** Turns that a tag id has in a window of as many ranging slots as there are tags. */
  function Served(id: nat, first: nat, nslots: nat, ntags: nat, t: nat): (n: nat)
    requires ntags > 0 && first < nslots
  {
    Count(id, Owners(first, nslots, ntags, t, ntags))
  }

  /** Inside one superframe every window serves every id once. */
  lemma ServedInside(id: nat, first: nat, nslots: nat, ntags: nat, t: nat)
    requires first < nslots && id < ntags && t % (nslots - first) + ntags <= nslots - first
    ensures Served(id, first, nslots, ntags, t) == 1
  {
    OwnersInside(first, nslots, ntags, t, ntags);
    CountLine(id, SlotAt(first, nslots, t), ntags, 0, ntags);
  }

  lemma ServedAcross(id: nat, first: nat, nslots: nat, ntags: nat, t: nat)
    requires first < nslots && id < ntags && (nslots - first) % ntags == 0
    ensures Served(id, first, nslots, ntags, t) == 1
  {
    OwnersAlways(first, nslots, ntags, t, ntags);
    CountLine(id, first + t, ntags, 0, ntags);
  }

  lemma SameRemainder(x: nat, y: nat, m: nat)
    requires m > 0 && y <= x && x % m == y % m
    ensures (x - y) % m == 0
  {
    var a, b := x / m, y / m;
    assert x - y == m * a - m * b;
    if a < b {
      Distribute(m, a, b - a);
      Arith.AtLeast(m, b - a);
    } else {
      Distribute(m, b, a - b);
      Arith.ModOf(x - y, m, a - b, 0);
    }
  }

  lemma OneMore(x: nat, m: nat)
    requires m > 0
    ensures (x + m) % m == x % m
  {
    Distribute(m, x / m, 1);
    Arith.ModOf(x + m, m, x / m + 1, x % m);
  }

  lemma Windows(first: nat, nslots: nat, ntags: nat, t: nat, a: nat, b: nat)
    requires ntags > 0 && first < nslots
    ensures Owners(first, nslots, ntags, t, a + b)
         == Owners(first, nslots, ntags, t, a) + Owners(first, nslots, ntags, t + a, b)
  {
  }

  /** The second superframe starts as the first. */
  lemma FirstOwners(first: nat, nslots: nat, ntags: nat, len: nat)
    requires ntags > 0 && first < nslots && len <= nslots - first
    ensures Owners(first, nslots, ntags, nslots - first, len) == Line(first, ntags, len)
  {
    Arith.ModOf(nslots - first, nslots - first, 1, 0);
    OwnersInside(first, nslots, ntags, nslots - first, len);
  }

  /** How the first superframe ends. */
  lemma LastCount(id: nat, first: nat, nslots: nat, ntags: nat, a: nat)
    requires id < ntags && first < nslots && 0 < a <= ntags && a <= nslots - first
    ensures Count(id, Owners(first, nslots, ntags, nslots - first - a, a))
         == Within(OwnSlot(nslots - a, ntags, id), nslots - a, a)
  {
    var n := nslots - first;
    Arith.ModOf(n - a, n, 0, n - a);
    OwnersInside(first, nslots, ntags, n - a, a);
    CountLine(id, nslots - a, ntags, 0, a);
  }

  /** How the second one begins. */
  lemma FirstCount(id: nat, first: nat, nslots: nat, ntags: nat, b: nat)
    requires id < ntags && first < nslots && b <= ntags && b <= nslots - first
    ensures Count(id, Owners(first, nslots, ntags, nslots - first, b)) == Within(OwnSlot(first, ntags, id), first, b)
  {
    FirstOwners(first, nslots, ntags, b);
    CountLine(id, first, ntags, 0, b);
  }

  /** A window with its first a slots in one superframe and the rest in the next: both parts count on their own. */
  lemma ServedAtBoundary(id: nat, first: nat, nslots: nat, ntags: nat, a: nat)
    requires id < ntags && first < nslots && 0 < a <= ntags <= nslots - first
    ensures Served(id, first, nslots, ntags, nslots - first - a)
         == Within(OwnSlot(nslots - a, ntags, id), nslots - a, a) + Within(OwnSlot(first, ntags, id), first, ntags - a)
  {
    LastCount(id, first, nslots, ntags, a);
    FirstCount(id, first, nslots, ntags, ntags - a);
    SplitCount(id, first, nslots, ntags, nslots - first - a, a, ntags - a);
  }

  lemma SplitCount(id: nat, first: nat, nslots: nat, ntags: nat, t: nat, a: nat, b: nat)
    requires ntags > 0 && first < nslots
    ensures Count(id, Owners(first, nslots, ntags, t, a + b))
         == Count(id, Owners(first, nslots, ntags, t, a)) + Count(id, Owners(first, nslots, ntags, t + a, b))
  {
    Windows(first, nslots, ntags, t, a, b);
    CountAppend(id, Owners(first, nslots, ntags, t, a), Owners(first, nslots, ntags, t + a, b));
  }

  lemma LastOwner(first: nat, nslots: nat, ntags: nat)
    requires 0 < ntags < nslots - first && (nslots - first) % ntags != 0
    ensures (nslots - 1) % ntags != (first + ntags - 1) % ntags
  {
    if (nslots - 1) % ntags == (first + ntags - 1) % ntags {
      SameRemainder(nslots - 1, first + ntags - 1, ntags);
      OneMore(nslots - first - ntags, ntags);
    }
  }

  /** With more ranging slots than tags, the window that starts with the last slot of a superframe leaves one tag
      out. */
  lemma LeftOut(first: nat, nslots: nat, ntags: nat) returns (id: nat)
    requires 0 < ntags < nslots - first && (nslots - first) % ntags != 0
    ensures id < ntags && Served(id, first, nslots, ntags, nslots - first - 1) == 0
  {
    id := (first + ntags - 1) % ntags;
    LastOwner(first, nslots, ntags);
    OwnSlotIff(nslots - 1, ntags, id, nslots - 1);
    OwnSlotIff(first, ntags, id, first + ntags - 1);
    ServedAtBoundary(id, first, nslots, ntags, 1);
  }

  /** With fewer ranging slots than tags, the first slot comes twice in the first window. */
  lemma ServedTwice(first: nat, nslots: nat, ntags: nat) returns (id: nat)
    requires 0 < nslots - first < ntags
    ensures id < ntags && Served(id, first, nslots, ntags, 0) >= 2
  {
    var n := nslots - first;
    id := first % ntags;
    Arith.ModOf(n, n, 1, 0);
    Arith.ModOf(0, n, 0, 0);
    SplitCount(id, first, nslots, ntags, 0, n, ntags - n);
    assert Owner(first, nslots, ntags, 0) == id && Owner(first, nslots, ntags, n) == id;
    HeadCounts(id, Owners(first, nslots, ntags, 0, n));
    HeadCounts(id, Owners(first, nslots, ntags, n, ntags - n));
  }

  lemma HeadCounts(id: nat, ids: seq<nat>)
    requires |ids| > 0 && ids[0] == id
    ensures Count(id, ids) >= 1
  {
  }

  /** Every window, also across superframes, serves every id once. */
  ghost predicate AlwaysServed(first: nat, nslots: nat, ntags: nat)
    requires ntags > 0 && first < nslots
  {
    forall id: nat, t: nat :: id < ntags ==> Served(id, first, nslots, ntags, t) == 1
  }

  /** That is so exactly when the ranging slots of a superframe are a multiple of the tags. */
  lemma AlwaysServedIff(first: nat, nslots: nat, ntags: nat)
    requires ntags > 0 && first < nslots
    ensures AlwaysServed(first, nslots, ntags) <==> (nslots - first) % ntags == 0
  {
    var n := nslots - first;
    if n % ntags == 0 {
      forall id: nat, t: nat | id < ntags ensures Served(id, first, nslots, ntags, t) == 1 {
        ServedAcross(id, first, nslots, ntags, t);
      }
    } else if n < ntags {
      var id := ServedTwice(first, nslots, ntags);
      assert Served(id, first, nslots, ntags, 0) != 1;
    } else {
      Arith.ModOf(ntags, ntags, 1, 0);
      var id := LeftOut(first, nslots, ntags);
      assert Served(id, first, nslots, ntags, n - 1) != 1;
    }
  }

  /** A ready tag without management frames asks exactly once in every NRNG_NTAGS consecutive ranging slots that lie
      in one superframe, and in all such windows if the ranging slots are a multiple of the tags. */
  lemma EveryTagServed(d: Device, first: nat, nslots: nat, ntags: nat, t: nat)
    requires first < nslots && Ready(d) && d.queued == 0 && d.slotId < ntags
    requires t % (nslots - first) + ntags <= nslots - first || (nslots - first) % ntags == 0
    ensures Requests(d, first, nslots, ntags, t, ntags) == 1
  {
    RequestsAreTurns(d, first, nslots, ntags, t, ntags);
    if (nslots - first) % ntags == 0 {
      ServedAcross(d.slotId, first, nslots, ntags, t);
    } else {
      ServedInside(d.slotId, first, nslots, ntags, t);
    }
  }

  /** Ten slots, four tags, no survey: the ranging slots 8, 9, 3, 4 are two of tag 0 and none of tag 2. */
  lemma BoundaryWitness()
    ensures Served(0, 3, 10, 4, 5) == 2 && Served(2, 3, 10, 4, 5) == 0
  {
    ServedAtBoundary(0, 3, 10, 4, 2);
    ServedAtBoundary(2, 3, 10, 4, 2);
  }

  /** A tag whose slot id is not below NRNG_NTAGS is never served. */
  lemma {:induction false} LateTagStarves(d: Device, first: nat, nslots: nat, ntags: nat, t: nat, len: nat)
    requires ntags > 0 && first < nslots && d.slotId >= ntags
    ensures Requests(d, first, nslots, ntags, t, len) == 0
    decreases len
  {
    if len > 0 {
      var i := SlotAt(first, nslots, t);
      assert i % ntags < ntags;
      LateTagStarves(OnSlot(d, i, nslots, ntags).0, first, nslots, ntags, t + 1, len - 1);
    }
  }
}
