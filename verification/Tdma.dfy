/** The TDMA schedule of the RTDoA network: anchors and tags fill their slot tables on their own and decide on their own
    who transmits. */
module Tdma {
  import opened Bytes

  const RANGING_SLOT: nat := 31
  const MANAGEMENT_EVERY: nat := 12
  const INITIATORS: nat := 8

  datatype Handler = Empty | Pan | Ranging | Management | Rtdoa

  // ---- slot tables ----

  function SharedHandler(i: nat): (h: Handler) {
    if i % MANAGEMENT_EVERY == 0 then Management else Rtdoa
  }

  function NodeHandler(i: nat): (h: Handler) {
    if i == 0 then Empty else if i == 1 then Pan else if i == RANGING_SLOT then Ranging else SharedHandler(i)
  }

  function TagHandler(i: nat): (h: Handler) {
    if i < 2 || i == RANGING_SLOT then Empty else SharedHandler(i)
  }

  /** Which slot is for what, in numbers. */
  lemma HandlersExact(i: nat)
    ensures NodeHandler(i) == Empty <==> i == 0
    ensures NodeHandler(i) == Pan <==> i == 1
    ensures NodeHandler(i) == Ranging <==> i == 31
    ensures NodeHandler(i) == Management <==> i >= 2 && i % 12 == 0
    ensures NodeHandler(i) == Rtdoa <==> i >= 2 && i != 31 && i % 12 != 0
    ensures TagHandler(i) == Empty <==> i < 2 || i == 31
    ensures TagHandler(i) == Management <==> i >= 2 && i % 12 == 0
    ensures TagHandler(i) == Rtdoa <==> i >= 2 && i != 31 && i % 12 != 0
  {
  }

  /** An anchor's table; its fixed slots have to exist. */
  method AllocateNodeSlots(table: array<Handler>)
    requires RANGING_SLOT < table.Length < 0x1_0000
    requires forall i :: 0 <= i < table.Length ==> table[i] == Empty
    modifies table
    ensures forall i :: 0 <= i < table.Length ==> table[i] == NodeHandler(i)
  {
    table[1] := Pan;
    table[RANGING_SLOT] := Ranging;
    for i := 2 to table.Length
      invariant forall k :: 0 <= k < i || k == RANGING_SLOT ==> table[k] == NodeHandler(k)
    {
      if i == RANGING_SLOT {
        continue;
      }
      if i % MANAGEMENT_EVERY == 0 {
        table[i] := Management;
      } else {
        table[i] := Rtdoa;
      }
    }
  }

  method AllocateTagSlots(table: array<Handler>)
    requires table.Length < 0x1_0000
    requires forall i :: 0 <= i < table.Length ==> table[i] == Empty
    modifies table
    ensures forall i :: 0 <= i < table.Length ==> table[i] == TagHandler(i)
  {
    var i := 2;
    while i < table.Length
      invariant forall k :: 0 <= k < i && k < table.Length ==> table[k] == TagHandler(k)
      invariant forall k :: i <= k < table.Length ==> table[k] == Empty
    {
      if i != RANGING_SLOT {
        if i % MANAGEMENT_EVERY == 0 {
          table[i] := Management;
        } else {
          table[i] := Rtdoa;
        }
      }
      i := i + 1;
    }
  }

  /** Tables that two devices have filled separately agree from slot 2 upward except in the ranging slot, which a tag
      leaves empty; slot 0 belongs to nobody. */
  lemma TablesAgree(node: seq<Handler>, tag: seq<Handler>)
    requires |node| == |tag|
    requires forall i :: 0 <= i < |node| ==> node[i] == NodeHandler(i)
    requires forall i :: 0 <= i < |tag| ==> tag[i] == TagHandler(i)
    ensures forall i :: 2 <= i < |node| ==> (node[i] == tag[i] <==> i != 31)
    ensures forall i :: 0 <= i < |node| ==> (tag[i] == Empty <==> i < 2 || i == 31)
    ensures forall i :: 0 <= i < |node| ==> (node[i] == Empty <==> i == 0)
    ensures forall i :: 0 <= i < |node| ==> (tag[i] == Rtdoa <==> node[i] == Rtdoa)
  {
  }

  // ---- one device in one slot ----

  /** `synced`: the clock semaphore is free. `queued`: management frames waiting to be sent. `seqNum`: the superframe
      number of the last clock packet. */
  datatype Device =
    | Anchor(slotId: U16, master: bool, synced: bool, configPending: bool, queued: nat, seqNum: Byte)
    | Tag(synced: bool, configPending: bool, queued: nat, seqNum: Byte)

  datatype Emission = Silent | RangingRequest | RtdoaRequest | ManagementFrame

  predicate IsRequest(e: Emission) {
    e == RangingRequest || e == RtdoaRequest
  }

  function SendManagement(d: Device): (r: (Device, Emission)) {
    if d.queued > 0 then (d.(queued := d.queued - 1), ManagementFrame) else (d, Silent)
  }

  function NodeOnSlot(d: Device, i: nat): (r: (Device, Emission))
    requires d.Anchor?
    ensures r.0.Anchor?
  {
    if !d.synced then (d, Silent)
    else match NodeHandler(i)
      case Empty => (d, Silent)
      case Pan => (d, Silent)
      case Ranging => (d, if d.seqNum % INITIATORS == d.slotId then RangingRequest else Silent)
      case Management => SendManagement(d)
      case Rtdoa =>
        if d.configPending then (d.(configPending := false), Silent)
        else if d.queued > 0 then SendManagement(d)
        else (d, if d.master then RtdoaRequest else Silent)
  }

  /** A tag only listens in RTDoA slots; it looks at its pending configuration before it looks at its clock. */
  function TagOnSlot(d: Device, i: nat): (r: (Device, Emission))
    requires d.Tag?
    ensures r.0.Tag?
  {
    match TagHandler(i)
    case Management =>
      var c := Tag(d.synced, false, d.queued, d.seqNum);
      if !d.synced then (c, Silent) else SendManagement(c)
    case _ => (d, Silent)
  }

  function OnSlot(d: Device, i: nat): (r: (Device, Emission)) {
    if d.Anchor? then NodeOnSlot(d, i) else TagOnSlot(d, i)
  }

  /** An anchor does nothing without its clock; in an RTDoA slot it first applies a pending configuration, then sends a
      waiting management frame, and only then may start a request. */
  lemma NodeSlotExact(d: Device, i: nat)
    requires d.Anchor?
    ensures !d.synced || i < 2 ==> OnSlot(d, i) == (d, Silent)
    ensures d.synced && i == 31 ==> OnSlot(d, i) == (d, if d.seqNum % 8 == d.slotId then RangingRequest else Silent)
    ensures d.synced && i >= 2 && i % 12 == 0 ==>
      OnSlot(d, i) == if d.queued == 0 then (d, Silent) else (d.(queued := d.queued - 1), ManagementFrame)
    ensures d.synced && i >= 2 && i != 31 && i % 12 != 0 ==>
      OnSlot(d, i) ==
        if d.configPending then (d.(configPending := false), Silent)
        else if d.queued > 0 then (d.(queued := d.queued - 1), ManagementFrame)
        else (d, if d.master then RtdoaRequest else Silent)
  {
  }

  /** A tag acts in its management slots alone, where it applies a pending configuration even without a clock. */
  lemma TagSlotExact(d: Device, i: nat)
    requires d.Tag?
    ensures i < 2 || i % 12 != 0 ==> OnSlot(d, i) == (d, Silent)
    ensures i >= 2 && i % 12 == 0 ==>
      OnSlot(d, i) ==
        if d.synced && d.queued > 0 then (d.(configPending := false, queued := d.queued - 1), ManagementFrame)
        else (d.(configPending := false), Silent)
  {
  }

  class RtdoaNode {
    const slotId: U16
    const master: bool
    var synced: bool
    var configPending: bool
    var queued: nat
    var seqNum: Byte

    function Abs(): (d: Device)
      reads this
    {
      Anchor(slotId, master, synced, configPending, queued, seqNum)
    }

    constructor (slotId: U16, master: bool)
      ensures Abs() == Anchor(slotId, master, false, false, 0, 0)
    {
      this.slotId, this.master := slotId, master;
      synced, configPending, queued, seqNum := false, false, 0, 0;
    }

    method ProcessTxQueue() returns (sent: bool)
      modifies `queued
      ensures sent <==> old(queued) > 0
      ensures queued == if sent then old(queued) - 1 else old(queued)
    {
      sent := queued > 0;
      if sent {
        queued := queued - 1;
      }
    }

    method NrngSlotTimerCb(i: nat) returns (e: Emission)
      requires NodeHandler(i) == Ranging
      ensures (Abs(), e) == OnSlot(Abs(), i)
    {
      if !synced || i == 0xffff {
        return Silent;
      }
      var initiator := seqNum % INITIATORS;
      return if initiator == slotId then RangingRequest else Silent;
    }

    method RtdoaSlotTimerCb(i: nat) returns (e: Emission)
      requires NodeHandler(i) == Rtdoa
      modifies `configPending, `queued
      ensures (Abs(), e) == OnSlot(old(Abs()), i)
    {
      if !synced {
        return Silent;
      }
      if configPending {
        configPending := false;
        return Silent;
      }
      var sent := ProcessTxQueue();
      if sent {
        return ManagementFrame;
      }
      return if master then RtdoaRequest else Silent;
    }

    method NmgrSlotTimerCb(i: nat) returns (e: Emission)
      requires NodeHandler(i) == Management
      modifies `queued
      ensures (Abs(), e) == OnSlot(old(Abs()), i)
    {
      if !synced {
        return Silent;
      }
      var sent := ProcessTxQueue();
      return if sent then ManagementFrame else Silent;
    }
  }

  /** A tag, of which only the management slot matters here. */
  class RtdoaTag {
    var synced: bool
    var configPending: bool
    var queued: nat
    var seqNum: Byte

    function Abs(): (d: Device)
      reads this
    {
      Tag(synced, configPending, queued, seqNum)
    }

    constructor ()
      ensures Abs() == Tag(false, false, 0, 0)
    {
      synced, configPending, queued, seqNum := false, false, 0, 0;
    }

    method NmgrSlotTimerCb(i: nat) returns (e: Emission)
      requires TagHandler(i) == Management
      modifies `configPending, `queued
      ensures (Abs(), e) == OnSlot(old(Abs()), i)
    {
      if configPending {
        configPending := false;
      }
      if !synced || queued == 0 {
        return Silent;
      }
      queued := queued - 1;
      return ManagementFrame;
    }
  }

  // ---- the network ----

  datatype Network = Network(devices: seq<Device>, superframe: Byte)

  /** A clock packet starts the next superframe. It reaches the master and whoever is listed as having heard it; of the
      others some may stay on the number they hold without noticing, and the rest lose the clock. A slot is played by
      every device; at any time a device may get a new configuration or a management frame to send. */
  datatype Event = Beacon(heard: set<nat>, stale: set<nat>) | Slot(i: nat) | Commit(k: nat) | Enqueue(k: nat)

  function AfterBeacon(d: Device, heard: bool, stale: bool, superframe: Byte): (e: Device) {
    if heard || (d.Anchor? && d.master) then d.(synced := true, seqNum := superframe)
    else if stale then d
    else d.(synced := false)
  }

  function Step(n: Network, e: Event): (m: Network)
    ensures |m.devices| == |n.devices|
  {
    var ds := n.devices;
    match e
    case Beacon(heard, stale) =>
      var next := NextSuperframe(n.superframe, e);
      Network(seq(|ds|, k requires 0 <= k < |ds| => AfterBeacon(ds[k], k in heard, k in stale, next)), next)
    case Slot(i) => n.(devices := seq(|ds|, k requires 0 <= k < |ds| => OnSlot(ds[k], i).0))
    case Commit(k) => if k < |ds| then n.(devices := ds[k := ds[k].(configPending := true)]) else n
    case Enqueue(k) => if k < |ds| then n.(devices := ds[k := ds[k].(queued := ds[k].queued + 1)]) else n
  }

  function Run(n: Network, es: seq<Event>): (m: Network)
    ensures |m.devices| == |n.devices|
    decreases |es|
  {
    if es == [] then n else Run(Step(n, es[0]), es[1..])
  }

  function Emitted(n: Network, i: nat, k: nat): (e: Emission)
    requires k < |n.devices|
  {
    OnSlot(n.devices[k], i).1
  }

  predicate IsMaster(d: Device) {
    d.Anchor? && d.master
  }

  predicate SameInitiator(d: Device, e: Device) {
    d.Anchor? && e.Anchor? && d.slotId == e.slotId
  }

  /** At most one clock master, and no two anchors with the same initiator number. */
  ghost predicate WellPlanned(n: Network) {
    && (forall j, k :: 0 <= j < k < |n.devices| ==> !(IsMaster(n.devices[j]) && IsMaster(n.devices[k])))
    && (forall j, k :: 0 <= j < k < |n.devices| && SameInitiator(n.devices[j], n.devices[k]) ==>
          n.devices[j].slotId >= INITIATORS)
  }

  /** Devices that have the clock agree on the superframe. */
  ghost predicate InStep(n: Network) {
    forall k :: 0 <= k < |n.devices| && n.devices[k].synced ==> n.devices[k].seqNum == n.superframe
  }

  predicate SameDevice(d: Device, e: Device) {
    if d.Anchor? then e.Anchor? && e.slotId == d.slotId && e.master == d.master else e.Tag?
  }

  /** Nobody that misses a clock packet goes on as if it had not. */
  predicate Timely(e: Event) {
    e.Beacon? ==> e.stale == {}
  }

  predicate AllTimely(es: seq<Event>) {
    es == [] || (Timely(es[0]) && AllTimely(es[1..]))
  }

  lemma StepSame(n: Network, e: Event)
    ensures forall k :: 0 <= k < |n.devices| ==> SameDevice(n.devices[k], Step(n, e).devices[k])
  {
  }

  lemma StepKeeps(n: Network, e: Event)
    requires InStep(n) && Timely(e)
    ensures InStep(Step(n, e))
  {
    var m := Step(n, e);
    forall k | 0 <= k < |n.devices| ensures m.devices[k].synced ==> m.devices[k].seqNum == m.superframe {
      assert n.devices[k].synced ==> n.devices[k].seqNum == n.superframe;
    }
  }

  lemma StepWellPlanned(n: Network, m: Network)
    requires WellPlanned(n) && |n.devices| == |m.devices|
    requires forall k :: 0 <= k < |n.devices| ==> SameDevice(n.devices[k], m.devices[k])
    ensures WellPlanned(m)
  {
    forall j, k | 0 <= j < k < |m.devices| ensures !(IsMaster(m.devices[j]) && IsMaster(m.devices[k])) {
      assert SameDevice(n.devices[j], m.devices[j]) && SameDevice(n.devices[k], m.devices[k]);
    }
    forall j, k | 0 <= j < k < |m.devices| && SameInitiator(m.devices[j], m.devices[k])
      ensures m.devices[j].slotId >= INITIATORS
    {
      assert SameDevice(n.devices[j], m.devices[j]) && SameDevice(n.devices[k], m.devices[k]);
    }
  }

  lemma {:induction false} RunInStep(n: Network, es: seq<Event>)
    requires InStep(n) && AllTimely(es)
    ensures InStep(Run(n, es))
    decreases |es|
  {
    if es != [] {
      StepKeeps(n, es[0]);
      RunInStep(Step(n, es[0]), es[1..]);
    }
  }

  lemma {:induction false} RunWellPlanned(n: Network, es: seq<Event>)
    requires WellPlanned(n)
    ensures WellPlanned(Run(n, es))
    decreases |es|
  {
    if es != [] {
      StepSame(n, es[0]);
      StepWellPlanned(n, Step(n, es[0]));
      RunWellPlanned(Step(n, es[0]), es[1..]);
    }
  }

  /** Exactly when a device starts a request. */
  lemma RequestIff(n: Network, i: nat, k: nat)
    requires InStep(n) && k < |n.devices|
    ensures var d := n.devices[k];
      && (Emitted(n, i, k) == RangingRequest
          <==> i == 31 && d.Anchor? && d.synced && d.slotId == n.superframe % 8)
      && (Emitted(n, i, k) == RtdoaRequest
          <==> i >= 2 && i != 31 && i % 12 != 0 && IsMaster(d) && d.synced && !d.configPending && d.queued == 0)
  {
  }

  /** In any state, without assuming agreeing clocks: two devices start a request in the same slot if and only if it is
      the ranging slot and each is elected by the superframe number it holds itself; these then differ modulo 8. */
  lemma CollisionIff(n: Network, i: nat, j: nat, k: nat)
    requires WellPlanned(n) && j < k < |n.devices|
    ensures var d, e := n.devices[j], n.devices[k];
      && (IsRequest(Emitted(n, i, j)) && IsRequest(Emitted(n, i, k))
          <==> i == 31 && Initiates(d, d.seqNum % 8) && Initiates(e, e.seqNum % 8))
      && (IsRequest(Emitted(n, i, j)) && IsRequest(Emitted(n, i, k)) ==> d.seqNum % 8 != e.seqNum % 8)
  {
  }

  /** In every run of any network, missed clock packets included, at most one device starts a transmission of its own in
      any slot but the ranging slot. In the ranging slot two can do so only on superframe numbers that differ modulo 8,
      so never if nobody goes on unnoticed after missing a clock packet. */
  lemma SingleTransmitter(n: Network, es: seq<Event>, i: nat, j: nat, k: nat)
    requires WellPlanned(n) && j < k < |n.devices|
    ensures var m := Run(n, es); var d, e := m.devices[j], m.devices[k];
      var both := IsRequest(Emitted(m, i, j)) && IsRequest(Emitted(m, i, k));
      && (both ==> i == 31 && d.seqNum % 8 != e.seqNum % 8)
      && (InStep(n) && AllTimely(es) ==> !both)
      && (d.queued == 0 && e.queued == 0 && !both ==> Emitted(m, i, j) == Silent || Emitted(m, i, k) == Silent)
  {
    RunWellPlanned(n, es);
    var m := Run(n, es);
    CollisionIff(m, i, j, k);
    if InStep(n) && AllTimely(es) {
      RunInStep(n, es);
      RequestIff(m, i, j);
      RequestIff(m, i, k);
    }
  }

  /** Conversely an RTDoA slot is used whenever the master is ready for it. */
  lemma MasterUsesSlot(n: Network, i: nat, k: nat)
    requires k < |n.devices| && IsMaster(n.devices[k]) && n.devices[k].synced
    requires !n.devices[k].configPending && n.devices[k].queued == 0
    requires 2 <= i && i != 31 && i % 12 != 0
    ensures Emitted(n, i, k) == RtdoaRequest
  {
  }

  // ---- a pending configuration ----

  /** Whether a slot makes the device apply its pending configuration. */
  predicate Applies(d: Device, i: nat) {
    if d.Anchor? then d.synced && i >= 2 && i != 31 && i % 12 != 0 else i >= 2 && i % 12 == 0
  }

  /** No slot of the run makes device k do that. */
  predicate NeverApplies(n: Network, es: seq<Event>, k: nat)
    requires k < |n.devices|
    decreases |es|
  {
    es == [] ||
    (!(es[0].Slot? && Applies(n.devices[k], es[0].i)) && NeverApplies(Step(n, es[0]), es[1..], k))
  }

  predicate NoCommit(es: seq<Event>, k: nat) {
    forall j :: 0 <= j < |es| ==> es[j] != Commit(k)
  }

  lemma PendingStep(n: Network, e: Event, k: nat)
    requires k < |n.devices|
    ensures var d, m := n.devices[k], Step(n, e).devices[k];
      m.configPending <==> e == Commit(k) || (d.configPending && !(e.Slot? && Applies(d, e.i)))
  {
    if e.Slot? {
      if n.devices[k].Anchor? {
        NodeSlotExact(n.devices[k], e.i);
      } else {
        TagSlotExact(n.devices[k], e.i);
      }
    }
  }

  lemma {:induction false} StaysPending(n: Network, es: seq<Event>, k: nat)
    requires k < |n.devices| && n.devices[k].configPending && NeverApplies(n, es, k)
    ensures Run(n, es).devices[k].configPending
    decreases |es|
  {
    if es != [] {
      PendingStep(n, es[0], k);
      StaysPending(Step(n, es[0]), es[1..], k);
    }
  }

  lemma {:induction false} StaysClear(n: Network, es: seq<Event>, k: nat)
    requires k < |n.devices| && !n.devices[k].configPending && NoCommit(es, k)
    ensures !Run(n, es).devices[k].configPending
    decreases |es|
  {
    if es != [] {
      PendingStep(n, es[0], k);
      StaysClear(Step(n, es[0]), es[1..], k);
    }
  }

  lemma {:induction false} RunSame(n: Network, es: seq<Event>, k: nat)
    requires k < |n.devices|
    ensures SameDevice(n.devices[k], Run(n, es).devices[k])
    decreases |es|
  {
    if es != [] {
      StepSame(n, es[0]);
      RunSame(Step(n, es[0]), es[1..], k);
    }
  }

  /** From any state: after a commit to anchor k and any events, the first RTDoA slot i in which it has the clock is
      silent and applies the configuration, whatever waits in its queue; and after any further events without another
      commit, an RTDoA slot j in which it is the master, has the clock and has nothing queued is used for a request. */
  lemma NodeCommitApplied(n: Network, es: seq<Event>, i: nat, fs: seq<Event>, j: nat, k: nat)
    requires k < |n.devices| && n.devices[k].Anchor? && NeverApplies(Step(n, Commit(k)), es, k)
    requires i >= 2 && i != 31 && i % 12 != 0 && j >= 2 && j != 31 && j % 12 != 0 && NoCommit(fs, k)
    requires Run(Step(n, Commit(k)), es).devices[k].synced
    ensures var m := Run(Step(n, Commit(k)), es); var t := Run(Step(m, Slot(i)), fs);
      && m.devices[k].configPending && Emitted(m, i, k) == Silent
      && !Step(m, Slot(i)).devices[k].configPending && Step(m, Slot(i)).devices[k].queued == m.devices[k].queued
      && !t.devices[k].configPending
      && (n.devices[k].master && t.devices[k].synced && t.devices[k].queued == 0 ==> Emitted(t, j, k) == RtdoaRequest)
  {
    var c := Step(n, Commit(k));
    var m := Run(c, es);
    StaysPending(c, es, k);
    RunSame(c, es, k);
    NodeSlotExact(m.devices[k], i);
    var u := Step(m, Slot(i));
    StaysClear(u, fs, k);
    RunSame(u, fs, k);
    NodeSlotExact(Run(u, fs).devices[k], j);
  }

  /** A tag keeps the commit until its next management slot, which applies it even without a clock. */
  lemma TagCommitApplied(n: Network, es: seq<Event>, i: nat, fs: seq<Event>, k: nat)
    requires k < |n.devices| && n.devices[k].Tag? && NeverApplies(Step(n, Commit(k)), es, k)
    requires i >= 2 && i % 12 == 0 && NoCommit(fs, k)
    ensures var m := Run(Step(n, Commit(k)), es);
      && m.devices[k].configPending && !Step(m, Slot(i)).devices[k].configPending
      && !Run(Step(m, Slot(i)), fs).devices[k].configPending
  {
    var c := Step(n, Commit(k));
    var m := Run(c, es);
    StaysPending(c, es, k);
    RunSame(c, es, k);
    TagSlotExact(m.devices[k], i);
    StaysClear(Step(m, Slot(i)), fs, k);
  }

  // ---- what a clock packet does ----

  /** The master and every listed device take the new superframe number; of the others the stale ones notice nothing and
      the rest lose the clock. */
  lemma BeaconExact(n: Network, heard: set<nat>, stale: set<nat>, k: nat)
    requires k < |n.devices|
    ensures var d, m := n.devices[k], Step(n, Beacon(heard, stale));
      && m.superframe == (if n.superframe == 0xff then 0 else n.superframe + 1)
      && m.devices[k] ==
           if k in heard || (d.Anchor? && d.master) then d.(synced := true, seqNum := m.superframe)
           else if k in stale then d else d.(synced := false)
  {
  }

  // ---- election of the ranging initiator ----

  function BeaconCount(e: Event): (n: nat) {
    if e.Beacon? then 1 else 0
  }

  function Beacons(es: seq<Event>): (n: nat) {
    if es == [] then 0 else BeaconCount(es[0]) + Beacons(es[1..])
  }

  function NextSuperframe(s: Byte, e: Event): (t: Byte) {
    if e.Beacon? then (s + 1) % 0x100 else s
  }

  function Superframes(s: Byte, es: seq<Event>): (t: Byte)
    decreases |es|
  {
    if es == [] then s else Superframes(NextSuperframe(s, es[0]), es[1..])
  }

  lemma {:induction false} RunSuperframe(n: Network, es: seq<Event>)
    ensures Run(n, es).superframe == Superframes(n.superframe, es)
    decreases |es|
  {
    if es != [] {
      RunSuperframe(Step(n, es[0]), es[1..]);
    }
  }

  lemma {:induction false} SuperframesCount(s: Byte, es: seq<Event>)
    ensures Superframes(s, es) == (s + Beacons(es)) % 0x100
    decreases |es|
  {
    if es != [] {
      var t := NextSuperframe(s, es[0]);
      SuperframesCount(t, es[1..]);
      ByteSum(s, BeaconCount(es[0]), Beacons(es[1..]), t, Superframes(t, es[1..]));
    }
  }

  /** The superframe number counts the beacons of a run, modulo 256. */
  lemma SuperframeCounts(n: Network, es: seq<Event>)
    ensures Run(n, es).superframe == (n.superframe + Beacons(es)) % 0x100
  {
    RunSuperframe(n, es);
    SuperframesCount(n.superframe, es);
  }

  lemma ByteSum(a: nat, b: nat, c: nat, x: nat, y: nat)
    requires x == (a + b) % 0x100 && y == (x + c) % 0x100
    ensures y == (a + (b + c)) % 0x100
  {
  }

  /** Who is elected in the k-th superframe after one with number s. */
  function Elected(s: Byte, k: nat): (id: nat)
    ensures id < INITIATORS
  {
    (s + k) % 0x100 % INITIATORS
  }

  predicate Initiates(d: Device, id: nat) {
    d.Anchor? && d.synced && d.slotId == id
  }

  /** The elected number after a run depends on its beacons alone. */
  lemma RunElected(n: Network, es: seq<Event>)
    ensures Run(n, es).superframe % 8 == Elected(n.superframe, Beacons(es))
  {
    SuperframeCounts(n, es);
  }

  lemma InitiatorAt(m: Network, id: nat, k: nat)
    requires InStep(m) && k < |m.devices| && m.superframe % 8 == id
    ensures Emitted(m, 31, k) == RangingRequest <==> Initiates(m.devices[k], id)
  {
    RequestIff(m, RANGING_SLOT, k);
  }

  /** After any run the ranging slot belongs to the anchor elected for that superframe, if it has the clock. */
  lemma RunInitiator(n: Network, es: seq<Event>, k: nat)
    requires InStep(n) && AllTimely(es) && k < |n.devices|
    ensures Emitted(Run(n, es), 31, k) == RangingRequest
       <==> Initiates(Run(n, es).devices[k], Elected(n.superframe, Beacons(es)))
  {
    RunInStep(n, es);
    RunElected(n, es);
    InitiatorAt(Run(n, es), Elected(n.superframe, Beacons(es)), k);
  }

  lemma WrapIsHarmless(s: Byte, k: nat)
    ensures Elected(s, k) == (s + k) % 8
  {
  }

  function Round(s: Byte, m: nat, id: nat): (k: nat)
    requires id < INITIATORS
    ensures m <= k < m + INITIATORS
  {
    var first := (s + m) % INITIATORS;
    if id >= first then m + id - first else m + id + INITIATORS - first
  }

  /** In any eight consecutive superframes, also across the wrap of their number, every id below eight is elected
      exactly once, and no other id ever is. */
  lemma Fairness(s: Byte, m: nat, id: nat, k: nat)
    requires m <= k < m + 8
    ensures Elected(s, k) == id <==> id < 8 && k == Round(s, m, id)
  {
    WrapIsHarmless(s, k);
    Residue(s + m, k - m);
    var at := (s + m) % INITIATORS + (k - m);
    assert at % INITIATORS == if at < INITIATORS then at else at - INITIATORS;
  }

  lemma Residue(t: nat, x: nat)
    ensures (t + x) % 8 == (t % 8 + x) % 8
  {
  }

  function Elections(s: Byte, m: nat, len: nat, id: nat): (n: nat)
    decreases len
  {
    if len == 0 then 0 else (if Elected(s, m) == id then 1 else 0) + Elections(s, m + 1, len - 1, id)
  }

  lemma {:induction false} ElectionsSplit(s: Byte, m: nat, a: nat, b: nat, id: nat)
    ensures Elections(s, m, a + b, id) == Elections(s, m, a, id) + Elections(s, m + a, b, id)
    decreases a
  {
    if a > 0 {
      ElectionsSplit(s, m + 1, a - 1, b, id);
    }
  }

  lemma {:induction false} ElectionsInWindow(s: Byte, m: nat, from: nat, len: nat, id: nat)
    requires id < 8 && m <= from && from + len <= m + 8
    ensures Elections(s, from, len, id) == if from <= Round(s, m, id) < from + len then 1 else 0
    decreases len
  {
    if len > 0 {
      Fairness(s, m, id, from);
      ElectionsInWindow(s, m, from + 1, len - 1, id);
    }
  }

  /** Over any stretch of 8n superframes every id below eight is elected n times. */
  lemma {:induction false} EqualShares(s: Byte, m: nat, n: nat, id: nat)
    requires id < 8
    ensures Elections(s, m, 8 * n, id) == n
    decreases n
  {
    if n > 0 {
      ElectionsInWindow(s, m, m, INITIATORS, id);
      EqualShares(s, m + INITIATORS, n - 1, id);
      ElectionsSplit(s, m, INITIATORS, INITIATORS * (n - 1), id);
    }
  }

  // ---- fairness of a run ----

  /** A superframe: who hears its clock packet, who misses it unnoticed, and what happens until the next one. */
  datatype Superframe = Superframe(heard: set<nat>, stale: set<nat>, body: seq<Event>)

  predicate NoBeacon(es: seq<Event>) {
    es == [] || (!es[0].Beacon? && NoBeacon(es[1..]))
  }

  /** How often the ranging slot comes. */
  function RangingSlots(es: seq<Event>): (n: nat) {
    if es == [] then 0 else (if es[0] == Slot(RANGING_SLOT) then 1 else 0) + RangingSlots(es[1..])
  }

  function EventsOf(f: Superframe): (es: seq<Event>) {
    [Beacon(f.heard, f.stale)] + f.body
  }

  function Timeline(fs: seq<Superframe>): (es: seq<Event>) {
    if fs == [] then [] else EventsOf(fs[0]) + Timeline(fs[1..])
  }

  /** The device hears every clock packet, and every superframe has its ranging slot once. */
  predicate Regular(f: Superframe, d: Device, k: nat) {
    (IsMaster(d) || k in f.heard) && NoBeacon(f.body) && RangingSlots(f.body) == 1
  }

  predicate AllRegular(fs: seq<Superframe>, d: Device, k: nat) {
    fs == [] || (Regular(fs[0], d, k) && AllRegular(fs[1..], d, k))
  }

  predicate Opens(n: Network, e: Event, k: nat)
    requires k < |n.devices|
  {
    e.Slot? && Emitted(n, e.i, k) == RangingRequest
  }

  /** Rounds of ranging that a device opens in a run. */
  function Opened(n: Network, es: seq<Event>, k: nat): (c: nat)
    requires k < |n.devices|
    decreases |es|
  {
    if es == [] then 0 else (if Opens(n, es[0], k) then 1 else 0) + Opened(Step(n, es[0]), es[1..], k)
  }

  lemma ConsAppend(a: seq<Event>, b: seq<Event>)
    requires a != []
    ensures (a + b)[0] == a[0] && (a + b)[1..] == a[1..] + b
  {
  }

  lemma {:induction false} OpenedAppend(n: Network, a: seq<Event>, b: seq<Event>, k: nat)
    requires k < |n.devices|
    ensures Opened(n, a + b, k) == Opened(n, a, k) + Opened(Run(n, a), b, k)
    decreases |a|
  {
    if a == [] {
      assert a + b == b;
    } else {
      ConsAppend(a, b);
      OpenedAppend(Step(n, a[0]), a[1..], b, k);
    }
  }

  /** The device has the clock packet of superframe number s. */
  predicate Clocked(d: Device, e: Device, s: Byte) {
    SameDevice(d, e) && e.synced && e.seqNum == s
  }

  lemma ClockedStep(n: Network, e: Event, d: Device, k: nat)
    requires k < |n.devices| && d.Anchor? && Clocked(d, n.devices[k], n.superframe) && !e.Beacon?
    ensures Clocked(d, Step(n, e).devices[k], n.superframe) && Step(n, e).superframe == n.superframe
    ensures Opens(n, e, k) <==> e == Slot(31) && d.slotId == n.superframe % 8
  {
  }

  /** Between two clock packets the device opens its ranging slots exactly if it is elected. */
  lemma {:induction false} BodyOpened(n: Network, es: seq<Event>, d: Device, k: nat)
    requires k < |n.devices| && d.Anchor? && Clocked(d, n.devices[k], n.superframe) && NoBeacon(es)
    ensures Opened(n, es, k) == if d.slotId == n.superframe % 8 then RangingSlots(es) else 0
    ensures SameDevice(d, Run(n, es).devices[k]) && Run(n, es).superframe == n.superframe
    decreases |es|
  {
    if es != [] {
      ClockedStep(n, es[0], d, k);
      BodyOpened(Step(n, es[0]), es[1..], d, k);
    }
  }

  lemma HeardBeacon(n: Network, f: Superframe, d: Device, k: nat)
    requires k < |n.devices| && d.Anchor? && SameDevice(d, n.devices[k]) && Regular(f, d, k)
    ensures var m := Step(n, Beacon(f.heard, f.stale));
      Clocked(d, m.devices[k], m.superframe) && m.superframe == (n.superframe + 1) % 0x100
  {
  }

  lemma SuperframeOpened(n: Network, f: Superframe, d: Device, k: nat)
    requires k < |n.devices| && d.Anchor? && SameDevice(d, n.devices[k]) && Regular(f, d, k)
    ensures var es, s := EventsOf(f), (n.superframe + 1) % 0x100;
      && Opened(n, es, k) == (if d.slotId == s % 8 then 1 else 0)
      && SameDevice(d, Run(n, es).devices[k]) && Run(n, es).superframe == s
  {
    var b := Beacon(f.heard, f.stale);
    assert EventsOf(f)[0] == b && EventsOf(f)[1..] == f.body;
    HeardBeacon(n, f, d, k);
    BodyOpened(Step(n, b), f.body, d, k);
  }

  lemma {:induction false} ElectionsShift(s: Byte, m: nat, len: nat, id: nat)
    ensures Elections((s + 1) % 0x100, m, len, id) == Elections(s, m + 1, len, id)
    decreases len
  {
    if len > 0 {
      var t := (s + 1) % 0x100;
      ByteSum(s, 1, m, t, (t + m) % 0x100);
      ElectionsShift(s, m + 1, len - 1, id);
    }
  }

  lemma FirstElection(s: Byte, len: nat, id: nat)
    requires len > 0
    ensures var t := (s + 1) % 0x100;
      Elections(s, 1, len, id) == (if id == t % 8 then 1 else 0) + Elections(t, 1, len - 1, id)
  {
    ElectionsShift(s, 1, len - 1, id);
  }

  /** From any state on, an anchor that hears every clock packet opens the ranging slots of exactly those superframes in
      which its number is elected. */
  lemma {:induction false} RunOpened(n: Network, fs: seq<Superframe>, d: Device, k: nat)
    requires k < |n.devices| && d.Anchor? && SameDevice(d, n.devices[k]) && AllRegular(fs, d, k)
    ensures Opened(n, Timeline(fs), k) == Elections(n.superframe, 1, |fs|, d.slotId)
    decreases |fs|
  {
    if fs != [] {
      var es := EventsOf(fs[0]);
      SuperframeOpened(n, fs[0], d, k);
      RunOpened(Run(n, es), fs[1..], d, k);
      OpenedAppend(n, es, Timeline(fs[1..]), k);
      FirstElection(n.superframe, |fs|, d.slotId);
    }
  }

  /** In any 8m consecutive superframes of any run such an anchor with a number below eight opens exactly m rounds,
      so in any eight exactly one; one with another number opens none. */
  lemma RunFairness(n: Network, fs: seq<Superframe>, m: nat, d: Device, k: nat)
    requires k < |n.devices| && d.Anchor? && SameDevice(d, n.devices[k]) && AllRegular(fs, d, k)
    requires |fs| == 8 * m
    ensures Opened(n, Timeline(fs), k) == if d.slotId < 8 then m else 0
  {
    RunOpened(n, fs, d, k);
    if d.slotId < INITIATORS {
      EqualShares(n.superframe, 1, m, d.slotId);
    } else {
      NeverElected(n.superframe, 1, |fs|, d.slotId);
    }
  }

  lemma {:induction false} NeverElected(s: Byte, m: nat, len: nat, id: nat)
    requires id >= 8
    ensures Elections(s, m, len, id) == 0
    decreases len
  {
    if len > 0 {
      NeverElected(s, m + 1, len - 1, id);
    }
  }
}
