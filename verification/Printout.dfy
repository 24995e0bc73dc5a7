/** From the frames of a send to the printed text and back. */
module Printout {
  import opened AirDelivery
  import opened Backhaul
  import opened BackhaulRuns
  import opened Bytes
  import opened Delivery
  import opened Options
  import opened Sender
  import opened Wire
  import Printer
  import Seqs

  /** The record of a report has at most 16 ranges, so the printer stays inside it and prints the collected ones. */
  lemma RecordFits(q: Packet, p: Packet, ref: U16, frames: seq<Frame>, x: U16)
    requires |Accepted(frames)| <= MAX_RANGES && q == ReportOf(p, ref, frames).(refAnchor := x)
    ensures q.numRanges <= MAX_RANGES && Printer.Counted(q, []) == Accepted(frames)
  {
    var rs := Accepted(frames);
    assert Printer.Slots(q, []) == rs + Fill(ZERO_RANGE, MAX_RANGES - |rs|);
  }

  /** What a reader of the printed measurement of record q gets. */
  function ReadBack(q: Packet, rssi: seq<string>): (m: Option<Printer.Meas>)
    requires q.numRanges <= MAX_RANGES && |rssi| == q.numRanges
  {
    Printer.Read(Printer.MeasText(q.refAnchor, Printer.Counted(q, []), rssi))
  }

  /** Reading the printed measurement of a report yields the ranges of exactly the frames that count, in order. */
  lemma ReportReadBack(q: Packet, p: Packet, ref: U16, frames: seq<Frame>, x: U16, rssi: seq<string>)
    requires 0 < |Accepted(frames)| <= MAX_RANGES && q == ReportOf(p, ref, frames).(refAnchor := x)
    requires |rssi| == |Accepted(frames)| && forall i :: 0 <= i < |rssi| ==> Printer.Clean(rssi[i])
    ensures q.numRanges <= MAX_RANGES && |rssi| == q.numRanges
    ensures ReadBack(q, rssi) == Some(Printer.Held(x, Accepted(frames), rssi))
  {
    RecordFits(q, p, ref, frames, x);
    Printer.ReadPrinted(x, Accepted(frames), rssi);
  }

  /** From a bridge's successful local send to the reader of its output: whatever runs in between, the record that a
      later drain hands to the printer reads back as the reference anchor and the ranges of the send. */
  lemma BridgeReadBack(s: State, p: Packet, ref: U16, frames: seq<Frame>, env: Env, es: seq<Event>, rssi: seq<string>)
    requires s.Valid() && s.role == Bridge && 0 < |Accepted(frames)| <= MAX_RANGES
    requires |LocalStep(s, LocalBytes(p, ref, frames), env).queue| > |s.queue|
    requires Legal(LocalStep(s, LocalBytes(p, ref, frames), env), es)
    requires |rssi| == |Accepted(frames)| && forall i :: 0 <= i < |rssi| ==> Printer.Clean(rssi[i])
    ensures var printed := Drained(Run(LocalStep(s, LocalBytes(p, ref, frames), env), es)).printed;
      && |printed| > |Log(s)|
      && var q := Decode(printed[|Log(s)|]);
      && q.numRanges <= MAX_RANGES && |rssi| == q.numRanges
      && ReadBack(q, rssi) == Some(Printer.Held(ref, Accepted(frames), rssi))
  {
    BridgeRoundTrip(s, p, ref, frames, env, es);
    var t := LocalStep(s, LocalBytes(p, ref, frames), env);
    var r := ReportOf(p, ref, frames);
    Seqs.Around(Log(s), Encode(r), RunImages(t, es));
    ReportReadBack(r, p, ref, frames, ref, rssi);
  }

  /** The same for the packet on air: all ranges, under the reference anchor of the sender's call before. */
  lemma AirReadBack(p: Packet, ref: U16, frames: seq<Frame>, rssi: seq<string>)
    requires 0 < |Accepted(frames)| <= MAX_RANGES
    requires |rssi| == |Accepted(frames)| && forall i :: 0 <= i < |rssi| ==> Printer.Clean(rssi[i])
    ensures var q := Record(AirBytes(p, ref, frames));
      && q.numRanges <= MAX_RANGES && |rssi| == q.numRanges
      && ReadBack(q, rssi) == Some(Printer.Held(p.refAnchor, Accepted(frames), rssi))
  {
    AirImage(p, ref, frames);
    ReportReadBack(Record(AirBytes(p, ref, frames)), p, ref, frames, p.refAnchor, rssi);
  }

  function Trues(mask: seq<bool>): (n: nat) {
    if mask == [] then 0 else (if mask[0] then 1 else 0) + Trues(mask[1..])
  }

  /** A selected element lands behind the selected ones in front of it. */
  lemma {:induction false} SelectAt<T>(xs: seq<T>, mask: seq<bool>, k: nat)
    requires |xs| == |mask| && k < |mask| && mask[k]
    ensures var m := Trues(mask[..k]); m < |Select(xs, mask)| && Select(xs, mask)[m] == xs[k]
  {
    if k > 0 {
      SelectAt(xs[1..], mask[1..], k - 1);
      assert mask[..k][1..] == mask[1..][..k - 1];
    }
  }

  /** The collected ranges of a call. */
  function RangesFor(o: Origin): (rs: seq<RangeRec>)
    requires o.Valid()
    ensures |rs| <= MAX_RANGES
  {
    Accepted(o.calls[o.i].frames)
  }

  lemma RecordReadBack(o: Origin, rssi: seq<string>)
    requires o.Valid() && RangesFor(o) != []
    requires |rssi| == |RangesFor(o)| && forall i :: 0 <= i < |rssi| ==> Printer.Clean(rssi[i])
    ensures RecordFor(o).numRanges <= MAX_RANGES && |rssi| == RecordFor(o).numRanges
    ensures ReadBack(RecordFor(o), rssi) == Some(Printer.Held(AirRef(o.p, o.calls, o.i), RangesFor(o), rssi))
  {
    var call := o.calls[o.i];
    ReportReadBack(RecordFor(o), Stamped(PacketAt(o.p, o.calls, o.i), call.ts), call.ref, call.frames,
                   AirRef(o.p, o.calls, o.i), rssi);
  }

  /** From the calls of any senders to the reader of a bridge's output: over every run the record printed for an
      accepted packet reads back as the addresses and distances of exactly the frames that count in its call, under
      the reference anchor of its sender's call before. */
  lemma AirRunReadBack(s: State, es: seq<Event>, from: seq<Origin>, k: nat, rssi: seq<string>)
    requires s.Valid() && s.role == Bridge && Legal(s, es) && Carries(s, es, from)
    requires k < |from| && k < |AcceptMask(s, es)| && AcceptMask(s, es)[k] && RangesFor(from[k]) != []
    requires |rssi| == |RangesFor(from[k])| && forall i :: 0 <= i < |rssi| ==> Printer.Clean(rssi[i])
    ensures Drained(Run(s, es)).printed == Log(s) + ImagesOf(Prints(s, es))
    ensures var m, bs, o := Trues(AcceptMask(s, es)[..k]), AirOf(Prints(s, es)), from[k];
      && m < |bs|
      && var q := Decode(bs[m]);
      && q.numRanges <= MAX_RANGES && |rssi| == q.numRanges
      && ReadBack(q, rssi) == Some(Printer.Held(AirRef(o.p, o.calls, o.i), RangesFor(o), rssi))
  {
    EndToEnd(s, es, from);
    SelectAt(PrintedFor(from), AcceptMask(s, es), k);
    DecodeEncode(RecordFor(from[k]));
    RecordReadBack(from[k], rssi);
  }
}
