/** The example processor: per-channel charge and depth-map histograms over
    the valid HB and HE digis, the total charge of each event, and the list
    of events whose total charge is above 2e5 fC. */
module TestProcessor {
  import opened Seqs
  import opened Digis

  /** An event is interesting when its total charge is above this (2.e5 fC). */
  const InterestingCharge := 200000

  /** The subdetectors `process` loops over, in order. */
  const Subdets: seq<Subdet> := [HB, HE]

  /** One entry of the `sumq` histogram: subdet, sumq, is_bx1. */
  datatype SumQFill = SumQFill(subdet: Subdet, sumq: int, isBx1: bool)

  /** One entry of the `sumq_depthmap` histogram, weighted by sumq. */
  datatype DepthFill = DepthFill(ieta: int, iphi: int, depth: int, weight: int)

  /** One entry of the `eventq` histogram: is_bx1, eventq. */
  datatype EventQFill = EventQFill(isBx1: bool, eventq: int)

  /** The output dictionary of one `process` call. */
  datatype Output = Output(
    nevents: nat,
    sumq: seq<SumQFill>,
    depthmap: seq<DepthFill>,
    eventq: seq<EventQFill>,
    interesting: seq<int>)

  /** `events.bunchCrossing == 1`. */
  predicate IsBx1(e: Event)
  {
    e.bunchCrossing == 1
  }

  // ---------------------------------------------------------------------
  // Event total charge

  /** eventq after the subdetectors `ss`: the valid channels' sumq added up. */
  function ChargeAfter(e: Event, ss: seq<Subdet>): int
    requires PedestalReadable(e) && HF !in ss
  {
    if ss == [] then 0
    else
      var n := |ss| - 1;
      ChargeAfter(e, ss[..n]) + ValidCharge(DigisOf(e, ss[n]))
  }

  /** `eventq` of one event: the pedestal-subtracted charge of its valid HB
      and HE channels. */
  function EventCharge(e: Event): int
    requires PedestalReadable(e)
  {
    ChargeAfter(e, Subdets)
  }

  /** The total charge is the HB part plus the HE part. */
  lemma EventChargeSplit(e: Event)
    requires PedestalReadable(e)
    ensures EventCharge(e) == ValidCharge(e.hb) + ValidCharge(e.he)
  {
    assert Subdets[..1] == [HB] && [HB][..0] == [];
    assert ChargeAfter(e, [HB]) == ValidCharge(e.hb);
  }

  /** An event without valid channels has total charge 0. */
  lemma NoValidChannelsNoCharge(e: Event)
    requires PedestalReadable(e)
    requires forall d | d in e.hb :: !d.valid
    requires forall d | d in e.he :: !d.valid
    ensures EventCharge(e) == 0
  {
    EventChargeSplit(e);
    ValidOnlyNone(e.hb);
    ValidOnlyNone(e.he);
    assert SumQs([]) == [];
  }

  /** Adding an HB or an HE channel to an event changes its total charge by
      that channel's sumq when it is valid, and not at all otherwise. */
  lemma EventChargeAddChannel(e: Event, d: Digi)
    requires PedestalReadable(e) && HasSlices(d, PedestalSlices)
    ensures PedestalReadable(e.(hb := e.hb + [d])) && PedestalReadable(e.(he := e.he + [d]))
    ensures EventCharge(e.(hb := e.hb + [d]))
      == EventCharge(e) + (if d.valid then SumQ(d) else 0)
    ensures EventCharge(e.(he := e.he + [d]))
      == EventCharge(e) + (if d.valid then SumQ(d) else 0)
  {
    ValidChargeSnoc(e.hb, d);
    ValidChargeSnoc(e.he, d);
    EventChargeSplit(e);
    EventChargeSplit(e.(hb := e.hb + [d]));
    EventChargeSplit(e.(he := e.he + [d]));
  }

  /** `eventq` per event. */
  function EventCharges(events: seq<Event>): (qs: seq<int>)
    requires AllPedestalReadable(events)
    ensures |qs| == |events| && forall i | 0 <= i < |events| :: qs[i] == EventCharge(events[i])
  {
    seq(|events|, i requires 0 <= i < |events| => EventCharge(events[i]))
  }

  /** The `eventq` histogram entries, one per event. */
  function EventQFills(events: seq<Event>): (fills: seq<EventQFill>)
    requires AllPedestalReadable(events)
    ensures |fills| == |events|
    ensures forall i | 0 <= i < |events| ::
      fills[i] == EventQFill(events[i].bunchCrossing == 1, EventCharge(events[i]))
  {
    seq(|events|, i requires 0 <= i < |events| =>
      EventQFill(IsBx1(events[i]), EventCharge(events[i])))
  }

  /** `eventq > 2.e5`. */
  function InterestingMask(events: seq<Event>): (m: seq<bool>)
    requires AllPedestalReadable(events)
    ensures |m| == |events|
  {
    seq(|events|, i requires 0 <= i < |events| => EventCharge(events[i]) > InterestingCharge)
  }

  /** `interesting_events`: the numbers of the events above 2e5 fC, in order
      and with no cap on their number. */
  function InterestingEvents(events: seq<Event>): seq<int>
    requires AllPedestalReadable(events)
  {
    Select(EventNumbers(events), InterestingMask(events))
  }

  /** An event number is listed exactly when some event with that number
      has total charge above 2e5 fC. */
  lemma InterestingEventsMember(events: seq<Event>, x: int)
    requires AllPedestalReadable(events)
    ensures x in InterestingEvents(events) <==>
      exists i | 0 <= i < |events| :: events[i].event == x && EventCharge(events[i]) > InterestingCharge
  {
    SelectMember(EventNumbers(events), InterestingMask(events), x);
  }

  /** When every event is above 2e5 fC every event number is listed, in
      event order. */
  lemma AllInteresting(events: seq<Event>)
    requires AllPedestalReadable(events)
    requires forall i | 0 <= i < |events| :: EventCharge(events[i]) > InterestingCharge
    ensures InterestingEvents(events) == EventNumbers(events)
  {
    SelectAll(EventNumbers(events), InterestingMask(events));
  }

  // ---------------------------------------------------------------------
  // Per-channel fills

  /** The `sumq` entries of one event's valid channels in one subdetector. */
  function EventSumQFills(e: Event, s: Subdet): (fills: seq<SumQFill>)
    requires PedestalReadable(e) && s != HF
    ensures |fills| == NumValid(e, s)
  {
    var vs := ValidOnly(DigisOf(e, s));
    seq(|vs|, i requires 0 <= i < |vs| => SumQFill(s, SumQ(vs[i]), IsBx1(e)))
  }

  /** The `sumq_depthmap` entries of one event's valid channels. */
  function EventDepthFills(e: Event, s: Subdet): (fills: seq<DepthFill>)
    requires PedestalReadable(e) && s != HF
    ensures |fills| == NumValid(e, s)
  {
    var vs := ValidOnly(DigisOf(e, s));
    seq(|vs|, i requires 0 <= i < |vs| => DepthFill(vs[i].ieta, vs[i].iphi, vs[i].depth, SumQ(vs[i])))
  }

  function NumValid(e: Event, s: Subdet): nat
  {
    |ValidOnly(DigisOf(e, s))|
  }

  /** The `sumq` entries of one subdetector over all events, flattened. */
  function SumQFills(events: seq<Event>, s: Subdet): seq<SumQFill>
    requires AllPedestalReadable(events) && s != HF
  {
    if events == [] then []
    else EventSumQFills(events[0], s) + SumQFills(events[1..], s)
  }

  /** The `sumq_depthmap` entries of one subdetector over all events, flattened. */
  function DepthFills(events: seq<Event>, s: Subdet): seq<DepthFill>
    requires AllPedestalReadable(events) && s != HF
  {
    if events == [] then []
    else EventDepthFills(events[0], s) + DepthFills(events[1..], s)
  }

  /** The valid channels of a readable event carry the 8 slices. */
  lemma ValidChannelsReadable(e: Event, s: Subdet)
    requires PedestalReadable(e) && s != HF
    ensures AllHaveSlices(ValidOnly(DigisOf(e, s)), PedestalSlices)
  {
  }

  /** Every fill is aligned with the flattened valid channel it comes from:
      it carries that channel's subdetector and sumq, and the broadcast
      `is_bx1` is that channel's own event's flag. */
  lemma {:induction false} SumQFillsAligned(events: seq<Event>, s: Subdet)
    requires AllPedestalReadable(events) && s != HF
    ensures var fills, hits := SumQFills(events, s), ValidHits(events, s);
      |fills| == |hits|
      && forall k | 0 <= k < |hits| ::
        fills[k].subdet == s && fills[k].isBx1 == (hits[k].0.bunchCrossing == 1)
        && HasSlices(hits[k].1, PedestalSlices) && fills[k].sumq == SumQ(hits[k].1)
  {
    if events != [] {
      SumQFillsAligned(events[1..], s);
      ValidChannelsReadable(events[0], s);
    }
  }

  /** Every depth-map fill sits at the position of the flattened valid
      channel it comes from and is weighted by that channel's sumq. */
  lemma {:induction false} DepthFillsAligned(events: seq<Event>, s: Subdet)
    requires AllPedestalReadable(events) && s != HF
    ensures var fills, hits := DepthFills(events, s), ValidHits(events, s);
      |fills| == |hits|
      && forall k | 0 <= k < |hits| ::
        fills[k].ieta == hits[k].1.ieta && fills[k].iphi == hits[k].1.iphi && fills[k].depth == hits[k].1.depth
        && HasSlices(hits[k].1, PedestalSlices) && fills[k].weight == SumQ(hits[k].1)
  {
    if events != [] {
      DepthFillsAligned(events[1..], s);
      ValidChannelsReadable(events[0], s);
    }
  }

  /** There is one `sumq` entry per valid channel. */
  lemma SumQFillsCount(events: seq<Event>, s: Subdet)
    requires AllPedestalReadable(events) && s != HF
    ensures |SumQFills(events, s)| == Sum(ValidCounts(events, s))
  {
    SumQFillsAligned(events, s);
    ValidHitsCount(events, s);
  }

  /** The weight a depth-map entry is filled with. */
  function Weight(fill: DepthFill): int
  {
    fill.weight
  }

  /** The charge one subdetector adds to each event's eventq. */
  function SubdetCharges(events: seq<Event>, s: Subdet): (qs: seq<int>)
    requires AllPedestalReadable(events) && s != HF
    ensures |qs| == |events|
  {
    seq(|events|, i requires 0 <= i < |events| => ValidCharge(DigisOf(events[i], s)))
  }

  /** One event's depth-map entries weigh, in total, that event's charge in
      the subdetector. */
  lemma EventDepthWeight(e: Event, s: Subdet)
    requires PedestalReadable(e) && s != HF
    ensures Sum(Project(EventDepthFills(e, s), Weight)) == ValidCharge(DigisOf(e, s))
  {
    assert Project(EventDepthFills(e, s), Weight) == SumQs(ValidOnly(DigisOf(e, s)));
  }

  /** The depth map of a subdetector carries, in total weight, exactly the
      charge that subdetector adds to the events' eventq. */
  lemma {:induction false} DepthMapWeight(events: seq<Event>, s: Subdet)
    requires AllPedestalReadable(events) && s != HF
    ensures Sum(Project(DepthFills(events, s), Weight)) == Sum(SubdetCharges(events, s))
  {
    if events != [] {
      var head, tail := EventDepthFills(events[0], s), DepthFills(events[1..], s);
      assert DepthFills(events, s) == head + tail;
      DepthMapWeight(events[1..], s);
      EventDepthWeight(events[0], s);
      SumProjectAppend(head, tail, Weight);
      SubdetChargesCons(events, s);
    }
  }

  lemma SubdetChargesCons(events: seq<Event>, s: Subdet)
    requires AllPedestalReadable(events) && s != HF && events != []
    ensures AllPedestalReadable(events[1..])
    ensures Sum(SubdetCharges(events, s))
      == ValidCharge(DigisOf(events[0], s)) + Sum(SubdetCharges(events[1..], s))
  {
    assert SubdetCharges(events, s)[1..] == SubdetCharges(events[1..], s);
  }

  // ---------------------------------------------------------------------
  // The processor

  /** The eventq vector after the subdetectors `ss`, starting from zeros. */
  function EventChargesAfter(events: seq<Event>, ss: seq<Subdet>): (qs: seq<int>)
    requires AllPedestalReadable(events) && HF !in ss
    ensures |qs| == |events|
  {
    if ss == [] then seq(|events|, i => 0)
    else
      var n := |ss| - 1;
      Add(EventChargesAfter(events, ss[..n]), SubdetCharges(events, ss[n]))
  }

  /** Each entry of the accumulated vector is its own event's charge over
      the same subdetectors. */
  lemma {:induction false} EventChargesAfterEntry(events: seq<Event>, ss: seq<Subdet>, i: nat)
    requires AllPedestalReadable(events) && HF !in ss && i < |events|
    ensures EventChargesAfter(events, ss)[i] == ChargeAfter(events[i], ss)
  {
    if ss != [] {
      var n := |ss| - 1;
      assert HF !in ss[..n];
      EventChargesAfterEntry(events, ss[..n], i);
    }
  }

  function SumQFillsAfter(events: seq<Event>, ss: seq<Subdet>): seq<SumQFill>
    requires AllPedestalReadable(events) && HF !in ss
  {
    if ss == [] then []
    else
      var n := |ss| - 1;
      SumQFillsAfter(events, ss[..n]) + SumQFills(events, ss[n])
  }

  function DepthFillsAfter(events: seq<Event>, ss: seq<Subdet>): seq<DepthFill>
    requires AllPedestalReadable(events) && HF !in ss
  {
    if ss == [] then []
    else
      var n := |ss| - 1;
      DepthFillsAfter(events, ss[..n]) + DepthFills(events, ss[n])
  }

  lemma FillsHBHE(events: seq<Event>)
    requires AllPedestalReadable(events)
    ensures SumQFillsAfter(events, Subdets) == SumQFills(events, HB) + SumQFills(events, HE)
    ensures DepthFillsAfter(events, Subdets) == DepthFills(events, HB) + DepthFills(events, HE)
  {
    assert Subdets[..1] == [HB] && [HB][..0] == [];
    assert SumQFillsAfter(events, [HB]) == SumQFills(events, HB);
    assert DepthFillsAfter(events, [HB]) == DepthFills(events, HB);
  }

  /** The per-event histogram entries and the interesting-event mask, built
      from the accumulated eventq vector. */
  lemma FromEventCharges(events: seq<Event>, eventq: seq<int>)
    requires AllPedestalReadable(events) && |eventq| == |events|
    requires forall i | 0 <= i < |events| :: eventq[i] == EventCharge(events[i])
    ensures seq(|events|, i requires 0 <= i < |events| => EventQFill(IsBx1(events[i]), eventq[i]))
      == EventQFills(events)
    ensures seq(|events|, i requires 0 <= i < |events| => eventq[i] > InterestingCharge)
      == InterestingMask(events)
  {
  }

  /** `process`: eventq is accumulated over HB and HE, the per-channel
      histograms are filled from the valid channels of HB and then HE, and
      the events above 2e5 fC are listed. */
  method Process(chunk: Chunk) returns (result: map<string, Output>)
    requires AllPedestalReadable(chunk.events)
    ensures result.Keys == {chunk.dataset}
    ensures var o, events := result[chunk.dataset], chunk.events;
      o.nevents == |events|
      && o.sumq == SumQFills(events, HB) + SumQFills(events, HE)
      && o.depthmap == DepthFills(events, HB) + DepthFills(events, HE)
      && o.eventq == EventQFills(events)
      && o.interesting == InterestingEvents(events)
  {
    var events := chunk.events;
    var eventq: seq<int> := seq(|events|, i => 0);
    var sumq: seq<SumQFill> := [];
    var depthmap: seq<DepthFill> := [];
    for k := 0 to |Subdets|
      invariant eventq == EventChargesAfter(events, Subdets[..k])
      invariant sumq == SumQFillsAfter(events, Subdets[..k])
      invariant depthmap == DepthFillsAfter(events, Subdets[..k])
    {
      var s := Subdets[k];
      assert Subdets[..k + 1][..k] == Subdets[..k];
      eventq := Add(eventq, SubdetCharges(events, s));
      sumq := sumq + SumQFills(events, s);
      depthmap := depthmap + DepthFills(events, s);
    }
    assert Subdets[..2] == Subdets;
    FillsHBHE(events);
    forall i | 0 <= i < |events| ensures eventq[i] == EventCharge(events[i]) {
      EventChargesAfterEntry(events, Subdets, i);
    }
    var fills := seq(|events|, i requires 0 <= i < |events| => EventQFill(IsBx1(events[i]), eventq[i]));
    var mask := seq(|events|, i requires 0 <= i < |events| => eventq[i] > InterestingCharge);
    FromEventCharges(events, eventq);
    var interesting := Select(EventNumbers(events), mask);
    result := map[chunk.dataset := Output(|events|, sumq, depthmap, fills, interesting)];
  }
}
