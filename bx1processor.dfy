/** The BX1 processor: for HB and HE in turn, the total charge of the
    channels above 60 fC against the number of valid channels in each event,
    and the lists of events with a suspiciously large charge or occupancy. */
module Bx1Processor {
  import opened Seqs
  import opened Digis

  /** A channel adds its sumq to eventq when sumq is above this many fC. */
  const HitThreshold := 60
  /** `highq_events`: more than this many valid channels ... */
  const HighQHits := 400
  /** ... and more than this much charge above threshold (5.e4 fC). */
  const HighQCharge := 50000
  /** `full_events`: more than this many valid channels. */
  const FullHits := 9000
  /** Each list grows by at most this many events per subdetector. */
  const ListCap: nat := 100

  /** The subdetectors `process` loops over, in order. */
  const Subdets: seq<Subdet> := [HB, HE]

  /** One entry of the `eventq` histogram: bx, subdet, eventq and nhits. */
  datatype EventQFill = EventQFill(bx: int, subdet: Subdet, eventq: int, nhits: int)

  /** The output dictionary of one `process` call. `avgq` is not modelled. */
  datatype Output = Output(
    nevents: nat,
    eventq: seq<EventQFill>,
    badEvents: seq<int>,
    fullEvents: seq<int>)

  /** `validdigis["sumq"] > 60`. */
  function AboveThreshold(qs: seq<int>): (m: seq<bool>)
    ensures |m| == |qs| && forall i | 0 <= i < |qs| :: m[i] == (qs[i] > HitThreshold)
  {
    seq(|qs|, i requires 0 <= i < |qs| => qs[i] > HitThreshold)
  }

  /** eventq of one event in one subdetector: the summed sumq of the valid
      channels whose sumq is above 60 fC. */
  function ChargeAboveThreshold(ds: seq<Digi>): int
    requires AllHaveSlices(ds, PedestalSlices)
  {
    var qs := SumQs(ValidOnly(ds));
    Sum(Select(qs, AboveThreshold(qs)))
  }

  /** A channel adds its sumq to eventq only when it is valid and its sumq is
      above 60 fC; a channel at exactly 60 fC adds nothing. */
  lemma ChargeAboveThresholdSnoc(ds: seq<Digi>, d: Digi)
    requires AllHaveSlices(ds, PedestalSlices) && HasSlices(d, PedestalSlices)
    ensures AllHaveSlices(ds + [d], PedestalSlices)
    ensures ChargeAboveThreshold(ds + [d])
      == ChargeAboveThreshold(ds) + (if d.valid && SumQ(d) > HitThreshold then SumQ(d) else 0)
  {
    assert AllHaveSlices(ds + [d], PedestalSlices) by {
      assert forall x | x in ds + [d] :: x in ds || x == d;
    }
    ValidOnlyAppend(ds, [d]);
    ValidOnlySingle(d);
    var a, b := ValidOnly(ds), ValidOnly([d]);
    SumQsAppend(a, b);
    var qa, qb := SumQs(a), SumQs(b);
    var ma, mb := AboveThreshold(qa), AboveThreshold(qb);
    assert AboveThreshold(qa + qb) == ma + mb by {
      assert forall i | 0 <= i < |qa + qb| :: AboveThreshold(qa + qb)[i] == (ma + mb)[i];
    }
    SelectAppend(qa, ma, qb, mb);
    SumAppend(Select(qa, ma), Select(qb, mb));
    assert Sum(Select(qb, mb)) == if d.valid && SumQ(d) > HitThreshold then SumQ(d) else 0 by {
      if d.valid {
        assert qb == [SumQ(d)];
        assert Select(qb, mb) == if SumQ(d) > HitThreshold then [SumQ(d)] else [];
      }
    }
  }

  /** An event without valid channels has eventq 0 and nhits 0. */
  lemma NoValidChannels(ds: seq<Digi>)
    requires AllHaveSlices(ds, PedestalSlices)
    requires forall d | d in ds :: !d.valid
    ensures ChargeAboveThreshold(ds) == 0 && |ValidOnly(ds)| == 0
  {
    ValidOnlyNone(ds);
    assert SumQs([]) == [];
  }

  /** Valid channels at or below 60 fC still count as hits although they add
      no charge: nhits is the number of valid channels, eventq ignores them. */
  lemma {:induction false} ChannelsBelowThreshold(ds: seq<Digi>)
    requires AllHaveSlices(ds, PedestalSlices)
    requires forall d | d in ds :: d.valid && SumQ(d) <= HitThreshold
    ensures |ValidOnly(ds)| == |ds| && ChargeAboveThreshold(ds) == 0
    decreases |ds|
  {
    if ds == [] {
      assert SumQs([]) == [];
    } else {
      var n := |ds| - 1;
      assert ds == ds[..n] + [ds[n]];
      assert ds[n] in ds;
      ChannelsBelowThreshold(ds[..n]);
      ChargeAboveThresholdSnoc(ds[..n], ds[n]);
      ValidCountSnoc(ds[..n], ds[n]);
    }
  }

  /** eventq is never negative: only channels above 60 fC contribute. */
  lemma {:induction false} ChargeAboveThresholdNonNegative(ds: seq<Digi>)
    requires AllHaveSlices(ds, PedestalSlices)
    ensures ChargeAboveThreshold(ds) >= 0
    decreases |ds|
  {
    if ds != [] {
      var n := |ds| - 1;
      assert ds == ds[..n] + [ds[n]];
      ChargeAboveThresholdNonNegative(ds[..n]);
      ChargeAboveThresholdSnoc(ds[..n], ds[n]);
    }
  }

  /** nhits of one event in one subdetector: `ak.num` of the mask
      `validdigis["sumq"] > 60`, which has one entry per valid channel, so
      every valid channel is counted whatever its charge. */
  function NHits(e: Event, s: Subdet): nat
  {
    |ValidOnly(DigisOf(e, s))|
  }

  /** eventq of one event in one subdetector. */
  function EventQ(e: Event, s: Subdet): int
    requires PedestalReadable(e) && s != HF
  {
    ChargeAboveThreshold(DigisOf(e, s))
  }

  /** The `eventq` histogram entries of one subdetector, one per event. */
  function EventQFills(events: seq<Event>, s: Subdet): (fills: seq<EventQFill>)
    requires AllPedestalReadable(events) && s != HF
    ensures |fills| == |events|
  {
    seq(|events|, i requires 0 <= i < |events| =>
      EventQFill(events[i].bunchCrossing, s, EventQ(events[i], s), NHits(events[i], s)))
  }

  /** `(nhits > 400) & (eventq > 5.e4)` for one event. */
  predicate IsHighQ(e: Event, s: Subdet)
    requires PedestalReadable(e) && s != HF
  {
    NHits(e, s) > HighQHits && EventQ(e, s) > HighQCharge
  }

  /** `nhits > 9000` for one event. */
  predicate IsFull(e: Event, s: Subdet)
  {
    NHits(e, s) > FullHits
  }

  function HighQMask(events: seq<Event>, s: Subdet): (m: seq<bool>)
    requires AllPedestalReadable(events) && s != HF
    ensures |m| == |events|
  {
    seq(|events|, i requires 0 <= i < |events| => IsHighQ(events[i], s))
  }

  function FullMask(events: seq<Event>, s: Subdet): (m: seq<bool>)
    ensures |m| == |events|
  {
    seq(|events|, i requires 0 <= i < |events| => IsFull(events[i], s))
  }

  /** `highq_events`: the numbers of the high-charge events, in event order. */
  function HighQEvents(events: seq<Event>, s: Subdet): seq<int>
    requires AllPedestalReadable(events) && s != HF
  {
    Select(EventNumbers(events), HighQMask(events, s))
  }

  /** `full_events`: the numbers of the high-occupancy events, in event order. */
  function FullEvents(events: seq<Event>, s: Subdet): seq<int>
  {
    Select(EventNumbers(events), FullMask(events, s))
  }

  /** An event number is listed as high-charge exactly when some event with
      that number has more than 400 valid channels and more than 5e4 fC above
      threshold. */
  lemma HighQEventsMember(events: seq<Event>, s: Subdet, x: int)
    requires AllPedestalReadable(events) && s != HF
    ensures x in HighQEvents(events, s) <==>
      exists i | 0 <= i < |events| ::
        events[i].event == x && NHits(events[i], s) > HighQHits
        && EventQ(events[i], s) > HighQCharge
  {
    SelectMember(EventNumbers(events), HighQMask(events, s), x);
  }

  /** An event number is listed as full exactly when some event with that
      number has more than 9000 valid channels. */
  lemma FullEventsMember(events: seq<Event>, s: Subdet, x: int)
    ensures x in FullEvents(events, s) <==>
      exists i | 0 <= i < |events| ::
        events[i].event == x && NHits(events[i], s) > FullHits
  {
    SelectMember(EventNumbers(events), FullMask(events, s), x);
  }

  /** Splitting the events splits the high-charge list: the list keeps the
      order of the events. */
  lemma HighQEventsAppend(a: seq<Event>, b: seq<Event>, s: Subdet)
    requires AllPedestalReadable(a) && AllPedestalReadable(b) && s != HF
    ensures AllPedestalReadable(a + b)
    ensures HighQEvents(a + b, s) == HighQEvents(a, s) + HighQEvents(b, s)
  {
    var ab := a + b;
    assert AllPedestalReadable(ab) by {
      assert forall i | 0 <= i < |ab| :: ab[i] == (if i < |a| then a[i] else b[i - |a|]);
    }
    var ns, na, nb := EventNumbers(ab), EventNumbers(a), EventNumbers(b);
    var m, ma, mb := HighQMask(ab, s), HighQMask(a, s), HighQMask(b, s);
    assert ns == na + nb by {
      assert forall i | 0 <= i < |ab| :: ns[i] == (na + nb)[i];
    }
    assert m == ma + mb by {
      assert forall i | 0 <= i < |ab| :: m[i] == (ma + mb)[i];
    }
    SelectAppend(na, ma, nb, mb);
  }

  /** A full event (more than 9000 valid channels) with more than 5e4 fC
      above threshold is also a high-charge event. */
  lemma FullAndChargedIsHighQ(events: seq<Event>, s: Subdet, i: nat)
    requires AllPedestalReadable(events) && s != HF && i < |events|
    requires IsFull(events[i], s) && EventQ(events[i], s) > HighQCharge
    ensures events[i].event in HighQEvents(events, s)
  {
    HighQEventsMember(events, s, events[i].event);
  }

  /** The `eventq` entries after the subdetectors `ss` in order. */
  function EventQFillsAfter(events: seq<Event>, ss: seq<Subdet>): seq<EventQFill>
    requires AllPedestalReadable(events) && HF !in ss
  {
    if ss == [] then []
    else
      var n := |ss| - 1;
      EventQFillsAfter(events, ss[..n]) + EventQFills(events, ss[n])
  }

  /** `bad_events` after the subdetectors `ss` in order. */
  function BadEventsAfter(events: seq<Event>, ss: seq<Subdet>): seq<int>
    requires AllPedestalReadable(events) && HF !in ss
  {
    if ss == [] then []
    else
      var n := |ss| - 1;
      BadEventsAfter(events, ss[..n]) + Prefix(HighQEvents(events, ss[n]), ListCap)
  }

  /** `full_events` after the subdetectors `ss` in order. */
  function FullEventsAfter(events: seq<Event>, ss: seq<Subdet>): seq<int>
  {
    if ss == [] then []
    else
      var n := |ss| - 1;
      FullEventsAfter(events, ss[..n]) + Prefix(FullEvents(events, ss[n]), ListCap)
  }

  /** Each subdetector adds one `eventq` entry per event. */
  lemma {:induction false} EventQFillsAfterSize(events: seq<Event>, ss: seq<Subdet>)
    requires AllPedestalReadable(events) && HF !in ss
    ensures |EventQFillsAfter(events, ss)| == |ss| * |events|
  {
    if ss != [] {
      var n := |ss| - 1;
      assert HF !in ss[..n];
      EventQFillsAfterSize(events, ss[..n]);
      assert |ss| * |events| == n * |events| + |events|;
    }
  }

  /** Each subdetector adds at most 100 events to each list. */
  lemma {:induction false} ListsAfterBound(events: seq<Event>, ss: seq<Subdet>)
    requires AllPedestalReadable(events) && HF !in ss
    ensures |BadEventsAfter(events, ss)| <= |ss| * ListCap
    ensures |FullEventsAfter(events, ss)| <= |ss| * ListCap
  {
    if ss != [] {
      var n := |ss| - 1;
      assert HF !in ss[..n];
      ListsAfterBound(events, ss[..n]);
    }
  }

  // Processing HB and then HE, written out field by field.

  lemma EventQFillsHBHE(events: seq<Event>)
    requires AllPedestalReadable(events)
    ensures EventQFillsAfter(events, Subdets) == EventQFills(events, HB) + EventQFills(events, HE)
  {
    assert Subdets[..1] == [HB] && [HB][..0] == [];
    assert EventQFillsAfter(events, [HB]) == EventQFills(events, HB);
  }

  lemma BadEventsHBHE(events: seq<Event>)
    requires AllPedestalReadable(events)
    ensures BadEventsAfter(events, Subdets)
      == Prefix(HighQEvents(events, HB), ListCap) + Prefix(HighQEvents(events, HE), ListCap)
  {
    assert Subdets[..1] == [HB] && [HB][..0] == [];
    assert BadEventsAfter(events, [HB]) == Prefix(HighQEvents(events, HB), ListCap);
  }

  lemma FullEventsHBHE(events: seq<Event>)
    ensures FullEventsAfter(events, Subdets)
      == Prefix(FullEvents(events, HB), ListCap) + Prefix(FullEvents(events, HE), ListCap)
  {
    assert Subdets[..1] == [HB] && [HB][..0] == [];
    assert FullEventsAfter(events, [HB]) == Prefix(FullEvents(events, HB), ListCap);
  }

  /** `process`: the output for the chunk's dataset after HB and then HE. */
  method Process(chunk: Chunk) returns (result: map<string, Output>)
    requires AllPedestalReadable(chunk.events)
    ensures result.Keys == {chunk.dataset}
    ensures var o, events := result[chunk.dataset], chunk.events;
      o.nevents == |events|
      && o.eventq == EventQFills(events, HB) + EventQFills(events, HE)
      && o.badEvents == Prefix(HighQEvents(events, HB), ListCap) + Prefix(HighQEvents(events, HE), ListCap)
      && o.fullEvents == Prefix(FullEvents(events, HB), ListCap) + Prefix(FullEvents(events, HE), ListCap)
  {
    var events := chunk.events;
    var output := Output(|events|, [], [], []);
    for k := 0 to |Subdets|
      invariant output.nevents == |events|
      invariant output.eventq == EventQFillsAfter(events, Subdets[..k])
      invariant output.badEvents == BadEventsAfter(events, Subdets[..k])
      invariant output.fullEvents == FullEventsAfter(events, Subdets[..k])
    {
      var s := Subdets[k];
      assert Subdets[..k + 1][..k] == Subdets[..k];
      output := output.(eventq := output.eventq + EventQFills(events, s),
                        badEvents := output.badEvents + Prefix(HighQEvents(events, s), ListCap),
                        fullEvents := output.fullEvents + Prefix(FullEvents(events, s), ListCap));
    }
    assert Subdets[..2] == Subdets;
    EventQFillsHBHE(events);
    BadEventsHBHE(events);
    FullEventsHBHE(events);
    result := map[chunk.dataset := output];
  }
}
