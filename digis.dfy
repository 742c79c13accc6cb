/** Events and channel digis of the HCAL nano files, and the per-channel and
    per-event charge quantities the processors derive from them. */
module Digis {
  import opened Seqs

  datatype Subdet = HB | HE | HF

  /** One channel digi. `fc[i]` and `pedestalfc[i]` are the per-time-slice
      branches `fc{i}` and `pedestalfc{i}`; `valid` is false for the
      placeholder entries the nano step fills with default values. Charges
      are whole femtocoulombs. */
  datatype Digi = Digi(
    valid: bool,
    ieta: int,
    iphi: int,
    depth: int,
    fc: seq<int>,
    pedestalfc: seq<int>)

  /** One event: its number, its bunch crossing and its digis per subdetector. */
  datatype Event = Event(
    event: int,
    bunchCrossing: int,
    hb: seq<Digi>,
    he: seq<Digi>,
    hf: seq<Digi>)

  /** The events one `process` call receives, with the dataset name of their
      file (`events.metadata["dataset"]`). */
  datatype Chunk = Chunk(dataset: string, events: seq<Event>)

  function DigisOf(e: Event, s: Subdet): seq<Digi>
  {
    match s
    case HB => e.hb
    case HE => e.he
    case HF => e.hf
  }

  /** `events.event`. */
  function EventNumbers(events: seq<Event>): (ns: seq<int>)
    ensures |ns| == |events| && forall i | 0 <= i < |events| :: ns[i] == events[i].event
  {
    seq(|events|, i requires 0 <= i < |events| => events[i].event)
  }

  /** Time slices the pedestal-subtracting processors stack for HB and HE. */
  const PedestalSlices: nat := 8

  /** `nTS` of the splash processors: 8 slices for HB and HE, 3 for HF. */
  function NumSlices(s: Subdet): nat
  {
    if s == HF then 3 else 8
  }

  predicate HasSlices(d: Digi, n: nat)
  {
    n <= |d.fc| && n <= |d.pedestalfc|
  }

  predicate AllHaveSlices(ds: seq<Digi>, n: nat)
  {
    forall d | d in ds :: HasSlices(d, n)
  }

  predicate AllHaveCharge(ds: seq<Digi>, n: nat)
  {
    forall d | d in ds :: n <= |d.fc|
  }

  /** The HB and HE digis of the event carry the 8 charge and pedestal
      slices that the pedestal-subtracting processors stack. */
  predicate PedestalReadable(e: Event)
  {
    AllHaveSlices(e.hb, PedestalSlices) && AllHaveSlices(e.he, PedestalSlices)
  }

  predicate AllPedestalReadable(events: seq<Event>)
  {
    forall i | 0 <= i < |events| :: PedestalReadable(events[i])
  }

  /** Every digi carries the `nTS` charge slices of its subdetector. */
  predicate RawReadable(e: Event)
  {
    AllHaveCharge(e.hb, NumSlices(HB)) && AllHaveCharge(e.he, NumSlices(HE))
    && AllHaveCharge(e.hf, NumSlices(HF))
  }

  predicate AllRawReadable(events: seq<Event>)
  {
    forall i | 0 <= i < |events| :: RawReadable(events[i])
  }

  // ---------------------------------------------------------------------
  // Per-channel charge

  /** `realfc`: the pedestal-subtracted charge of each of the 8 slices. */
  function RealFc(d: Digi): seq<int>
    requires HasSlices(d, PedestalSlices)
  {
    seq(PedestalSlices, i requires 0 <= i < PedestalSlices => d.fc[i] - d.pedestalfc[i])
  }

  /** `sumq`: the pedestal-subtracted charge summed over the 8 slices. */
  function SumQ(d: Digi): int
    requires HasSlices(d, PedestalSlices)
  {
    Sum(RealFc(d))
  }

  /** sumq is the total charge of the 8 slices minus their total pedestal. */
  lemma SumQIsChargeMinusPedestal(d: Digi)
    requires HasSlices(d, PedestalSlices)
    ensures SumQ(d) == Sum(d.fc[..PedestalSlices]) - Sum(d.pedestalfc[..PedestalSlices])
  {
    var a, b := d.fc[..PedestalSlices], d.pedestalfc[..PedestalSlices];
    SumOfDifferences(a, b);
    assert RealFc(d) == seq(|a|, i requires 0 <= i < |a| => a[i] - b[i]);
  }

  /** A channel whose charge equals its pedestal in every slice has sumq 0. */
  lemma SumQZeroWhenChargeIsPedestal(d: Digi)
    requires HasSlices(d, PedestalSlices)
    requires forall i | 0 <= i < PedestalSlices :: d.fc[i] == d.pedestalfc[i]
    ensures SumQ(d) == 0
  {
    SumOfZeros(RealFc(d));
  }

  /** The splash processors' `sumq`: the raw charge of the first n slices,
      with no pedestal subtraction. */
  function RawSumQ(d: Digi, n: nat): int
    requires n <= |d.fc|
  {
    Sum(d.fc[..n])
  }

  // ---------------------------------------------------------------------
  // The valid-digi filter

  /** `digis.valid`. */
  function ValidMask(ds: seq<Digi>): (m: seq<bool>)
    ensures |m| == |ds| && forall i | 0 <= i < |ds| :: m[i] == ds[i].valid
  {
    seq(|ds|, i requires 0 <= i < |ds| => ds[i].valid)
  }

  /** `digis[digis.valid]`. */
  function ValidOnly(ds: seq<Digi>): (r: seq<Digi>)
    ensures forall d | d in r :: d in ds && d.valid
  {
    var r := Select(ds, ValidMask(ds));
    assert forall d | d in r :: d in ds && d.valid by {
      forall d | d in r ensures d in ds && d.valid {
        SelectMember(ds, ValidMask(ds), d);
      }
    }
    r
  }

  lemma ValidOnlyMember(ds: seq<Digi>, d: Digi)
    ensures d in ValidOnly(ds) <==> d in ds && d.valid
  {
    SelectMember(ds, ValidMask(ds), d);
  }

  lemma ValidOnlyAppend(a: seq<Digi>, b: seq<Digi>)
    ensures ValidOnly(a + b) == ValidOnly(a) + ValidOnly(b)
  {
    assert ValidMask(a + b) == ValidMask(a) + ValidMask(b);
    SelectAppend(a, ValidMask(a), b, ValidMask(b));
  }

  lemma ValidOnlySingle(d: Digi)
    ensures ValidOnly([d]) == if d.valid then [d] else []
  {
    assert [d][1..] == [];
  }

  /** Adding a digi adds one valid digi when it is valid, whatever its charge. */
  lemma ValidCountSnoc(ds: seq<Digi>, d: Digi)
    ensures |ValidOnly(ds + [d])| == |ValidOnly(ds)| + (if d.valid then 1 else 0)
  {
    ValidOnlyAppend(ds, [d]);
    ValidOnlySingle(d);
  }

  lemma ValidOnlyNone(ds: seq<Digi>)
    requires forall d | d in ds :: !d.valid
    ensures ValidOnly(ds) == []
  {
    SelectNone(ds, ValidMask(ds));
  }

  /** `nhits` of the BX1 processor: the number of valid digis per event,
      `ak.num` over the valid digis. */
  function ValidCounts(events: seq<Event>, s: Subdet): (ns: seq<int>)
    ensures |ns| == |events|
    ensures forall i | 0 <= i < |events| :: ns[i] == |ValidOnly(DigisOf(events[i], s))|
  {
    seq(|events|, i requires 0 <= i < |events| => |ValidOnly(DigisOf(events[i], s))|)
  }

  // ---------------------------------------------------------------------
  // Per-event charge sums over the valid digis

  function SumQs(ds: seq<Digi>): (qs: seq<int>)
    requires AllHaveSlices(ds, PedestalSlices)
    ensures |qs| == |ds|
  {
    seq(|ds|, i requires 0 <= i < |ds| => SumQ(ds[i]))
  }

  lemma SumQsAppend(a: seq<Digi>, b: seq<Digi>)
    requires AllHaveSlices(a, PedestalSlices) && AllHaveSlices(b, PedestalSlices)
    ensures AllHaveSlices(a + b, PedestalSlices)
    ensures SumQs(a + b) == SumQs(a) + SumQs(b)
  {
    assert SumQs(a + b) == SumQs(a) + SumQs(b);
  }

  /** `ak.sum(validdigis["sumq"], axis=-1)`: the pedestal-subtracted charge of
      the valid digis of one subdetector. */
  function ValidCharge(ds: seq<Digi>): int
    requires AllHaveSlices(ds, PedestalSlices)
  {
    Sum(SumQs(ValidOnly(ds)))
  }

  /** Adding a digi adds its sumq when it is valid and nothing otherwise. */
  lemma ValidChargeSnoc(ds: seq<Digi>, d: Digi)
    requires AllHaveSlices(ds, PedestalSlices) && HasSlices(d, PedestalSlices)
    ensures AllHaveSlices(ds + [d], PedestalSlices)
    ensures ValidCharge(ds + [d]) == ValidCharge(ds) + (if d.valid then SumQ(d) else 0)
  {
    ValidOnlyAppend(ds, [d]);
    ValidOnlySingle(d);
    SumQsAppend(ValidOnly(ds), ValidOnly([d]));
    SumAppend(SumQs(ValidOnly(ds)), SumQs(ValidOnly([d])));
  }

  function RawSumQs(ds: seq<Digi>, n: nat): (qs: seq<int>)
    requires AllHaveCharge(ds, n)
    ensures |qs| == |ds|
  {
    seq(|ds|, i requires 0 <= i < |ds| => RawSumQ(ds[i], n))
  }

  /** The raw charge of the valid digis of one subdetector, over n slices. */
  function RawCharge(ds: seq<Digi>, n: nat): int
    requires AllHaveCharge(ds, n)
  {
    Sum(RawSumQs(ValidOnly(ds), n))
  }

  lemma RawChargeSnoc(ds: seq<Digi>, d: Digi, n: nat)
    requires AllHaveCharge(ds, n) && n <= |d.fc|
    ensures AllHaveCharge(ds + [d], n)
    ensures RawCharge(ds + [d], n) == RawCharge(ds, n) + (if d.valid then RawSumQ(d, n) else 0)
  {
    ValidOnlyAppend(ds, [d]);
    ValidOnlySingle(d);
    var a, b := ValidOnly(ds), ValidOnly([d]);
    assert RawSumQs(a + b, n) == RawSumQs(a, n) + RawSumQs(b, n);
    SumAppend(RawSumQs(a, n), RawSumQs(b, n));
  }

  /** `event_sumq` of the splash processors for one event, accumulated over
      the subdetectors `ss` in order. */
  function RawChargeOver(e: Event, ss: seq<Subdet>): int
    requires RawReadable(e)
  {
    if ss == [] then 0
    else
      var s := ss[|ss| - 1];
      RawChargeOver(e, ss[..|ss| - 1]) + RawCharge(DigisOf(e, s), NumSlices(s))
  }

  /** `event_sumq` of one event: raw charge of the valid HB, HE and HF digis. */
  function EventRawCharge(e: Event): int
    requires RawReadable(e)
  {
    RawChargeOver(e, [HB, HE, HF])
  }

  /** Written out: the three subdetector sums, over 8, 8 and 3 slices. */
  lemma EventRawChargeSplit(e: Event)
    requires RawReadable(e)
    ensures EventRawCharge(e) == RawCharge(e.hb, 8) + RawCharge(e.he, 8) + RawCharge(e.hf, 3)
  {
    assert [HB, HE, HF][..2] == [HB, HE];
    assert [HB, HE][..1] == [HB];
    assert [HB][..0] == [];
    calc {
      EventRawCharge(e);
      RawChargeOver(e, [HB, HE]) + RawCharge(e.hf, 3);
      RawChargeOver(e, [HB]) + RawCharge(e.he, 8) + RawCharge(e.hf, 3);
      RawChargeOver(e, []) + RawCharge(e.hb, 8) + RawCharge(e.he, 8) + RawCharge(e.hf, 3);
    }
  }

  // ---------------------------------------------------------------------
  // Flattened valid digis

  /** The valid digis of one subdetector flattened over the events in event
      order, each next to its own event: what `ak.flatten` of the valid digis
      and of the event fields broadcast to their shape line up. */
  function ValidHits(events: seq<Event>, s: Subdet): (hits: seq<(Event, Digi)>)
    ensures forall h | h in hits :: h.0 in events && h.1 in DigisOf(h.0, s) && h.1.valid
  {
    if events == [] then []
    else PairWith(events[0], ValidOnly(DigisOf(events[0], s))) + ValidHits(events[1..], s)
  }

  /** Every valid digi of every event is among the flattened hits. */
  lemma {:induction false} ValidHitsComplete(events: seq<Event>, s: Subdet, e: Event, d: Digi)
    requires e in events && d in DigisOf(e, s) && d.valid
    ensures (e, d) in ValidHits(events, s)
  {
    if events[0] == e {
      ValidOnlyMember(DigisOf(e, s), d);
      var vs := ValidOnly(DigisOf(e, s));
      var i :| 0 <= i < |vs| && vs[i] == d;
      assert PairWith(e, vs)[i] == (e, d);
    } else {
      ValidHitsComplete(events[1..], s, e, d);
    }
  }

  lemma {:induction false} ValidHitsAppend(a: seq<Event>, b: seq<Event>, s: Subdet)
    ensures ValidHits(a + b, s) == ValidHits(a, s) + ValidHits(b, s)
  {
    if a == [] {
      assert a + b == b;
    } else {
      assert (a + b)[1..] == a[1..] + b;
      ValidHitsAppend(a[1..], b, s);
    }
  }

  /** There are exactly as many flattened hits as valid digis. */
  lemma {:induction false} ValidHitsCount(events: seq<Event>, s: Subdet)
    ensures |ValidHits(events, s)| == Sum(ValidCounts(events, s))
  {
    if events != [] {
      ValidHitsCount(events[1..], s);
      assert ValidCounts(events, s)[1..] == ValidCounts(events[1..], s);
    }
  }
}
