/** The splash processor: the raw charge of every event over HB, HE and HF,
    kept per event number, and the channel histograms of the events listed
    as splash events for the chunk's dataset. The TDC and charge-weighted
    timing histograms are not part of this model. */
module SplashProcessor {
  import opened Seqs
  import opened Digis

  const SplashRun365373 := "r365373_Splashes_FEVT"
  const SplashRun365537 := "r365537_Splashes_FEVT"

  /** The splash events listed for run 365373, in listed order. */
  const SplashNumbers365373: seq<int> := [216, 217, 1258, 1520, 1521]

  /** The splash events listed for run 365537, in listed order. The list is
      kept as four consecutive rows of at most 31 numbers, so that a proof
      can look into each row on its own. */
  const SplashNumbers365537: seq<int> :=
    SplashRow1 + SplashRow2 + SplashRow3 + SplashRow4
  const SplashRow1: seq<int> :=
    [6675, 6802, 6461, 6742, 7244, 7782, 7307, 6601, 7947, 8004, 8118,
     8065, 6536, 7617, 6397, 7834, 8181, 7133, 7086, 10315, 7570, 7885,
     9173, 10430, 9116, 10044, 10386, 8606, 10103, 9280, 8494]
  const SplashRow2: seq<int> :=
    [10160, 8723, 9332, 8834, 8670, 8788, 8386, 9772, 9393, 10272, 8549,
     7134, 6462, 8182, 7571, 8119, 9333, 8005, 6463, 7135, 8551, 9334,
     9174, 7087, 6537, 8550, 8835, 8607, 8183, 10161, 8789]
  const SplashRow3: seq<int> :=
    [6398, 9773, 7948, 9394, 8671, 9175, 8120, 6399, 8552, 10162, 8006,
     6743, 6538, 6744, 6539, 6803, 8387, 6602, 8184, 8121, 8007, 10316,
     10317, 6676, 6464, 9176, 7783, 6746, 7949, 8123, 7245]
  const SplashRow4: seq<int> :=
    [3794, 7835, 7618, 8008, 10387, 4110, 7886, 10431, 5744, 6745, 7573,
     8185, 6465, 7836, 8122, 10432, 7136, 8553, 6603, 2221, 9335, 7088,
     10045, 9177, 8790, 6466, 7089, 7887, 2299, 8009]

  /** The known splash events, as (dataset, event number) pairs: the five of
      run 365373 followed by the 123 of run 365537. */
  const SplashEvents: seq<(string, int)> :=
    PairWith(SplashRun365373, SplashNumbers365373) + PairWith(SplashRun365537, SplashNumbers365537)

  /** `(runkey, x) in self._splash_event_list`: an event is a splash event
      only together with the dataset it was read from. */
  predicate IsSplash(dataset: string, event: int)
  {
    (dataset, event) in SplashEvents
  }

  /** The subdetectors `process` loops over, in order. */
  const Subdets: seq<Subdet> := [HB, HE, HF]

  /** One entry of the `splash_depthmap` histogram, weighted by sumq. */
  datatype DepthFill = DepthFill(eventNumber: int, ieta: int, iphi: int, depth: int, weight: int)

  /** One entry of the `splash_sumq` histogram. */
  datatype SumQFill = SumQFill(eventNumber: int, sumq: int)

  /** The output dictionary of one `process` call; `eventSumq` is the
      `event_sumq_dict`, kept as its items in insertion order. */
  datatype Output = Output(
    nevents: nat,
    eventSumq: seq<(int, int)>,
    depthmap: seq<DepthFill>,
    sumq: seq<SumQFill>)

  /** Splash events are matched by dataset and event number together: the
      last event listed for run 365537 is not a splash event when read from
      the dataset of run 365373. */
  lemma SplashDependsOnDataset()
    ensures |SplashEvents| == 128
    ensures IsSplash(SplashRun365373, 216)
    ensures IsSplash(SplashRun365537, 8009) && !IsSplash(SplashRun365373, 8009)
  {
    assert SplashRun365537 != SplashRun365373 by {
      assert SplashRun365537[4] != SplashRun365373[4];
    }
    assert PairWith(SplashRun365373, SplashNumbers365373)[0] == (SplashRun365373, 216);
    var last := |SplashNumbers365537| - 1;
    assert PairWith(SplashRun365537, SplashNumbers365537)[last] == (SplashRun365537, 8009);
  }

  /** A (dataset, number) pair is a splash event exactly when the number is
      listed for that dataset's run; no other dataset has splash events. */
  lemma SplashRuns(dataset: string, x: int)
    ensures IsSplash(dataset, x) <==>
      (dataset == SplashRun365373 && x in SplashNumbers365373)
      || (dataset == SplashRun365537 && x in SplashNumbers365537)
  {
    var a := PairWith(SplashRun365373, SplashNumbers365373);
    var b := PairWith(SplashRun365537, SplashNumbers365537);
    if (dataset, x) in a {
      var i :| 0 <= i < |a| && a[i] == (dataset, x);
      assert SplashNumbers365373[i] == x;
    }
    if (dataset, x) in b {
      var i :| 0 <= i < |b| && b[i] == (dataset, x);
      assert SplashNumbers365537[i] == x;
    }
    if dataset == SplashRun365373 && x in SplashNumbers365373 {
      var i :| 0 <= i < |SplashNumbers365373| && SplashNumbers365373[i] == x;
      assert a[i] == (dataset, x);
    }
    if dataset == SplashRun365537 && x in SplashNumbers365537 {
      var i :| 0 <= i < |SplashNumbers365537| && SplashNumbers365537[i] == x;
      assert b[i] == (dataset, x);
    }
  }

  /** The two splash datasets are different names. */
  lemma SplashRunNamesDiffer()
    ensures SplashRun365373 != SplashRun365537
  {
    assert SplashRun365537[4] != SplashRun365373[4];
  }

  /** No row of run 365537 lists a number below 2221. */
  lemma SplashRow1Above()
    ensures forall i | 0 <= i < |SplashRow1| :: SplashRow1[i] >= 2221
  { }

  lemma SplashRow2Above()
    ensures forall i | 0 <= i < |SplashRow2| :: SplashRow2[i] >= 2221
  { }

  lemma SplashRow3Above()
    ensures forall i | 0 <= i < |SplashRow3| :: SplashRow3[i] >= 2221
  { }

  lemma SplashRow4Above()
    ensures forall i | 0 <= i < |SplashRow4| :: SplashRow4[i] >= 2221
  { }

  /** Every splash number of run 365537 lies above those of run 365373. */
  lemma SplashNumbersApart(x: int)
    ensures x in SplashNumbers365373 ==> x <= 1521
    ensures x in SplashNumbers365537 ==> x >= 2221
  {
    if x in SplashNumbers365537 {
      SplashRow1Above();
      SplashRow2Above();
      SplashRow3Above();
      SplashRow4Above();
      var i :| 0 <= i < |SplashNumbers365537| && SplashNumbers365537[i] == x;
    }
  }

  /** No event number is listed under both runs, so a number that is a
      splash event of one run is never one of the other. */
  lemma SplashRunsDisjoint(x: int)
    ensures !(IsSplash(SplashRun365373, x) && IsSplash(SplashRun365537, x))
  {
    SplashRunNamesDiffer();
    SplashNumbersApart(x);
    SplashRuns(SplashRun365373, x);
    SplashRuns(SplashRun365537, x);
  }

  // ---------------------------------------------------------------------
  // event_sumq

  /** The raw charge one subdetector adds to each event's event_sumq. */
  function SubdetRawCharges(events: seq<Event>, s: Subdet): (qs: seq<int>)
    requires AllRawReadable(events)
    ensures |qs| == |events|
  {
    seq(|events|, i requires 0 <= i < |events| => RawCharge(DigisOf(events[i], s), NumSlices(s)))
  }

  /** The event_sumq vector after the subdetectors `ss`, starting from zeros. */
  function EventSumqAfter(events: seq<Event>, ss: seq<Subdet>): (qs: seq<int>)
    requires AllRawReadable(events)
    ensures |qs| == |events|
  {
    if ss == [] then seq(|events|, i => 0)
    else
      var n := |ss| - 1;
      Add(EventSumqAfter(events, ss[..n]), SubdetRawCharges(events, ss[n]))
  }

  /** Each entry of the accumulated vector is its own event's raw charge over
      the same subdetectors. */
  lemma {:induction false} EventSumqAfterEntry(events: seq<Event>, ss: seq<Subdet>, i: nat)
    requires AllRawReadable(events) && i < |events|
    ensures EventSumqAfter(events, ss)[i] == RawChargeOver(events[i], ss)
  {
    if ss != [] {
      EventSumqAfterEntry(events, ss[..|ss| - 1], i);
    }
  }

  /** `event_sumq`: for each event, the raw charge of its valid HB, HE and HF
      channels over 8, 8 and 3 slices. */
  method EventSumq(events: seq<Event>) returns (sums: seq<int>)
    requires AllRawReadable(events)
    ensures |sums| == |events|
    ensures forall i | 0 <= i < |events| :: sums[i] == EventRawCharge(events[i])
  {
    sums := seq(|events|, i => 0);
    for k := 0 to |Subdets|
      invariant sums == EventSumqAfter(events, Subdets[..k])
    {
      assert Subdets[..k + 1][..k] == Subdets[..k];
      sums := Add(sums, SubdetRawCharges(events, Subdets[k]));
    }
    assert Subdets[..|Subdets|] == Subdets;
    forall i | 0 <= i < |events| ensures sums[i] == EventRawCharge(events[i]) {
      EventSumqAfterEntry(events, Subdets, i);
    }
  }

  /** The `event_sumq` of every event, as a specification. */
  function EventRawCharges(events: seq<Event>): (qs: seq<int>)
    requires AllRawReadable(events)
    ensures |qs| == |events| && forall i | 0 <= i < |events| :: qs[i] == EventRawCharge(events[i])
  {
    seq(|events|, i requires 0 <= i < |events| => EventRawCharge(events[i]))
  }

  /** `dict(zip(events["event"], event_sumq))` as its items. */
  function EventSumqDict(events: seq<Event>): seq<(int, int)>
    requires AllRawReadable(events)
  {
    ZipItems(EventNumbers(events), EventRawCharges(events))
  }

  /** Each event number appears once in the dictionary, in the order of its
      first event, and is stored with the event_sumq of the last event that
      carries it. */
  lemma EventSumqDictEntry(events: seq<Event>, i: nat)
    requires AllRawReadable(events) && i < |events|
    requires forall j | i < j < |events| :: events[j].event != events[i].event
    ensures Distinct(ItemKeys(EventSumqDict(events)))
    ensures ItemKeys(EventSumqDict(events)) == Dedup(EventNumbers(events))
    ensures (events[i].event, EventRawCharge(events[i])) in EventSumqDict(events)
  {
    var ks, vs := EventNumbers(events), EventRawCharges(events);
    ZipToMapLastWins(ks, vs, i);
    ZipItemsAgree(ks, vs);
  }

  // ---------------------------------------------------------------------
  // Splash events and their channel histograms

  function SplashMask(dataset: string, events: seq<Event>): (m: seq<bool>)
    ensures |m| == |events|
  {
    seq(|events|, i requires 0 <= i < |events| => IsSplash(dataset, events[i].event))
  }

  /** `events[splash_mask]`. */
  function SplashSelection(dataset: string, events: seq<Event>): seq<Event>
  {
    Select(events, SplashMask(dataset, events))
  }

  /** The selected events are exactly the dataset's listed splash events. */
  lemma SplashSelectionMember(dataset: string, events: seq<Event>, e: Event)
    ensures e in SplashSelection(dataset, events) <==> e in events && IsSplash(dataset, e.event)
  {
    SelectMember(events, SplashMask(dataset, events), e);
  }

  lemma SplashSelectionReadable(dataset: string, events: seq<Event>)
    requires AllRawReadable(events)
    ensures AllRawReadable(SplashSelection(dataset, events))
  {
    var sel := SplashSelection(dataset, events);
    forall i | 0 <= i < |sel| ensures RawReadable(sel[i]) {
      assert sel[i] in sel;
      var j :| 0 <= j < |events| && events[j] == sel[i];
    }
  }

  /** The `splash_depthmap` entries of one event's valid channels in one
      subdetector, weighted by their raw charge. */
  function EventDepthFills(e: Event, s: Subdet): (fills: seq<DepthFill>)
    requires RawReadable(e)
    ensures |fills| == |ValidOnly(DigisOf(e, s))|
    ensures forall f | f in fills :: f.eventNumber == e.event
  {
    var vs := ValidOnly(DigisOf(e, s));
    seq(|vs|, i requires 0 <= i < |vs| =>
      DepthFill(e.event, vs[i].ieta, vs[i].iphi, vs[i].depth, RawSumQ(vs[i], NumSlices(s))))
  }

  /** The `splash_sumq` entries of one event's valid channels in one subdetector. */
  function EventSumQFills(e: Event, s: Subdet): (fills: seq<SumQFill>)
    requires RawReadable(e)
    ensures |fills| == |ValidOnly(DigisOf(e, s))|
    ensures forall f | f in fills :: f.eventNumber == e.event
  {
    var vs := ValidOnly(DigisOf(e, s));
    seq(|vs|, i requires 0 <= i < |vs| => SumQFill(e.event, RawSumQ(vs[i], NumSlices(s))))
  }

  /** The depth-map entries of one subdetector over the events, flattened. */
  function DepthFills(events: seq<Event>, s: Subdet): seq<DepthFill>
    requires AllRawReadable(events)
  {
    if events == [] then [] else EventDepthFills(events[0], s) + DepthFills(events[1..], s)
  }

  /** The channel-charge entries of one subdetector over the events, flattened. */
  function SumQFills(events: seq<Event>, s: Subdet): seq<SumQFill>
    requires AllRawReadable(events)
  {
    if events == [] then [] else EventSumQFills(events[0], s) + SumQFills(events[1..], s)
  }

  /** Every entry carries the number of one of the events it was filled from. */
  lemma {:induction false} FillsFromEvents(events: seq<Event>, s: Subdet)
    requires AllRawReadable(events)
    ensures forall f | f in DepthFills(events, s) :: f.eventNumber in EventNumbers(events)
    ensures forall f | f in SumQFills(events, s) :: f.eventNumber in EventNumbers(events)
  {
    if events != [] {
      FillsFromEvents(events[1..], s);
      assert EventNumbers(events) == [events[0].event] + EventNumbers(events[1..]);
    }
  }

  /** The valid channels of a readable event carry the slices summed. */
  lemma ValidChannelsReadable(e: Event, s: Subdet)
    requires RawReadable(e)
    ensures AllHaveCharge(ValidOnly(DigisOf(e, s)), NumSlices(s))
  {
  }

  /** Every depth-map fill comes from the flattened valid channel at the same
      place: it carries that channel's event number and position and is
      weighted by its raw charge. */
  lemma {:induction false} DepthFillsAligned(events: seq<Event>, s: Subdet)
    requires AllRawReadable(events)
    ensures var fills, hits := DepthFills(events, s), ValidHits(events, s);
      |fills| == |hits|
      && forall k | 0 <= k < |hits| ::
        fills[k].eventNumber == hits[k].0.event
        && fills[k].ieta == hits[k].1.ieta && fills[k].iphi == hits[k].1.iphi && fills[k].depth == hits[k].1.depth
        && NumSlices(s) <= |hits[k].1.fc| && fills[k].weight == RawSumQ(hits[k].1, NumSlices(s))
  {
    if events != [] {
      DepthFillsAligned(events[1..], s);
      ValidChannelsReadable(events[0], s);
    }
  }

  /** Every channel-charge fill comes from the flattened valid channel at the
      same place: its event number and its raw charge. */
  lemma {:induction false} SumQFillsAligned(events: seq<Event>, s: Subdet)
    requires AllRawReadable(events)
    ensures var fills, hits := SumQFills(events, s), ValidHits(events, s);
      |fills| == |hits|
      && forall k | 0 <= k < |hits| ::
        fills[k].eventNumber == hits[k].0.event
        && NumSlices(s) <= |hits[k].1.fc| && fills[k].sumq == RawSumQ(hits[k].1, NumSlices(s))
  {
    if events != [] {
      SumQFillsAligned(events[1..], s);
      ValidChannelsReadable(events[0], s);
    }
  }

  /** Only listed splash events of the chunk's dataset reach the histograms. */
  lemma FillsOnlyFromSplashEvents(dataset: string, events: seq<Event>, s: Subdet)
    requires AllRawReadable(events)
    ensures AllRawReadable(SplashSelection(dataset, events))
    ensures forall f | f in DepthFills(SplashSelection(dataset, events), s) :: IsSplash(dataset, f.eventNumber)
    ensures forall f | f in SumQFills(SplashSelection(dataset, events), s) :: IsSplash(dataset, f.eventNumber)
  {
    SplashSelectionReadable(dataset, events);
    var sel := SplashSelection(dataset, events);
    FillsFromEvents(sel, s);
    forall x | x in EventNumbers(sel) ensures IsSplash(dataset, x) {
      var i :| 0 <= i < |sel| && EventNumbers(sel)[i] == x;
      SplashSelectionMember(dataset, events, sel[i]);
    }
  }

  /** There is one depth-map entry per valid channel of the events. */
  lemma {:induction false} DepthFillsCount(events: seq<Event>, s: Subdet)
    requires AllRawReadable(events)
    ensures |DepthFills(events, s)| == |ValidHits(events, s)| == Sum(ValidCounts(events, s))
  {
    ValidHitsCount(events, s);
    if events != [] {
      DepthFillsCount(events[1..], s);
      ValidHitsCount(events[1..], s);
    }
  }

  /** The weight a depth-map entry is filled with. */
  function Weight(fill: DepthFill): int
  {
    fill.weight
  }

  lemma EventDepthWeight(e: Event, s: Subdet)
    requires RawReadable(e)
    ensures Sum(Project(EventDepthFills(e, s), Weight)) == RawCharge(DigisOf(e, s), NumSlices(s))
  {
    assert Project(EventDepthFills(e, s), Weight) == RawSumQs(ValidOnly(DigisOf(e, s)), NumSlices(s));
  }

  lemma SubdetRawChargesCons(events: seq<Event>, s: Subdet)
    requires AllRawReadable(events) && events != []
    ensures AllRawReadable(events[1..])
    ensures Sum(SubdetRawCharges(events, s))
      == RawCharge(DigisOf(events[0], s), NumSlices(s)) + Sum(SubdetRawCharges(events[1..], s))
  {
    assert SubdetRawCharges(events, s)[1..] == SubdetRawCharges(events[1..], s);
  }

  /** The depth map of a subdetector carries, in total weight, exactly that
      subdetector's part of the events' event_sumq. */
  lemma {:induction false} DepthMapWeight(events: seq<Event>, s: Subdet)
    requires AllRawReadable(events)
    ensures Sum(Project(DepthFills(events, s), Weight)) == Sum(SubdetRawCharges(events, s))
  {
    if events != [] {
      var head, tail := EventDepthFills(events[0], s), DepthFills(events[1..], s);
      assert DepthFills(events, s) == head + tail;
      DepthMapWeight(events[1..], s);
      EventDepthWeight(events[0], s);
      SumProjectAppend(head, tail, Weight);
      SubdetRawChargesCons(events, s);
    }
  }

  // ---------------------------------------------------------------------
  // The processor

  function DepthFillsAfter(events: seq<Event>, ss: seq<Subdet>): seq<DepthFill>
    requires AllRawReadable(events)
  {
    if ss == [] then []
    else
      var n := |ss| - 1;
      DepthFillsAfter(events, ss[..n]) + DepthFills(events, ss[n])
  }

  function SumQFillsAfter(events: seq<Event>, ss: seq<Subdet>): seq<SumQFill>
    requires AllRawReadable(events)
  {
    if ss == [] then []
    else
      var n := |ss| - 1;
      SumQFillsAfter(events, ss[..n]) + SumQFills(events, ss[n])
  }

  lemma FillsAllSubdets(events: seq<Event>)
    requires AllRawReadable(events)
    ensures DepthFillsAfter(events, Subdets)
      == DepthFills(events, HB) + DepthFills(events, HE) + DepthFills(events, HF)
    ensures SumQFillsAfter(events, Subdets)
      == SumQFills(events, HB) + SumQFills(events, HE) + SumQFills(events, HF)
  {
    assert Subdets[..2] == [HB, HE] && [HB, HE][..1] == [HB] && [HB][..0] == [];
    assert DepthFillsAfter(events, [HB]) == DepthFills(events, HB);
    assert SumQFillsAfter(events, [HB]) == SumQFills(events, HB);
  }

  /** The fill loop of `process`: the depth map and channel charges of the
      given events over HB, HE and HF in turn. */
  method SplashFills(splash: seq<Event>) returns (depthmap: seq<DepthFill>, sumq: seq<SumQFill>)
    requires AllRawReadable(splash)
    ensures depthmap == DepthFills(splash, HB) + DepthFills(splash, HE) + DepthFills(splash, HF)
    ensures sumq == SumQFills(splash, HB) + SumQFills(splash, HE) + SumQFills(splash, HF)
  {
    depthmap, sumq := [], [];
    for k := 0 to |Subdets|
      invariant depthmap == DepthFillsAfter(splash, Subdets[..k])
      invariant sumq == SumQFillsAfter(splash, Subdets[..k])
    {
      assert Subdets[..k + 1][..k] == Subdets[..k];
      depthmap := depthmap + DepthFills(splash, Subdets[k]);
      sumq := sumq + SumQFills(splash, Subdets[k]);
    }
    assert Subdets[..|Subdets|] == Subdets;
    FillsAllSubdets(splash);
  }

  /** `process`: the event_sumq dictionary of all events, then the depth map
      and channel charges of the dataset's splash events over HB, HE, HF. */
  method Process(chunk: Chunk) returns (result: map<string, Output>)
    requires AllRawReadable(chunk.events)
    ensures result.Keys == {chunk.dataset}
    ensures var o, events := result[chunk.dataset], chunk.events;
      var splash := SplashSelection(chunk.dataset, events);
      AllRawReadable(splash)
      && o.nevents == |events|
      && o.eventSumq == EventSumqDict(events)
      && o.depthmap == DepthFills(splash, HB) + DepthFills(splash, HE) + DepthFills(splash, HF)
      && o.sumq == SumQFills(splash, HB) + SumQFills(splash, HE) + SumQFills(splash, HF)
  {
    var events := chunk.events;
    var sums := EventSumq(events);
    assert sums == EventRawCharges(events);
    var eventSumq := ZipItems(EventNumbers(events), sums);

    var runkey := chunk.dataset;
    var mask := seq(|events|, i requires 0 <= i < |events| => IsSplash(runkey, events[i].event));
    var splash := Select(events, mask);
    SplashSelectionReadable(runkey, events);
    var depthmap, sumq := SplashFills(splash);
    result := map[chunk.dataset := Output(|events|, eventSumq, depthmap, sumq)];
  }
}
