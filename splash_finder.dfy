/** The splash finder: a processor that records the raw charge of every
    event (one histogram fill per event, plus the event number -> charge
    dictionary), and a launcher that prepares the fileset like
    `run_processor` but never refuses an existing output file, and ranks
    the events of each dataset by charge to show the twenty largest. */
module SplashFinder {
  import opened Wrappers
  import opened Seqs
  import opened Digis
  import SP = SplashProcessor
  import RP = RunProcessor

  /** One `event_sumq` histogram fill: the event number, weighted by the
      event's charge. */
  type EventFill = (int, int)

  datatype Output = Output(nevents: int, eventSumq: seq<EventFill>, eventSumqDict: seq<(int, int)>)

  /** The `event_sumq` fills of a chunk: one per event, in event order. */
  function EventFills(events: seq<Event>): (fills: seq<EventFill>)
    requires AllRawReadable(events)
    ensures |fills| == |events|
  {
    seq(|events|, i requires 0 <= i < |events| => (events[i].event, EventRawCharge(events[i])))
  }

  /** Each fill carries its event's number and the charge summed over the
      valid HB, HE and HF channels; an event with no valid channel fills
      with weight 0. */
  lemma EventFillWeight(events: seq<Event>, i: nat)
    requires AllRawReadable(events) && i < |events|
    ensures EventFills(events)[i].0 == events[i].event
    ensures EventFills(events)[i].1
      == RawCharge(DigisOf(events[i], HB), 8) + RawCharge(DigisOf(events[i], HE), 8) + RawCharge(DigisOf(events[i], HF), 3)
    ensures ValidOnly(events[i].hb) == [] && ValidOnly(events[i].he) == [] && ValidOnly(events[i].hf) == []
      ==> EventFills(events)[i].1 == 0
  {
    EventRawChargeSplit(events[i]);
  }

  /** Every entry of the dictionary is one of the histogram fills, and every
      event number filled is a key of the dictionary. */
  lemma DictFromFills(events: seq<Event>)
    requires AllRawReadable(events)
    ensures forall p | p in SP.EventSumqDict(events) :: p in EventFills(events)
    ensures forall i | 0 <= i < |events| :: events[i].event in ItemKeys(SP.EventSumqDict(events))
  {
    var ks, vs := EventNumbers(events), SP.EventRawCharges(events);
    ZipItemsAgree(ks, vs);
    var fills := EventFills(events);
    forall p | p in SP.EventSumqDict(events) ensures p in fills {
      ZipToMapFrom(ks, vs, p.0);
      var i :| 0 <= i < |ks| && ks[i] == p.0 && vs[i] == ZipToMap(ks, vs)[p.0];
      assert fills[i] == p;
    }
    forall i | 0 <= i < |events| ensures events[i].event in ItemKeys(SP.EventSumqDict(events)) {
      assert ks[i] in ks;
    }
  }

  /** `process`: the per-event charges, their histogram and their dictionary. */
  method Process(chunk: Chunk) returns (result: map<string, Output>)
    requires AllRawReadable(chunk.events)
    ensures result.Keys == {chunk.dataset}
    ensures var o := result[chunk.dataset];
      o.nevents == |chunk.events|
      && o.eventSumq == EventFills(chunk.events)
      && o.eventSumqDict == SP.EventSumqDict(chunk.events)
  {
    var events := chunk.events;
    var sums := SP.EventSumq(events);
    var fills := seq(|events|, i requires 0 <= i < |events| => (events[i].event, sums[i]));
    assert sums == SP.EventRawCharges(events);
    var dict := ZipItems(EventNumbers(events), sums);
    result := map[chunk.dataset := Output(|events|, fills, dict)];
  }

  // ------------------------------------------------------------------ ranking

  /** Ordered by charge, largest first. */
  predicate Sorted(s: seq<(int, int)>)
  {
    forall i, j | 0 <= i < j < |s| :: s[i].1 >= s[j].1
  }

  /** Puts x ahead of the first entry whose charge is not larger than its own. */
  function Insert(x: (int, int), s: seq<(int, int)>): (r: seq<(int, int)>)
    ensures multiset(r) == multiset(s) + multiset{x}
    ensures r != [] && (r[0] == x || (s != [] && r[0] == s[0]))
  {
    if s == [] || s[0].1 <= x.1 then [x] + s
    else
      assert s == [s[0]] + s[1..];
      [s[0]] + Insert(x, s[1..])
  }

  lemma {:induction false} InsertSorted(x: (int, int), s: seq<(int, int)>)
    requires Sorted(s)
    ensures Sorted(Insert(x, s))
  {
    if s != [] && s[0].1 > x.1 {
      InsertSorted(x, s[1..]);
      var r := Insert(x, s);
      var rest := Insert(x, s[1..]);
      assert r == [s[0]] + rest;
      forall y | y in rest ensures s[0].1 >= y.1 {
        assert y in multiset(rest);
        if y != x {
          assert y in multiset(s[1..]);
        }
      }
    }
  }

  /** `sorted(items, key=lambda x: x[1], reverse=True)`, as an insertion
      sort. */
  function Rank(items: seq<(int, int)>): seq<(int, int)>
  {
    if items == [] then [] else Insert(items[0], Rank(items[1..]))
  }

  /** The ranking is a permutation of the items, largest charge first. */
  lemma {:induction false} RankSortsItems(items: seq<(int, int)>)
    ensures multiset(Rank(items)) == multiset(items)
    ensures Sorted(Rank(items))
  {
    if items != [] {
      RankSortsItems(items[1..]);
      InsertSorted(items[0], Rank(items[1..]));
      assert items == [items[0]] + items[1..];
    }
  }

  /** The entries with charge q, in their order. */
  function WithCharge(s: seq<(int, int)>, q: int): seq<(int, int)>
  {
    if s == [] then [] else (if s[0].1 == q then [s[0]] else []) + WithCharge(s[1..], q)
  }

  lemma {:induction false} InsertWithCharge(x: (int, int), s: seq<(int, int)>, q: int)
    ensures WithCharge(Insert(x, s), q) == (if x.1 == q then [x] else []) + WithCharge(s, q)
  {
    if s == [] || s[0].1 <= x.1 {
      assert ([x] + s)[1..] == s;
    } else {
      InsertWithCharge(x, s[1..], q);
      assert ([s[0]] + Insert(x, s[1..]))[1..] == Insert(x, s[1..]);
    }
  }

  /** The sort is stable: entries of equal charge keep their order. */
  lemma {:induction false} RankStable(items: seq<(int, int)>, q: int)
    ensures WithCharge(Rank(items), q) == WithCharge(items, q)
  {
    if items != [] {
      RankStable(items[1..], q);
      InsertWithCharge(items[0], Rank(items[1..]), q);
    }
  }

  const ShownEvents: nat := 20

  /** `sumq_list[:20]` of the ranking: the events shown for one dataset. */
  function TopEvents(items: seq<(int, int)>): seq<(int, int)>
  {
    Prefix(Rank(items), ShownEvents)
  }

  /** Twenty entries are shown, or all when there are fewer, and they are
      items of the dictionary. */
  lemma TopEventsCount(items: seq<(int, int)>)
    ensures var top := TopEvents(items);
      |top| == (if |items| < ShownEvents then |items| else ShownEvents)
      && multiset(top) <= multiset(items)
  {
    var r := Rank(items);
    var top := TopEvents(items);
    RankSortsItems(items);
    assert |r| == |items| by {
      assert |multiset(r)| == |multiset(items)|;
    }
    assert r == top + r[|top|..];
    assert multiset(r) == multiset(top) + multiset(r[|top|..]);
  }

  /** The shown entries come largest charge first, and none of the entries
      left out has a larger charge than any shown. */
  lemma TopEventsAreLargest(items: seq<(int, int)>)
    ensures var top, r := TopEvents(items), Rank(items);
      Sorted(top) && forall i, j | 0 <= i < |top| && |top| <= j < |r| :: top[i].1 >= r[j].1
  {
    var r := Rank(items);
    var top := TopEvents(items);
    RankSortsItems(items);
    assert forall i | 0 <= i < |top| :: top[i] == r[i];
  }

  // ----------------------------------------------------------------- launcher

  /** The finder's options: as `run_processor`, without `--force`. */
  datatype FinderArgs = FinderArgs(
    quicktest: bool,
    input: RP.InputOption,
    outputfile: string,
    dataset: Option<string>,
    maxchunks: Option<int>)

  /** Lines 170-216: the fileset and chunk limit; the overwrite guard is
      commented out in the finder, so nothing about the output file is
      checked. */
  function FinderPlan(a: FinderArgs, loaded: RP.Loaded): Result<RP.Plan, RP.LaunchError>
  {
    match RP.LaunchFileset(a.input, a.dataset, a.quicktest, loaded)
    case Err(e) => Err(e)
    case Ok(fileset) => Ok(RP.Plan(fileset, RP.MaxChunks(a.quicktest, a.maxchunks)))
  }

  method Prepare(a: FinderArgs, loaded: RP.Loaded) returns (r: Result<RP.Plan, RP.LaunchError>)
    requires RP.IsMapping(loaded.mapping)
    ensures r == FinderPlan(a, loaded)
  {
    var fileset := RP.PrepareFileset(a.input, a.dataset, a.quicktest, loaded);
    if fileset.Err? {
      return Err(fileset.error);
    }
    var maxchunks := if a.quicktest then Some(RP.QuicktestMaxChunks) else a.maxchunks;
    r := Ok(RP.Plan(fileset.value, maxchunks));
  }

  /** The finder launches exactly as `run_processor -f` with the same
      options, whether or not the output file exists; it refuses only a
      dataset name given with YAML or JSON input. */
  lemma FinderIsForcedRun(a: FinderArgs, loaded: RP.Loaded, outputExists: bool)
    ensures var args := RP.Args(a.quicktest, a.input, a.outputfile, true, a.dataset, a.maxchunks);
      FinderPlan(a, loaded) == RP.PlanSpec(args, loaded, outputExists)
    ensures FinderPlan(a, loaded).Err?
      <==> (RP.YamlGiven(a.input) || RP.JsonGiven(a.input)) && RP.Truthy(a.dataset)
  {
    RP.DatasetConflict(a.input, a.dataset, loaded);
  }
}
