# HCAL analysis processors and launchers, in Dafny

This project models the analysis code of the CMS HCAL calibration studies.

It covers three coffea processors:

- `BX1Processor` finds events with a high charge or a full detector after the first bunch crossing.
- `TestProcessor` records channel and event charge, split by bunch crossing 1.
- `SplashProcessor` records the beam-splash events of two runs.

It also covers the splash finder, which ranks every event by raw charge. Finally, it covers three launchers:

- the local launcher `run_processor`;
- the Condor launcher `crun_processor`;
- the EOS folder indexer `makeindex`.

An event is a value (`Digis.Event`). It holds its event number, its bunch crossing and one list of channels ("digis") for each of HB, HE and HF. A digi holds its `valid` flag, its position (ieta, iphi, depth) and its per-time-slice charge `fc`. For HB and HE a digi also holds its pedestal `pedestalfc`.

A processor's `process` is a method. It takes one chunk (a dataset name and its events) and returns the one-key output dictionary.

A histogram fill is modelled as a record appended to a sequence: the values filled and the weight. List accumulators are sequences. Python dictionaries that keep insertion order are sequences of (key, value) items. The model uses this for the fileset and for the `event_sumq_dict`.

The launchers are modelled up to the point where they call out:

- what the input files hold is a parameter;
- so is whether the output file exists;
- so are the login name, the submission directory and what `eos ls` prints, of which `subprocess.getoutput` drops one final newline.

The launchers return the plan the executor is started with, or the texts of the scripts and commands they would write or run.

Modules:

- `Wrappers` holds Option and Result.
- `Seqs` holds sums, masked selection, prefixes and ordered dictionaries.
- `Text` holds Python's `split`/`join`/`strip`/`startswith` and decimal formatting.
- `Digis` holds the event data and the charge sums shared by the processors.
- One module per source file: `Bx1Processor`, `TestProcessor`, `SplashProcessor`, `SplashFinder`, `RunProcessor`, `CrunProcessor` and `MakeIndex`.

## Model

| member | source | states |
|---|---|---|
| `Digis.SumQIsChargeMinusPedestal` | hcalanalysis/processors/bx1processor.py:85-89 | A channel's sumq is the sum of its 8 charge slices minus the sum of its 8 pedestal slices. |
| `Digis.SumQZeroWhenChargeIsPedestal` | hcalanalysis/processors/testprocessor.py:72-78 | A channel whose charge equals its pedestal in every slice has sumq 0. |
| `Digis.ValidOnlyMember` | hcalanalysis/processors/testprocessor.py:83 | The valid-digi filter keeps exactly the digis whose `valid` flag is set. |
| `Digis.ValidOnlyAppend` | hcalanalysis/processors/testprocessor.py:83 | The filter works channel by channel: filtering a concatenation is concatenating the filtered parts. |
| `Digis.ValidChargeSnoc` | hcalanalysis/processors/testprocessor.py:85 | The summed charge of valid channels grows by a channel's sumq when the channel is valid, and not at all otherwise. |
| `Digis.RawChargeSnoc` | hcalanalysis/processors/splash_processor.py:89-92 | The raw charge of valid channels, over n slices without pedestal subtraction, grows only by valid channels. |
| `Digis.EventRawChargeSplit` | hcalanalysis/processors/splash_processor.py:86-92 | An event's `event_sumq` is the raw charge of its valid HB channels over 8 slices, plus HE over 8, plus HF over 3. |
| `Digis.ValidHitsComplete` | hcalanalysis/processors/testprocessor.py:93-102 | Every valid digi of every event is among the flattened (event, digi) hits. |
| `Digis.ValidHitsCount` | hcalanalysis/processors/testprocessor.py:93-102 | There are as many flattened hits as valid digis, summed over the events. |
| `Bx1Processor.ChargeAboveThresholdSnoc` | hcalanalysis/processors/bx1processor.py:91-92 | Adding a channel adds its sumq to eventq exactly when it is valid and strictly above 60. A channel at exactly 60 adds nothing. |
| `Bx1Processor.NoValidChannels` | hcalanalysis/processors/bx1processor.py:91-93 | With no valid channel, both eventq and nhits are 0. |
| `Bx1Processor.ChannelsBelowThreshold` | hcalanalysis/processors/bx1processor.py:92-93 | Valid channels all at or below 60 give eventq 0, yet each counts towards nhits. |
| `Bx1Processor.ChargeAboveThresholdNonNegative` | hcalanalysis/processors/bx1processor.py:92 | eventq is never negative, since only charges above 60 are summed. |
| `Bx1Processor.HighQEventsMember` | hcalanalysis/processors/bx1processor.py:117 | An event number is listed as bad iff some event has it with nhits > 400 and eventq > 50000. |
| `Bx1Processor.FullEventsMember` | hcalanalysis/processors/bx1processor.py:118 | An event number is listed as full iff some event has it with nhits > 9000. |
| `Bx1Processor.HighQEventsAppend` | hcalanalysis/processors/bx1processor.py:117 | The selection keeps input order: selecting from a concatenation concatenates the selections. |
| `Bx1Processor.FullAndChargedIsHighQ` | hcalanalysis/processors/bx1processor.py:117-118 | A full event whose eventq exceeds 50000 is also a bad event. |
| `Bx1Processor.EventQFillsAfterSize` | hcalanalysis/processors/bx1processor.py:83-106 | The eventq histogram gets one fill per event per subdetector pass. |
| `Bx1Processor.ListsAfterBound` | hcalanalysis/processors/bx1processor.py:83-120 | Each subdetector pass adds at most 100 entries to each list, so one call adds at most 200 per list. |
| `Bx1Processor.EventQFillsHBHE` | hcalanalysis/processors/bx1processor.py:83-106 | The passes fill HB and then HE, each with its own per-subdetector eventq and nhits, never combined. |
| `Bx1Processor.BadEventsHBHE` | hcalanalysis/processors/bx1processor.py:117-120 | The bad list is the first 100 bad events of HB followed by the first 100 of HE. |
| `Bx1Processor.FullEventsHBHE` | hcalanalysis/processors/bx1processor.py:118-120 | The full list is the first 100 full events of HB followed by the first 100 of HE. |
| `Bx1Processor.Process` | hcalanalysis/processors/bx1processor.py:71-122 | The output has the chunk's dataset as its only key. nevents is the event count, and eventq and the bad and full lists are as the lemmas above describe. |
| `TestProcessor.EventChargeSplit` | hcalanalysis/processors/testprocessor.py:63-85 | eventq is the summed sumq of the valid HB channels plus that of the valid HE channels. |
| `TestProcessor.NoValidChannelsNoCharge` | hcalanalysis/processors/testprocessor.py:83-85 | An event with no valid channel has eventq 0. |
| `TestProcessor.EventChargeAddChannel` | hcalanalysis/processors/testprocessor.py:85 | An extra HB or HE channel raises eventq by its sumq if it is valid and leaves it unchanged otherwise. |
| `TestProcessor.InterestingEventsMember` | hcalanalysis/processors/testprocessor.py:128-130 | An event number is interesting iff some event has it with eventq strictly above 200000. |
| `TestProcessor.AllInteresting` | hcalanalysis/processors/testprocessor.py:128-130 | There is no cap: when every event qualifies, every event number is listed, in input order. |
| `TestProcessor.SumQFillsAligned` | hcalanalysis/processors/testprocessor.py:93-102 | The k-th sumq fill belongs to the k-th valid digi of the events in order. It carries the subdetector, that digi's event's bunch-crossing-1 flag and that digi's pedestal-subtracted sumq. |
| `TestProcessor.DepthFillsAligned` | hcalanalysis/processors/testprocessor.py:104-110 | The k-th depth-map fill belongs to the k-th valid digi. It carries that digi's ieta, iphi and depth, weighted by its pedestal-subtracted sumq. |
| `TestProcessor.SumQFillsCount` | hcalanalysis/processors/testprocessor.py:98-102 | The sumq histogram gets as many fills as there are valid digis. |
| `TestProcessor.EventDepthWeight` | hcalanalysis/processors/testprocessor.py:104-110 | An event's depth-map weights add up to the summed sumq of its valid channels. |
| `TestProcessor.DepthMapWeight` | hcalanalysis/processors/testprocessor.py:104-110 | Over the chunk, the depth-map weights add up to the charge of all valid channels of the subdetector. |
| `TestProcessor.EventChargesAfterEntry` | hcalanalysis/processors/testprocessor.py:63-85 | eventq accumulated pass by pass over the subdetectors equals the per-event sum over those subdetectors. |
| `TestProcessor.FillsHBHE` | hcalanalysis/processors/testprocessor.py:66-110 | The subdetector loop fills HB and then HE. |
| `TestProcessor.FromEventCharges` | hcalanalysis/processors/testprocessor.py:113-130 | The eventq fills and the interesting mask follow from the per-event eventq alone. |
| `TestProcessor.Process` | hcalanalysis/processors/testprocessor.py:54-134 | The output has the chunk's dataset as its only key. nevents is the event count, and the sumq, depth-map, eventq and interesting-event outputs are as the lemmas above describe. |
| `SplashProcessor.SplashDependsOnDataset` | hcalanalysis/processors/splash_processor.py:22-29 | The curated list has 128 pairs. Event 216 is a splash of run 365373. Event 8009 is a splash of run 365537 and not of run 365373. |
| `SplashProcessor.SplashRuns` | hcalanalysis/processors/splash_processor.py:22-29 | A (dataset, number) pair is a splash iff the dataset is run 365373 and the number is one of its five, or the dataset is run 365537 and the number is one of its 123. No other dataset has splash events. |
| `SplashProcessor.SplashNumbersApart` | hcalanalysis/processors/splash_processor.py:22-29 | Run 365373 lists numbers up to 1521 only. Run 365537 lists numbers from 2221 up only. |
| `SplashProcessor.SplashRunsDisjoint` | hcalanalysis/processors/splash_processor.py:22-29 | No event number is a splash of both runs. |
| `SplashProcessor.EventSumqAfterEntry` | hcalanalysis/processors/splash_processor.py:87-92 | `event_sumq` accumulated over the subdetector loop is each event's raw valid charge over those subdetectors. |
| `SplashProcessor.EventSumq` | hcalanalysis/processors/splash_processor.py:86-92 | The loop gives every event its raw charge over the valid HB, HE and HF channels. |
| `SplashProcessor.EventSumqDictEntry` | hcalanalysis/processors/splash_processor.py:94 | The dictionary's keys are the distinct event numbers in first-seen order. An event number's value is the charge of its last occurrence. |
| `SplashProcessor.SplashSelectionMember` | hcalanalysis/processors/splash_processor.py:96-98 | An event is selected iff (chunk dataset, event number) is in the curated list. |
| `SplashProcessor.FillsFromEvents` | hcalanalysis/processors/splash_processor.py:103-114 | Every fill carries the event number of an event it came from. |
| `SplashProcessor.FillsOnlyFromSplashEvents` | hcalanalysis/processors/splash_processor.py:96-114 | Depth-map and sumq fills come only from selected splash events of the chunk's dataset. |
| `SplashProcessor.DepthFillsCount` | hcalanalysis/processors/splash_processor.py:103-109 | One depth-map fill per valid digi. |
| `SplashProcessor.DepthFillsAligned` | hcalanalysis/processors/splash_processor.py:103-109 | The k-th depth-map fill belongs to the k-th valid digi of the selected events. It carries that event's number and the digi's ieta, iphi and depth, weighted by the digi's raw charge over the subdetector's slices. |
| `SplashProcessor.SumQFillsAligned` | hcalanalysis/processors/splash_processor.py:111-114 | The k-th sumq fill belongs to the k-th valid digi of the selected events. It carries that event's number and the digi's raw charge over the subdetector's slices. |
| `SplashProcessor.DepthMapWeight` | hcalanalysis/processors/splash_processor.py:103-109 | The depth-map weights add up to the raw charge of the valid channels of the subdetector. |
| `SplashProcessor.FillsAllSubdets` | hcalanalysis/processors/splash_processor.py:99-114 | The fill loop covers HB, HE and HF in that order. |
| `SplashProcessor.SplashFills` | hcalanalysis/processors/splash_processor.py:99-114 | The loop's depth-map and sumq fills are those of the three subdetectors of the selected events, concatenated. |
| `SplashProcessor.Process` | hcalanalysis/processors/splash_processor.py:80-114 | The output has the chunk's dataset as its only key. nevents is the event count, the dictionary covers all events, and the fills come from the splash selection only. |
| `SplashFinder.EventFillWeight` | hcalanalysis/splash23/splash_finder.py:76-88 | Each `event_sumq` fill carries its event's number and weight. The weight is the raw valid charge over 8/8/3 slices, or 0 with no valid channel. |
| `SplashFinder.DictFromFills` | hcalanalysis/splash23/splash_finder.py:85-89 | Every dictionary entry is one of the fills, and every event number is a key. |
| `SplashFinder.Process` | hcalanalysis/splash23/splash_finder.py:71-91 | One fill per event, plus the event number to charge dictionary, under the chunk's dataset. |
| `SplashFinder.Insert` | hcalanalysis/splash23/splash_finder.py:275 | Insertion adds exactly the one item. |
| `SplashFinder.RankSortsItems` | hcalanalysis/splash23/splash_finder.py:274-275 | The ranking is a permutation of the dictionary items, ordered by charge, largest first. |
| `SplashFinder.RankStable` | hcalanalysis/splash23/splash_finder.py:275 | Items of equal charge keep their dictionary order, as Python's stable sort does. |
| `SplashFinder.TopEventsCount` | hcalanalysis/splash23/splash_finder.py:277 | Twenty items are shown, or all of them when there are fewer. All shown items are dictionary items. |
| `SplashFinder.TopEventsAreLargest` | hcalanalysis/splash23/splash_finder.py:272-277 | The shown items are in descending order, and no item left out has more charge than a shown one. |
| `SplashFinder.Prepare` | hcalanalysis/splash23/splash_finder.py:170-216 | The finder's launch: fileset, normalisation, quick-test cut and chunk limit. |
| `SplashFinder.FinderIsForcedRun` | hcalanalysis/splash23/splash_finder.py:170-223 | Without the overwrite guard the finder launches as `run_processor -f` would. It fails only on a dataset name given with YAML or JSON. |
| `RunProcessor.StrippedLinesTrimmed` | hcalanalysis/run_processor.py:64-67 | Each text-file entry has no surrounding whitespace, and a blank line gives an empty entry. |
| `RunProcessor.ReadLines` | hcalanalysis/run_processor.py:64-67 | The loop produces one stripped entry per line, blank lines included. |
| `RunProcessor.CommaListRoundTrip` | hcalanalysis/run_processor.py:62-63 | A comma list gives one entry more than it has commas, keeping empty pieces, and joining the entries gives the list back. |
| `RunProcessor.CopyMapping` | hcalanalysis/run_processor.py:51-54 | The copy loop produces the named fileset. |
| `RunProcessor.BuildFileset` | hcalanalysis/run_processor.py:46-68 | The loop builds the fileset with this precedence. YAML (`-y`) comes first and refuses `-d`. JSON (`-j`) comes next and also refuses `-d`. Each of these copies the loaded mapping in order. Otherwise the fileset is one entry under the `-d` name. Its files are the `-i` comma list if given, else the stripped lines of the `-I` file if given, else none. |
| `RunProcessor.DatasetConflict` | hcalanalysis/run_processor.py:47-57 | A dataset name given with YAML or JSON input is refused, and that is the only fileset error. |
| `RunProcessor.SingleDataset` | hcalanalysis/run_processor.py:60-68 | Comma or text input gives exactly one key, the given dataset name, holding the entries in order. |
| `RunProcessor.FilesetKeysDistinct` | hcalanalysis/run_processor.py:46-68 | Every fileset is a dictionary: no dataset twice. |
| `RunProcessor.NormalizeName` | hcalanalysis/run_processor.py:74-79 | A name is rewritten to an XRootD URL or left as it is. A name with neither prefix is left unchanged. |
| `RunProcessor.NormalizeStorePath` | hcalanalysis/run_processor.py:75-78 | `/eos/cms/store` and `/store` prefixes both become `root://eoscms.cern.ch//store`. |
| `RunProcessor.NormalizeStoreLookalike` | hcalanalysis/run_processor.py:77-78 | The test is a plain prefix: `/store2/x` is rewritten too. |
| `RunProcessor.NormalizeRelativeName` | hcalanalysis/run_processor.py:74-79 | A name not starting with '/' is untouched. |
| `RunProcessor.NormalizeNameIdempotent` | hcalanalysis/run_processor.py:74-79 | Normalising twice is normalising once. |
| `RunProcessor.NormalizedFilesetShape` | hcalanalysis/run_processor.py:71-80 | Normalisation keeps the dataset keys, the list lengths and the order, and rewrites each file name. |
| `RunProcessor.NormalizedFilesetIdempotent` | hcalanalysis/run_processor.py:71-80 | Normalising a fileset twice is normalising it once. |
| `RunProcessor.NormalizeFileset` | hcalanalysis/run_processor.py:71-80 | The in-place rewriting loop gives the normalised fileset. |
| `RunProcessor.QuicktestFilesetFirstFile` | hcalanalysis/run_processor.py:83-85 | A quick test keeps the first file of each dataset, or none when there is none. |
| `RunProcessor.TruncateForQuicktest` | hcalanalysis/run_processor.py:83-85 | The truncating loop gives the quick-test fileset. |
| `RunProcessor.LaunchFilesetContents` | hcalanalysis/run_processor.py:46-88 | The launched fileset has the built keys, each with its normalised list, cut to one file in a quick test. |
| `RunProcessor.Prepare` | hcalanalysis/run_processor.py:42-95 | The launcher's result, in order of precedence. A quick test sets force. A fileset error is returned first. Then an existing output file without force is refused with the message as written. Otherwise the plan holds the normalised fileset, truncated for a quick test, and the chunk limit. |
| `RunProcessor.PlanChunkLimit` | hcalanalysis/run_processor.py:83-88 | A launch that goes ahead runs on the launched fileset. It uses 8 chunks for a quick test and the `--maxchunks` value otherwise. |
| `RunProcessor.OverwriteGuard` | hcalanalysis/run_processor.py:42-95 | An existing output file stops the launch iff neither force nor quick test was given. The error carries the message as written. Otherwise a consistent launch goes ahead. |
| `RunProcessor.QuicktestPlan` | hcalanalysis/run_processor.py:42-88 | A quick test always launches, with at most one file per dataset and 8 chunks. |
| `RunProcessor.OverwriteMessageAsWrittenIgnoresName` | hcalanalysis/run_processor.py:95 | The message as written is the same for every output file, and differs from the message naming the actual file. |
| `RunProcessor.OverwriteMessage` | hcalanalysis/run_processor.py:95 | The corrected message carries the output file name at a fixed position. |
| `RunProcessor.OverwriteMessageNamesFile` | hcalanalysis/run_processor.py:95 | Different output files give different corrected messages. |
| `RunProcessor.NeventsByKeyKeys` | hcalanalysis/run_processor.py:129-134 | The per-dataset counter has exactly the datasets of the outputs as keys. |
| `RunProcessor.NeventsByKeySums` | hcalanalysis/run_processor.py:129-134 | Each dataset's counter is the sum of the `nevents` of its outputs. |
| `RunProcessor.Bookkeeping` | hcalanalysis/run_processor.py:119-135 | A benchmark is made iff every output has `nevents`. The total is their sum, and the per-dataset counters are as above. |
| `CrunProcessor.BuildFileset` | hcalanalysis/crun_processor.py:29-43 | The fileset follows this precedence. A truthy `-i` gives one entry under the `-d` name holding the comma-split list. Otherwise a truthy `-I` gives that entry with the stripped lines of the file. Otherwise a truthy `-y` copies the loaded mapping in order. Otherwise the fileset is empty. |
| `CrunProcessor.FilesetPrecedence` | hcalanalysis/crun_processor.py:29-43 | A comma list wins over a text file, which wins over YAML. With none of them the fileset is empty. |
| `CrunProcessor.OutputNameAtLastDot` | hcalanalysis/crun_processor.py:82-84 | The per-dataset output name is the name cut at its last dot, with the dataset inserted between the parts. |
| `CrunProcessor.OutputNameWithoutDot` | hcalanalysis/crun_processor.py:82-84 | A name without a dot becomes "." + dataset + "." + name. |
| `CrunProcessor.ChunksizeFlag` | hcalanalysis/crun_processor.py:93-94 | The chunksize flag is empty iff the chunk size is 0. |
| `CrunProcessor.MaxchunksFlag` | hcalanalysis/crun_processor.py:95-96 | The maxchunks flag is empty iff maxchunks is None or 0. |
| `CrunProcessor.FlagValues` | hcalanalysis/crun_processor.py:93-96 | Each flag names its option, and its value reads back as the number given. |
| `CrunProcessor.ProcessorCommandFlags` | hcalanalysis/crun_processor.py:92-96 | The worker command is the base command, then the chunksize flag iff the chunk size is non-zero, then the maxchunks flag. With neither flag it is just the base command. |
| `CrunProcessor.RunScriptInputs` | hcalanalysis/crun_processor.py:98-115 | The worker script has 16 lines. Its array line holds the files joined by single spaces, and splitting that text at single spaces gives the files back. The next line is the command. |
| `CrunProcessor.CsubArguments` | hcalanalysis/crun_processor.py:118-121 | The two tarballs are joined by one comma and split back apart, and the `-n` count reads back as the number of subjobs. |
| `CrunProcessor.JobSubjobs` | hcalanalysis/crun_processor.py:89-139 | A dataset's job has one subjob per file. The worker script's array text splits at single spaces back into the files, the script runs the dataset's command, and the resubmit script's total reads back as the file count. |
| `CrunProcessor.SubmittedEntry` | hcalanalysis/crun_processor.py:121-143 | The i-th submitted command is the csub command of the i-th dataset. |
| `CrunProcessor.ResubmitAllShape` | hcalanalysis/crun_processor.py:140-141 | The global resubmit script has, per dataset in order, a `cd` to its directory followed by `source resubmit.sh`. |
| `CrunProcessor.ResubmitAllText` | hcalanalysis/crun_processor.py:74-141 | The global script text splits back into exactly those lines. |
| `CrunProcessor.Submit` | hcalanalysis/crun_processor.py:48-143 | The submission loop gives one job per dataset, its csub commands, and the global resubmit text. |
| `MakeIndex.ListCommand` | hcalanalysis/filelists/makeindex.py:17 | The listing command goes to the EOS host and ends with the listed folder. |
| `MakeIndex.GetOutputStripsNewline` | hcalanalysis/filelists/makeindex.py:19 | `subprocess.getoutput` removes exactly one final newline, and keeps output without one unchanged. |
| `MakeIndex.ChildrenAreLines` | hcalanalysis/filelists/makeindex.py:19-21 | The output splits into one entry per line, none holding a newline. Joining the entries gives back the output less its final newline. |
| `MakeIndex.ChildrenOfLines` | hcalanalysis/filelists/makeindex.py:19-21 | A listing printed line by line gives back exactly its lines, with no empty last entry. An empty listing gives one empty entry. |
| `MakeIndex.GetSubfolders` | hcalanalysis/filelists/makeindex.py:23-30 | The loop keeps, in order, the entries that are subfolders. |
| `MakeIndex.SubfoldersExactly` | hcalanalysis/filelists/makeindex.py:26-29 | The subfolders are exactly the non-empty entries ending in '/'. No empty entry is returned. |
| `MakeIndex.IndexedExactly` | hcalanalysis/filelists/makeindex.py:33 | The indexed files are exactly the entries ending with the extension. |
| `MakeIndex.FileUrlNames` | hcalanalysis/filelists/makeindex.py:34 | Each URL is the host, the folder, a '/' and the name, and the name reads back from it. |
| `MakeIndex.IndexEntriesAreUrls` | hcalanalysis/filelists/makeindex.py:32-34 | Each index entry is the URL of the listed file with the extension at the same place. |
| `MakeIndex.IndexSingleKey` | hcalanalysis/filelists/makeindex.py:35 | The index has the given key and no other. |
| `MakeIndex.IndexPathsDistinct` | hcalanalysis/filelists/makeindex.py:36 | Different keys are written to different files. |

## Left out

- Charges are integers. In the source they are floating-point fC, and interesting events use the float threshold `2.e5`.
- Floating-point quantities are not modelled. These are the TDC time and the charge-weighted time (`splash_processor.py` 116-152), `avgq = eventq / nhits` (`bx1processor.py` 108-114) and the benchmark rate in Hz. They depend on NaN propagation and on division by zero.
- Histogram axes, bin edges and binning are not modelled. A fill is a record of the values filled and its weight.
- The ADC slices that the processors stack are not modelled. No histogram of the core fills them.
- Merging partial outputs across chunks is not modelled. This covers `processor.accumulate` and the executor's merge. Each `Process` returns the one chunk's dictionary.
- `phasescanprocessor.py` is not part of this model. It does not run as written.
- The dead `__main__` blocks kept as strings in the processor files are not modelled.
- `setup.py` and argument parsing are not modelled. The options arrive already parsed.
- Some options are not modelled. `-c/--condor` is never read. `--retar_venv` only controls tarring. `-w` and `--chunksize` of a local run go to the executor, which is outside the model.
- All I/O is outside the model and appears as parameters. Loading failures are outside it too. The loaded YAML or JSON document is always taken to be a mapping. An empty YAML file loads as `None`, on which `doc.items()` raises (run_processor.py:52-53, crun_processor.py:41-42). `yaml.load(f)` without a `Loader` raises `TypeError` on PyYAML 6 and later, which setup.py does not exclude. The parameters are:
  - reading the text, YAML and JSON input files;
  - the output-file existence check;
  - `util.save`;
  - `os.getlogin`;
  - the timestamp in the submission directory;
  - what the `eos ls` command prints.
- The side effects are not modelled: `mkdir`, `tar`, `chdir`, the `csub` call, file writes, printing and the JSON formatting of the index. The launchers return the commands and script lines instead.
- The processor class looked up by name through `globals()` is not modelled, and neither is the wall clock.
- Text.Strip: removes ASCII whitespace only. Python's `str.strip` also removes Unicode whitespace.
- The per-slice charge arrays must have at least the slices summed (8, or 3 for HF). The NanoAOD schema guarantees this. The model states it as a precondition rather than an error path.
- CrunProcessor.TarballDir: requires a non-empty login, because `whoami[0]` needs one.
- CrunProcessor.JobSubjobs: requires a non-empty file list without spaces, and states the round trip for a split at single spaces, not for bash's word split. Bash drops empty words and also splits at tabs and newlines.
  - An empty name breaks the match between the array and the subjob count. `-i a.root,` gives the files `a.root` and `""` (crun_processor.py:31), and so does a blank line in an `-I` file, since `strip()` keeps it as `""` (line 37).
  - The script then holds `INPUT_FILES=(a.root )`, a bash array of one entry, while `this_nsubjobs` is 2 (line 89). Subjob 1 therefore runs with no input file.
  - The model does not capture this mismatch.
- CrunProcessor.RunScriptInputs: states the same single-space round trip, with the same requires and the same gap to bash's word split.
- The worker and resubmit scripts are modelled as line lists. The global resubmit script is modelled as text.
- The curated splash list is modelled as the pairs it holds: five events of run 365373 and 123 of run 365537. An event is looked up together with its run.
- SplashFinder.Prepare: has no force field, because the finder has no `-f/--force` option. Its registration is commented out (line 160), so argparse rejects `-f`. The overwrite guard is commented out as well (lines 222-223), so the `args.force = True` that a quick test sets (line 171) has no effect.
- Bx1Processor.NHits: follows the code, and it counts every valid channel, although its axis label says ">60fC". Only eventq applies the 60 fC cut.
- `crun_processor` does not refuse a dataset name given with YAML input, and its precedence differs from `run_processor`. Both are modelled as written.

## Findings

| source | as written | input that shows it | evidently intended | confidence | as-written member | corrected member |
|---|---|---|---|---|---|---|
| hcalanalysis/run_processor.py:95 | The overwrite error message lacks the `f` prefix, so it prints `{args.outputfile}` literally. The launcher model returns this message as written. | any existing output file, e.g. `out.coffea` without `-f` | the message names the existing output file | not executed | `RunProcessor.OverwriteMessageAsWrittenIgnoresName` | `RunProcessor.OverwriteMessageNamesFile` |
