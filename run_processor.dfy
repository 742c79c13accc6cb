/** The generic launcher `run_processor`: it builds the fileset (dataset ->
    input files) from the command-line options, rewrites EOS paths to
    XRootD URLs, cuts the fileset down for a quick test, refuses to
    overwrite an existing output file, and after the run adds up the
    `nevents` counters of the outputs. Reading the input files, running the
    processor and saving the output are outside the model: what the files
    hold, and whether the output file exists, are parameters. */
module RunProcessor {
  import opened Wrappers
  import opened Seqs
  import opened Text

  /** A fileset key: the dataset name, or `None` when `-d` was not given
      for a comma or text-file input. */
  type Key = Option<string>

  /** The fileset dictionary, as its (dataset, files) items in insertion order. */
  type Fileset = seq<(Key, seq<string>)>

  /** The one input option of the required, mutually exclusive group. */
  datatype InputOption =
    | CommaList(list: string)   // -i a,b,c
    | TextFile(path: string)    // -I files.txt
    | YamlFile(path: string)    // -y files.yaml
    | JsonFile(path: string)    // -j files.json

  /** What the input file named by the option holds: its lines, for a text
      file, or the dataset -> files mapping parsed from YAML or JSON. */
  datatype Loaded = Loaded(lines: seq<string>, mapping: seq<(string, seq<string>)>)

  /** A parsed YAML or JSON mapping is a dictionary: no key twice. */
  predicate IsMapping(doc: seq<(string, seq<string>)>)
  {
    Distinct(ItemKeys(doc))
  }

  /** Python truthiness of an optional string: given and not empty. */
  predicate Truthy(o: Option<string>)
  {
    o.Some? && o.value != ""
  }

  predicate YamlGiven(input: InputOption)
  {
    input.YamlFile? && input.path != ""
  }

  predicate JsonGiven(input: InputOption)
  {
    !YamlGiven(input) && input.JsonFile? && input.path != ""
  }

  datatype LaunchError =
    | DatasetWithYaml            // -d together with -y
    | DatasetWithJson            // -d together with -j
    | OutputExists(message: string)

  // ---------------------------------------------------------------- input files

  /** One entry per line of a text file, stripped of surrounding whitespace. */
  function StrippedLines(lines: seq<string>): (files: seq<string>)
    ensures |files| == |lines|
  {
    seq(|lines|, i requires 0 <= i < |lines| => Strip(lines[i]))
  }

  /** Every entry read from a text file has no whitespace at either end, and
      a blank line gives an empty entry rather than being skipped. */
  lemma StrippedLinesTrimmed(lines: seq<string>, i: nat)
    requires i < |lines|
    ensures var f := StrippedLines(lines)[i];
      f == [] || (!IsSpace(f[0]) && !IsSpace(f[|f| - 1]))
    ensures (forall k | 0 <= k < |lines[i]| :: IsSpace(lines[i][k])) ==> StrippedLines(lines)[i] == ""
  {
    StripEnds(lines[i]);
    if forall k | 0 <= k < |lines[i]| :: IsSpace(lines[i][k]) {
      StripAllSpace(lines[i]);
    }
  }

  /** `for line in f: input_files.append(line.strip())`. */
  method ReadLines(lines: seq<string>) returns (files: seq<string>)
    ensures files == StrippedLines(lines)
  {
    files := [];
    for i := 0 to |lines|
      invariant |files| == i
      invariant files == StrippedLines(lines)[..i]
    {
      var line := lines[i];
      files := files + [Strip(line)];
    }
  }

  /** The files of a comma list or a text file; an empty option string is
      falsy and gives no files. */
  function InputFiles(input: InputOption, loaded: Loaded): seq<string>
  {
    if input.CommaList? && input.list != "" then Split(input.list, ',')
    else if input.TextFile? && input.path != "" then StrippedLines(loaded.lines)
    else []
  }

  /** The comma list is split at every comma, empty pieces included, so the
      pieces join back to the option string. */
  lemma CommaListRoundTrip(s: string, loaded: Loaded)
    requires s != ""
    ensures var files := InputFiles(CommaList(s), loaded);
      |files| == Count(s, ',') + 1 && Join(files, ',') == s
      && forall f | f in files :: ',' !in f
  {
    JoinSplit(s, ',');
  }

  /** The mapping's entries under their own names as keys. */
  function Named(doc: seq<(string, seq<string>)>): (fs: Fileset)
    ensures |fs| == |doc|
    ensures forall i | 0 <= i < |doc| :: fs[i] == (Some(doc[i].0), doc[i].1)
  {
    seq(|doc|, i requires 0 <= i < |doc| => (Some(doc[i].0), doc[i].1))
  }

  lemma NamedDistinct(doc: seq<(string, seq<string>)>)
    requires IsMapping(doc)
    ensures Distinct(ItemKeys(Named(doc)))
  {
    var ks, nks := ItemKeys(doc), ItemKeys(Named(doc));
    forall i, j | 0 <= i < j < |nks| ensures nks[i] != nks[j] {
      assert ks[i] != ks[j];
    }
  }

  /** `for dataset, filelist in doc.items(): fileset[dataset] = filelist`. */
  method CopyMapping(doc: seq<(string, seq<string>)>) returns (fileset: Fileset)
    requires IsMapping(doc)
    ensures fileset == Named(doc)
  {
    fileset := [];
    for i := 0 to |doc|
      invariant fileset == Named(doc[..i])
    {
      var ks := ItemKeys(fileset);
      assert Some(doc[i].0) !in ks by {
        forall j | 0 <= j < |ks| ensures ks[j] != Some(doc[i].0) {
          assert ItemKeys(doc)[j] != ItemKeys(doc)[i];
        }
      }
      UpsertNew(fileset, Some(doc[i].0), doc[i].1);
      fileset := Upsert(fileset, Some(doc[i].0), doc[i].1);
      assert fileset == Named(doc[..i + 1]);
    }
    assert doc[..|doc|] == doc;
  }

  /** The fileset the input options describe, before normalisation; the
      branches are tried in the order YAML, JSON, then comma list or text
      file under the `-d` name. */
  function FilesetSpec(input: InputOption, dataset: Option<string>, loaded: Loaded): Result<Fileset, LaunchError>
  {
    if YamlGiven(input) then
      if Truthy(dataset) then Err(DatasetWithYaml) else Ok(Named(loaded.mapping))
    else if input.JsonFile? && input.path != "" then
      if Truthy(dataset) then Err(DatasetWithJson) else Ok(Named(loaded.mapping))
    else
      Ok([(dataset, InputFiles(input, loaded))])
  }

  /** Lines 46-68: the fileset dictionary filled from the chosen input. */
  method BuildFileset(input: InputOption, dataset: Option<string>, loaded: Loaded)
    returns (r: Result<Fileset, LaunchError>)
    requires IsMapping(loaded.mapping)
    ensures r == FilesetSpec(input, dataset, loaded)
  {
    var fileset: Fileset := [];
    if YamlGiven(input) {
      if Truthy(dataset) {
        return Err(DatasetWithYaml);
      }
      fileset := CopyMapping(loaded.mapping);
    } else if input.JsonFile? && input.path != "" {
      if Truthy(dataset) {
        return Err(DatasetWithJson);
      }
      fileset := Named(loaded.mapping);
    } else {
      var inputFiles: seq<string> := [];
      if input.CommaList? && input.list != "" {
        inputFiles := Split(input.list, ',');
      } else if input.TextFile? && input.path != "" {
        inputFiles := ReadLines(loaded.lines);
      }
      fileset := Upsert(fileset, dataset, inputFiles);
    }
    r := Ok(fileset);
  }

  /** A dataset name together with a YAML or JSON input is refused, and
      nothing else is refused while building the fileset. */
  lemma DatasetConflict(input: InputOption, dataset: Option<string>, loaded: Loaded)
    ensures FilesetSpec(input, dataset, loaded) == Err(DatasetWithYaml) <==> YamlGiven(input) && Truthy(dataset)
    ensures FilesetSpec(input, dataset, loaded) == Err(DatasetWithJson) <==> JsonGiven(input) && Truthy(dataset)
    ensures FilesetSpec(input, dataset, loaded).Err? <==> (YamlGiven(input) || JsonGiven(input)) && Truthy(dataset)
  {
  }

  /** A comma list or text file gives exactly one dataset, keyed by the
      `-d` value (None when absent), holding the files in their order. */
  lemma SingleDataset(input: InputOption, dataset: Option<string>, loaded: Loaded)
    requires !YamlGiven(input) && !JsonGiven(input)
    ensures FilesetSpec(input, dataset, loaded).Ok?
    ensures var fs := FilesetSpec(input, dataset, loaded).value;
      ItemKeys(fs) == [dataset] && fs[0].1 == InputFiles(input, loaded)
  {
  }

  /** The fileset of a valid request never holds a dataset twice. */
  lemma FilesetKeysDistinct(input: InputOption, dataset: Option<string>, loaded: Loaded)
    requires IsMapping(loaded.mapping)
    requires FilesetSpec(input, dataset, loaded).Ok?
    ensures Distinct(ItemKeys(FilesetSpec(input, dataset, loaded).value))
  {
    if YamlGiven(input) || JsonGiven(input) {
      NamedDistinct(loaded.mapping);
    }
  }

  // ---------------------------------------------------------- normalisation

  const EosPrefix := "/eos/cms/store"
  const StorePrefix := "/store"
  const XrootdPrefix := "root://eoscms.cern.ch//store"

  /** A leading `/eos/cms/store`, or else a leading `/store`, becomes the
      XRootD URL prefix; any other name is kept. */
  function NormalizeName(name: string): (r: string)
    ensures StartsWith(r, XrootdPrefix) || r == name
    ensures !StartsWith(name, EosPrefix) && !StartsWith(name, StorePrefix) ==> r == name
  {
    if StartsWith(name, EosPrefix) then XrootdPrefix + name[|EosPrefix|..]
    else if StartsWith(name, StorePrefix) then XrootdPrefix + name[|StorePrefix|..]
    else name
  }

  /** A path below `/store` is rewritten to the URL of the same path, whether
      it is written with the `/eos/cms` mount point or without it. */
  lemma NormalizeStorePath(rest: string)
    ensures NormalizeName(StorePrefix + rest) == XrootdPrefix + rest
    ensures NormalizeName(EosPrefix + rest) == XrootdPrefix + rest
  {
    var s := StorePrefix + rest;
    assert s[1] == 's' && EosPrefix[1] == 'e';
    assert (StorePrefix + rest)[|StorePrefix|..] == rest;
    assert (EosPrefix + rest)[|EosPrefix|..] == rest;
  }

  /** The prefix test is a plain string test: `/store2/x` is rewritten too. */
  lemma NormalizeStoreLookalike()
    ensures NormalizeName("/store2/x") == "root://eoscms.cern.ch//store2/x"
  {
    NormalizeStorePath("2/x");
    assert StorePrefix + "2/x" == "/store2/x";
  }

  /** Only names starting with `/` can change. */
  lemma NormalizeRelativeName(name: string)
    requires name == [] || name[0] != '/'
    ensures NormalizeName(name) == name
  {
  }

  /** A rewritten name starts with `root://`, which neither prefix matches,
      so normalising twice is normalising once. */
  lemma NormalizeNameIdempotent(name: string)
    ensures NormalizeName(NormalizeName(name)) == NormalizeName(name)
  {
    var r := NormalizeName(name);
    if r != name {
      assert r[0] == 'r';
    }
  }

  function NormalizeList(files: seq<string>): (r: seq<string>)
    ensures |r| == |files|
  {
    seq(|files|, i requires 0 <= i < |files| => NormalizeName(files[i]))
  }

  /** The fileset with every file name normalised, keys and order kept. */
  function NormalizedFileset(fs: Fileset): (r: Fileset)
    ensures |r| == |fs|
  {
    seq(|fs|, i requires 0 <= i < |fs| => (fs[i].0, NormalizeList(fs[i].1)))
  }

  /** Normalisation keeps the datasets, their order and every list's length,
      and rewrites each name where it stands. */
  lemma NormalizedFilesetShape(fs: Fileset)
    ensures ItemKeys(NormalizedFileset(fs)) == ItemKeys(fs)
    ensures forall i | 0 <= i < |fs| :: |NormalizedFileset(fs)[i].1| == |fs[i].1|
    ensures forall i, j | 0 <= i < |fs| && 0 <= j < |fs[i].1| ::
      NormalizedFileset(fs)[i].1[j] == NormalizeName(fs[i].1[j])
  {
  }

  /** Applying the normalisation twice equals applying it once. */
  lemma NormalizedFilesetIdempotent(fs: Fileset)
    ensures NormalizedFileset(NormalizedFileset(fs)) == NormalizedFileset(fs)
  {
    var n := NormalizedFileset(fs);
    forall i | 0 <= i < |fs| ensures NormalizeList(n[i].1) == n[i].1 {
      forall j | 0 <= j < |n[i].1| ensures NormalizeName(n[i].1[j]) == n[i].1[j] {
        NormalizeNameIdempotent(fs[i].1[j]);
      }
    }
  }

  /** Lines 71-80: every list is rebuilt with normalised names and stored
      back under its key. */
  method NormalizeFileset(fileset: Fileset) returns (r: Fileset)
    requires Distinct(ItemKeys(fileset))
    ensures r == NormalizedFileset(fileset)
  {
    r := fileset;
    for i := 0 to |fileset|
      invariant |r| == |fileset|
      invariant forall j | 0 <= j < i :: r[j] == (fileset[j].0, NormalizeList(fileset[j].1))
      invariant forall j | i <= j < |fileset| :: r[j] == fileset[j]
    {
      var (k, v) := fileset[i];
      var newList := [];
      for j := 0 to |v|
        invariant newList == NormalizeList(v[..j])
      {
        newList := newList + [NormalizeName(v[j])];
      }
      assert v[..|v|] == v;
      assert forall j | 0 <= j < i :: r[j].0 != k by {
        assert forall j | 0 <= j < i :: ItemKeys(fileset)[j] != ItemKeys(fileset)[i];
      }
      UpsertExisting(r, i, newList);
      r := Upsert(r, k, newList);
    }
  }

  // ---------------------------------------------------------------- quicktest

  const QuicktestMaxChunks := 8

  /** `v[:1]` for every dataset. */
  function QuicktestFileset(fs: Fileset): (r: Fileset)
    ensures |r| == |fs| && ItemKeys(r) == ItemKeys(fs)
  {
    seq(|fs|, i requires 0 <= i < |fs| => (fs[i].0, Prefix(fs[i].1, 1)))
  }

  /** A quick test keeps at most the first file of every dataset, and keeps
      that one when there is one. */
  lemma QuicktestFilesetFirstFile(fs: Fileset, i: nat)
    requires i < |fs|
    ensures |QuicktestFileset(fs)[i].1| <= 1
    ensures fs[i].1 != [] ==> QuicktestFileset(fs)[i].1 == [fs[i].1[0]]
    ensures fs[i].1 == [] ==> QuicktestFileset(fs)[i].1 == []
  {
  }

  /** Lines 83-85: every list replaced by its first entry. */
  method TruncateForQuicktest(fileset: Fileset) returns (r: Fileset)
    requires Distinct(ItemKeys(fileset))
    ensures r == QuicktestFileset(fileset)
  {
    r := fileset;
    for i := 0 to |fileset|
      invariant |r| == |fileset|
      invariant forall j | 0 <= j < i :: r[j] == (fileset[j].0, Prefix(fileset[j].1, 1))
      invariant forall j | i <= j < |fileset| :: r[j] == fileset[j]
    {
      var (k, v) := fileset[i];
      assert forall j | 0 <= j < i :: r[j].0 != k by {
        assert forall j | 0 <= j < i :: ItemKeys(fileset)[j] != ItemKeys(fileset)[i];
      }
      UpsertExisting(r, i, Prefix(v, 1));
      r := Upsert(r, k, Prefix(v, 1));
    }
  }

  /** The chunk limit handed to the executor: 8 for a quick test, otherwise
      the `--maxchunks` value (None when not given). */
  function MaxChunks(quicktest: bool, maxchunks: Option<int>): (r: Option<int>)
    ensures quicktest ==> r == Some(QuicktestMaxChunks)
    ensures !quicktest ==> r == maxchunks
  {
    if quicktest then Some(QuicktestMaxChunks) else maxchunks
  }

  /** The fileset handed to the executor: built, normalised and, for a quick
      test, truncated. */
  function LaunchFileset(input: InputOption, dataset: Option<string>, quicktest: bool, loaded: Loaded)
    : Result<Fileset, LaunchError>
  {
    match FilesetSpec(input, dataset, loaded)
    case Err(e) => Err(e)
    case Ok(fs) =>
      var normal := NormalizedFileset(fs);
      Ok(if quicktest then QuicktestFileset(normal) else normal)
  }

  /** Lines 46-88 of the launcher: build, normalise, truncate. */
  method PrepareFileset(input: InputOption, dataset: Option<string>, quicktest: bool, loaded: Loaded)
    returns (r: Result<Fileset, LaunchError>)
    requires IsMapping(loaded.mapping)
    ensures r == LaunchFileset(input, dataset, quicktest, loaded)
  {
    var built := BuildFileset(input, dataset, loaded);
    if built.Err? {
      return Err(built.error);
    }
    FilesetKeysDistinct(input, dataset, loaded);
    var fileset := NormalizeFileset(built.value);
    if quicktest {
      NormalizedFilesetShape(built.value);
      fileset := TruncateForQuicktest(fileset);
    }
    r := Ok(fileset);
  }

  /** The launched fileset keeps the datasets of the request in their order,
      and holds for each the normalised files, cut to the first one for a
      quick test. */
  lemma LaunchFilesetContents(input: InputOption, dataset: Option<string>, quicktest: bool, loaded: Loaded)
    requires FilesetSpec(input, dataset, loaded).Ok?
    ensures var fs := FilesetSpec(input, dataset, loaded).value;
      var r := LaunchFileset(input, dataset, quicktest, loaded);
      r.Ok? && ItemKeys(r.value) == ItemKeys(fs)
      && forall i | 0 <= i < |fs| ::
           r.value[i].1 == if quicktest then Prefix(NormalizeList(fs[i].1), 1) else NormalizeList(fs[i].1)
  {
    NormalizedFilesetShape(FilesetSpec(input, dataset, loaded).value);
  }

  // ------------------------------------------------------------------ launch

  datatype Args = Args(
    quicktest: bool,
    input: InputOption,
    outputfile: string,
    force: bool,
    dataset: Option<string>,
    maxchunks: Option<int>)

  /** What the executor is started with. */
  datatype Plan = Plan(fileset: Fileset, maxchunks: Option<int>)

  /** The launcher up to the start of the run: a quick test forces
      overwriting; the fileset errors come first, then the overwrite guard
      on an existing output file. */
  function PlanSpec(a: Args, loaded: Loaded, outputExists: bool): Result<Plan, LaunchError>
  {
    var force := a.force || a.quicktest;
    match LaunchFileset(a.input, a.dataset, a.quicktest, loaded)
    case Err(e) => Err(e)
    case Ok(fileset) =>
      if outputExists && !force then Err(OutputExists(OverwriteMessageAsWritten(a.outputfile)))
      else Ok(Plan(fileset, MaxChunks(a.quicktest, a.maxchunks)))
  }

  method Prepare(a: Args, loaded: Loaded, outputExists: bool) returns (r: Result<Plan, LaunchError>)
    requires IsMapping(loaded.mapping)
    ensures r == PlanSpec(a, loaded, outputExists)
  {
    var args := a;
    if args.quicktest {
      args := args.(force := true);
    }
    var fileset := PrepareFileset(args.input, args.dataset, args.quicktest, loaded);
    if fileset.Err? {
      return Err(fileset.error);
    }
    var maxchunks := if args.quicktest then Some(QuicktestMaxChunks) else args.maxchunks;
    if outputExists && !args.force {
      return Err(OutputExists(OverwriteMessageAsWritten(args.outputfile)));
    }
    r := Ok(Plan(fileset.value, maxchunks));
  }

  /** An existing output file stops the launch exactly when neither `-f` nor
      `-q` was given and the options themselves are consistent; the error
      carries the message as the launcher writes it. */
  lemma OverwriteGuard(a: Args, loaded: Loaded, outputExists: bool)
    ensures PlanSpec(a, loaded, outputExists).Err? && PlanSpec(a, loaded, outputExists).error.OutputExists?
      <==> FilesetSpec(a.input, a.dataset, loaded).Ok? && outputExists && !a.force && !a.quicktest
    ensures PlanSpec(a, loaded, outputExists).Err? && PlanSpec(a, loaded, outputExists).error.OutputExists? ==>
      PlanSpec(a, loaded, outputExists).error == OutputExists(OverwriteMessageAsWritten(a.outputfile))
    ensures PlanSpec(a, loaded, outputExists).Ok?
      <==> FilesetSpec(a.input, a.dataset, loaded).Ok? && (!outputExists || a.force || a.quicktest)
  {
  }

  /** A quick test always launches when the options are consistent, with
      at most one file per dataset and 8 chunks. */
  lemma QuicktestPlan(a: Args, loaded: Loaded, outputExists: bool)
    requires a.quicktest && FilesetSpec(a.input, a.dataset, loaded).Ok?
    ensures var r := PlanSpec(a, loaded, outputExists);
      r.Ok? && r.value.maxchunks == Some(8)
      && forall i | 0 <= i < |r.value.fileset| :: |r.value.fileset[i].1| <= 1
  {
  }

  /** A launch that goes ahead runs over the launched fileset with 8 chunks
      for a quick test and the `--maxchunks` value otherwise. */
  lemma PlanChunkLimit(a: Args, loaded: Loaded, outputExists: bool)
    requires PlanSpec(a, loaded, outputExists).Ok?
    ensures var p := PlanSpec(a, loaded, outputExists).value;
      LaunchFileset(a.input, a.dataset, a.quicktest, loaded) == Ok(p.fileset)
      && p.maxchunks == (if a.quicktest then Some(8) else a.maxchunks)
  {
  }

  // ------------------------------------------------------- overwrite message

  /** The message as the launcher builds it: a plain string literal, so
      the braces are printed as they stand instead of the file name. */
  function OverwriteMessageAsWritten(outputfile: string): string
  {
    "Output file " + "{args.outputfile}" + " already exists. Specify -f/--force to overwrite."
  }

  /** The message as written is the same for every output file: it is the
      message naming a file called `{args.outputfile}`, and for every other
      file it differs from the message naming that file. */
  lemma OverwriteMessageAsWrittenIgnoresName(f: string, g: string)
    ensures OverwriteMessageAsWritten(f) == OverwriteMessageAsWritten(g)
    ensures OverwriteMessageAsWritten(f) == OverwriteMessage("{args.outputfile}")
    ensures f != "{args.outputfile}" ==> OverwriteMessageAsWritten(f) != OverwriteMessage(f)
  {
    OverwriteMessageNamesFile(f, "{args.outputfile}");
  }

  /** The message with the file name filled in, as the placeholder means. */
  function OverwriteMessage(outputfile: string): (m: string)
    ensures |m| == |outputfile| + 61 && m[12..12 + |outputfile|] == outputfile
  {
    "Output file " + outputfile + " already exists. Specify -f/--force to overwrite."
  }

  /** The corrected message tells output files apart. */
  lemma OverwriteMessageNamesFile(f: string, g: string)
    ensures f != g ==> OverwriteMessage(f) != OverwriteMessage(g)
  {
    if OverwriteMessage(f) == OverwriteMessage(g) {
      assert |f| == |g|;
      assert f == OverwriteMessage(f)[12..12 + |f|] == OverwriteMessage(g)[12..12 + |g|] == g;
    }
  }

  // ------------------------------------------------------------ bookkeeping

  /** An output entry: its dataset key and its `nevents` counter, if any. */
  type OutputEntry = (Key, Option<int>)

  datatype Benchmark = Benchmark(totalEvents: int, datasetNevents: map<Key, int>)

  predicate CanBenchmark(outputs: seq<OutputEntry>)
  {
    forall i | 0 <= i < |outputs| :: outputs[i].1.Some?
  }

  function Nevents(outputs: seq<OutputEntry>): (ns: seq<int>)
    requires CanBenchmark(outputs)
    ensures |ns| == |outputs| && forall i | 0 <= i < |outputs| :: ns[i] == outputs[i].1.value
  {
    seq(|outputs|, i requires 0 <= i < |outputs| => outputs[i].1.value)
  }

  /** Mask of the entries filed under key k. */
  function KeyMask(outputs: seq<OutputEntry>, k: Key): (m: seq<bool>)
    ensures |m| == |outputs| && forall i | 0 <= i < |outputs| :: m[i] == (outputs[i].0 == k)
  {
    seq(|outputs|, i requires 0 <= i < |outputs| => outputs[i].0 == k)
  }

  /** The per-dataset counters, accumulated entry by entry. */
  function NeventsByKey(outputs: seq<OutputEntry>): map<Key, int>
    requires CanBenchmark(outputs)
  {
    if outputs == [] then map[]
    else
      var n := |outputs| - 1;
      var m := NeventsByKey(outputs[..n]);
      var k := outputs[n].0;
      m[k := (if k in m then m[k] else 0) + outputs[n].1.value]
  }

  /** The events filed under k, in output order. */
  function KeyNevents(outputs: seq<OutputEntry>, k: Key): seq<int>
    requires CanBenchmark(outputs)
  {
    Select(Nevents(outputs), KeyMask(outputs, k))
  }

  lemma KeyNeventsSnoc(outputs: seq<OutputEntry>, k: Key)
    requires CanBenchmark(outputs) && outputs != []
    ensures var n := |outputs| - 1;
      Sum(KeyNevents(outputs, k))
        == Sum(KeyNevents(outputs[..n], k)) + (if outputs[n].0 == k then outputs[n].1.value else 0)
  {
    var n := |outputs| - 1;
    var init := outputs[..n];
    var last := outputs[n];
    assert Nevents(outputs) == Nevents(init) + [last.1.value];
    assert KeyMask(outputs, k) == KeyMask(init, k) + [last.0 == k];
    SelectAppend(Nevents(init), KeyMask(init, k), [last.1.value], [last.0 == k]);
    SumAppend(KeyNevents(init, k), Select([last.1.value], [last.0 == k]));
  }

  /** The datasets counted are exactly those of the output entries. */
  lemma {:induction false} NeventsByKeyKeys(outputs: seq<OutputEntry>)
    requires CanBenchmark(outputs)
    ensures NeventsByKey(outputs).Keys == set i | 0 <= i < |outputs| :: outputs[i].0
  {
    if outputs != [] {
      var n := |outputs| - 1;
      var init := outputs[..n];
      NeventsByKeyKeys(init);
      var m := NeventsByKey(outputs);
      forall k | k in m ensures exists i | 0 <= i < |outputs| :: outputs[i].0 == k {
        if k != outputs[n].0 {
          var i :| 0 <= i < |init| && init[i].0 == k;
          assert outputs[i].0 == k;
        }
      }
      forall i | 0 <= i < |outputs| ensures outputs[i].0 in m {
        if i < n {
          assert init[i].0 == outputs[i].0;
        }
      }
    }
  }

  /** Every dataset's counter is the sum of `nevents` over the entries filed
      under it, so a dataset listed twice has its counts added. */
  lemma {:induction false} NeventsByKeySums(outputs: seq<OutputEntry>)
    requires CanBenchmark(outputs)
    ensures forall k | k in NeventsByKey(outputs) :: NeventsByKey(outputs)[k] == Sum(KeyNevents(outputs, k))
  {
    if outputs != [] {
      var n := |outputs| - 1;
      var init := outputs[..n];
      NeventsByKeySums(init);
      NeventsByKeyKeys(init);
      forall k | k in NeventsByKey(outputs) ensures NeventsByKey(outputs)[k] == Sum(KeyNevents(outputs, k)) {
        KeyNeventsSnoc(outputs, k);
        if k !in NeventsByKey(init) {
          SelectNone(Nevents(init), KeyMask(init, k));
        }
      }
    }
  }

  /** Lines 119-135: benchmark only when every output has `nevents`; then
      count the events in total and per dataset. */
  method Bookkeeping(outputs: seq<OutputEntry>) returns (b: Option<Benchmark>)
    ensures b.Some? <==> CanBenchmark(outputs)
    ensures b.Some? ==>
      b.value.totalEvents == Sum(Nevents(outputs)) && b.value.datasetNevents == NeventsByKey(outputs)
  {
    var canBenchmark := true;
    var i := 0;
    while i < |outputs|
      invariant 0 <= i <= |outputs|
      invariant canBenchmark ==> forall j | 0 <= j < i :: outputs[j].1.Some?
      invariant !canBenchmark ==> !CanBenchmark(outputs)
      invariant canBenchmark || i < |outputs|
    {
      if outputs[i].1.None? {
        canBenchmark := false;
        break;
      }
      i := i + 1;
    }
    if !canBenchmark {
      return None;
    }
    var totalEvents := 0;
    var datasetNevents: map<Key, int> := map[];
    for j := 0 to |outputs|
      invariant totalEvents == Sum(Nevents(outputs[..j]))
      invariant datasetNevents == NeventsByKey(outputs[..j])
    {
      var (dataset, nevents) := (outputs[j].0, outputs[j].1.value);
      if dataset in datasetNevents {
        datasetNevents := datasetNevents[dataset := datasetNevents[dataset] + nevents];
      } else {
        datasetNevents := datasetNevents[dataset := nevents];
      }
      totalEvents := totalEvents + nevents;
      assert outputs[..j + 1][..j] == outputs[..j];
      assert Nevents(outputs[..j + 1]) == Nevents(outputs[..j]) + [nevents];
      SumAppend(Nevents(outputs[..j]), [nevents]);
    }
    assert outputs[..|outputs|] == outputs;
    b := Some(Benchmark(totalEvents, datasetNevents));
  }
}
