/** The Condor launcher `crun_processor`: it builds the fileset, then for
    every dataset writes a job directory with a worker script that runs
    `run_processor` on one input file per subjob, the `csub` command that
    submits one subjob per file, and a resubmit script; a global script
    calls every dataset's resubmit script. Tarring, directory creation,
    the submission itself and the clock that names the submission
    directory are outside the model: the login name and the submission
    directory are parameters, and the commands are returned as strings. */
module CrunProcessor {
  import opened Wrappers
  import opened Seqs
  import opened Text
  import RP = RunProcessor

  datatype CrunArgs = CrunArgs(
    processorName: string,
    inputfiles: Option<string>,
    inputfilestxt: Option<string>,
    inputfilesyaml: Option<string>,
    dataset: Option<string>,
    outputfile: string,
    workers: int,
    chunksize: int,
    maxchunks: Option<int>)

  // ------------------------------------------------------------------ fileset

  /** Lines 29-43: the comma list wins over the text file, which wins over
      the YAML file; with none of them the fileset is empty. File names are
      kept as given and `-d` is not checked against YAML input. */
  function FilesetSpec(a: CrunArgs, loaded: RP.Loaded): RP.Fileset
  {
    if RP.Truthy(a.inputfiles) then [(a.dataset, Split(a.inputfiles.value, ','))]
    else if RP.Truthy(a.inputfilestxt) then [(a.dataset, RP.StrippedLines(loaded.lines))]
    else if RP.Truthy(a.inputfilesyaml) then RP.Named(loaded.mapping)
    else []
  }

  method BuildFileset(a: CrunArgs, loaded: RP.Loaded) returns (fileset: RP.Fileset)
    requires RP.IsMapping(loaded.mapping)
    ensures fileset == FilesetSpec(a, loaded)
  {
    fileset := [];
    if RP.Truthy(a.inputfiles) {
      fileset := Upsert(fileset, a.dataset, Split(a.inputfiles.value, ','));
    } else if RP.Truthy(a.inputfilestxt) {
      var files := RP.ReadLines(loaded.lines);
      fileset := Upsert(fileset, a.dataset, files);
    } else if RP.Truthy(a.inputfilesyaml) {
      fileset := RP.CopyMapping(loaded.mapping);
    }
  }

  /** The options are tried in a fixed order: a later one is ignored when an
      earlier one is given, and a dataset name never causes an error. */
  lemma FilesetPrecedence(a: CrunArgs, loaded: RP.Loaded)
    ensures RP.Truthy(a.inputfiles) ==>
      ItemKeys(FilesetSpec(a, loaded)) == [a.dataset] && FilesetSpec(a, loaded)[0].1 == Split(a.inputfiles.value, ',')
    ensures !RP.Truthy(a.inputfiles) && RP.Truthy(a.inputfilestxt) ==>
      ItemKeys(FilesetSpec(a, loaded)) == [a.dataset] && FilesetSpec(a, loaded)[0].1 == RP.StrippedLines(loaded.lines)
    ensures !RP.Truthy(a.inputfiles) && !RP.Truthy(a.inputfilestxt) && RP.Truthy(a.inputfilesyaml) ==>
      FilesetSpec(a, loaded) == RP.Named(loaded.mapping)
    ensures !RP.Truthy(a.inputfiles) && !RP.Truthy(a.inputfilestxt) && !RP.Truthy(a.inputfilesyaml) ==>
      FilesetSpec(a, loaded) == []
  {
  }

  // ------------------------------------------------------------ job naming

  /** A dataset key as an f-string shows it: a missing `-d` prints `None`. */
  function DatasetText(k: RP.Key): string
  {
    match k
    case None => "None"
    case Some(name) => name
  }

  /** Lines 82-84: the output name with the dataset put in front of the
      part after the last '.'. */
  function OutputName(outputfile: string, dataset: string): string
  {
    var parts := Split(outputfile, '.');
    Join(parts[..|parts| - 1], '.') + "." + dataset + "." + parts[|parts| - 1]
  }

  /** With a '.' at position p and none after it, the dataset goes between
      the part before p and the part after it. */
  lemma OutputNameAtLastDot(outputfile: string, dataset: string, p: nat)
    requires p < |outputfile| && outputfile[p] == '.' && '.' !in outputfile[p + 1..]
    ensures OutputName(outputfile, dataset) == outputfile[..p] + "." + dataset + "." + outputfile[p + 1..]
  {
    SplitAtLastSeparator(outputfile, p, '.');
  }

  /** A name without '.' has an empty prefix: the result starts with '.'. */
  lemma OutputNameWithoutDot(outputfile: string, dataset: string)
    requires '.' !in outputfile
    ensures OutputName(outputfile, dataset) == "." + dataset + "." + outputfile
  {
    SplitWithoutSeparator(outputfile, '.');
  }

  /** Line 49: where the tarballs are kept, below the user's AFS work area. */
  function TarballDir(login: string): string
    requires login != ""
  {
    "/afs/cern.ch/work/" + [login[0]] + "/" + login + "/tarballs"
  }

  // ------------------------------------------------------- worker command

  /** ` --chunksize N`, present only when the chunk size is not 0. */
  function ChunksizeFlag(chunksize: int): (f: string)
    ensures f == "" <==> chunksize == 0
  {
    if chunksize != 0 then " --chunksize " + IntToString(chunksize) else ""
  }

  /** ` --maxchunks N`, present only when a non-zero limit was given. */
  function MaxchunksFlag(maxchunks: Option<int>): (f: string)
    ensures f == "" <==> maxchunks.None? || maxchunks.value == 0
  {
    if maxchunks.Some? && maxchunks.value != 0 then " --maxchunks " + IntToString(maxchunks.value) else ""
  }

  /** A flag carries its value: the digits after the flag name read back as
      the number given. */
  lemma FlagValues(chunksize: nat, maxchunks: nat)
    requires chunksize > 0 && maxchunks > 0
    ensures var f := ChunksizeFlag(chunksize);
      f[..13] == " --chunksize " && DecimalValue(f[13..]) == chunksize
    ensures var g := MaxchunksFlag(Some(maxchunks));
      g[..13] == " --maxchunks " && DecimalValue(g[13..]) == maxchunks
  {
    DecimalRoundTrip(chunksize);
    DecimalRoundTrip(maxchunks);
    assert ChunksizeFlag(chunksize)[13..] == NatToString(chunksize);
    assert MaxchunksFlag(Some(maxchunks))[13..] == NatToString(maxchunks);
  }

  /** The fixed part of the worker command: subjob $1 reads the $1-th entry
      of the script's INPUT_FILES array and writes `<output>.$1`. */
  function BaseCommand(processorName: string, dataset: string, outputfile: string, workers: int): string
  {
    "python run_processor.py " + processorName + " -i ${INPUT_FILES[$1]} -d " + dataset
      + " -o " + outputfile + ".$1 -w " + IntToString(workers)
  }

  /** Lines 92-96. */
  function ProcessorCommand(a: CrunArgs, dataset: string, outputfile: string): string
  {
    BaseCommand(a.processorName, dataset, outputfile, a.workers) + ChunksizeFlag(a.chunksize) + MaxchunksFlag(a.maxchunks)
  }

  /** Each flag, when present, starts with its own name. */
  lemma FlagNames(chunksize: int, maxchunks: Option<int>)
    ensures var f := ChunksizeFlag(chunksize); f == "" || StartsWith(f, " --chunksize ")
    ensures var g := MaxchunksFlag(maxchunks); g == "" || StartsWith(g, " --maxchunks ")
  {
  }

  /** Appending two optional flags to a command. */
  lemma FlagsAppended(base: string, chunk: string, max: string)
    requires chunk == "" || StartsWith(chunk, " --chunksize ")
    requires max == "" || StartsWith(max, " --maxchunks ")
    ensures var cmd := base + chunk + max;
      StartsWith(cmd, base) && EndsWith(cmd, max)
      && (chunk != "" <==> StartsWith(cmd[|base|..], " --chunksize "))
  {
    var cmd := base + chunk + max;
    assert cmd[..|base|] == base;
    assert cmd[|base|..] == chunk + max;
    assert cmd[|cmd| - |max|..] == max;
    if chunk != "" {
      assert (chunk + max)[..13] == chunk[..13];
    } else if max != "" {
      assert (chunk + max)[3] == 'm';
    }
  }

  /** The optional flags only ever extend the fixed command, the chunk size
      before the chunk limit, and without them the command is the fixed part. */
  lemma ProcessorCommandFlags(a: CrunArgs, dataset: string, outputfile: string)
    ensures var base, cmd := BaseCommand(a.processorName, dataset, outputfile, a.workers), ProcessorCommand(a, dataset, outputfile);
      StartsWith(cmd, base)
      && (a.chunksize != 0 <==> StartsWith(cmd[|base|..], " --chunksize "))
      && EndsWith(cmd, MaxchunksFlag(a.maxchunks))
      && (a.chunksize == 0 && (a.maxchunks.None? || a.maxchunks.value == 0) ==> cmd == base)
  {
    var base := BaseCommand(a.processorName, dataset, outputfile, a.workers);
    FlagNames(a.chunksize, a.maxchunks);
    FlagsAppended(base, ChunksizeFlag(a.chunksize), MaxchunksFlag(a.maxchunks));
  }

  // ----------------------------------------------------------------- scripts

  /** Lines 99-115, line by line (the text opens with an empty line). */
  function RunScriptLines(files: seq<string>, command: string): seq<string>
  {
    ["",
     "#!/bin/bash",
     "export HOME=$(pwd)",
     "tar -xzf usercode.tar.gz",
     "tar -xzf venv.tar.gz",
     "echo 'After untarring, contents of ${PWD}:'",
     "ls -lrth",
     "cd hcalanalysis",
     "source env.sh",
     "cd hcalanalysis",
     "echo 'Contents of ${PWD}:'",
     "ls -lrth",
     "INPUT_FILES=(" + Join(files, ' ') + ")",
     command,
     "mv *coffea* $_CONDOR_SCRATCH_DIR/",
     "echo 'Done with run.sh'"]
  }

  /** The array line lists the dataset's files, space-separated and in order,
      so splitting it at the spaces gives back the files; the command
      follows on its own line. */
  lemma RunScriptInputs(files: seq<string>, command: string)
    requires files != [] && forall f | f in files :: ' ' !in f
    ensures var lines := RunScriptLines(files, command);
      |lines| == 16 && lines[13] == command
      && lines[12] == "INPUT_FILES=(" + Join(files, ' ') + ")"
      && Split(Join(files, ' '), ' ') == files
  {
    SplitJoin(files, ' ');
  }

  /** Line 121: one subjob per file, both tarballs transferred. */
  function CsubCommand(subdir: string, tarballDir: string, nsubjobs: nat): string
  {
    var transfer := [tarballDir + "/usercode.tar.gz", tarballDir + "/venv.tar.gz"];
    "csub " + subdir + "/run.sh -F " + Join(transfer, ',') + " -n " + NatToString(nsubjobs)
      + " -d " + subdir + " -t workday --mem 6000 2>&1"
  }

  /** The `-F` argument splits back into the two tarballs and the `-n`
      argument reads back as the number of subjobs. */
  lemma CsubArguments(tarballDir: string, nsubjobs: nat)
    requires ',' !in tarballDir
    ensures var transfer := [tarballDir + "/usercode.tar.gz", tarballDir + "/venv.tar.gz"];
      Join(transfer, ',') == tarballDir + "/usercode.tar.gz," + tarballDir + "/venv.tar.gz"
      && Split(Join(transfer, ','), ',') == transfer
    ensures DecimalValue(NatToString(nsubjobs)) == nsubjobs
  {
    var transfer := [tarballDir + "/usercode.tar.gz", tarballDir + "/venv.tar.gz"];
    assert ',' !in "/usercode.tar.gz" && ',' !in "/venv.tar.gz";
    assert forall f | f in transfer :: ',' !in f;
    SplitJoin(transfer, ',');
    DecimalRoundTrip(nsubjobs);
  }

  /** Lines 130-139: rerun the whole submission when an output is missing. */
  function ResubmitScriptLines(nsubjobs: nat): seq<string>
  {
    ["",
     "#!/bin/bash",
     "# NSUCCESS=$(ls -l *coffea | wc -l)",
     "NFAIL=$(find . -name \"*coffea\" -size -100c -exec stat -c \"%s %n\" {} \\; | wc -l)",
     "NTOTAL=" + NatToString(nsubjobs),
     "#if [ \"$NSUCCESS\" -ne \"$NTOTAL\" ]; then",
     "if [ \"$NFAIL\" -ge 1 ]; then ",
     "    source csub_command.sh",
     "fi"]
  }

  /** A dataset's job: the dataset as it is printed, the job directory
      named after it, and its files, one subjob each. */
  datatype Job = Job(dataset: string, subdir: string, files: seq<string>)

  /** Line 78 for one fileset entry. */
  function JobFor(entry: (RP.Key, seq<string>), submissionDir: string): (job: Job)
    ensures job.files == entry.1
  {
    var dataset := DatasetText(entry.0);
    Job(dataset, submissionDir + "/" + dataset, entry.1)
  }

  /** Line 89: one subjob per file. */
  function NSubjobs(job: Job): nat
  {
    |job.files|
  }

  /** Lines 82-84: the job's output name. */
  function JobOutputName(a: CrunArgs, job: Job): string
  {
    OutputName(a.outputfile, job.dataset)
  }

  /** Lines 92-96: the job's worker command. */
  function JobCommand(a: CrunArgs, job: Job): string
  {
    ProcessorCommand(a, job.dataset, JobOutputName(a, job))
  }

  /** Line 121: the job's submission command. */
  function JobCsub(job: Job, tarballDir: string): string
  {
    CsubCommand(job.subdir, tarballDir, NSubjobs(job))
  }

  /** The scripts written into the job directory, as their lines. */
  function RunScript(a: CrunArgs, job: Job): seq<string>
  {
    RunScriptLines(job.files, JobCommand(a, job))
  }

  function CsubScript(job: Job, tarballDir: string): seq<string>
  {
    ["#!/bin/bash", JobCsub(job, tarballDir)]
  }

  function ResubmitScript(job: Job): seq<string>
  {
    ResubmitScriptLines(NSubjobs(job))
  }

  /** Every file of a dataset is one subjob: the worker script's array
      splits back into the dataset's files, the script runs the dataset's
      command, and the number the csub and resubmit scripts carry reads
      back as the number of files. */
  lemma JobSubjobs(a: CrunArgs, entry: (RP.Key, seq<string>), submissionDir: string)
    requires entry.1 != [] && forall f | f in entry.1 :: ' ' !in f
    ensures var job := JobFor(entry, submissionDir);
      var lines := RunScript(a, job);
      lines[12] == "INPUT_FILES=(" + Join(job.files, ' ') + ")"
      && Split(Join(job.files, ' '), ' ') == entry.1
      && lines[13] == ProcessorCommand(a, DatasetText(entry.0), OutputName(a.outputfile, DatasetText(entry.0)))
      && ResubmitScript(job)[4] == "NTOTAL=" + NatToString(NSubjobs(job))
      && DecimalValue(NatToString(NSubjobs(job))) == |entry.1|
  {
    var job := JobFor(entry, submissionDir);
    RunScriptInputs(job.files, JobCommand(a, job));
    DecimalRoundTrip(|entry.1|);
  }

  /** The jobs of a fileset, in dataset order. */
  function Jobs(fileset: RP.Fileset, submissionDir: string): (jobs: seq<Job>)
    ensures |jobs| == |fileset|
    ensures forall i | 0 <= i < |fileset| :: jobs[i] == JobFor(fileset[i], submissionDir)
  {
    seq(|fileset|, i requires 0 <= i < |fileset| => JobFor(fileset[i], submissionDir))
  }

  /** The commands handed to `os.system`, one per job in order. */
  function Submitted(jobs: seq<Job>, tarballDir: string): (cmds: seq<string>)
    ensures |cmds| == |jobs|
  {
    if jobs == [] then [] else Submitted(jobs[..|jobs| - 1], tarballDir) + [JobCsub(jobs[|jobs| - 1], tarballDir)]
  }

  lemma {:induction false} SubmittedEntry(jobs: seq<Job>, tarballDir: string, i: nat)
    requires i < |jobs|
    ensures Submitted(jobs, tarballDir)[i] == JobCsub(jobs[i], tarballDir)
  {
    var n := |jobs| - 1;
    if i < n {
      SubmittedEntry(jobs[..n], tarballDir, i);
    }
  }

  /** The two lines the global resubmit script gets for one job. */
  function ResubmitCall(job: Job): seq<string>
  {
    ["cd " + job.subdir, "source resubmit.sh"]
  }

  /** The lines of the global resubmit script for the jobs written so far. */
  function ResubmitAllLines(jobs: seq<Job>): (lines: seq<string>)
    ensures |lines| == 2 * |jobs|
  {
    if jobs == [] then [] else ResubmitAllLines(jobs[..|jobs| - 1]) + ResubmitCall(jobs[|jobs| - 1])
  }

  lemma ResubmitAllSnoc(jobs: seq<Job>, job: Job)
    ensures Unlines(ResubmitAllLines(jobs + [job]))
      == Unlines(ResubmitAllLines(jobs)) + ("cd " + job.subdir + "\n" + "source resubmit.sh\n")
  {
    assert (jobs + [job])[..|jobs|] == jobs;
    UnlinesAppend(ResubmitAllLines(jobs), ResubmitCall(job));
    var call := ResubmitCall(job);
    assert Unlines(call[1..][1..]) == "";
  }

  /** The global resubmit script has, for each dataset in order, a `cd` into
      its job directory followed by `source resubmit.sh`, and nothing else. */
  lemma {:induction false} ResubmitAllShape(jobs: seq<Job>)
    ensures forall i | 0 <= i < |jobs| ::
      ResubmitAllLines(jobs)[2 * i] == "cd " + jobs[i].subdir
      && ResubmitAllLines(jobs)[2 * i + 1] == "source resubmit.sh"
  {
    if jobs != [] {
      var n := |jobs| - 1;
      ResubmitAllShape(jobs[..n]);
      forall i | 0 <= i < |jobs|
        ensures ResubmitAllLines(jobs)[2 * i] == "cd " + jobs[i].subdir
        ensures ResubmitAllLines(jobs)[2 * i + 1] == "source resubmit.sh"
      {
        if i < n {
          assert jobs[..n][i] == jobs[i];
        }
      }
    }
  }

  lemma {:induction false} ResubmitAllOneLineEach(jobs: seq<Job>)
    requires forall i | 0 <= i < |jobs| :: '\n' !in jobs[i].subdir
    ensures forall l | l in ResubmitAllLines(jobs) :: '\n' !in l
  {
    if jobs != [] {
      var n := |jobs| - 1;
      ResubmitAllOneLineEach(jobs[..n]);
      var subdir := jobs[n].subdir;
      assert '\n' !in "cd " + subdir by {
        assert forall c | c in "cd " + subdir :: c in "cd " || c in subdir;
      }
    }
  }

  /** Reading the global resubmit script back gives exactly its lines. */
  lemma ResubmitAllText(jobs: seq<Job>)
    requires forall i | 0 <= i < |jobs| :: '\n' !in jobs[i].subdir
    ensures Split(Unlines(ResubmitAllLines(jobs)), '\n') == ResubmitAllLines(jobs) + [""]
  {
    ResubmitAllOneLineEach(jobs);
    SplitUnlines(ResubmitAllLines(jobs));
  }

  /** Lines 74-143: one job per dataset, in fileset order; each job's csub
      command is submitted and its two lines go to the global resubmit
      script. */
  method Submit(fileset: RP.Fileset, login: string, submissionDir: string)
    returns (jobs: seq<Job>, submitted: seq<string>, resubmitAll: string)
    requires login != ""
    ensures jobs == Jobs(fileset, submissionDir)
    ensures submitted == Submitted(jobs, TarballDir(login))
    ensures resubmitAll == Unlines(ResubmitAllLines(jobs))
  {
    var tarballDir := TarballDir(login);
    jobs, submitted, resubmitAll := [], [], "";
    for i := 0 to |fileset|
      invariant jobs == Jobs(fileset[..i], submissionDir)
      invariant submitted == Submitted(jobs, tarballDir)
      invariant resubmitAll == Unlines(ResubmitAllLines(jobs))
    {
      var job := JobFor(fileset[i], submissionDir);
      ResubmitAllSnoc(jobs, job);
      resubmitAll := resubmitAll + ("cd " + job.subdir + "\n" + "source resubmit.sh\n");
      assert (jobs + [job])[..i] == jobs;
      submitted := submitted + [JobCsub(job, tarballDir)];
      jobs := jobs + [job];
      assert jobs == Jobs(fileset[..i + 1], submissionDir);
    }
    assert fileset[..|fileset|] == fileset;
  }
}
