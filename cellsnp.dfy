/**
 * The body of cellSNP's main(): the input checks in the order the program makes them, the
 * normalisation of the options, and the construction of the work units and of the list of
 * temporary files that the merger receives.
 */
module CellSnp {
  import opened Wrappers
  import opened Options
  import opened PosixPath
  import opened Partition
  import opened Dispatch

  /** The parsed command line; an option left out is None. Thresholds only pass through. */
  datatype Config = Config(
    outFile: Option<string>,
    samFile: Option<string>,
    barcodeFile: Option<string>,
    regionFile: Option<string>,
    nproc: int,
    chrom: Option<string>,
    cellTag: string,
    umiTag: string)

  /**
   * What the program sees of the file system: the paths os.path.isfile and os.path.isdir accept,
   * and the lines readlines() returns for a file.
   */
  datatype FileSystem = FileSystem(files: set<string>, dirs: set<string>, lines: map<string, seq<string>>)

  function FileLines(fs: FileSystem, path: string): seq<string>
  {
    if path in fs.lines then fs.lines[path] else []
  }

  /** Every way main() stops early; each one ends the process with exit status 1. */
  datatype Failure =
    | NoSuchBarcodeFile(barcodePath: string)
    | NeedSamFile
    | NoSuchSamFile(samPath: string)
    | NeedOutFile
    | NoSuchOutDir(outPath: string)
    | NoSuchRegionFile(regionPath: string)
    | BadProcessCount(nproc: int)

  function ExitStatus<T>(r: Result<T, Failure>): (status: int)
    ensures status == 0 <==> r.Ok?
    ensures status == 0 || status == 1
  {
    if r.Ok? then 0 else 1
  }

  /**
   * main() ends with sys.exit(1) exactly when one of the four checks fails, whichever way the
   * directory of the output path is computed.
   */
  lemma ExitStatusOfChecks(cfg: Config, fs: FileSystem, dirOf: string -> string)
    ensures ExitStatus(CheckInputs(cfg, fs, dirOf)) == 1
            <==> exists k :: 0 <= k < 4 && !Passes(cfg, fs, dirOf, k)
  {
    var r := CheckInputs(cfg, fs, dirOf);
    if r.Err? {
      assert !Passes(cfg, fs, dirOf, Stage(r.error));
    } else {
      forall k | 0 <= k < 4 ensures Passes(cfg, fs, dirOf, k) {
        assert k == 0 || k == 1 || k == 2 || k == 3;
      }
    }
  }

  /** The checks in program order: 0 barcode file, 1 sam file, 2 output directory, 3 region file. */
  function Stage(e: Failure): nat
  {
    match e
    case NoSuchBarcodeFile(_) => 0
    case NeedSamFile => 1
    case NoSuchSamFile(_) => 1
    case NeedOutFile => 2
    case NoSuchOutDir(_) => 2
    case NoSuchRegionFile(_) => 3
    case BadProcessCount(_) => 4
  }

  /** Whether check k accepts the configuration; dirOf gives the directory of the output path. */
  predicate Passes(cfg: Config, fs: FileSystem, dirOf: string -> string, k: nat)
  {
    if k == 0 then cfg.barcodeFile.None? || cfg.barcodeFile.value in fs.files
    else if k == 1 then cfg.samFile.Some? && cfg.samFile.value in fs.files
    else if k == 2 then cfg.outFile.Some? && dirOf(cfg.outFile.value) in fs.dirs
    else RegionAbsent(cfg.regionFile) || cfg.regionFile.value in fs.files
  }

  /** The error names the option whose check failed. */
  predicate NamesOption(cfg: Config, e: Failure)
  {
    match e
    case NoSuchBarcodeFile(p) => cfg.barcodeFile == Some(p)
    case NeedSamFile => cfg.samFile.None?
    case NoSuchSamFile(p) => cfg.samFile == Some(p)
    case NeedOutFile => cfg.outFile.None?
    case NoSuchOutDir(p) => cfg.outFile == Some(p)
    case NoSuchRegionFile(p) => cfg.regionFile == Some(p)
    case BadProcessCount(n) => cfg.nproc == n
  }

  /** The validated inputs: the barcode list if a barcode file was given, the paths, the region file. */
  datatype Inputs = Inputs(barcodes: Option<seq<string>>, samFile: string, outFile: string,
                           regionFile: Option<string>)

  /**
   * The checks of main() in order; the first that fails decides the error. dirOf is the way the
   * directory of the output path is computed.
   */
  function CheckInputs(cfg: Config, fs: FileSystem, dirOf: string -> string): (r: Result<Inputs, Failure>)
    ensures r.Ok? <==> Passes(cfg, fs, dirOf, 0) && Passes(cfg, fs, dirOf, 1)
                       && Passes(cfg, fs, dirOf, 2) && Passes(cfg, fs, dirOf, 3)
    ensures r.Err? ==> Stage(r.error) < 4 && !Passes(cfg, fs, dirOf, Stage(r.error))
    ensures r.Err? ==> forall k :: 0 <= k < Stage(r.error) ==> Passes(cfg, fs, dirOf, k)
    ensures r.Err? ==> NamesOption(cfg, r.error)
    ensures r.Ok? ==> cfg.samFile == Some(r.value.samFile) && cfg.outFile == Some(r.value.outFile)
    ensures r.Ok? ==>
              (r.value.barcodes
               == if cfg.barcodeFile.None? then None else Some(Barcodes(FileLines(fs, cfg.barcodeFile.value))))
    ensures r.Ok? ==> r.value.regionFile == (if RegionAbsent(cfg.regionFile) then None else cfg.regionFile)
  {
    if cfg.barcodeFile.Some? && cfg.barcodeFile.value !in fs.files then
      Err(NoSuchBarcodeFile(cfg.barcodeFile.value))
    else if cfg.samFile.None? then Err(NeedSamFile)
    else if cfg.samFile.value !in fs.files then Err(NoSuchSamFile(cfg.samFile.value))
    else if cfg.outFile.None? then Err(NeedOutFile)
    else if dirOf(cfg.outFile.value) !in fs.dirs then Err(NoSuchOutDir(cfg.outFile.value))
    else if !RegionAbsent(cfg.regionFile) && cfg.regionFile.value !in fs.files then
      Err(NoSuchRegionFile(cfg.regionFile.value))
    else
      var barcodes := if cfg.barcodeFile.None? then None else Some(Barcodes(FileLines(fs, cfg.barcodeFile.value)));
      Ok(Inputs(barcodes, cfg.samFile.value, cfg.outFile.value,
                if RegionAbsent(cfg.regionFile) then None else cfg.regionFile))
  }

  /** The directory the output check looks at, as the program computes it. */
  function OutDirAsWritten(outFile: string): (d: string)
    ensures d <= outFile
    ensures d == "" <==> '/' !in outFile
  {
    DirnameIsPrefix(outFile);
    Dirname(outFile)
  }

  /** The directory an output path lives in: the current directory for a bare file name. */
  function OutDir(outFile: string): (d: string)
    ensures d != ""
    ensures '/' in outFile ==> d == Dirname(outFile)
    ensures '/' !in outFile ==> d == "."
  {
    DirnameIsPrefix(outFile);
    var d := Dirname(outFile);
    if d == "" then "." else d
  }

  /** The input checks with the output directory of a bare file name taken as the current one. */
  function Validate(cfg: Config, fs: FileSystem): (r: Result<Inputs, Failure>)
    ensures cfg.outFile.Some? && '/' in cfg.outFile.value ==> r == CheckInputs(cfg, fs, OutDirAsWritten)
    ensures cfg.outFile.Some? && '/' !in cfg.outFile.value ==> (Passes(cfg, fs, OutDir, 2) <==> "." in fs.dirs)
  {
    CheckInputs(cfg, fs, OutDir)
  }

  /**
   * As written, a bare output file name is rejected whenever the earlier checks pass: its
   * directory is the empty string, which os.path.isdir never accepts.
   */
  lemma BareOutFileRejectedAsWritten(cfg: Config, fs: FileSystem)
    requires Passes(cfg, fs, OutDirAsWritten, 0) && Passes(cfg, fs, OutDirAsWritten, 1)
    requires cfg.outFile.Some? && '/' !in cfg.outFile.value
    requires "" !in fs.dirs
    ensures CheckInputs(cfg, fs, OutDirAsWritten) == Err(NoSuchOutDir(cfg.outFile.value))
  {
    DirnameOfBareName(cfg.outFile.value);
  }

  /** With the correction a bare output file name passes when the current directory exists. */
  lemma BareOutFileAccepted(cfg: Config, fs: FileSystem)
    requires cfg.outFile.Some? && '/' !in cfg.outFile.value
    requires "." in fs.dirs
    ensures Passes(cfg, fs, OutDir, 2)
  {
    DirnameOfBareName(cfg.outFile.value);
  }

  /** The correction changes nothing for an output path that names a directory. */
  lemma OutDirAgreesWithSlash(outFile: string)
    requires '/' in outFile
    ensures OutDir(outFile) == OutDirAsWritten(outFile)
  {
    DirnameIsPrefix(outFile);
  }

  /** How the work is split: one unit per chromosome, or nproc slices of the candidate variants. */
  datatype Mode =
    | WholeGenome(pileups: seq<PileupCall>)
    | Targeted(fetches: seq<FetchCall>)

  /**
   * Everything main() has fixed once the work units are dispatched: the shared arguments of
   * every unit, the units themselves, and the temporary paths handed to merge_vcf in that order.
   */
  datatype Plan = Plan(
    barcodes: Option<seq<string>>,
    samFile: string,
    cellTag: Option<string>,
    umiTag: Option<string>,
    mode: Mode,
    outFile: string,
    mergeInputs: seq<string>)

  /**
   * main() from the checks to the call of merge_vcf. dirOf is the directory the output check
   * looks at: OutDirAsWritten gives main() as written, OutDir the corrected program. parseVcf
   * stands for parse_vcf_file. In targeted mode an nproc below 1 fails (a division by zero, or
   * a pool of no workers).
   */
  method PlanJob(cfg: Config, fs: FileSystem, dirOf: string -> string, parseVcf: string -> VcfColumns)
    returns (r: Result<Plan, Failure>)
    ensures CheckInputs(cfg, fs, dirOf).Err? ==> r == Err(CheckInputs(cfg, fs, dirOf).error)
    ensures ExitStatus(r) == 1
            <==> (exists k :: 0 <= k < 4 && !Passes(cfg, fs, dirOf, k))
                 || (!RegionAbsent(cfg.regionFile) && cfg.nproc < 1)
    ensures r.Ok? <==> CheckInputs(cfg, fs, dirOf).Ok? && (RegionAbsent(cfg.regionFile) || cfg.nproc >= 1)
    ensures r.Err? && CheckInputs(cfg, fs, dirOf).Ok? ==> r == Err(BadProcessCount(cfg.nproc))
    ensures r.Ok? ==> r.value.cellTag == TagOption(cfg.cellTag) && r.value.umiTag == TagOption(cfg.umiTag)
    ensures r.Ok? ==> r.value.barcodes == CheckInputs(cfg, fs, dirOf).value.barcodes
                      && r.value.samFile == cfg.samFile.value && r.value.outFile == cfg.outFile.value
    ensures r.Ok? && RegionAbsent(cfg.regionFile) ==>
              && r.value.mergeInputs == WholeGenomePaths(cfg.outFile.value, ChromAll(cfg.chrom))
              && r.value.mode == WholeGenome(WholeGenomeCalls(cfg.outFile.value, ChromAll(cfg.chrom)))
    ensures r.Ok? && !RegionAbsent(cfg.regionFile) ==>
              && r.value.mergeInputs == TargetedPaths(cfg.outFile.value, cfg.nproc)
              && r.value.mode == Targeted(TargetedCalls(cfg.outFile.value, parseVcf(cfg.regionFile.value), cfg.nproc))
              && Flatten(ChromsOf(r.value.mode.fetches)) == parseVcf(cfg.regionFile.value).chrom
              && Flatten(PositionsOf(r.value.mode.fetches)) == parseVcf(cfg.regionFile.value).pos
              && forall ii :: 0 <= ii < cfg.nproc ==>
                   && r.value.mode.fetches[ii].refs == parseVcf(cfg.regionFile.value).ref
                   && r.value.mode.fetches[ii].alts == parseVcf(cfg.regionFile.value).alt
                   && r.value.mode.fetches[ii].outPath == r.value.mergeInputs[ii]
  {
    ExitStatusOfChecks(cfg, fs, dirOf);
    var checked := CheckInputs(cfg, fs, dirOf);
    if checked.Err? {
      return Err(checked.error);
    }
    var inputs := checked.value;
    var cellTag := TagOption(cfg.cellTag);
    var umiTag := TagOption(cfg.umiTag);
    var chromAll := ChromAll(cfg.chrom);
    if inputs.regionFile.None? {
      var pileups, outFiles := DispatchWholeGenome(inputs.outFile, chromAll);
      r := Ok(Plan(inputs.barcodes, inputs.samFile, cellTag, umiTag, WholeGenome(pileups),
                   inputs.outFile, outFiles));
    } else if cfg.nproc < 1 {
      r := Err(BadProcessCount(cfg.nproc));
    } else {
      var vcf := parseVcf(inputs.regionFile.value);
      var fetches, outFiles := DispatchTargeted(inputs.outFile, vcf, cfg.nproc);
      TargetedCallsRejoin(inputs.outFile, vcf, cfg.nproc);
      r := Ok(Plan(inputs.barcodes, inputs.samFile, cellTag, umiTag, Targeted(fetches),
                   inputs.outFile, outFiles));
    }
  }
}
