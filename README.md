# cellSNP: command line checks, work splitting and temporary file layout

cellSNP pileups the reads of a BAM/SAM file per cell barcode, either over whole chromosomes
or at a list of candidate variants from a VCF file, and writes the allelic counts to a VCF.
Its `main()` decides everything before any read is touched. It does these things:

- It checks the inputs in a fixed order and stops with exit status 1 at the first check that fails.
- It reduces each line of the barcode file to a barcode and sorts the barcodes.
- It turns the tag options `--cellTAG` and `--UMItag` into tag names, or into none for any
  spelling of "none".
- It expands `--chrom` into a list of chromosomes. The default is "1" to "22".
- It splits the work into units.
  - Without a region file, there is one unit per chromosome.
  - With a region file, there are `nproc` units, each a contiguous slice of the candidate
    variants. The last unit also takes the remainder.
- It gives each unit the temporary output path `out_file + ".temp_" + key + "_"`.
- It gathers the workers' results in dispatch order.
- It hands the temporary paths, in dispatch order, to the merger.

The Dafny modules follow the program's structure:

- `Wrappers`: the `Option` and `Result` types.
- `Text`: Python's `str.rstrip()`, `str.split(sep)`, `sep.join` and `str.upper()`.
- `Decimal`: `str(n)` and `"%d" % n` for natural numbers, with their inverse.
- `Ordering`: Python's string order and `sorted` for lists of strings.
- `PosixPath`: `os.path.dirname`.
- `Options`: the barcode, tag, chromosome and region-file options.
- `Partition`: the slice arithmetic of the targeted mode.
- `Dispatch`: the two dispatch loops, which build the temporary paths and the per-unit
  arguments, and the collection of results.
- `CellSnp`: the checks in order and the whole plan that `main()` hands to the workers and to
  `merge_vcf`.

The file system is a parameter, `CellSnp.FileSystem`. It holds the paths `os.path.isfile` and
`os.path.isdir` accept and the lines that `readlines()` returns. On a real file system `""` is
never in `dirs`, because `os.path.isdir("")` is always false. `CellSnp.BareOutFileRejectedAsWritten`
states this as its requirement, and on a `FileSystem` with `""` in `dirs` the as-written program
would accept a bare output name. `parse_vcf_file` is a function
parameter of `CellSnp.PlanJob`.

Two behaviours of the code are worth stating because a reader might expect otherwise:

- The barcode list is sorted but not deduplicated. A barcode that occurs on two lines is kept
  twice (`Options.BarcodesKeepDuplicates`).
- Nothing rejects a chromosome named twice in `--chrom`. Two units then share one temporary
  path (`Dispatch.WholeGenomePathsMatchNames`).

## Model

| member | source | states |
|---|---|---|
| Text.RStrip | cellSNP/cellSNP.py:77 | the result is a prefix of the line, does not end in white space, and only white space was removed |
| Text.Split | cellSNP/cellSNP.py:77 | at least one piece, no piece contains the separator, and the first piece is the text before the first separator (or all of it) |
| Text.JoinSplit | cellSNP/cellSNP.py:125 | joining the pieces of `split(",")` with commas gives the option back |
| Text.SplitJoin | cellSNP/cellSNP.py:125 | a non-empty list of comma-free names is recovered exactly by splitting its comma join |
| Text.Upper | cellSNP/cellSNP.py:114-118 | `str.upper()` character by character, same length; ASCII letters only (see `Text.Upper` under Left out) |
| Decimal.NatToDecimal | cellSNP/cellSNP.py:123 | `str(n)` is a non-empty run of digits without a leading zero |
| Decimal.DecimalRoundTrip | cellSNP/cellSNP.py:164 | reading the numeral of `n` back gives `n` |
| Decimal.DecimalInjective | cellSNP/cellSNP.py:164 | two numbers have the same numeral exactly when they are equal |
| Ordering.Le | cellSNP/cellSNP.py:79 | Python's `str <=` by code points; a prefix comes no later than the strings it begins |
| Ordering.Insert | cellSNP/cellSNP.py:79 | inserting into a sorted list keeps it sorted and adds exactly the one element |
| Ordering.Sort | cellSNP/cellSNP.py:79 | `sorted` returns an ascending list with the same elements, multiplicities included |
| Ordering.SortedUnique | cellSNP/cellSNP.py:79 | two ascending arrangements of the same elements are equal, so `sorted` has only one possible result |
| Ordering.LeTotal | cellSNP/cellSNP.py:79 | any two strings are comparable |
| Ordering.LeTransitive | cellSNP/cellSNP.py:79 | the string order is transitive |
| Ordering.LeAntisymmetric | cellSNP/cellSNP.py:79 | two strings that are each at most the other are equal |
| Options.NormaliseBarcode | cellSNP/cellSNP.py:77 | `x.rstrip().split("-")[0]` is the prefix of the stripped line up to its first '-', and holds no '-' |
| Options.NormaliseAll | cellSNP/cellSNP.py:77 | one entry per line; entry `i` is `NormaliseBarcode(lines[i])`, by its comprehension body |
| Options.NormaliseTypicalLine | cellSNP/cellSNP.py:77 | a line `barcode-suffix\n` reduces to the barcode |
| Options.Barcodes | cellSNP/cellSNP.py:76-79 | one barcode per line; the list is ascending and holds each normalised line as often as it occurs; no barcode contains '-' |
| Options.BarcodesUnique | cellSNP/cellSNP.py:79 | the barcode list is the only ascending arrangement of the normalised lines |
| Options.BarcodesKeepDuplicates | cellSNP/cellSNP.py:77-79 | two lines with the same barcode both stay in the list, in ascending order |
| Options.BarcodesExample | cellSNP/cellSNP.py:77-79 | the lines `AAA-1`, `BBB-2`, `AAA-1` give the list `AAA`, `AAA`, `BBB` |
| Options.UpperIsNone | cellSNP/cellSNP.py:114 | `upper() == "NONE"` holds exactly for the sixteen case variants of "none" |
| Options.TagOption | cellSNP/cellSNP.py:114-121 | the tag is disabled if and only if the option spells "none" in any case; otherwise it is the option unchanged |
| Options.DefaultChroms | cellSNP/cellSNP.py:123 | `[str(x) for x in range(1, 23)]` has 22 entries (their values are stated by the next two rows) |
| Options.DefaultChromsReadBack | cellSNP/cellSNP.py:123 | every default name is a numeral, and entry `i` reads back as `i + 1` |
| Options.DefaultChromsAreAutosomes | cellSNP/cellSNP.py:122-123 | without `--chrom` the list is exactly "1", "2", ..., "22" |
| Options.DefaultChromsDistinct | cellSNP/cellSNP.py:123 | no name occurs twice in the default list |
| Options.ChromAll | cellSNP/cellSNP.py:122-125 | absent option: the default list; given option: non-empty comma-free pieces whose comma join is the option |
| Options.ChromAllUnique | cellSNP/cellSNP.py:125 | the pieces are the only comma-free list that joins to the option |
| Options.RegionAbsent | cellSNP/cellSNP.py:100-101 | the region file counts as absent exactly when it is not given or given as the string "None" |
| Partition.Block | cellSNP/cellSNP.py:161 | `LEN_div` is the floor of `len / nproc`: `LEN_div * nproc <= len < LEN_div * nproc + nproc` |
| Partition.TaskSlice | cellSNP/cellSNP.py:167-172 | a task's slice is never longer than the column; with in-range bounds it is `s[block*ii : block*(ii+1)]`, for the last task `s[block*ii:]`; past the end it is empty |
| Partition.PySlice | cellSNP/cellSNP.py:168-172 | a Python slice with in-range bounds is the Dafny subsequence, and a slice is never longer than the list |
| Partition.TaskRange | cellSNP/cellSNP.py:161-172 | every task's index range lies within the candidate list |
| Partition.RangesTile | cellSNP/cellSNP.py:161-172 | the first range starts at 0, each range ends where the next begins, and the last ends at `len` |
| Partition.RangesDisjointCover | cellSNP/cellSNP.py:161-172 | every candidate index falls in one task's range, and the ranges of two tasks never overlap |
| Partition.BlockSizes | cellSNP/cellSNP.py:161-172 | every task but the last gets `len // nproc` candidates; the last gets the rest, `len // nproc + len % nproc` |
| Partition.FewerCandidatesThanTasks | cellSNP/cellSNP.py:161-172 | with fewer candidates than tasks, all tasks but the last are empty and the last takes everything |
| Partition.TenOnThree | cellSNP/cellSNP.py:161-172 | ten candidates on three tasks are split 0-3, 3-6 and 6-10 |
| Partition.TwoOnFive | cellSNP/cellSNP.py:161-172 | two candidates on five tasks all go to the last task |
| Partition.TaskSliceIsRange | cellSNP/cellSNP.py:167-172 | the slice a task receives is exactly the candidates of its index range |
| Partition.FlattenPrefix | cellSNP/cellSNP.py:163-172 | the slices of the first `k` tasks, concatenated, are the first `block * k` candidates |
| Partition.SlicesRejoin | cellSNP/cellSNP.py:163-172 | concatenating the slices of all tasks gives back the whole column, with nothing lost or repeated, for any block size |
| Dispatch.TempPath | cellSNP/cellSNP.py:140 | the path is the output path, then `.temp_`, then the key, then `_` (also the `%d` form at line 164) |
| Dispatch.WholeGenomePaths | cellSNP/cellSNP.py:139-141 | one temporary path per chromosome (`Dispatch.WholeGenomePathsMatchNames` relates them to the names) |
| Dispatch.TargetedPaths | cellSNP/cellSNP.py:163-165 | `nproc` temporary paths (`Dispatch.TargetedPathsDistinct` shows they are distinct) |
| Dispatch.TaskCall | cellSNP/cellSNP.py:167-177 | a task's call carries slices no longer than the columns, the whole REF and ALT columns, and the given path |
| Dispatch.TargetedCalls | cellSNP/cellSNP.py:163-177 | `nproc` calls, call `ii` writing to `out_file + ".temp_ii_"` |
| Dispatch.TargetedCallsAligned | cellSNP/cellSNP.py:167-172 | when the chromosome and position columns are equally long, task `ii` gets both over the same index range, so its chromosomes and positions stay paired |
| Dispatch.TempPathInjective | cellSNP/cellSNP.py:140 | two work units get the same temporary path exactly when their keys are equal |
| Dispatch.WholeGenomePathsMatchNames | cellSNP/cellSNP.py:139-141 | two chromosome units share a temporary path exactly when the chromosome names are equal |
| Dispatch.TargetedPathsDistinct | cellSNP/cellSNP.py:163-165 | the `nproc` task paths are pairwise distinct |
| Dispatch.ChromosomePathsExample | cellSNP/cellSNP.py:149-151 | chromosomes 1, 2, X with `out.vcf` give `out.vcf.temp_1_`, `out.vcf.temp_2_`, `out.vcf.temp_X_` |
| Dispatch.TaskPathsExample | cellSNP/cellSNP.py:163-165 | three tasks with `out.vcf` give `out.vcf.temp_0_` to `out.vcf.temp_2_` |
| Dispatch.WholeGenomeCalls | cellSNP/cellSNP.py:139-154 | one `pileup_regions` call per chromosome in `chrom_all` order, call `i` for chromosome `i` writing to its temporary path |
| Dispatch.DispatchWholeGenome | cellSNP/cellSNP.py:139-154 | the loop appends one path and one pileup call per chromosome, in `chrom_all` order |
| Dispatch.FetchArguments | cellSNP/cellSNP.py:167-172 | the two-branch slicing of the loop body gives the task's arguments, the last task slicing up to `len(pos_list)` |
| Dispatch.TargetedCallsRejoin | cellSNP/cellSNP.py:161-177 | the chromosome and position slices of all tasks concatenate to the whole columns; every task gets the whole REF and ALT columns and its own temporary path |
| Dispatch.DispatchTargeted | cellSNP/cellSNP.py:161-177 | the loop builds the `nproc` paths `.temp_0_` onwards and the `nproc` fetch calls, in task order |
| Dispatch.LookupIsEntry | cellSNP/cellSNP.py:181 | in a log where each task finishes once, the value recorded for a task is the one it finished with |
| Dispatch.CompletionOrderIrrelevant | cellSNP/cellSNP.py:174-181 | the order in which workers finish does not change any task's result |
| Dispatch.Collect | cellSNP/cellSNP.py:156-181 | once every task has finished, the results are read in dispatch order, task `i`'s value at position `i` |
| PosixPath.HeadLength | cellSNP/cellSNP.py:94 | the head of a path ends at its last '/', and no '/' comes after it |
| PosixPath.StripSlashes | cellSNP/cellSNP.py:94 | the trailing slashes, and only those, are removed |
| PosixPath.Dirname | cellSNP/cellSNP.py:94 | `os.path.dirname`: the part up to the last '/', with trailing slashes removed; a head made only of slashes is kept whole |
| PosixPath.DirnameOfBareName | cellSNP/cellSNP.py:94 | the directory of a path without '/' is the empty string |
| PosixPath.DirnameIsPrefix | cellSNP/cellSNP.py:94 | the directory is a prefix of the path, and is empty exactly when the path has no '/' |
| CellSnp.CheckInputs | cellSNP/cellSNP.py:68-106 | the inputs are accepted iff all four checks pass; on failure, the failing check is the first in program order that does not pass, and the error names its option; on success, the sorted barcodes, the sam and output paths, and the region file (none when absent or "None") |
| CellSnp.ExitStatusOfChecks | cellSNP/cellSNP.py:68-106 | the four checks of lines 68-106 end `main()` with `sys.exit(1)` exactly when one of them fails, for either way of computing the output directory (the exit status of the whole program is on `CellSnp.PlanJob`) |
| CellSnp.OutDirAsWritten | cellSNP/cellSNP.py:94 | `os.path.dirname(options.out_file)` as written: a prefix of the path, empty exactly when the path has no '/' |
| CellSnp.OutDir | cellSNP/cellSNP.py:94 | corrected directory of the output path: never empty, `.` for a bare file name, `dirname` otherwise |
| CellSnp.Validate | cellSNP/cellSNP.py:91-96 | the corrected checks: for a path containing '/' they agree with the program as written; for a bare name the output check passes exactly when `.` exists |
| CellSnp.BareOutFileRejectedAsWritten | cellSNP/cellSNP.py:94-96 | as written, a bare output file name such as `out.vcf` is rejected once the earlier checks pass |
| CellSnp.BareOutFileAccepted | cellSNP/cellSNP.py:94-96 | with the current directory taken for a bare name, the output check passes when that directory exists |
| CellSnp.OutDirAgreesWithSlash | cellSNP/cellSNP.py:94 | the correction changes nothing for an output path that contains '/' |
| CellSnp.PlanJob | cellSNP/cellSNP.py:68-186 | checks with the given output-directory function: `OutDirAsWritten` gives `main()` as written, `OutDir` the corrected program; the exit status is 1 exactly when one of the four checks fails or, in targeted mode, `nproc` is below 1 (the exception modelled as `BadProcessCount`); every failed check is passed on; otherwise the tags, the barcodes and the paths come from the options as above. Whole genome: one pileup per chromosome, with the merge list the chromosome paths. Targeted: `nproc` fetches whose slices rejoin the VCF columns, each with the whole REF/ALT columns and the task's path; the merge list is the task paths, in order |

## Left out

- Process pools, `apply_async`, callbacks and `show_progress` are not modelled. The order
  workers finish in is a parameter (`Dispatch.Completion` logs), and `Dispatch.CompletionOrderIrrelevant`
  states that it does not matter.
- `pileup_regions`, `fetch_positions`, `merge_vcf` and the `pysam` reading they do are not part of
  this model. Each call is recorded as the arguments it receives (`PileupCall`, `FetchCall`,
  `Plan.mergeInputs`).
- `parse_vcf_file` is a function parameter of `CellSnp.PlanJob`. Its parsing is not modelled.
- The option parser, the help text and the exit when no argument is given (lines 63-66) are not
  modelled. `CellSnp.Config` stands for the parsed options.
- Printing, the timing report and the progress messages are left out. They are output only.
- `--minMAF`, `--minLEN`, `--minMAPQ`, `--maxFLAG` and `--minCOUNT` only pass through to the
  workers. The model does not carry them.
- Text.Upper: only ASCII letters are upper-cased. Python's full Unicode case mapping is not
  modelled. `Options.UpperIsNone` and `Options.TagOption` are stated for this restricted
  `upper()`.
- Partition.Block: the source computes `int(len / nproc)` in floating point. The model uses exact
  floor division. The two differ only for lists longer than 2^53 entries.
- CellSnp.PlanJob: an `nproc` below 1 in targeted mode raises a Python exception (division by
  zero, or a pool of no processes). It is modelled as the failure `BadProcessCount`.
- CellSnp.PlanJob: in whole-genome mode with `nproc <= 1`, `result` stays the empty list. This is
  because the sequential loop never appends to it. The model records the calls but does not
  model the unused `result` list.
- Dispatch.Collect: a worker exception is not modelled. `res.get()` at lines 156 and 181 re-raises
  the first failed task's exception, in dispatch order, so `merge_vcf` (line 186) is never reached
  and the process ends non-zero. In the sequential whole-genome loop (line 152) the exception
  leaves the loop at once. `Collect` assumes every task returned a value.
- The removal of the temporary files after merging belongs to `merge_vcf`. It is not part of
  this model.

## Findings

| source | as written | input that shows it | evidently intended | confidence | as-written member | corrected member |
|---|---|---|---|---|---|---|
| cellSNP/cellSNP.py:94-96 | the output check is `os.path.isdir(os.path.dirname(out_file))`; for a bare file name the directory is `""`, which `isdir` never accepts | `-o out.vcf` run from any existing directory | a bare file name is written into the current directory, so its directory should be taken as `.` | not executed | CellSnp.BareOutFileRejectedAsWritten | CellSnp.BareOutFileAccepted |

`CellSnp.Validate` and `CellSnp.OutDir` are the corrected check. They take the directory of a bare
output file name to be `.`. `CellSnp.PlanJob` takes the directory function as a parameter.
`PlanJob(cfg, fs, OutDirAsWritten, parseVcf)` is `main()` as written, which rejects `-o out.vcf`.
`PlanJob(cfg, fs, OutDir, parseVcf)` is the corrected program. It runs exactly the checks of
`Validate(cfg, fs)`, which is `CheckInputs(cfg, fs, OutDir)`.
