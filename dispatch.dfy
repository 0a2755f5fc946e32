/**
 * The dispatch loops of cellSNP: each work unit gets its own temporary output path
 * out_file + ".temp_" + key + "_", the paths are collected in dispatch order into the list later
 * handed to the merger, and the results of the workers are gathered in that same order.
 */
module Dispatch {
  import opened Wrappers
  import opened Decimal
  import opened Partition

  /** The temporary output path of the work unit with the given key. */
  function TempPath(outFile: string, key: string): (p: string)
    ensures |p| == |outFile| + |key| + 7
    ensures p[..|outFile|] == outFile && p[|outFile|..|outFile| + 6] == ".temp_"
    ensures p[|outFile| + 6..|p| - 1] == key && p[|p| - 1] == '_'
  {
    outFile + ".temp_" + key + "_"
  }

  /** Two work units of one run share a temporary path exactly when they share a key. */
  lemma TempPathInjective(outFile: string, k1: string, k2: string)
    ensures TempPath(outFile, k1) == TempPath(outFile, k2) <==> k1 == k2
  {
    var p := outFile + ".temp_";
    if TempPath(outFile, k1) == TempPath(outFile, k2) {
      var s := TempPath(outFile, k1);
      assert s == p + k1 + "_" == p + k2 + "_";
      assert s[|p|..|s| - 1] == k1;
      assert s[|p|..|s| - 1] == k2;
    }
  }

  /** Whole genome mode: one path per chromosome, in chrom_all order. */
  function WholeGenomePaths(outFile: string, chromAll: seq<string>): (paths: seq<string>)
    ensures |paths| == |chromAll|
  {
    seq(|chromAll|, i requires 0 <= i < |chromAll| => TempPath(outFile, chromAll[i]))
  }

  /** Targeted mode: one path per task index 0 .. nproc - 1, in increasing order. */
  function TargetedPaths(outFile: string, nproc: nat): (paths: seq<string>)
    ensures |paths| == nproc
  {
    seq(nproc, ii requires 0 <= ii < nproc => TempPath(outFile, NatToDecimal(ii)))
  }

  /** Two chromosome paths are equal exactly when the chromosome names are. */
  lemma WholeGenomePathsMatchNames(outFile: string, chromAll: seq<string>)
    ensures forall i, j :: 0 <= i < |chromAll| && 0 <= j < |chromAll| ==>
              (WholeGenomePaths(outFile, chromAll)[i] == WholeGenomePaths(outFile, chromAll)[j]
               <==> chromAll[i] == chromAll[j])
  {
    forall i, j | 0 <= i < |chromAll| && 0 <= j < |chromAll|
      ensures WholeGenomePaths(outFile, chromAll)[i] == WholeGenomePaths(outFile, chromAll)[j]
              <==> chromAll[i] == chromAll[j]
    {
      TempPathInjective(outFile, chromAll[i], chromAll[j]);
    }
  }

  /** The targeted paths are pairwise distinct. */
  lemma TargetedPathsDistinct(outFile: string, nproc: nat)
    ensures forall i, j :: 0 <= i < nproc && 0 <= j < nproc ==>
              (TargetedPaths(outFile, nproc)[i] == TargetedPaths(outFile, nproc)[j] <==> i == j)
  {
    forall i, j | 0 <= i < nproc && 0 <= j < nproc
      ensures TargetedPaths(outFile, nproc)[i] == TargetedPaths(outFile, nproc)[j] <==> i == j
    {
      TempPathInjective(outFile, NatToDecimal(i), NatToDecimal(j));
      DecimalInjective(i, j);
    }
  }

  /** Three chromosomes give three paths, in the given order. */
  lemma ChromosomePathsExample()
    ensures WholeGenomePaths("out.vcf", ["1", "2", "X"])
            == ["out.vcf.temp_1_", "out.vcf.temp_2_", "out.vcf.temp_X_"]
  {
    var paths := WholeGenomePaths("out.vcf", ["1", "2", "X"]);
    assert paths[0] == "out.vcf.temp_1_" && paths[1] == "out.vcf.temp_2_" && paths[2] == "out.vcf.temp_X_";
  }

  /** Three tasks give the paths numbered 0, 1 and 2. */
  lemma TaskPathsExample()
    ensures TargetedPaths("out.vcf", 3) == ["out.vcf.temp_0_", "out.vcf.temp_1_", "out.vcf.temp_2_"]
  {
    var paths := TargetedPaths("out.vcf", 3);
    assert NatToDecimal(0) == "0" && NatToDecimal(1) == "1" && NatToDecimal(2) == "2";
    assert paths[0] == "out.vcf.temp_0_" && paths[1] == "out.vcf.temp_1_" && paths[2] == "out.vcf.temp_2_";
  }

  /** The per chromosome arguments of one pileup_regions call. */
  datatype PileupCall = PileupCall(chrom: string, outPath: string)

  /** The candidate variants as parse_vcf_file returns them: four columns. */
  datatype VcfColumns = VcfColumns(chrom: seq<string>, pos: seq<int>, ref: seq<string>, alt: seq<string>)

  /**
   * The per task arguments of one fetch_positions call: its slices of the chromosome and
   * position columns, the whole REF and ALT columns, and its temporary path.
   */
  datatype FetchCall = FetchCall(chroms: seq<string>, positions: seq<int>, refs: seq<string>,
                                 alts: seq<string>, outPath: string)

  function ChromsOf(calls: seq<FetchCall>): (r: seq<seq<string>>)
    ensures |r| == |calls|
  {
    seq(|calls|, i requires 0 <= i < |calls| => calls[i].chroms)
  }

  function PositionsOf(calls: seq<FetchCall>): (r: seq<seq<int>>)
    ensures |r| == |calls|
  {
    seq(|calls|, i requires 0 <= i < |calls| => calls[i].positions)
  }

  /** The calls of the whole genome loop: chromosome i with path i, in chrom_all order. */
  function WholeGenomeCalls(outFile: string, chromAll: seq<string>): (calls: seq<PileupCall>)
    ensures |calls| == |chromAll|
    ensures forall i :: 0 <= i < |calls| ==>
              calls[i].chrom == chromAll[i] && calls[i].outPath == TempPath(outFile, chromAll[i])
  {
    seq(|chromAll|, i requires 0 <= i < |chromAll| =>
      PileupCall(chromAll[i], TempPath(outFile, chromAll[i])))
  }

  /**
   * The whole genome loop (either branch: with a pool or sequentially): one pileup_regions call
   * per chromosome, its path appended to out_files, in chrom_all order.
   */
  method DispatchWholeGenome(outFile: string, chromAll: seq<string>)
    returns (calls: seq<PileupCall>, outFiles: seq<string>)
    ensures outFiles == WholeGenomePaths(outFile, chromAll)
    ensures calls == WholeGenomeCalls(outFile, chromAll)
  {
    calls, outFiles := [], [];
    for i := 0 to |chromAll|
      invariant outFiles == WholeGenomePaths(outFile, chromAll)[..i]
      invariant calls == WholeGenomeCalls(outFile, chromAll)[..i]
    {
      var chrOutFile := outFile + ".temp_" + chromAll[i] + "_";
      PrefixGrows(WholeGenomePaths(outFile, chromAll), i);
      outFiles := outFiles + [chrOutFile];
      PrefixGrows(WholeGenomeCalls(outFile, chromAll), i);
      calls := calls + [PileupCall(chromAll[i], chrOutFile)];
    }
  }

  lemma PrefixGrows<T>(s: seq<T>, i: nat)
    requires i < |s|
    ensures s[..i + 1] == s[..i] + [s[i]]
  {
  }

  /**
   * The call that task ii of nproc should receive: its slices of the chromosome and position
   * columns for block size lenDiv, the whole REF and ALT columns, and its temporary path.
   */
  function TaskCall(vcf: VcfColumns, lenDiv: nat, nproc: nat, ii: nat, outFileTmp: string): (call: FetchCall)
    requires ii < nproc
    ensures |call.chroms| <= |vcf.chrom| && |call.positions| <= |vcf.pos|
    ensures call.refs == vcf.ref && call.alts == vcf.alt && call.outPath == outFileTmp
  {
    FetchCall(TaskSlice(vcf.chrom, lenDiv, nproc, ii), TaskSlice(vcf.pos, lenDiv, nproc, ii),
              vcf.ref, vcf.alt, outFileTmp)
  }

  /** The arguments of task ii of the targeted loop; the last task's slices run to the end of each column. */
  method FetchArguments(vcf: VcfColumns, lenDiv: nat, nproc: nat, ii: nat, outFileTmp: string)
    returns (call: FetchCall)
    requires ii < nproc
    ensures call == TaskCall(vcf, lenDiv, nproc, ii, outFileTmp)
  {
    var pos, chrom;
    if ii == nproc - 1 {
      pos := PySlice(vcf.pos, lenDiv * ii, |vcf.pos|);
      chrom := PySlice(vcf.chrom, lenDiv * ii, |vcf.chrom|);
    } else {
      pos := PySlice(vcf.pos, lenDiv * ii, lenDiv * (ii + 1));
      chrom := PySlice(vcf.chrom, lenDiv * ii, lenDiv * (ii + 1));
    }
    call := FetchCall(chrom, pos, vcf.ref, vcf.alt, outFileTmp);
  }

  /** The calls of the targeted loop, in task order. */
  function TargetedCalls(outFile: string, vcf: VcfColumns, nproc: nat): (calls: seq<FetchCall>)
    requires nproc >= 1
    ensures |calls| == nproc
    ensures forall ii :: 0 <= ii < nproc ==> calls[ii].outPath == TempPath(outFile, NatToDecimal(ii))
  {
    seq(nproc, ii requires 0 <= ii < nproc =>
      TaskCall(vcf, Block(|vcf.chrom|, nproc), nproc, ii, TargetedPaths(outFile, nproc)[ii]))
  }

  /**
   * The slices the targeted calls carry, concatenated in task order, give the chromosome and
   * position columns back; every call gets the whole REF and ALT columns and its own path.
   */
  lemma TargetedCallsRejoin(outFile: string, vcf: VcfColumns, nproc: nat)
    requires nproc >= 1
    ensures Flatten(ChromsOf(TargetedCalls(outFile, vcf, nproc))) == vcf.chrom
    ensures Flatten(PositionsOf(TargetedCalls(outFile, vcf, nproc))) == vcf.pos
    ensures forall ii :: 0 <= ii < nproc ==>
              && TargetedCalls(outFile, vcf, nproc)[ii].refs == vcf.ref
              && TargetedCalls(outFile, vcf, nproc)[ii].alts == vcf.alt
              && TargetedCalls(outFile, vcf, nproc)[ii].outPath == TargetedPaths(outFile, nproc)[ii]
  {
    var calls := TargetedCalls(outFile, vcf, nproc);
    var block := Block(|vcf.chrom|, nproc);
    assert ChromsOf(calls) == Slices(vcf.chrom, block, nproc);
    assert PositionsOf(calls) == Slices(vcf.pos, block, nproc);
    SlicesRejoin(vcf.chrom, block, nproc);
    SlicesRejoin(vcf.pos, block, nproc);
  }

  /**
   * Both columns are cut at the same bounds: when they are equally long, task ii receives the
   * chromosomes and the positions of the same candidates, those of its index range.
   */
  lemma TargetedCallsAligned(outFile: string, vcf: VcfColumns, nproc: nat)
    requires nproc >= 1 && |vcf.pos| == |vcf.chrom|
    ensures forall ii :: 0 <= ii < nproc ==>
              && TargetedCalls(outFile, vcf, nproc)[ii].chroms
                 == vcf.chrom[TaskRange(|vcf.chrom|, nproc, ii).lo..TaskRange(|vcf.chrom|, nproc, ii).hi]
              && TargetedCalls(outFile, vcf, nproc)[ii].positions
                 == vcf.pos[TaskRange(|vcf.chrom|, nproc, ii).lo..TaskRange(|vcf.chrom|, nproc, ii).hi]
  {
    forall ii | 0 <= ii < nproc
      ensures TargetedCalls(outFile, vcf, nproc)[ii].chroms
              == vcf.chrom[TaskRange(|vcf.chrom|, nproc, ii).lo..TaskRange(|vcf.chrom|, nproc, ii).hi]
      ensures TargetedCalls(outFile, vcf, nproc)[ii].positions
              == vcf.pos[TaskRange(|vcf.chrom|, nproc, ii).lo..TaskRange(|vcf.chrom|, nproc, ii).hi]
    {
      TaskSliceIsRange(vcf.chrom, nproc, ii);
      TaskSliceIsRange(vcf.pos, nproc, ii);
    }
  }

  /**
   * The targeted loop: task ii gets path out_file + ".temp_ii_" and its slices of the chromosome
   * and position columns; REF and ALT go to every task whole.
   */
  method DispatchTargeted(outFile: string, vcf: VcfColumns, nproc: nat)
    returns (calls: seq<FetchCall>, outFiles: seq<string>)
    requires nproc >= 1
    ensures outFiles == TargetedPaths(outFile, nproc)
    ensures calls == TargetedCalls(outFile, vcf, nproc)
  {
    var lenDiv := Block(|vcf.chrom|, nproc);
    calls, outFiles := [], [];
    for ii: nat := 0 to nproc
      invariant outFiles == TargetedPaths(outFile, nproc)[..ii]
      invariant calls == TargetedCalls(outFile, vcf, nproc)[..ii]
    {
      var outFileTmp := outFile + ".temp_" + NatToDecimal(ii) + "_";
      PrefixGrows(TargetedPaths(outFile, nproc), ii);
      outFiles := outFiles + [outFileTmp];
      var call := FetchArguments(vcf, lenDiv, nproc, ii, outFileTmp);
      PrefixGrows(TargetedCalls(outFile, vcf, nproc), ii);
      calls := calls + [call];
    }
  }

  /** A worker finishing: which task it ran and the value it returned. */
  datatype Completion<R> = Completion(task: nat, value: R)

  /** The value task i finished with, if the log records it finishing. */
  function Lookup<R>(log: seq<Completion<R>>, i: nat): Option<R>
  {
    if log == [] then None
    else if log[0].task == i then Some(log[0].value)
    else Lookup(log[1..], i)
  }

  /** Each task finishes at most once. */
  predicate UniqueTasks<R>(log: seq<Completion<R>>)
  {
    forall a, b :: 0 <= a < b < |log| ==> log[a].task != log[b].task
  }

  /** In a log where each task finishes once, the value looked up is the one recorded. */
  lemma {:induction false} LookupIsEntry<R>(log: seq<Completion<R>>, i: nat, v: R)
    requires UniqueTasks(log)
    ensures Lookup(log, i) == Some(v) <==> Completion(i, v) in log
  {
    if log != [] {
      assert UniqueTasks(log[1..]) by {
        forall a, b | 0 <= a < b < |log[1..]| ensures log[1..][a].task != log[1..][b].task {
          assert log[1..][a] == log[a + 1] && log[1..][b] == log[b + 1];
        }
      }
      LookupIsEntry(log[1..], i, v);
      assert log == [log[0]] + log[1..];
      assert forall k :: 0 <= k < |log[1..]| ==> log[1..][k].task != log[0].task by {
        forall k | 0 <= k < |log[1..]| ensures log[1..][k].task != log[0].task {
          assert log[1..][k] == log[k + 1];
        }
      }
    }
  }

  /**
   * The order in which workers finish does not matter: two logs holding the same completions,
   * each task once, give every task the same value.
   */
  lemma CompletionOrderIrrelevant<R>(log1: seq<Completion<R>>, log2: seq<Completion<R>>, i: nat)
    requires UniqueTasks(log1) && UniqueTasks(log2)
    requires multiset(log1) == multiset(log2)
    ensures Lookup(log1, i) == Lookup(log2, i)
  {
    if Lookup(log1, i).Some? {
      var v := Lookup(log1, i).value;
      LookupIsEntry(log1, i, v);
      assert Completion(i, v) in multiset(log2);
      LookupIsEntry(log2, i, v);
    } else if Lookup(log2, i).Some? {
      var v := Lookup(log2, i).value;
      LookupIsEntry(log2, i, v);
      assert Completion(i, v) in multiset(log1);
      LookupIsEntry(log1, i, v);
    }
  }

  /**
   * [res.get() for res in result] after pool.join(): every task 0 .. n - 1 has finished, and
   * the results are read in dispatch order, task i's value at position i.
   */
  method Collect<R>(log: seq<Completion<R>>, n: nat) returns (results: seq<R>)
    requires forall i :: 0 <= i < n ==> Lookup(log, i).Some?
    ensures |results| == n
    ensures forall i :: 0 <= i < n ==> Some(results[i]) == Lookup(log, i)
  {
    results := [];
    for i := 0 to n
      invariant |results| == i
      invariant forall j :: 0 <= j < i ==> Some(results[j]) == Lookup(log, j)
    {
      results := results + [Lookup(log, i).value];
    }
  }
}
