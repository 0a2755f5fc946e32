/**
 * Targeted mode splits the candidate variants into nproc contiguous blocks: block = len / nproc,
 * task ii < nproc - 1 takes [block * ii, block * (ii + 1)) and the last task takes everything
 * from block * (nproc - 1) to the end.
 */
module Partition {

  function Min(a: nat, b: nat): nat
  {
    if a <= b then a else b
  }

  /** s[lo:hi] with Python's slicing: bounds past the end are cut back to the end. */
  function PySlice<T>(s: seq<T>, lo: nat, hi: nat): (r: seq<T>)
    ensures lo <= hi <= |s| ==> r == s[lo..hi]
    ensures |r| <= |s|
  {
    var a, b := Min(lo, |s|), Min(hi, |s|);
    if a <= b then s[a..b] else []
  }

  /** LEN_div: the size of every block but the last. */
  function Block(len: nat, nproc: nat): (b: nat)
    requires nproc >= 1
    ensures b * nproc <= len < b * nproc + nproc
  {
    len / nproc
  }

  /** A half-open range [lo, hi) of candidate indices. */
  datatype Range = Range(lo: nat, hi: nat)

  /** The index range of task ii when len candidates are split among nproc tasks. */
  function TaskRange(len: nat, nproc: nat, ii: nat): (r: Range)
    requires 1 <= nproc && ii < nproc
    ensures r.lo <= r.hi <= len
  {
    var b := Block(len, nproc);
    LastBlockStart(len, nproc);
    MulMono(b, ii, nproc - 1);
    if ii < nproc - 1 then
      MulMono(b, ii + 1, nproc - 1);
      Range(b * ii, b * (ii + 1))
    else
      Range(b * ii, len)
  }

  lemma MulMono(b: nat, x: nat, y: nat)
    requires x <= y
    ensures b * x <= b * y
  {
    var d := y - x;
    assert b * y == b * x + b * d;
  }

  /** The last block starts no later than the end. */
  lemma LastBlockStart(len: nat, nproc: nat)
    requires nproc >= 1
    ensures Block(len, nproc) * (nproc - 1) <= len
  {
    var b := len / nproc;
    assert len == b * nproc + len % nproc;
    MulMono(b, nproc - 1, nproc);
  }

  /**
   * The slice of s that task ii receives, for a block size computed elsewhere. The last task's
   * upper bound is the length of s itself, as in pos_list[LEN_div * ii : len(pos_list)].
   */
  function TaskSlice<T>(s: seq<T>, block: nat, nproc: nat, ii: nat): (r: seq<T>)
    requires ii < nproc
    ensures |r| <= |s|
    ensures ii < nproc - 1 && block * (ii + 1) <= |s| ==> r == s[block * ii..block * (ii + 1)]
    ensures ii == nproc - 1 && block * ii <= |s| ==> r == s[block * ii..]
    ensures block * ii >= |s| ==> r == []
  {
    MulMono(block, ii, ii + 1);
    if ii == nproc - 1 then PySlice(s, block * ii, |s|)
    else PySlice(s, block * ii, block * (ii + 1))
  }

  /** The slices of s for tasks 0 .. nproc - 1, in task order. */
  function Slices<T>(s: seq<T>, block: nat, nproc: nat): (r: seq<seq<T>>)
    ensures |r| == nproc
  {
    seq(nproc, ii requires 0 <= ii < nproc => TaskSlice(s, block, nproc, ii))
  }

  /** The concatenation of a sequence of sequences. */
  function Flatten<T>(ss: seq<seq<T>>): seq<T>
  {
    if ss == [] then [] else Flatten(ss[..|ss| - 1]) + ss[|ss| - 1]
  }

  /** The ranges start at 0, each starts where the previous one ends, and the last ends at len. */
  lemma RangesTile(len: nat, nproc: nat)
    requires nproc >= 1
    ensures TaskRange(len, nproc, 0).lo == 0
    ensures forall ii :: 0 <= ii < nproc - 1 ==> TaskRange(len, nproc, ii).hi == TaskRange(len, nproc, ii + 1).lo
    ensures TaskRange(len, nproc, nproc - 1).hi == len
  {
  }

  /** Every candidate index falls in exactly one task's range. */
  lemma RangesDisjointCover(len: nat, nproc: nat, k: nat)
    requires nproc >= 1 && k < len
    ensures exists ii :: 0 <= ii < nproc && TaskRange(len, nproc, ii).lo <= k < TaskRange(len, nproc, ii).hi
    ensures forall i, j :: 0 <= i < nproc && 0 <= j < nproc
              && TaskRange(len, nproc, i).lo <= k < TaskRange(len, nproc, i).hi
              && TaskRange(len, nproc, j).lo <= k < TaskRange(len, nproc, j).hi
              ==> i == j
  {
    var b := Block(len, nproc);
    if b == 0 {
      assert TaskRange(len, nproc, nproc - 1).lo <= k < TaskRange(len, nproc, nproc - 1).hi;
    } else {
      var q := k / b;
      assert k == b * q + k % b;
      assert b * (q + 1) == b * q + b;
      if q < nproc - 1 {
        assert TaskRange(len, nproc, q).lo <= k < TaskRange(len, nproc, q).hi;
      } else {
        MulMono(b, nproc - 1, q);
        assert TaskRange(len, nproc, nproc - 1).lo <= k < TaskRange(len, nproc, nproc - 1).hi;
      }
    }
    forall i, j | 0 <= i < j < nproc
      ensures TaskRange(len, nproc, i).hi <= TaskRange(len, nproc, j).lo
    {
      MulMono(b, i + 1, j);
    }
  }

  /**
   * Tasks 0 .. nproc - 2 hold exactly len / nproc candidates each; the last holds the rest,
   * len / nproc + len % nproc of them.
   */
  lemma BlockSizes(len: nat, nproc: nat)
    requires nproc >= 1
    ensures forall ii :: 0 <= ii < nproc - 1 ==>
              TaskRange(len, nproc, ii).hi - TaskRange(len, nproc, ii).lo == len / nproc
    ensures TaskRange(len, nproc, nproc - 1).hi - TaskRange(len, nproc, nproc - 1).lo
              == len - (len / nproc) * (nproc - 1)
              == len / nproc + len % nproc
  {
    var b := len / nproc;
    forall ii | 0 <= ii < nproc - 1
      ensures TaskRange(len, nproc, ii).hi - TaskRange(len, nproc, ii).lo == b
    {
      assert b * (ii + 1) == b * ii + b;
    }
    assert b * (nproc - 1) == b * nproc - b;
  }

  /** With fewer candidates than tasks, every task but the last is empty and the last holds all. */
  lemma FewerCandidatesThanTasks(len: nat, nproc: nat)
    requires 1 <= nproc && len < nproc
    ensures forall ii :: 0 <= ii < nproc - 1 ==> TaskRange(len, nproc, ii) == Range(0, 0)
    ensures TaskRange(len, nproc, nproc - 1) == Range(0, len)
  {
    assert Block(len, nproc) == 0;
  }

  /** Ten candidates on three tasks: 3, 3 and 4. */
  lemma TenOnThree()
    ensures TaskRange(10, 3, 0) == Range(0, 3)
    ensures TaskRange(10, 3, 1) == Range(3, 6)
    ensures TaskRange(10, 3, 2) == Range(6, 10)
  {
  }

  /** Two candidates on five tasks: four empty tasks, then one with both. */
  lemma TwoOnFive()
    ensures forall ii :: 0 <= ii < 4 ==> TaskRange(2, 5, ii) == Range(0, 0)
    ensures TaskRange(2, 5, 4) == Range(0, 2)
  {
  }

  /** When the block size comes from s's own length, task ii gets exactly s over its range. */
  lemma TaskSliceIsRange<T>(s: seq<T>, nproc: nat, ii: nat)
    requires 1 <= nproc && ii < nproc
    ensures TaskSlice(s, Block(|s|, nproc), nproc, ii)
              == s[TaskRange(|s|, nproc, ii).lo..TaskRange(|s|, nproc, ii).hi]
  {
  }

  lemma PySliceAppend<T>(s: seq<T>, x: nat, y: nat)
    requires x <= y
    ensures PySlice(s, 0, x) + PySlice(s, x, y) == PySlice(s, 0, y)
  {
    var a, b := Min(x, |s|), Min(y, |s|);
    assert s[..b] == s[..a] + s[a..b];
  }

  /** The first k slices (k < nproc) together are s[0 : block * k]. */
  lemma {:induction false} FlattenPrefix<T>(s: seq<T>, block: nat, nproc: nat, k: nat)
    requires k < nproc
    ensures Flatten(Slices(s, block, nproc)[..k]) == PySlice(s, 0, block * k)
  {
    var ss := Slices(s, block, nproc);
    if k > 0 {
      var lo, hi := block * (k - 1), block * k;
      FlattenPrefix(s, block, nproc, k - 1);
      assert Flatten(ss[..k]) == Flatten(ss[..k - 1]) + ss[k - 1] by {
        assert ss[..k][..k - 1] == ss[..k - 1];
      }
      assert ss[k - 1] == PySlice(s, lo, hi) by {
        assert block * ((k - 1) + 1) == hi;
      }
      MulMono(block, k - 1, k);
      PySliceAppend(s, lo, hi);
    }
  }

  /**
   * Concatenating the slices of all tasks in task order gives back s, whatever the block size:
   * no element is lost, none is repeated and the order is kept.
   */
  lemma SlicesRejoin<T>(s: seq<T>, block: nat, nproc: nat)
    requires nproc >= 1
    ensures Flatten(Slices(s, block, nproc)) == s
  {
    var ss := Slices(s, block, nproc);
    FlattenPrefix(s, block, nproc, nproc - 1);
    assert ss[..nproc] == ss;
    PySliceAppend(s, block * (nproc - 1), |s| + block * (nproc - 1));
    assert PySlice(s, block * (nproc - 1), |s|) == PySlice(s, block * (nproc - 1), |s| + block * (nproc - 1));
  }
}
