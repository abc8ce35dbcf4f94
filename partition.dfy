/**
  * The static work split of the barrier engine (ForkJoinRWAutomata): the
  * cell list is cut into `threadsNumber` contiguous slices of `share` cells,
  * share = size / threadsNumber, and the last slice also takes the remainder.
  */
module Partition {
  import opened JavaBase

  /** The half-open index range [lo, hi) handed to one updater. */
  datatype Slice = Slice(lo: nat, hi: nat)

  /** The slices cut [0, n) into consecutive pieces, in order, each starting where the previous one ends. */
  predicate Partitions(slices: seq<Slice>, n: nat) {
    |slices| > 0 && slices[0].lo == 0 && slices[|slices| - 1].hi == n &&
    (forall i :: 0 <= i < |slices| ==> slices[i].lo <= slices[i].hi) &&
    (forall i :: 0 < i < |slices| ==> slices[i].lo == slices[i - 1].hi)
  }

  /** Where slice i starts when every slice before it holds `share` cells. */
  function SliceStart(share: nat, i: nat): nat {
    i * share
  }

  /** The slice table for n cells and t >= 1 threads: t - 1 slices of n / t cells, then the rest. */
  function SliceTable(n: nat, t: nat): (r: seq<Slice>)
    requires t >= 1
    ensures |r| == t
    ensures r[0].lo == 0 && r[t - 1].hi == n
  {
    var share := n / t;
    seq(t, i requires 0 <= i < t =>
      if i < t - 1 then Slice(SliceStart(share, i), SliceStart(share, i + 1))
      else Slice(SliceStart(share, t - 1), n))
  }

  /**
    * The slice computation of the constructor. The barrier is created with
    * threadsNumber + 1 parties in int arithmetic, so a negative count, and
    * the largest int (whose successor wraps to the smallest), are refused
    * there; a zero count divides by zero when the share is computed.
    */
  method ComputeSlices(n: nat, threadsNumber: int) returns (r: Result<seq<Slice>>)
    requires IsInt(threadsNumber)
    ensures threadsNumber < 0 || threadsNumber == INT_MAX ==> r == Failure(IllegalArgument)
    ensures threadsNumber == 0 ==> r == Failure(DivisionByZero)
    ensures 1 <= threadsNumber < INT_MAX ==> r == Success(SliceTable(n, threadsNumber))
  {
    var parties := AddInt(threadsNumber, 1);
    if parties <= 0 {
      return Failure(IllegalArgument);
    }
    if threadsNumber == 0 {
      return Failure(DivisionByZero);
    }
    var share := JavaDiv(n, threadsNumber);
    ghost var table := SliceTable(n, threadsNumber);
    var slices: seq<Slice> := [];
    var i := 0;
    while i < threadsNumber - 1
      invariant 0 <= i <= threadsNumber - 1
      invariant slices == table[..i]
    {
      slices := slices + [Slice(SliceStart(share, i), SliceStart(share, i + 1))];
      i := i + 1;
    }
    assert table == table[..i] + [table[i]];
    slices := slices + [Slice(SliceStart(share, threadsNumber - 1), n)];
    return Success(slices);
  }

  /**
    * The table is a partition of [0, n) into exactly t slices; every slice but
    * the last holds n / t cells and the last holds n / t + n % t.
    */
  lemma SliceTablePartitions(n: nat, t: nat)
    requires t >= 1
    ensures Partitions(SliceTable(n, t), n)
    ensures forall i :: 0 <= i < t - 1 ==> SliceTable(n, t)[i].hi - SliceTable(n, t)[i].lo == n / t
    ensures SliceTable(n, t)[t - 1].hi - SliceTable(n, t)[t - 1].lo == n / t + n % t
  {
    var s := SliceTable(n, t);
    var share := n / t;
    ShareTotal(n, t);
    forall i | 0 <= i < t
      ensures s[i].lo <= s[i].hi
      ensures i < t - 1 ==> s[i].hi - s[i].lo == share
      ensures 0 < i ==> s[i].lo == s[i - 1].hi
    {
      ShareSteps(share, i);
      if 0 < i {
        ShareSteps(share, i - 1);
      }
    }
  }

  /** Consecutive slice starts are ordered and one share apart. */
  lemma ShareSteps(share: nat, i: nat)
    ensures SliceStart(share, i) <= SliceStart(share, i + 1) == SliceStart(share, i) + share
  {
  }

  /** The t - 1 full shares and the last slice together make up exactly n cells. */
  lemma ShareTotal(n: nat, t: nat)
    requires t >= 1
    ensures SliceStart(n / t, t - 1) + n / t + n % t == n
    ensures SliceStart(n / t, t - 1) <= n
  {
    var share := n / t;
    assert n == t * share + n % t;
    assert (t - 1) * share + share == t * share;
  }

  /** With more threads than cells the share is zero and every slice but the last is empty. */
  lemma MoreThreadsThanCells(n: nat, t: nat)
    requires t > n
    ensures forall i :: 0 <= i < t - 1 ==> SliceTable(n, t)[i].lo == SliceTable(n, t)[i].hi == 0
    ensures SliceTable(n, t)[t - 1] == Slice(0, n)
  {
    assert n / t == 0;
  }

  /** Slice bounds never decrease along a partition: slice i ends no later than slice k > i starts. */
  lemma {:induction false} PartitionOrdered(slices: seq<Slice>, n: nat, i: nat, k: nat)
    requires Partitions(slices, n) && i < k < |slices|
    ensures slices[i].hi <= slices[k].lo
    decreases k - i
  {
    if i + 1 < k {
      PartitionOrdered(slices, n, i + 1, k);
    }
  }

  /** Every index below n lies in some slice. */
  lemma {:induction false} PartitionCovers(slices: seq<Slice>, n: nat, j: nat)
    requires Partitions(slices, n) && j < n
    ensures exists i :: 0 <= i < |slices| && slices[i].lo <= j < slices[i].hi
    decreases |slices|
  {
    var last := |slices| - 1;
    if slices[last].lo <= j {
      assert slices[last].lo <= j < slices[last].hi;
    } else {
      var init := slices[..last];
      assert Partitions(init, slices[last].lo);
      PartitionCovers(init, slices[last].lo, j);
      var i :| 0 <= i < |init| && init[i].lo <= j < init[i].hi;
      assert slices[i] == init[i];
    }
  }

  /** No index lies in two slices. */
  lemma PartitionDisjoint(slices: seq<Slice>, n: nat, i: nat, k: nat, j: nat)
    requires Partitions(slices, n) && i < |slices| && k < |slices|
    requires slices[i].lo <= j < slices[i].hi && slices[k].lo <= j < slices[k].hi
    ensures i == k
  {
    if i < k {
      PartitionOrdered(slices, n, i, k);
    } else if k < i {
      PartitionOrdered(slices, n, k, i);
    }
  }
}
