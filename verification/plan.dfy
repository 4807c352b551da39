/**
 * The order of the nested loops of `sync`: every target subdirectory, and inside it every
 * month, as a sequence of (subdirectory, month) pairs.
 */
module Plan {
  import opened Calendar
  import opened Instruments

  datatype Pair = Pair(subdir: string, month: YearMonth)

  /** The inner loop: one pair per month, in the order of the months. */
  function MonthPairs(subdir: string, months: seq<YearMonth>): seq<Pair> {
    if months == [] then []
    else MonthPairs(subdir, months[..|months| - 1]) + [Pair(subdir, months[|months| - 1])]
  }

  /** The outer loop: the inner loop's pairs for each subdirectory in turn. */
  function PlanPairs(dirs: seq<string>, months: seq<YearMonth>): seq<Pair> {
    if dirs == [] then []
    else PlanPairs(dirs[..|dirs| - 1], months) + MonthPairs(dirs[|dirs| - 1], months)
  }

  lemma {:induction false} MonthPairsAt(subdir: string, months: seq<YearMonth>)
    ensures |MonthPairs(subdir, months)| == |months|
    ensures forall m :: 0 <= m < |months| ==> MonthPairs(subdir, months)[m] == Pair(subdir, months[m])
    decreases |months|
  {
    if months != [] {
      MonthPairsAt(subdir, months[..|months| - 1]);
    }
  }

  /** Where block `d` of blocks of `n` entries starts: `d * n`, built by addition. */
  function Offset(d: nat, n: nat): nat {
    if d == 0 then 0 else Offset(d - 1, n) + n
  }

  lemma {:induction false} OffsetIsProduct(d: nat, n: nat)
    ensures Offset(d, n) == d * n
  {
    if d > 0 {
      OffsetIsProduct(d - 1, n);
      assert d * n == (d - 1) * n + n;
    }
  }

  /** A block ends no later than any later block starts. */
  lemma {:induction false} OffsetGrows(d: nat, k: nat, n: nat)
    requires d < k
    ensures Offset(d, n) + n <= Offset(k, n)
    decreases k
  {
    if d < k - 1 {
      OffsetGrows(d, k - 1, n);
    }
  }

  /** The block a position falls in. */
  function Row(i: nat, n: nat): nat
    requires n > 0
    decreases i
  {
    if i < n then 0 else Row(i - n, n) + 1
  }

  /** Every position lies inside the block `Row` names. */
  lemma {:induction false} RowColumn(i: nat, n: nat)
    requires n > 0
    ensures Offset(Row(i, n), n) <= i < Offset(Row(i, n), n) + n
    decreases i
  {
    if i >= n {
      RowColumn(i - n, n);
    }
  }

  lemma {:induction false} PlanPairsLength(dirs: seq<string>, months: seq<YearMonth>)
    ensures |PlanPairs(dirs, months)| == Offset(|dirs|, |months|)
    decreases |dirs|
  {
    if dirs != [] {
      PlanPairsLength(dirs[..|dirs| - 1], months);
      MonthPairsAt(dirs[|dirs| - 1], months);
    }
  }

  /** The pair (dirs[d], months[m]) sits at position Offset(d, |months|) + m. */
  lemma {:induction false} PlanPairAtOffset(dirs: seq<string>, months: seq<YearMonth>, d: nat, m: nat)
    requires d < |dirs| && m < |months|
    ensures Offset(d, |months|) + m < |PlanPairs(dirs, months)|
    ensures PlanPairs(dirs, months)[Offset(d, |months|) + m] == Pair(dirs[d], months[m])
    decreases |dirs|
  {
    var init := dirs[..|dirs| - 1];
    var head := PlanPairs(init, months);
    var tail := MonthPairs(dirs[|dirs| - 1], months);
    assert PlanPairs(dirs, months) == head + tail;
    PlanPairsLength(init, months);
    MonthPairsAt(dirs[|dirs| - 1], months);
    var k := Offset(d, |months|) + m;
    if d < |init| {
      PlanPairAtOffset(init, months, d, m);
      OffsetGrows(d, |init|, |months|);
      assert k < |head|;
      assert head[k] == Pair(init[d], months[m]);
      assert init[d] == dirs[d];
      assert PlanPairs(dirs, months)[k] == head[k];
    } else {
      assert d == |dirs| - 1;
      assert Offset(d, |months|) == |head|;
      assert tail[m] == Pair(dirs[d], months[m]);
      assert PlanPairs(dirs, months)[k] == tail[m];
    }
  }

  /** The pair (dirs[d], months[m]) sits at position d * |months| + m. */
  lemma PlanPairAt(dirs: seq<string>, months: seq<YearMonth>, d: nat, m: nat)
    requires d < |dirs| && m < |months|
    ensures d * |months| + m < |PlanPairs(dirs, months)|
    ensures PlanPairs(dirs, months)[d * |months| + m] == Pair(dirs[d], months[m])
  {
    PlanPairAtOffset(dirs, months, d, m);
    OffsetIsProduct(d, |months|);
  }

  /** Position `i` holds the pair of block Row(i) at the place it has inside that block. */
  lemma PlanPairIndex(dirs: seq<string>, months: seq<YearMonth>, i: nat)
    requires i < |PlanPairs(dirs, months)|
    ensures |months| > 0 && Row(i, |months|) < |dirs|
    ensures Offset(Row(i, |months|), |months|) <= i < Offset(Row(i, |months|), |months|) + |months|
    ensures PlanPairs(dirs, months)[i] ==
      Pair(dirs[Row(i, |months|)], months[i - Offset(Row(i, |months|), |months|)])
  {
    var n := |months|;
    PlanPairsLength(dirs, months);
    if n == 0 {
      assert false;
    } else {
      RowColumn(i, n);
      var d := Row(i, n);
      PlanPairAtOffset(dirs, months, d, i - Offset(d, n));
    }
  }

  /**
   * The nested loops visit |dirs| * |months| pairs; pair Offset(d, |months|) + m, that is
   * d * |months| + m, is subdirectory d with month m, so the order is subdirectory-major
   * and then that of the months.
   */
  lemma PlanPairsOrder(dirs: seq<string>, months: seq<YearMonth>)
    ensures |PlanPairs(dirs, months)| == |dirs| * |months|
    ensures forall d, m :: 0 <= d < |dirs| && 0 <= m < |months| ==>
      Offset(d, |months|) + m < |PlanPairs(dirs, months)| &&
      PlanPairs(dirs, months)[Offset(d, |months|) + m] == Pair(dirs[d], months[m])
    ensures forall d :: 0 <= d < |dirs| ==> Offset(d, |months|) == d * |months|
  {
    PlanPairsLength(dirs, months);
    OffsetIsProduct(|dirs|, |months|);
    forall d, m | 0 <= d < |dirs| && 0 <= m < |months|
      ensures Offset(d, |months|) + m < |PlanPairs(dirs, months)|
      ensures PlanPairs(dirs, months)[Offset(d, |months|) + m] == Pair(dirs[d], months[m])
    {
      PlanPairAtOffset(dirs, months, d, m);
    }
    OffsetsAreProducts(|dirs|, |months|);
  }

  /** Every block start below `k` blocks of `n` is a product. */
  lemma OffsetsAreProducts(k: nat, n: nat)
    ensures forall d :: 0 <= d < k ==> Offset(d, n) == d * n
  {
    forall d | 0 <= d < k
      ensures Offset(d, n) == d * n
    {
      OffsetIsProduct(d, n);
    }
  }

  /** Every pair is made of a listed subdirectory and a listed month. */
  lemma PlanPairsFrom(dirs: seq<string>, months: seq<YearMonth>)
    ensures forall i :: 0 <= i < |PlanPairs(dirs, months)| ==>
      PlanPairs(dirs, months)[i].subdir in dirs && PlanPairs(dirs, months)[i].month in months
  {
    forall i | 0 <= i < |PlanPairs(dirs, months)|
      ensures PlanPairs(dirs, months)[i].subdir in dirs && PlanPairs(dirs, months)[i].month in months
    {
      PlanPairIndex(dirs, months, i);
    }
  }

  /** With no subdirectory and no month repeated, no pair occurs twice. */
  lemma PlanPairsOnce(dirs: seq<string>, months: seq<YearMonth>)
    requires Distinct(dirs)
    requires forall i, j :: 0 <= i < j < |months| ==> months[i] != months[j]
    ensures forall i, j :: 0 <= i < j < |PlanPairs(dirs, months)| ==>
      PlanPairs(dirs, months)[i] != PlanPairs(dirs, months)[j]
  {
    var plan := PlanPairs(dirs, months);
    forall i, j | 0 <= i < j < |plan|
      ensures plan[i] != plan[j]
    {
      var n := |months|;
      PlanPairIndex(dirs, months, i);
      PlanPairIndex(dirs, months, j);
      var di, dj := Row(i, n), Row(j, n);
      var mi, mj := i - Offset(di, n), j - Offset(dj, n);
      if di != dj {
        assert dirs[di] != dirs[dj] by { assert Distinct(dirs); }
      } else if mi != mj {
        assert months[mi] != months[mj];
      }
    }
  }
}
