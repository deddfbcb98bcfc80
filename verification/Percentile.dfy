/** The percentile estimated from a histogram, over the reals. */
module Percentile {
  import opened Basics

  /** How many values lie in the first `n` buckets. */
  function Cum(counts: seq<int>, n: nat): int
    requires n <= |counts|
  {
    if n == 0 then 0 else Cum(counts, n - 1) + counts[n - 1]
  }

  /** Where bucket `i` begins: at the bound below it. */
  function Low(bounds: seq<real>, i: nat): real
    requires bounds != []
  {
    if i == 0 then 0.0 else bounds[Min(i, |bounds|) - 1]
  }

  /** The part of a bucket of width `w` that `x` of its `c` values take up. */
  function Share(w: real, x: real, c: real): real
    requires c > 0.0
  {
    w * x / c
  }

  function Rank(p: real, total: int): real {
    p * total as real
  }

  /** The value at `rank` within bucket `i`, which `cum` values precede. */
  function Within(bounds: seq<real>, counts: seq<int>, i: nat, cum: int, rank: real): real
    requires bounds != [] && i < |counts| && counts[i] > 0
  {
    var lo := Low(bounds, i);
    if i >= |bounds| then lo else lo + Share(bounds[i] - lo, rank - cum as real, counts[i] as real)
  }

  /** Searches from bucket `i` on. */
  function Search(bounds: seq<real>, counts: seq<int>, rank: real, i: nat, cum: int): real
    requires bounds != [] && i <= |counts|
    decreases |counts| - i
  {
    if i == |counts| then bounds[|bounds| - 1]
    else if counts[i] > 0 && (cum + counts[i]) as real >= rank then Within(bounds, counts, i, cum, rank)
    else Search(bounds, counts, rank, i + 1, if counts[i] > 0 then cum + counts[i] else cum)
  }

  function Value(bounds: seq<real>, counts: seq<int>, p: real): Option<real> {
    var total := Cum(counts, |counts|);
    if total == 0 || bounds == [] then None
    else Some(Search(bounds, counts, Rank(p, total), 0, 0))
  }

  method Estimate(bounds: seq<real>, counts: seq<int>, p: real) returns (r: Option<real>)
    ensures r == Value(bounds, counts, p)
  {
    hide Share, Rank;
    var total, j := 0, 0;
    while j < |counts|
      invariant 0 <= j <= |counts| && total == Cum(counts, j)
    {
      total := total + counts[j];
      j := j + 1;
    }
    if total == 0 || |bounds| == 0 {
      return None;
    }
    var rank := Rank(p, total);
    var cum, i := 0, 0;
    while i < |counts|
      invariant 0 <= i <= |counts| && Search(bounds, counts, rank, 0, 0) == Search(bounds, counts, rank, i, cum)
    {
      var c := counts[i];
      if c > 0 {
        if (cum + c) as real >= rank {
          var lo := 0.0;
          if i > 0 {
            lo := bounds[Min(i, |bounds|) - 1];
          }
          if i >= |bounds| {
            return Some(lo);
          }
          return Some(lo + Share(bounds[i] - lo, rank - cum as real, c as real));
        }
        cum := cum + c;
      }
      i := i + 1;
    }
    return Some(bounds[|bounds| - 1]);
  }

  // ---- theorems

  /** Nonnegative counts, one more than the increasing nonnegative bounds, and something counted. */
  ghost predicate Histogram(bounds: seq<real>, counts: seq<int>) {
    && bounds != [] && |counts| == |bounds| + 1
    && (forall i :: 0 <= i < |bounds| ==> bounds[i] >= 0.0)
    && (forall i, j :: 0 <= i <= j < |bounds| ==> bounds[i] <= bounds[j])
    && (forall i :: 0 <= i < |counts| ==> counts[i] >= 0)
    && Cum(counts, |counts|) > 0
  }

  lemma {:induction false} CumGrows(counts: seq<int>, m: nat, n: nat)
    requires m <= n <= |counts| && forall i :: 0 <= i < |counts| ==> counts[i] >= 0
    ensures Cum(counts, m) <= Cum(counts, n)
  {
    if m < n {
      CumGrows(counts, m, n - 1);
    }
  }

  /** Bucket `i` is the one where the cumulative count first reaches the rank. */
  ghost predicate Reaches(counts: seq<int>, rank: real, i: nat) {
    i < |counts| && (Cum(counts, i) as real) < rank <= (Cum(counts, i + 1) as real)
  }

  lemma {:induction false} SearchFinds(bounds: seq<real>, counts: seq<int>, rank: real, i: nat) returns (b: nat)
    requires Histogram(bounds, counts) && i <= |counts|
    requires (Cum(counts, i) as real) < rank <= (Cum(counts, |counts|) as real)
    ensures Reaches(counts, rank, b) && counts[b] > 0
    ensures Search(bounds, counts, rank, i, Cum(counts, i)) == Within(bounds, counts, b, Cum(counts, b), rank)
    decreases |counts| - i
  {
    b := i;
    if !(counts[i] > 0 && (Cum(counts, i) + counts[i]) as real >= rank) {
      b := SearchFinds(bounds, counts, rank, i + 1);
    }
  }

  lemma MulGrows(w: real, x: real, y: real)
    requires w >= 0.0 && x <= y
    ensures w * x <= w * y
  {
  }

  lemma DivGrows(x: real, y: real, c: real)
    requires x <= y && c > 0.0
    ensures x / c <= y / c
  {
  }

  lemma DivOfMul(w: real, c: real)
    requires c > 0.0
    ensures w * c / c == w && w * 0.0 / c == 0.0
  {
  }

  /** A share lies between nothing and the whole width, and grows with what it covers. */
  lemma ShareGrows(w: real, x: real, y: real, c: real)
    requires w >= 0.0 && 0.0 <= x <= y <= c && c > 0.0
    ensures 0.0 <= Share(w, x, c) <= Share(w, y, c) <= w
  {
    MulGrows(w, 0.0, x);
    MulGrows(w, x, y);
    MulGrows(w, y, c);
    DivGrows(w * 0.0, w * x, c);
    DivGrows(w * x, w * y, c);
    DivGrows(w * y, w * c, c);
    DivOfMul(w, c);
  }

  /** Where bucket `i` ends; the last has no end and is reported as its beginning. */
  function High(bounds: seq<real>, i: nat): real
    requires bounds != []
  {
    if i < |bounds| then bounds[i] else Low(bounds, i)
  }

  lemma WithinBucket(bounds: seq<real>, counts: seq<int>, i: nat, rank: real, rank': real)
    requires Histogram(bounds, counts) && Reaches(counts, rank, i) && Reaches(counts, rank', i) && counts[i] > 0
             && rank <= rank'
    ensures Low(bounds, i) <= Within(bounds, counts, i, Cum(counts, i), rank)
         <= Within(bounds, counts, i, Cum(counts, i), rank') <= High(bounds, i)
  {
    hide Share, Cum;
    if i < |bounds| {
      BucketFacts(bounds, counts, i, rank);
      BucketFacts(bounds, counts, i, rank');
      var cum := Cum(counts, i) as real;
      ShareGrows(bounds[i] - Low(bounds, i), rank - cum, rank' - cum, counts[i] as real);
    }
  }

  lemma BucketFacts(bounds: seq<real>, counts: seq<int>, i: nat, rank: real)
    requires Histogram(bounds, counts) && Reaches(counts, rank, i) && i < |bounds|
    ensures bounds[i] - Low(bounds, i) >= 0.0
    ensures 0.0 <= rank - Cum(counts, i) as real <= counts[i] as real
  {
  }

  /** The percentile lies in the bucket where the cumulative count first reaches its rank. */
  lemma PercentileInBucket(bounds: seq<real>, counts: seq<int>, p: real) returns (i: nat)
    requires Histogram(bounds, counts) && 0.0 < p <= 1.0
    ensures Reaches(counts, Rank(p, Cum(counts, |counts|)), i) && counts[i] > 0
    ensures Value(bounds, counts, p) == Some(Within(bounds, counts, i, Cum(counts, i), Rank(p, Cum(counts, |counts|))))
    ensures Low(bounds, i) <= Value(bounds, counts, p).value <= High(bounds, i)
  {
    hide Within, Rank;
    var total := Cum(counts, |counts|);
    RankInRange(p, p, total);
    i := SearchFinds(bounds, counts, Rank(p, total), 0);
    WithinBucket(bounds, counts, i, Rank(p, total), Rank(p, total));
  }

  lemma RankInRange(p: real, q: real, total: int)
    requires 0.0 < p <= q <= 1.0 && total > 0
    ensures 0.0 < Rank(p, total) <= Rank(q, total) <= total as real
  {
  }

  /** A higher percentile is never a smaller value. */
  lemma PercentileMonotone(bounds: seq<real>, counts: seq<int>, p: real, q: real)
    requires Histogram(bounds, counts) && 0.0 < p <= q <= 1.0
    ensures Value(bounds, counts, p).Some? && Value(bounds, counts, q).Some?
    ensures Value(bounds, counts, p).value <= Value(bounds, counts, q).value
  {
    hide Value, Within, Rank;
    var total := Cum(counts, |counts|);
    RankInRange(p, q, total);
    var i := PercentileInBucket(bounds, counts, p);
    var j := PercentileInBucket(bounds, counts, q);
    if i == j {
      WithinBucket(bounds, counts, i, Rank(p, total), Rank(q, total));
    } else {
      ReachedInOrder(counts, Rank(p, total), Rank(q, total), i, j);
      BucketsInOrder(bounds, counts, i, j);
    }
  }

  lemma ReachedInOrder(counts: seq<int>, r: real, s: real, i: nat, j: nat)
    requires forall x :: 0 <= x < |counts| ==> counts[x] >= 0
    requires Reaches(counts, r, i) && Reaches(counts, s, j) && r <= s
    ensures i <= j
  {
    if j < i {
      CumGrows(counts, j + 1, i);
      assert false;
    }
  }

  lemma BucketsInOrder(bounds: seq<real>, counts: seq<int>, i: nat, j: nat)
    requires Histogram(bounds, counts) && i < j < |counts|
    ensures High(bounds, i) <= Low(bounds, j)
  {
  }
}
