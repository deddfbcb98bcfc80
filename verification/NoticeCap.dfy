/** How many notices one evaluation delivers when everything fires at once. */
module NoticeCap {
  import opened AlertState
  import opened AlertModel

  const MAX_NOTICES := 10

  /** A notice, or the one summary standing for those left out. */
  datatype Delivery = Single(notice: Notice) | Summary(count: nat, critical: bool, stage: Stage)

  /** A lower rank is delivered sooner. */
  function Rank(n: Notice): nat {
    match n.kind
    case Fire => if n.alert.critical then 0 else 1
    case Remind => 2
    case _ => 3
  }

  function OfRank(out: seq<Notice>, r: nat): seq<Notice> {
    if out == [] then []
    else OfRank(out[..|out| - 1], r) + if Rank(out[|out| - 1]) == r then [out[|out| - 1]] else []
  }

  lemma RankLengths(out: seq<Notice>)
    ensures |OfRank(out, 0)| + |OfRank(out, 1)| + |OfRank(out, 2)| + |OfRank(out, 3)| == |out|
  {
  }

  /** The stable sort by rank: each rank in its original order. */
  function ByRank(out: seq<Notice>): (r: seq<Notice>)
    ensures |r| == |out|
  {
    RankLengths(out);
    OfRank(out, 0) + OfRank(out, 1) + OfRank(out, 2) + OfRank(out, 3)
  }

  function Singles(out: seq<Notice>): (r: seq<Delivery>)
    ensures |r| == |out| && forall i :: 0 <= i < |r| ==> r[i] == Single(out[i])
  {
    seq(|out|, i requires 0 <= i < |out| => Single(out[i]))
  }

  function LimitNotices(out: seq<Notice>): seq<Delivery> {
    if |out| <= MAX_NOTICES then Singles(out)
    else
      var sorted := ByRank(out);
      var head := sorted[MAX_NOTICES].alert;
      Singles(sorted[..MAX_NOTICES]) + [Summary(|sorted| - MAX_NOTICES, head.critical, head.stage)]
  }

  lemma {:induction false} OfRankHas(out: seq<Notice>, r: nat)
    ensures forall n :: n in OfRank(out, r) ==> Rank(n) == r
    ensures forall i, j :: 0 <= i < j < |OfRank(out, r)| ==> Rank(OfRank(out, r)[i]) <= Rank(OfRank(out, r)[j])
  {
    if out != [] {
      OfRankHas(out[..|out| - 1], r);
    }
  }

  lemma {:induction false} RankCount(out: seq<Notice>, r: nat, n: Notice)
    ensures multiset(OfRank(out, r))[n] == if Rank(n) == r then multiset(out)[n] else 0
  {
    if out != [] {
      RankCount(out[..|out| - 1], r, n);
      assert out == out[..|out| - 1] + [out[|out| - 1]];
    }
  }

  lemma ByRankCount(out: seq<Notice>, n: Notice)
    ensures multiset(ByRank(out))[n] == multiset(out)[n]
  {
    hide OfRank;
    RankCount(out, 0, n);
    RankCount(out, 1, n);
    RankCount(out, 2, n);
    RankCount(out, 3, n);
  }

  ghost predicate InRankOrder(s: seq<Notice>) {
    forall i, j :: 0 <= i < j < |s| ==> Rank(s[i]) <= Rank(s[j])
  }

  /** Sorting loses nothing, invents nothing and puts lower ranks first. */
  lemma ByRankSorts(out: seq<Notice>)
    ensures multiset(ByRank(out)) == multiset(out) && |ByRank(out)| == |out| && InRankOrder(ByRank(out))
  {
    hide OfRank;
    OfRankHas(out, 0);
    OfRankHas(out, 1);
    OfRankHas(out, 2);
    OfRankHas(out, 3);
    var low, high := OfRank(out, 0) + OfRank(out, 1), OfRank(out, 2) + OfRank(out, 3);
    assert ByRank(out) == low + high;
    forall n ensures multiset(ByRank(out))[n] == multiset(out)[n] {
      ByRankCount(out, n);
    }
    Chain(OfRank(out, 0), OfRank(out, 1), 0);
    Chain(OfRank(out, 2), OfRank(out, 3), 2);
    Chain(low, high, 1);
    assert |ByRank(out)| == |multiset(ByRank(out))| && |out| == |multiset(out)|;
  }

  lemma Chain(a: seq<Notice>, b: seq<Notice>, r: nat)
    requires InRankOrder(a) && InRankOrder(b)
    requires forall n :: n in a ==> Rank(n) <= r
    requires forall n :: n in b ==> Rank(n) > r
    ensures InRankOrder(a + b)
  {
    forall i, j | 0 <= i < j < |a + b| ensures Rank((a + b)[i]) <= Rank((a + b)[j]) {
      if i < |a| <= j {
        assert a[i] in a && b[j - |a|] in b;
      }
    }
  }

  /**
   With more notices than fit, ten are delivered and one summary counts the rest:
   nothing left out matters more than anything delivered, and the summary is as severe as
   the first of those left out, which none of them precedes.
   */
  lemma CapKeepsTheMostImportant(out: seq<Notice>) returns (kept: seq<Notice>, rest: seq<Notice>)
    requires |out| > MAX_NOTICES
    ensures |kept| == MAX_NOTICES && |rest| > 0 && multiset(kept) + multiset(rest) == multiset(out)
    ensures LimitNotices(out) == Singles(kept) + [Summary(|rest|, rest[0].alert.critical, rest[0].alert.stage)]
    ensures forall a, b :: a in kept && b in rest ==> Rank(a) <= Rank(b)
    ensures forall b :: b in rest ==> Rank(rest[0]) <= Rank(b)
  {
    hide ByRank, Rank, InRankOrder, Singles;
    ByRankSorts(out);
    var sorted := ByRank(out);
    kept, rest := sorted[..MAX_NOTICES], sorted[MAX_NOTICES..];
    assert sorted == kept + rest;
    CutByRank(sorted, MAX_NOTICES);
  }

  /** Cut anywhere, a sequence in order has the lower ranks first, and the lowest of the rest at its head. */
  lemma CutByRank(sorted: seq<Notice>, n: nat)
    requires n < |sorted| && InRankOrder(sorted)
    ensures forall a, b :: a in sorted[..n] && b in sorted[n..] ==> Rank(a) <= Rank(b)
    ensures forall b :: b in sorted[n..] ==> Rank(sorted[n..][0]) <= Rank(b)
  {
    hide Rank;
    forall a, b | a in sorted[..n] && b in sorted[n..] ensures Rank(a) <= Rank(b) {
      var i :| 0 <= i < n && sorted[i] == a;
      var j :| n <= j < |sorted| && sorted[j] == b;
    }
    forall b | b in sorted[n..] ensures Rank(sorted[n]) <= Rank(b) {
      var j :| n <= j < |sorted| && sorted[j] == b;
    }
  }
}
