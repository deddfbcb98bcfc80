/**
 The bounded buffer of a site's traffic counters, and why a rate computed from it is the
 rate over the whole history since the counters last started over.
 */
module TrafficWindow {
  import opened Basics

  /** A site's cumulative counters at one evaluation. */
  datatype Counters = Counters(at: Time, requests: int, errors: int, latMs: real, hist: seq<int>)

  /** The largest window of any rule, the age a reading may reach, and the number of readings kept. */
  const MAX_WINDOW: Time := 30 * MINUTE
  const KEEP: Time := MAX_WINDOW + MINUTE
  const MAX_ENTRIES := 512

  predicate Restarted(last: Counters, c: Counters) {
    c.requests < last.requests || c.errors < last.errors
  }

  /** The readings since the counters last started over, newest last. */
  function SinceReset(samples: seq<Counters>): (h: seq<Counters>)
    ensures samples != [] ==> h != [] && h[|h| - 1] == samples[|samples| - 1]
    ensures samples == [] ==> h == []
  {
    if samples == [] then []
    else Accept(SinceReset(samples[..|samples| - 1]), samples[|samples| - 1])
  }

  function Accept(h: seq<Counters>, c: Counters): (r: seq<Counters>)
    ensures r != [] && r[|r| - 1] == c
  {
    if h != [] && Restarted(h[|h| - 1], c) then [c] else h + [c]
  }

  /** An entry that is too old, or one too many. */
  predicate Surplus(all: seq<Counters>, i: nat)
    requires i < |all|
  {
    all[|all| - 1].at - all[i].at > KEEP || |all| - i > MAX_ENTRIES
  }

  /** How many entries to drop in front, from the `i`-th on; the newest always stays. */
  function Drop(all: seq<Counters>, i: nat): (d: nat)
    requires i < |all|
    ensures i <= d < |all| && (forall j :: i <= j < d ==> Surplus(all, j)) && (d < |all| - 1 ==> !Surplus(all, d))
    decreases |all| - i
  {
    if i < |all| - 1 && Surplus(all, i) then Drop(all, i + 1) else i
  }

  function Add(buf: seq<Counters>, c: Counters): seq<Counters> {
    var all := Accept(buf, c);
    all[Drop(all, 0)..]
  }

  function Buffer(samples: seq<Counters>): seq<Counters> {
    if samples == [] then [] else Add(Buffer(samples[..|samples| - 1]), samples[|samples| - 1])
  }

  /** The newest reading at least `d` older than the last, at or below index `i`; the oldest if none is. */
  function Base(buf: seq<Counters>, d: Time, i: int): (b: nat)
    requires -1 <= i < |buf| && buf != []
    ensures b < |buf| && (b <= i || b == 0)
    decreases i + 1
  {
    if i < 0 then 0 else if buf[|buf| - 1].at - buf[i].at >= d then i else Base(buf, d, i - 1)
  }

  function Minus(last: Counters, base: Counters): Counters {
    Counters(base.at, last.requests - base.requests, last.errors - base.errors, last.latMs - base.latMs,
             if |last.hist| == |base.hist|
             then seq(|last.hist|, i requires 0 <= i < |last.hist| && |last.hist| == |base.hist| =>
                        last.hist[i] - base.hist[i])
             else [])
  }

  /** The newest reading less the base for `d`. */
  function Delta(buf: seq<Counters>, d: Time): Option<Counters> {
    if |buf| < 2 then None else Some(Minus(buf[|buf| - 1], buf[Base(buf, d, |buf| - 2)]))
  }

  // ---- what the buffer keeps

  ghost predicate InOrder(h: seq<Counters>) {
    forall i, j :: 0 <= i <= j < |h| ==> h[i].at <= h[j].at
  }

  /** The buffer is the history without its first `k` readings, which are exactly the surplus ones. */
  ghost predicate Keeps(buf: seq<Counters>, h: seq<Counters>, k: nat) {
    && k <= |h| && buf == h[k..] && (h != [] ==> k < |h|)
    && (forall j :: 0 <= j < |h| ==> (j < k <==> Surplus(h, j)))
  }

  lemma SurplusOfSuffix(h: seq<Counters>, k: nat, i: nat)
    requires k + i < |h|
    ensures Surplus(h[k..], i) == Surplus(h, k + i)
  {
    assert h[k..][|h| - k - 1] == h[|h| - 1] && h[k..][i] == h[k + i];
  }

  /** Surplus readings stay surplus as more come in. */
  lemma SurplusStays(h: seq<Counters>, c: Counters, j: nat)
    requires j < |h| && InOrder(h + [c]) && Surplus(h, j)
    ensures Surplus(h + [c], j)
  {
    var all := h + [c];
    assert all[|h| - 1].at <= all[|h|].at && all[j] == h[j] && all[|h| - 1] == h[|h| - 1];
  }

  /** In order, what is surplus comes before what is not. */
  lemma SurplusFirst(h: seq<Counters>, i: nat, j: nat)
    requires i <= j < |h| && InOrder(h) && Surplus(h, j)
    ensures Surplus(h, i)
  {
    assert h[i].at <= h[j].at;
  }

  lemma DropKeeps(all: seq<Counters>, h: seq<Counters>, k: nat)
    requires k < |h| && all == h[k..] && InOrder(h) && forall j :: 0 <= j < k ==> Surplus(h, j)
    ensures Keeps(all[Drop(all, 0)..], h, k + Drop(all, 0))
  {
    hide Surplus;
    var d := Drop(all, 0);
    forall j | 0 <= j < |h| ensures j < k + d <==> Surplus(h, j) {
      if k <= j {
        SurplusOfSuffix(h, k, j - k);
      }
      SurplusOfSuffix(h, k, d);
      NewestIsNotSurplus(h);
      if j >= k + d && Surplus(h, j) {
        SurplusFirst(h, k + d, j);
      }
    }
  }

  lemma NewestIsNotSurplus(h: seq<Counters>)
    requires h != []
    ensures !Surplus(h, |h| - 1)
  {
  }

  lemma AddKeeps(buf: seq<Counters>, h: seq<Counters>, k: nat, c: Counters) returns (k': nat)
    requires Keeps(buf, h, k) && InOrder(Accept(h, c))
    ensures Keeps(Add(buf, c), Accept(h, c), k')
  {
    hide Surplus, Drop;
    var h' := Accept(h, c);
    var all := Accept(buf, c);
    k' := if h != [] && Restarted(h[|h| - 1], c) then 0 else k;
    assert h != [] ==> buf[|buf| - 1] == h[|h| - 1];
    assert all == h'[k'..];
    forall j | 0 <= j < k' ensures Surplus(h', j) {
      SurplusStays(h, c, j);
    }
    DropKeeps(all, h', k');
    k' := k' + Drop(all, 0);
  }

  lemma {:induction false} HistoryInOrder(samples: seq<Counters>)
    requires InOrder(samples)
    ensures InOrder(SinceReset(samples))
  {
    if samples != [] {
      var before := samples[..|samples| - 1];
      HistoryInOrder(before);
      assert before != [] ==> before[|before| - 1] == samples[|before| - 1];
    }
  }

  /** After every sequence of samples the buffer holds exactly the readings that are neither too old nor too many. */
  lemma {:induction false} BufferKeeps(samples: seq<Counters>) returns (k: nat)
    requires InOrder(samples)
    ensures Keeps(Buffer(samples), SinceReset(samples), k)
  {
    k := 0;
    HistoryInOrder(samples);
    if samples != [] {
      hide Keeps, InOrder, Add;
      var before := samples[..|samples| - 1];
      InOrderFront(samples);
      var k0 := BufferKeeps(before);
      k := AddKeeps(Buffer(before), SinceReset(before), k0, samples[|samples| - 1]);
    }
  }

  lemma InOrderFront(h: seq<Counters>)
    requires h != [] && InOrder(h)
    ensures InOrder(h[..|h| - 1])
  {
  }

  // ---- rates

  lemma {:induction false} BaseOfSuffix(h: seq<Counters>, k: nat, d: Time, i: nat)
    requires k <= i < |h| && h[|h| - 1].at - h[k].at >= d
    ensures Base(h, d, i) == k + Base(h[k..], d, i - k)
  {
    if h[|h| - 1].at - h[i].at < d {
      BaseOfSuffix(h, k, d, i - 1);
    }
  }

  /** The reading found is old enough, and none after it is; or nothing is old enough and it is the first. */
  lemma {:induction false} BaseIs(h: seq<Counters>, d: Time, i: nat)
    requires i < |h|
    ensures var b := Base(h, d, i);
            && (h[|h| - 1].at - h[b].at >= d || b == 0)
            && (forall j :: b < j <= i ==> h[|h| - 1].at - h[j].at < d)
            && (h[|h| - 1].at - h[b].at < d ==> forall j :: 0 <= j <= i ==> h[|h| - 1].at - h[j].at < d)
  {
    if h[|h| - 1].at - h[i].at < d && i > 0 {
      BaseIs(h, d, i - 1);
    }
  }

  /** The reading the whole history since the last reset measures a window of length `d` from. */
  function Wanted(samples: seq<Counters>, d: Time): (b: nat)
    requires |SinceReset(samples)| >= 2
    ensures b < |SinceReset(samples)|
  {
    Base(SinceReset(samples), d, |SinceReset(samples)| - 2)
  }

  /**
   The buffer measures from the very reading the whole history would, if and only if that reading is
   at most 31 minutes old and among the newest 512.
   */
  lemma SameReadingExactly(samples: seq<Counters>, d: Time)
    requires InOrder(samples) && |SinceReset(samples)| >= 2
    ensures var h, buf, b := SinceReset(samples), Buffer(samples), Wanted(samples, d);
            (|buf| >= 2 && |h| - |buf| + Base(buf, d, |buf| - 2) == b) <==> !Surplus(h, b)
  {
    hide SinceReset, Buffer, Surplus;
    var h, b := SinceReset(samples), Wanted(samples, d);
    var k := BufferKeeps(samples);
    HistoryInOrder(samples);
    BaseIs(h, d, |h| - 2);
    NewestIsNotSurplus(h);
    if !Surplus(h, b) {
      assert k <= b <= |h| - 2 && h[k].at <= h[b].at;
      if h[|h| - 1].at - h[b].at >= d {
        BaseOfSuffix(h, k, d, |h| - 2);
      } else {
        assert k == 0 && h[0..] == h;
      }
    }
  }

  /** Then the two give the same rate. */
  lemma SameReadingSameDelta(samples: seq<Counters>, d: Time)
    requires InOrder(samples) && |SinceReset(samples)| >= 2 && !Surplus(SinceReset(samples), Wanted(samples, d))
    ensures Delta(Buffer(samples), d) == Delta(SinceReset(samples), d)
  {
    hide SinceReset, Buffer, Surplus, Minus;
    var h, buf := SinceReset(samples), Buffer(samples);
    SameReadingExactly(samples, d);
    var k := BufferKeeps(samples);
    var i := Base(buf, d, |buf| - 2);
    assert buf[i] == h[k + i] && buf[|buf| - 1] == h[|h| - 1];
  }

  /** Readings at most a minute apart, and no 513 of them within the span that is kept. */
  ghost predicate Steady(h: seq<Counters>) {
    && (forall i :: 0 <= i < |h| - 1 ==> h[i + 1].at - h[i].at <= MINUTE)
    && (forall i, j :: 0 <= i && j == i + MAX_ENTRIES < |h| ==> h[j].at - h[i].at > KEEP)
  }

  /**
   With steady readings a rate over any allowed window, from the pruned buffer, is the rate over the whole history.
   */
  lemma PruningLosesNothing(samples: seq<Counters>, d: Time)
    requires InOrder(samples) && Steady(SinceReset(samples)) && d <= MAX_WINDOW
    ensures Delta(Buffer(samples), d) == Delta(SinceReset(samples), d)
  {
    hide SinceReset, Buffer;
    var h := SinceReset(samples);
    HistoryInOrder(samples);
    if |h| < 2 {
      var k := BufferKeeps(samples);
    } else {
      SteadyBase(h, d);
      SameReadingSameDelta(samples, d);
    }
  }

  lemma SteadyBase(h: seq<Counters>, d: Time)
    requires InOrder(h) && Steady(h) && |h| >= 2 && d <= MAX_WINDOW
    ensures !Surplus(h, Base(h, d, |h| - 2))
  {
    var b, last := Base(h, d, |h| - 2), h[|h| - 1];
    var j := b + MAX_ENTRIES;
    assert j < |h| ==> last.at - h[b].at >= h[j].at - h[b].at > KEEP;
    BaseIs(h, d, |h| - 2);
    assert h[b + 1].at - h[b].at <= MINUTE;
  }

  /** With readings further apart the newest one old enough may be gone: the buffer then answers for a shorter time. */
  lemma SparseReadingsDiffer(a: Counters, b: Counters, c: Counters)
    requires a.at == 0 && b.at == 15 * MINUTE && c.at == 40 * MINUTE
    requires a.requests <= b.requests <= c.requests && a.errors <= b.errors <= c.errors
    ensures Delta(Buffer([a, b, c]), MAX_WINDOW) == Some(Minus(c, b))
    ensures Delta(SinceReset([a, b, c]), MAX_WINDOW) == Some(Minus(c, a))
  {
    hide Minus;
    var s := [a, b, c];
    assert s[..2] == [a, b] && [a, b][..1] == [a] && [a][..0] == [];
    assert SinceReset([a]) == [a] && SinceReset([a, b]) == [a, b] && SinceReset(s) == s;
    assert Drop([a], 0) == 0 && Buffer([a]) == [a];
    assert Drop([a, b], 0) == 0 && Buffer([a, b]) == [a, b];
    assert Surplus(s, 0) && !Surplus(s, 1) && Drop(s, 0) == Drop(s, 1) == 1;
    assert Buffer(s) == [b, c];
    assert Base(s, MAX_WINDOW, 1) == Base(s, MAX_WINDOW, 0) == 0;
  }

  // ---- deltas are never negative

  ghost predicate Rising(h: seq<Counters>) {
    forall i, j :: 0 <= i <= j < |h| ==> h[i].requests <= h[j].requests && h[i].errors <= h[j].errors
  }

  lemma AcceptRises(buf: seq<Counters>, c: Counters)
    requires Rising(buf)
    ensures Rising(Accept(buf, c))
  {
  }

  lemma SuffixRises(h: seq<Counters>, k: nat)
    requires Rising(h) && k <= |h|
    ensures Rising(h[k..])
  {
  }

  lemma {:induction false} BufferRises(samples: seq<Counters>)
    ensures Rising(Buffer(samples))
  {
    if samples != [] {
      hide Rising, Accept, Drop;
      var c := samples[|samples| - 1];
      BufferRises(samples[..|samples| - 1]);
      var buf := Buffer(samples[..|samples| - 1]);
      AcceptRises(buf, c);
      var all := Accept(buf, c);
      SuffixRises(all, Drop(all, 0));
    }
  }

  /** Whatever was sampled, and whenever, the requests and errors of a window are never negative. */
  lemma DeltaNotNegative(samples: seq<Counters>, d: Time)
    ensures Delta(Buffer(samples), d).Some? ==>
              Delta(Buffer(samples), d).value.requests >= 0 && Delta(Buffer(samples), d).value.errors >= 0
  {
    BufferRises(samples);
  }

  // ---- the buffer

  method HistMinus(last: seq<int>, base: seq<int>) returns (hist: seq<int>)
    requires |last| == |base|
    ensures |hist| == |last| && forall i :: 0 <= i < |hist| ==> hist[i] == last[i] - base[i]
  {
    hist := [];
    for j := 0 to |last|
      invariant |hist| == j && forall x :: 0 <= x < j ==> hist[x] == last[x] - base[x]
    {
      hist := hist + [last[j] - base[j]];
    }
  }

  class Window {
    var buf: seq<Counters>

    constructor ()
      ensures buf == []
    {
      buf := [];
    }

    method AddReading(c: Counters)
      modifies this
      ensures buf == Add(old(buf), c)
    {
      if |buf| > 0 && Restarted(buf[|buf| - 1], c) {
        buf := [];
      }
      buf := buf + [c];
      var drop := 0;
      while drop < |buf| - 1 && (c.at - buf[drop].at > KEEP || |buf| - drop > MAX_ENTRIES)
        invariant 0 <= drop < |buf| && Drop(buf, 0) == Drop(buf, drop)
      {
        drop := drop + 1;
      }
      if drop > 0 {
        buf := buf[drop..];
      }
    }

    /** Looks for the reading to measure from, newest first. */
    method FindBase(d: Time) returns (base: Counters)
      requires |buf| >= 2
      ensures base == buf[Base(buf, d, |buf| - 2)]
    {
      var n := |buf|;
      var i := n - 2;
      while i >= 0
        invariant -1 <= i <= n - 2 && Base(buf, d, n - 2) == Base(buf, d, i)
      {
        if buf[n - 1].at - buf[i].at >= d {
          return buf[i];
        }
        i := i - 1;
      }
      return buf[0];
    }

    method DeltaOver(d: Time) returns (r: Option<Counters>)
      ensures r == Delta(buf, d)
    {
      hide Base;
      var n := |buf|;
      if n < 2 {
        return None;
      }
      var last := buf[n - 1];
      var base := FindBase(d);
      var hist := [];
      if |last.hist| == |base.hist| {
        hist := HistMinus(last.hist, base.hist);
      }
      assert hist == Minus(last, base).hist;
      return Some(Counters(base.at, last.requests - base.requests, last.errors - base.errors,
                           last.latMs - base.latMs, hist));
    }
  }
}
