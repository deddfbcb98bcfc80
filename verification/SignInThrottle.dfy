/**
 The limit on failed sign-ins: five failures in fifteen minutes lock a key (an address and a
 user name) until they are old enough. The list of failures is pruned as it is asked about.
 */
module SignInThrottle {
  import opened Basics

  datatype Key = Key(ip: string, user: string)

  const WINDOW: Time := 15 * MINUTE
  const LIMIT := 5

  /** The failures still counted at `now`. */
  function Recent(list: seq<Time>, now: Time): (r: seq<Time>)
    ensures |r| <= |list|
  {
    if list == [] then []
    else
      var t := list[|list| - 1];
      Recent(list[..|list| - 1], now) + if t > now - WINDOW then [t] else []
  }

  type Failures = map<Key, seq<Time>>

  function ListOf(f: Failures, k: Key): seq<Time> {
    if k in f then f[k] else []
  }

  datatype Result = Failed | Succeeded | Neither

  /**
   One use of the throttle: a sign-in with a password or through single sign-on, or the part of the latter
   before the user is known, whose key has "#sso" for the user. When it was asked whether it may go on,
   what came of it if it might, and when.
   */
  datatype Attempt = Attempt(key: Key, asked: Time, result: Result, at: Time)

  predicate Locked(f: Failures, a: Attempt) {
    |Recent(ListOf(f, a.key), a.asked)| >= LIMIT
  }

  function After(f: Failures, a: Attempt): Failures {
    var recent := Recent(ListOf(f, a.key), a.asked);
    if Locked(f, a) then f[a.key := recent]
    else
      match a.result
      case Failed => f[a.key := recent + [a.at]]
      case Succeeded => f - {a.key}
      case Neither => f[a.key := recent]
  }

  function Run(attempts: seq<Attempt>): Failures {
    if attempts == [] then map[] else After(Run(attempts[..|attempts| - 1]), attempts[|attempts| - 1])
  }

  /** Every failure recorded for a key since its last success, none of them pruned. */
  function Full(attempts: seq<Attempt>, k: Key): seq<Time> {
    if attempts == [] then []
    else
      var before, a := Full(attempts[..|attempts| - 1], k), attempts[|attempts| - 1];
      if a.key != k || Locked(Run(attempts[..|attempts| - 1]), a) then before
      else match a.result
        case Failed => before + [a.at]
        case Succeeded => []
        case Neither => before
  }

  /** Attempts come one after another, each asked about before it ends. */
  ghost predicate InSequence(attempts: seq<Attempt>) {
    && (forall i :: 0 <= i < |attempts| ==> attempts[i].asked <= attempts[i].at)
    && (forall i, j :: 0 <= i < j < |attempts| ==> attempts[i].at <= attempts[j].asked)
  }

  // ---- theorems

  lemma RecentAppend(list: seq<Time>, t: Time, now: Time)
    ensures Recent(list + [t], now) == if t > now - WINDOW then Recent(list, now) + [t] else Recent(list, now)
  {
    assert (list + [t])[..|list|] == list;
  }

  lemma {:induction false} RecentTwice(list: seq<Time>, earlier: Time, now: Time)
    requires earlier <= now
    ensures Recent(Recent(list, earlier), now) == Recent(list, now)
  {
    if list != [] {
      hide Recent;
      var front, t := list[..|list| - 1], list[|list| - 1];
      assert list == front + [t];
      RecentTwice(front, earlier, now);
      RecentAppend(front, t, earlier);
      RecentAppend(front, t, now);
      RecentAppend(Recent(front, earlier), t, now);
    }
  }

  /** What an attempt does to its own key's list, seen from any later time. */
  lemma AfterSeenLater(f: Failures, a: Attempt, full: seq<Time>, now: Time)
    requires a.asked <= now && Recent(ListOf(f, a.key), now) == Recent(full, now)
    ensures !Locked(f, a) && a.result == Failed ==>
              Recent(ListOf(After(f, a), a.key), now) == Recent(full + [a.at], now)
    ensures !Locked(f, a) && a.result == Succeeded ==> ListOf(After(f, a), a.key) == []
    ensures Locked(f, a) || a.result == Neither ==> Recent(ListOf(After(f, a), a.key), now) == Recent(full, now)
  {
    hide Recent;
    var list := ListOf(f, a.key);
    RecentTwice(list, a.asked, now);
    RecentAppend(Recent(list, a.asked), a.at, now);
    RecentAppend(full, a.at, now);
  }

  lemma OthersUntouched(f: Failures, a: Attempt, k: Key)
    requires a.key != k
    ensures ListOf(After(f, a), k) == ListOf(f, k)
  {
    hide Recent, Locked;
  }

  /** The pruned list answers the throttle question exactly as the whole history would. */
  lemma {:induction false} PruningLosesNothing(attempts: seq<Attempt>, k: Key, now: Time)
    requires InSequence(attempts) && (attempts != [] ==> attempts[|attempts| - 1].at <= now)
    ensures Recent(ListOf(Run(attempts), k), now) == Recent(Full(attempts, k), now)
  {
    if attempts != [] {
      hide Recent, Locked, After, ListOf;
      var before, a := attempts[..|attempts| - 1], attempts[|attempts| - 1];
      assert before != [] ==> before[|before| - 1] == attempts[|before| - 1];
      PruningLosesNothing(before, k, now);
      if a.key == k {
        AfterSeenLater(Run(before), a, Full(before, k), now);
      } else {
        OthersUntouched(Run(before), a, k);
      }
    }
  }

  /** Failures are in order, and none is later than the attempts so far. */
  lemma {:induction false} FullInOrder(attempts: seq<Attempt>, k: Key)
    requires InSequence(attempts)
    ensures forall i, j :: 0 <= i <= j < |Full(attempts, k)| ==> Full(attempts, k)[i] <= Full(attempts, k)[j]
    ensures attempts != [] ==> forall i :: 0 <= i < |Full(attempts, k)| ==>
              Full(attempts, k)[i] <= attempts[|attempts| - 1].at
    ensures attempts == [] ==> Full(attempts, k) == []
  {
    hide Locked;
    if attempts != [] {
      var before := attempts[..|attempts| - 1];
      assert before != [] ==> before[|before| - 1] == attempts[|before| - 1];
      FullInOrder(before, k);
    }
  }

  /** In an ordered list everything from a recent element on is recent. */
  lemma {:induction false} RecentCount(list: seq<Time>, now: Time, n: nat)
    requires forall i, j :: 0 <= i <= j < |list| ==> list[i] <= list[j]
    requires n <= |list| && (n < |list| ==> list[n] > now - WINDOW)
    ensures |Recent(list, now)| >= |list| - n
  {
    if n < |list| {
      var front := list[..|list| - 1];
      assert n < |front| ==> front[n] == list[n];
      RecentCount(front, now, n);
      assert list[|list| - 1] >= list[n];
    }
  }

  /** The failure an attempt records comes at least the window after the one `LIMIT` places before it. */
  lemma NewFailureIsLate(before: seq<Attempt>, a: Attempt)
    requires InSequence(before + [a]) && !Locked(Run(before), a) && |Full(before, a.key)| >= LIMIT
    ensures var list := Full(before, a.key);
            a.at - list[|list| - LIMIT] >= WINDOW
  {
    hide Recent, Run, Full;
    var all := before + [a];
    assert forall i :: 0 <= i < |before| ==> all[i] == before[i];
    assert all[|before|] == a;
    var list := Full(before, a.key);
    var n := |list| - LIMIT;
    PruningLosesNothing(before, a.key, a.asked);
    FullInOrder(before, a.key);
    if list[n] > a.asked - WINDOW {
      RecentCount(list, a.asked, n);
    }
  }

  /** Any six failures of a key with no success between them span at least fifteen minutes. */
  lemma {:induction false} SixFailuresSpan(attempts: seq<Attempt>, k: Key)
    requires InSequence(attempts)
    ensures forall i, j :: 0 <= i && j == i + LIMIT < |Full(attempts, k)| ==>
              Full(attempts, k)[j] - Full(attempts, k)[i] >= WINDOW
  {
    hide Locked;
    if attempts != [] {
      var before, a := attempts[..|attempts| - 1], attempts[|attempts| - 1];
      assert attempts == before + [a];
      SixFailuresSpan(before, k);
      var list := Full(before, k);
      if a.key == k && a.result == Failed && !Locked(Run(before), a) && |list| >= LIMIT {
        NewFailureIsLate(before, a);
      }
    }
  }

  // ---- the service

  class Service {
    var failures: Failures

    constructor ()
      ensures failures == map[]
    {
      failures := map[];
    }

    /** Prunes the key's failures in place and says whether it is locked. */
    method Throttled(k: Key, now: Time) returns (locked: bool)
      modifies this
      ensures failures == old(failures)[k := Recent(ListOf(old(failures), k), now)]
      ensures locked <==> |failures[k]| >= LIMIT
    {
      var cutoff := now - WINDOW;
      var all := ListOf(failures, k);
      var list: seq<Time> := [];
      for i := 0 to |all|
        invariant list == Recent(all[..i], now) && failures == old(failures)
      {
        assert all[..i + 1][..i] == all[..i];
        if all[i] > cutoff {
          list := list + [all[i]];
        }
      }
      assert all[..|all|] == all;
      failures := failures[k := list];
      locked := |list| >= LIMIT;
    }

    method Fail(k: Key, now: Time)
      modifies this
      ensures failures == old(failures)[k := ListOf(old(failures), k) + [now]]
    {
      failures := failures[k := ListOf(failures, k) + [now]];
    }

    /**
     One attempt, as `Login`, `SSOLogin` and the callback of single sign-on make it: asked first, told the result
     after.
     */
    method SignIn(a: Attempt) returns (locked: bool)
      modifies this
      ensures failures == After(old(failures), a) && (locked <==> Locked(old(failures), a))
    {
      locked := Throttled(a.key, a.asked);
      if locked {
        return;
      }
      if a.result == Failed {
        Fail(a.key, a.at);
      } else if a.result == Succeeded {
        failures := failures - {a.key};
      }
    }
  }
}
