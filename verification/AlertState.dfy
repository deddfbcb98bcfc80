/**
 The state machine of one alert rule on one subject, and what it does over
 every run of evaluations.

 `Step` is the transition function. The theorems speak of a history `h` of
 evaluations (what each one found, when, and under which timing) and say, in
 terms of the history alone, at which evaluations the machine fires, reminds
 and resolves.
 */
module AlertState {
  import opened Basics

  datatype Observation = Clear | Breach | NoData

  datatype Phase = Inactive | Pending | Firing

  /** A rule's durations; `repeat <= 0` means no reminders. */
  datatype Timing = Timing(hold: Time, recovery: Time, repeat: Time)

  /** The longest time between evaluations that counts as watching. */
  const MAX_GAP: Time := MINUTE

  /** Go's zero time is `None` where the code tests for it, 0 elsewhere. */
  datatype State = State(phase: Phase, since: Time, firedAt: Time,
                         clearSince: Option<Time>, lastSeen: Option<Time>, lastNotified: Time)

  datatype Transition = Stay | Fire | Remind | Resolve

  function Blank(lastSeen: Option<Time>): State {
    State(Inactive, 0, 0, None, lastSeen, 0)
  }

  predicate Sustained(since: Time, now: Time, t: Timing) {
    now - since >= t.hold
  }

  predicate Recovered(clearSince: Time, now: Time, t: Timing) {
    now - clearSince >= t.recovery
  }

  /** The state after an evaluation, and what it asks to announce. */
  function Step(s: State, obs: Observation, now: Time, t: Timing): (State, Transition) {
    var gap := s.lastSeen.Some? && now - s.lastSeen.value > MAX_GAP;
    var seen := s.(lastSeen := Some(now));
    match s.phase
    case Inactive =>
      if obs != Breach then (seen, Stay)
      else StepPending(seen.(phase := Pending, since := now), false, obs, now, t)
    case Pending => StepPending(seen, gap, obs, now, t)
    case Firing => StepFiring(seen, gap, obs, now, t)
  }

  function StepPending(s: State, gap: bool, obs: Observation, now: Time, t: Timing): (State, Transition) {
    // After a gap the condition counts as seen for the first time now.
    var s := if gap then s.(since := now) else s;
    match obs
    case Clear => (Blank(Some(now)), Stay)
    case NoData => (s, Stay)
    case Breach =>
      if !Sustained(s.since, now, t) then (s, Stay)
      else (s.(phase := Firing, firedAt := now, lastNotified := now, clearSince := None), Fire)
  }

  function StepFiring(s: State, gap: bool, obs: Observation, now: Time, t: Timing): (State, Transition) {
    if obs == Breach then
      var s := s.(clearSince := None);
      if t.repeat > 0 && now - s.lastNotified >= t.repeat then (s.(lastNotified := now), Remind)
      else (s, Stay)
    else
      var s := if s.clearSince.None? || gap then s.(clearSince := Some(now)) else s;
      if Recovered(s.clearSince.value, now, t) then (Blank(Some(now)), Resolve) else (s, Stay)
  }

  // ---- histories

  /** One evaluation: what it found, when, and the rule's timing then. */
  datatype Eval = Eval(obs: Observation, now: Time, timing: Timing)

  type History = seq<Eval>

  /** The clock never runs backwards. */
  ghost predicate Ordered(h: History) {
    forall i, j :: 0 <= i <= j < |h| ==> h[i].now <= h[j].now
  }

  /** The state after the first `n` evaluations of a machine that starts blank. */
  function StateAt(h: History, n: nat): State
    requires n <= |h|
  {
    if n == 0 then Blank(None)
    else Step(StateAt(h, n - 1), h[n - 1].obs, h[n - 1].now, h[n - 1].timing).0
  }

  /** What evaluation `i` asks to announce. */
  function At(h: History, i: nat): Transition
    requires i < |h|
  {
    Step(StateAt(h, i), h[i].obs, h[i].now, h[i].timing).1
  }

  /** Evaluation `j` followed a gap nobody can vouch for. */
  predicate GapAt(h: History, j: nat)
    requires j < |h|
  {
    j > 0 && h[j].now - h[j - 1].now > MAX_GAP
  }

  /** Evaluation `f` fired, and nothing before evaluation `n` resolved it. */
  ghost predicate FiredAndOpen(h: History, n: nat, f: nat)
    requires n <= |h|
  {
    f < n && At(h, f) == Fire && forall j :: f < j < n ==> At(h, j) != Resolve
  }

  ghost predicate FiringBefore(h: History, n: nat)
    requires n <= |h|
  {
    exists f: nat :: FiredAndOpen(h, n, f)
  }

  /** The condition was seen at `b`, and up to `n` nothing cleared or resolved it. */
  ghost predicate Begun(h: History, n: nat, b: nat)
    requires n <= |h|
  {
    b < n && h[b].obs == Breach && forall j :: b <= j < n ==> h[j].obs != Clear && At(h, j) != Resolve
  }

  /**
   Before evaluation `n` the condition has held, watched, since evaluation `k`:
   it had begun by then and there is no gap after `k`.
   */
  ghost predicate HeldSince(h: History, n: nat, b: nat, k: nat)
    requires n <= |h|
  {
    Begun(h, n, b) && b <= k < n && forall j :: k < j < n ==> !GapAt(h, j)
  }

  /** No evaluation from `k` up to `n` found a breach, with no gap after `k`. */
  ghost predicate QuietSince(h: History, n: nat, k: nat)
    requires n <= |h|
  {
    && k < n
    && (forall j :: k <= j < n ==> h[j].obs != Breach)
    && (forall j :: k < j < n ==> !GapAt(h, j))
  }

  ghost predicate HeldThrough(h: History, i: nat, b: nat, k: nat)
    requires i < |h|
  {
    HeldSince(h, i + 1, b, k)
  }

  ghost predicate QuietThrough(h: History, i: nat, k: nat)
    requires i < |h|
  {
    QuietSince(h, i + 1, k)
  }

  /** Through evaluation `i` the condition has held from `k` for the hold period. */
  ghost predicate HeldFor(h: History, i: nat, b: nat, k: nat)
    requires i < |h|
  {
    HeldThrough(h, i, b, k) && h[i].now - h[k].now >= h[i].timing.hold
  }

  /** Through evaluation `i` it has been quiet from `k` for the recovery period. */
  ghost predicate QuietFor(h: History, i: nat, k: nat)
    requires i < |h|
  {
    QuietThrough(h, i, k) && h[i].now - h[k].now >= h[i].timing.recovery
  }

  /** The last evaluation before `n` that fired or reminded is `m`. */
  ghost predicate LastAnnounced(h: History, n: nat, m: nat)
    requires n <= |h|
  {
    && m < n
    && (At(h, m) == Fire || At(h, m) == Remind)
    && (forall j :: m < j < n ==> At(h, j) != Fire && At(h, j) != Remind)
  }

  // ---- what the state knows about the history

  lemma LastSeenIsPrevious(h: History, n: nat)
    requires n <= |h|
    ensures StateAt(h, n).lastSeen == if n == 0 then None else Some(h[n - 1].now)
  {
  }

  lemma {:induction false} OpenIsFiring(h: History, n: nat, f: nat)
    requires n <= |h| && FiredAndOpen(h, n, f)
    ensures StateAt(h, n).phase == Firing
  {
    if f < n - 1 {
      OpenIsFiring(h, n - 1, f);
      assert At(h, n - 1) != Resolve;
    }
  }

  lemma StillFiring(s: State, obs: Observation, now: Time, t: Timing)
    ensures var (s', tr) := Step(s, obs, now, t);
            s'.phase == Firing && tr != Fire ==> s.phase == Firing && tr != Resolve
  {
  }

  lemma {:induction false} FiringIsOpen(h: History, n: nat) returns (f: nat)
    requires n <= |h| && StateAt(h, n).phase == Firing
    ensures FiredAndOpen(h, n, f)
  {
    f := n - 1;
    var e := h[n - 1];
    StillFiring(StateAt(h, n - 1), e.obs, e.now, e.timing);
    hide Step;
    if At(h, f) != Fire {
      f := FiringIsOpen(h, n - 1);
    }
  }

  lemma PhaseIsFiring(h: History, n: nat)
    requires n <= |h|
    ensures StateAt(h, n).phase == Firing <==> FiringBefore(h, n)
  {
    if StateAt(h, n).phase == Firing {
      var f := FiringIsOpen(h, n);
    }
    forall f: nat | FiredAndOpen(h, n, f) ensures StateAt(h, n).phase == Firing {
      OpenIsFiring(h, n, f);
    }
  }

  /** A step never leaves activity by itself: only a clear or a resolution does. */
  lemma StepStaysActive(s: State, obs: Observation, now: Time, t: Timing)
    requires obs != Clear && Step(s, obs, now, t).1 != Resolve
    requires s.phase != Inactive || obs == Breach
    ensures Step(s, obs, now, t).0.phase != Inactive
  {
  }

  lemma StepToPending(s: State, obs: Observation, now: Time, t: Timing)
    requires Step(s, obs, now, t).0.phase == Pending
    ensures s.phase != Firing && obs != Clear && Step(s, obs, now, t).1 == Stay
    ensures s.phase == Inactive ==> obs == Breach
    ensures Step(s, obs, now, t).0.since
         == if s.phase == Inactive || (s.lastSeen.Some? && now - s.lastSeen.value > MAX_GAP) then now else s.since
  {
  }

  /** What has begun keeps the machine active. */
  lemma {:induction false} BegunIsActive(h: History, n: nat, b: nat)
    requires n <= |h| && Begun(h, n, b)
    ensures StateAt(h, n).phase != Inactive
  {
    var e := h[n - 1];
    if b < n - 1 {
      BegunIsActive(h, n - 1, b);
    }
    assert At(h, n - 1) != Resolve;
    StepStaysActive(StateAt(h, n - 1), e.obs, e.now, e.timing);
  }

  /** A condition that has held before evaluation `i` and held in it began no later, unless it begins there. */
  lemma HeldBefore(h: History, i: nat, k: nat)
    requires i < |h|
    requires StateAt(h, i).phase == Inactive || GapAt(h, i)
             || forall b': nat, k': nat :: HeldSince(h, i, b', k') ==> k <= k'
    requires k <= i && (StateAt(h, i).phase == Inactive || GapAt(h, i) ==> k == i)
    ensures forall b': nat, k': nat :: HeldThrough(h, i, b', k') ==> k <= k'
  {
    forall b': nat, k': nat | HeldThrough(h, i, b', k') ensures k <= k' {
      if k' < i {
        assert HeldSince(h, i, b', k');
        BegunIsActive(h, i, b');
        assert !GapAt(h, i);
      }
    }
  }

  /** A condition that begins at evaluation `i`, or had begun and is not cleared there, has held through it. */
  lemma HeldExtends(h: History, i: nat, b: nat, k: nat)
    requires i < |h|
    ensures h[i].obs != Clear && At(h, i) != Resolve
            && (|| (b == k == i && h[i].obs == Breach)
                || (Begun(h, i, b) && k == i)
                || (HeldSince(h, i, b, k) && !GapAt(h, i)))
            ==> HeldThrough(h, i, b, k)
  {
    hide At;
  }

  /** A pending machine's `since` is the earliest evaluation the condition has held from. */
  lemma {:induction false} PendingSince(h: History, n: nat) returns (b: nat, k: nat)
    requires n <= |h| && StateAt(h, n).phase == Pending
    ensures HeldSince(h, n, b, k) && StateAt(h, n).since == h[k].now
    ensures forall b': nat, k': nat :: HeldSince(h, n, b', k') ==> k <= k'
  {
    var i := n - 1;
    LastSeenIsPrevious(h, i);
    StepToPending(StateAt(h, i), h[i].obs, h[i].now, h[i].timing);
    b, k := i, i;
    if StateAt(h, i).phase == Pending {
      b, k := PendingSince(h, i);
      if GapAt(h, i) {
        k := i;
      }
    }
    HeldExtends(h, i, b, k);
    HeldBefore(h, i, k);
    forall b': nat, k': nat | HeldSince(h, n, b', k') ensures k <= k' {
      assert HeldThrough(h, i, b', k');
    }
  }

  /** A firing machine's `clearSince` is the start of the quiet suffix, if there is one. */
  lemma {:induction false} ClearSinceIsQuiet(h: History, n: nat) returns (k: nat)
    requires n <= |h| && StateAt(h, n).phase == Firing
    ensures StateAt(h, n).clearSince.None? ==> n > 0 && h[n - 1].obs == Breach
    ensures StateAt(h, n).clearSince.Some? ==>
              && QuietSince(h, n, k) && StateAt(h, n).clearSince.value == h[k].now
              && forall k': nat :: QuietSince(h, n, k') ==> k <= k'
  {
    var i := n - 1;
    LastSeenIsPrevious(h, i);
    k := 0;
    if h[i].obs != Breach {
      var k0 := ClearSinceIsQuiet(h, i);
      k := if StateAt(h, i).clearSince.None? || GapAt(h, i) then i else k0;
      forall k': nat | QuietSince(h, n, k') ensures k <= k' {
        if k' < i && !GapAt(h, i) {
          assert QuietSince(h, i, k');
        }
      }
    }
  }

  /** A firing machine's `lastNotified` is when it last fired or a reminder was due. */
  lemma {:induction false} LastNotifiedIsLast(h: History, n: nat) returns (m: nat)
    requires n <= |h| && StateAt(h, n).phase == Firing
    ensures LastAnnounced(h, n, m) && StateAt(h, n).lastNotified == h[m].now
  {
    var i := n - 1;
    m := i;
    if At(h, i) == Stay {
      m := LastNotifiedIsLast(h, i);
    }
  }

  // ---- theorems

  /**
   A machine fires at evaluation `i` exactly when it is not firing already, the
   evaluation is a breach, and the condition has held, watched, for the hold period.
   */
  lemma FiresExactly(h: History, i: nat)
    requires i < |h| && Ordered(h)
    ensures At(h, i) == Fire <==>
            && !FiringBefore(h, i)
            && h[i].obs == Breach
            && exists b: nat, k: nat :: HeldFor(h, i, b, k)
  {
    PhaseIsFiring(h, i);
    var s := StateAt(h, i);
    if h[i].obs == Breach && s.phase != Firing {
      var b, k := HeldAtBreach(h, i);
      if At(h, i) == Fire {
        assert HeldFor(h, i, b, k);
      }
    }
  }

  /** At a breach of a machine that is not firing, the hold period runs from the earliest watched evaluation. */
  lemma HeldAtBreach(h: History, i: nat) returns (b: nat, k: nat)
    requires i < |h| && h[i].obs == Breach && StateAt(h, i).phase != Firing
    ensures HeldThrough(h, i, b, k)
    ensures forall b': nat, k': nat :: HeldThrough(h, i, b', k') ==> k <= k'
    ensures At(h, i) == Fire <==> h[i].now - h[k].now >= h[i].timing.hold
  {
    LastSeenIsPrevious(h, i);
    b, k := i, i;
    if StateAt(h, i).phase == Pending {
      b, k := PendingSince(h, i);
      if GapAt(h, i) {
        k := i;
      }
    }
    HeldExtends(h, i, b, k);
    HeldBefore(h, i, k);
  }

  /**
   A machine resolves at evaluation `i` exactly when it is firing and a gapless run of
   evaluations without a breach, ending here, spans the recovery period.
   */
  lemma ResolvesExactly(h: History, i: nat)
    requires i < |h| && Ordered(h)
    ensures At(h, i) == Resolve <==>
            && FiringBefore(h, i)
            && exists k: nat :: QuietFor(h, i, k)
  {
    PhaseIsFiring(h, i);
    LastSeenIsPrevious(h, i);
    if StateAt(h, i).phase == Firing && h[i].obs != Breach {
      var k0 := ClearSinceIsQuiet(h, i);
      var k := if StateAt(h, i).clearSince.None? || GapAt(h, i) then i else k0;
      assert QuietThrough(h, i, k);
      assert At(h, i) == Resolve ==> QuietFor(h, i, k);
      forall k': nat | QuietThrough(h, i, k') ensures k <= k' {
        assert k' < i && !GapAt(h, i) ==> QuietSince(h, i, k');
      }
    }
  }

  /** A reminder is due exactly at a breach while firing, `repeat` after the last announcement. */
  lemma RemindsExactly(h: History, i: nat)
    requires i < |h|
    ensures At(h, i) == Remind <==>
            && FiringBefore(h, i) && h[i].obs == Breach && h[i].timing.repeat > 0
            && exists m: nat :: LastAnnounced(h, i, m) && h[i].now - h[m].now >= h[i].timing.repeat
  {
    PhaseIsFiring(h, i);
    if StateAt(h, i).phase == Firing {
      var m := LastNotifiedIsLast(h, i);
    }
  }

  /** Fire and Resolve alternate: between two of a kind lies one of the other. */
  lemma FireAndResolveAlternate(h: History, i: nat, j: nat)
    requires i < j < |h|
    ensures At(h, i) == At(h, j) == Fire ==> exists r :: i < r < j && At(h, r) == Resolve
    ensures At(h, i) == At(h, j) == Resolve ==> exists f :: i < f < j && At(h, f) == Fire
    ensures At(h, j) == Resolve ==> exists f: nat :: f < j && At(h, f) == Fire
  {
    PhaseIsFiring(h, j);
    if At(h, i) == At(h, j) == Fire {
      assert !FiredAndOpen(h, j, i);
    }
    if At(h, j) == Resolve {
      var f: nat :| FiredAndOpen(h, j, f);
    }
  }

  /** Two fires of one subject are at least a hold and a recovery period apart. */
  lemma FiresApart(h: History, f: nat, g: nat)
    requires f < g < |h| && Ordered(h) && At(h, f) == Fire && At(h, g) == Fire
    ensures exists r :: f < r < g && At(h, r) == Resolve
                        && h[g].now - h[f].now >= h[g].timing.hold + h[r].timing.recovery
  {
    FireAndResolveAlternate(h, f, g);
    var r: nat :| f < r < g && At(h, r) == Resolve;
    ResolvesExactly(h, r);
    var q: nat :| QuietFor(h, r, q);
    FiresExactly(h, f);
    assert q > f;
    FiresExactly(h, g);
    var b: nat, k: nat :| HeldFor(h, g, b, k);
    assert b > r;
  }

  /** The reminders among evaluations `lo..hi`. */
  function Reminders(h: History, lo: nat, hi: nat): nat
    requires lo <= hi <= |h|
  {
    if lo == hi then 0 else Reminders(h, lo, hi - 1) + if At(h, hi - 1) == Remind then 1 else 0
  }

  lemma LastNotifiedAdvances(h: History, i: nat)
    requires i < |h| && StateAt(h, i).phase == Firing && At(h, i) != Resolve
    ensures At(h, i) == Remind ==> StateAt(h, i + 1).lastNotified >= StateAt(h, i).lastNotified + h[i].timing.repeat
    ensures At(h, i) != Remind ==> StateAt(h, i + 1).lastNotified == StateAt(h, i).lastNotified
  {
  }

  lemma {:induction false} RemindersSpaced(h: History, f: nat, n: nat, repeat: Time)
    requires f < n <= |h| && FiredAndOpen(h, n, f) && repeat > 0
    requires forall j :: f < j < n ==> h[j].timing.repeat == repeat
    ensures Reminders(h, f + 1, n) * repeat <= StateAt(h, n).lastNotified - h[f].now
  {
    var i := n - 1;
    if i > f {
      OpenIsFiring(h, i, f);
      assert At(h, i) != Resolve;
      LastNotifiedAdvances(h, i);
      RemindersSpaced(h, f, i, repeat);
      OneMore(Reminders(h, f + 1, i), repeat);
    }
  }

  lemma OneMore(c: nat, d: int)
    ensures (c + 1) * d == c * d + d
  {
  }

  /** With a fixed reminder interval, an episode of length L has at most L / repeat reminders. */
  lemma RemindersBounded(h: History, f: nat, n: nat, repeat: Time)
    requires f < n <= |h| && Ordered(h) && FiredAndOpen(h, n, f) && repeat > 0
    requires forall j :: f < j < n ==> h[j].timing.repeat == repeat
    ensures Reminders(h, f + 1, n) <= (h[n - 1].now - h[f].now) / repeat
  {
    RemindersSpaced(h, f, n, repeat);
    OpenIsFiring(h, n, f);
    var m := LastNotifiedIsLast(h, n);
    QuotientBound(Reminders(h, f + 1, n), repeat, h[n - 1].now - h[f].now);
  }

  lemma QuotientBound(c: nat, d: int, x: int)
    requires d > 0 && c * d <= x
    ensures c <= x / d
  {
    var q := x / d;
    assert x == q * d + x % d;
    assert c > q ==> c * d >= (q + 1) * d;
  }
}
