/**
 The alert engine itself: an object whose methods update its maps and its store, each
 proved to do exactly what the corresponding operation of `AlertModel` says. The
 theorems about runs in `AlertSafety` and `AlertRefinement` are therefore about it.
 */
module AlertEngine {
  import opened Basics
  import opened AlertState
  import opened AlertModel
  import opened AlertSafety
  import opened NoticeCap
  import opened AlertChecks

  datatype SilenceError = BadMinutes | NoteTooLong | NotFound

  const MAX_SILENCE_MINUTES := 30 * 24 * 60

  lemma SetGet<K, V>(m: map<K, V>, k: K)
    ensures Set(m, k, Get(m, k)) == m
  {
  }

  lemma Regroup<T>(a: seq<T>, b: seq<T>, c: seq<T>)
    ensures a + b + c == a + (b + c)
  {
  }

  /** From world `start`, of the alerts in `all` exactly those not in `left` have been ended, in the order `ended`. */
  ghost predicate Ending(start: World, w: World, all: set<Key>, left: set<Key>, ended: seq<Key>, now: Time) {
    && w == FinishAll(start, ended, now) && Lists(ended, all - left)
    && left <= all && left <= w.active.Keys
  }

  lemma EndingStarts(w: World, all: set<Key>, now: Time)
    requires all <= w.active.Keys
    ensures Ending(w, w, all, all, [], now)
  {
  }

  lemma ListsOneMore(s: seq<Key>, members: set<Key>, x: Key)
    requires Lists(s, members) && x !in members
    ensures Lists(s + [x], members + {x})
  {
  }

  lemma EndingGoesOn(start: World, w: World, all: set<Key>, left: set<Key>, ended: seq<Key>, now: Time, k: Key)
    requires Ending(start, w, all, left, ended, now) && k in left
    ensures Ending(start, FinishKey(w, k, now), all, left - {k}, ended + [k], now)
  {
    hide Lists, Finish;
    ListsOneMore(ended, all - left, k);
    assert all - (left - {k}) == all - left + {k};
    assert (ended + [k])[..|ended|] == ended;
  }

  lemma EndingIsOver(start: World, w: World, all: set<Key>, ended: seq<Key>, now: Time)
    requires Ending(start, w, all, {}, ended, now)
    ensures w == FinishAll(start, ended, now) && Lists(ended, all)
  {
    assert all - {} == all;
  }

  lemma CheckNone(w: World, now: Time, recovery: Time)
    ensures CheckAll(w, [], now, recovery) == w && Seen([]) == {}
  {
  }

  lemma OneMoreCheck(w: World, checks: seq<Check>, i: nat, now: Time, recovery: Time)
    requires i < |checks|
    ensures var before, c := CheckAll(w, checks[..i], now, recovery), checks[i];
            var after := if c.hold then before else CheckWorld(before, c, now, recovery);
            CheckAll(w, checks[..i + 1], now, recovery) == after
    ensures Seen(checks[..i + 1]) == Seen(checks[..i]) + {CheckKey(checks[i])}
  {
    hide CheckWorld, CheckKey;
    assert checks[..i + 1][..i] == checks[..i] && checks[..i + 1] == checks[..i] + [checks[i]];
  }

  /** Checks run one list after the other are the checks of both. */
  lemma {:induction false} CheckMore(w: World, a: seq<Check>, b: seq<Check>, now: Time, recovery: Time)
    ensures CheckAll(CheckAll(w, a, now, recovery), b, now, recovery) == CheckAll(w, a + b, now, recovery)
    ensures Seen(a + b) == Seen(a) + Seen(b)
  {
    hide CheckWorld, CheckKey;
    if b == [] {
      assert a + b == a;
    } else {
      var before := b[..|b| - 1];
      CheckMore(w, a, before, now, recovery);
      assert (a + b)[..|a + b| - 1] == a + before;
      assert b == before + [b[|b| - 1]];
    }
  }

  class Engine {
    var active: map<Key, Tracked>
    var silences: map<Key, Silence>
    var stored: map<nat, Alert>
    var nextId: nat
    var windows: Windows   // the contents of each subject's traffic window
    ghost var log: seq<Notice>

    ghost function W(): World
      reads this
    {
      World(active, silences, stored, nextId, log)
    }

    /** A new engine on the store an earlier one left, or on an empty one. */
    constructor (stored: map<nat, Alert>, nextId: nat, ghost log: seq<Notice>)
      ensures W() == World(map[], map[], stored, nextId, log) && windows == map[]
    {
      active, silences, windows := map[], map[], map[];
      this.stored, this.nextId, this.log := stored, nextId, log;
    }

    /** Fills a new engine from the store: alerts still firing, and silences that have not run out. */
    method Load(now: Time, firing: seq<Alert>, recent: seq<Alert>)
      requires active == map[] && silences == map[]
      modifies this`active, this`silences, this`stored, this`nextId, this`log
      ensures W() == Do(old(W()), Restart(now, firing, recent))
    {
      var i := 0;
      while i < |firing|
        invariant 0 <= i <= |firing|
        invariant W() == old(W()).(active := RestoreAll(map[], firing[..i], now))
      {
        var a := firing[i];
        assert firing[..i + 1][..i] == firing[..i];
        if a.firedAt.Some? {
          active := active[AlertKey(a) := Restored(a, now)];
        }
        i := i + 1;
      }
      assert firing[..i] == firing;
      i := |recent|;
      while i > 0
        invariant 0 <= i <= |recent|
        invariant W() == old(W()).(active := RestoreAll(map[], firing, now),
                                   silences := RecallAll(map[], recent[i..], now))
      {
        i := i - 1;
        var a := recent[i];
        assert recent[i..][1..] == recent[i + 1..];
        if Recallable(a, now) {
          silences := silences[AlertKey(a) := a.silence.value];
        }
      }
      assert recent[0..] == recent;
    }

    /** Stores an alert unless it is pending, and says when it was last saved. */
    method Save(t: Tracked, now: Time) returns (savedAt: Time)
      modifies this`stored
      ensures t.alert.stage == StagePending ==> stored == old(stored) && savedAt == t.savedAt
      ensures t.alert.stage != StagePending ==> stored == old(stored)[t.alert.id := t.alert] && savedAt == now
    {
      savedAt := t.savedAt;
      if t.alert.stage != StagePending {
        stored := stored[t.alert.id := t.alert];
        savedAt := now;
      }
    }

    method FinishAlert(t: Tracked, k: Key, now: Time) returns (out: seq<Notice>)
      modifies this`active, this`silences, this`stored, this`nextId, this`log
      ensures W() == Apply(old(W()), k, Finish(t, Get(old(silences), k), now))
      ensures log == old(log) + out && active == old(active) - {k}
    {
      SetGet(silences, k);
      active := active - {k};
      out := [];
      if t.alert.stage != StageFiring {
        return;
      }
      var a := t.alert.(stage := StageResolved, resolvedAt := Some(now));
      if a.silence.Some? && a.silence.value.until.Some? && a.silence.value.Active(now) {
        silences := silences[k := a.silence.value];
      }
      var _ := Save(t.(alert := a), now);
      if a.notified {
        out := [Notice(Resolve, a, now, 0)];
        log := log + out;
      }
    }

    /** One check: ends what the rule no longer means, starts on a breach, else moves the alert on. */
    method StepRule(c: Check, now: Time, recovery: Time) returns (out: seq<Notice>)
      requires Inv(W())
      modifies this`active, this`silences, this`stored, this`nextId, this`log
      ensures W() == CheckWorld(old(W()), c, now, recovery)
      ensures log == old(log) + out
    {
      hide Inv, Advance, Finish;
      var k := CheckKey(c);
      out := [];
      var entry := Get(active, k);
      if entry.Some? {
        FiringIsFiring(W(), k);
      }
      if entry.Some? && entry.value.alert.metric != c.rule.metric {
        out := FinishAlert(entry.value, k, now);
        entry := None;
      }
      if entry.None? {
        if c.obs != Breach {
          return;
        }
        entry := Some(Fresh(c, Get(silences, k), nextId, now));
        nextId := nextId + 1;
      }
      SetGet(silences, k);
      var more := AdvanceAlert(entry.value, k, c, now, recovery);
      out := out + more;
    }

    method AdvanceAlert(t: Tracked, k: Key, c: Check, now: Time, recovery: Time) returns (out: seq<Notice>)
      requires t.state.phase == Firing ==> t.alert.stage == StageFiring
      modifies this`active, this`silences, this`stored, this`nextId, this`log
      ensures W() == Apply(old(W()), k, Advance(t, Get(old(silences), k), c, now, recovery))
      ensures log == old(log) + out
    {
      hide Step;
      StepFacts(t.state, c.obs, now, TimingOf(c.rule, recovery));
      SetGet(silences, k);
      out := [];
      var timing := TimingOf(c.rule, recovery);
      var (s, tr) := Step(t.state, c.obs, now, timing);
      var a := Refreshed(t.alert, c.rule, s, now);
      var silenced := a.silence.Some?;
      var savedAt := t.savedAt;
      match tr {
        case Fire =>
          a := a.(stage := StageFiring, firedAt := Some(now));
          if !silenced {
            a := a.(notified := true, lastNotifiedAt := Some(now));
            out := [Notice(Fire, a, now, timing.repeat)];
          }
          savedAt := Save(Tracked(s, a, savedAt), now);
          active := active[k := Tracked(s, a, savedAt)];
        case Remind =>
          if a.notified && !silenced {
            a := a.(lastNotifiedAt := Some(now));
            out := [Notice(Remind, a, now, timing.repeat)];
            savedAt := Save(Tracked(s, a, savedAt), now);
          }
          active := active[k := Tracked(s, a, savedAt)];
        case Resolve =>
          out := FinishAlert(Tracked(s, a, savedAt), k, now);
          return;
        case Stay =>
          if s.phase == Inactive {
            active := active - {k};
          } else {
            if s.phase == Firing {
              if !a.notified && !silenced {
                a := a.(notified := true, lastNotifiedAt := Some(now));
                s := s.(lastNotified := now);
                out := [Notice(Fire, a, now, timing.repeat)];
                savedAt := Save(Tracked(s, a, savedAt), now);
              } else if now - savedAt >= SAVE_EVERY {
                savedAt := Save(Tracked(s, a, savedAt), now);
              }
            }
            active := active[k := Tracked(s, a, savedAt)];
          }
      }
      log := log + out;
    }

    /** Runs every check once, in order. */
    method RunChecks(checks: seq<Check>, now: Time, recovery: Time) returns (out: seq<Notice>, seen: set<Key>)
      requires Inv(W())
      modifies this`active, this`silences, this`stored, this`nextId, this`log
      ensures W() == CheckAll(old(W()), checks, now, recovery) && Inv(W())
      ensures log == old(log) + out && seen == Seen(checks)
    {
      hide CheckWorld, CheckAll, Seen, Inv;
      out, seen := [], {};
      var i := 0;
      CheckNone(W(), now, recovery);
      assert checks[..0] == [];
      while i < |checks|
        invariant 0 <= i <= |checks|
        invariant W() == CheckAll(old(W()), checks[..i], now, recovery) && Inv(W())
        invariant log == old(log) + out && seen == Seen(checks[..i])
      {
        var c := checks[i];
        OneMoreCheck(old(W()), checks, i, now, recovery);
        seen := seen + {CheckKey(c)};
        if !c.hold {
          CheckWorldKeeps(W(), c, now, recovery);
          var more := StepRule(c, now, recovery);
          Regroup(old(log), out, more);
          out := out + more;
        }
        i := i + 1;
      }
      assert checks[..i] == checks;
    }

    /** Ends the alerts nothing evaluates any more, in whatever order the map yields them. */
    method EndUnseen(seen: set<Key>, now: Time) returns (out: seq<Notice>, ghost ended: seq<Key>)
      modifies this`active, this`silences, this`stored, this`nextId, this`log
      ensures W() == FinishAll(old(W()), ended, now) && Lists(ended, old(active).Keys - seen)
      ensures log == old(log) + out
    {
      hide FinishAll, Lists, Ending, Finish;
      out, ended := [], [];
      var left := active.Keys - seen;
      ghost var all := left;
      EndingStarts(W(), all, now);
      while left != {}
        invariant Ending(old(W()), W(), all, left, ended, now)
        invariant left <= active.Keys && log == old(log) + out
        decreases |left|
      {
        var k :| k in left;
        EndingGoesOn(old(W()), W(), all, left, ended, now, k);
        var more := FinishAlert(active[k], k, now);
        Regroup(old(log), out, more);
        out, left, ended := out + more, left - {k}, ended + [k];
      }
      EndingIsOver(old(W()), W(), all, ended, now);
    }

    /** Takes the samples in, one site after another, and runs the rules in force on each. */
    method CheckSites(now: Time, cfg: Settings, samples: seq<Sample>, ms: Measures)
      returns (out: seq<Notice>, seen: set<Key>)
      requires Inv(W())
      modifies this
      ensures var checks := if cfg.enabled then AllSiteChecks(cfg, samples, old(windows), now, ms) else [];
              W() == CheckAll(old(W()), checks, now, cfg.recovery) && Inv(W()) && seen == Seen(checks)
      ensures log == old(log) + out && windows == AllSampled(old(windows), samples, now)
    {
      hide Inv, CheckAll, SiteChecks, Effective, Seen, Sampled;
      out, seen := [], {};
      CheckNone(W(), now, cfg.recovery);
      ghost var checks: seq<Check> := [];
      for i := 0 to |samples|
        invariant windows == AllSampled(old(windows), samples[..i], now) && log == old(log) + out && Inv(W())
        invariant checks == if cfg.enabled then AllSiteChecks(cfg, samples[..i], old(windows), now, ms) else []
        invariant W() == CheckAll(old(W()), checks, now, cfg.recovery) && seen == Seen(checks)
      {
        var s := samples[i];
        assert samples[..i + 1][..i] == samples[..i];
        windows := Sampled(windows, s, now);
        if cfg.enabled {
          var rules := EffectiveRules(cfg.siteRules, s.site, ms);
          var more := SiteChecks(rules, s, WindowOf(windows, Subject(s.site)), ms);
          var said, keys := RunChecks(more, now, cfg.recovery);
          CheckMore(old(W()), checks, more, now, cfg.recovery);
          Regroup(old(log), out, said);
          out, seen, checks := out + said, seen + keys, checks + more;
        }
      }
      assert samples[..|samples|] == samples;
    }

    /**
     One evaluation: the checks the settings ask for, each once, then the end of what nothing checks any
     more, and the notices within the cap.
     */
    method EvaluateAll(now: Time, cfg: Settings, samples: seq<Sample>, ms: Measures)
      returns (delivered: seq<Delivery>, ghost out: seq<Notice>, ghost ended: seq<Key>)
      requires Inv(W()) && Valid(cfg, samples)
      modifies this
      ensures var op := Evaluate(now, cfg.enabled, cfg.recovery, Checks(cfg, samples, old(windows), now, ms), ended);
              Possible(old(W()), op) && W() == Do(old(W()), op)
      ensures windows == NextWindows(old(windows), samples, now)
      ensures Inv(W()) && log == old(log) + out && delivered == LimitNotices(out)
    {
      hide CheckAll, FinishAll, Inv, Seen, DistinctKeys, AllSiteChecks, ServerChecks, AllSampled, Valid;
      ChecksDistinct(cfg, samples, windows, now, ms);
      ghost var checks := Checks(cfg, samples, windows, now, ms);
      ghost var start := W();
      var stepped, seen := CheckSites(now, cfg, samples, ms);
      windows := map x | x in windows && x in Live(samples) :: windows[x];
      if cfg.enabled {
        var said, keys := RunChecks(ServerChecks(cfg.serverRules, ms), now, cfg.recovery);
        CheckMore(start, AllSiteChecks(cfg, samples, old(windows), now, ms), ServerChecks(cfg.serverRules, ms), now,
                  cfg.recovery);
        Regroup(old(log), stepped, said);
        stepped, seen := stepped + said, seen + keys;
      }
      assert W() == CheckAll(start, checks, now, cfg.recovery) && seen == Seen(checks);
      var finished;
      finished, ended := EndUnseen(seen, now);
      silences := map k | k in silences && silences[k].Active(now) :: silences[k];
      delivered := LimitNotices(stepped + finished);
      out := stepped + finished;
      Regroup(old(log), stepped, finished);
      OpKeeps(start, Evaluate(now, cfg.enabled, cfg.recovery, checks, ended));
    }

    method Find(id: nat) returns (found: Option<Key>)
      ensures found.Some? ==> found.value in active && active[found.value].alert.id == id
      ensures found.None? ==> forall k :: k in active ==> active[k].alert.id != id
    {
      var left := active.Keys;
      while left != {}
        invariant left <= active.Keys
        invariant forall k :: k in active && k !in left ==> active[k].alert.id != id
        decreases |left|
      {
        var k :| k in left;
        if active[k].alert.id == id {
          return Some(k);
        }
        left := left - {k};
      }
      return None;
    }

    /** Keeps an alert quiet for some minutes, or until it resolves; refusals change nothing. */
    method SilenceAlert(id: nat, minutes: int, noteLength: nat, now: Time)
      returns (error: Option<SilenceError>, key: Option<Key>)
      modifies this`active, this`silences, this`stored, this`nextId, this`log
      ensures error == Some(BadMinutes) <==> !(0 <= minutes <= MAX_SILENCE_MINUTES)
      ensures error == Some(NoteTooLong) <==> 0 <= minutes <= MAX_SILENCE_MINUTES && noteLength > 500
      ensures error == Some(NotFound) ==> forall k :: k in active ==> active[k].alert.id != id
      ensures error.Some? ==> W() == old(W())
      ensures error.None? ==>
                && key.Some? && key.value in old(active) && old(active)[key.value].alert.id == id
                && var s := Silence(if minutes > 0 then Some(now + minutes * MINUTE) else None);
                   W() == Do(old(W()), SilenceOp(key.value, s, now))
    {
      key := None;
      if !(0 <= minutes <= MAX_SILENCE_MINUTES) {
        return Some(BadMinutes), None;
      }
      if noteLength > 500 {
        return Some(NoteTooLong), None;
      }
      key := Find(id);
      if key.None? {
        return Some(NotFound), None;
      }
      var k := key.value;
      SetGet(silences, k);
      var s := Silence(if minutes > 0 then Some(now + minutes * MINUTE) else None);
      var t := active[k].(alert := active[k].alert.(silence := Some(s)));
      var savedAt := Save(t, now);
      active := active[k := t.(savedAt := savedAt)];
      error := None;
    }

    /** Lifts an alert's silence. */
    method UnsilenceAlert(id: nat, now: Time) returns (error: Option<SilenceError>, key: Option<Key>)
      modifies this`active, this`silences, this`stored, this`nextId, this`log
      ensures error.Some? ==>
                error.value == NotFound && W() == old(W()) && forall k :: k in active ==> active[k].alert.id != id
      ensures error.None? ==>
                && key.Some? && key.value in old(active) && old(active)[key.value].alert.id == id
                && W() == Do(old(W()), UnsilenceOp(key.value, now))
    {
      key := Find(id);
      if key.None? {
        return Some(NotFound), None;
      }
      var k := key.value;
      var t := active[k].(alert := active[k].alert.(silence := None));
      silences := silences - {k};
      var savedAt := Save(t, now);
      active := active[k := t.(savedAt := savedAt)];
      error := None;
    }
  }
}
