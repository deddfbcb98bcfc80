/**
 Notices over whole runs: however evaluations, silences and restarts interleave,
 one alert is announced as Fire, then reminders at least the rule's interval apart,
 then Resolve, each at most where its turn is. The proof rests on the invariant
 that the store's firing alerts are the engine's.
 */
module AlertSafety {
  import opened Basics
  import opened AlertState
  import opened AlertModel

  // ---- what has been told about an alert

  datatype Told = Untold | Announced(at: Time) | Done | Broken

  function Tell(told: Told, n: Notice): Told {
    match n.kind
    case Fire => if told.Untold? then Announced(n.at) else Broken
    case Remind => if told.Announced? && 0 < n.repeat <= n.at - told.at then Announced(n.at) else Broken
    case Resolve => if told.Announced? then Done else Broken
    case Stay => Broken
  }

  function ToldOf(log: seq<Notice>, id: nat): Told {
    if log == [] then Untold
    else
      var before := ToldOf(log[..|log| - 1], id);
      var n := log[|log| - 1];
      if n.alert.id == id then Tell(before, n) else before
  }

  lemma ToldOfAppend(log: seq<Notice>, n: Notice, id: nat)
    ensures ToldOf(log + [n], id) == if n.alert.id == id then Tell(ToldOf(log, id), n) else ToldOf(log, id)
  {
    assert (log + [n])[..|log|] == log;
  }

  lemma {:induction false} UnheardIsUntold(log: seq<Notice>, id: nat)
    requires forall n :: n in log ==> n.alert.id != id
    ensures ToldOf(log, id) == Untold
  {
    if log != [] {
      UnheardIsUntold(log[..|log| - 1], id);
    }
  }

  // ---- the invariant

  /** The store's copy of a firing alert agrees on all a restart depends on. */
  predicate Agree(a: Alert, b: Alert) {
    && a.id == b.id && a.stage == b.stage && AlertKey(a) == AlertKey(b) && a.metric == b.metric
    && a.since == b.since && a.firedAt == b.firedAt
    && a.notified == b.notified && a.lastNotifiedAt == b.lastNotifiedAt
  }

  /** A tracked alert is pending or firing, and its flags say what has been told about it. */
  predicate TrackedOk(t: Tracked, k: Key, told: Told) {
    && AlertKey(t.alert) == k
    && (|| (t.state.phase == Pending && t.alert.stage == StagePending && !t.alert.notified)
        || (t.state.phase == Firing && t.alert.stage == StageFiring && t.alert.firedAt == Some(t.state.firedAt)))
    && t.alert.since == t.state.since
    && (if t.alert.notified
        then told.Announced? && told.at <= t.state.lastNotified && t.alert.lastNotifiedAt == Some(told.at)
        else told == Untold && t.alert.lastNotifiedAt.None?)
  }

  ghost predicate ActiveOk(w: World) {
    && (forall k :: k in w.active ==>
          && w.active[k].alert.id < w.nextId
          && TrackedOk(w.active[k], k, ToldOf(w.log, w.active[k].alert.id)))
    && (forall j, k :: j in w.active && k in w.active && w.active[j].alert.id == w.active[k].alert.id ==> j == k)
  }

  /** The store's firing alerts are exactly the engine's, by key, ID and notification. */
  ghost predicate StoreAgrees(w: World) {
    && (forall id :: id in w.stored ==> w.stored[id].id == id && id < w.nextId && w.stored[id].stage != StagePending)
    && (forall k :: k in w.active && w.active[k].state.phase == Firing ==>
          && w.active[k].alert.id in w.stored && Agree(w.stored[w.active[k].alert.id], w.active[k].alert))
    && (forall id :: id in w.stored && w.stored[id].stage == StageFiring ==>
          && AlertKey(w.stored[id]) in w.active && w.active[AlertKey(w.stored[id])].alert.id == id
          && w.active[AlertKey(w.stored[id])].state.phase == Firing)
  }

  ghost predicate LogOk(w: World) {
    && (forall n :: n in w.log ==> n.alert.id < w.nextId)
    && (forall id: nat :: ToldOf(w.log, id) != Broken)
  }

  ghost predicate Tracks(w: World, id: nat) {
    exists k :: k in w.active && w.active[k].alert.id == id
  }

  /** Whatever has been announced and not resolved is still being tracked. */
  ghost predicate NothingLost(w: World) {
    forall id: nat :: ToldOf(w.log, id).Announced? ==> Tracks(w, id)
  }

  ghost predicate Inv(w: World) {
    ActiveOk(w) && StoreAgrees(w) && LogOk(w) && NothingLost(w)
  }

  // ---- one effect

  function NewTold(told: Told, e: Effect): Told {
    if e.notice.Some? then Tell(told, e.notice.value) else told
  }

  /** An effect on alert `t` is sound: it tells the right thing next and saves what must be saved. */
  predicate EffectOk(t: Tracked, k: Key, told: Told, e: Effect) {
    && NewTold(told, e) != Broken
    && (e.notice.Some? ==> e.notice.value.alert.id == t.alert.id)
    && (e.save.Some? ==> e.save.value.id == t.alert.id && e.save.value.stage != StagePending)
    && (e.tracked.Some? ==>
          && e.tracked.value.alert.id == t.alert.id
          && TrackedOk(e.tracked.value, k, NewTold(told, e))
          && (e.tracked.value.state.phase == Pending ==> e.save.None? && t.state.phase != Firing)
          && (e.tracked.value.state.phase == Firing ==>
                if e.save.Some? then Agree(e.save.value, e.tracked.value.alert)
                else t.state.phase == Firing && Agree(t.alert, e.tracked.value.alert)))
    && (e.tracked.None? ==>
          && !NewTold(told, e).Announced?
          && if t.state.phase == Firing then e.save.Some? && e.save.value.stage == StageResolved else e.save.None?)
  }

  lemma FinishOk(t: Tracked, k: Key, told: Told, silence: Option<Silence>, now: Time)
    requires TrackedOk(t, k, told)
    ensures EffectOk(t, k, told, Finish(t, silence, now))
  {
  }

  lemma StepFacts(s: State, obs: Observation, now: Time, t: Timing)
    ensures var (s', tr) := Step(s, obs, now, t);
            match tr
            case Fire => s.phase != Firing && s'.phase == Firing && s'.firedAt == now && s'.lastNotified == now
            case Remind => s.phase == Firing && s' == s.(clearSince := None, lastSeen := Some(now), lastNotified := now)
                           && 0 < t.repeat <= now - s.lastNotified
            case Resolve => s.phase == Firing
            case Stay => (s.phase == Firing <==> s'.phase == Firing)
                         && (s'.phase == Firing ==> s' == s.(clearSince := s'.clearSince, lastSeen := Some(now)))
                         && (s'.phase == Inactive ==> s.phase == Pending || obs != Breach)
  {
  }

  lemma RefreshedKey(a: Alert, c: Check, s: State, now: Time)
    requires AlertKey(a) == CheckKey(c)
    ensures AlertKey(Refreshed(a, c.rule, s, now)) == CheckKey(c)
  {
  }

  /** Advancing a sound alert, or one just made for a breach, is sound. */
  lemma AdvanceOk(t: Tracked, told: Told, silence: Option<Silence>, c: Check, now: Time, recovery: Time)
    requires AlertKey(t.alert) == CheckKey(c) && t.alert.metric == c.rule.metric
    requires || TrackedOk(t, CheckKey(c), told)
             || (t == Fresh(c, silence, t.alert.id, now) && c.obs == Breach && told == Untold)
    ensures EffectOk(t, CheckKey(c), told, Advance(t, silence, c, now, recovery))
  {
    var timing := TimingOf(c.rule, recovery);
    var (s, tr) := Step(t.state, c.obs, now, timing);
    StepFacts(t.state, c.obs, now, timing);
    RefreshedKey(t.alert, c, s, now);
    ActOk(t, CheckKey(c), told, silence, s, tr, Refreshed(t.alert, c.rule, s, now), now, timing.repeat);
  }

  lemma ActOk(t: Tracked, k: Key, told: Told, silence: Option<Silence>, s: State, tr: Transition, a: Alert,
              now: Time, repeat: Time)
    requires AlertKey(t.alert) == AlertKey(a) == k
    requires a == t.alert.(rule := a.rule, critical := a.critical, since := a.since, silence := a.silence)
    requires a.since == if s.phase != Inactive then s.since else t.alert.since
    requires || TrackedOk(t, k, told)
             || (t.state.phase == Inactive && t.alert.stage == StagePending && !t.alert.notified
                 && t.alert.lastNotifiedAt.None? && told == Untold && s.phase != Inactive)
    requires match tr
             case Fire => t.state.phase != Firing && s.phase == Firing && s.firedAt == now && s.lastNotified == now
             case Remind => t.state.phase == Firing
                            && s == t.state.(clearSince := None, lastSeen := Some(now), lastNotified := now)
                            && 0 < repeat <= now - t.state.lastNotified
             case Resolve => t.state.phase == Firing
             case Stay => (t.state.phase == Firing <==> s.phase == Firing)
                          && (s.phase == Firing ==> s == t.state.(clearSince := s.clearSince, lastSeen := Some(now)))
    ensures EffectOk(t, k, told, Act(t, silence, s, tr, a, now, repeat))
  {
    hide MakeKey;
  }

  // ---- every operation keeps the invariant

  /** Alert `t` is what the world tracks under `k`, or is new to it. */
  ghost predicate Holds(w: World, k: Key, t: Tracked) {
    && t.alert.id < w.nextId
    && if k in w.active then w.active[k] == t
       else t.state.phase != Firing && t.alert.id !in w.stored
            && forall j :: j in w.active ==> w.active[j].alert.id != t.alert.id
  }

  /** An effect tells about its own alert only. */
  lemma ApplyTells(w: World, k: Key, t: Tracked, e: Effect, id: nat)
    requires e.notice.Some? ==> e.notice.value.alert.id == t.alert.id
    ensures ToldOf(Apply(w, k, e).log, id)
         == if id == t.alert.id then NewTold(ToldOf(w.log, id), e) else ToldOf(w.log, id)
  {
    hide ToldOf, Tell;
    if e.notice.Some? {
      ToldOfAppend(w.log, e.notice.value, id);
    }
  }

  lemma ApplyKeepsActive(w: World, k: Key, t: Tracked, e: Effect)
    requires Inv(w) && Holds(w, k, t) && EffectOk(t, k, ToldOf(w.log, t.alert.id), e)
    ensures ActiveOk(Apply(w, k, e)) && LogOk(Apply(w, k, e))
  {
    hide ToldOf, NewTold, TrackedOk, Agree, MakeKey, NothingLost;
    var w' := Apply(w, k, e);
    forall id: nat
      ensures ToldOf(w'.log, id) == if id == t.alert.id then NewTold(ToldOf(w.log, id), e) else ToldOf(w.log, id)
    {
      ApplyTells(w, k, t, e, id);
    }
  }

  lemma ApplyLosesNothing(w: World, k: Key, t: Tracked, e: Effect)
    requires Inv(w) && Holds(w, k, t) && EffectOk(t, k, ToldOf(w.log, t.alert.id), e)
    ensures NothingLost(Apply(w, k, e))
  {
    hide ToldOf, NewTold, TrackedOk, Agree, MakeKey, StoreAgrees, LogOk;
    var w' := Apply(w, k, e);
    forall id: nat | ToldOf(w'.log, id).Announced? ensures Tracks(w', id) {
      ApplyTells(w, k, t, e, id);
      if id == t.alert.id {
        assert k in w'.active && w'.active[k].alert.id == id;
      } else {
        var j :| j in w.active && w.active[j].alert.id == id;
        assert j in w'.active && w'.active[j].alert.id == id;
      }
    }
  }

  /** Every alert stored as firing is tracked as firing. */
  lemma ApplyKeepsStored(w: World, k: Key, t: Tracked, e: Effect, i: nat)
    requires Inv(w) && Holds(w, k, t) && EffectOk(t, k, ToldOf(w.log, t.alert.id), e)
    requires i in Apply(w, k, e).stored && Apply(w, k, e).stored[i].stage == StageFiring
    ensures var w' := Apply(w, k, e);
            && AlertKey(w'.stored[i]) in w'.active && w'.active[AlertKey(w'.stored[i])].alert.id == i
            && w'.active[AlertKey(w'.stored[i])].state.phase == Firing
  {
    hide ToldOf, Tell, MakeKey;
    if i != t.alert.id {
      assert AlertKey(w.stored[i]) != k;
    }
  }

  /** Every alert tracked as firing is stored as such. */
  lemma ApplyKeepsTracked(w: World, k: Key, t: Tracked, e: Effect, j: Key)
    requires Inv(w) && Holds(w, k, t) && EffectOk(t, k, ToldOf(w.log, t.alert.id), e)
    requires j in Apply(w, k, e).active && Apply(w, k, e).active[j].state.phase == Firing
    ensures var w' := Apply(w, k, e);
            w'.active[j].alert.id in w'.stored && Agree(w'.stored[w'.active[j].alert.id], w'.active[j].alert)
  {
    hide ToldOf, Tell, MakeKey;
    if j != k {
      assert w.active[j].alert.id != t.alert.id;
    }
  }

  lemma ApplyKeeps(w: World, k: Key, t: Tracked, e: Effect)
    requires Inv(w) && Holds(w, k, t) && EffectOk(t, k, ToldOf(w.log, t.alert.id), e)
    ensures Inv(Apply(w, k, e))
  {
    hide ToldOf, Tell, TrackedOk, Agree, MakeKey, NothingLost;
    ApplyKeepsActive(w, k, t, e);
    ApplyLosesNothing(w, k, t, e);
    var w' := Apply(w, k, e);
    forall i | i in w'.stored && w'.stored[i].stage == StageFiring
      ensures && AlertKey(w'.stored[i]) in w'.active && w'.active[AlertKey(w'.stored[i])].alert.id == i
              && w'.active[AlertKey(w'.stored[i])].state.phase == Firing
    {
      ApplyKeepsStored(w, k, t, e, i);
    }
    forall j | j in w'.active && w'.active[j].state.phase == Firing
      ensures w'.active[j].alert.id in w'.stored && Agree(w'.stored[w'.active[j].alert.id], w'.active[j].alert)
    {
      ApplyKeepsTracked(w, k, t, e, j);
    }
  }

  lemma FiringIsFiring(w: World, k: Key)
    requires Inv(w) && k in w.active
    ensures w.active[k].state.phase == Firing <==> w.active[k].alert.stage == StageFiring
    ensures AlertKey(w.active[k].alert) == k
  {
  }

  lemma FinishKeyKeeps(w: World, k: Key, now: Time)
    requires Inv(w) && k in w.active
    ensures Inv(FinishKey(w, k, now))
  {
    var t := w.active[k];
    FinishOk(t, k, ToldOf(w.log, t.alert.id), Get(w.silences, k), now);
    ApplyKeeps(w, k, t, Finish(t, Get(w.silences, k), now));
  }

  /** An id not handed out yet belongs to no alert, and handing it out changes nothing else. */
  lemma NewIdKeeps(w: World)
    requires Inv(w)
    ensures Inv(w.(nextId := w.nextId + 1)) && w.nextId !in w.stored && ToldOf(w.log, w.nextId) == Untold
    ensures forall j :: j in w.active ==> w.active[j].alert.id != w.nextId
  {
    hide ToldOf, TrackedOk, Agree, MakeKey;
    UnheardIsUntold(w.log, w.nextId);
  }

  lemma StartKeyKeeps(w: World, c: Check, now: Time, recovery: Time)
    requires Inv(w) && CheckKey(c) !in w.active
    ensures Inv(StartKey(w, c, now, recovery))
  {
    hide Inv, ToldOf, TrackedOk, Agree, MakeKey, Advance, EffectOk;
    if c.obs == Breach {
      var k := CheckKey(c);
      var silence := Get(w.silences, k);
      var t := Fresh(c, silence, w.nextId, now);
      NewIdKeeps(w);
      AdvanceOk(t, Untold, silence, c, now, recovery);
      ApplyKeeps(w.(nextId := w.nextId + 1), k, t, Advance(t, silence, c, now, recovery));
    }
  }

  lemma CheckWorldKeeps(w: World, c: Check, now: Time, recovery: Time)
    requires Inv(w)
    ensures Inv(CheckWorld(w, c, now, recovery))
  {
    var k := CheckKey(c);
    if k !in w.active {
      StartKeyKeeps(w, c, now, recovery);
    } else if w.active[k].alert.metric != c.rule.metric {
      FinishKeyKeeps(w, k, now);
      StartKeyKeeps(FinishKey(w, k, now), c, now, recovery);
    } else {
      var t := w.active[k];
      AdvanceOk(t, ToldOf(w.log, t.alert.id), Get(w.silences, k), c, now, recovery);
      ApplyKeeps(w, k, t, Advance(t, Get(w.silences, k), c, now, recovery));
    }
  }

  lemma {:induction false} CheckAllKeeps(w: World, checks: seq<Check>, now: Time, recovery: Time)
    requires Inv(w)
    ensures Inv(CheckAll(w, checks, now, recovery))
  {
    if checks != [] {
      var before := checks[..|checks| - 1];
      CheckAllKeeps(w, before, now, recovery);
      CheckWorldKeeps(CheckAll(w, before, now, recovery), checks[|checks| - 1], now, recovery);
    }
  }

  lemma {:induction false} FinishAllKeeps(w: World, keys: seq<Key>, now: Time)
    requires Inv(w)
    ensures Inv(FinishAll(w, keys, now))
  {
    if keys != [] {
      FinishAllKeeps(w, keys[..|keys| - 1], now);
      var before := FinishAll(w, keys[..|keys| - 1], now);
      if keys[|keys| - 1] in before.active {
        FinishKeyKeeps(before, keys[|keys| - 1], now);
      }
    }
  }

  lemma HushOk(t: Tracked, k: Key, told: Told, s: Option<Silence>, kept: Option<Silence>, now: Time)
    requires TrackedOk(t, k, told)
    ensures EffectOk(t, k, told, Hush(t, s, kept, now))
  {
    assert AlertKey(t.alert.(silence := s)) == AlertKey(t.alert);
    hide MakeKey;
  }

  lemma HushKeeps(w: World, k: Key, s: Option<Silence>, kept: Option<Silence>, now: Time)
    requires Inv(w) && k in w.active
    ensures Inv(Apply(w, k, Hush(w.active[k], s, kept, now)))
  {
    var t := w.active[k];
    HushOk(t, k, ToldOf(w.log, t.alert.id), s, kept, now);
    assert t.alert.id < w.nextId;
    hide ToldOf, EffectOk, Inv, Hush;
    ApplyKeeps(w, k, t, Hush(t, s, kept, now));
  }

  lemma {:induction false} RestoreAllHas(firing: seq<Alert>, now: Time, k: Key)
    requires forall a :: a in firing ==> a.firedAt.Some?
    ensures var m := RestoreAll(map[], firing, now);
            && (k in m <==> exists i :: 0 <= i < |firing| && AlertKey(firing[i]) == k)
            && (k in m ==>
                  exists i :: 0 <= i < |firing| && AlertKey(firing[i]) == k && m[k] == Restored(firing[i], now))
  {
    if firing != [] {
      RestoreAllHas(firing[..|firing| - 1], now, k);
      assert firing[|firing| - 1] in firing;
    }
  }

  /** A restart brings back exactly the firing alerts, as stored. */
  lemma RestartRestores(w: World, now: Time, firing: seq<Alert>, k: Key)
    requires Inv(w) && Lists(firing, StoredFiring(w))
    ensures var m := RestoreAll(map[], firing, now);
            && (k in m <==> k in w.active && w.active[k].state.phase == Firing)
            && (k in m ==>
                  && w.active[k].alert.id in w.stored && w.stored[w.active[k].alert.id].firedAt.Some?
                  && m[k] == Restored(w.stored[w.active[k].alert.id], now))
  {
    forall a | a in firing
      ensures a.id in w.stored && w.stored[a.id] == a && a.firedAt.Some?
      ensures AlertKey(a) in w.active && w.active[AlertKey(a)].alert.id == a.id
      ensures w.active[AlertKey(a)].state.phase == Firing
    {
      assert a in StoredFiring(w);
    }
    RestoreAllHas(firing, now, k);
    if k in w.active && w.active[k].state.phase == Firing {
      var a := w.stored[w.active[k].alert.id];
      assert a in StoredFiring(w) && a in firing && AlertKey(a) == k;
    }
  }

  lemma RestoredOk(a: Alert, t: Tracked, k: Key, told: Told, now: Time)
    requires TrackedOk(t, k, told) && t.state.phase == Firing && Agree(a, t.alert)
    ensures TrackedOk(Restored(a, now), k, told) && Restored(a, now).alert.id == t.alert.id
  {
  }

  lemma RestartKeepsKey(w: World, now: Time, firing: seq<Alert>, k: Key)
    requires Inv(w) && Lists(firing, StoredFiring(w))
    ensures var m := RestoreAll(map[], firing, now);
            && (k in m <==> k in w.active && w.active[k].state.phase == Firing)
            && (k in m ==>
                  && TrackedOk(m[k], k, ToldOf(w.log, m[k].alert.id)) && m[k].state.phase == Firing
                  && m[k].alert.id == w.active[k].alert.id
                  && m[k].alert.id in w.stored && m[k].alert == w.stored[m[k].alert.id])
  {
    RestartRestores(w, now, firing, k);
    if k in w.active && w.active[k].state.phase == Firing {
      var t := w.active[k];
      RestoredOk(w.stored[t.alert.id], t, k, ToldOf(w.log, t.alert.id), now);
    }
  }

  lemma RestartKeeps(w: World, now: Time, firing: seq<Alert>, recent: seq<Alert>)
    requires Inv(w) && Lists(firing, StoredFiring(w))
    ensures Inv(Do(w, Restart(now, firing, recent)))
  {
    var m := RestoreAll(map[], firing, now);
    forall k
      ensures k in m <==> k in w.active && w.active[k].state.phase == Firing
      ensures k in m ==>
                && TrackedOk(m[k], k, ToldOf(w.log, m[k].alert.id)) && m[k].state.phase == Firing
                && m[k].alert.id == w.active[k].alert.id
                && m[k].alert.id in w.stored && m[k].alert == w.stored[m[k].alert.id]
    {
      RestartKeepsKey(w, now, firing, k);
    }
    var w' := Do(w, Restart(now, firing, recent));
    SubsetKeepsActive(w, w');
    SubsetKeepsStore(w, w');
    SubsetLosesNothing(w, w');
  }

  /** A world that differs in tracking the firing alerts only, as stored. */
  ghost predicate TracksStored(w: World, w': World) {
    && w'.stored == w.stored && w'.log == w.log && w'.nextId == w.nextId
    && (forall k :: k in w'.active <==> k in w.active && w.active[k].state.phase == Firing)
    && (forall k :: k in w'.active ==>
          && TrackedOk(w'.active[k], k, ToldOf(w.log, w'.active[k].alert.id)) && w'.active[k].state.phase == Firing
          && w'.active[k].alert.id == w.active[k].alert.id
          && w'.active[k].alert.id in w.stored && w'.active[k].alert == w.stored[w'.active[k].alert.id])
  }

  lemma SubsetKeepsActive(w: World, w': World)
    requires Inv(w) && TracksStored(w, w')
    ensures ActiveOk(w') && LogOk(w')
  {
    hide ToldOf, TrackedOk, MakeKey;
  }

  lemma SubsetLosesNothing(w: World, w': World)
    requires Inv(w) && TracksStored(w, w')
    ensures NothingLost(w')
  {
    hide ToldOf, MakeKey, StoreAgrees, LogOk;
    forall id: nat | ToldOf(w'.log, id).Announced? ensures Tracks(w', id) {
      var k :| k in w.active && w.active[k].alert.id == id;
      assert k in w'.active && w'.active[k].alert.id == id;
    }
  }

  lemma SubsetKeepsStore(w: World, w': World)
    requires Inv(w) && TracksStored(w, w')
    ensures StoreAgrees(w')
  {
    hide ToldOf, MakeKey;
  }

  lemma PruneKeeps(w: World, ids: set<nat>)
    requires Inv(w) && Possible(w, Prune(ids))
    ensures Inv(Do(w, Prune(ids)))
  {
    hide ToldOf, MakeKey;
  }

  lemma ExpireKeeps(w: World, now: Time)
    requires Inv(w)
    ensures Inv(ExpireSilences(w, now))
  {
    hide ToldOf, TrackedOk, Agree, MakeKey;
  }

  lemma OpKeeps(w: World, op: Op)
    requires Inv(w) && Possible(w, op)
    ensures Inv(Do(w, op))
  {
    hide Inv, CheckAll, FinishAll, Hush, RestoreAll, RecallAll;
    match op
    case Evaluate(now, _, recovery, _, ended) =>
      CheckAllKeeps(w, ChecksOf(op), now, recovery);
      FinishAllKeeps(Checked(w, op), ended, now);
      ExpireKeeps(FinishAll(Checked(w, op), ended, now), now);
    case SilenceOp(k, s, now) =>
      HushKeeps(w, k, Some(s), Get(w.silences, k), now);
    case UnsilenceOp(k, now) =>
      HushKeeps(w, k, None, None, now);
    case Restart(now, firing, recent) =>
      RestartKeeps(w, now, firing, recent);
    case Prune(ids) =>
      PruneKeeps(w, ids);
  }

  /** The invariant holds after every possible run from an empty server. */
  lemma {:induction false} RunKeeps(ops: seq<Op>)
    requires PossibleRun(Empty, ops)
    ensures Inv(RunFrom(Empty, ops))
  {
    if ops != [] {
      RunKeeps(ops[..|ops| - 1]);
      OpKeeps(RunFrom(Empty, ops[..|ops| - 1]), ops[|ops| - 1]);
    }
  }

  // ---- what the log says

  /** The notices of one alert, in order: Fire, then reminders, then Resolve, and nothing else. */
  ghost predicate WellTold(log: seq<Notice>) {
    && (forall j :: 0 <= j < |log| ==> log[j].kind != Stay)
    && (forall i, j :: 0 <= i < j < |log| && log[i].alert.id == log[j].alert.id ==>
          && log[i].kind != Resolve
          && log[j].kind != Fire
          && (log[j].kind == Remind ==> log[j].at - log[i].at >= log[j].repeat > 0))
    && (forall j :: 0 <= j < |log| && log[j].kind != Fire ==>
          exists i :: 0 <= i < j && log[i].alert.id == log[j].alert.id && log[i].kind == Fire)
  }

  ghost predicate Said(log: seq<Notice>, id: nat, kind: Transition) {
    exists i :: 0 <= i < |log| && log[i].alert.id == id && log[i].kind == kind
  }

  /** What one alert's state of telling says about the notices so far. */
  ghost predicate Explains(log: seq<Notice>, id: nat, told: Told) {
    && (told.Untold? <==> forall i :: 0 <= i < |log| ==> log[i].alert.id != id)
    && (told.Announced? ==>
          && (forall i :: 0 <= i < |log| && log[i].alert.id == id ==> log[i].kind != Resolve && log[i].at <= told.at)
          && Said(log, id, Fire))
    && (told.Done? ==> Said(log, id, Resolve))
  }

  lemma {:induction false} Explained(log: seq<Notice>, id: nat)
    requires ToldOf(log, id) != Broken
    ensures Explains(log, id, ToldOf(log, id))
  {
    if log != [] {
      var before := log[..|log| - 1];
      var n := log[|log| - 1];
      Explained(before, id);
      forall kind | Said(before, id, kind) ensures Said(log, id, kind) {
        var i :| 0 <= i < |before| && before[i].alert.id == id && before[i].kind == kind;
        assert log[i].alert.id == id && log[i].kind == kind;
      }
      if n.alert.id == id {
        assert Said(log, id, n.kind);
      }
    }
  }

  lemma WellToldAppend(log: seq<Notice>, n: Notice, told: Told)
    requires WellTold(log) && Explains(log, n.alert.id, told) && Tell(told, n) != Broken
    ensures WellTold(log + [n])
  {
    var all := log + [n];
    forall j | 0 <= j < |all| && all[j].kind != Fire
      ensures exists i :: 0 <= i < j && all[i].alert.id == all[j].alert.id && all[i].kind == Fire
    {
      var i :| 0 <= i < |log| && i < j && log[i].alert.id == all[j].alert.id && log[i].kind == Fire;
      assert all[i] == log[i];
    }
  }

  lemma {:induction false} LogWellTold(log: seq<Notice>)
    requires forall id: nat :: ToldOf(log, id) != Broken
    ensures WellTold(log)
  {
    if log != [] {
      var before := log[..|log| - 1];
      var n := log[|log| - 1];
      assert log == before + [n];
      forall id: nat ensures ToldOf(before, id) != Broken {
        ToldOfAppend(before, n, id);
      }
      LogWellTold(before);
      ToldOfAppend(before, n, n.alert.id);
      Explained(before, n.alert.id);
      WellToldAppend(before, n, ToldOf(before, n.alert.id));
    }
  }

  /**
   Over every interleaving of evaluations, silences, prunings and restarts, each alert
   fires at most once, is reminded of and resolved only after it fired, never after it
   resolved, and reminders keep the rule's interval from the notice before them.
   */
  lemma NoticesInOrder(ops: seq<Op>)
    requires PossibleRun(Empty, ops)
    ensures WellTold(RunFrom(Empty, ops).log)
  {
    RunKeeps(ops);
    LogWellTold(RunFrom(Empty, ops).log);
  }

  /** An alert is firing, was announced, and is stored so. */
  ghost predicate OpenAt(w: World, k: Key, id: nat) {
    && k in w.active && w.active[k].alert.id == id
    && w.active[k].state.phase == Firing && w.active[k].alert.notified
    && id in w.stored && w.stored[id].stage == StageFiring && w.stored[id].notified
  }

  /**
   No resolution is lost: at any point of any run, restarts included, the alerts announced and not
   yet announced as resolved are exactly the notified ones in progress, in memory and in the store.
   */
  lemma NoResolutionLost(ops: seq<Op>, id: nat)
    requires PossibleRun(Empty, ops)
    ensures var w := RunFrom(Empty, ops);
            Said(w.log, id, Fire) && !Said(w.log, id, Resolve) <==> exists k :: OpenAt(w, k, id)
  {
    hide ToldOf, MakeKey;
    RunKeeps(ops);
    var w := RunFrom(Empty, ops);
    Explained(w.log, id);
    if ToldOf(w.log, id).Announced? {
      var k :| k in w.active && w.active[k].alert.id == id;
      assert OpenAt(w, k, id);
    }
    forall k | OpenAt(w, k, id) ensures ToldOf(w.log, id).Announced? {
      assert TrackedOk(w.active[k], k, ToldOf(w.log, id));
    }
  }

  // ---- after an evaluation

  lemma {:induction false} FinishAllRemoves(w: World, keys: seq<Key>, now: Time)
    ensures FinishAll(w, keys, now).active == w.active - (set k | k in keys)
  {
    if keys != [] {
      var before := keys[..|keys| - 1];
      FinishAllRemoves(w, before, now);
      assert keys == before + [keys[|keys| - 1]];
      assert (set k | k in keys) == (set k | k in before) + {keys[|keys| - 1]};
    }
  }

  /**
   After every evaluation of every run, each entry is pending or firing, agrees with its
   alert, and belongs to a rule that was in force in that evaluation.
   */
  lemma AfterEvaluation(ops: seq<Op>, op: Op, k: Key)
    requires PossibleRun(Empty, ops) && op.Evaluate? && Possible(RunFrom(Empty, ops), op)
    requires k in Do(RunFrom(Empty, ops), op).active
    ensures op.enabled && exists c :: c in op.checks && CheckKey(c) == k
    ensures var t := Do(RunFrom(Empty, ops), op).active[k];
            || (t.state.phase == Pending && t.alert.stage == StagePending)
            || (t.state.phase == Firing && t.alert.stage == StageFiring)
  {
    var w := RunFrom(Empty, ops);
    RunKeeps(ops);
    OpKeeps(w, op);
    FinishAllRemoves(Checked(w, op), op.ended, op.now);
    assert k in Seen(ChecksOf(op));
  }
}
