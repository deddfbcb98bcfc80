/**
 No firing alert stays unannounced for longer than its silence, but for one case: an evaluation at
 which a reminder is due announces nothing for an alert that was never announced, and leaves it to
 the next.
 */
module AlertAnnouncements {
  import opened Basics
  import opened AlertState
  import opened AlertModel
  import opened AlertSafety
  import opened AlertRefinement

  predicate SilencedAt(a: Alert, now: Time) {
    a.silence.Some? && a.silence.value.Active(now)
  }

  /** The check finds the limit passed, and the last fire or reminder of `s` is a full interval ago. */
  predicate ReminderDue(s: State, c: Check, now: Time) {
    c.obs == Breach && c.rule.repeatHours > 0 && now - s.lastNotified >= c.rule.repeatHours * HOUR
  }

  /** The check finds no breach, as every watched one has since the recovery period began, or that period is nil. */
  predicate RecoveryDue(s: State, c: Check, now: Time, recovery: Time) {
    var watched := s.clearSince.Some? && !(s.lastSeen.Some? && now - s.lastSeen.value > MAX_GAP);
    c.obs != Breach && (if watched then now - s.clearSince.value else 0) >= recovery
  }

  lemma RepeatPositive(hours: int)
    ensures hours * HOUR > 0 <==> hours > 0
  {
  }

  lemma WhatIsDue(s: State, c: Check, now: Time, recovery: Time)
    requires s.phase == Firing
    ensures Step(s, c.obs, now, TimingOf(c.rule, recovery)).1 == Remind <==> ReminderDue(s, c, now)
    ensures Step(s, c.obs, now, TimingOf(c.rule, recovery)).1 == Resolve <==> RecoveryDue(s, c, now, recovery)
  {
    RepeatPositive(c.rule.repeatHours);
  }

  /** Firing and neither silenced nor announced. */
  predicate Unannounced(t: Option<Tracked>) {
    t.Some? && t.value.state.phase == Firing && t.value.alert.silence.None? && !t.value.alert.notified
  }

  /** Firing unannounced under the rule's metric, with no silence in force at `now`: an announcement is owed. */
  predicate Owed(t: Option<Tracked>, c: Check, now: Time) {
    && t.Some? && t.value.state.phase == Firing && !t.value.alert.notified
    && t.value.alert.metric == c.rule.metric && !SilencedAt(t.value.alert, now)
  }

  // ---- one check

  /** What a check leaves under its key is unannounced exactly when an announcement was owed and a reminder was due. */
  ghost predicate Settled(before: Option<Tracked>, after: Option<Tracked>, c: Check, now: Time) {
    Unannounced(after) <==> Owed(before, c, now) && ReminderDue(before.value.state, c, now)
  }

  /** An announcement owed is made, unless a reminder is due or the alert is over. */
  ghost predicate PaidUnlessDue(before: Option<Tracked>, after: Option<Tracked>, c: Check, now: Time, recovery: Time) {
    Owed(before, c, now) ==>
      if RecoveryDue(before.value.state, c, now, recovery) then after.None?
      else
        && after.Some? && after.value.state.phase == Firing && after.value.alert.id == before.value.alert.id
        && (after.value.alert.notified <==> !ReminderDue(before.value.state, c, now))
  }

  lemma AdvanceSettles(t: Tracked, told: Told, silence: Option<Silence>, c: Check, now: Time, recovery: Time)
    requires t.alert.metric == c.rule.metric && (TrackedOk(t, CheckKey(c), told) || t.state.phase == Inactive)
    ensures var after := Advance(t, silence, c, now, recovery).tracked;
            Settled(Some(t), after, c, now) && PaidUnlessDue(Some(t), after, c, now, recovery)
  {
    hide Step, MakeKey;
    StepFacts(t.state, c.obs, now, TimingOf(c.rule, recovery));
    if t.state.phase == Firing {
      WhatIsDue(t.state, c, now, recovery);
    }
  }

  lemma StartSettles(w: World, c: Check, now: Time, recovery: Time)
    requires CheckKey(c) !in w.active
    ensures !Unannounced(Get(StartKey(w, c, now, recovery).active, CheckKey(c)))
  {
    hide Advance, MakeKey;
    if c.obs == Breach {
      var silence := Get(w.silences, CheckKey(c));
      AdvanceSettles(Fresh(c, silence, w.nextId, now), Untold, silence, c, now, recovery);
    }
  }

  lemma CheckSettles(w: World, c: Check, now: Time, recovery: Time)
    requires Inv(w)
    ensures var before, after := Get(w.active, CheckKey(c)), Get(CheckWorld(w, c, now, recovery).active, CheckKey(c));
            Settled(before, after, c, now) && PaidUnlessDue(before, after, c, now, recovery)
  {
    hide Advance, MakeKey, StartKey, ToldOf;
    var k := CheckKey(c);
    if k !in w.active {
      StartSettles(w, c, now, recovery);
    } else if w.active[k].alert.metric != c.rule.metric {
      StartSettles(FinishKey(w, k, now), c, now, recovery);
    } else {
      AdvanceSettles(w.active[k], ToldOf(w.log, w.active[k].alert.id), Get(w.silences, k), c, now, recovery);
    }
  }

  // ---- one evaluation

  /** In an evaluation a key sees one check at most: the one found for it, in a world that holds what it held before. */
  lemma {:induction false} CheckedOnce(w: World, checks: seq<Check>, now: Time, recovery: Time, k: Key)
    returns (w1: World)
    requires Inv(w) && DistinctKeys(checks)
    ensures Inv(w1) && Get(w1.active, k) == Get(w.active, k)
    ensures match CheckOf(checks, k)
            case Some(c) =>
              Get(CheckAll(w, checks, now, recovery).active, k)
           == Get((if c.hold then w else CheckWorld(w1, c, now, recovery)).active, k)
            case None => Get(CheckAll(w, checks, now, recovery).active, k) == Get(w.active, k)
  {
    hide Inv, CheckWorld, CheckKey;
    w1 := w;
    if checks != [] {
      var before, last := checks[..|checks| - 1], checks[|checks| - 1];
      w1 := CheckedOnce(w, before, now, recovery, k);
      var w2 := CheckAll(w, before, now, recovery);
      if CheckKey(last) == k {
        CheckOfIsIn(before, k);
        CheckAllKeeps(w, before, now, recovery);
        w1 := w2;
      } else {
        CheckLeavesOthers(w2, last, now, recovery, k);
      }
    }
  }

  lemma EvaluationSettles(w: World, op: Op, k: Key)
    requires Inv(w) && op.Evaluate? && Possible(w, op)
    requires CheckOf(ChecksOf(op), k).Some? && !CheckOf(ChecksOf(op), k).value.hold
    ensures var c, before, after := CheckOf(ChecksOf(op), k).value, Get(w.active, k), Get(Do(w, op).active, k);
            Settled(before, after, c, op.now) && PaidUnlessDue(before, after, c, op.now, op.recovery)
  {
    hide Inv, CheckWorld, CheckAll, CheckKey, Settled, PaidUnlessDue;
    var w1 := CheckedOnce(w, ChecksOf(op), op.now, op.recovery, k);
    CheckOfIsIn(ChecksOf(op), k);
    CheckSettles(w1, CheckOf(ChecksOf(op), k).value, op.now, op.recovery);
    FinishAllRemoves(Checked(w, op), op.ended, op.now);
  }

  // ---- runs

  /**
   After every evaluation of any run, an alert checked in it is firing, not silenced and unannounced if and
   only if it was firing unannounced before, its silence is over, and a reminder was due at the check.
   */
  lemma AnnouncedAfterEvaluation(ops: seq<Op>, op: Op, k: Key)
    requires PossibleRun(Empty, ops) && op.Evaluate? && Possible(RunFrom(Empty, ops), op)
    requires CheckOf(ChecksOf(op), k).Some? && !CheckOf(ChecksOf(op), k).value.hold
    ensures var c := CheckOf(ChecksOf(op), k).value;
            var before := Get(RunFrom(Empty, ops).active, k);
            Unannounced(Get(Do(RunFrom(Empty, ops), op).active, k)) <==>
              Owed(before, c, op.now) && ReminderDue(before.value.state, c, op.now)
  {
    hide Do, CheckKey;
    RunKeeps(ops);
    EvaluationSettles(RunFrom(Empty, ops), op, k);
  }

  /**
   At any point of any run, a firing alert that was never announced and is not silenced is announced by the
   evaluation that checks it next, and open in memory and in the store, if and only if neither a reminder
   nor its recovery is due at that check.
   */
  lemma AnnouncedExactly(ops: seq<Op>, op: Op, k: Key)
    requires PossibleRun(Empty, ops) && op.Evaluate? && Possible(RunFrom(Empty, ops), op)
    requires CheckOf(ChecksOf(op), k).Some? && !CheckOf(ChecksOf(op), k).value.hold
    requires Owed(Get(RunFrom(Empty, ops).active, k), CheckOf(ChecksOf(op), k).value, op.now)
    ensures var t, c, w := RunFrom(Empty, ops).active[k], CheckOf(ChecksOf(op), k).value, Do(RunFrom(Empty, ops), op);
            && !Said(RunFrom(Empty, ops).log, t.alert.id, Fire)
            && (OpenAt(w, k, t.alert.id) <==>
                !ReminderDue(t.state, c, op.now) && !RecoveryDue(t.state, c, op.now, op.recovery))
            && (OpenAt(w, k, t.alert.id) ==> Said(w.log, t.alert.id, Fire))
  {
    hide Do, CheckKey, ToldOf, AlertKey;
    var w := RunFrom(Empty, ops);
    var id := w.active[k].alert.id;
    RunKeeps(ops);
    Explained(w.log, id);
    EvaluationSettles(w, op, k);
    OpKeeps(w, op);
    Explained(Do(w, op).log, id);
  }

  // ---- an announcement swallowed

  /** The only alert there is, with nothing announced and no silence kept for later. */
  ghost predicate Only(w: World, k: Key, s: State, metric: string, silence: Option<Silence>) {
    && w.active.Keys == {k} && w.silences == map[] && w.log == []
    && var t := w.active[k];
       t.state == s && t.alert.metric == metric && t.alert.silence == silence && !t.alert.notified
       && t.alert.stage == if s.phase == Firing then StageFiring else StagePending
  }

  lemma OneMoreOp(ops: seq<Op>, op: Op)
    requires PossibleRun(Empty, ops) && Possible(RunFrom(Empty, ops), op)
    ensures PossibleRun(Empty, ops + [op]) && RunFrom(Empty, ops + [op]) == Do(RunFrom(Empty, ops), op)
  {
    assert (ops + [op])[..|ops|] == ops;
  }

  lemma OnlyCheck(w: World, c: Check, now: Time)
    requires !c.hold && CheckWorld(w, c, now, MINUTE).active.Keys == {CheckKey(c)}
    requires CheckWorld(w, c, now, MINUTE).silences == map[]
    ensures var op := Evaluate(now, true, MINUTE, [c], []);
            Possible(w, op) && Do(w, op) == CheckWorld(w, c, now, MINUTE)
            && CheckOf(ChecksOf(op), CheckKey(c)) == Some(c)
  {
    hide CheckWorld, CheckKey;
    assert [c][..0] == [] && Seen([c]) == {CheckKey(c)};
    assert CheckAll(w, [c][..0], now, MINUTE) == w;
  }

  lemma FirstBreach(c: Check)
    requires c.obs == Breach && c.rule.forMinutes == 1
    ensures Only(CheckWorld(Empty, c, 0, MINUTE), CheckKey(c), State(Pending, 0, 0, None, Some(0), 0),
                 c.rule.metric, None)
  {
    hide MakeKey;
  }

  lemma FiresSilenced(w: World, c: Check)
    requires c.obs == Breach && c.rule.forMinutes == 1
    requires Only(w, CheckKey(c), State(Pending, 0, 0, None, Some(0), 0), c.rule.metric, Some(Silence(None)))
    ensures Only(CheckWorld(w, c, MINUTE, MINUTE), CheckKey(c), State(Firing, 0, MINUTE, None, Some(MINUTE), MINUTE),
                 c.rule.metric, Some(Silence(None)))
  {
    hide MakeKey;
  }

  lemma RemindsNobody(w: World, c: Check)
    requires c.obs == Breach && c.rule.repeatHours == 1
    requires Only(w, CheckKey(c), State(Firing, 0, MINUTE, None, Some(MINUTE), MINUTE), c.rule.metric, None)
    ensures Only(CheckWorld(w, c, MINUTE + HOUR, MINUTE), CheckKey(c),
                 State(Firing, 0, MINUTE, None, Some(MINUTE + HOUR), MINUTE + HOUR), c.rule.metric, None)
  {
    hide MakeKey;
  }

  lemma HushOnly(w: World, k: Key, s: State, metric: string, silence: Option<Silence>, now: Time)
    requires Only(w, k, s, metric, silence)
    ensures Only(Do(w, SilenceOp(k, Silence(None), now)), k, s, metric, Some(Silence(None)))
    ensures Only(Do(w, UnsilenceOp(k, now)), k, s, metric, None)
  {
  }

  /**
   A rule that fires after a minute and reminds after an hour: silenced while pending, fired, unsilenced,
   and checked again only when the reminder is due, the alert is still not announced.
   */
  lemma ReminderSwallowsAnnouncement() returns (ops: seq<Op>, op: Op, k: Key)
    ensures PossibleRun(Empty, ops + [op]) && op.Evaluate? && CheckOf(ChecksOf(op), k).Some?
    ensures Owed(Get(RunFrom(Empty, ops).active, k), CheckOf(ChecksOf(op), k).value, op.now)
    ensures Unannounced(Get(RunFrom(Empty, ops + [op]).active, k)) && RunFrom(Empty, ops + [op]).log == []
  {
    hide CheckWorld, Do, Possible, CheckKey, RunFrom, PossibleRun, CheckOf, ChecksOf;
    var c := Check(Rule("r", "m", false, 1, 1), "", "", false, Breach);
    k := CheckKey(c);
    ops := [];
    EmptyRun();
    FirstBreach(c);
    OnlyCheck(Empty, c, 0);
    ops := Extended(ops, Evaluate(0, true, MINUTE, [c], []));
    HushOnly(RunFrom(Empty, ops), k, State(Pending, 0, 0, None, Some(0), 0), "m", None, 0);
    HushPossible(RunFrom(Empty, ops), k, 0);
    ops := Extended(ops, SilenceOp(k, Silence(None), 0));
    FiresSilenced(RunFrom(Empty, ops), c);
    OnlyCheck(RunFrom(Empty, ops), c, MINUTE);
    ops := Extended(ops, Evaluate(MINUTE, true, MINUTE, [c], []));
    HushOnly(RunFrom(Empty, ops), k, State(Firing, 0, MINUTE, None, Some(MINUTE), MINUTE), "m", Some(Silence(None)),
             MINUTE);
    HushPossible(RunFrom(Empty, ops), k, MINUTE);
    ops := Extended(ops, UnsilenceOp(k, MINUTE));
    RemindsNobody(RunFrom(Empty, ops), c);
    OnlyCheck(RunFrom(Empty, ops), c, MINUTE + HOUR);
    op := Evaluate(MINUTE + HOUR, true, MINUTE, [c], []);
    OneMoreOp(ops, op);
  }

  lemma EmptyRun()
    ensures PossibleRun(Empty, []) && RunFrom(Empty, []) == Empty
  {
  }

  lemma HushPossible(w: World, k: Key, now: Time)
    requires k in w.active
    ensures Possible(w, SilenceOp(k, Silence(None), now)) && Possible(w, UnsilenceOp(k, now))
  {
  }

  lemma Extended(ops: seq<Op>, op: Op) returns (all: seq<Op>)
    requires PossibleRun(Empty, ops) && Possible(RunFrom(Empty, ops), op)
    ensures PossibleRun(Empty, all) && RunFrom(Empty, all) == Do(RunFrom(Empty, ops), op)
  {
    OneMoreOp(ops, op);
    all := ops + [op];
  }
}
