/**
 The engine's sparse map of alerts in progress refines one state machine per key,
 present or not; and a timed silence on a firing alert keeps its key quiet until it ends.
 */
module AlertRefinement {
  import opened Basics
  import opened AlertState
  import opened AlertModel
  import opened AlertSafety

  // ---- the specification: one machine for every key

  /** A key's machine and the metric it watches. */
  datatype Machine = Machine(state: State, metric: string)

  /** The check of `k` in an evaluation, if it has one. */
  function CheckOf(checks: seq<Check>, k: Key): Option<Check> {
    if checks == [] then None
    else
      var last := checks[|checks| - 1];
      if CheckKey(last) == k then Some(last) else CheckOf(checks[..|checks| - 1], k)
  }

  /** A rule that now watches something else starts from scratch. */
  function SpecCheck(m: Machine, c: Check, now: Time, recovery: Time): Machine {
    var s := if m.metric == c.rule.metric then m.state else Blank(None);
    Machine(Step(s, c.obs, now, TimingOf(c.rule, recovery)).0, c.rule.metric)
  }

  function SpecOp(m: Machine, k: Key, op: Op): Machine {
    match op
    case Evaluate(now, _, recovery, _, _) =>
      (match CheckOf(ChecksOf(op), k)
       case None => m.(state := Blank(None))
       case Some(c) => if c.hold then m else SpecCheck(m, c, now, recovery))
    case Restart(_, _, _) =>
      // Only firing survives, watched anew.
      m.(state := if m.state.phase == Firing then m.state.(clearSince := None, lastSeen := None) else Blank(None))
    case _ => m
  }

  function SpecRun(ops: seq<Op>, k: Key): Machine {
    if ops == [] then Machine(Blank(None), "") else SpecOp(SpecRun(ops[..|ops| - 1], k), k, ops[|ops| - 1])
  }

  /** Equal but for `lastNotified`, which a late announcement moves. */
  predicate Same(s: State, t: State) {
    s == t.(lastNotified := s.lastNotified)
  }

  /** What the map holds for a key stands for its machine; no entry stands for any inactive one. */
  predicate Stands(t: Option<Tracked>, m: Machine) {
    match t
    case None => m.state == Blank(m.state.lastSeen)
    case Some(t) => Same(t.state, m.state) && t.alert.metric == m.metric && t.state.phase != Inactive
  }

  /** Equal states step to equal states, with the same fires and resolutions. */
  lemma SameSteps(s: State, s': State, obs: Observation, now: Time, t: Timing)
    requires Same(s, s') || (s == Blank(s.lastSeen) && s' == Blank(s'.lastSeen) && obs == Breach)
    ensures Same(Step(s, obs, now, t).0, Step(s', obs, now, t).0)
    ensures Step(s, obs, now, t).1 == Fire <==> Step(s', obs, now, t).1 == Fire
    ensures Step(s, obs, now, t).1 == Resolve <==> Step(s', obs, now, t).1 == Resolve
  {
  }

  /** After an advance the entry is the stepped state, and it is gone exactly when that is inactive. */
  lemma AdvanceStands(t: Tracked, silence: Option<Silence>, c: Check, now: Time, recovery: Time)
    requires t.state.phase == Firing ==> t.alert.stage == StageFiring
    requires t.state.phase == Inactive ==> t.state == Blank(None)
    ensures var s := Step(t.state, c.obs, now, TimingOf(c.rule, recovery)).0;
            Stands(Advance(t, silence, c, now, recovery).tracked, Machine(s, c.rule.metric))
  {
    StepFacts(t.state, c.obs, now, TimingOf(c.rule, recovery));
  }

  lemma StartStands(w: World, c: Check, now: Time, recovery: Time, m: Machine)
    requires CheckKey(c) !in w.active && m.state == Blank(m.state.lastSeen)
    ensures Stands(Get(StartKey(w, c, now, recovery).active, CheckKey(c)), SpecCheck(m, c, now, recovery))
  {
    var s := if m.metric == c.rule.metric then m.state else Blank(None);
    if c.obs == Breach {
      SameSteps(Blank(None), s, c.obs, now, TimingOf(c.rule, recovery));
      AdvanceStands(Fresh(c, Get(w.silences, CheckKey(c)), w.nextId, now), Get(w.silences, CheckKey(c)), c, now,
                    recovery);
    }
  }

  lemma CheckStands(w: World, c: Check, now: Time, recovery: Time, m: Machine)
    requires Inv(w) && Stands(Get(w.active, CheckKey(c)), m)
    ensures Stands(Get(CheckWorld(w, c, now, recovery).active, CheckKey(c)), SpecCheck(m, c, now, recovery))
  {
    hide ToldOf, MakeKey;
    var k := CheckKey(c);
    if k !in w.active {
      StartStands(w, c, now, recovery, m);
    } else if w.active[k].alert.metric != c.rule.metric {
      StartStands(FinishKey(w, k, now), c, now, recovery, m.(state := Blank(None)));
    } else {
      SameSteps(w.active[k].state, m.state, c.obs, now, TimingOf(c.rule, recovery));
      AdvanceStands(w.active[k], Get(w.silences, k), c, now, recovery);
    }
  }

  lemma CheckLeavesOthers(w: World, c: Check, now: Time, recovery: Time, k: Key)
    requires CheckKey(c) != k
    ensures Get(CheckWorld(w, c, now, recovery).active, k) == Get(w.active, k)
  {
    hide CheckKey, Advance, Finish;
  }

  lemma {:induction false} CheckOfIsIn(checks: seq<Check>, k: Key)
    ensures CheckOf(checks, k).None? <==> k !in Seen(checks)
    ensures CheckOf(checks, k).Some? ==> CheckOf(checks, k).value in checks && CheckKey(CheckOf(checks, k).value) == k
  {
    if checks != [] {
      var before := checks[..|checks| - 1];
      CheckOfIsIn(before, k);
      assert checks == before + [checks[|checks| - 1]];
    }
  }

  lemma {:induction false} CheckAllStands(w: World, checks: seq<Check>, now: Time, recovery: Time, k: Key, m: Machine)
    requires Inv(w) && DistinctKeys(checks) && Stands(Get(w.active, k), m)
    ensures Stands(Get(CheckAll(w, checks, now, recovery).active, k),
                   match CheckOf(checks, k)
                   case None => m
                   case Some(c) => if c.hold then m else SpecCheck(m, c, now, recovery))
  {
    if checks != [] {
      var before := checks[..|checks| - 1];
      var last := checks[|checks| - 1];
      CheckAllStands(w, before, now, recovery, k, m);
      var w1 := CheckAll(w, before, now, recovery);
      if CheckKey(last) == k {
        CheckOfIsIn(before, k);
        if !last.hold {
          CheckAllKeeps(w, before, now, recovery);
          CheckStands(w1, last, now, recovery, m);
        }
      } else if !last.hold {
        CheckLeavesOthers(w1, last, now, recovery, k);
      }
    }
  }

  lemma EvaluateStands(w: World, op: Op, k: Key, m: Machine)
    requires Inv(w) && op.Evaluate? && Possible(w, op) && Stands(Get(w.active, k), m)
    ensures Stands(Get(Do(w, op).active, k), SpecOp(m, k, op))
  {
    var checks := ChecksOf(op);
    CheckAllStands(w, checks, op.now, op.recovery, k, m);
    FinishAllRemoves(Checked(w, op), op.ended, op.now);
    CheckOfIsIn(checks, k);
  }

  lemma RestartStands(w: World, op: Op, k: Key, m: Machine)
    requires Inv(w) && op.Restart? && Possible(w, op) && Stands(Get(w.active, k), m)
    ensures Stands(Get(Do(w, op).active, k), SpecOp(m, k, op))
  {
    RestartRestores(w, op.now, op.firing, k);
  }

  lemma OpStands(w: World, op: Op, k: Key, m: Machine)
    requires Inv(w) && Possible(w, op) && Stands(Get(w.active, k), m)
    ensures Stands(Get(Do(w, op).active, k), SpecOp(m, k, op))
  {
    hide Inv;
    if op.Evaluate? {
      EvaluateStands(w, op, k, m);
    } else if op.Restart? {
      RestartStands(w, op, k, m);
    }
  }

  /**
   After every possible run, restarts included, what the engine tracks under a key is
   that key's machine, and it tracks nothing exactly when the machine is inactive.
   */
  lemma {:induction false} EngineRefinesMachines(ops: seq<Op>, k: Key)
    requires PossibleRun(Empty, ops)
    ensures Stands(Get(RunFrom(Empty, ops).active, k), SpecRun(ops, k))
  {
    if ops != [] {
      var before := ops[..|ops| - 1];
      EngineRefinesMachines(before, k);
      RunKeeps(before);
      OpStands(RunFrom(Empty, before), ops[|ops| - 1], k, SpecRun(before, k));
    }
  }

  // ---- machines and histories

  /** The evaluations of a key since it was last started over, and the metric they measured. */
  datatype Watch = Watch(history: History, metric: string)

  function WatchOp(x: Watch, k: Key, op: Op): Watch {
    if !op.Evaluate? then x
    else
      match CheckOf(ChecksOf(op), k)
      case None => x.(history := [])
      case Some(c) =>
        if c.hold then x
        else
          var e := [Eval(c.obs, op.now, TimingOf(c.rule, op.recovery))];
          Watch(if x.metric == c.rule.metric then x.history + e else e, c.rule.metric)
  }

  function Watched(ops: seq<Op>, k: Key): Watch {
    if ops == [] then Watch([], "") else WatchOp(Watched(ops[..|ops| - 1], k), k, ops[|ops| - 1])
  }

  lemma {:induction false} StateAtPrefix(h: History, h': History, n: nat)
    requires n <= |h| <= |h'| && h == h'[..|h|]
    ensures StateAt(h, n) == StateAt(h', n)
  {
    if n > 0 {
      StateAtPrefix(h, h', n - 1);
    }
  }

  /** Without a restart, a key's entry is the state machine run over the key's own history. */
  lemma {:induction false} EngineFollowsHistory(ops: seq<Op>, k: Key)
    requires forall op :: op in ops ==> !op.Restart?
    ensures SpecRun(ops, k).metric == Watched(ops, k).metric
    ensures SpecRun(ops, k).state == StateAt(Watched(ops, k).history, |Watched(ops, k).history|)
  {
    hide Step, TimingOf;
    if ops != [] {
      var before := ops[..|ops| - 1];
      EngineFollowsHistory(before, k);
      var h := Watched(before, k).history;
      var h' := Watched(ops, k).history;
      if |h'| == |h| + 1 && h'[..|h|] == h {
        StateAtPrefix(h, h', |h|);
      }
      assert ops[|ops| - 1] in ops;
      if |h'| == 1 {
        assert StateAt(h', 0) == Blank(None);
      }
    }
  }

  /**
   So in a run without a restart the engine tracks a key exactly when the state machine, run over
   that key's own history, is pending or firing, and then in its state, but for the time
   of the last notice.
   */
  lemma EngineRunsTheMachine(ops: seq<Op>, k: Key)
    requires PossibleRun(Empty, ops) && forall op :: op in ops ==> !op.Restart?
    ensures var h := Watched(ops, k).history;
            var s := StateAt(h, |h|);
            && (k in RunFrom(Empty, ops).active <==> s.phase != Inactive)
            && (k in RunFrom(Empty, ops).active ==> Same(RunFrom(Empty, ops).active[k].state, s))
  {
    hide SpecRun, RunFrom, Watched, StateAt;
    EngineRefinesMachines(ops, k);
    EngineFollowsHistory(ops, k);
  }

  // ---- silences

  /** Key `k` is under a timed silence until `u`, wherever the engine keeps it. */
  ghost predicate Hushed(w: World, k: Key, u: Time) {
    var s := Silence(Some(u));
    && (k in w.active ==> w.active[k].alert.silence == Some(s))
    && (k !in w.active || w.active[k].state.phase == Pending ==> Get(w.silences, k) == Some(s))
  }

  /** From `w` to `w'` at time `now`, the notices for `k` are dated `now`, and none but resolutions while hushed. */
  ghost predicate Hushing(w: World, w': World, k: Key, u: Time, now: Time) {
    && w.log <= w'.log
    && (now < u && Hushed(w, k, u) ==> Hushed(w', k, u))
    && (forall i :: |w.log| <= i < |w'.log| && AlertKey(w'.log[i].alert) == k ==>
          w'.log[i].at == now && (now < u && Hushed(w, k, u) ==> w'.log[i].kind == Resolve))
  }

  lemma NoticeKeys(t: Tracked, silence: Option<Silence>, c: Check, now: Time, recovery: Time)
    requires AlertKey(t.alert) == CheckKey(c)
    ensures var e := Advance(t, silence, c, now, recovery);
            e.notice.Some? ==> AlertKey(e.notice.value.alert) == CheckKey(c) && e.notice.value.at == now
  {
    var s := Step(t.state, c.obs, now, TimingOf(c.rule, recovery)).0;
    RefreshedKey(t.alert, c, s, now);
  }

  /** An effect on a key under a timed silence until `u` announces no more than its end, and keeps the silence. */
  predicate Hushes(e: Effect, u: Time) {
    var s := Some(Silence(Some(u)));
    && (e.notice.Some? ==> e.notice.value.kind == Resolve)
    && (e.tracked.Some? ==> e.tracked.value.alert.silence == s)
    && (e.tracked.None? || e.tracked.value.state.phase == Pending ==> e.silence == s)
  }

  lemma ApplyHushes(w: World, w1: World, j: Key, e: Effect, k: Key, u: Time, now: Time)
    requires w1 == w.(nextId := w1.nextId)
    requires e.notice.Some? ==> AlertKey(e.notice.value.alert) == j && e.notice.value.at == now
    requires j == k && now < u && Hushed(w, k, u) ==> Hushes(e, u)
    ensures Hushing(w, Apply(w1, j, e), k, u, now)
  {
    hide AlertKey;
  }

  lemma FinishHushes(w: World, k: Key, u: Time, j: Key, now: Time)
    requires Inv(w) && j in w.active
    ensures Hushing(w, FinishKey(w, j, now), k, u, now)
  {
    FiringIsFiring(w, j);
    FinishNotice(w.active[j], Get(w.silences, j), now);
    hide Inv, MakeKey, Hushing;
    ApplyHushes(w, w, j, Finish(w.active[j], Get(w.silences, j), now), k, u, now);
  }

  lemma FinishNotice(t: Tracked, silence: Option<Silence>, now: Time)
    ensures var e := Finish(t, silence, now);
            e.notice.Some? ==> AlertKey(e.notice.value.alert) == AlertKey(t.alert) && e.notice.value.at == now
  {
    hide MakeKey;
  }

  lemma AdvanceHushed(t: Tracked, u: Time, silence: Option<Silence>, c: Check, now: Time, recovery: Time)
    requires now < u && t.alert.silence == Some(Silence(Some(u)))
    requires t.state.phase == Firing ==> t.alert.stage == StageFiring
    requires t.state.phase != Firing ==> silence == Some(Silence(Some(u))) && t.alert.stage == StagePending
    ensures Hushes(Advance(t, silence, c, now, recovery), u)
  {
    StepFacts(t.state, c.obs, now, TimingOf(c.rule, recovery));
  }

  lemma AdvanceHushes(w: World, w1: World, t: Tracked, k: Key, u: Time, c: Check, now: Time, recovery: Time)
    requires AlertKey(t.alert) == CheckKey(c) && w1 == w.(nextId := w1.nextId)
    requires t.state.phase == Firing <==> t.alert.stage == StageFiring
    requires t.alert.stage != StageFiring ==> t.alert.stage == StagePending
    requires if CheckKey(c) in w.active then t == w.active[CheckKey(c)] && t.state.phase != Inactive
             else t == Fresh(c, Get(w.silences, CheckKey(c)), t.alert.id, now)
    ensures Hushing(w, Apply(w1, CheckKey(c), Advance(t, Get(w.silences, CheckKey(c)), c, now, recovery)), k, u, now)
  {
    var silence := Get(w.silences, CheckKey(c));
    NoticeKeys(t, silence, c, now, recovery);
    if CheckKey(c) == k && now < u && Hushed(w, k, u) {
      AdvanceHushed(t, u, silence, c, now, recovery);
    }
    hide MakeKey, Advance, Hushes, Hushing;
    ApplyHushes(w, w1, CheckKey(c), Advance(t, silence, c, now, recovery), k, u, now);
  }

  lemma CheckHushes(w: World, k: Key, u: Time, c: Check, now: Time, recovery: Time)
    requires Inv(w)
    ensures Hushing(w, CheckWorld(w, c, now, recovery), k, u, now)
  {
    hide ToldOf, MakeKey, Act, Step;
    var j := CheckKey(c);
    if j in w.active && w.active[j].alert.metric == c.rule.metric {
      AdvanceHushes(w, w, w.active[j], k, u, c, now, recovery);
    } else {
      var w0 := if j in w.active then FinishKey(w, j, now) else w;
      if j in w.active {
        FinishHushes(w, k, u, j, now);
      }
      if c.obs == Breach {
        AdvanceHushes(w0, w0.(nextId := w0.nextId + 1), Fresh(c, Get(w0.silences, j), w0.nextId, now), k, u, c, now,
                      recovery);
      }
    }
  }

  lemma {:induction false} CheckAllHushes(w: World, k: Key, u: Time, checks: seq<Check>, now: Time, recovery: Time)
    requires Inv(w)
    ensures Hushing(w, CheckAll(w, checks, now, recovery), k, u, now)
  {
    if checks != [] {
      var before := checks[..|checks| - 1];
      CheckAllHushes(w, k, u, before, now, recovery);
      CheckAllKeeps(w, before, now, recovery);
      CheckHushes(CheckAll(w, before, now, recovery), k, u, checks[|checks| - 1], now, recovery);
    }
  }

  lemma {:induction false} FinishAllHushes(w: World, k: Key, u: Time, keys: seq<Key>, now: Time)
    requires Inv(w)
    ensures Hushing(w, FinishAll(w, keys, now), k, u, now)
  {
    if keys != [] {
      var w1 := FinishAll(w, keys[..|keys| - 1], now);
      FinishAllHushes(w, k, u, keys[..|keys| - 1], now);
      FinishAllKeeps(w, keys[..|keys| - 1], now);
      if keys[|keys| - 1] in w1.active {
        FinishHushes(w1, k, u, keys[|keys| - 1], now);
      }
    }
  }

  lemma EvaluateHushes(w: World, k: Key, u: Time, op: Op)
    requires Inv(w) && op.Evaluate?
    ensures Hushing(w, Do(w, op), k, u, op.now)
  {
    CheckAllHushes(w, k, u, ChecksOf(op), op.now, op.recovery);
    CheckAllKeeps(w, ChecksOf(op), op.now, op.recovery);
    FinishAllHushes(Checked(w, op), k, u, op.ended, op.now);
  }

  /** Nobody silences or unsilences `k`, and the service is not restarted. */
  ghost predicate LeavesAlone(ops: seq<Op>, k: Key) {
    forall op :: op in ops ==>
      && !op.Restart? && (op.SilenceOp? ==> op.key != k) && (op.UnsilenceOp? ==> op.key != k)
  }

  /** Evaluation times never decrease. */
  ghost predicate ClockForward(ops: seq<Op>) {
    forall i, j :: 0 <= i <= j < |ops| && ops[i].Evaluate? && ops[j].Evaluate? ==> ops[i].now <= ops[j].now
  }

  /** From entry `n` of the log on, no Fire or Remind for `k` is dated before `u`. */
  ghost predicate QuietUntil(log: seq<Notice>, n: nat, k: Key, u: Time) {
    forall i :: n <= i < |log| && AlertKey(log[i].alert) == k && log[i].at < u ==> log[i].kind == Resolve
  }

  /** Operations other than evaluations announce nothing and leave the silence of `k` in place. */
  lemma OthersHush(w: World, k: Key, u: Time, op: Op)
    requires Possible(w, op) && LeavesAlone([op], k) && !op.Evaluate?
    ensures Do(w, op).log == w.log && (Hushed(w, k, u) ==> Hushed(Do(w, op), k, u))
  {
    assert op in [op];
  }

  lemma EarlierToo(ops: seq<Op>, u: Time)
    requires ops != [] && ClockForward(ops) && ops[|ops| - 1].Evaluate? && ops[|ops| - 1].now < u
    ensures forall o :: o in ops[..|ops| - 1] && o.Evaluate? ==> o.now < u
  {
  }

  lemma QuietExtends(w: World, w1: World, w2: World, k: Key, u: Time, now: Time)
    requires w.log <= w1.log && QuietUntil(w1.log, |w.log|, k, u) && Hushing(w1, w2, k, u, now)
    requires now < u ==> Hushed(w1, k, u)
    ensures w.log <= w2.log && QuietUntil(w2.log, |w.log|, k, u)
  {
    forall i | |w.log| <= i < |w2.log| && AlertKey(w2.log[i].alert) == k && w2.log[i].at < u
      ensures w2.log[i].kind == Resolve
    {
      if i < |w1.log| {
        assert w2.log[i] == w1.log[i];
      }
    }
  }

  lemma {:induction false} StaysQuiet(w: World, ops: seq<Op>, k: Key, u: Time)
    requires Inv(w) && Hushed(w, k, u) && PossibleRun(w, ops) && LeavesAlone(ops, k) && ClockForward(ops)
    ensures Inv(RunFrom(w, ops)) && w.log <= RunFrom(w, ops).log
    ensures QuietUntil(RunFrom(w, ops).log, |w.log|, k, u)
    ensures (forall op :: op in ops && op.Evaluate? ==> op.now < u) ==> Hushed(RunFrom(w, ops), k, u)
  {
    hide Inv, Hushed, Hushing, Do, AlertKey;
    if ops != [] {
      var before := ops[..|ops| - 1];
      var op := ops[|ops| - 1];
      assert forall o :: o in before ==> o in ops;
      StaysQuiet(w, before, k, u);
      var w1 := RunFrom(w, before);
      OpKeeps(w1, op);
      assert op in ops;
      if op.Evaluate? {
        EvaluateHushes(w1, k, u, op);
        if op.now < u {
          EarlierToo(ops, u);
        }
        QuietExtends(w, w1, Do(w1, op), k, u, op.now);
      } else {
        OthersHush(w1, k, u, op);
      }
    }
  }

  /**
   After a timed silence until `u` is set on a firing alert, no Fire or Remind for its key
   is produced before `u`, however often the alert resolves, re-pends and fires again.
   */
  lemma SilenceHolds(past: seq<Op>, k: Key, u: Time, at: Time, ops: seq<Op>)
    requires PossibleRun(Empty, past)
    requires k in RunFrom(Empty, past).active && RunFrom(Empty, past).active[k].state.phase == Firing
    requires var w := Do(RunFrom(Empty, past), SilenceOp(k, Silence(Some(u)), at));
             PossibleRun(w, ops) && LeavesAlone(ops, k) && ClockForward(ops)
    ensures var w := Do(RunFrom(Empty, past), SilenceOp(k, Silence(Some(u)), at));
            QuietUntil(RunFrom(w, ops).log, |w.log|, k, u)
  {
    var w0 := RunFrom(Empty, past);
    var op := SilenceOp(k, Silence(Some(u)), at);
    RunKeeps(past);
    OpKeeps(w0, op);
    StaysQuiet(Do(w0, op), ops, k, u);
  }
}
