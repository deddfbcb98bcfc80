/**
 For a key nobody silences the engine is the state machine, to the last field and to the last notice:
 in every run, restarts included, what is announced for the key is exactly what its machine asks for,
 in that order and at those times, and a resolution when the machine is stopped while it is firing.
 */
module AlertTrace {
  import opened Basics
  import opened AlertState
  import opened AlertModel
  import opened AlertSafety
  import opened AlertRefinement

  // ---- the specification

  /** One thing said about a key. */
  datatype Word = Word(kind: Transition, at: Time)

  /** What a machine that is stopped has to say. */
  function LastWord(s: State, now: Time): seq<Word> {
    if s.phase == Firing then [Word(Resolve, now)] else []
  }

  function Spoken(tr: Transition, now: Time): seq<Word> {
    if tr == Stay then [] else [Word(tr, now)]
  }

  function SpecCheckSays(m: Machine, c: Check, now: Time, recovery: Time): seq<Word> {
    var timing := TimingOf(c.rule, recovery);
    if m.metric == c.rule.metric then Spoken(Step(m.state, c.obs, now, timing).1, now)
    else LastWord(m.state, now) + Spoken(Step(Blank(None), c.obs, now, timing).1, now)
  }

  function SpecSays(m: Machine, k: Key, op: Op): seq<Word> {
    if !op.Evaluate? then []
    else
      match CheckOf(ChecksOf(op), k)
      case None => LastWord(m.state, op.now)
      case Some(c) => if c.hold then [] else SpecCheckSays(m, c, op.now, op.recovery)
  }

  /** All that the machine of `k` asks to announce in a run. */
  function SpecTrace(ops: seq<Op>, k: Key): seq<Word> {
    if ops == [] then []
    else SpecTrace(ops[..|ops| - 1], k) + SpecSays(SpecRun(ops[..|ops| - 1], k), k, ops[|ops| - 1])
  }

  /** All that has been announced for `k`. */
  function Trace(log: seq<Notice>, k: Key): seq<Word> {
    if log == [] then []
    else
      var n := log[|log| - 1];
      Trace(log[..|log| - 1], k) + if AlertKey(n.alert) == k then [Word(n.kind, n.at)] else []
  }

  // ---- a key without a silence

  /** Not silenced, and announced if it is firing, at the time the state has. */
  predicate Plain(t: Tracked) {
    && t.alert.silence.None?
    && (t.state.phase == Firing ==> t.alert.notified && t.alert.lastNotifiedAt == Some(t.state.lastNotified))
  }

  /** Nothing the engine or its store holds for `k` is silenced. */
  ghost predicate Unsilenced(w: World, k: Key) {
    && (k in w.active ==> Plain(w.active[k]))
    && k !in w.silences
    && (forall id :: id in w.stored && AlertKey(w.stored[id]) == k ==> w.stored[id].silence.None?)
  }

  /** What the map holds for a key is its machine, exactly. */
  predicate Is(t: Option<Tracked>, m: Machine) {
    match t
    case None => m.state == Blank(m.state.lastSeen)
    case Some(t) => t.state == m.state && t.alert.metric == m.metric && t.state.phase != Inactive
  }

  ghost predicate Follows(w: World, k: Key, m: Machine) {
    Unsilenced(w, k) && Is(Get(w.active, k), m)
  }

  function Saying(e: Effect): seq<Word> {
    if e.notice.Some? then [Word(e.notice.value.kind, e.notice.value.at)] else []
  }

  /** An effect on a key without a silence leaves it so, and is about that key. */
  predicate PlainEffect(e: Effect) {
    && e.silence.None?
    && (e.tracked.Some? ==> Plain(e.tracked.value))
    && (e.save.Some? ==> e.save.value.silence.None?)
  }

  predicate About(e: Effect, k: Key) {
    && (e.save.Some? ==> AlertKey(e.save.value) == k)
    && (e.notice.Some? ==> AlertKey(e.notice.value.alert) == k)
  }

  lemma TraceAppend(log: seq<Notice>, n: Notice, k: Key)
    ensures Trace(log + [n], k) == Trace(log, k) + if AlertKey(n.alert) == k then [Word(n.kind, n.at)] else []
  {
    assert (log + [n])[..|log|] == log;
  }

  lemma ApplyOnKey(w: World, k: Key, e: Effect, m: Machine)
    requires Unsilenced(w, k) && PlainEffect(e) && About(e, k) && Is(e.tracked, m)
    ensures Follows(Apply(w, k, e), k, m) && Trace(Apply(w, k, e).log, k) == Trace(w.log, k) + Saying(e)
  {
    hide Trace, MakeKey, Plain;
    if e.notice.Some? {
      TraceAppend(w.log, e.notice.value, k);
    }
  }

  lemma ApplyElsewhere(w: World, j: Key, e: Effect, k: Key, m: Machine)
    requires j != k && About(e, j) && Follows(w, k, m)
    ensures Follows(Apply(w, j, e), k, m) && Trace(Apply(w, j, e).log, k) == Trace(w.log, k)
  {
    hide Trace, MakeKey, Plain;
    if e.notice.Some? {
      TraceAppend(w.log, e.notice.value, k);
    }
  }

  // ---- effects

  lemma FinishIsPlain(t: Tracked, k: Key, told: Told, now: Time)
    requires TrackedOk(t, k, told) && Plain(t)
    ensures var e := Finish(t, None, now);
            PlainEffect(e) && About(e, k) && e.tracked.None? && Saying(e) == LastWord(t.state, now)
  {
    hide MakeKey;
  }

  lemma FinishIsAbout(t: Tracked, silence: Option<Silence>, k: Key, now: Time)
    requires AlertKey(t.alert) == k
    ensures About(Finish(t, silence, now), k)
  {
    hide MakeKey;
  }

  lemma ActIsAbout(t: Tracked, silence: Option<Silence>, s: State, tr: Transition, a: Alert, now: Time, repeat: Time)
    ensures About(Act(t, silence, s, tr, a, now, repeat), AlertKey(a))
  {
    hide MakeKey;
  }

  lemma AdvanceIsAbout(t: Tracked, silence: Option<Silence>, c: Check, now: Time, recovery: Time)
    requires AlertKey(t.alert) == CheckKey(c)
    ensures About(Advance(t, silence, c, now, recovery), CheckKey(c))
  {
    hide Step, Act, About;
    var timing := TimingOf(c.rule, recovery);
    var (s, tr) := Step(t.state, c.obs, now, timing);
    RefreshedKey(t.alert, c, s, now);
    ActIsAbout(t, silence, s, tr, Refreshed(t.alert, c.rule, s, now), now, timing.repeat);
  }

  /** Advancing an alert without a silence is the machine's step, said aloud. */
  lemma AdvanceIsPlain(t: Tracked, told: Told, c: Check, now: Time, recovery: Time)
    requires Plain(t) && t.alert.metric == c.rule.metric
    requires TrackedOk(t, CheckKey(c), told) || (t == Fresh(c, None, t.alert.id, now) && c.obs == Breach)
    ensures var e := Advance(t, None, c, now, recovery);
            var (s, tr) := Step(t.state, c.obs, now, TimingOf(c.rule, recovery));
            && PlainEffect(e) && Saying(e) == Spoken(tr, now)
            && Is(e.tracked, Machine(s, c.rule.metric))
  {
    var timing := TimingOf(c.rule, recovery);
    StepFacts(t.state, c.obs, now, timing);
    StoppedIsBlank(t.state, c.obs, now, timing);
    hide MakeKey, Step;
  }

  /** A machine that was not idle before stops as a blank one. */
  lemma StoppedIsBlank(s: State, obs: Observation, now: Time, t: Timing)
    requires s.phase != Inactive || obs == Breach
    ensures var s' := Step(s, obs, now, t).0; s'.phase == Inactive ==> s' == Blank(s'.lastSeen)
    ensures Step(s, obs, now, t).1 == Resolve ==> Step(s, obs, now, t).0.phase == Inactive
  {
  }

  /** A machine that is blank steps alike whenever it was last seen, unless nothing starts. */
  lemma BlankSteps(lastSeen: Option<Time>, obs: Observation, now: Time, t: Timing)
    ensures obs == Breach ==> Step(Blank(lastSeen), obs, now, t) == Step(Blank(None), obs, now, t)
    ensures obs != Breach ==> Step(Blank(lastSeen), obs, now, t) == (Blank(Some(now)), Stay)
  {
  }

  // ---- one check

  /** From `w` to `w'` key `k` goes from machine `m` to `m'`, and `words` are said about it. */
  ghost predicate Goes(w: World, w': World, k: Key, m: Machine, m': Machine, words: seq<Word>) {
    Follows(w, k, m) ==> Follows(w', k, m') && Trace(w'.log, k) == Trace(w.log, k) + words
  }

  lemma StartGoes(w: World, c: Check, now: Time, recovery: Time, m: Machine)
    requires CheckKey(c) !in w.active
    ensures Goes(w, StartKey(w, c, now, recovery), CheckKey(c), m, SpecCheck(m, c, now, recovery),
                 SpecCheckSays(m, c, now, recovery))
  {
    hide Trace, MakeKey, Step, Advance, Plain;
    var k := CheckKey(c);
    if Follows(w, k, m) {
      BlankSteps(m.state.lastSeen, c.obs, now, TimingOf(c.rule, recovery));
      BlankSteps(None, c.obs, now, TimingOf(c.rule, recovery));
      if c.obs == Breach {
        var t := Fresh(c, None, w.nextId, now);
        FreshIsPlain(c, w.nextId, now);
        AdvanceIsPlain(t, Untold, c, now, recovery);
        AdvanceIsAbout(t, None, c, now, recovery);
        ApplyOnKey(w.(nextId := w.nextId + 1), k, Advance(t, None, c, now, recovery), SpecCheck(m, c, now, recovery));
      }
    }
  }

  lemma FreshIsPlain(c: Check, id: nat, now: Time)
    ensures Plain(Fresh(c, None, id, now)) && AlertKey(Fresh(c, None, id, now).alert) == CheckKey(c)
  {
  }

  lemma FinishGoes(w: World, k: Key, now: Time, m: Machine)
    requires Inv(w) && k in w.active
    ensures Goes(w, FinishKey(w, k, now), k, m, m.(state := Blank(None)), LastWord(m.state, now))
  {
    if Follows(w, k, m) {
      var t := w.active[k];
      FinishIsPlain(t, k, ToldOf(w.log, t.alert.id), now);
      hide Trace, MakeKey, Finish, Plain, Inv;
      ApplyOnKey(w, k, Finish(t, None, now), m.(state := Blank(None)));
    }
  }

  lemma CheckGoes(w: World, c: Check, now: Time, recovery: Time, m: Machine)
    requires Inv(w)
    ensures Goes(w, CheckWorld(w, c, now, recovery), CheckKey(c), m, SpecCheck(m, c, now, recovery),
                 SpecCheckSays(m, c, now, recovery))
  {
    var k := CheckKey(c);
    if Follows(w, k, m) {
      if k !in w.active {
        hide Inv, Follows, Trace, MakeKey, Step, StartKey;
        StartGoes(w, c, now, recovery, m);
      } else if w.active[k].alert.metric != c.rule.metric {
        RestartedCheckGoes(w, c, now, recovery, m);
      } else {
        KnownCheckGoes(w, c, now, recovery, m);
      }
    }
  }

  lemma KnownCheckGoes(w: World, c: Check, now: Time, recovery: Time, m: Machine)
    requires Inv(w) && Follows(w, CheckKey(c), m) && CheckKey(c) in w.active
             && w.active[CheckKey(c)].alert.metric == c.rule.metric
    ensures Goes(w, CheckWorld(w, c, now, recovery), CheckKey(c), m, SpecCheck(m, c, now, recovery),
                 SpecCheckSays(m, c, now, recovery))
  {
    hide Trace, MakeKey, Step, Advance, Plain, ToldOf;
    var k := CheckKey(c);
    var t := w.active[k];
    AdvanceIsPlain(t, ToldOf(w.log, t.alert.id), c, now, recovery);
    AdvanceIsAbout(t, None, c, now, recovery);
    ApplyOnKey(w, k, Advance(t, None, c, now, recovery), SpecCheck(m, c, now, recovery));
  }

  lemma RestartedCheckGoes(w: World, c: Check, now: Time, recovery: Time, m: Machine)
    requires Inv(w) && Follows(w, CheckKey(c), m) && CheckKey(c) in w.active
             && w.active[CheckKey(c)].alert.metric != c.rule.metric
    ensures Goes(w, CheckWorld(w, c, now, recovery), CheckKey(c), m, SpecCheck(m, c, now, recovery),
                 SpecCheckSays(m, c, now, recovery))
  {
    hide Inv, Trace, MakeKey, Step, StartKey, Unsilenced, Finish;
    var k := CheckKey(c);
    var anew := m.(state := Blank(None));
    FinishGoes(w, k, now, m);
    StartGoes(FinishKey(w, k, now), c, now, recovery, anew);
    assert SpecCheck(anew, c, now, recovery) == SpecCheck(m, c, now, recovery);
  }

  /** Keys are left alone by what happens to others. */
  lemma FinishElsewhere(w: World, j: Key, now: Time, k: Key, m: Machine)
    requires Inv(w) && j in w.active && j != k
    ensures Goes(w, FinishKey(w, j, now), k, m, m, [])
  {
    if Follows(w, k, m) {
      FinishIsAbout(w.active[j], Get(w.silences, j), j, now);
      hide Trace, MakeKey, Finish, Plain, Inv, Follows;
      ApplyElsewhere(w, j, Finish(w.active[j], Get(w.silences, j), now), k, m);
    }
  }

  lemma StartElsewhere(w: World, c: Check, now: Time, recovery: Time, k: Key, m: Machine)
    requires CheckKey(c) != k && CheckKey(c) !in w.active
    ensures Goes(w, StartKey(w, c, now, recovery), k, m, m, [])
  {
    hide Trace, MakeKey, Advance;
    if Follows(w, k, m) && c.obs == Breach {
      var j := CheckKey(c);
      var t := Fresh(c, Get(w.silences, j), w.nextId, now);
      AdvanceIsAbout(t, Get(w.silences, j), c, now, recovery);
      ApplyElsewhere(w.(nextId := w.nextId + 1), j, Advance(t, Get(w.silences, j), c, now, recovery), k, m);
    }
  }

  lemma CheckElsewhere(w: World, c: Check, now: Time, recovery: Time, k: Key, m: Machine)
    requires Inv(w) && CheckKey(c) != k
    ensures Goes(w, CheckWorld(w, c, now, recovery), k, m, m, [])
  {
    hide Trace, MakeKey, Advance, StartKey, Follows;
    var j := CheckKey(c);
    if j !in w.active {
      StartElsewhere(w, c, now, recovery, k, m);
    } else if w.active[j].alert.metric != c.rule.metric {
      FinishElsewhere(w, j, now, k, m);
      StartElsewhere(FinishKey(w, j, now), c, now, recovery, k, m);
    } else if Follows(w, k, m) {
      AdvanceIsAbout(w.active[j], Get(w.silences, j), c, now, recovery);
      ApplyElsewhere(w, j, Advance(w.active[j], Get(w.silences, j), c, now, recovery), k, m);
    }
  }

  // ---- one evaluation

  lemma {:induction false} CheckAllGoes(w: World, checks: seq<Check>, now: Time, recovery: Time, k: Key, m: Machine)
    requires Inv(w) && DistinctKeys(checks)
    ensures var w' := CheckAll(w, checks, now, recovery);
            match CheckOf(checks, k)
            case None => Goes(w, w', k, m, m, [])
            case Some(c) =>
              if c.hold then Goes(w, w', k, m, m, [])
              else Goes(w, w', k, m, SpecCheck(m, c, now, recovery), SpecCheckSays(m, c, now, recovery))
  {
    hide Inv, Follows, Trace, CheckWorld, SpecCheck, SpecCheckSays, CheckKey;
    if checks != [] {
      var before, last := checks[..|checks| - 1], checks[|checks| - 1];
      CheckAllGoes(w, before, now, recovery, k, m);
      var w1 := CheckAll(w, before, now, recovery);
      CheckAllKeeps(w, before, now, recovery);
      if CheckKey(last) == k {
        CheckOfIsIn(before, k);
        CheckGoes(w1, last, now, recovery, m);
      } else {
        var m1 := match CheckOf(before, k)
                  case None => m
                  case Some(c) => if c.hold then m else SpecCheck(m, c, now, recovery);
        CheckElsewhere(w1, last, now, recovery, k, m1);
      }
    }
  }

  lemma {:induction false} FinishAllGoes(w: World, keys: seq<Key>, now: Time, k: Key, m: Machine)
    requires Inv(w) && (forall j :: j in keys ==> j in w.active)
    requires forall i, j :: 0 <= i < j < |keys| ==> keys[i] != keys[j]
    ensures Inv(FinishAll(w, keys, now))
    ensures if k in keys then Goes(w, FinishAll(w, keys, now), k, m, m.(state := Blank(None)), LastWord(m.state, now))
            else Goes(w, FinishAll(w, keys, now), k, m, m, [])
  {
    hide Inv, Follows, Trace, FinishKey;
    if keys != [] {
      var before, j := keys[..|keys| - 1], keys[|keys| - 1];
      assert keys == before + [j] && j !in before && j in keys;
      FinishAllGoes(w, before, now, k, m);
      FinishAllRemoves(w, before, now);
      var w1 := FinishAll(w, before, now);
      assert j in w1.active;
      FinishKeyKeeps(w1, j, now);
      if j == k {
        FinishGoes(w1, k, now, m);
      } else {
        FinishElsewhere(w1, j, now, k, if k in before then m.(state := Blank(None)) else m);
      }
    }
  }

  lemma ExpireGoes(w: World, now: Time, k: Key, m: Machine)
    ensures Goes(w, ExpireSilences(w, now), k, m, m, [])
  {
    hide Trace, MakeKey, Plain;
  }

  /** A key out of the map is at rest: its machine may as well be blank, and has no last word. */
  lemma AtRest(w: World, k: Key, m: Machine, now: Time)
    requires k !in w.active
    ensures Goes(w, w, k, m, m.(state := Blank(None)), LastWord(m.state, now))
  {
    hide Trace, MakeKey, Unsilenced;
  }

  lemma EvaluateGoes(w: World, op: Op, k: Key, m: Machine)
    requires Inv(w) && op.Evaluate? && Possible(w, op)
    ensures Goes(w, Do(w, op), k, m, SpecOp(m, k, op), SpecSays(m, k, op))
  {
    hide Inv, Follows, Trace, CheckAll, FinishAll, ExpireSilences, SpecCheck, SpecCheckSays, LastWord;
    var w1 := Checked(w, op);
    CheckAllGoes(w, ChecksOf(op), op.now, op.recovery, k, m);
    CheckAllKeeps(w, ChecksOf(op), op.now, op.recovery);
    CheckOfIsIn(ChecksOf(op), k);
    var m1 := match CheckOf(ChecksOf(op), k)
              case None => m
              case Some(c) => if c.hold then m else SpecCheck(m, c, op.now, op.recovery);
    FinishAllGoes(w1, op.ended, op.now, k, m1);
    var w2 := FinishAll(w1, op.ended, op.now);
    if CheckOf(ChecksOf(op), k).None? && k !in w1.active {
      FinishAllRemoves(w1, op.ended, op.now);
      AtRest(w2, k, m, op.now);
    }
    ExpireGoes(w2, op.now, k, SpecOp(m, k, op));
  }

  // ---- other operations

  lemma {:induction false} RecallsNothing(recent: seq<Alert>, now: Time, k: Key)
    requires forall a :: a in recent && AlertKey(a) == k ==> a.silence.None?
    ensures k !in RecallAll(map[], recent, now)
  {
    hide MakeKey;
    if recent != [] {
      assert recent[0] in recent;
      RecallsNothing(recent[1..], now, k);
    }
  }

  lemma RestoredIsPlain(a: Alert, t: Tracked, k: Key, told: Told, now: Time)
    requires TrackedOk(t, k, told) && t.state.phase == Firing && Agree(a, t.alert) && Plain(t) && a.silence.None?
    ensures Plain(Restored(a, now)) && Restored(a, now).state == t.state.(clearSince := None, lastSeen := None)
  {
    hide MakeKey;
  }

  lemma RestartGoes(w: World, op: Op, k: Key, m: Machine)
    requires Inv(w) && op.Restart? && Possible(w, op)
    ensures Goes(w, Do(w, op), k, m, SpecOp(m, k, op), [])
  {
    if Follows(w, k, m) {
      RestartRestores(w, op.now, op.firing, k);
      assert k !in RecallAll(map[], op.recent, op.now) by {
        forall a | a in op.recent && AlertKey(a) == k ensures a.silence.None? {
          var id :| id in w.stored && w.stored[id] == a;
        }
        RecallsNothing(op.recent, op.now, k);
      }
      if k in w.active && w.active[k].state.phase == Firing {
        var t := w.active[k];
        RestoredIsPlain(w.stored[t.alert.id], t, k, ToldOf(w.log, t.alert.id), op.now);
      }
      hide Inv, Trace, MakeKey, RestoreAll, RecallAll, Plain, ToldOf;
    }
  }

  lemma HushGoes(w: World, j: Key, s: Option<Silence>, kept: Option<Silence>, now: Time, k: Key, m: Machine)
    requires Inv(w) && j in w.active && (j == k ==> s.None? && kept.None?)
    ensures Goes(w, Apply(w, j, Hush(w.active[j], s, kept, now)), k, m, m, [])
  {
    var e := Hush(w.active[j], s, kept, now);
    assert AlertKey(w.active[j].alert.(silence := s)) == AlertKey(w.active[j].alert) == j;
    hide Inv, Trace, MakeKey;
    if Follows(w, k, m) {
      if j == k {
        ApplyOnKey(w, k, e, m);
      } else {
        ApplyElsewhere(w, j, e, k, m);
      }
    }
  }

  lemma OpGoes(w: World, op: Op, k: Key, m: Machine)
    requires Inv(w) && Possible(w, op) && !(op.SilenceOp? && op.key == k)
    ensures Goes(w, Do(w, op), k, m, SpecOp(m, k, op), SpecSays(m, k, op))
  {
    hide Inv, Trace, Hush, RestoreAll, RecallAll, CheckAll, FinishAll, Plain, MakeKey;
    match op
    case Evaluate(_, _, _, _, _) => EvaluateGoes(w, op, k, m);
    case SilenceOp(j, s, now) => HushGoes(w, j, Some(s), Get(w.silences, j), now, k, m);
    case UnsilenceOp(j, now) => HushGoes(w, j, None, None, now, k, m);
    case Restart(_, _, _) => RestartGoes(w, op, k, m);
    case Prune(_) =>
  }

  // ---- runs

  /**
   As long as nobody silences a key, in every possible run with restarts: the engine tracks it in
   exactly its machine's state, and has announced exactly what the machine asked for, when it did.
   */
  lemma {:induction false} SaysWhatTheMachineSays(ops: seq<Op>, k: Key)
    requires PossibleRun(Empty, ops) && forall op :: op in ops ==> !(op.SilenceOp? && op.key == k)
    ensures Follows(RunFrom(Empty, ops), k, SpecRun(ops, k))
    ensures Trace(RunFrom(Empty, ops).log, k) == SpecTrace(ops, k)
  {
    hide Follows, Trace, SpecOp, SpecSays, Do, Possible;
    if ops == [] {
      NothingSaid(k);
    } else {
      var before, op := ops[..|ops| - 1], ops[|ops| - 1];
      assert op in ops && forall o :: o in before ==> o in ops;
      SaysWhatTheMachineSays(before, k);
      RunKeeps(before);
      OpGoes(RunFrom(Empty, before), op, k, SpecRun(before, k));
    }
  }

  lemma NothingSaid(k: Key)
    ensures Follows(Empty, k, Machine(Blank(None), "")) && Trace([], k) == []
  {
  }

  /**
   Without a restart, then, the notice of an evaluation is what the state machine, run over the key's own
   history, asks for at it: `FiresExactly`, `RemindsExactly` and `ResolvesExactly` say when there is one.
   */
  lemma NoticesAreTransitions(ops: seq<Op>, op: Op, k: Key)
    requires PossibleRun(Empty, ops) && op.Evaluate? && Possible(RunFrom(Empty, ops), op)
    requires forall o :: o in ops ==> !o.Restart? && !(o.SilenceOp? && o.key == k)
    requires var c := CheckOf(ChecksOf(op), k);
             c.Some? && !c.value.hold
             && (Watched(ops, k).history != [] ==> Watched(ops, k).metric == c.value.rule.metric)
    ensures var c := CheckOf(ChecksOf(op), k).value;
            var h := Watched(ops, k).history + [Eval(c.obs, op.now, TimingOf(c.rule, op.recovery))];
            var w := RunFrom(Empty, ops);
            Trace(Do(w, op).log, k) == Trace(w.log, k) + Spoken(At(h, |h| - 1), op.now)
  {
    hide Follows, Trace, Do, Possible, Step, SpecRun, Watched;
    SaysWhatTheMachineSays(ops, k);
    RunKeeps(ops);
    EngineFollowsHistory(ops, k);
    OpGoes(RunFrom(Empty, ops), op, k, SpecRun(ops, k));
    var c := CheckOf(ChecksOf(op), k).value;
    var h := Watched(ops, k).history;
    StateAtPrefix(h, h + [Eval(c.obs, op.now, TimingOf(c.rule, op.recovery))], |h|);
  }
}
