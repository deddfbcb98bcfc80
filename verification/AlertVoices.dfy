/**
 What is announced for any key, silenced or not: one specification machine for every key, with the silence
 and the telling of its alert in it, says in every run, restarts included, exactly what the engine announces,
 in that order and at those times, and has the state of the engine's entry to the last field.
 */
module AlertVoices {
  import opened Basics
  import opened AlertState
  import opened AlertModel
  import opened AlertSafety
  import opened AlertRefinement
  import opened AlertTrace

  // ---- the specification

  /**
   A key's state machine, when it last told of its alert (never, if it did not), the silence on the alert, the
   one kept for the key's next alert, and of a firing alert the silence as last stored and when that was.
   */
  datatype Voice = Voice(state: State, metric: string, toldAt: Option<Time>, silence: Option<Silence>,
                         kept: Option<Silence>, saved: Option<Silence>, savedAt: Time)

  const Mute: Voice := Voice(Blank(None), "", None, None, None, None, 0)

  function InForce(s: Option<Silence>, now: Time): Option<Silence> {
    if s.Some? && s.value.Active(now) then s else None
  }

  /** The alert is over; a timed silence of a firing one is kept for the next. */
  function Stop(v: Voice, now: Time): Voice {
    var s := InForce(v.silence, now);
    v.(state := Blank(None), toldAt := None, silence := None,
       kept := if v.state.phase == Firing && s.Some? && s.value.until.Some? then s else v.kept)
  }

  /** An end is announced exactly if the firing was. */
  function StopSays(v: Voice, now: Time): seq<Word> {
    if v.state.phase == Firing && v.toldAt.Some? then [Word(Resolve, now)] else []
  }

  /**
   What is announced when the machine moves to `s` with transition `tr`: nothing but an end under a silence,
   a reminder or an end only of what was announced before, and a firing once, as soon as nothing hinders it.
   */
  function Announcement(v: Voice, s: State, tr: Transition, now: Time): Transition {
    var free := InForce(v.silence, now).None?;
    match tr
    case Fire => if free then Fire else Stay
    case Remind => if free && v.toldAt.Some? then Remind else Stay
    case Resolve => if v.toldAt.Some? then Resolve else Stay
    case Stay => if free && s.phase == Firing && v.toldAt.None? then Fire else Stay
  }

  /** The voice once its machine has moved to `s`. */
  function MoveTo(v: Voice, s: State, tr: Transition, now: Time): Voice {
    var said := Announcement(v, s, tr, now);
    var v1 := v.(state := s, silence := InForce(v.silence, now));
    if s.phase == Inactive then Stop(v, now).(state := s)
    else if said != Stay then v1.(state := s.(lastNotified := now), toldAt := Some(now), saved := None, savedAt := now)
    else if tr == Fire || (tr == Stay && s.phase == Firing && now - v.savedAt >= SAVE_EVERY) then
      v1.(saved := v1.silence, savedAt := now)
    else v1
  }

  /** The voice after an observation. */
  function Move(v: Voice, c: Check, now: Time, recovery: Time): Voice {
    var (s, tr) := Step(v.state, c.obs, now, TimingOf(c.rule, recovery));
    MoveTo(v, s, tr, now)
  }

  function MoveSays(v: Voice, c: Check, now: Time, recovery: Time): seq<Word> {
    var (s, tr) := Step(v.state, c.obs, now, TimingOf(c.rule, recovery));
    Spoken(Announcement(v, s, tr, now), now)
  }

  /** Before a check: a rule that watches something else now has ended what it was about. */
  function Turned(v: Voice, c: Check, now: Time): Voice {
    if v.metric == c.rule.metric then v else Stop(v, now).(metric := c.rule.metric)
  }

  function TurnSays(v: Voice, c: Check, now: Time): seq<Word> {
    if v.metric == c.rule.metric then [] else StopSays(v, now)
  }

  /** A new alert is under the silence kept for it, if that is still in force. */
  function Starting(v: Voice, now: Time): Voice {
    v.(state := Blank(None), silence := InForce(v.kept, now))
  }

  function CheckVoice(v: Voice, c: Check, now: Time, recovery: Time): Voice {
    var v0 := Turned(v, c, now);
    if v0.state.phase != Inactive then Move(v0, c, now, recovery)
    else if c.obs == Breach then Move(Starting(v0, now), c, now, recovery)
    else v0
  }

  function CheckSays(v: Voice, c: Check, now: Time, recovery: Time): seq<Word> {
    var v0 := Turned(v, c, now);
    TurnSays(v, c, now)
    + if v0.state.phase != Inactive then MoveSays(v0, c, now, recovery)
      else if c.obs == Breach then MoveSays(Starting(v0, now), c, now, recovery)
      else []
  }

  function EvaluateVoice(v: Voice, c: Option<Check>, now: Time, recovery: Time): Voice {
    match c
    case None => Stop(v, now)
    case Some(c) => if c.hold then v else CheckVoice(v, c, now, recovery)
  }

  function EvaluateSays(v: Voice, c: Option<Check>, now: Time, recovery: Time): seq<Word> {
    match c
    case None => StopSays(v, now)
    case Some(c) => if c.hold then [] else CheckSays(v, c, now, recovery)
  }

  /** Sets or lifts the silence; with a firing alert it is stored. */
  function Quieted(v: Voice, s: Option<Silence>, kept: Option<Silence>, now: Time): Voice {
    var v1 := v.(silence := s, kept := kept);
    if v.state.phase == Firing then v1.(saved := s, savedAt := now) else v1
  }

  /** A restart: only firing survives, watched anew, with what was stored. */
  function Reborn(v: Voice, kept: Option<Silence>, now: Time): Voice {
    if v.state.phase != Firing then v.(state := Blank(None), toldAt := None, silence := None, kept := kept)
    else
      var last := if v.toldAt.Some? then v.toldAt.value else v.state.firedAt;
      v.(state := v.state.(clearSince := None, lastSeen := None, lastNotified := last),
         silence := v.saved, kept := kept, savedAt := now)
  }

  function VoiceOp(v: Voice, k: Key, op: Op): Voice {
    match op
    case Evaluate(now, _, recovery, _, _) =>
      var v1 := EvaluateVoice(v, CheckOf(ChecksOf(op), k), now, recovery);
      v1.(kept := InForce(v1.kept, now))
    case SilenceOp(j, s, now) => if j == k then Quieted(v, Some(s), v.kept, now) else v
    case UnsilenceOp(j, now) => if j == k then Quieted(v, None, None, now) else v
    case Restart(now, _, recent) => Reborn(v, Get(RecallAll(map[], recent, now), k), now)
    case Prune(_) => v
  }

  function VoiceSays(v: Voice, k: Key, op: Op): seq<Word> {
    if op.Evaluate? then EvaluateSays(v, CheckOf(ChecksOf(op), k), op.now, op.recovery) else []
  }

  function VoiceRun(ops: seq<Op>, k: Key): Voice {
    if ops == [] then Mute else VoiceOp(VoiceRun(ops[..|ops| - 1], k), k, ops[|ops| - 1])
  }

  function VoiceTrace(ops: seq<Op>, k: Key): seq<Word> {
    if ops == [] then []
    else VoiceTrace(ops[..|ops| - 1], k) + VoiceSays(VoiceRun(ops[..|ops| - 1], k), k, ops[|ops| - 1])
  }

  // ---- what the engine holds for a key is its voice

  predicate Matches(t: Option<Tracked>, v: Voice) {
    match t
    case None => v.state == Blank(v.state.lastSeen) && v.toldAt.None? && v.silence.None?
    case Some(t) =>
      && t.state == v.state && t.state.phase != Inactive && t.alert.metric == v.metric
      && t.alert.silence == v.silence && t.alert.lastNotifiedAt == v.toldAt
      && (t.state.phase == Firing ==> t.savedAt == v.savedAt)
  }

  ghost predicate Speaks(w: World, k: Key, v: Voice) {
    && Matches(Get(w.active, k), v) && Get(w.silences, k) == v.kept
    && (v.state.phase == Firing && k in w.active ==>
          w.active[k].alert.id in w.stored && w.stored[w.active[k].alert.id].silence == v.saved)
  }

  /** From `w` to `w'` key `k` goes from voice `v` to `v'`, and `words` are said. */
  ghost predicate Tells(w: World, w': World, k: Key, v: Voice, v': Voice, words: seq<Word>) {
    Speaks(w, k, v) ==> Speaks(w', k, v') && Trace(w'.log, k) == Trace(w.log, k) + words
  }

  /** An effect on an alert whose stored silence is `stored` leaves voice `v`. */
  predicate Shows(e: Effect, stored: Option<Silence>, v: Voice) {
    && Matches(e.tracked, v) && e.silence == v.kept
    && (v.state.phase == Firing && e.tracked.Some? ==>
          (if e.save.Some? then e.save.value.silence else stored) == v.saved)
  }

  lemma ApplyOnKey(w: World, k: Key, t: Tracked, e: Effect, stored: Option<Silence>, v: Voice)
    requires Holds(w, k, t) && EffectOk(t, k, ToldOf(w.log, t.alert.id), e) && About(e, k) && Shows(e, stored, v)
    requires t.state.phase == Firing ==> t.alert.id in w.stored && w.stored[t.alert.id].silence == stored
    ensures var w' := Apply(w, k, e);
            Speaks(w', k, v) && Trace(w'.log, k) == Trace(w.log, k) + Saying(e)
  {
    hide Trace, MakeKey, TrackedOk, Agree, ToldOf, NewTold;
    if e.notice.Some? {
      TraceAppend(w.log, e.notice.value, k);
    }
  }

  lemma ApplyElsewhere(w: World, j: Key, t: Tracked, e: Effect, k: Key, v: Voice)
    requires Inv(w) && Holds(w, j, t) && (e.save.Some? ==> e.save.value.id == t.alert.id) && About(e, j) && j != k
    ensures Tells(w, Apply(w, j, e), k, v, v, [])
  {
    hide Trace, MakeKey, TrackedOk, StoreAgrees, LogOk, NothingLost, ToldOf;
    if e.notice.Some? {
      TraceAppend(w.log, e.notice.value, k);
    }
  }

  // ---- effects

  lemma FinishShows(t: Tracked, k: Key, told: Told, v: Voice, now: Time)
    requires TrackedOk(t, k, told) && Matches(Some(t), v)
    ensures var e := Finish(t, v.kept, now);
            Shows(e, v.saved, Stop(v, now)) && Saying(e) == StopSays(v, now)
  {
    hide MakeKey;
  }

  /** Acting on a transition is what the voice does at it. */
  lemma ActShows(t: Tracked, v: Voice, s: State, tr: Transition, a: Alert, now: Time, repeat: Time)
    requires a.silence == InForce(v.silence, now) && a.lastNotifiedAt == v.toldAt && (a.notified <==> v.toldAt.Some?)
    requires a.metric == v.metric && (v.state.phase == Firing <==> a.stage == StageFiring)
    requires v.state.phase == Firing ==> t.savedAt == v.savedAt
    requires s.phase == Inactive ==> s == Blank(s.lastSeen)
    requires match tr
             case Fire => v.state.phase != Firing && s.phase == Firing && s.lastNotified == now
             case Remind => v.state.phase == Firing && s.phase == Firing && s.lastNotified == now
             case Resolve => v.state.phase == Firing && s.phase == Inactive
             case Stay => v.state.phase == Firing <==> s.phase == Firing
    ensures var e := Act(t, v.kept, s, tr, a, now, repeat);
            Shows(e, v.saved, MoveTo(v, s, tr, now)) && Saying(e) == Spoken(Announcement(v, s, tr, now), now)
  {
  }

  lemma MoveShows(t: Tracked, told: Told, v: Voice, c: Check, now: Time, recovery: Time)
    requires t.alert.metric == c.rule.metric == v.metric
    requires || (TrackedOk(t, CheckKey(c), told) && Matches(Some(t), v))
             || (t == Fresh(c, v.kept, t.alert.id, now) && c.obs == Breach && v == Starting(v, now) && v.toldAt.None?)
    ensures var e := Advance(t, v.kept, c, now, recovery);
            Shows(e, v.saved, Move(v, c, now, recovery)) && Saying(e) == MoveSays(v, c, now, recovery)
  {
    var timing := TimingOf(c.rule, recovery);
    StepFacts(t.state, c.obs, now, timing);
    StoppedIsBlank(t.state, c.obs, now, timing);
    hide MakeKey, Step, Act, MoveTo, Announcement, Shows, Saying;
    var (s, tr) := Step(t.state, c.obs, now, timing);
    ActShows(t, v, s, tr, Refreshed(t.alert, c.rule, s, now), now, timing.repeat);
  }

  // ---- one check

  lemma FinishTells(w: World, k: Key, now: Time, v: Voice)
    requires Inv(w) && k in w.active
    ensures Tells(w, FinishKey(w, k, now), k, v, Stop(v, now), StopSays(v, now))
  {
    if Speaks(w, k, v) {
      var t := w.active[k];
      FinishOk(t, k, ToldOf(w.log, t.alert.id), v.kept, now);
      FinishShows(t, k, ToldOf(w.log, t.alert.id), v, now);
      FinishIsAbout(t, v.kept, k, now);
      hide Inv, MakeKey, Finish, Shows, EffectOk, ToldOf, Trace;
      ApplyOnKey(w, k, t, Finish(t, v.kept, now), v.saved, Stop(v, now));
    }
  }

  lemma StartTells(w: World, c: Check, now: Time, recovery: Time, v: Voice)
    requires Inv(w) && CheckKey(c) !in w.active && c.obs == Breach && v.metric == c.rule.metric
    ensures Tells(w, StartKey(w, c, now, recovery), CheckKey(c), v,
                  Move(Starting(v, now), c, now, recovery), MoveSays(Starting(v, now), c, now, recovery))
  {
    hide Inv, MakeKey, Advance, Shows, EffectOk, ToldOf, Trace, Move, MoveSays;
    var k := CheckKey(c);
    if Speaks(w, k, v) {
      var t := Fresh(c, v.kept, w.nextId, now);
      NewIdKeeps(w);
      AdvanceOk(t, Untold, v.kept, c, now, recovery);
      MoveShows(t, Untold, Starting(v, now), c, now, recovery);
      AdvanceIsAbout(t, v.kept, c, now, recovery);
      ApplyOnKey(w.(nextId := w.nextId + 1), k, t, Advance(t, v.kept, c, now, recovery), v.saved,
                 Move(Starting(v, now), c, now, recovery));
    }
  }

  lemma KnownTells(w: World, c: Check, now: Time, recovery: Time, v: Voice)
    requires Inv(w) && CheckKey(c) in w.active && v.metric == c.rule.metric
    ensures Tells(w, Apply(w, CheckKey(c), Advance(w.active[CheckKey(c)], v.kept, c, now, recovery)), CheckKey(c), v,
                  Move(v, c, now, recovery), MoveSays(v, c, now, recovery))
  {
    var k := CheckKey(c);
    if Speaks(w, k, v) {
      var t := w.active[k];
      AdvanceOk(t, ToldOf(w.log, t.alert.id), v.kept, c, now, recovery);
      MoveShows(t, ToldOf(w.log, t.alert.id), v, c, now, recovery);
      AdvanceIsAbout(t, v.kept, c, now, recovery);
      hide Inv, MakeKey, Advance, Shows, EffectOk, ToldOf, Trace, Move, MoveSays;
      ApplyOnKey(w, k, t, Advance(t, v.kept, c, now, recovery), v.saved, Move(v, c, now, recovery));
    }
  }

  /** What a rule no longer means is over before the check, if there was something. */
  lemma TurnTells(w: World, c: Check, now: Time, v: Voice)
    requires Inv(w)
    ensures var k := CheckKey(c);
            var w0 := if k in w.active && w.active[k].alert.metric != c.rule.metric then FinishKey(w, k, now) else w;
            && Inv(w0) && Tells(w, w0, k, v, Turned(v, c, now), TurnSays(v, c, now))
            && (k in w0.active ==> k in w.active && w.active[k].alert.metric == c.rule.metric)
  {
    hide MakeKey, Trace, ToldOf;
    var k := CheckKey(c);
    if k in w.active && w.active[k].alert.metric != c.rule.metric {
      FinishKeyKeeps(w, k, now);
      FinishTells(w, k, now, v);
    }
  }

  lemma TellsOn(w: World, w1: World, w2: World, k: Key, v: Voice, v1: Voice, v2: Voice, a: seq<Word>, b: seq<Word>)
    requires Tells(w, w1, k, v, v1, a) && Tells(w1, w2, k, v1, v2, b)
    ensures Tells(w, w2, k, v, v2, a + b)
  {
    hide Speaks, Trace;
  }

  lemma CheckTells(w: World, c: Check, now: Time, recovery: Time, v: Voice)
    requires Inv(w)
    ensures Tells(w, CheckWorld(w, c, now, recovery), CheckKey(c), v, CheckVoice(v, c, now, recovery),
                  CheckSays(v, c, now, recovery))
  {
    hide Inv, MakeKey, Trace, Move, MoveSays, StartKey, Advance, Finish, Stop, StopSays;
    var k := CheckKey(c);
    if Speaks(w, k, v) {
      var w0 := if k in w.active && w.active[k].alert.metric != c.rule.metric then FinishKey(w, k, now) else w;
      var v0 := Turned(v, c, now);
      TurnTells(w, c, now, v);
      if k in w0.active {
        KnownTells(w0, c, now, recovery, v0);
        TellsOn(w, w0, CheckWorld(w, c, now, recovery), k, v, v0, Move(v0, c, now, recovery), TurnSays(v, c, now),
                MoveSays(v0, c, now, recovery));
      } else if c.obs == Breach {
        StartTells(w0, c, now, recovery, v0);
        TellsOn(w, w0, CheckWorld(w, c, now, recovery), k, v, v0, Move(Starting(v0, now), c, now, recovery),
                TurnSays(v, c, now), MoveSays(Starting(v0, now), c, now, recovery));
      } else {
        NoBreach(w0, c, now, recovery);
      }
    }
  }

  lemma NoBreach(w: World, c: Check, now: Time, recovery: Time)
    requires c.obs != Breach
    ensures StartKey(w, c, now, recovery) == w
  {
  }

  // ---- other keys

  lemma FinishElsewhereTells(w: World, j: Key, now: Time, k: Key, v: Voice)
    requires Inv(w) && j in w.active && j != k
    ensures Tells(w, FinishKey(w, j, now), k, v, v, [])
  {
    var t := w.active[j];
    FinishOk(t, j, ToldOf(w.log, t.alert.id), Get(w.silences, j), now);
    FinishIsAbout(t, Get(w.silences, j), j, now);
    assert t.alert.id < w.nextId;
    hide Inv, MakeKey, Finish, ToldOf, Trace, Tells, TrackedOk;
    ApplyElsewhere(w, j, t, Finish(t, Get(w.silences, j), now), k, v);
  }

  lemma StartElsewhereTells(w: World, c: Check, now: Time, recovery: Time, k: Key, v: Voice)
    requires Inv(w) && CheckKey(c) != k && CheckKey(c) !in w.active
    ensures Tells(w, StartKey(w, c, now, recovery), k, v, v, [])
  {
    hide Inv, MakeKey, Advance, ToldOf, Trace, TrackedOk;
    if c.obs == Breach {
      var j := CheckKey(c);
      var silence := Get(w.silences, j);
      var t := Fresh(c, silence, w.nextId, now);
      NewIdKeeps(w);
      AdvanceOk(t, Untold, silence, c, now, recovery);
      AdvanceIsAbout(t, silence, c, now, recovery);
      ApplyElsewhere(w.(nextId := w.nextId + 1), j, t, Advance(t, silence, c, now, recovery), k, v);
    }
  }

  lemma KnownElsewhereTells(w: World, c: Check, now: Time, recovery: Time, k: Key, v: Voice)
    requires Inv(w) && CheckKey(c) != k && CheckKey(c) in w.active
             && w.active[CheckKey(c)].alert.metric == c.rule.metric
    ensures var j := CheckKey(c);
            Tells(w, Apply(w, j, Advance(w.active[j], Get(w.silences, j), c, now, recovery)), k, v, v, [])
  {
    var j := CheckKey(c);
    var t, silence := w.active[j], Get(w.silences, j);
    AdvanceOk(t, ToldOf(w.log, t.alert.id), silence, c, now, recovery);
    AdvanceIsAbout(t, silence, c, now, recovery);
    assert t.alert.id < w.nextId;
    hide Inv, MakeKey, Advance, ToldOf, Trace, Tells, TrackedOk;
    ApplyElsewhere(w, j, t, Advance(t, silence, c, now, recovery), k, v);
  }

  lemma CheckElsewhereTells(w: World, c: Check, now: Time, recovery: Time, k: Key, v: Voice)
    requires Inv(w) && CheckKey(c) != k
    ensures Tells(w, CheckWorld(w, c, now, recovery), k, v, v, [])
  {
    hide Inv, MakeKey, Advance, StartKey, Trace, Speaks;
    var j := CheckKey(c);
    if j !in w.active {
      StartElsewhereTells(w, c, now, recovery, k, v);
    } else if w.active[j].alert.metric != c.rule.metric {
      FinishElsewhereTells(w, j, now, k, v);
      FinishKeyKeeps(w, j, now);
      StartElsewhereTells(FinishKey(w, j, now), c, now, recovery, k, v);
    } else {
      KnownElsewhereTells(w, c, now, recovery, k, v);
    }
  }

  // ---- one evaluation

  lemma {:induction false} CheckAllTells(w: World, checks: seq<Check>, now: Time, recovery: Time, k: Key, v: Voice)
    requires Inv(w) && DistinctKeys(checks)
    ensures var c := CheckOf(checks, k);
            if c.None? then Tells(w, CheckAll(w, checks, now, recovery), k, v, v, [])
            else Tells(w, CheckAll(w, checks, now, recovery), k, v,
                       EvaluateVoice(v, c, now, recovery), EvaluateSays(v, c, now, recovery))
  {
    hide Inv, Speaks, Trace, CheckWorld, CheckVoice, CheckSays, CheckKey;
    if checks != [] {
      var before, last := checks[..|checks| - 1], checks[|checks| - 1];
      CheckAllTells(w, before, now, recovery, k, v);
      var w1 := CheckAll(w, before, now, recovery);
      CheckAllKeeps(w, before, now, recovery);
      if CheckKey(last) == k {
        CheckOfIsIn(before, k);
        CheckTells(w1, last, now, recovery, v);
      } else {
        var c := CheckOf(before, k);
        CheckElsewhereTells(w1, last, now, recovery, k, if c.None? then v else EvaluateVoice(v, c, now, recovery));
      }
    }
  }

  lemma {:induction false} FinishAllTells(w: World, keys: seq<Key>, now: Time, k: Key, v: Voice)
    requires Inv(w) && (forall j :: j in keys ==> j in w.active)
    requires forall i, j :: 0 <= i < j < |keys| ==> keys[i] != keys[j]
    ensures Inv(FinishAll(w, keys, now))
    ensures if k in keys then Tells(w, FinishAll(w, keys, now), k, v, Stop(v, now), StopSays(v, now))
            else Tells(w, FinishAll(w, keys, now), k, v, v, [])
  {
    hide Inv, Speaks, Trace, FinishKey, Stop, StopSays;
    if keys != [] {
      var before, j := keys[..|keys| - 1], keys[|keys| - 1];
      assert keys == before + [j] && j !in before && j in keys;
      FinishAllTells(w, before, now, k, v);
      FinishAllRemoves(w, before, now);
      var w1 := FinishAll(w, before, now);
      assert j in w1.active;
      FinishKeyKeeps(w1, j, now);
      if j == k {
        FinishTells(w1, k, now, v);
      } else {
        FinishElsewhereTells(w1, j, now, k, if k in before then Stop(v, now) else v);
      }
    }
  }

  /** A key out of the map has nothing to stop. */
  lemma NothingToStop(w: World, k: Key, v: Voice, now: Time)
    requires k !in w.active
    ensures Tells(w, w, k, v, Stop(v, now), StopSays(v, now))
  {
    hide Trace;
  }

  lemma ExpireTells(w: World, now: Time, k: Key, v: Voice)
    ensures Tells(w, ExpireSilences(w, now), k, v, v.(kept := InForce(v.kept, now)), [])
  {
    hide Trace;
  }

  lemma EvaluateTells(w: World, op: Op, k: Key, v: Voice)
    requires Inv(w) && op.Evaluate? && Possible(w, op)
    ensures Tells(w, Do(w, op), k, v, VoiceOp(v, k, op), VoiceSays(v, k, op))
  {
    hide Inv, Speaks, Trace, CheckAll, FinishAll, ExpireSilences, CheckVoice, CheckSays, Stop, StopSays, InForce;
    var w1, c := Checked(w, op), CheckOf(ChecksOf(op), k);
    CheckAllTells(w, ChecksOf(op), op.now, op.recovery, k, v);
    CheckAllKeeps(w, ChecksOf(op), op.now, op.recovery);
    CheckOfIsIn(ChecksOf(op), k);
    var v1 := EvaluateVoice(v, c, op.now, op.recovery);
    FinishAllTells(w1, op.ended, op.now, k, if c.None? then v else v1);
    var w2 := FinishAll(w1, op.ended, op.now);
    if c.None? && k !in w1.active {
      FinishAllRemoves(w1, op.ended, op.now);
      NothingToStop(w2, k, v, op.now);
    }
    ExpireTells(w2, op.now, k, v1);
  }

  // ---- other operations

  lemma HushSaves(t: Tracked, s: Option<Silence>, kept: Option<Silence>, now: Time)
    ensures var e := Hush(t, s, kept, now);
            (e.save.Some? ==> e.save.value.id == t.alert.id) && About(e, AlertKey(t.alert))
  {
    assert AlertKey(t.alert.(silence := s)) == AlertKey(t.alert);
  }

  lemma HushShows(t: Tracked, v: Voice, s: Option<Silence>, kept: Option<Silence>, now: Time)
    requires Matches(Some(t), v) && (t.state.phase == Firing ==> t.alert.stage == StageFiring)
    requires t.state.phase == Pending ==> t.alert.stage == StagePending
    ensures var e := Hush(t, s, kept, now);
            Shows(e, v.saved, Quieted(v, s, kept, now)) && Saying(e) == [] && About(e, AlertKey(t.alert))
  {
    HushSaves(t, s, kept, now);
    hide MakeKey;
  }

  lemma HushTells(w: World, j: Key, s: Option<Silence>, kept: Option<Silence>, now: Time, k: Key, v: Voice)
    requires Inv(w) && j in w.active
    ensures var v' := if j == k then Quieted(v, s, kept, now) else v;
            Tells(w, Apply(w, j, Hush(w.active[j], s, kept, now)), k, v, v', [])
  {
    var t := w.active[j];
    var e := Hush(t, s, kept, now);
    HushOk(t, j, ToldOf(w.log, t.alert.id), s, kept, now);
    assert t.alert.id < w.nextId;
    hide MakeKey, ToldOf, Trace, EffectOk, Inv, TrackedOk;
    if j != k {
      HushSaves(t, s, kept, now);
      hide Tells, Hush;
      ApplyElsewhere(w, j, t, e, k, v);
    } else if Speaks(w, k, v) {
      HushShows(t, v, s, kept, now);
      hide Hush, Shows, Quieted;
      ApplyOnKey(w, k, t, e, v.saved, Quieted(v, s, kept, now));
    }
  }

  lemma RestoredMatches(a: Alert, t: Tracked, k: Key, told: Told, v: Voice, kept: Option<Silence>, now: Time)
    requires TrackedOk(t, k, told) && t.state.phase == Firing && Agree(a, t.alert) && Matches(Some(t), v)
             && a.silence == v.saved
    ensures Matches(Some(Restored(a, now)), Reborn(v, kept, now))
  {
    hide MakeKey;
  }

  lemma RestartTells(w: World, op: Op, k: Key, v: Voice)
    requires Inv(w) && op.Restart? && Possible(w, op)
    ensures Tells(w, Do(w, op), k, v, VoiceOp(v, k, op), [])
  {
    if Speaks(w, k, v) {
      RestartRestores(w, op.now, op.firing, k);
      var kept := Get(RecallAll(map[], op.recent, op.now), k);
      if k in w.active && w.active[k].state.phase == Firing {
        var t := w.active[k];
        RestoredMatches(w.stored[t.alert.id], t, k, ToldOf(w.log, t.alert.id), v, kept, op.now);
        assert w.stored[t.alert.id].id == t.alert.id;
      }
      hide Inv, Trace, MakeKey, RestoreAll, RecallAll, ToldOf;
    }
  }

  lemma OpTells(w: World, op: Op, k: Key, v: Voice)
    requires Inv(w) && Possible(w, op)
    ensures Tells(w, Do(w, op), k, v, VoiceOp(v, k, op), VoiceSays(v, k, op))
  {
    hide Inv, Trace, Hush, RestoreAll, RecallAll, CheckAll, FinishAll, MakeKey, Quieted, EvaluateVoice, EvaluateSays;
    match op
    case Evaluate(_, _, _, _, _) => EvaluateTells(w, op, k, v);
    case SilenceOp(j, s, now) => HushTells(w, j, Some(s), Get(w.silences, j), now, k, v);
    case UnsilenceOp(j, now) => HushTells(w, j, None, None, now, k, v);
    case Restart(_, _, _) => RestartTells(w, op, k, v);
    case Prune(_) => PruneTells(w, op, k, v);
  }

  lemma PruneTells(w: World, op: Op, k: Key, v: Voice)
    requires Inv(w) && op.Prune? && Possible(w, op)
    ensures Tells(w, Do(w, op), k, v, v, [])
  {
    hide Trace, ToldOf, MakeKey;
  }

  // ---- runs

  /**
   In every possible run, with silences and restarts, and for every key: the engine's entry, its silences and
   what is stored of it are the key's voice, and the notices of the key are exactly what the voice says.
   */
  lemma {:induction false} EveryKeySpeaks(ops: seq<Op>, k: Key)
    requires PossibleRun(Empty, ops)
    ensures Speaks(RunFrom(Empty, ops), k, VoiceRun(ops, k))
    ensures Trace(RunFrom(Empty, ops).log, k) == VoiceTrace(ops, k)
  {
    hide Speaks, Trace, VoiceOp, VoiceSays, Do, Possible;
    if ops == [] {
      StartsMute(k);
    } else {
      var before, op := ops[..|ops| - 1], ops[|ops| - 1];
      EveryKeySpeaks(before, k);
      RunKeeps(before);
      OpTells(RunFrom(Empty, before), op, k, VoiceRun(before, k));
    }
  }

  lemma StartsMute(k: Key)
    ensures Speaks(Empty, k, Mute) && Trace([], k) == []
  {
  }
}
