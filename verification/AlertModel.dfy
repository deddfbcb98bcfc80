/**
 The alert engine as a state machine over its memory, its store and the log of
 the notices it has produced.

 Everything the engine does to one key (a rule on a subject) is described by an
 `Effect` computed from what it tracks there; `Apply` carries it out. Operations
 are atomic, store writes succeed and alert IDs are never reused.
 */
module AlertModel {
  import opened Basics
  import opened AlertState

  // ---- alerts

  /** A silence; one without an end lasts until its alert resolves. */
  datatype Silence = Silence(until: Option<Time>) {
    predicate Active(now: Time) {
      until.None? || now < until.value
    }
  }

  datatype Stage = StagePending | StageFiring | StageResolved

  datatype Alert = Alert(id: nat, rule: string, site: string, slot: string, metric: string, critical: bool,
                         stage: Stage, since: Time, firedAt: Option<Time>, resolvedAt: Option<Time>,
                         notified: bool, lastNotifiedAt: Option<Time>, silence: Option<Silence>)

  datatype Tracked = Tracked(state: State, alert: Alert, savedAt: Time)

  /** A notice, with the time it was produced at and the rule's reminder interval then. */
  datatype Notice = Notice(kind: Transition, alert: Alert, at: Time, repeat: Time)

  datatype Rule = Rule(id: string, metric: string, critical: bool, forMinutes: int, repeatHours: int)

  /** One rule to evaluate on one subject; server rules have an empty site and slot. */
  datatype Check = Check(rule: Rule, site: string, slot: string, hold: bool, obs: Observation)

  datatype Key = Key(rule: string, subject: string)

  /** Lower case; rule ids are ASCII (letters, digits, '_', '.' and '-'), so only A to Z change. */
  function Lower(s: string): string {
    seq(|s|, i requires 0 <= i < |s| => if 'A' <= s[i] <= 'Z' then s[i] - 'A' + 'a' else s[i])
  }

  function SlotKey(site: string, slot: string): string {
    if slot == "" || slot == "production" then site else site + "@" + slot
  }

  function MakeKey(rule: string, site: string, slot: string): Key {
    Key(Lower(rule), SlotKey(site, slot))
  }

  function AlertKey(a: Alert): Key {
    MakeKey(a.rule, a.site, a.slot)
  }

  function CheckKey(c: Check): Key {
    MakeKey(c.rule.id, c.site, c.slot)
  }

  const SAVE_EVERY: Time := 5 * MINUTE

  function TimingOf(r: Rule, recovery: Time): Timing {
    Timing(r.forMinutes * MINUTE, recovery, r.repeatHours * HOUR)
  }

  // ---- effects on one key

  /** What becomes of a tracked alert: what is tracked and silenced now, what is saved and announced. */
  datatype Effect = Effect(tracked: Option<Tracked>, silence: Option<Silence>, save: Option<Alert>,
                           notice: Option<Notice>)

  /** Ends an alert. A pending one simply goes; a timed silence outlives a firing one. */
  function Finish(t: Tracked, silence: Option<Silence>, now: Time): Effect {
    if t.alert.stage != StageFiring then Effect(None, silence, None, None)
    else
      var a := t.alert.(stage := StageResolved, resolvedAt := Some(now));
      var timed := a.silence.Some? && a.silence.value.until.Some? && a.silence.value.Active(now);
      Effect(None, if timed then a.silence else silence, Some(a),
             if a.notified then Some(Notice(Resolve, a, now, 0)) else None)
  }

  /** A new alert for a breach, under a timed silence still in force. */
  function Fresh(c: Check, silence: Option<Silence>, id: nat, now: Time): Tracked {
    Tracked(Blank(None),
            Alert(id, c.rule.id, c.site, c.slot, c.rule.metric, c.rule.critical,
                  StagePending, 0, None, None, false, None,
                  if silence.Some? && silence.value.Active(now) then silence else None),
            0)
  }

  /** The alert as the rule is now, after a step to state `s`. */
  function Refreshed(a: Alert, r: Rule, s: State, now: Time): Alert {
    a.(rule := r.id, metric := r.metric, critical := r.critical,
       since := if s.phase != Inactive then s.since else a.since,
       silence := if a.silence.Some? && !a.silence.value.Active(now) then None else a.silence)
  }

  /** Feeds one observation to a tracked alert and acts on the transition. */
  function Advance(t: Tracked, silence: Option<Silence>, c: Check, now: Time, recovery: Time): Effect {
    var timing := TimingOf(c.rule, recovery);
    var (s, tr) := Step(t.state, c.obs, now, timing);
    Act(t, silence, s, tr, Refreshed(t.alert, c.rule, s, now), now, timing.repeat)
  }

  function Act(t: Tracked, silence: Option<Silence>, s: State, tr: Transition, a: Alert, now: Time,
               repeat: Time): Effect
  {
    var told := a.(notified := true, lastNotifiedAt := Some(now));
    match tr
    case Fire =>
      if a.silence.Some? then
        var f := a.(stage := StageFiring, firedAt := Some(now));
        Effect(Some(Tracked(s, f, now)), silence, Some(f), None)
      else
        var f := told.(stage := StageFiring, firedAt := Some(now));
        Effect(Some(Tracked(s, f, now)), silence, Some(f), Some(Notice(Fire, f, now, repeat)))
    case Remind =>
      if a.notified && a.silence.None? then
        Effect(Some(Tracked(s, told, now)), silence, Some(told), Some(Notice(Remind, told, now, repeat)))
      else Effect(Some(Tracked(s, a, t.savedAt)), silence, None, None)
    case Resolve => Finish(Tracked(s, a, t.savedAt), silence, now)
    case Stay =>
      if s.phase == Inactive then Effect(None, silence, None, None)
      else if s.phase == Firing && !a.notified && a.silence.None? then
        // The announcement that a silence held back at the time of firing.
        Effect(Some(Tracked(s.(lastNotified := now), told, now)), silence, Some(told),
               Some(Notice(Fire, told, now, repeat)))
      else if s.phase == Firing && now - t.savedAt >= SAVE_EVERY then
        Effect(Some(Tracked(s, a, now)), silence, Some(a), None)
      else Effect(Some(Tracked(s, a, t.savedAt)), silence, None, None)
  }

  /** Sets or lifts an alert's silence; saved unless pending. */
  function Hush(t: Tracked, s: Option<Silence>, kept: Option<Silence>, now: Time): Effect {
    var a := t.alert.(silence := s);
    if a.stage == StagePending then Effect(Some(t.(alert := a)), kept, None, None)
    else Effect(Some(Tracked(t.state, a, now)), kept, Some(a), None)
  }

  // ---- the world

  datatype World = World(active: map<Key, Tracked>, silences: map<Key, Silence>,
                         stored: map<nat, Alert>, nextId: nat, log: seq<Notice>)

  function Get<K, V>(m: map<K, V>, k: K): Option<V> {
    if k in m then Some(m[k]) else None
  }

  function Set<K, V>(m: map<K, V>, k: K, v: Option<V>): map<K, V> {
    if v.Some? then m[k := v.value] else m - {k}
  }

  function Apply(w: World, k: Key, e: Effect): World {
    w.(active := Set(w.active, k, e.tracked),
       silences := Set(w.silences, k, e.silence),
       stored := if e.save.Some? then w.stored[e.save.value.id := e.save.value] else w.stored,
       log := if e.notice.Some? then w.log + [e.notice.value] else w.log)
  }

  function FinishKey(w: World, k: Key, now: Time): World
    requires k in w.active
  {
    Apply(w, k, Finish(w.active[k], Get(w.silences, k), now))
  }

  /** Nothing is tracked for the check's key: only a breach starts something. */
  function StartKey(w: World, c: Check, now: Time, recovery: Time): World {
    var k := CheckKey(c);
    if c.obs != Breach then w
    else
      var t := Fresh(c, Get(w.silences, k), w.nextId, now);
      Apply(w.(nextId := w.nextId + 1), k, Advance(t, Get(w.silences, k), c, now, recovery))
  }

  function CheckWorld(w: World, c: Check, now: Time, recovery: Time): World {
    var k := CheckKey(c);
    if k !in w.active then StartKey(w, c, now, recovery)
    else if w.active[k].alert.metric != c.rule.metric then StartKey(FinishKey(w, k, now), c, now, recovery)
    else Apply(w, k, Advance(w.active[k], Get(w.silences, k), c, now, recovery))
  }

  function CheckAll(w: World, checks: seq<Check>, now: Time, recovery: Time): World {
    if checks == [] then w
    else
      var last := checks[|checks| - 1];
      var before := CheckAll(w, checks[..|checks| - 1], now, recovery);
      if last.hold then before else CheckWorld(before, last, now, recovery)
  }

  function Seen(checks: seq<Check>): set<Key> {
    set c | c in checks :: CheckKey(c)
  }

  /** Ends the alerts of `keys`, in that order. */
  function FinishAll(w: World, keys: seq<Key>, now: Time): World {
    if keys == [] then w
    else
      var before := FinishAll(w, keys[..|keys| - 1], now);
      var k := keys[|keys| - 1];
      if k in before.active then FinishKey(before, k, now) else before
  }

  function ExpireSilences(w: World, now: Time): World {
    w.(silences := map k | k in w.silences && w.silences[k].Active(now) :: w.silences[k])
  }

  function SilenceKey(w: World, k: Key, s: Silence, now: Time): World
    requires k in w.active
  {
    Apply(w, k, Hush(w.active[k], Some(s), Get(w.silences, k), now))
  }

  function UnsilenceKey(w: World, k: Key, now: Time): World
    requires k in w.active
  {
    Apply(w, k, Hush(w.active[k], None, None, now))
  }

  /** A stored firing alert as it comes back after a restart. */
  function Restored(a: Alert, now: Time): Tracked
    requires a.firedAt.Some?
  {
    var notified := if a.lastNotifiedAt.Some? then a.lastNotifiedAt.value else a.firedAt.value;
    Tracked(State(Firing, a.since, a.firedAt.value, None, None, notified), a, now)
  }

  function RestoreAll(active: map<Key, Tracked>, firing: seq<Alert>, now: Time): map<Key, Tracked> {
    if firing == [] then active
    else
      var before := RestoreAll(active, firing[..|firing| - 1], now);
      var a := firing[|firing| - 1];
      if a.firedAt.None? then before else before[AlertKey(a) := Restored(a, now)]
  }

  predicate Recallable(a: Alert, now: Time) {
    a.stage == StageResolved && a.silence.Some? && a.silence.value.until.Some? && a.silence.value.Active(now)
  }

  /** The silences of `recent` alerts, which are listed newest first: the newest wins. */
  function RecallAll(silences: map<Key, Silence>, recent: seq<Alert>, now: Time): map<Key, Silence> {
    if recent == [] then silences
    else
      var before := RecallAll(silences, recent[1..], now);
      if Recallable(recent[0], now) then before[AlertKey(recent[0]) := recent[0].silence.value] else before
  }

  // ---- operations and runs

  datatype Op =
    | Evaluate(now: Time, enabled: bool, recovery: Time, checks: seq<Check>, ended: seq<Key>)
    | SilenceOp(key: Key, silence: Silence, now: Time)
    | UnsilenceOp(key: Key, now: Time)
    | Restart(now: Time, firing: seq<Alert>, recent: seq<Alert>)
    | Prune(ids: set<nat>)

  function ChecksOf(op: Op): seq<Check>
    requires op.Evaluate?
  {
    if op.enabled then op.checks else []
  }

  ghost predicate Lists<T(!new)>(s: seq<T>, members: set<T>) {
    && (forall x :: x in s <==> x in members)
    && (forall i, j :: 0 <= i < j < |s| ==> s[i] != s[j])
  }

  ghost predicate DistinctKeys(checks: seq<Check>) {
    forall i, j :: 0 <= i < j < |checks| ==> CheckKey(checks[i]) != CheckKey(checks[j])
  }

  /** The alerts the store has as firing. */
  function StoredFiring(w: World): set<Alert> {
    set id | id in w.stored && w.stored[id].stage == StageFiring :: w.stored[id]
  }

  /** The world after the checks of an evaluation, before it ends the alerts nothing evaluates any more. */
  function Checked(w: World, op: Op): World
    requires op.Evaluate?
  {
    CheckAll(w, ChecksOf(op), op.now, op.recovery)
  }

  /** Operations that can happen: queries answer from the store, an evaluation ends every key it did not see. */
  ghost predicate Possible(w: World, op: Op) {
    match op
    case Evaluate(_, _, _, _, ended) =>
      && DistinctKeys(ChecksOf(op))
      && Lists(ended, Checked(w, op).active.Keys - Seen(ChecksOf(op)))
    case SilenceOp(k, _, _) => k in w.active
    case UnsilenceOp(k, _) => k in w.active
    case Restart(_, firing, recent) =>
      Lists(firing, StoredFiring(w)) && forall a :: a in recent ==> a in w.stored.Values
    case Prune(ids) => forall id :: id in ids && id in w.stored ==> w.stored[id].stage == StageResolved
  }

  function Do(w: World, op: Op): World {
    match op
    case Evaluate(now, _, _, _, ended) => ExpireSilences(FinishAll(Checked(w, op), ended, now), now)
    case SilenceOp(k, s, now) => if k in w.active then SilenceKey(w, k, s, now) else w
    case UnsilenceOp(k, now) => if k in w.active then UnsilenceKey(w, k, now) else w
    case Restart(now, firing, recent) =>
      w.(active := RestoreAll(map[], firing, now), silences := RecallAll(map[], recent, now))
    case Prune(ids) => w.(stored := w.stored - ids)
  }

  const Empty: World := World(map[], map[], map[], 0, [])

  function RunFrom(w: World, ops: seq<Op>): World {
    if ops == [] then w else Do(RunFrom(w, ops[..|ops| - 1]), ops[|ops| - 1])
  }

  ghost predicate PossibleRun(w: World, ops: seq<Op>) {
    ops != [] ==>
      && PossibleRun(w, ops[..|ops| - 1])
      && Possible(RunFrom(w, ops[..|ops| - 1]), ops[|ops| - 1])
  }
}
