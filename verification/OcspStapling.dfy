/**
 OCSP stapling: the handshake cache and the tracking entries as one state, and the
 steps that change them (saving a certificate, loading all at start, checking with the
 responder, expiring, deleting), each of them atomic.

 A response stands for its DER encoding: what it is signed for and says. Signature
 checking is ideal; fetching, the disk and the clock are parameters.
 */
module OcspStapling {
  import opened Basics

  datatype Id = CertId(uuid: string)

  datatype Leaf = Leaf(der: string)

  const STAPLE_MARGIN: Time := 2 * MINUTE
  const NO_NEXT_UPDATE: Time := HOUR
  const MAX_BACKOFF: Time := HOUR
  const CLOCK_SKEW: Time := 5 * MINUTE

  datatype Status = Good | Revoked | Unknown

  /** Who signed a response: the issuer itself, or a certificate it delegated to. */
  datatype Signer = Issuer | Delegate(forOcsp: bool, notBefore: Time, notAfter: Time)

  datatype Response = Response(authentic: bool, about: Leaf, signer: Signer, status: Status,
                               thisUpdate: Time, nextUpdate: Option<Time>)

  function UntilOf(r: Response): Time {
    if r.nextUpdate.Some? then r.nextUpdate.value else r.thisUpdate + NO_NEXT_UPDATE
  }

  /** Verifies a response for a leaf: authentic, about it, by someone entitled, and current. */
  predicate Verifies(r: Response, leaf: Leaf, now: Time) {
    && r.authentic && r.about == leaf
    && (r.signer.Delegate? ==> r.signer.forOcsp && r.signer.notBefore <= now <= r.signer.notAfter)
    && r.thisUpdate <= now + CLOCK_SKEW
    && now < UntilOf(r)
  }

  /** Go's division by two, which truncates towards zero. */
  function Half(d: Time): Time {
    if d >= 0 then d / 2 else -(-d / 2)
  }

  /** The next check: in the middle of the validity, or of its remainder if that has passed; at least a minute off. */
  function RefreshAt(thisUpdate: Time, until: Time, now: Time): Time {
    var mid := thisUpdate + Half(until - thisUpdate);
    var at := if mid < now then now + Half(until - now) else mid;
    Max(at, now + MINUTE)
  }

  function Pow2(n: nat): nat {
    if n == 0 then 1 else 2 * Pow2(n - 1)
  }

  /** How long to wait after the given number of failures in a row. */
  function Backoff(failures: nat): Time
    requires failures > 0
  {
    Min(MINUTE * Pow2(Min(failures - 1, 10)), MAX_BACKOFF)
  }

  lemma {:induction false} BackoffBounds(failures: nat)
    requires failures > 0
    ensures MINUTE <= Backoff(failures) <= MAX_BACKOFF && Backoff(failures) <= Backoff(failures + 1)
  {
    hide Pow2;
    Pow2Grows(Min(failures - 1, 10));
    Pow2Grows(Min(failures, 10));
  }

  lemma {:induction false} Pow2Grows(n: nat)
    ensures Pow2(n) >= 1 && Pow2(n + 1) == 2 * Pow2(n)
  {
    if n > 0 {
      Pow2Grows(n - 1);
    }
  }

  // ---- state

  datatype Standing = NoResponder | Waiting | IsGood | IsRevoked | IsUnknown | InError

  /** What the certificate itself says: has it a responder, its issuer at hand, does it demand stapling. */
  datatype Facts = Facts(responder: bool, issuer: bool, mustStaple: bool)

  datatype Entry = Entry(leaf: Leaf, issuer: bool, mustStaple: bool, standing: Standing, stapled: bool,
                         raw: Option<Response>, until: Time, nextCheck: Option<Time>, failures: nat,
                         revokedNoticed: bool, stapleWarned: bool)

  /** A cached key pair and the response its handshakes carry. */
  datatype Pair = Pair(leaf: Leaf, staple: Option<Response>)

  datatype State = State(cache: map<Id, Pair>, entries: map<Id, Entry>, disk: map<Id, Response>)

  function NewEntry(leaf: Leaf, f: Facts, now: Time): Entry {
    var asks := f.responder && f.issuer;
    Entry(leaf, asks, f.mustStaple, if asks then Waiting else if f.responder then InError else NoResponder,
          false, None, 0, if asks then Some(now) else None, 0, false, false)
  }

  function Record(e: Entry, r: Response, now: Time): Entry {
    var at := RefreshAt(r.thisUpdate, UntilOf(r), now);
    e.(raw := Some(r), until := UntilOf(r), failures := 0,
       standing := match r.status case Good => IsGood case Revoked => IsRevoked case Unknown => IsUnknown,
       nextCheck := Some(if r.status == Unknown then Min(at, now + HOUR) else at))
  }

  /** Puts a response into a certificate's handshakes, unless it was replaced meanwhile. */
  function SetStaple(s: State, id: Id, leaf: Leaf, staple: Option<Response>): State {
    if id in s.cache && s.cache[id].leaf == leaf then s.(cache := s.cache[id := Pair(leaf, staple)]) else s
  }

  /** A new entry for a pair; with `fromDisk` a saved response that still verifies goes with it. */
  function Track(s: State, id: Id, leaf: Leaf, f: Facts, fromDisk: bool, now: Time): State {
    var e := NewEntry(leaf, f, now);
    if !fromDisk then s.(disk := s.disk - {id}, entries := s.entries[id := e])
    else if e.issuer && id in s.disk && Verifies(s.disk[id], leaf, now) then
      var r := s.disk[id];
      var recorded := Record(e, r, now).(revokedNoticed := r.status == Revoked);
      if r.status == Good then
        var s1 := SetStaple(s, id, leaf, Some(r));
        s1.(entries := s1.entries[id := recorded.(stapled := id in s.cache && s.cache[id].leaf == leaf)])
      else s.(entries := s.entries[id := recorded])
    else s.(entries := s.entries[id := e])
  }

  /** New material replaces a certificate. */
  function Save(s: State, id: Id, leaf: Leaf, f: Facts, now: Time): State {
    Track(s.(cache := s.cache[id := Pair(leaf, None)]), id, leaf, f, false, now)
  }

  /** Reads a certificate at start and tracks it with what the disk remembers. */
  function Load(s: State, id: Id, leaf: Leaf, f: Facts, now: Time): State {
    Track(s.(cache := s.cache[id := Pair(leaf, None)]), id, leaf, f, true, now)
  }

  function Warned(e: Entry): Entry {
    if e.mustStaple && !e.stapled && e.raw.None? then e.(stapleWarned := true) else e
  }

  /** The entry after a valid answer. */
  function Answered(e: Entry, r: Response, stapled: bool, now: Time): Entry {
    var e1 := Record(e, r, now);
    Warned(e1.(raw := if r.status == Good then e1.raw else None, stapled := stapled,
               revokedNoticed := e.revokedNoticed || r.status == Revoked,
               stapleWarned := e.stapleWarned && !stapled))
  }

  /** The entry after no valid answer: a still-valid response is kept. */
  function Unanswered(e: Entry, now: Time): Entry {
    Warned(e.(failures := e.failures + 1, nextCheck := Some(now + Backoff(e.failures + 1)),
              standing := if e.raw.None? && e.standing != IsRevoked then InError else e.standing))
  }

  /** Applies what the responder answered: a response, or nothing usable. */
  function Check(s: State, id: Id, answer: Option<Response>, shuttingDown: bool, now: Time): State {
    if id !in s.entries || !s.entries[id].issuer then s
    else
      var e := s.entries[id];
      if answer.Some? && Verifies(answer.value, e.leaf, now) then
        var r := answer.value;
        var s1 := SetStaple(s, id, e.leaf, if r.status == Good then Some(r) else None);
        var stapled := r.status == Good && id in s.cache && s.cache[id].leaf == e.leaf;
        s1.(disk := if r.status == Unknown then s.disk else s.disk[id := r],
            entries := s.entries[id := Answered(e, r, stapled, now)])
      else if shuttingDown then s
      else s.(entries := s.entries[id := Unanswered(e, now)])
  }

  predicate Due(e: Entry, now: Time) {
    e.raw.Some? && now >= e.until - STAPLE_MARGIN
  }

  function Expired(e: Entry): Entry {
    e.(raw := None, until := 0, stapled := false, stapleWarned := e.stapleWarned || e.mustStaple,
       standing := if e.standing == IsGood then InError else e.standing)
  }

  /** Takes every response within the margin of its end out of its entry and out of the handshakes. */
  function Expire(s: State, now: Time): State {
    s.(entries := map id | id in s.entries :: if Due(s.entries[id], now) then Expired(s.entries[id]) else s.entries[id],
       cache := map id | id in s.cache ::
         if id in s.entries && Due(s.entries[id], now) && s.entries[id].leaf == s.cache[id].leaf
         then Pair(s.cache[id].leaf, None) else s.cache[id])
  }

  function Delete(s: State, id: Id): State {
    State(s.cache - {id}, s.entries - {id}, s.disk - {id})
  }

  // ---- the invariant

  /**
   The newest response of an entry is about its certificate and valid until the time it has; an entry
   claims to be good exactly with a good response at hand, and whoever can be asked is going to be.
   */
  predicate EntryOk(e: Entry) {
    && (e.raw.Some? ==> e.raw.value.authentic && e.raw.value.about == e.leaf && e.until == UntilOf(e.raw.value))
    && (e.standing == IsGood <==> e.raw.Some? && e.raw.value.status == Good)
    && (e.issuer <==> e.nextCheck.Some?)
  }

  /** Handshakes carry exactly what the entry claims: its own good response, for the cached certificate. */
  predicate StapleOk(p: Pair, e: Entry) {
    && p.leaf == e.leaf
    && (e.stapled <==> p.staple.Some?)
    && (p.staple.Some? ==> p.staple.value.status == Good && p.staple == e.raw)
  }

  ghost predicate Inv(s: State) {
    && s.entries.Keys == s.cache.Keys
    && (forall id :: id in s.entries ==> EntryOk(s.entries[id]))
    && (forall id :: id in s.cache ==> StapleOk(s.cache[id], s.entries[id]))
  }

  /**
   After a valid answer the next check is at least a minute away and, with at least twice the margin left from
   now or from when the answer says it begins, comes before the staple is dropped; a certificate the responder
   does not know is asked about within the hour.
   */
  lemma RefreshedBeforeDropped(e: Entry, r: Response, stapled: bool, now: Time)
    requires Verifies(r, e.leaf, now)
    ensures var next := Answered(e, r, stapled, now).nextCheck;
            && next.Some? && next.value >= now + MINUTE
            && (UntilOf(r) - Max(now, r.thisUpdate) >= 2 * STAPLE_MARGIN ==> next.value <= UntilOf(r) - STAPLE_MARGIN)
            && (r.status == Unknown ==> next.value <= now + HOUR)
  {
  }

  // ---- runs

  datatype Op =
    | SaveOp(id: Id, leaf: Leaf, facts: Facts, now: Time)
    | LoadOp(id: Id, leaf: Leaf, facts: Facts, now: Time)
    | CheckOp(id: Id, answer: Option<Response>, shuttingDown: bool, now: Time)
    | ExpireOp(now: Time)
    | DeleteOp(id: Id, now: Time)

  function Do(s: State, op: Op): State {
    match op
    case SaveOp(id, leaf, f, now) => Save(s, id, leaf, f, now)
    case LoadOp(id, leaf, f, now) => Load(s, id, leaf, f, now)
    case CheckOp(id, answer, down, now) => Check(s, id, answer, down, now)
    case ExpireOp(now) => Expire(s, now)
    case DeleteOp(id, _) => Delete(s, id)
  }

  function Run(s: State, ops: seq<Op>): State {
    if ops == [] then s else Do(Run(s, ops[..|ops| - 1]), ops[|ops| - 1])
  }

  lemma SaveKeeps(s: State, id: Id, leaf: Leaf, f: Facts, now: Time)
    requires Inv(s)
    ensures Inv(Save(s, id, leaf, f, now))
  {
    var e := NewEntry(leaf, f, now);
    PutKeeps(s, id, Pair(leaf, None), e, s.disk - {id});
  }

  lemma LoadKeeps(s: State, id: Id, leaf: Leaf, f: Facts, now: Time)
    requires Inv(s)
    ensures Inv(Load(s, id, leaf, f, now))
  {
    var s' := Load(s, id, leaf, f, now);
    assert EntryOk(s'.entries[id]) && StapleOk(s'.cache[id], s'.entries[id]) by {
      hide RefreshAt, Inv;
    }
    hide Load;
    assert s' == State(s.cache[id := s'.cache[id]], s.entries[id := s'.entries[id]], s'.disk) by {
      LoadIsLocal(s, id, leaf, f, now);
    }
    PutKeeps(s, id, s'.cache[id], s'.entries[id], s'.disk);
  }

  lemma LoadIsLocal(s: State, id: Id, leaf: Leaf, f: Facts, now: Time)
    ensures var s' := Load(s, id, leaf, f, now);
            && id in s'.cache && id in s'.entries
            && s' == State(s.cache[id := s'.cache[id]], s.entries[id := s'.entries[id]], s'.disk)
  {
    hide Record, NewEntry, Verifies;
  }

  /** A sound pair and entry may take the place of what there is for one certificate. */
  lemma PutKeeps(s: State, id: Id, p: Pair, e: Entry, disk: map<Id, Response>)
    requires Inv(s) && EntryOk(e) && StapleOk(p, e)
    ensures Inv(State(s.cache[id := p], s.entries[id := e], disk))
  {
    hide EntryOk, StapleOk;
  }

  lemma CheckKeeps(s: State, id: Id, answer: Option<Response>, down: bool, now: Time)
    requires Inv(s)
    ensures Inv(Check(s, id, answer, down, now))
  {
    hide RefreshAt, Backoff;
  }

  lemma ExpireKeeps(s: State, now: Time)
    requires Inv(s)
    ensures Inv(Expire(s, now))
  {
  }

  lemma OpKeeps(s: State, op: Op)
    requires Inv(s)
    ensures Inv(Do(s, op))
  {
    hide Save, Load, Check, Expire;
    match op
    case SaveOp(id, leaf, f, now) => SaveKeeps(s, id, leaf, f, now);
    case LoadOp(id, leaf, f, now) => LoadKeeps(s, id, leaf, f, now);
    case CheckOp(id, answer, down, now) => CheckKeeps(s, id, answer, down, now);
    case ExpireOp(now) => ExpireKeeps(s, now);
    case DeleteOp(id, _) =>
  }

  /**
   After every sequence of steps, a staple in the handshake cache is an authentic good
   response about the cached certificate and is the tracked entry's own.
   */
  lemma {:induction false} StaplesAreTracked(disk: map<Id, Response>, ops: seq<Op>)
    ensures Inv(Run(State(map[], map[], disk), ops))
  {
    if ops != [] {
      StaplesAreTracked(disk, ops[..|ops| - 1]);
      OpKeeps(Run(State(map[], map[], disk), ops[..|ops| - 1]), ops[|ops| - 1]);
    }
  }

  /** Every staple has more than `left` to go at `now`. */
  ghost predicate Fresh(s: State, now: Time, left: Time) {
    forall id :: id in s.cache && s.cache[id].staple.Some? ==> now + left < UntilOf(s.cache[id].staple.value)
  }

  /** After an expiry every remaining staple has more than the margin left. */
  lemma ExpireFreshens(s: State, now: Time)
    requires Inv(s)
    ensures Fresh(Expire(s, now), now, STAPLE_MARGIN)
  {
  }

  /** A step that can put a staple into the handshakes: a check answered, or a load at start. */
  predicate Installs(op: Op, id: Id, r: Response) {
    match op
    case CheckOp(i, answer, _, now) => i == id && answer == Some(r) && now < UntilOf(r)
    case LoadOp(i, _, _, now) => i == id && now < UntilOf(r)
    case _ => false
  }

  lemma OpOrigin(s: State, op: Op, id: Id)
    requires id in Do(s, op).cache && Do(s, op).cache[id].staple.Some?
    ensures var r := Do(s, op).cache[id].staple;
            Installs(op, id, r.value) || (id in s.cache && s.cache[id].staple == r)
  {
  }

  /**
   Between an expiry at time `t` and the next, at most the margin later, a staple is still valid
   unless a check or a load installed it after that expiry: then it was valid when installed.
   */
  lemma {:induction false} ValidUntilNextExpiry(s: State, t: Time, ops: seq<Op>, id: Id)
    requires Inv(s)
    requires id in Run(Expire(s, t), ops).cache && Run(Expire(s, t), ops).cache[id].staple.Some?
    ensures var r := Run(Expire(s, t), ops).cache[id].staple.value;
            || t + STAPLE_MARGIN < UntilOf(r)
            || exists i :: 0 <= i < |ops| && Installs(ops[i], id, r)
  {
    if ops == [] {
      ExpireFreshens(s, t);
    } else {
      var before := ops[..|ops| - 1];
      var s1 := Run(Expire(s, t), before);
      OpOrigin(s1, ops[|ops| - 1], id);
      if !Installs(ops[|ops| - 1], id, Run(Expire(s, t), ops).cache[id].staple.value) {
        ValidUntilNextExpiry(s, t, before, id);
      }
    }
  }

  /** While nothing is installed, handshakes carry no expired response for the margin after an expiry. */
  lemma HandshakesStayValid(s: State, t: Time, ops: seq<Op>, now: Time)
    requires Inv(s) && now <= t + STAPLE_MARGIN
    requires forall op :: op in ops ==> !op.CheckOp? && !op.LoadOp?
    ensures Fresh(Run(Expire(s, t), ops), now, 0)
  {
    forall id | id in Run(Expire(s, t), ops).cache && Run(Expire(s, t), ops).cache[id].staple.Some?
      ensures now < UntilOf(Run(Expire(s, t), ops).cache[id].staple.value)
    {
      ValidUntilNextExpiry(s, t, ops, id);
    }
  }

  /** A handshake of the certificate at time `t` carries a response that has expired. */
  predicate CarriesExpired(s: State, id: Id, t: Time) {
    id in s.cache && s.cache[id].staple.Some? && UntilOf(s.cache[id].staple.value) <= t
  }

  /**
   A step that neither expires responses nor replaces the certificate or its response: other certificates, or no
   answer.
   */
  predicate LeavesStaple(op: Op, id: Id) {
    match op
    case ExpireOp(_) => false
    case CheckOp(i, answer, _, _) => i != id || answer.None?
    case _ => op.id != id
  }

  lemma StapleStays(s: State, op: Op, id: Id)
    requires LeavesStaple(op, id) && id in s.cache
    ensures id in Do(s, op).cache && Do(s, op).cache[id] == s.cache[id]
  {
  }

  lemma {:induction false} StapleStaysLong(s: State, ops: seq<Op>, id: Id)
    requires id in s.cache && forall op :: op in ops ==> LeavesStaple(op, id)
    ensures id in Run(s, ops).cache && Run(s, ops).cache[id] == s.cache[id]
  {
    hide Do, LeavesStaple;
    if ops != [] {
      var before := ops[..|ops| - 1];
      assert ops[|ops| - 1] in ops && forall op :: op in before ==> op in ops;
      StapleStaysLong(s, before, id);
      StapleStays(Run(s, before), ops[|ops| - 1], id);
    }
  }

  /** After some of the steps `ops`, at a time up to `e`, a handshake of `id` carries an expired response. */
  ghost predicate OutlivesBy(s: State, ops: seq<Op>, id: Id, now: Time, e: Time) {
    exists n, t :: 0 <= n <= |ops| && now <= t <= e && CarriesExpired(Run(s, ops[..n]), id, t)
  }

  /** A good response put into the handshakes at time `now`: the answer to a check, or what the disk had at start. */
  ghost predicate PutsStaple(s: State, op: Op, id: Id, r: Response, now: Time) {
    && r.status == Good
    && match op
       case CheckOp(i, answer, _, t) =>
         i == id && t == now && answer == Some(r) && id in s.entries && s.entries[id].issuer
         && Verifies(r, s.entries[id].leaf, now)
       case LoadOp(i, leaf, f, t) =>
         i == id && t == now && f.responder && f.issuer && id in s.disk && s.disk[id] == r && Verifies(r, leaf, now)
       case _ => false
  }

  /**
   A good response from a check or from the disk is stapled at once and stays through all steps that do not expire
   it or touch its certificate. So with the next expiry at time `e`, some handshake before it carries an expired
   response if and only if the response is not valid beyond that expiry, whatever else happens meanwhile.
   */
  lemma NewStapleValidExactly(s: State, op: Op, id: Id, r: Response, now: Time, ops: seq<Op>, e: Time)
    requires Inv(s) && PutsStaple(s, op, id, r, now) && now <= e
    requires forall op :: op in ops ==> LeavesStaple(op, id)
    ensures var s1 := Do(s, op);
            && id in Run(s1, ops).cache && Run(s1, ops).cache[id].staple == Some(r)
            && (OutlivesBy(s1, ops, id, now, e) <==> UntilOf(r) <= e)
  {
    var s1 := Do(s, op);
    assert id in s1.cache && s1.cache[id].staple == Some(r);
    hide Inv, Do, Run, LeavesStaple, PutsStaple;
    StapleStaysLong(s1, ops, id);
    forall n, t | 0 <= n <= |ops| ensures CarriesExpired(Run(s1, ops[..n]), id, t) <==> UntilOf(r) <= t {
      assert forall op :: op in ops[..n] ==> op in ops;
      StapleStaysLong(s1, ops[..n], id);
    }
    assert CarriesExpired(Run(s1, ops[..0]), id, e) <==> UntilOf(r) <= e;
  }

  /** A check asked for by hand is not followed by an expiry: its staple can outlive its validity. */
  lemma CheckByHandCanOutlive()
    ensures exists r: Response, leaf: Leaf, f: Facts, id: Id ::
              var s := Run(State(map[], map[], map[]), [SaveOp(id, leaf, f, 0), CheckOp(id, Some(r), false, 0)]);
              id in s.cache && s.cache[id].staple == Some(r) && UntilOf(r) < 2 * SECOND
  {
    var id, leaf := CertId("a"), Leaf("b");
    var r := Response(true, leaf, Issuer, Good, 0, Some(SECOND));
    var ops := [SaveOp(id, leaf, Facts(true, true, false), 0), CheckOp(id, Some(r), false, 0)];
    var empty := State(map[], map[], map[]);
    assert ops[..1] == [ops[0]] && ops[..1][..0] == [];
    assert Run(empty, ops[..1]) == Do(empty, ops[0]);
    var s := Run(empty, ops);
    assert s == Do(Do(empty, ops[0]), ops[1]);
    assert id in s.cache && s.cache[id].staple == Some(r) && UntilOf(r) < 2 * SECOND;
  }

  // ---- the manager

  /** The cache without the staples of `ids`. */
  function Cleared(cache: map<Id, Pair>, ids: set<Id>): map<Id, Pair> {
    map id | id in cache :: if id in ids then Pair(cache[id].leaf, None) else cache[id]
  }

  lemma ClearNothing(cache: map<Id, Pair>)
    ensures Cleared(cache, {}) == cache
  {
  }

  lemma ClearOneMore(cache: map<Id, Pair>, ids: set<Id>, id: Id)
    requires id in cache && id !in ids
    ensures id in Cleared(cache, ids) && Cleared(cache, ids)[id] == cache[id]
    ensures Cleared(cache, ids + {id}) == Cleared(cache, ids)[id := Pair(cache[id].leaf, None)]
  {
  }

  function Marked(entries: map<Id, Entry>, ids: set<Id>): map<Id, Entry> {
    map id | id in entries :: if id in ids then Expired(entries[id]) else entries[id]
  }

  lemma DropsCached(s: State)
    requires Inv(s)
    ensures forall id :: id in s.entries ==> id in s.cache && s.cache[id].leaf == s.entries[id].leaf
  {
  }

  lemma ExpireClears(s: State, now: Time)
    requires Inv(s)
    ensures var drops := set id | id in s.entries && Due(s.entries[id], now);
            Expire(s, now) == State(Cleared(s.cache, drops), Marked(s.entries, drops), s.disk)
  {
  }

  // ---- a pass

  /** The certificates whose responder is to be asked at `now`. */
  function DueIds(entries: map<Id, Entry>, now: Time): set<Id> {
    set id | id in entries && entries[id].nextCheck.Some? && entries[id].nextCheck.value <= now
  }

  /**
   The state after an expiry and, for each certificate of `asked` in turn, its check and another expiry.
   Step `i` happens at `clock(i)`, and `cancelled(i)` says whether the service was shutting down by then.
   */
  function AfterPass(s: State, asked: seq<Id>, answers: map<Id, Response>, clock: nat -> Time,
                     cancelled: nat -> bool): State
  {
    if asked == [] then Expire(s, clock(0))
    else
      var n, id := |asked|, asked[|asked| - 1];
      var before := AfterPass(s, asked[..n - 1], answers, clock, cancelled);
      var answer := if id in answers then Some(answers[id]) else None;
      Expire(Check(before, id, answer, cancelled(2 * n - 1), clock(2 * n - 1)), clock(2 * n))
  }

  /** No one is asked twice, and no one who is not due. */
  ghost predicate OnceEach(asked: seq<Id>, due: set<Id>) {
    && (forall id :: id in asked ==> id in due)
    && (forall i, j :: 0 <= i < j < |asked| ==> asked[i] != asked[j])
  }

  lemma NoneYet(due: set<Id>)
    ensures OnceEach([], due)
  {
  }

  lemma OnceMore(asked: seq<Id>, due: set<Id>, id: Id)
    requires OnceEach(asked, due) && id in due && id !in asked
    ensures OnceEach(asked + [id], due)
  {
  }

  class Manager {
    var cache: map<Id, Pair>
    var entries: map<Id, Entry>
    var disk: map<Id, Response>

    ghost function S(): State
      reads this
    {
      State(cache, entries, disk)
    }

    constructor (disk: map<Id, Response>)
      ensures S() == State(map[], map[], disk)
    {
      cache, entries, this.disk := map[], map[], disk;
    }

    method PutStaple(id: Id, leaf: Leaf, staple: Option<Response>) returns (done: bool)
      modifies this`cache
      ensures S() == SetStaple(old(S()), id, leaf, staple)
      ensures done <==> id in old(cache) && old(cache)[id].leaf == leaf
    {
      if id !in cache || cache[id].leaf != leaf {
        return false;
      }
      if cache[id].staple == staple {
        assert cache[id := Pair(leaf, staple)] == cache;
        return true;
      }
      cache := cache[id := Pair(leaf, staple)];
      return true;
    }

    method TrackPair(id: Id, leaf: Leaf, f: Facts, fromDisk: bool, now: Time)
      modifies this
      ensures S() == Track(old(S()), id, leaf, f, fromDisk, now)
    {
      var e := NewEntry(leaf, f, now);
      if !fromDisk {
        disk := disk - {id};
      }
      var staple := None;
      if e.issuer && fromDisk && id in disk && Verifies(disk[id], leaf, now) {
        var r := disk[id];
        e := Record(e, r, now).(revokedNoticed := r.status == Revoked);
        if r.status == Good {
          staple := Some(r);
        }
      }
      if staple.Some? {
        var done := PutStaple(id, leaf, staple);
        e := e.(stapled := done);
      }
      entries := entries[id := e];
    }

    method SavePair(id: Id, leaf: Leaf, f: Facts, now: Time)
      modifies this
      ensures S() == Save(old(S()), id, leaf, f, now)
    {
      cache := cache[id := Pair(leaf, None)];
      TrackPair(id, leaf, f, false, now);
    }

    static method TakeAnswer(e0: Entry, r: Response, stapled: bool, now: Time) returns (e: Entry)
      ensures e == Answered(e0, r, stapled, now)
    {
      e := Record(e0, r, now);
      if r.status != Good {
        e := e.(raw := None);
      }
      e := e.(stapled := stapled);
      if r.status == Revoked && !e.revokedNoticed {
        e := e.(revokedNoticed := true);
      }
      if stapled {
        e := e.(stapleWarned := false);
      }
      if e.mustStaple && !e.stapled && e.raw.None? && !e.stapleWarned {
        e := e.(stapleWarned := true);
      }
    }

    static method TakeFailure(e0: Entry, now: Time) returns (e: Entry)
      ensures e == Unanswered(e0, now)
    {
      hide Backoff;
      e := e0.(failures := e0.failures + 1);
      e := e.(nextCheck := Some(now + Backoff(e.failures)));
      if e.raw.None? && e.standing != IsRevoked {
        e := e.(standing := InError);
      }
      if e.mustStaple && !e.stapled && e.raw.None? && !e.stapleWarned {
        e := e.(stapleWarned := true);
      }
    }

    method CheckOne(id: Id, answer: Option<Response>, shuttingDown: bool, now: Time)
      modifies this
      ensures S() == Check(old(S()), id, answer, shuttingDown, now)
    {
      hide Verifies, Answered, Unanswered;
      if id !in entries || !entries[id].issuer {
        return;
      }
      var e := entries[id];
      var valid := answer.Some? && Verifies(answer.value, e.leaf, now);
      if !valid && shuttingDown {
        return;
      }
      if valid {
        var r := answer.value;
        if r.status != Unknown {
          disk := disk[id := r];
        }
        // The handshakes come first, so that the entry can say what became of them.
        var done := PutStaple(id, e.leaf, if r.status == Good then Some(r) else None);
        e := TakeAnswer(e, r, done && r.status == Good, now);
      } else {
        e := TakeFailure(e, now);
      }
      entries := entries[id := e];
    }

    /** Takes the staples of the given certificates out of the handshakes. */
    method ClearStaples(ids: set<Id>)
      requires forall id :: id in ids ==> id in cache && id in entries && cache[id].leaf == entries[id].leaf
      modifies this`cache
      ensures cache == Cleared(old(cache), ids)
    {
      hide Cleared;
      var left := ids;
      ClearNothing(cache);
      assert ids - left == {};
      while left != {}
        invariant left <= ids && cache == Cleared(old(cache), ids - left)
        decreases |left|
      {
        var id :| id in left;
        ClearOneMore(old(cache), ids - left, id);
        assert ids - (left - {id}) == ids - left + {id};
        var _ := PutStaple(id, entries[id].leaf, None);
        left := left - {id};
      }
      assert ids - left == ids;
    }

    /** Updates the entries that are due, then takes their staples out of the handshakes. */
    method ExpireAll(now: Time)
      requires Inv(S())
      modifies this
      ensures S() == Expire(old(S()), now) && Inv(S()) && Fresh(S(), now, STAPLE_MARGIN)
    {
      ExpireKeeps(S(), now);
      ExpireFreshens(S(), now);
      ExpireClears(S(), now);
      DropsCached(S());
      hide Inv, Fresh, Expire, Cleared;
      var drops := set id | id in entries && Due(entries[id], now);
      entries := Marked(entries, drops);
      ClearStaples(drops);
    }

    /**
     One pass: drop what is nearly out of date, then ask the responders that are due at `now`, in whatever
     order, with an expiry after each answer, until all are asked or the service shuts down.
     */
    method Pass(answers: map<Id, Response>, now: Time, clock: nat -> Time, cancelled: nat -> bool)
      returns (ghost asked: seq<Id>)
      requires Inv(S())
      modifies this
      ensures S() == AfterPass(old(S()), asked, answers, clock, cancelled) && Inv(S())
      ensures Fresh(S(), clock(2 * |asked|), STAPLE_MARGIN)
      ensures var due := DueIds(Expire(old(S()), clock(0)).entries, now);
              OnceEach(asked, due) && (!cancelled(2 * |asked|) ==> forall id :: id in due ==> id in asked)
    {
      hide Inv, Fresh, Expire, Check, OnceEach;
      asked := [];
      ExpireAll(clock(0));
      var due := DueIds(entries, now);
      ghost var all := due;
      NoneYet(all);
      var n := 0;
      while due != {} && !cancelled(2 * n)
        invariant n == |asked| && S() == AfterPass(old(S()), asked, answers, clock, cancelled)
        invariant Inv(S()) && Fresh(S(), clock(2 * n), STAPLE_MARGIN)
        invariant due <= all && OnceEach(asked, all) && forall id :: id in all && id !in due <==> id in asked
        decreases |due|
      {
        var id :| id in due;
        due := due - {id};
        OnceMore(asked, all, id);
        var answer := if id in answers then Some(answers[id]) else None;
        CheckKeeps(S(), id, answer, cancelled(2 * n + 1), clock(2 * n + 1));
        CheckOne(id, answer, cancelled(2 * n + 1), clock(2 * n + 1));
        ExpireAll(clock(2 * n + 2));
        assert (asked + [id])[..n] == asked;
        asked, n := asked + [id], n + 1;
      }
    }

    method DeletePair(id: Id)
      modifies this
      ensures S() == Delete(old(S()), id)
    {
      cache := cache - {id};
      entries := entries - {id};
      disk := disk - {id};
    }
  }
}
