/**
 When scheduled backups run: the search for the next scheduled time, in a zone with a
 fixed offset (local time counts from a midnight), and the tick loop that acts on it.
 */
module BackupSchedule {
  import opened Basics

  // ---- the schedule

  /** A time of day and the weekdays it applies to (0 is Sunday); no weekdays means every day. */
  datatype Schedule = Schedule(hour: nat, minute: nat, weekdays: seq<int>)

  const COLON: byte := 58

  /** A character minus '0', in Go's wrapping byte arithmetic. */
  function Digit(b: byte): int {
    (b as int + 208) % 256
  }

  /** "hh:mm", read as the code reads it. */
  function ParseTime(hhmm: Bytes, weekdays: seq<int>): Option<Schedule> {
    if |hhmm| != 5 || hhmm[2] != COLON then None
    else
      var h := Digit(hhmm[0]) * 10 + Digit(hhmm[1]);
      var m := Digit(hhmm[3]) * 10 + Digit(hhmm[4]);
      if h > 23 || m > 59 then None else Some(Schedule(h, m, weekdays))
  }

  /** The text of a time of day. */
  function Written(h: nat, m: nat): Bytes
    requires h <= 23 && m <= 59
  {
    [48 + h / 10, 48 + h % 10, COLON, 48 + m / 10, 48 + m % 10]
  }

  predicate IsDigit(b: byte) {
    48 <= b <= 57
  }

  /** What the settings take for a time, by the pattern ([01][0-9]|2[0-3]):[0-5][0-9] over the whole text. */
  predicate SettingsAccept(s: Bytes) {
    && |s| == 5
    && ((48 <= s[0] <= 49 && IsDigit(s[1])) || (s[0] == 50 && 48 <= s[1] <= 51))
    && s[2] == COLON && 48 <= s[3] <= 53 && IsDigit(s[4])
  }

  lemma DigitIs(b: byte)
    ensures Digit(b) == if b >= 48 then b - 48 else b + 208
  {
  }

  lemma TwoDigits(n: nat)
    requires n <= 99
    ensures n == 10 * (n / 10) + n % 10 && n / 10 <= 9
  {
  }

  /** The settings accept exactly the written times of day, and each of them is read as written. */
  lemma SettingsTimesParse(s: Bytes, weekdays: seq<int>)
    ensures SettingsAccept(s) <==> exists h: nat, m: nat :: h <= 23 && m <= 59 && s == Written(h, m)
    ensures forall h: nat, m: nat :: h <= 23 && m <= 59 && s == Written(h, m) ==>
              ParseTime(s, weekdays) == Some(Schedule(h, m, weekdays))
  {
    forall h: nat, m: nat | h <= 23 && m <= 59 && s == Written(h, m)
      ensures SettingsAccept(s) && ParseTime(s, weekdays) == Some(Schedule(h, m, weekdays))
    {
      WrittenParses(h, m, weekdays);
    }
    if SettingsAccept(s) {
      var h, m := 10 * (s[0] as int - 48) + s[1] as int - 48, 10 * (s[3] as int - 48) + s[4] as int - 48;
      TwoDigits(h);
      TwoDigits(m);
      assert s == Written(h, m);
    }
  }

  lemma WrittenParses(h: nat, m: nat, weekdays: seq<int>)
    requires h <= 23 && m <= 59
    ensures SettingsAccept(Written(h, m)) && ParseTime(Written(h, m), weekdays) == Some(Schedule(h, m, weekdays))
  {
    TwoDigits(h);
    TwoDigits(m);
    var s := Written(h, m);
    DigitIs(s[0]);
    DigitIs(s[1]);
    DigitIs(s[3]);
    DigitIs(s[4]);
    hide Digit;
  }

  /**
   The settings let in nothing that does not parse, and of what parses they keep out exactly the text
   whose second or last character is no digit ("0::30" would be read as 10:30).
   */
  lemma SettingsGuardParse(s: Bytes, weekdays: seq<int>)
    ensures SettingsAccept(s) <==> ParseTime(s, weekdays).Some? && IsDigit(s[1]) && IsDigit(s[4])
  {
    if |s| == 5 {
      DigitIs(s[0]);
      DigitIs(s[1]);
      DigitIs(s[3]);
      DigitIs(s[4]);
    }
  }

  // ---- instants

  function DayOf(t: Time): int {
    t / 86_400_000_000_000
  }

  function Instant(day: int, s: Schedule): Time {
    86_400_000_000_000 * day + 3_600_000_000_000 * s.hour + 60_000_000_000 * s.minute
  }

  /** Day 0, 1 January 1970, was a Thursday. */
  function Weekday(day: int): int {
    (day + 4) % 7
  }

  predicate OnDay(s: Schedule, day: int) {
    s.weekdays == [] || Weekday(day) in s.weekdays
  }

  predicate ScheduledOn(s: Schedule, day: int, c: Time) {
    OnDay(s, day) && c == Instant(day, s)
  }

  /** `c` is one of the schedule's instants. */
  ghost predicate Scheduled(s: Schedule, c: Time) {
    exists day :: ScheduledOn(s, day, c)
  }

  ghost predicate Valid(s: Schedule) {
    s.hour <= 23 && s.minute <= 59
  }

  /** Some day of every week is meant: without one, nothing is ever scheduled. */
  predicate HasDays(s: Schedule) {
    s.weekdays == [] || exists d :: d in s.weekdays && 0 <= d <= 6
  }

  lemma InstantOnItsDay(s: Schedule, day: int)
    requires Valid(s)
    ensures DayOf(Instant(day, s)) == day && Instant(day, s) < Instant(day + 1, s)
  {
  }

  lemma DaysInOrder(t: Time, c: Time)
    requires t <= c
    ensures DayOf(t) <= DayOf(c)
  {
  }

  lemma NextDayIsLater(t: Time, s: Schedule, day: int)
    requires Valid(s) && day > DayOf(t)
    ensures Instant(day, s) > t
  {
  }

  /** Any seven days in a row hold every weekday. */
  lemma EveryWeekday(day: int, d: int) returns (n: int)
    requires 0 <= d <= 6
    ensures day < n <= day + 7 && Weekday(n) == d
  {
    n := day + 1 + (d - Weekday(day + 1) + 7) % 7;
  }

  /** No instant of the schedule lies after `t` and before day `n`. */
  ghost predicate NoneBefore(s: Schedule, t: Time, n: int) {
    forall day :: DayOf(t) <= day < n ==> !(OnDay(s, day) && Instant(day, s) > t)
  }

  /** The first such day holds the least instant after `t`. */
  lemma FirstDayIsLeast(s: Schedule, t: Time, day: int, c: Time)
    requires Valid(s) && NoneBefore(s, t, day) && Scheduled(s, c) && c > t
    ensures Instant(day, s) <= c
  {
    var d :| ScheduledOn(s, d, c);
    InstantOnItsDay(s, d);
    DaysInOrder(t, c);
    assert d >= day;
  }

  /** Searches day by day, from the day of `t` on, for the least instant later than `t`. */
  method NextOf(s: Schedule, t: Time) returns (r: Option<Time>)
    requires Valid(s)
    ensures r.Some? <==> HasDays(s)
    ensures r.Some? ==> r.value > t && Scheduled(s, r.value) && forall c :: Scheduled(s, c) && c > t ==> r.value <= c
    ensures r.None? ==> forall c :: !Scheduled(s, c)
  {
    var today := DayOf(t);
    for i := 0 to 9
      invariant NoneBefore(s, t, today + i)
    {
      var c := Instant(today + i, s);
      if c <= t {
        continue;
      }
      if |s.weekdays| == 0 || Weekday(today + i) in s.weekdays {
        assert ScheduledOn(s, today + i, c);
        forall c' | Scheduled(s, c') && c' > t ensures c <= c' {
          FirstDayIsLeast(s, t, today + i, c');
        }
        WeekdayInRange(today + i);
        return Some(c);
      }
    }
    NoneInAWeek(s, t);
    return None;
  }

  lemma WeekdayInRange(day: int)
    ensures 0 <= Weekday(day) <= 6
  {
  }

  /** Nothing in the week after today means nothing ever. */
  lemma NoneInAWeek(s: Schedule, t: Time)
    requires Valid(s) && NoneBefore(s, t, DayOf(t) + 9)
    ensures !HasDays(s) && forall c :: !Scheduled(s, c)
  {
    var today := DayOf(t);
    forall n | today < n <= today + 7 ensures !OnDay(s, n) {
      NextDayIsLater(t, s, n);
    }
    assert !OnDay(s, today + 1);
    forall d | 0 <= d <= 6 ensures d !in s.weekdays {
      var n := EveryWeekday(today, d);
      assert !OnDay(s, n);
    }
    forall c ensures !Scheduled(s, c) {
      forall day ensures !ScheduledOn(s, day, c) {
        WeekdayInRange(day);
      }
    }
  }

  /**
   `Next`: the least scheduled instant strictly after `t`. It fails exactly for a time that
   does not parse and for weekdays none of which exists.
   */
  method Next(hhmm: Bytes, weekdays: seq<int>, t: Time) returns (r: Option<Time>)
    ensures var s := ParseTime(hhmm, weekdays);
            && (r.Some? <==> s.Some? && HasDays(s.value))
            && (r.Some? ==> r.value > t && Scheduled(s.value, r.value)
                            && forall c :: Scheduled(s.value, c) && c > t ==> r.value <= c)
            && (r.None? && s.Some? ==> forall c :: !Scheduled(s.value, c))
  {
    var s := ParseTime(hhmm, weekdays);
    if s.None? {
      return None;
    }
    r := NextOf(s.value, t);
  }

  /** With settings as they are validated there is always a next time. */
  lemma SettingsAlwaysSchedule(hhmm: Bytes, weekdays: seq<int>)
    requires SettingsAccept(hhmm) && forall i :: 0 <= i < |weekdays| ==> 0 <= weekdays[i] <= 6
    ensures ParseTime(hhmm, weekdays).Some? && HasDays(ParseTime(hhmm, weekdays).value)
  {
    SettingsGuardParse(hhmm, weekdays);
    hide SettingsAccept;
    if weekdays != [] {
      var s := ParseTime(hhmm, weekdays).value;
      assert s.weekdays == weekdays && 0 <= weekdays[0] <= 6;
      assert weekdays[0] in s.weekdays;
    }
  }

  // ---- the tick loop

  /** One tick: the time, the schedule as set then, and the time once a run started there is over. */
  datatype Tick = Tick(now: Time, enabled: bool, hhmm: Bytes, weekdays: seq<int>, after: Time)

  /** The instant `c` is scheduled by the settings at a tick. */
  ghost predicate Wanted(k: Tick, c: Time) {
    var s := ParseTime(k.hhmm, k.weekdays);
    k.enabled && s.Some? && Scheduled(s.value, c)
  }

  /** The end of the stretch checked before tick `i`. */
  function Last(start: Time, ticks: seq<Tick>, runs: seq<bool>, i: nat): Time
    requires i <= |ticks| && i <= |runs|
  {
    if i == 0 then start else if runs[i - 1] then ticks[i - 1].after else ticks[i - 1].now
  }

  /** Tick `i` sees instant `c` pass. */
  ghost predicate Sees(start: Time, ticks: seq<Tick>, runs: seq<bool>, i: nat, c: Time)
    requires i < |ticks| && i <= |runs|
  {
    Last(start, ticks, runs, i) < c <= ticks[i].now
  }

  /** A run starts exactly at the ticks that see a wanted instant pass. */
  ghost predicate RunsRight(start: Time, ticks: seq<Tick>, runs: seq<bool>, n: nat)
    requires n <= |ticks| && n <= |runs|
  {
    forall i :: 0 <= i < n ==> (runs[i] <==> exists c :: Wanted(ticks[i], c) && Sees(start, ticks, runs, i, c))
  }

  /** Whether a tick starts a run, and the end of the stretch checked by it. */
  method TakeTick(last: Time, k: Tick) returns (ran: bool, now: Time)
    ensures ran <==> exists c :: Wanted(k, c) && last < c <= k.now
    ensures now == if ran then k.after else k.now
  {
    hide Scheduled;
    now, ran := k.now, false;
    if k.enabled {
      var next := Next(k.hhmm, k.weekdays, last);
      if next.Some? && next.value <= now {
        assert Wanted(k, next.value);
        ran := true;
        now := k.after;
      }
    }
  }

  /** The scheduler's loop over the ticks it receives; `runs[i]` says whether tick `i` started a run. */
  method Loop(start: Time, ticks: seq<Tick>) returns (runs: seq<bool>)
    ensures |runs| == |ticks| && RunsRight(start, ticks, runs, |ticks|)
  {
    hide Wanted, RunsRight;
    runs := [];
    var last := start;
    NoRuns(start, ticks);
    for i := 0 to |ticks|
      invariant |runs| == i && last == Last(start, ticks, runs, i) && RunsRight(start, ticks, runs, i)
    {
      var ran, now := TakeTick(last, ticks[i]);
      RunsExtend(start, ticks, runs, ran);
      runs := runs + [ran];
      last := now;
    }
  }

  lemma NoRuns(start: Time, ticks: seq<Tick>)
    ensures RunsRight(start, ticks, [], 0)
  {
  }

  lemma RunsExtend(start: Time, ticks: seq<Tick>, runs: seq<bool>, ran: bool)
    requires |runs| < |ticks| && RunsRight(start, ticks, runs, |runs|)
    requires ran <==> exists c :: Wanted(ticks[|runs|], c) && Last(start, ticks, runs, |runs|) < c <= ticks[|runs|].now
    ensures RunsRight(start, ticks, runs + [ran], |runs| + 1)
  {
    var all := runs + [ran];
    forall i | 0 <= i <= |runs|
      ensures all[i] <==> exists c :: Wanted(ticks[i], c) && Sees(start, ticks, all, i, c)
    {
      assert Last(start, ticks, all, i) == Last(start, ticks, runs, i);
      if i < |runs| {
        assert runs[i] <==> exists c :: Wanted(ticks[i], c) && Sees(start, ticks, runs, i, c);
        assert forall c :: Sees(start, ticks, all, i, c) == Sees(start, ticks, runs, i, c);
      } else {
        assert forall c :: Sees(start, ticks, all, i, c) == (Last(start, ticks, runs, i) < c <= ticks[i].now);
      }
    }
  }

  /** The clock does not run backwards: between ticks, nor during a run. */
  ghost predicate ClockForward(start: Time, ticks: seq<Tick>, runs: seq<bool>)
    requires |runs| == |ticks|
  {
    forall i :: 0 <= i < |ticks| ==>
      Last(start, ticks, runs, i) <= ticks[i].now && (runs[i] ==> ticks[i].now <= ticks[i].after)
  }

  lemma LastMoves(start: Time, ticks: seq<Tick>, runs: seq<bool>, i: nat)
    requires |runs| == |ticks| && ClockForward(start, ticks, runs) && i < |ticks|
    ensures Last(start, ticks, runs, i) <= ticks[i].now <= Last(start, ticks, runs, i + 1)
  {
  }

  lemma {:induction false} LastGrows(start: Time, ticks: seq<Tick>, runs: seq<bool>, i: nat, j: nat)
    requires |runs| == |ticks| && ClockForward(start, ticks, runs) && i <= j <= |ticks|
    ensures Last(start, ticks, runs, i) <= Last(start, ticks, runs, j)
    ensures i < j ==> ticks[i].now <= Last(start, ticks, runs, i + 1) <= Last(start, ticks, runs, j)
  {
    hide Last, ClockForward;
    if i < j {
      LastGrows(start, ticks, runs, i, j - 1);
      LastMoves(start, ticks, runs, j - 1);
      LastMoves(start, ticks, runs, i);
    }
  }

  /** No instant is seen by two ticks, so none causes two runs. */
  lemma NoInstantTwice(start: Time, ticks: seq<Tick>, runs: seq<bool>, i: nat, j: nat, c: Time)
    requires |runs| == |ticks| && ClockForward(start, ticks, runs) && i < |ticks| && j < |ticks|
    requires Sees(start, ticks, runs, i, c) && Sees(start, ticks, runs, j, c)
    ensures i == j
  {
    if i < j {
      LastGrows(start, ticks, runs, i, j);
    } else if j < i {
      LastGrows(start, ticks, runs, j, i);
    }
  }

  /** An instant that passes while a backup runs is seen by no tick: it is skipped, not caught up. */
  lemma PassedDuringRunIsSkipped(start: Time, ticks: seq<Tick>, runs: seq<bool>, i: nat, c: Time, j: nat)
    requires |runs| == |ticks| && ClockForward(start, ticks, runs) && i < |ticks| && j < |ticks|
    requires runs[i] && ticks[i].now < c <= ticks[i].after
    ensures !Sees(start, ticks, runs, j, c)
  {
    if i < j {
      LastGrows(start, ticks, runs, i, j);
    } else if j < i {
      LastGrows(start, ticks, runs, j, i);
    }
  }

  /** Every other instant up to the end of the loop is seen by a tick. */
  lemma {:induction false} EveryInstantSeen(start: Time, ticks: seq<Tick>, runs: seq<bool>, n: nat, c: Time)
    returns (i: nat)
    requires |runs| == |ticks| && n <= |ticks| && start < c <= Last(start, ticks, runs, n)
    ensures i < n && (Sees(start, ticks, runs, i, c) || (runs[i] && ticks[i].now < c <= ticks[i].after))
  {
    i := n - 1;
    if c <= Last(start, ticks, runs, n - 1) {
      i := EveryInstantSeen(start, ticks, runs, n - 1, c);
    }
  }
}
