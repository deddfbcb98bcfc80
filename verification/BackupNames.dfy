/** The names of archives: which server made one and when, written into its name and read back. */
module BackupNames {
  import opened Basics

  const PREFIX := "nodehoster-backup-"
  const SUFFIX := ".zip"

  /** A UTC time to the second. */
  datatype Civil = Civil(year: nat, month: nat, day: nat, hour: nat, minute: nat, second: nat)

  predicate Leap(year: nat) {
    year % 4 == 0 && (year % 100 != 0 || year % 400 == 0)
  }

  function DaysIn(year: nat, month: nat): nat {
    if month == 2 then if Leap(year) then 29 else 28
    else if month == 4 || month == 6 || month == 9 || month == 11 then 30
    else 31
  }

  /** A time that exists, with a year of four digits. */
  predicate Exists(t: Civil) {
    && t.year <= 9999 && 1 <= t.month <= 12 && 1 <= t.day <= DaysIn(t.year, t.month)
    && t.hour <= 23 && t.minute <= 59 && t.second <= 59
  }

  predicate SafeChar(c: char) {
    'a' <= c <= 'z' || 'A' <= c <= 'Z' || '0' <= c <= '9' || c == '.' || c == '-' || c == '_'
  }

  predicate SafeName(host: string) {
    host != [] && forall i :: 0 <= i < |host| ==> SafeChar(host[i])
  }

  /** A host name with every other character replaced; never empty. */
  method MakeSafe(host: string) returns (r: string)
    ensures r == SafeHost(host)
  {
    r := [];
    for i := 0 to |host|
      invariant r == Replaced(host[..i])
    {
      assert host[..i + 1][..i] == host[..i];
      if SafeChar(host[i]) {
        r := r + [host[i]];
      } else {
        r := r + ['_'];
      }
    }
    assert host[..|host|] == host;
    if |r| == 0 {
      r := "server";
    }
  }

  function Replaced(host: string): (r: string)
    ensures |r| == |host| && forall i :: 0 <= i < |r| ==> r[i] == if SafeChar(host[i]) then host[i] else '_'
  {
    if host == [] then []
    else Replaced(host[..|host| - 1]) + [if SafeChar(host[|host| - 1]) then host[|host| - 1] else '_']
  }

  function SafeHost(host: string): (r: string)
    ensures SafeName(r) && (SafeName(host) ==> r == host)
  {
    var r := Replaced(host);
    if r == [] then "server" else r
  }

  // ---- the time in a name

  predicate IsDigit(c: char) { '0' <= c <= '9' }

  function Two(n: nat): (r: string)
    requires n <= 99
    ensures |r| == 2 && IsDigit(r[0]) && IsDigit(r[1])
  {
    ['0' + (n / 10) as char, '0' + (n % 10) as char]
  }

  function ReadTwo(s: string): (n: nat)
    requires |s| == 2 && IsDigit(s[0]) && IsDigit(s[1])
    ensures n <= 99 && Two(n) == s
  {
    10 * ((s[0] - '0') as nat) + (s[1] - '0') as nat
  }

  lemma ReadTwoOfTwo(n: nat)
    requires n <= 99
    ensures ReadTwo(Two(n)) == n
  {
  }

  /** yyyymmdd-hhmmss */
  function Stamp(t: Civil): (r: string)
    requires Exists(t)
    ensures |r| == 15 && IsStamp(r)
  {
    Two(t.year / 100) + Two(t.year % 100) + Two(t.month) + Two(t.day) + "-"
    + Two(t.hour) + Two(t.minute) + Two(t.second)
  }

  predicate IsStamp(s: string) {
    |s| == 15 && s[8] == '-' && forall i :: 0 <= i < 15 && i != 8 ==> IsDigit(s[i])
  }

  function ReadStamp(s: string): Civil
    requires IsStamp(s)
  {
    Civil(100 * ReadTwo(s[0..2]) + ReadTwo(s[2..4]), ReadTwo(s[4..6]), ReadTwo(s[6..8]),
          ReadTwo(s[9..11]), ReadTwo(s[11..13]), ReadTwo(s[13..15]))
  }

  lemma FourPairs(a: string, b: string, c: string, d: string)
    requires |a| == |b| == |c| == |d| == 2
    ensures var s := a + b + c + d; s[0..2] == a && s[2..4] == b && s[4..6] == c && s[6..8] == d
  {
  }

  lemma StampParts(t: Civil)
    requires Exists(t)
    ensures var s := Stamp(t);
            && s[0..2] == Two(t.year / 100) && s[2..4] == Two(t.year % 100)
            && s[4..6] == Two(t.month) && s[6..8] == Two(t.day)
            && s[9..11] == Two(t.hour) && s[11..13] == Two(t.minute) && s[13..15] == Two(t.second)
  {
    hide Two, IsStamp;
    var s := Stamp(t);
    var date := Two(t.year / 100) + Two(t.year % 100) + Two(t.month) + Two(t.day);
    var time := Two(t.hour) + Two(t.minute) + Two(t.second);
    FourPairs(Two(t.year / 100), Two(t.year % 100), Two(t.month), Two(t.day));
    FourPairs(Two(t.hour), Two(t.minute), Two(t.second), "00");
    assert s == date + "-" + time;
    assert forall i, j :: 0 <= i <= j <= 8 ==> s[i..j] == date[i..j];
    assert forall i, j :: 0 <= i <= j <= 6 ==> s[9 + i..9 + j] == time[i..j];
    assert (time + "00")[0..2] == time[0..2] && (time + "00")[2..4] == time[2..4] && (time + "00")[4..6] == time[4..6];
  }

  lemma StampRoundTrip(t: Civil)
    requires Exists(t)
    ensures ReadStamp(Stamp(t)) == t
  {
    hide Two, ReadTwo, IsStamp;
    StampParts(t);
    ReadTwoOfTwo(t.year / 100);
    ReadTwoOfTwo(t.year % 100);
    ReadTwoOfTwo(t.month);
    ReadTwoOfTwo(t.day);
    ReadTwoOfTwo(t.hour);
    ReadTwoOfTwo(t.minute);
    ReadTwoOfTwo(t.second);
  }

  lemma StampIsUnique(s: string)
    requires IsStamp(s) && Exists(ReadStamp(s))
    ensures Stamp(ReadStamp(s)) == s
  {
    var t := ReadStamp(s);
    assert t.year / 100 == ReadTwo(s[0..2]) && t.year % 100 == ReadTwo(s[2..4]);
    assert s == s[0..2] + s[2..4] + s[4..6] + s[6..8] + s[8..9] + s[9..11] + s[11..13] + s[13..15];
    assert s[8..9] == "-";
  }

  // ---- names

  function ArchiveName(host: string, t: Civil): string
    requires Exists(t)
  {
    PREFIX + SafeHost(host) + "-" + Stamp(t) + SUFFIX
  }

  /** Reads host and time from a name; anything else is not an archive. */
  function ParseName(name: string): Option<(string, Civil)> {
    var n := |name|;
    if n < 39 || name[..18] != PREFIX || name[n - 4..] != SUFFIX || name[n - 20] != '-' then None
    else
      var host, stamp := name[18..n - 20], name[n - 19..n - 4];
      if !SafeName(host) || !IsStamp(stamp) || !Exists(ReadStamp(stamp)) then None
      else Some((host, ReadStamp(stamp)))
  }

  /** A name made here reads back as its safe host and its second, whatever dashes and digits the host has. */
  lemma NameRoundTrip(host: string, t: Civil)
    requires Exists(t)
    ensures ParseName(ArchiveName(host, t)) == Some((SafeHost(host), t))
  {
    var h, s := SafeHost(host), Stamp(t);
    var name := ArchiveName(host, t);
    var n := |name|;
    assert n == 18 + |h| + 1 + 15 + 4;
    assert name[..18] == PREFIX && name[18..n - 20] == h && name[n - 20] == '-';
    assert name[n - 19..n - 4] == s && name[n - 4..] == SUFFIX;
    StampRoundTrip(t);
  }

  /** And a name that reads back is the one made for what it reads as: no two archives share it. */
  lemma ParsedNamesAreMade(name: string)
    requires ParseName(name).Some?
    ensures var (host, t) := ParseName(name).value; Exists(t) && SafeName(host) && name == ArchiveName(host, t)
  {
    hide IsStamp, ReadStamp, Exists, SafeName;
    var (host, t) := ParseName(name).value;
    var n := |name|;
    StampIsUnique(name[n - 19..n - 4]);
    InFiveParts(name);
    hide Stamp, SafeHost;
  }

  lemma InFiveParts(name: string)
    requires |name| >= 38
    ensures var n := |name|;
            name == name[..18] + name[18..n - 20] + [name[n - 20]] + name[n - 19..n - 4] + name[n - 4..]
  {
  }

  // ---- instants

  function DaysBeforeMonth(year: nat, month: nat): nat {
    if month <= 1 then 0 else DaysBeforeMonth(year, month - 1) + DaysIn(year, month - 1)
  }

  /** Days from the start of year 0 to the start of a year. */
  function DaysBeforeYear(year: nat): int {
    365 * year + (year + 3) / 4 - (year + 99) / 100 + (year + 399) / 400
  }

  function DayNumber(t: Civil): int {
    DaysBeforeYear(t.year) + DaysBeforeMonth(t.year, t.month) + t.day - 1
  }

  /** Seconds since the start of year 0. */
  function Seconds(t: Civil): int {
    86400 * DayNumber(t) + 3600 * t.hour + 60 * t.minute + t.second
  }

  lemma {:induction false} MonthsInOrder(year: nat, m: nat, n: nat)
    requires 1 <= m < n
    ensures DaysBeforeMonth(year, m) + DaysIn(year, m) <= DaysBeforeMonth(year, n)
  {
    if m < n - 1 {
      MonthsInOrder(year, m, n - 1);
    }
  }

  /** One more year divisible by `n` is behind once such a year is over. */
  lemma OneMoreMultiple(year: nat, n: nat)
    requires n == 4 || n == 100 || n == 400
    ensures (year + n) / n == (year + n - 1) / n + if year % n == 0 then 1 else 0
  {
    if n == 4 {
      assert (year + 4) / 4 == year / 4 + 1;
    } else if n == 100 {
      assert (year + 100) / 100 == year / 100 + 1;
    } else {
      assert (year + 400) / 400 == year / 400 + 1;
    }
  }

  lemma CenturiesAreFourths(q: int)
    ensures (100 * q) % 4 == 0
  {
    assert 100 * q == 4 * (25 * q);
  }

  lemma FourthCenturiesAreCenturies(q: int)
    ensures (400 * q) % 100 == 0
  {
    assert 400 * q == 100 * (4 * q);
  }

  lemma YearLength(year: nat)
    ensures DaysBeforeYear(year + 1) == DaysBeforeYear(year) + if Leap(year) then 366 else 365
  {
    OneMoreMultiple(year, 4);
    OneMoreMultiple(year, 100);
    OneMoreMultiple(year, 400);
    CenturiesAreFourths(year / 100);
    FourthCenturiesAreCenturies(year / 400);
  }

  lemma DayWithinYear(t: Civil)
    requires Exists(t)
    ensures DaysBeforeYear(t.year) <= DayNumber(t) < DaysBeforeYear(t.year + 1)
  {
    YearLength(t.year);
    var y := t.year;
    assert DaysBeforeMonth(y, 1) == 0 && DaysBeforeMonth(y, 3) == 31 + DaysIn(y, 2)
           && DaysBeforeMonth(y, 5) == DaysBeforeMonth(y, 3) + 61;
    assert DaysBeforeMonth(y, 7) == DaysBeforeMonth(y, 5) + 61 && DaysBeforeMonth(y, 9) == DaysBeforeMonth(y, 7) + 62;
    assert DaysBeforeMonth(y, 11) == DaysBeforeMonth(y, 9) + 61
           && DaysBeforeMonth(y, 13) == DaysBeforeMonth(y, 11) + 61;
    MonthsInOrder(y, t.month, 13);
  }

  lemma {:induction false} YearsInOrder(y: nat, z: nat)
    requires y <= z
    ensures DaysBeforeYear(y) <= DaysBeforeYear(z)
  {
    if y < z {
      YearsInOrder(y, z - 1);
      YearLength(z - 1);
    }
  }

  /** The day of `a` comes before the day of `b`. */
  predicate EarlierDay(a: Civil, b: Civil) {
    || a.year < b.year
    || (a.year == b.year && (a.month < b.month || (a.month == b.month && a.day < b.day)))
  }

  /** Date and time of day of `a` come before those of `b`, compared as they are written. */
  predicate Earlier(a: Civil, b: Civil) {
    || EarlierDay(a, b)
    || (!EarlierDay(b, a)
        && (|| a.hour < b.hour
            || (a.hour == b.hour && (a.minute < b.minute || (a.minute == b.minute && a.second < b.second)))))
  }

  lemma DaysInOrder(a: Civil, b: Civil)
    requires Exists(a) && Exists(b) && EarlierDay(a, b)
    ensures DayNumber(a) < DayNumber(b)
  {
    hide DaysBeforeYear;
    if a.year < b.year {
      DayWithinYear(a);
      DayWithinYear(b);
      YearsInOrder(a.year + 1, b.year);
    } else if a.month < b.month {
      MonthsInOrder(a.year, a.month, b.month);
    }
  }

  lemma SecondsSplit(t: Civil)
    requires Exists(t)
    ensures 86400 * DayNumber(t) <= Seconds(t) < 86400 * (DayNumber(t) + 1)
  {
    hide DayNumber;
  }

  /** The count of seconds since year 0 orders times exactly as the calendar does. */
  lemma InstantsInOrder(a: Civil, b: Civil)
    requires Exists(a) && Exists(b)
    ensures Seconds(a) < Seconds(b) <==> Earlier(a, b)
  {
    SecondsSplit(a);
    SecondsSplit(b);
    if EarlierDay(a, b) {
      DaysInOrder(a, b);
    } else if EarlierDay(b, a) {
      DaysInOrder(b, a);
    } else {
      assert DayNumber(a) == DayNumber(b);
      hide DayNumber;
    }
  }
}
