/** Which archives retention deletes: always a tail of the host's archives, newest first. */
module BackupRetention {
  import opened Basics
  import opened Sorting
  import opened BackupNames

  /** A file at a destination. */
  datatype Object = Object(name: string, size: nat, modified: int)

  /** An object named like an archive, with what its name says. */
  datatype Archive = Archive(file: Object, host: string, created: int)

  function Codes(s: string): (r: seq<int>)
    ensures |r| == |s| && forall i :: 0 <= i < |r| ==> r[i] == s[i] as int
  {
    seq(|s|, i requires 0 <= i < |s| => s[i] as int)
  }

  /** Newest first; on a tie the greater name first. */
  predicate Newer(a: Archive, b: Archive) {
    if a.created != b.created then a.created > b.created else Before(Codes(b.file.name), Codes(a.file.name))
  }

  lemma NewerIsOrdering()
    ensures Ordering(Newer)
  {
    forall a, b | Newer(a, b) ensures !Newer(b, a) {
      BeforeTotal(Codes(a.file.name), Codes(b.file.name));
    }
    forall a, b, c | !Newer(b, a) && !Newer(c, b) ensures !Newer(c, a) {
      if a.created == b.created == c.created {
        BeforeTransitive(Codes(c.file.name), Codes(b.file.name), Codes(a.file.name));
      }
    }
  }

  function ToArchive(o: Object): Option<Archive> {
    match ParseName(o.name)
    case None => None
    case Some((host, t)) => Some(Archive(o, host, Seconds(t)))
  }

  /** The objects named like archives, in the order listed. */
  function Named(objs: seq<Object>): seq<Archive> {
    if objs == [] then []
    else
      var before := Named(objs[..|objs| - 1]);
      match ToArchive(objs[|objs| - 1]) case None => before case Some(a) => before + [a]
  }

  /** Equal but for the case of letters. */
  predicate SameHost(a: string, b: string) {
    |a| == |b| && forall i :: 0 <= i < |a| ==> LowerCase(a[i]) == LowerCase(b[i])
  }

  function LowerCase(c: char): char {
    if 'A' <= c <= 'Z' then c - 'A' + 'a' else c
  }

  function OfHost(archives: seq<Archive>, host: string): seq<Archive> {
    if archives == [] then []
    else
      var last := archives[|archives| - 1];
      OfHost(archives[..|archives| - 1], host) + if SameHost(last.host, host) then [last] else []
  }

  /** The host's archives, newest first. */
  function Mine(objs: seq<Object>, host: string): seq<Archive> {
    OfHost(Sort(Newer, Named(objs)), SafeHost(host))
  }

  datatype Rules = Rules(keepLast: int, keepDays: int)

  predicate Off(r: Rules) {
    r.keepLast <= 0 && r.keepDays <= 0
  }

  function Cutoff(r: Rules, now: int): int {
    now - 86400 * r.keepDays
  }

  /** Neither the newest, nor among the newest to keep, nor young enough. */
  predicate Keep(a: Archive, i: nat, r: Rules, now: int) {
    i == 0 || (r.keepLast > 0 && i < r.keepLast) || (r.keepDays > 0 && a.created > Cutoff(r, now))
  }

  function Dropped(mine: seq<Archive>, n: nat, r: Rules, now: int): seq<Archive>
    requires n <= |mine|
  {
    if n == 0 then []
    else Dropped(mine, n - 1, r, now) + if Keep(mine[n - 1], n - 1, r, now) then [] else [mine[n - 1]]
  }

  function Expired(objs: seq<Object>, host: string, r: Rules, now: int): seq<Archive> {
    if Off(r) then [] else var mine := Mine(objs, host); Dropped(mine, |mine|, r, now)
  }

  // ---- the loops

  method ListArchives(objs: seq<Object>) returns (out: seq<Archive>)
    ensures out == Sort(Newer, Named(objs))
  {
    out := [];
    for i := 0 to |objs|
      invariant out == Named(objs[..i])
    {
      assert objs[..i + 1][..i] == objs[..i];
      match ParseName(objs[i].name) {
        case None =>
        case Some((host, t)) => out := out + [Archive(objs[i], host, Seconds(t))];
      }
    }
    assert objs[..|objs|] == objs;
    out := Sort(Newer, out);
  }

  method SelectHost(all: seq<Archive>, host: string) returns (mine: seq<Archive>)
    ensures mine == OfHost(all, host)
  {
    hide SameHost;
    mine := [];
    for i := 0 to |all|
      invariant mine == OfHost(all[..i], host)
    {
      assert all[..i + 1][..i] == all[..i];
      if SameHost(all[i].host, host) {
        mine := mine + [all[i]];
      }
    }
    assert all[..|all|] == all;
  }

  method FindExpired(objs: seq<Object>, host: string, r: Rules, now: int) returns (out: seq<Archive>)
    ensures out == Expired(objs, host, r, now)
  {
    hide Sort, Named, OfHost, SafeHost;
    if r.keepLast <= 0 && r.keepDays <= 0 {
      return [];
    }
    var safe := MakeSafe(host);
    var all := ListArchives(objs);
    var mine := SelectHost(all, safe);
    var cutoff := now - 86400 * r.keepDays;
    out := [];
    for i := 0 to |mine|
      invariant out == Dropped(mine, i, r, now)
    {
      var keep := i == 0 || (r.keepLast > 0 && i < r.keepLast) || (r.keepDays > 0 && mine[i].created > cutoff);
      if !keep {
        out := out + [mine[i]];
      }
    }
  }

  // ---- theorems

  ghost predicate NewestFirst(s: seq<Archive>) {
    forall i, j :: 0 <= i <= j < |s| ==> s[i].created >= s[j].created
  }

  /** The names of archives further on say no later date and time. */
  ghost predicate NewestFirstByName(s: seq<Archive>) {
    && (forall a :: a in s ==> ParseName(a.file.name).Some?)
    && (forall i, j :: 0 <= i <= j < |s| ==>
          !Earlier(ParseName(s[i].file.name).value.1, ParseName(s[j].file.name).value.1))
  }

  lemma {:induction false} OfHostHas(s: seq<Archive>, host: string, a: Archive)
    ensures a in OfHost(s, host) <==> a in s && SameHost(a.host, host)
  {
    if s != [] {
      OfHostHas(s[..|s| - 1], host, a);
      assert s == s[..|s| - 1] + [s[|s| - 1]];
    }
  }

  lemma {:induction false} OfHostOrdered(s: seq<Archive>, host: string)
    requires NewestFirst(s)
    ensures NewestFirst(OfHost(s, host))
  {
    if s != [] {
      var front, last := s[..|s| - 1], s[|s| - 1];
      OfHostOrdered(front, host);
      forall a | a in OfHost(front, host) ensures a.created >= last.created {
        OfHostHas(front, host, a);
      }
    }
  }

  lemma ToArchiveKeepsFile(o: Object)
    ensures ToArchive(o).Some? ==> ToArchive(o).value.file == o
  {
    hide ParseName;
  }

  predicate IsMine(a: Archive, host: string) {
    ToArchive(a.file) == Some(a) && SameHost(a.host, SafeHost(host))
  }

  lemma {:induction false} NamedCount(objs: seq<Object>, a: Archive)
    ensures multiset(Named(objs))[a] == if ToArchive(a.file) == Some(a) then multiset(objs)[a.file] else 0
  {
    hide ToArchive;
    if objs != [] {
      ToArchiveKeepsFile(objs[|objs| - 1]);
      NamedCount(objs[..|objs| - 1], a);
      assert objs == objs[..|objs| - 1] + [objs[|objs| - 1]];
    }
  }

  lemma {:induction false} OfHostCount(s: seq<Archive>, host: string, a: Archive)
    ensures multiset(OfHost(s, host))[a] == if SameHost(a.host, host) then multiset(s)[a] else 0
  {
    if s != [] {
      OfHostCount(s[..|s| - 1], host, a);
      assert s == s[..|s| - 1] + [s[|s| - 1]];
    }
  }

  lemma MineCount(objs: seq<Object>, host: string, a: Archive)
    ensures multiset(Mine(objs, host))[a] == if IsMine(a, host) then multiset(objs)[a.file] else 0
  {
    hide ToArchive, SameHost, SafeHost;
    NamedCount(objs, a);
    SortKeeps(Newer, Named(objs));
    OfHostCount(Sort(Newer, Named(objs)), SafeHost(host), a);
  }

  /** An archive is as old as its name says. */
  lemma CreatedAsNamed(a: Archive)
    requires ToArchive(a.file) == Some(a)
    ensures ParseName(a.file.name).Some? && Exists(ParseName(a.file.name).value.1)
    ensures a.created == Seconds(ParseName(a.file.name).value.1)
  {
    hide Seconds;
  }

  lemma OrderedByName(s: seq<Archive>)
    requires NewestFirst(s) && forall a :: a in s ==> ToArchive(a.file) == Some(a)
    ensures NewestFirstByName(s)
  {
    hide ToArchive, ParseName, Earlier, Seconds;
    forall a | a in s ensures ParseName(a.file.name).Some? {
      CreatedAsNamed(a);
    }
    forall i, j | 0 <= i <= j < |s|
      ensures !Earlier(ParseName(s[i].file.name).value.1, ParseName(s[j].file.name).value.1)
    {
      CreatedAsNamed(s[i]);
      CreatedAsNamed(s[j]);
      InstantsInOrder(ParseName(s[i].file.name).value.1, ParseName(s[j].file.name).value.1);
    }
  }

  /** A host's list holds exactly its archives, by name, and the dates in the names never increase along it. */
  lemma MineIs(objs: seq<Object>, host: string)
    ensures NewestFirst(Mine(objs, host)) && NewestFirstByName(Mine(objs, host))
    ensures forall a :: a in Mine(objs, host) <==> a.file in objs && IsMine(a, host)
  {
    hide Sort, Named, NewestFirstByName, ToArchive, SameHost;
    var all := Sort(Newer, Named(objs));
    NewerIsOrdering();
    SortSorts(Newer, Named(objs));
    SortedIsNewestFirst(all);
    OfHostOrdered(all, SafeHost(host));
    forall a ensures a in Mine(objs, host) <==> a.file in objs && IsMine(a, host) {
      MineCount(objs, host, a);
      assert a in multiset(Mine(objs, host)) <==> a in Mine(objs, host);
      assert a.file in multiset(objs) <==> a.file in objs;
    }
    OrderedByName(Mine(objs, host));
  }

  lemma SortedIsNewestFirst(s: seq<Archive>)
    requires Sorted(Newer, s)
    ensures NewestFirst(s)
  {
  }

  /** How many archives stay: those kept are a prefix. */
  function KeptCount(mine: seq<Archive>, n: nat, r: Rules, now: int): (k: nat)
    requires n <= |mine|
    ensures k <= n
  {
    if n == 0 then 0
    else KeptCount(mine, n - 1, r, now) + if Keep(mine[n - 1], n - 1, r, now) then 1 else 0
  }

  lemma {:induction false} KeptIsPrefix(mine: seq<Archive>, n: nat, r: Rules, now: int)
    requires n <= |mine| && NewestFirst(mine)
    ensures var k := KeptCount(mine, n, r, now);
            && Dropped(mine, n, r, now) == mine[k..n]
            && (forall i :: 0 <= i < n ==> (Keep(mine[i], i, r, now) <==> i < k))
  {
    if n > 0 {
      KeptIsPrefix(mine, n - 1, r, now);
    }
  }

  /**
   With a rule on, what expires is exactly the complement of a prefix of the host's archives,
   newest first: never the newest, never one of the `keepLast` newest, never one younger than
   `keepDays`, and everything else.
   */
  lemma ExpiredIsTail(objs: seq<Object>, host: string, r: Rules, now: int) returns (k: nat)
    requires !Off(r)
    ensures var mine := Mine(objs, host);
            && NewestFirstByName(mine) && k <= |mine| && Expired(objs, host, r, now) == mine[k..]
            && (mine != [] ==> k >= 1) && (r.keepLast > 0 ==> k >= Min(r.keepLast, |mine|))
            && (forall i :: 0 <= i < |mine| ==> (i < k <==> Keep(mine[i], i, r, now)))
  {
    hide Mine, IsMine, Dropped, ToArchive, ParseName, NewestFirstByName, Earlier;
    var mine := Mine(objs, host);
    MineIs(objs, host);
    KeptIsPrefix(mine, |mine|, r, now);
    k := KeptCount(mine, |mine|, r, now);
    assert mine[k..|mine|] == mine[k..];
    if mine != [] {
      assert Keep(mine[0], 0, r, now);
      if r.keepLast > 0 {
        var i := Min(r.keepLast, |mine|) - 1;
        assert Keep(mine[i], i, r, now);
      }
    }
  }

  /** Another server's file, and one not named like an archive, is never deleted. */
  lemma OnlyOwnArchivesExpire(objs: seq<Object>, host: string, r: Rules, now: int, a: Archive)
    ensures a in Expired(objs, host, r, now) ==>
              a.file in objs && ToArchive(a.file) == Some(a) && SameHost(a.host, SafeHost(host))
  {
    hide Mine, ToArchive, SameHost;
    if !Off(r) {
      var k := ExpiredIsTail(objs, host, r, now);
      MineIs(objs, host);
    }
  }

  /** What is left after deleting the objects with the given names. */
  function Without(objs: seq<Object>, gone: set<string>): seq<Object> {
    if objs == [] then []
    else
      var last := objs[|objs| - 1];
      Without(objs[..|objs| - 1], gone) + if last.name in gone then [] else [last]
  }

  // ---- deleting, and asking again

  lemma {:induction false} WithoutCount(objs: seq<Object>, gone: set<string>, o: Object)
    ensures multiset(Without(objs, gone))[o] == if o.name in gone then 0 else multiset(objs)[o]
  {
    if objs != [] {
      var front, last := objs[..|objs| - 1], objs[|objs| - 1];
      WithoutCount(front, gone, o);
      CountLast(objs, o);
      CountAppend(Without(front, gone), last, o);
      assert Without(front, gone) + [] == Without(front, gone);
    }
  }

  function Names(archives: seq<Archive>): set<string> {
    set a | a in archives :: a.file.name
  }

  /** After deleting the tail from `k` on, only archives of the prefix are left. */
  lemma LeftIsFromPrefix(objs: seq<Object>, host: string, k: nat)
    ensures var mine := Mine(objs, host);
            k <= |mine| ==> multiset(Mine(Without(objs, Names(mine[k..])), host)) <= multiset(mine[..k])
  {
    hide Mine, Without;
    var mine := Mine(objs, host);
    if k > |mine| {
      return;
    }
    var gone := Names(mine[k..]);
    var left := Mine(Without(objs, gone), host);
    assert mine == mine[..k] + mine[k..];
    forall a ensures multiset(left)[a] <= multiset(mine[..k])[a] {
      MineCount(objs, host, a);
      MineCount(Without(objs, gone), host, a);
      WithoutCount(objs, gone, a.file);
      if a.file.name !in gone {
        assert a !in mine[k..];
        assert multiset(mine)[a] == multiset(mine[..k])[a] + multiset(mine[k..])[a];
      }
    }
  }

  lemma FewerFrom(s: seq<Archive>, t: seq<Archive>, a: Archive)
    requires multiset(s) <= multiset(t)
    ensures |s| <= |t| && (a in s ==> a in t)
  {
    var rest := multiset(t) - multiset(s);
    assert multiset(t) == multiset(s) + rest;
    assert |s| == |multiset(s)| && |t| == |multiset(t)|;
    assert a in s ==> a in multiset(s);
  }

  /** Deleting what expired and asking again at the same time finds nothing more. */
  lemma SecondPassFindsNothing(objs: seq<Object>, host: string, r: Rules, now: int)
    ensures Expired(Without(objs, Names(Expired(objs, host, r, now))), host, r, now) == []
  {
    hide Mine, Without, Names, Dropped, Expired, IsMine;
    if Off(r) {
      OffExpiresNothing(r, host, now);
    } else {
      var k := ExpiredIsTail(objs, host, r, now);
      var mine := Mine(objs, host);
      LeftIsFromPrefix(objs, host, k);
      MineIs(objs, host);
      var objs' := Without(objs, Names(mine[k..]));
      var left := Mine(objs', host);
      PrefixStaysKept(mine, k, left, r, now);
      var k' := ExpiredIsTail(objs', host, r, now);
      assert left != [] ==> Keep(left[|left| - 1], |left| - 1, r, now);
      assert k' == |left|;
    }
  }

  /** Whatever is left of the kept prefix, in any arrangement, is kept again. */
  lemma PrefixStaysKept(mine: seq<Archive>, k: nat, left: seq<Archive>, r: Rules, now: int)
    requires k <= |mine| && NewestFirst(mine) && multiset(left) <= multiset(mine[..k])
    requires forall i :: 0 <= i < k ==> Keep(mine[i], i, r, now)
    ensures forall i :: 0 <= i < |left| ==> Keep(left[i], i, r, now)
  {
    forall i | 0 <= i < |left| ensures Keep(left[i], i, r, now) {
      FewerFrom(left, mine[..k], left[i]);
      var j :| 0 <= j < k && mine[j] == left[i];
      assert Keep(mine[k - 1], k - 1, r, now);
      assert mine[j].created >= mine[k - 1].created;
    }
  }

  lemma OffExpiresNothing(r: Rules, host: string, now: int)
    requires Off(r)
    ensures forall objs :: Expired(objs, host, r, now) == []
  {
  }
}
