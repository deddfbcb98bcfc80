/**
 The canonical query string of a signed request: percent-encoding (sections 2.1 and 2.3 of
 RFC 3986), sorting, joining, and reading it back as `net/url` does.
 */
module QueryEncoding {
  import opened Basics
  import opened Sorting

  const SLASH: byte := 47
  const PERCENT: byte := 37
  const PLUS: byte := 43
  const SPACE: byte := 32
  const AMPERSAND: byte := 38
  const EQUALS: byte := 61
  const SEMICOLON: byte := 59

  predicate Unreserved(c: byte) {
    65 <= c <= 90 || 97 <= c <= 122 || 48 <= c <= 57 || c == 45 || c == 95 || c == 46 || c == 126
  }

  function HexDigit(n: nat): byte
    requires n < 16
  {
    if n < 10 then 48 + n else 55 + n
  }

  function EncodeByte(c: byte, keepSlash: bool): (r: Bytes)
    ensures forall i :: 0 <= i < |r| ==> Unreserved(r[i]) || r[i] == PERCENT || (keepSlash && r[i] == SLASH)
  {
    if Unreserved(c) || (keepSlash && c == SLASH) then [c] else [PERCENT, HexDigit(c / 16), HexDigit(c % 16)]
  }

  function Encode(s: Bytes, keepSlash: bool): (r: Bytes)
    ensures forall i :: 0 <= i < |r| ==> Unreserved(r[i]) || r[i] == PERCENT || (keepSlash && r[i] == SLASH)
  {
    if s == [] then [] else EncodeByte(s[0], keepSlash) + Encode(s[1..], keepSlash)
  }

  lemma {:induction false} EncodeAppend(s: Bytes, c: byte, keepSlash: bool)
    ensures Encode(s + [c], keepSlash) == Encode(s, keepSlash) + EncodeByte(c, keepSlash)
  {
    if s == [] {
      assert [c][1..] == [];
    } else {
      assert (s + [c])[1..] == s[1..] + [c];
      EncodeAppend(s[1..], c, keepSlash);
    }
  }

  method UriEncode(s: Bytes, keepSlash: bool) returns (b: Bytes)
    ensures b == Encode(s, keepSlash)
  {
    b := [];
    for i := 0 to |s|
      invariant b == Encode(s[..i], keepSlash)
    {
      var c := s[i];
      assert s[..i + 1] == s[..i] + [c];
      EncodeAppend(s[..i], c, keepSlash);
      if Unreserved(c) || (keepSlash && c == SLASH) {
        b := b + [c];
      } else {
        b := b + [PERCENT, HexDigit(c / 16), HexDigit(c % 16)];
      }
    }
    assert s[..|s|] == s;
  }

  // ---- decoding

  function HexValue(c: byte): Option<nat> {
    if 48 <= c <= 57 then Some(c - 48)
    else if 65 <= c <= 70 then Some(c - 55)
    else if 97 <= c <= 102 then Some(c - 87)
    else None
  }

  /** Undoes percent-encoding as a query is unescaped, where a plus is a space. */
  function Decode(s: Bytes): Option<Bytes> {
    if s == [] then Some([])
    else if s[0] == PERCENT then
      if |s| < 3 || HexValue(s[1]).None? || HexValue(s[2]).None? then None
      else
        match Decode(s[3..])
        case None => None
        case Some(rest) => Some([16 * HexValue(s[1]).value + HexValue(s[2]).value] + rest)
    else
      match Decode(s[1..])
      case None => None
      case Some(rest) => Some([if s[0] == PLUS then SPACE else s[0]] + rest)
  }

  lemma HexOfDigit(n: nat)
    requires n < 16
    ensures HexValue(HexDigit(n)) == Some(n)
  {
  }

  /** Percent-decoding gives back every byte string. */
  lemma {:induction false} DecodeEncode(s: Bytes, keepSlash: bool)
    ensures Decode(Encode(s, keepSlash)) == Some(s)
  {
    if s != [] {
      var c, rest := s[0], Encode(s[1..], keepSlash);
      DecodeEncode(s[1..], keepSlash);
      assert s == [c] + s[1..];
      var e := Encode(s, keepSlash);
      if Unreserved(c) || (keepSlash && c == SLASH) {
        assert e == [c] + rest && e[1..] == rest;
      } else {
        assert e == [PERCENT, HexDigit(c / 16), HexDigit(c % 16)] + rest && e[3..] == rest;
        HexOfDigit(c / 16);
        HexOfDigit(c % 16);
        assert c == 16 * (c / 16) + c % 16;
      }
    }
  }

  // ---- pairs

  datatype Pair = Pair(k: Bytes, v: Bytes)

  function EncodePair(p: Pair): Pair {
    Pair(Encode(p.k, false), Encode(p.v, false))
  }

  function EncodeAll(pairs: seq<Pair>): (r: seq<Pair>)
    ensures |r| == |pairs| && forall i :: 0 <= i < |r| ==> r[i] == EncodePair(pairs[i])
  {
    if pairs == [] then [] else EncodeAll(pairs[..|pairs| - 1]) + [EncodePair(pairs[|pairs| - 1])]
  }

  predicate PairLess(a: Pair, b: Pair) {
    if a.k != b.k then Before(a.k, b.k) else Before(a.v, b.v)
  }

  lemma PairLessIsTotal()
    ensures Ordering(PairLess) && forall a, b :: !PairLess(a, b) && !PairLess(b, a) ==> a == b
  {
    forall a, b ensures (PairLess(a, b) ==> !PairLess(b, a)) && (!PairLess(a, b) && !PairLess(b, a) ==> a == b) {
      BeforeTotal(a.k, b.k);
      BeforeTotal(a.v, b.v);
    }
    forall a, b, c | !PairLess(b, a) && !PairLess(c, b) ensures !PairLess(c, a) {
      BeforeTotal(a.k, b.k);
      BeforeTotal(b.k, c.k);
      BeforeTotal(a.k, c.k);
      BeforeTransitiveStrict(a, b, c);
    }
  }

  lemma BeforeTransitiveStrict(a: Pair, b: Pair, c: Pair)
    requires !PairLess(b, a) && !PairLess(c, b)
    ensures !PairLess(c, a)
  {
    BeforeTotal(a.k, b.k);
    BeforeTotal(b.k, c.k);
    BeforeTotal(a.k, c.k);
    if a.k == b.k == c.k {
      BeforeTransitive(a.v, b.v, c.v);
    } else {
      BeforeTransitive(a.k, b.k, c.k);
    }
  }

  function Part(p: Pair): Bytes {
    p.k + [EQUALS] + p.v
  }

  /** The parts joined with ampersands. */
  function Join(pairs: seq<Pair>): Bytes {
    if pairs == [] then []
    else if |pairs| == 1 then Part(pairs[0])
    else Part(pairs[0]) + [AMPERSAND] + Join(pairs[1..])
  }

  /** The canonical string of a list of pairs. */
  function Canonical(pairs: seq<Pair>): Bytes {
    Join(Sort(PairLess, EncodeAll(pairs)))
  }

  lemma {:induction false} EncodeAllCount(pairs: seq<Pair>, p: Pair)
    ensures multiset(EncodeAll(pairs))[EncodePair(p)] == multiset(pairs)[p]
  {
    hide EncodePair;
    if pairs != [] {
      var front, last := pairs[..|pairs| - 1], pairs[|pairs| - 1];
      EncodeAllCount(front, p);
      EncodePairInjective(p, last);
      CountLast(pairs, p);
      CountAppend(EncodeAll(front), EncodePair(last), EncodePair(p));
    }
  }

  lemma EncodePairInjective(p: Pair, q: Pair)
    ensures EncodePair(p) == EncodePair(q) ==> p == q
  {
    DecodeEncode(p.k, false);
    DecodeEncode(q.k, false);
    DecodeEncode(p.v, false);
    DecodeEncode(q.v, false);
  }

  lemma EncodedOnlyFrom(pairs: seq<Pair>, e: Pair) returns (x: Pair)
    requires e in EncodeAll(pairs)
    ensures x in pairs && e == EncodePair(x)
  {
    var i :| 0 <= i < |pairs| && EncodeAll(pairs)[i] == e;
    x := pairs[i];
  }

  lemma EncodeAllSame(p: seq<Pair>, q: seq<Pair>)
    ensures multiset(p) == multiset(q) <==> multiset(EncodeAll(p)) == multiset(EncodeAll(q))
  {
    hide EncodePair, EncodeAll;
    if multiset(p) == multiset(q) {
      forall e ensures multiset(EncodeAll(p))[e] == multiset(EncodeAll(q))[e] {
        EncodedSameCount(p, q, e);
        EncodedSameCount(q, p, e);
      }
    }
    if multiset(EncodeAll(p)) == multiset(EncodeAll(q)) {
      forall x ensures multiset(p)[x] == multiset(q)[x] {
        EncodeAllCount(p, x);
        EncodeAllCount(q, x);
      }
    }
  }

  lemma EncodedSameCount(p: seq<Pair>, q: seq<Pair>, e: Pair)
    requires multiset(p) == multiset(q)
    ensures multiset(EncodeAll(p))[e] <= multiset(EncodeAll(q))[e]
  {
    hide EncodePair, EncodeAll;
    if e in EncodeAll(p) {
      var x := EncodedOnlyFrom(p, e);
      EncodeAllCount(p, x);
      EncodeAllCount(q, x);
    } else {
      assert e !in multiset(EncodeAll(p));
    }
  }

  /** The canonical string depends only on which pairs there are, not on the order they come in. */
  lemma CanonicalOfMultiset(p: seq<Pair>, q: seq<Pair>)
    requires multiset(p) == multiset(q)
    ensures Canonical(p) == Canonical(q)
  {
    EncodeAllSame(p, q);
    var s, t := EncodeAll(p), EncodeAll(q);
    PairLessIsTotal();
    SortKeeps(PairLess, s);
    SortKeeps(PairLess, t);
    SortSorts(PairLess, s);
    SortSorts(PairLess, t);
    SortedUnique(PairLess, Sort(PairLess, s), Sort(PairLess, t));
  }

  // ---- reading a query back

  /** What comes before the first separator, and what after it. */
  function Cut(s: Bytes, sep: byte): (r: (Bytes, Bytes))
    ensures |r.0| + |r.1| <= |s| && (s != [] ==> |r.1| < |s|)
  {
    if s == [] then ([], [])
    else if s[0] == sep then ([], s[1..])
    else var (a, b) := Cut(s[1..], sep); ([s[0]] + a, b)
  }

  /** One segment: nothing if it is empty, has a semicolon or does not unescape. */
  function ParsePart(seg: Bytes): seq<Pair> {
    if seg == [] || SEMICOLON in seg then []
    else
      var (k, v) := Cut(seg, EQUALS);
      if Decode(k).Some? && Decode(v).Some? then [Pair(Decode(k).value, Decode(v).value)] else []
  }

  function ParseQuery(s: Bytes): seq<Pair>
    decreases |s|
  {
    if s == [] then []
    else var (seg, rest) := Cut(s, AMPERSAND); ParsePart(seg) + ParseQuery(rest)
  }

  lemma {:induction false} CutAt(a: Bytes, sep: byte, b: Bytes)
    requires sep !in a
    ensures Cut(a + [sep] + b, sep) == (a, b) && Cut(a, sep) == (a, [])
  {
    var s := a + [sep] + b;
    if a == [] {
      assert s[1..] == b;
    } else {
      assert s[1..] == a[1..] + [sep] + b && a == [a[0]] + a[1..];
      assert a[0] in a;
      CutAt(a[1..], sep, b);
    }
  }

  /** An encoded string has no separator in it. */
  predicate Clean(s: Bytes) {
    AMPERSAND !in s && EQUALS !in s && SEMICOLON !in s
  }

  lemma EncodedIsClean(s: Bytes)
    ensures Clean(Encode(s, false))
  {
  }

  lemma PartParses(p: Pair)
    ensures ParsePart(Part(EncodePair(p))) == [p]
    ensures AMPERSAND !in Part(EncodePair(p))
  {
    var e := EncodePair(p);
    EncodedIsClean(p.k);
    EncodedIsClean(p.v);
    CutAt(e.k, EQUALS, e.v);
    DecodeEncode(p.k, false);
    DecodeEncode(p.v, false);
    assert SEMICOLON !in Part(e);
  }

  lemma {:induction false} JoinParses(pairs: seq<Pair>, plain: seq<Pair>)
    requires |pairs| == |plain| && forall i :: 0 <= i < |pairs| ==> pairs[i] == EncodePair(plain[i])
    ensures ParseQuery(Join(pairs)) == plain
  {
    hide EncodePair, ParsePart, Part;
    if pairs != [] {
      PartParses(plain[0]);
      var part := Part(pairs[0]);
      assert pairs[0] == EncodePair(plain[0]);
      PartNotEmpty(pairs[0]);
      if |pairs| == 1 {
        CutAt(part, AMPERSAND, []);
        assert plain == [plain[0]];
      } else {
        CutAt(part, AMPERSAND, Join(pairs[1..]));
        JoinParses(pairs[1..], plain[1..]);
        assert plain == [plain[0]] + plain[1..];
      }
    }
  }

  lemma PartNotEmpty(p: Pair)
    ensures Part(p) != []
  {
  }

  lemma {:induction false} Unencoded(s: seq<Pair>, pairs: seq<Pair>) returns (plain: seq<Pair>)
    requires forall e :: e in s ==> e in EncodeAll(pairs)
    ensures EncodeAll(plain) == s
  {
    hide EncodePair;
    plain := [];
    if s != [] {
      var front, last := s[..|s| - 1], s[|s| - 1];
      var before := Unencoded(front, pairs);
      var x := EncodedOnlyFrom(pairs, last);
      plain := before + [x];
      assert plain[..|before|] == before && s == front + [last];
    }
  }

  /** Splitting and percent-decoding the canonical string recovers exactly the pairs. */
  lemma QueryRecovered(pairs: seq<Pair>)
    ensures multiset(ParseQuery(Canonical(pairs))) == multiset(pairs)
  {
    hide EncodeAll, ParseQuery, Join;
    var encoded := EncodeAll(pairs);
    var sorted := Sort(PairLess, encoded);
    SortKeeps(PairLess, encoded);
    forall e | e in sorted ensures e in encoded {
      InMultiset(sorted, encoded, e);
    }
    var plain := Unencoded(sorted, pairs);
    EncodeAllSame(plain, pairs);
    JoinParses(sorted, plain);
  }

  /** Two lists of pairs have the same canonical string exactly when they are the same pairs. */
  lemma CanonicalInjective(p: seq<Pair>, q: seq<Pair>)
    ensures Canonical(p) == Canonical(q) <==> multiset(p) == multiset(q)
  {
    hide Canonical, ParseQuery;
    QueryRecovered(p);
    QueryRecovered(q);
    if multiset(p) == multiset(q) {
      CanonicalOfMultiset(p, q);
    }
  }

  // ---- queries as maps

  type Values = map<Bytes, seq<Bytes>>

  function WithKey(k: Bytes, vs: seq<Bytes>): (r: seq<Pair>)
  {
    if vs == [] then [] else WithKey(k, vs[..|vs| - 1]) + [Pair(k, vs[|vs| - 1])]
  }

  /** The pairs of a query, its keys taken in the given order. */
  function PairsOf(q: Values, order: seq<Bytes>): seq<Pair>
    requires forall k :: k in order ==> k in q
  {
    if order == [] then []
    else PairsOf(q, order[..|order| - 1]) + WithKey(order[|order| - 1], q[order[|order| - 1]])
  }

  /** `order` goes through the keys of a map once each, as a range over it does. */
  ghost predicate Ranges(order: seq<Bytes>, q: Values) {
    && (forall k :: k in order <==> k in q)
    && (forall i, j :: 0 <= i < j < |order| ==> order[i] != order[j])
  }

  lemma {:induction false} WithKeyCount(k: Bytes, vs: seq<Bytes>, p: Pair)
    ensures multiset(WithKey(k, vs))[p] == if p.k == k then multiset(vs)[p.v] else 0
  {
    if vs != [] {
      WithKeyCount(k, vs[..|vs| - 1], p);
      assert vs == vs[..|vs| - 1] + [vs[|vs| - 1]];
    }
  }

  lemma {:induction false} PairsCount(q: Values, order: seq<Bytes>, p: Pair)
    requires forall k :: k in order ==> k in q
    requires forall i, j :: 0 <= i < j < |order| ==> order[i] != order[j]
    ensures multiset(PairsOf(q, order))[p] == if p.k in order then multiset(q[p.k])[p.v] else 0
  {
    hide WithKey;
    if order != [] {
      var front, last := order[..|order| - 1], order[|order| - 1];
      PairsCount(q, front, p);
      WithKeyCount(last, q[last], p);
      assert order == front + [last];
      assert multiset(PairsOf(q, order)) == multiset(PairsOf(q, front)) + multiset(WithKey(last, q[last]));
    }
  }

  /** Whatever order the map is gone through in, the encoded query is the same. */
  lemma EncodingIgnoresMapOrder(q: Values, order: seq<Bytes>, order': seq<Bytes>)
    requires Ranges(order, q) && Ranges(order', q)
    ensures Canonical(PairsOf(q, order)) == Canonical(PairsOf(q, order'))
  {
    hide Canonical, PairsOf;
    forall p ensures multiset(PairsOf(q, order))[p] == multiset(PairsOf(q, order'))[p] {
      PairsCount(q, order, p);
      PairsCount(q, order', p);
    }
    CanonicalOfMultiset(PairsOf(q, order), PairsOf(q, order'));
  }

  /** The map a parsed query becomes: values under each key in the order they came. */
  function Group(pairs: seq<Pair>): Values {
    if pairs == [] then map[]
    else
      var before, p := Group(pairs[..|pairs| - 1]), pairs[|pairs| - 1];
      before[p.k := (if p.k in before then before[p.k] else []) + [p.v]]
  }

  lemma {:induction false} GroupCount(pairs: seq<Pair>, p: Pair)
    ensures multiset(pairs)[p] == if p.k in Group(pairs) then multiset(Group(pairs)[p.k])[p.v] else 0
  {
    if pairs != [] {
      GroupCount(pairs[..|pairs| - 1], p);
      assert pairs == pairs[..|pairs| - 1] + [pairs[|pairs| - 1]];
    }
  }

  /**
   The query that is signed is the query that is sent: encoding, parsing the result and
   encoding what was parsed gives the same string.
   */
  lemma SignedQueryIsSentQuery(q: Values, order: seq<Bytes>, order': seq<Bytes>)
    requires Ranges(order, q) && Ranges(order', Group(ParseQuery(Canonical(PairsOf(q, order)))))
    ensures var sent := Canonical(PairsOf(q, order));
            Canonical(PairsOf(Group(ParseQuery(sent)), order')) == sent
  {
    hide Canonical, PairsOf, ParseQuery, Group;
    var sent := Canonical(PairsOf(q, order));
    var parsed := ParseQuery(sent);
    QueryRecovered(PairsOf(q, order));
    forall p ensures multiset(PairsOf(Group(parsed), order'))[p] == multiset(parsed)[p] {
      PairsCount(Group(parsed), order', p);
      GroupCount(parsed, p);
    }
    CanonicalOfMultiset(PairsOf(Group(parsed), order'), PairsOf(q, order));
  }

  /** `order` has gone through the keys of a map that are not left, once each, and their pairs are encoded. */
  ghost predicate Collected(q: Values, left: set<Bytes>, order: seq<Bytes>, encoded: seq<Pair>) {
    && (forall k :: k in order <==> k in q && k !in left)
    && (forall i, j :: 0 <= i < j < |order| ==> order[i] != order[j])
    && encoded == EncodeAll(PairsOf(q, order))
  }

  lemma CollectedMore(q: Values, left: set<Bytes>, order: seq<Bytes>, encoded: seq<Pair>, k: Bytes)
    requires Collected(q, left, order, encoded) && k in left && k in q
    ensures Collected(q, left - {k}, order + [k], encoded + EncodeAll(WithKey(k, q[k])))
  {
    hide EncodeAll, WithKey;
    assert (order + [k])[..|order|] == order;
    EncodeAllConcat(PairsOf(q, order), WithKey(k, q[k]));
  }

  lemma CollectedAll(q: Values, order: seq<Bytes>, encoded: seq<Pair>)
    ensures Collected(q, q.Keys, [], [])
    ensures Collected(q, {}, order, encoded) ==> Ranges(order, q) && encoded == EncodeAll(PairsOf(q, order))
  {
  }

  /** Encodes the pairs of a map, its keys in whatever order they come. */
  method CollectPairs(q: Values) returns (encoded: seq<Pair>, ghost order: seq<Bytes>)
    ensures Ranges(order, q) && encoded == EncodeAll(PairsOf(q, order))
  {
    hide Collected, Ranges, PairsOf, EncodeAll, WithKey;
    encoded, order := [], [];
    var left := q.Keys;
    CollectedAll(q, order, encoded);
    while left != {}
      invariant left <= q.Keys && Collected(q, left, order, encoded)
      decreases |left|
    {
      var k :| k in left;
      var more := EncodeValues(k, q[k]);
      CollectedMore(q, left, order, encoded, k);
      encoded, order, left := encoded + more, order + [k], left - {k};
    }
    CollectedAll(q, order, encoded);
  }

  /** The canonical query string of a map of values, the same for every order of going through it. */
  method EncodeQuery(q: Values) returns (s: Bytes)
    ensures forall order :: Ranges(order, q) ==> s == Canonical(PairsOf(q, order))
  {
    hide PairsOf, EncodeAll;
    var encoded, order := CollectPairs(q);
    s := JoinAll(Sort(PairLess, encoded));
    forall other | Ranges(other, q) ensures s == Canonical(PairsOf(q, other)) {
      EncodingIgnoresMapOrder(q, order, other);
    }
  }

  lemma {:induction false} EncodeAllConcat(p: seq<Pair>, q: seq<Pair>)
    ensures EncodeAll(p + q) == EncodeAll(p) + EncodeAll(q)
  {
    if q == [] {
      assert p + q == p;
    } else {
      assert (p + q)[..|p + q| - 1] == p + q[..|q| - 1];
      EncodeAllConcat(p, q[..|q| - 1]);
    }
  }

  method EncodeValues(k: Bytes, vs: seq<Bytes>) returns (r: seq<Pair>)
    ensures r == EncodeAll(WithKey(k, vs))
  {
    r := [];
    for i := 0 to |vs|
      invariant r == EncodeAll(WithKey(k, vs[..i]))
    {
      var ek := UriEncode(k, false);
      var ev := UriEncode(vs[i], false);
      assert vs[..i + 1][..i] == vs[..i];
      EncodeAllConcat(WithKey(k, vs[..i]), [Pair(k, vs[i])]);
      assert EncodeAll([Pair(k, vs[i])]) == [Pair(ek, ev)];
      r := r + [Pair(ek, ev)];
    }
    assert vs[..|vs|] == vs;
  }

  method JoinAll(pairs: seq<Pair>) returns (s: Bytes)
    ensures s == Join(pairs)
  {
    s := [];
    var i := |pairs|;
    while i > 0
      invariant 0 <= i <= |pairs| && s == Join(pairs[i..])
    {
      i := i - 1;
      assert pairs[i..][1..] == pairs[i + 1..];
      var part := pairs[i].k + [EQUALS] + pairs[i].v;
      s := if i == |pairs| - 1 then part else part + [AMPERSAND] + s;
    }
    assert pairs[0..] == pairs;
  }
}
