/**
 The encrypted payload of a backup: chunks sealed one by one with an authenticated
 cipher, each under a nonce that says which chunk it is and whether it is the last.

 The cipher is ideal: it opens exactly what was sealed. The underlying writer and
 reader do not fail.
 */
module BackupCrypt {
  import opened Basics

  const CHUNK_SIZE := 65536
  const OVERHEAD := 16
  const SEALED_SIZE := 65552 // CHUNK_SIZE + OVERHEAD
  const HEADER_SIZE := 40
  const UINT32 := 0x1_0000_0000
  const MAX_COUNTER := UINT32 - 1

  const MAGIC: Bytes := [78, 72, 66, 75, 69, 78, 67, 49] // "NHBKENC1"
  const MAX_LOG_N := 20
  const SCRYPT_R := 8
  const SCRYPT_P := 1

  function U16(n: nat): (r: Bytes)
    requires n < 65536
    ensures |r| == 2
  {
    [n / 256, n % 256]
  }

  /** Big-endian, as four bytes. */
  function U32(n: nat): (r: Bytes)
    requires n < UINT32
    ensures |r| == 4
  {
    U16(n / 65536) + U16(n % 65536)
  }

  function FromU32(b: Bytes): nat
    requires |b| == 4
  {
    16777216 * (b[0] as int) + 65536 * (b[1] as int) + 256 * (b[2] as int) + b[3]
  }

  lemma U32RoundTrip(n: nat)
    requires n < UINT32
    ensures FromU32(U32(n)) == n
  {
    var hi, lo := n / 65536, n % 65536;
    assert hi == 256 * (hi / 256) + hi % 256 && lo == 256 * (lo / 256) + lo % 256;
    assert U32(n) == [hi / 256, hi % 256, lo / 256, lo % 256];
  }

  /** The header of an archive: parameters, salt and nonce prefix. */
  function Header(logN: byte, salt: Bytes, prefix: Bytes): (h: Bytes)
    requires |salt| == 16 && |prefix| == 7
    ensures |h| == HEADER_SIZE && h[28..35] == prefix
  {
    MAGIC + [1, logN, SCRYPT_R, SCRYPT_P] + salt + prefix + U32(CHUNK_SIZE) + [0]
  }

  predicate SupportedParameters(h: Bytes)
    requires |h| == HEADER_SIZE
  {
    h[8] == 1 && 0 < h[9] <= MAX_LOG_N && h[10] == SCRYPT_R && h[11] == SCRYPT_P
  }

  predicate SupportedHeader(h: Bytes)
    requires |h| == HEADER_SIZE
  {
    SupportedParameters(h) && FromU32(h[35..39]) == CHUNK_SIZE
  }

  /** The header an archive gets is one a reader supports. */
  lemma OwnHeaderSupported(logN: byte, salt: Bytes, prefix: Bytes)
    requires |salt| == 16 && |prefix| == 7 && 0 < logN <= MAX_LOG_N
    ensures var h := Header(logN, salt, prefix); h[..8] == MAGIC && SupportedHeader(h)
  {
    var h := Header(logN, salt, prefix);
    assert h[35..39] == U32(CHUNK_SIZE);
    U32RoundTrip(CHUNK_SIZE);
  }

  /** Prefix, chunk number, and whether the chunk is the last. */
  function Nonce(h: Bytes, i: nat, last: bool): (r: Bytes)
    requires |h| == HEADER_SIZE && i < UINT32
    ensures |r| == 12
  {
    h[28..35] + U32(i) + [if last then 1 else 0]
  }

  /** No two chunks of an archive share a nonce, nor does a chunk as last share it as not last. */
  lemma NoncesDistinct(h: Bytes, i: nat, last: bool, j: nat, last': bool)
    requires |h| == HEADER_SIZE && i < UINT32 && j < UINT32
    ensures Nonce(h, i, last) == Nonce(h, j, last') <==> i == j && last == last'
  {
    if Nonce(h, i, last) == Nonce(h, j, last') {
      var a, b := Nonce(h, i, last), Nonce(h, j, last');
      assert a[7..11] == U32(i) && b[7..11] == U32(j) && a[11] == b[11];
      U32RoundTrip(i);
      U32RoundTrip(j);
    }
  }

  // ---- the ideal cipher

  /** A cipher under one key: nonce, text and additional data in that order. */
  datatype Aead = Aead(seal: (Bytes, Bytes, Bytes) -> Bytes, open: (Bytes, Bytes, Bytes) -> Option<Bytes>)

  datatype Sealed = Sealed(nonce: Bytes, plain: Bytes, header: Bytes, text: Bytes)

  function Seal(a: Aead, nonce: Bytes, plain: Bytes, h: Bytes): Sealed {
    Sealed(nonce, plain, h, a.seal(nonce, plain, h))
  }

  /** Sealing adds a tag; opening succeeds exactly on what has been sealed. */
  ghost predicate Ideal(a: Aead, sealed: set<Sealed>) {
    && (forall n, p, h :: |a.seal(n, p, h)| == |p| + OVERHEAD)
    && (forall n, t, h, p :: a.open(n, t, h) == Some(p) <==> Sealed(n, p, h, t) in sealed)
  }

  // ---- the stream

  /** Where chunk `i` starts in the plaintext, and where it starts after the header. */
  function PlainAt(i: nat): nat { 65536 * i }

  function SealedAt(i: nat): nat { 65552 * i }

  /** The number of the last chunk: full chunks come before it, and only the empty input has an empty one. */
  function LastChunk(plain: Bytes): nat {
    if plain == [] then 0 else (|plain| - 1) / 65536
  }

  function Chunk(plain: Bytes, i: nat): (c: Bytes)
    requires i <= LastChunk(plain)
    ensures |c| == if i < LastChunk(plain) then CHUNK_SIZE else |plain| - PlainAt(i)
    ensures 0 <= |plain| - PlainAt(LastChunk(plain)) <= CHUNK_SIZE
  {
    plain[PlainAt(i) .. Min(PlainAt(i + 1), |plain|)]
  }

  function SealedChunk(a: Aead, h: Bytes, plain: Bytes, i: nat): Sealed
    requires |h| == HEADER_SIZE && i <= LastChunk(plain) < UINT32
  {
    Seal(a, Nonce(h, i, i == LastChunk(plain)), Chunk(plain, i), h)
  }

  /** The first `n` sealed chunks. */
  function Body(a: Aead, h: Bytes, plain: Bytes, n: nat): Bytes
    requires |h| == HEADER_SIZE && n <= LastChunk(plain) + 1 && LastChunk(plain) < UINT32
  {
    if n == 0 then [] else Body(a, h, plain, n - 1) + SealedChunk(a, h, plain, n - 1).text
  }

  /** The whole stream: header, full chunks, and one marked as last. */
  function Stream(a: Aead, h: Bytes, plain: Bytes): Bytes
    requires |h| == HEADER_SIZE && LastChunk(plain) < UINT32
  {
    h + Body(a, h, plain, LastChunk(plain) + 1)
  }

  /** What was sealed for the first `n` chunks. */
  function Seals(a: Aead, h: Bytes, plain: Bytes, n: nat): set<Sealed>
    requires |h| == HEADER_SIZE && n <= LastChunk(plain) + 1 && LastChunk(plain) < UINT32
  {
    set i | 0 <= i < n :: SealedChunk(a, h, plain, i)
  }

  /** Everything sealed for one archive. */
  function SealedBy(a: Aead, h: Bytes, plain: Bytes): set<Sealed>
    requires |h| == HEADER_SIZE && LastChunk(plain) < UINT32
  {
    Seals(a, h, plain, LastChunk(plain) + 1)
  }

  /** Of all that was sealed under this key, exactly the chunks of `plain` carry header `h`. */
  ghost predicate OnlyArchive(sealed: set<Sealed>, a: Aead, h: Bytes, plain: Bytes)
    requires |h| == HEADER_SIZE && LastChunk(plain) < UINT32
  {
    forall x :: x in sealed && x.header == h <==> x in SealedBy(a, h, plain)
  }

  /** Nothing else under this key carries header `h`, though some chunks of `plain` may be missing. */
  ghost predicate NothingElse(sealed: set<Sealed>, a: Aead, h: Bytes, plain: Bytes)
    requires |h| == HEADER_SIZE && LastChunk(plain) < UINT32
  {
    forall x :: x in sealed && x.header == h ==> x in SealedBy(a, h, plain)
  }

  // ---- reading

  datatype End = Eof | Truncated | AuthFailed

  datatype Piece = Opened(plain: Bytes, last: bool) | Failed(end: End)

  /** Reads and opens chunk `i` of what follows the header. */
  function Next(a: Aead, h: Bytes, body: Bytes, i: nat): Piece
    requires |h| == HEADER_SIZE && SealedAt(i) <= |body|
  {
    var rest := body[SealedAt(i)..];
    if rest == [] then Failed(Truncated)
    else
      var last := |rest| <= SEALED_SIZE;
      var text := rest[..Min(SEALED_SIZE, |rest|)];
      if |text| < OVERHEAD then Failed(Truncated)
      else
        match a.open(Nonce(h, i % UINT32, last), text, h)
        case Some(plain) => Opened(plain, last)
        case None =>
          // A stream that ends after a whole chunk has that chunk sealed as not the last.
          if last && a.open(Nonce(h, i % UINT32, false), text, h).Some? then Failed(Truncated) else Failed(AuthFailed)
  }

  /** What a reader gets in all, and how it ends. */
  datatype Outcome = Outcome(plain: Bytes, end: End)

  /** Everything read from chunk `i` on. */
  function ReadFrom(a: Aead, h: Bytes, body: Bytes, i: nat): Outcome
    requires |h| == HEADER_SIZE && SealedAt(i) <= |body|
    decreases |body| - SealedAt(i)
  {
    match Next(a, h, body, i)
    case Failed(end) => Outcome([], end)
    case Opened(plain, last) =>
      if last then Outcome(plain, Eof)
      else
        var more := ReadFrom(a, h, body, i + 1);
        Outcome(plain + more.plain, more.end)
  }

  // ---- theorems

  lemma {:induction false} BodyLength(a: Aead, sealed: set<Sealed>, h: Bytes, plain: Bytes, n: nat)
    requires |h| == HEADER_SIZE && n <= LastChunk(plain) + 1 && LastChunk(plain) < UINT32 && Ideal(a, sealed)
    ensures n <= LastChunk(plain) ==> |Body(a, h, plain, n)| == SealedAt(n)
    ensures n == LastChunk(plain) + 1 ==> |Body(a, h, plain, n)| == SealedAt(n - 1) + |Chunk(plain, n - 1)| + OVERHEAD
  {
    if n > 0 {
      BodyLength(a, sealed, h, plain, n - 1);
    }
  }

  /** Chunk `i` is where the reader looks for it. */
  lemma {:induction false} BodyAt(a: Aead, sealed: set<Sealed>, h: Bytes, plain: Bytes, n: nat, i: nat)
    requires |h| == HEADER_SIZE && i < n <= LastChunk(plain) + 1 && LastChunk(plain) < UINT32 && Ideal(a, sealed)
    ensures var text := SealedChunk(a, h, plain, i).text;
            var body := Body(a, h, plain, n);
            SealedAt(i) + |text| <= |body| && body[SealedAt(i) .. SealedAt(i) + |text|] == text
  {
    hide SealedChunk, Chunk, Nonce, Ideal;
    BodyLength(a, sealed, h, plain, n - 1);
    var before, added := Body(a, h, plain, n - 1), SealedChunk(a, h, plain, n - 1).text;
    assert Body(a, h, plain, n) == before + added;
    if i < n - 1 {
      BodyAt(a, sealed, h, plain, n - 1, i);
      var lo, hi := SealedAt(i), SealedAt(i) + |SealedChunk(a, h, plain, i).text|;
      assert (before + added)[lo..hi] == before[lo..hi];
    } else {
      assert (before + added)[|before| .. |before| + |added|] == added;
    }
  }

  lemma SealedChunkIs(a: Aead, sealed: set<Sealed>, h: Bytes, plain: Bytes, i: nat)
    requires |h| == HEADER_SIZE && i <= LastChunk(plain) < UINT32 && Ideal(a, sealed)
    ensures var x := SealedChunk(a, h, plain, i);
            && x.nonce == Nonce(h, i, i == LastChunk(plain)) && x.plain == Chunk(plain, i) && x.header == h
            && |x.text| == |Chunk(plain, i)| + OVERHEAD
            && x in SealedBy(a, h, plain)
  {
    hide Nonce, Chunk, LastChunk;
  }

  lemma SealedOpens(a: Aead, sealed: set<Sealed>, x: Sealed)
    requires Ideal(a, sealed) && x in sealed
    ensures a.open(x.nonce, x.text, x.header) == Some(x.plain)
  {
  }

  /**
   What the reader cuts out of a genuine stream as chunk `i` is that chunk, and it ends the stream if it is the
   last.
   */
  lemma CutOfStream(a: Aead, sealed: set<Sealed>, h: Bytes, plain: Bytes, i: nat)
    requires |h| == HEADER_SIZE && i <= LastChunk(plain) < UINT32 && Ideal(a, sealed)
    ensures var body, text := Body(a, h, plain, LastChunk(plain) + 1), SealedChunk(a, h, plain, i).text;
            && SealedAt(i) < |body| && |text| >= OVERHEAD
            && var rest := body[SealedAt(i)..];
               rest[..Min(SEALED_SIZE, |rest|)] == text && (|rest| <= SEALED_SIZE <==> i == LastChunk(plain))
  {
    hide Nonce, Body, SealedChunk, Ideal, Chunk, LastChunk, SealedBy;
    var m := LastChunk(plain);
    var body, text := Body(a, h, plain, m + 1), SealedChunk(a, h, plain, i).text;
    BodyLength(a, sealed, h, plain, m + 1);
    BodyAt(a, sealed, h, plain, m + 1, i);
    SealedChunkIs(a, sealed, h, plain, i);
    CutAt(body, SealedAt(i), |text|);
  }

  lemma CutAt(body: Bytes, at: nat, n: nat)
    requires at + n <= |body|
    ensures body[at..][..n] == body[at .. at + n]
  {
  }

  /** The reader opens each chunk of a genuine stream, and knows the last one. */
  lemma NextOfStream(a: Aead, sealed: set<Sealed>, h: Bytes, plain: Bytes, i: nat)
    requires |h| == HEADER_SIZE && i <= LastChunk(plain) < UINT32
    requires Ideal(a, sealed) && OnlyArchive(sealed, a, h, plain)
    ensures var body := Body(a, h, plain, LastChunk(plain) + 1);
            SealedAt(i) < |body| && Next(a, h, body, i) == Opened(Chunk(plain, i), i == LastChunk(plain))
  {
    hide Nonce, Body, SealedChunk, Ideal, Chunk, LastChunk, SealedBy;
    var x := SealedChunk(a, h, plain, i);
    CutOfStream(a, sealed, h, plain, i);
    SealedChunkIs(a, sealed, h, plain, i);
    assert x in sealed;
    SealedOpens(a, sealed, x);
  }

  lemma PlainSplit(plain: Bytes, i: nat)
    requires i < LastChunk(plain)
    ensures PlainAt(i + 1) <= |plain| && plain[PlainAt(i)..] == Chunk(plain, i) + plain[PlainAt(i + 1)..]
  {
  }

  lemma {:induction false} RoundTripFrom(a: Aead, sealed: set<Sealed>, h: Bytes, plain: Bytes, i: nat)
    requires |h| == HEADER_SIZE && i <= LastChunk(plain) < UINT32
    requires Ideal(a, sealed) && OnlyArchive(sealed, a, h, plain)
    ensures var body := Body(a, h, plain, LastChunk(plain) + 1);
            && SealedAt(i) <= |body| && PlainAt(i) <= |plain|
            && ReadFrom(a, h, body, i) == Outcome(plain[PlainAt(i)..], Eof)
    decreases LastChunk(plain) - i
  {
    hide Next, Body;
    NextOfStream(a, sealed, h, plain, i);
    if i < LastChunk(plain) {
      RoundTripFrom(a, sealed, h, plain, i + 1);
      PlainSplit(plain, i);
    }
  }

  /** Reading an untouched stream gives back exactly the plaintext, and then the end of the file. */
  lemma RoundTrip(a: Aead, sealed: set<Sealed>, h: Bytes, plain: Bytes)
    requires |h| == HEADER_SIZE && LastChunk(plain) < UINT32
    requires Ideal(a, sealed) && OnlyArchive(sealed, a, h, plain)
    ensures ReadFrom(a, h, Stream(a, h, plain)[HEADER_SIZE..], 0) == Outcome(plain, Eof)
  {
    RoundTripFrom(a, sealed, h, plain, 0);
    assert Stream(a, h, plain)[HEADER_SIZE..] == Body(a, h, plain, LastChunk(plain) + 1);
  }

  /** Whatever opens as chunk `i` is chunk `i` of the archive, in its place. */
  lemma OpenedIsGenuine(a: Aead, sealed: set<Sealed>, h: Bytes, plain: Bytes, body: Bytes, i: nat)
    requires |h| == HEADER_SIZE && LastChunk(plain) < UINT32 && SealedAt(i) <= |body| && i < UINT32
    requires Ideal(a, sealed) && NothingElse(sealed, a, h, plain) && Next(a, h, body, i).Opened?
    ensures i <= LastChunk(plain) && SealedChunk(a, h, plain, i) in sealed
    ensures Next(a, h, body, i) == Opened(Chunk(plain, i), i == LastChunk(plain))
    ensures var rest := body[SealedAt(i)..]; rest[..Min(SEALED_SIZE, |rest|)] == SealedChunk(a, h, plain, i).text
  {
    hide Nonce;
    var m := LastChunk(plain);
    var rest := body[SealedAt(i)..];
    var last := |rest| <= SEALED_SIZE;
    var text := rest[..Min(SEALED_SIZE, |rest|)];
    var x := Sealed(Nonce(h, i, last), Next(a, h, body, i).plain, h, text);
    assert x in sealed && x in SealedBy(a, h, plain);
    var j :| 0 <= j <= m && x == SealedChunk(a, h, plain, j);
    NoncesDistinct(h, i, last, j, j == m);
  }

  /** A chunk that is not the last is a whole one, and the last one ends the stream. */
  lemma NextIsWhole(a: Aead, h: Bytes, body: Bytes, i: nat)
    requires |h| == HEADER_SIZE && SealedAt(i) <= |body|
    ensures var next, rest := Next(a, h, body, i), body[SealedAt(i)..];
            && (next.Opened? ==>
                  if next.last then rest[..Min(SEALED_SIZE, |rest|)] == rest else SealedAt(i + 1) <= |body|)
            && (next.Failed? ==> next.end != Eof)
  {
  }

  lemma ChunkFits(plain: Bytes, i: nat)
    requires i <= LastChunk(plain)
    ensures PlainAt(i) <= |plain| && (i == LastChunk(plain) ==> Chunk(plain, i) == plain[PlainAt(i)..])
  {
  }

  /** From chunk `i` on, a stream that was genuine so far releases only more of the plaintext. */
  lemma {:induction false} ReadsGenuine(a: Aead, sealed: set<Sealed>, h: Bytes, plain: Bytes, body: Bytes, i: nat)
    requires |h| == HEADER_SIZE && i <= LastChunk(plain) < UINT32 && SealedAt(i) <= |body|
    requires Ideal(a, sealed) && NothingElse(sealed, a, h, plain)
    requires body[..SealedAt(i)] == Body(a, h, plain, i)
    ensures PlainAt(i) <= |plain| && ReadFrom(a, h, body, i).plain <= plain[PlainAt(i)..]
    ensures ReadFrom(a, h, body, i).end == Eof ==>
              body == Body(a, h, plain, LastChunk(plain) + 1) && SealedChunk(a, h, plain, LastChunk(plain)) in sealed
    decreases LastChunk(plain) - i
  {
    hide Nonce, SealedChunk, Next, Ideal, NothingElse, LastChunk;
    var next := Next(a, h, body, i);
    NextIsWhole(a, h, body, i);
    ChunkFits(plain, i);
    if next.Opened? {
      OpenedIsGenuine(a, sealed, h, plain, body, i);
      var rest := body[SealedAt(i)..];
      assert body == body[..SealedAt(i)] + rest;
      if i < LastChunk(plain) {
        assert body[..SealedAt(i + 1)] == body[..SealedAt(i)] + rest[..SEALED_SIZE];
        ReadsGenuine(a, sealed, h, plain, body, i + 1);
        PlainSplit(plain, i);
      }
    }
  }

  /** What an archive holds, and whether its writer was closed; without that its last chunk was never sealed. */
  datatype Written = Written(plain: Bytes, done: bool)

  /** An archive has a header its reader supports, and no more chunks than the counter can number. */
  predicate Writable(h: Bytes, plain: Bytes) {
    |h| == HEADER_SIZE && h[..8] == MAGIC && SupportedHeader(h) && LastChunk(plain) < UINT32
  }

  /** Of what was sealed under this key, exactly the chunks flushed for archive `h` carry its header. */
  ghost predicate SealedFor(sealed: set<Sealed>, a: Aead, h: Bytes, archive: Written)
    requires Writable(h, archive.plain)
  {
    var n := LastChunk(archive.plain) + if archive.done then 1 else 0;
    forall x :: x in sealed && x.header == h <==> x in Seals(a, h, archive.plain, n)
  }

  /** The last chunk is not among those before it. */
  lemma LastIsNew(a: Aead, h: Bytes, plain: Bytes)
    requires |h| == HEADER_SIZE && LastChunk(plain) < UINT32
    ensures SealedChunk(a, h, plain, LastChunk(plain)) !in Seals(a, h, plain, LastChunk(plain))
  {
    hide Nonce;
    var m := LastChunk(plain);
    forall i | 0 <= i < m ensures SealedChunk(a, h, plain, i) != SealedChunk(a, h, plain, m) {
      NoncesDistinct(h, i, false, m, true);
    }
  }

  /**
   Whatever follows its header, an archive releases only its plaintext, and all of it only by its own bytes once it
   is done.
   */
  lemma BodyDamageDetected(a: Aead, sealed: set<Sealed>, h: Bytes, archive: Written, body: Bytes)
    requires Writable(h, archive.plain) && Ideal(a, sealed) && SealedFor(sealed, a, h, archive)
    ensures ReadFrom(a, h, body, 0).plain <= archive.plain
    ensures ReadFrom(a, h, body, 0).end == Eof <==> archive.done && h + body == Stream(a, h, archive.plain)
    ensures ReadFrom(a, h, body, 0).end == Eof ==> ReadFrom(a, h, body, 0).plain == archive.plain
  {
    hide ReadFrom, Body, SealedChunk, SupportedHeader;
    var plain := archive.plain;
    assert body[..SealedAt(0)] == Body(a, h, plain, 0) by { BodyLength(a, sealed, h, plain, 0); }
    assert NothingElse(sealed, a, h, plain);
    ReadsGenuine(a, sealed, h, plain, body, 0);
    assert (h + body)[HEADER_SIZE..] == body;
    if archive.done {
      assert OnlyArchive(sealed, a, h, plain);
      RoundTrip(a, sealed, h, plain);
    } else {
      SealedChunkIs(a, sealed, h, plain, LastChunk(plain));
      LastIsNew(a, h, plain);
    }
  }

  /** Under a key that sealed nothing with this header (a wrong passphrase, a forged header) nothing is released. */
  lemma ForeignKeyRefused(a: Aead, sealed: set<Sealed>, h: Bytes, body: Bytes)
    requires |h| == HEADER_SIZE && Ideal(a, sealed) && forall x :: x in sealed ==> x.header != h
    ensures ReadFrom(a, h, body, 0) == Outcome([], if |body| < OVERHEAD then Truncated else AuthFailed)
  {
    forall n, t, p ensures a.open(n, t, h) != Some(p) {
      assert Sealed(n, p, h, t) !in sealed;
    }
  }

  /** Long enough for a header, and marked as encrypted. */
  predicate Marked(stream: Bytes) {
    |stream| >= HEADER_SIZE && stream[..8] == MAGIC
  }

  /**
   What comes of any bytes at all: nothing if the header is refused, else what the rest gives under the key of that
   header.
   */
  function ReadStream(derive: Bytes -> Aead, stream: Bytes): Option<Outcome> {
    if !Marked(stream) || !SupportedHeader(stream[..HEADER_SIZE]) then None
    else Some(ReadFrom(derive(stream[..HEADER_SIZE]), stream[..HEADER_SIZE], stream[HEADER_SIZE..], 0))
  }

  /**
   All that was ever written under one passphrase, one archive for each header: the key of each header is
   ideal, and it sealed with that header what the archive needed, or nothing if there is no such archive.
   */
  ghost predicate Vault(derive: Bytes -> Aead, under: Bytes -> set<Sealed>, archives: map<Bytes, Written>) {
    && (forall x: Bytes :: Ideal(derive(x), under(x)))
    && (forall x :: x in archives ==> Writable(x, archives[x].plain) && SealedFor(under(x), derive(x), x, archives[x]))
    && (forall x: Bytes, y :: x !in archives && y in under(x) ==> y.header != x)
  }

  /** The stream is, byte for byte, what the writer of a finished archive wrote. */
  ghost predicate Genuine(derive: Bytes -> Aead, archives: map<Bytes, Written>, stream: Bytes) {
    exists h :: h in archives && archives[h].done && Writable(h, archives[h].plain)
                && stream == Stream(derive(h), h, archives[h].plain)
  }

  /** It is that of its own header. */
  lemma GenuineIsOwn(derive: Bytes -> Aead, archives: map<Bytes, Written>, stream: Bytes)
    requires Genuine(derive, archives, stream)
    ensures var h := stream[..HEADER_SIZE];
            && h in archives && archives[h].done && Writable(h, archives[h].plain)
            && stream == Stream(derive(h), h, archives[h].plain)
  {
    hide Body;
    var h :| h in archives && archives[h].done && Writable(h, archives[h].plain)
             && stream == Stream(derive(h), h, archives[h].plain);
    assert stream[..HEADER_SIZE] == h;
  }

  /** The plaintext a header belongs to. */
  function PlainOf(archives: map<Bytes, Written>, h: Bytes): Bytes {
    if h in archives then archives[h].plain else []
  }

  /**
   However many archives a passphrase has made, finished or not, and for every stream there is: the reader
   releases a prefix of the plaintext its header belongs to, and it ends without an error, with all of it,
   exactly when the stream is what the writer of a finished archive wrote. One that is truncated, reordered,
   duplicated, extended, altered, spliced from several or put under other parameters ends in an error.
   */
  lemma DamageDetected(derive: Bytes -> Aead, under: Bytes -> set<Sealed>, archives: map<Bytes, Written>, stream: Bytes)
    requires Vault(derive, under, archives)
    ensures var r := ReadStream(derive, stream);
            && (r.Some? ==> r.value.plain <= PlainOf(archives, stream[..HEADER_SIZE]))
            && (r.Some? && r.value.end == Eof <==> Genuine(derive, archives, stream))
            && (Genuine(derive, archives, stream) ==> r.value.plain == PlainOf(archives, stream[..HEADER_SIZE]))
  {
    hide ReadFrom, Body, SupportedHeader, Ideal, SealedFor;
    forall h | h in archives ensures Stream(derive(h), h, archives[h].plain)[..HEADER_SIZE] == h {
    }
    if Marked(stream) && SupportedHeader(stream[..HEADER_SIZE]) {
      var x: Bytes, body: Bytes := stream[..HEADER_SIZE], stream[HEADER_SIZE..];
      assert stream == x + body;
      if x in archives {
        BodyDamageDetected(derive(x), under(x), x, archives[x], body);
      } else {
        ForeignKeyRefused(derive(x), under(x), x, body);
      }
    }
  }
}
