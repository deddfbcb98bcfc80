/**
 The encrypting writer and the decrypting reader as objects: any segmentation of the
 writes gives the one stream of `BackupCrypt`, and any segmentation of the reads gives
 what `BackupCrypt.ReadFrom` says.
 */
module BackupStream {
  import opened Basics
  import opened BackupCrypt

  datatype WriteError = WriteAfterClose | TooLarge

  lemma LastChunkIs(plain: Bytes, n: nat)
    requires PlainAt(n) <= |plain| <= PlainAt(n + 1) && (n > 0 ==> PlainAt(n) < |plain|)
    ensures LastChunk(plain) == n
  {
  }

  /** Chunks before the last stay what they are when more is written. */
  lemma MoreBehind(a: Aead, h: Bytes, plain: Bytes, more: Bytes, i: nat)
    requires |h| == HEADER_SIZE && i < LastChunk(plain) && LastChunk(plain + more) < UINT32
    ensures LastChunk(plain) <= LastChunk(plain + more)
    ensures SealedChunk(a, h, plain, i) == SealedChunk(a, h, plain + more, i)
  {
    assert Chunk(plain, i) == Chunk(plain + more, i);
  }

  lemma {:induction false} BodyStays(a: Aead, h: Bytes, plain: Bytes, more: Bytes, n: nat)
    requires |h| == HEADER_SIZE && n <= LastChunk(plain) && LastChunk(plain + more) < UINT32
    ensures LastChunk(plain) <= LastChunk(plain + more)
    ensures Body(a, h, plain, n) == Body(a, h, plain + more, n)
    ensures Seals(a, h, plain, n) == Seals(a, h, plain + more, n)
  {
    hide SealedChunk;
    if n > 0 {
      BodyStays(a, h, plain, more, n - 1);
      MoreBehind(a, h, plain, more, n - 1);
      assert Seals(a, h, plain, n) == Seals(a, h, plain, n - 1) + {SealedChunk(a, h, plain, n - 1)};
      assert Seals(a, h, plain + more, n) == Seals(a, h, plain + more, n - 1)
             + {SealedChunk(a, h, plain + more, n - 1)};
    }
  }

  /** A full last chunk, flushed because more arrives, is a middle chunk of the longer plaintext. */
  lemma FullChunkFlushed(a: Aead, h: Bytes, plain: Bytes, more: Bytes, n: nat)
    requires |h| == HEADER_SIZE && n + 1 < UINT32 && |plain| == PlainAt(n + 1) && 0 < |more| <= CHUNK_SIZE
    ensures LastChunk(plain) == n && LastChunk(plain + more) == n + 1
    ensures var x := Seal(a, Nonce(h, n, false), plain[PlainAt(n)..], h);
            && Body(a, h, plain + more, n + 1) == Body(a, h, plain, n) + x.text
            && Seals(a, h, plain + more, n + 1) == Seals(a, h, plain, n) + {x}
  {
    LastChunkIs(plain, n);
    LastChunkIs(plain + more, n + 1);
    BodyStays(a, h, plain, more, n);
    assert Chunk(plain + more, n) == plain[PlainAt(n)..];
    var x := SealedChunk(a, h, plain + more, n);
    assert Seals(a, h, plain + more, n + 1) == Seals(a, h, plain + more, n) + {x};
  }

  /** What is in the buffer at the end becomes the last chunk. */
  lemma LastChunkFlushed(a: Aead, h: Bytes, plain: Bytes, n: nat)
    requires |h| == HEADER_SIZE && n == LastChunk(plain) < UINT32
    ensures SealedChunk(a, h, plain, n) == Seal(a, Nonce(h, n, true), plain[PlainAt(n)..], h)
    ensures Stream(a, h, plain) == h + (Body(a, h, plain, n) + SealedChunk(a, h, plain, n).text)
    ensures SealedBy(a, h, plain) == Seals(a, h, plain, n) + {SealedChunk(a, h, plain, n)}
  {
    assert Chunk(plain, n) == plain[PlainAt(n)..];
  }

  lemma Regroup(a: Bytes, b: Bytes, c: Bytes)
    ensures a + b + c == a + (b + c)
  {
  }

  /** `k` more of what is to be written after `count`. */
  lemma TakeMore(before: Bytes, p: Bytes, count: nat, k: nat)
    requires count + k <= |p|
    ensures p[count..][k..] == p[count + k..]
    ensures before + p[..count] + p[count..][..k] == before + p[..count + k]
  {
    assert p[..count] + p[count..][..k] == p[..count + k];
  }

  class Encrypter {
    const aead: Aead
    const header: Bytes
    var w: Bytes           // what the underlying writer has received
    var nonce: Bytes
    var n: nat
    var buf: Bytes
    var closed: bool
    ghost var plain: Bytes // everything accepted so far
    ghost var sealed: set<Sealed>

    ghost predicate Sized()
      reads this
    {
      |header| == HEADER_SIZE && |nonce| == 12 && nonce[..7] == header[28..35] && n <= MAX_COUNTER
    }

    /** Chunks `0..n` are flushed and the buffer holds the rest of what was accepted. */
    ghost predicate Open()
      reads this
    {
      && Sized() && |buf| <= CHUNK_SIZE && |plain| == PlainAt(n) + |buf| && buf == plain[PlainAt(n)..]
      && LastChunk(plain) == n
      && w == header + Body(aead, header, plain, n) && sealed == Seals(aead, header, plain, n)
    }

    /** The last chunk is out: the stream is complete. */
    ghost predicate Complete()
      reads this
    {
      && Sized() && closed && LastChunk(plain) < MAX_COUNTER
      && w == Stream(aead, header, plain) && sealed == SealedBy(aead, header, plain)
    }

    /** Writes the header; `logN`, salt and prefix are the parameters drawn for this archive. */
    constructor (aead: Aead, logN: byte, salt: Bytes, prefix: Bytes)
      requires |salt| == 16 && |prefix| == 7
      ensures Open() && !closed && plain == [] && this.aead == aead && header == Header(logN, salt, prefix)
    {
      this.aead := aead;
      var h := Header(logN, salt, prefix);
      this.header := h;
      w, nonce, n, buf, closed, plain, sealed := h, prefix + [0, 0, 0, 0, 0], 0, [], false, [], {};
    }

    /** Seals the buffer as the next chunk; fails only when the counter is used up. */
    method Flush(last: bool) returns (error: Option<WriteError>)
      requires Sized()
      modifies this`w, this`nonce, this`n, this`buf, this`sealed
      ensures Sized() && error == if old(n) == MAX_COUNTER then Some(TooLarge) else None
      ensures error.Some? ==> w == old(w) && n == old(n) && buf == old(buf) && sealed == old(sealed)
      ensures error.None? ==>
                && n == old(n) + 1 && buf == []
                && var x := Seal(aead, Nonce(header, old(n), last), old(buf), header);
                   w == old(w) + x.text && sealed == old(sealed) + {x}
    {
      if n == MAX_COUNTER {
        return Some(TooLarge);
      }
      nonce := nonce[..7] + U32(n) + [if last then 1 else 0];
      var text := aead.seal(nonce, buf, header);
      sealed := sealed + {Sealed(nonce, buf, header, text)};
      n, buf := n + 1, [];
      w := w + text;
      return None;
    }

    /**
     Takes bytes in; a full buffer is flushed only once more arrive, because the last chunk
     may be full. It fails exactly after a close and when 2^32 chunks would not hold the data.
     */
    method Write(p: Bytes) returns (count: nat, error: Option<WriteError>)
      requires Open() || Complete()
      modifies this
      ensures closed == old(closed) && count <= |p| && plain == old(plain) + p[..count]
      ensures (old(Open()) ==> Open()) && (old(Complete()) ==> Complete())
      ensures old(closed) ==> error == Some(WriteAfterClose) && count == 0 && w == old(w) && sealed == old(sealed)
      ensures !old(closed) ==> error == if |old(plain)| + |p| > PlainAt(UINT32) then Some(TooLarge) else None
      ensures error.None? ==> count == |p|
    {
      if closed {
        return 0, Some(WriteAfterClose);
      }
      assert !Complete();
      hide Open, Complete;
      var rest := p;
      count := 0;
      assert p[..0] == [] && p[0..] == p;
      while |rest| > 0
        invariant Open() && !closed
        invariant count <= |p| && rest == p[count..] && plain == old(plain) + p[..count]
        decreases |rest|
      {
        var k, failed := Take(rest);
        if failed.Some? {
          Accepted();
          return count, failed;
        }
        TakeMore(old(plain), p, count, k);
        rest := rest[k..];
        count := count + k;
      }
      Accepted();
      return count, None;
    }

    lemma Accepted()
      requires Open()
      ensures |plain| <= PlainAt(UINT32)
    {
    }

    /** One round of `Write`: makes room if the buffer is full, then copies what fits. */
    method Take(rest: Bytes) returns (k: nat, error: Option<WriteError>)
      requires Open() && rest != []
      modifies this`w, this`nonce, this`n, this`buf, this`plain, this`sealed
      ensures Open()
      ensures error.None? ==> 0 < k <= |rest| && plain == old(plain) + rest[..k]
      ensures error.Some? ==> error.value == TooLarge && |plain| == PlainAt(UINT32) && plain == old(plain)
    {
      hide Nonce, Body, Seals;
      if |buf| == CHUNK_SIZE {
        ghost var i := n;
        error := Flush(false);
        if error.Some? {
          k := 0;
          return;
        }
        k := Min(CHUNK_SIZE, |rest|);
        FullChunkFlushed(aead, header, plain, rest[..k], i);
        Regroup(header, Body(aead, header, plain, i),
                Seal(aead, Nonce(header, i, false), plain[PlainAt(i)..], header).text);
      } else {
        error := None;
        k := Min(CHUNK_SIZE - |buf|, |rest|);
        LastChunkIs(plain + rest[..k], n);
        BodyStays(aead, header, plain, rest[..k], n);
      }
      buf := buf + rest[..k];
      plain := plain + rest[..k];
    }

    /** Writes the last chunk. What comes out depends on what was written, not on how it was split up. */
    method Close() returns (error: Option<WriteError>)
      requires Open() || Complete()
      modifies this
      ensures closed && plain == old(plain) && (old(Complete()) ==> Complete())
      ensures old(closed) ==> error.None? && w == old(w) && sealed == old(sealed)
      ensures !old(closed) ==> error == if LastChunk(plain) == MAX_COUNTER then Some(TooLarge) else None
      ensures !old(closed) && error.None? ==> Complete()
      ensures old(Open()) && (old(closed) || error.Some?) ==> Open()
    {
      if closed {
        return None;
      }
      closed := true;
      ghost var k := n;
      error := Flush(true);
      if error.None? {
        LastChunkFlushed(aead, header, plain, k);
        Regroup(header, Body(aead, header, plain, k), SealedChunk(aead, header, plain, k).text);
        hide Body, Seals, Nonce;
      }
    }

    /** What this writer and the writers of all other archives have sealed under the keys of one passphrase. */
    ghost predicate WithOthers(derive: Bytes -> Aead, under: Bytes -> set<Sealed>, others: map<Bytes, Written>)
      reads this
    {
      && |header| == HEADER_SIZE && derive(header) == aead
      && (forall x :: x in under(header) && x.header == header <==> x in sealed)
      && header[..8] == MAGIC && SupportedHeader(header)
      && (forall x: Bytes :: Ideal(derive(x), under(x)))
      && (forall x :: x in others && x != header ==>
            Writable(x, others[x].plain) && SealedFor(under(x), derive(x), x, others[x]))
      && (forall x: Bytes, y :: x !in others && x != header && y in under(x) ==> y.header != x)
    }

    /**
     What a completed writer has put out reads back as what it took in, whatever other archives there are,
     and every other stream with its header ends in an error after a prefix of it.
     */
    lemma ReadsBack(derive: Bytes -> Aead, under: Bytes -> set<Sealed>, others: map<Bytes, Written>, stream: Bytes)
      requires Complete() && WithOthers(derive, under, others)
      ensures ReadStream(derive, w) == Some(Outcome(plain, Eof))
      ensures |stream| >= HEADER_SIZE && stream[..HEADER_SIZE] == header && stream != w ==>
                var r := ReadStream(derive, stream); r.None? || (r.value.end != Eof && r.value.plain <= plain)
    {
      hide ReadStream, Stream, Vault, WithOthers, Genuine;
      var archives := others[header := Written(plain, true)];
      InVault(derive, under, others, true);
      DamageDetected(derive, under, archives, w);
      DamageDetected(derive, under, archives, stream);
      OwnIsGenuine(derive, archives);
      if Genuine(derive, archives, stream) {
        GenuineIsOwn(derive, archives, stream);
      }
    }

    lemma OwnIsGenuine(derive: Bytes -> Aead, archives: map<Bytes, Written>)
      requires Complete() && Writable(header, plain) && derive(header) == aead
      requires header in archives && archives[header] == Written(plain, true)
      ensures Genuine(derive, archives, w) && |w| >= HEADER_SIZE && w[..HEADER_SIZE] == header
    {
      hide Body;
      assert w == Stream(derive(header), header, archives[header].plain);
    }

    /** Its own archive among the others. */
    lemma InVault(derive: Bytes -> Aead, under: Bytes -> set<Sealed>, others: map<Bytes, Written>, done: bool)
      requires WithOthers(derive, under, others) && if done then Complete() else Open()
      ensures Writable(header, plain) && derive(header) == aead
      ensures Vault(derive, under, others[header := Written(plain, done)])
    {
      hide Ideal, Seals, Body, SupportedHeader;
      assert SealedFor(under(header), aead, header, Written(plain, done));
      hide SealedFor;
    }

    /** Before it is closed nothing with its header reads to the end, though what is released is genuine. */
    lemma UnfinishedFails(derive: Bytes -> Aead, under: Bytes -> set<Sealed>, others: map<Bytes, Written>,
                          stream: Bytes)
      requires Open() && WithOthers(derive, under, others) && |stream| >= HEADER_SIZE && stream[..HEADER_SIZE] == header
      ensures var r := ReadStream(derive, stream); r.None? || (r.value.end != Eof && r.value.plain <= plain)
    {
      hide ReadStream, Stream, Vault, WithOthers, Genuine, Open;
      var archives := others[header := Written(plain, false)];
      InVault(derive, under, others, false);
      DamageDetected(derive, under, archives, stream);
      if Genuine(derive, archives, stream) {
        GenuineIsOwn(derive, archives, stream);
      }
    }
  }

  /**
   A writer under a passphrase, with the key derived for the header it has written; an empty passphrase is refused.
   */
  method NewEncrypter(passphrase: string, derive: (string, Bytes) -> Aead, logN: byte, salt: Bytes, prefix: Bytes)
    returns (e: Encrypter?)
    requires |salt| == 16 && |prefix| == 7
    ensures e == null <==> passphrase == ""
    ensures e != null ==>
              && fresh(e) && e.Open() && !e.closed && e.plain == [] && e.w == e.header
              && e.header == Header(logN, salt, prefix) && e.aead == derive(passphrase, e.header)
  {
    if passphrase == "" {
      return null;
    }
    e := new Encrypter(derive(passphrase, Header(logN, salt, prefix)), logN, salt, prefix);
    assert e.w == e.header + [];
  }

  datatype OpenError = NotEncrypted | UnsupportedParameters | UnsupportedChunkSize | WrongPassphrase | TruncatedArchive

  /** One step of reading. */
  lemma ReadFromNext(a: Aead, h: Bytes, body: Bytes, i: nat)
    requires |h| == HEADER_SIZE && SealedAt(i) <= |body|
    ensures match Next(a, h, body, i)
            case Failed(end) => ReadFrom(a, h, body, i) == Outcome([], end)
            case Opened(plain, true) => ReadFrom(a, h, body, i) == Outcome(plain, Eof)
            case Opened(plain, false) =>
              && SealedAt(i + 1) <= |body|
              && ReadFrom(a, h, body, i).plain == plain + ReadFrom(a, h, body, i + 1).plain
              && ReadFrom(a, h, body, i).end == ReadFrom(a, h, body, i + 1).end
  {
  }

  class Decrypter {
    const aead: Aead
    const header: Bytes
    const body: Bytes      // what the underlying reader yields after the header
    var pos: nat           // how much of it has been read
    var n: nat             // the chunk counter, a uint32
    var out: Bytes         // opened and not yet handed out
    var done: bool
    var err: Option<End>
    ghost var i: nat       // chunks read
    ghost var released: Bytes

    /** What is handed out, what waits and what the rest will give is what the whole stream gives. */
    ghost predicate Valid()
      reads this
    {
      && |header| == HEADER_SIZE
      && var all := ReadFrom(aead, header, body, 0);
         if done then err.None? && all == Outcome(released + out, Eof)
         else if err.Some? then out == [] && all == Outcome(released, err.value)
         else
           && n == i % UINT32 && pos == SealedAt(i) <= |body|
           && var more := ReadFrom(aead, header, body, i);
              all == Outcome(released + out + more.plain, more.end)
    }

    constructor (aead: Aead, header: Bytes, body: Bytes)
      requires |header| == HEADER_SIZE
      ensures Valid() && released == [] && out == [] && !done && err.None?
      ensures this.aead == aead && this.header == header && this.body == body && i == 0
    {
      this.aead, this.header, this.body := aead, header, body;
      pos, n, out, done, err, i, released := 0, 0, [], false, None, 0, [];
    }

    /** Reads and opens the next chunk. */
    method NextChunk() returns (error: Option<End>)
      requires Valid() && !done && err.None? && out == []
      modifies this`pos, this`n, this`out, this`done, this`i
      ensures match Next(aead, header, body, old(i))
              case Failed(end) =>
                error == Some(end) && !done && out == [] && ReadFrom(aead, header, body, 0) == Outcome(released, end)
              case Opened(plain, last) => error.None? && done == last && out == plain && Valid() && pos > old(pos)
    {
      hide Nonce, ReadFrom;
      ReadFromNext(aead, header, body, i);
      var count := Min(SEALED_SIZE, |body| - pos);
      var text := body[pos .. pos + count];
      assert text == body[pos..][..count];
      pos := pos + count;
      var last := false;
      if count == 0 {
        return Some(Truncated);
      }
      if count < SEALED_SIZE || pos == |body| {
        last := true;
      }
      if count < OVERHEAD {
        return Some(Truncated);
      }
      var got := aead.open(Nonce(header, n, last), text, header);
      if got.None? {
        if last && aead.open(Nonce(header, n, false), text, header).Some? {
          return Some(Truncated);
        }
        return Some(AuthFailed);
      }
      out := got.value;
      n := (n + 1) % UINT32;
      done := last;
      i := i + 1;
      return None;
    }

    /**
     Hands out up to `max` bytes. In whatever sizes the reads come, what has been handed out
     is a prefix of what the stream gives, all of it once the reader reports an end.
     */
    method Read(max: nat) returns (data: Bytes, end: Option<End>)
      requires Valid()
      modifies this
      ensures Valid() && released == old(released) + data && |data| <= max
      ensures released <= ReadFrom(aead, header, body, 0).plain
      ensures end.Some? ==> data == [] && Outcome(released, end.value) == ReadFrom(aead, header, body, 0)
      ensures end.None? && max > 0 ==> data != []
    {
      hide Next, ReadFrom;
      while out == []
        invariant Valid() && released == old(released)
        decreases if done || err.Some? then 0 else 1 + |body| - pos
      {
        if err.Some? {
          return [], err;
        }
        if done {
          return [], Some(Eof);
        }
        var failed := NextChunk();
        if failed.Some? {
          err := failed;
          return [], failed;
        }
      }
      var count := Min(max, |out|);
      data, end := out[..count], None;
      assert out == data + out[count..];
      Regroup(released, data, out[count..]);
      out := out[count..];
      released := released + data;
    }
  }

  /** Checks the header before deriving the key, then opens the first chunk. */
  method NewDecrypter(stream: Bytes, derive: Bytes -> Aead) returns (d: Decrypter?, error: Option<OpenError>)
    ensures error.None? <==> d != null
    ensures error == Some(NotEncrypted) <==> !Marked(stream)
    ensures error == Some(UnsupportedParameters) <==> Marked(stream) && !SupportedParameters(stream[..HEADER_SIZE])
    ensures error == Some(UnsupportedChunkSize) <==>
              Marked(stream) && SupportedParameters(stream[..HEADER_SIZE]) && !SupportedHeader(stream[..HEADER_SIZE])
    ensures Marked(stream) && SupportedHeader(stream[..HEADER_SIZE]) ==>
              var h := stream[..HEADER_SIZE];
              match Next(derive(h), h, stream[HEADER_SIZE..], 0)
              case Failed(end) => error == Some(if end == AuthFailed then WrongPassphrase else TruncatedArchive)
              case Opened(_, _) => error.None?
    ensures d != null ==>
              && fresh(d) && d.Valid() && d.released == []
              && stream == d.header + d.body && d.aead == derive(d.header)
              && ReadStream(derive, stream) == Some(ReadFrom(d.aead, d.header, d.body, 0))
    ensures d == null ==> var r := ReadStream(derive, stream); r.None? || (r.value.plain == [] && r.value.end != Eof)
  {
    if |stream| < HEADER_SIZE || stream[..8] != MAGIC {
      return null, Some(NotEncrypted);
    }
    var h: Bytes, body: Bytes := stream[..HEADER_SIZE], stream[HEADER_SIZE..];
    if h[8] != 1 || h[9] == 0 || h[9] > MAX_LOG_N || h[10] != SCRYPT_R || h[11] != SCRYPT_P {
      return null, Some(UnsupportedParameters);
    }
    if FromU32(h[35..39]) != CHUNK_SIZE {
      return null, Some(UnsupportedChunkSize);
    }
    ReadFromNext(derive(h), h, body, 0);
    d := new Decrypter(derive(h), h, body);
    var failed := d.NextChunk();
    if failed.Some? {
      return null, Some(if failed.value == AuthFailed then WrongPassphrase else TruncatedArchive);
    }
    return d, None;
  }
}
