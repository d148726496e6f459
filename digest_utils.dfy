/**
 * Hash utilities of the downloader: recognising the shape of an expected
 * checksum (MD5 or SHA-256 hex text), feeding a stream to a message digest
 * in fixed-size chunks, and printing a digest as lower-case hex.
 *
 * MD5 (RFC 1321, section 3) and SHA-256 (FIPS 180-4, section 6.2) are not
 * modelled: a digest algorithm is a function value (`Hasher`), and the only
 * property assumed of it is the length of what it produces.
 */
module DigestUtils {
  import opened Wrappers

  /** A Java `byte`: a signed 8-bit value. */
  type JByte = b: int | -128 <= b < 128

  /** A message digest algorithm, from the whole input to the digest bytes. */
  type Hasher = seq<JByte> -> seq<JByte>

  /** Length of an MD5 checksum in hex digits (the `{32}` of MD5_PATTERN). */
  const MD5_HASH_LENGTH: nat := 32
  /** Length of a SHA-256 checksum in hex digits (the `{64}` of SHA256_PATTERN). */
  const SHA256_HASH_LENGTH: nat := 64
  /** Size of the read buffer used while hashing a stream. */
  const STREAM_BUFFER_LENGTH: nat := 1024

  /** An algorithm whose digests are always `n` bytes long. */
  ghost predicate ProducesLength(algorithm: Hasher, n: nat) {
    forall m :: |algorithm(m)| == n
  }

  // ---------------------------------------------------------------------
  // Checksum shapes: the regular expressions [A-Fa-f0-9]{32} and {64}
  // ---------------------------------------------------------------------

  /** The character class `[A-Fa-f0-9]`. */
  predicate IsHexDigit(c: char) {
    '0' <= c <= '9' || 'a' <= c <= 'f' || 'A' <= c <= 'F'
  }

  predicate IsLowerHexDigit(c: char) {
    '0' <= c <= '9' || 'a' <= c <= 'f'
  }

  /**
   * Whole-string match of `[A-Fa-f0-9]{n}`: the matcher consumes one
   * character of the class per repetition and must end with the input.
   */
  function MatchesHexRun(s: string, n: nat): (r: bool)
    ensures r <==> |s| == n && forall i :: 0 <= i < |s| ==> IsHexDigit(s[i])
  {
    if s == [] then n == 0
    else n > 0 && IsHexDigit(s[0]) && MatchesHexRun(s[1..], n - 1)
  }

  /** isMd5Hash: exactly 32 hex digits, in either case. */
  function IsMd5Hash(hash: string): (r: bool)
    ensures r <==> |hash| == 32 && forall i :: 0 <= i < |hash| ==> IsHexDigit(hash[i])
  {
    MatchesHexRun(hash, MD5_HASH_LENGTH)
  }

  /** isSha256Hash: exactly 64 hex digits, in either case. */
  function IsSha256Hash(hash: string): (r: bool)
    ensures r <==> |hash| == 64 && forall i :: 0 <= i < |hash| ==> IsHexDigit(hash[i])
  {
    MatchesHexRun(hash, SHA256_HASH_LENGTH)
  }

  /** The two shapes never overlap, so choosing an algorithm by shape is unambiguous. */
  lemma ChecksumShapesDisjoint(hash: string)
    ensures !(IsMd5Hash(hash) && IsSha256Hash(hash))
  {
  }

  // ---------------------------------------------------------------------
  // Hex text of a digest
  // ---------------------------------------------------------------------

  /** `0xff & b`: the bits of a Java byte read as an unsigned value. */
  function Unsigned(b: JByte): (u: nat)
    ensures u < 256
    ensures u % 256 == b % 256
  {
    if b < 0 then b + 256 else b
  }

  /** The Java byte whose bits are the unsigned value `u` (inverse of Unsigned). */
  function Signed(u: nat): (b: JByte)
    requires u < 256
    ensures Unsigned(b) == u
  {
    if u < 128 then u else u - 256
  }

  /** The value of a hex digit of either case; 0 for any other character. */
  function HexValue(c: char): (v: nat)
    ensures v < 16
  {
    if '0' <= c <= '9' then c as int - '0' as int
    else if 'a' <= c <= 'f' then c as int - 'a' as int + 10
    else if 'A' <= c <= 'F' then c as int - 'A' as int + 10
    else 0
  }

  /** The lower-case digit Integer.toHexString uses for a value below 16. */
  function HexDigit(v: nat): (c: char)
    requires v < 16
    ensures IsLowerHexDigit(c) && HexValue(c) == v
  {
    if v < 10 then ('0' as int + v) as char else ('a' as int + v - 10) as char
  }

  /** Integer.toHexString on a value in 0..255: lower-case, no leading zero. */
  function ToHexString(u: nat): (s: string)
    requires u < 256
    ensures |s| == (if u < 0x10 then 1 else 2)
    ensures forall k :: 0 <= k < |s| ==> IsLowerHexDigit(s[k])
    ensures (if u < 0x10 then HexValue(s[0]) else HexValue(s[0]) * 16 + HexValue(s[1])) == u
  {
    if u < 0x10 then [HexDigit(u)] else [HexDigit(u / 16), HexDigit(u % 16)]
  }

  /**
   * What digestToString appends for one byte: a '0' when the unsigned
   * value is below 0x10, then Integer.toHexString of that value. The result
   * is always two lower-case digits that read back as the unsigned byte.
   */
  function ByteToHex(b: JByte): (s: string)
    ensures |s| == 2 && IsLowerHexDigit(s[0]) && IsLowerHexDigit(s[1])
    ensures HexValue(s[0]) * 16 + HexValue(s[1]) == Unsigned(b)
  {
    var u := Unsigned(b);
    (if u < 0x10 then "0" else "") + ToHexString(u)
  }

  /** The text digestToString builds: ByteToHex of every byte, in order. */
  function HexString(d: seq<JByte>): string
  {
    if d == [] then "" else HexString(d[..|d| - 1]) + ByteToHex(d[|d| - 1])
  }

  /** Two characters per byte. */
  lemma {:induction false} HexStringLength(d: seq<JByte>)
    ensures |HexString(d)| == 2 * |d|
  {
    if d != [] {
      HexStringLength(d[..|d| - 1]);
    }
  }

  /** Byte i of the digest is printed at characters 2i and 2i+1. */
  lemma {:induction false} HexStringAt(d: seq<JByte>)
    ensures |HexString(d)| == 2 * |d|
    ensures forall i :: 0 <= i < |d| ==> HexString(d)[2 * i .. 2 * i + 2] == ByteToHex(d[i])
  {
    if d != [] {
      var init := d[..|d| - 1];
      HexStringAt(init);
      var s := HexString(d);
      assert s == HexString(init) + ByteToHex(d[|d| - 1]);
      forall i | 0 <= i < |d|
        ensures s[2 * i .. 2 * i + 2] == ByteToHex(d[i])
      {
        if i < |d| - 1 {
          assert s[2 * i .. 2 * i + 2] == HexString(init)[2 * i .. 2 * i + 2];
          assert init[i] == d[i];
        } else {
          assert s[2 * i .. 2 * i + 2] == s[|HexString(init)|..];
        }
      }
    }
  }

  /** Every character of the hex text is a lower-case hex digit. */
  lemma {:induction false} HexStringLowerCase(d: seq<JByte>)
    ensures forall k :: 0 <= k < |HexString(d)| ==> IsLowerHexDigit(HexString(d)[k])
  {
    if d != [] {
      var init := d[..|d| - 1];
      HexStringLowerCase(init);
      var s, h, t := HexString(d), HexString(init), ByteToHex(d[|d| - 1]);
      assert s == h + t;
      forall k | 0 <= k < |s|
        ensures IsLowerHexDigit(s[k])
      {
        if k < |h| {
          assert s[k] == h[k];
        } else {
          assert s[k] == t[k - |h|];
        }
      }
    }
  }

  /** A 16-byte digest prints as an MD5 checksum, a 32-byte one as a SHA-256 checksum. */
  lemma HexStringShapes(d: seq<JByte>)
    ensures |d| == 16 ==> IsMd5Hash(HexString(d))
    ensures |d| == 32 ==> IsSha256Hash(HexString(d))
  {
    HexStringAt(d);
    HexStringLowerCase(d);
  }

  /** Signed undoes Unsigned. */
  lemma SignedOfUnsigned(b: JByte)
    ensures Signed(Unsigned(b)) == b
  {
  }

  /** Reads hex text back as bytes, two digits per byte; the inverse of HexString. */
  function DecodeHex(s: string): seq<JByte>
  {
    if |s| < 2 then []
    else DecodeHex(s[..|s| - 2]) + [Signed(HexValue(s[|s| - 2]) * 16 + HexValue(s[|s| - 1]))]
  }

  /** Decoding text with two more digits appends the byte they spell. */
  lemma DecodeHexSnoc(h: string, t: string)
    requires |t| == 2
    ensures DecodeHex(h + t) == DecodeHex(h) + [Signed(HexValue(t[0]) * 16 + HexValue(t[1]))]
  {
    var s := h + t;
    assert s[..|s| - 2] == h;
  }

  /** Round trip: decoding the printed digest gives back every byte. */
  lemma {:induction false} HexRoundTrip(d: seq<JByte>)
    ensures DecodeHex(HexString(d)) == d
  {
    if d != [] {
      var init, last := d[..|d| - 1], d[|d| - 1];
      HexRoundTrip(init);
      var h, t := HexString(init), ByteToHex(last);
      assert HexString(d) == h + t;
      DecodeHexSnoc(h, t);
      SignedOfUnsigned(last);
      assert DecodeHex(HexString(d)) == init + [last];
      assert d == init + [last];
    }
  }

  /**
   * digestToString: appends, for every byte, a '0' when its unsigned value
   * is below 0x10 and then Integer.toHexString of that value.
   */
  method DigestToString(digest: seq<JByte>) returns (s: string)
    ensures s == HexString(digest)
  {
    s := "";
    for i := 0 to |digest|
      invariant s == HexString(digest[..i])
    {
      var u := Unsigned(digest[i]);
      if u < 0x10 {
        s := s + "0";
      }
      s := s + ToHexString(u);
      assert digest[..i + 1][..i] == digest[..i];
    }
    assert digest[..|digest|] == digest;
  }

  // ---------------------------------------------------------------------
  // Streams and message digests
  // ---------------------------------------------------------------------

  /**
   * An input stream over the bytes of a file or of an array. A read may
   * deliver fewer bytes than asked for; a file stream may also throw an
   * IOException, which `mayFail` allows.
   */
  class InputStream {
    const data: seq<JByte>
    const mayFail: bool
    var pos: nat

    ghost predicate Valid()
      reads this
    {
      pos <= |data|
    }

    constructor (data: seq<JByte>, mayFail: bool)
      ensures Valid() && this.data == data && this.mayFail == mayFail && pos == 0
    {
      this.data := data;
      this.mayFail := mayFail;
      pos := 0;
    }

    /**
     * read(b, off, len) with len > 0: -1 at the end of the stream, otherwise
     * between 1 and len of the next bytes, copied to b[off..]. `failed`
     * stands for a thrown IOException (reported, like the end, as -1).
     */
    method Read(b: array<JByte>, off: nat, len: nat) returns (n: int, failed: bool)
      requires Valid() && 0 < len && off + len <= b.Length
      modifies this, b
      ensures Valid()
      ensures failed ==> mayFail && pos == old(pos) && n == -1
      ensures !failed && old(pos) == |data| ==> n == -1 && pos == old(pos)
      ensures !failed && old(pos) < |data| ==>
        1 <= n <= len && pos == old(pos) + n && b[off .. off + n] == data[old(pos) .. pos]
    {
      failed := false;
      if mayFail {
        failed :| true;
      }
      if failed || pos == |data| {
        n := -1;
        return;
      }
      n :| 1 <= n <= len && n <= |data| - pos;
      forall k | 0 <= k < n {
        b[off + k] := data[pos + k];
      }
      pos := pos + n;
    }
  }

  /** A MessageDigest: the bytes fed since the last reset, and the algorithm. */
  class MessageDigest {
    const algorithm: Hasher
    var input: seq<JByte>
    /** Length of every update, in order. */
    ghost var updates: seq<nat>

    constructor (algorithm: Hasher)
      ensures this.algorithm == algorithm && input == [] && updates == []
    {
      this.algorithm := algorithm;
      input := [];
      updates := [];
    }

    /** update(b, off, len): feeds b[off .. off + len]. */
    method Update(b: array<JByte>, off: nat, len: nat)
      requires off + len <= b.Length
      modifies this
      ensures input == old(input) + b[off .. off + len]
      ensures updates == old(updates) + [len]
    {
      input := input + b[off .. off + len];
      updates := updates + [len];
    }

    /** digest(): the digest of everything fed; the object is reset. */
    method Digest() returns (d: seq<JByte>)
      modifies this
      ensures d == algorithm(old(input)) && input == [] && updates == old(updates)
    {
      d := algorithm(input);
      input := [];
    }
  }

  /** Every update after the first `from` fed between 1 and STREAM_BUFFER_LENGTH bytes. */
  ghost predicate ChunkedFrom(updates: seq<nat>, from: nat) {
    from <= |updates| &&
    forall k :: from <= k < |updates| ==> 1 <= updates[k] <= STREAM_BUFFER_LENGTH
  }

  /**
   * updateDigest: reads the stream into a 1024-byte buffer and feeds each
   * chunk read, until read returns -1. `ioError` stands for the IOException
   * it lets through; up to then the bytes read were fed in order.
   */
  method UpdateDigest(md: MessageDigest, stream: InputStream) returns (ioError: bool)
    requires stream.Valid()
    modifies md, stream
    ensures stream.Valid() && old(stream.pos) <= stream.pos
    ensures md.input == old(md.input) + stream.data[old(stream.pos) .. stream.pos]
    ensures ChunkedFrom(md.updates, |old(md.updates)|)
    ensures ioError ==> stream.mayFail
    ensures !ioError ==> stream.pos == |stream.data|
  {
    var buffer := new JByte[STREAM_BUFFER_LENGTH];
    ghost var start, fedBefore := stream.pos, md.input;
    var read, failed := stream.Read(buffer, 0, STREAM_BUFFER_LENGTH);
    ghost var fedTo := start;
    // a thrown IOException is a read of -1 with `failed` set: it ends the loop too
    while read > -1
      invariant stream.Valid() && start <= fedTo <= stream.pos
      invariant md.input == fedBefore + stream.data[start .. fedTo]
      invariant read == -1 || read > -1
      invariant read == -1 ==> fedTo == stream.pos
      invariant read == -1 && !failed ==> stream.pos == |stream.data|
      invariant failed ==> read == -1 && stream.mayFail
      invariant read > -1 ==>
        && 1 <= read <= STREAM_BUFFER_LENGTH
        && fedTo + read == stream.pos
        && buffer[0 .. read] == stream.data[fedTo .. stream.pos]
      invariant ChunkedFrom(md.updates, |old(md.updates)|)
      decreases |stream.data| - fedTo
    {
      md.Update(buffer, 0, read);
      SliceConcat(stream.data, start, fedTo, stream.pos);
      fedTo := stream.pos;
      read, failed := stream.Read(buffer, 0, STREAM_BUFFER_LENGTH);
    }
    return failed;
  }

  /** Adjacent slices join. */
  lemma SliceConcat<T>(s: seq<T>, i: nat, j: nat, k: nat)
    requires i <= j <= k <= |s|
    ensures s[i .. j] + s[j .. k] == s[i .. k]
  {
  }

  /** The hex text of the digest of `data`. */
  function HashHex(algorithm: Hasher, data: seq<JByte>): string {
    HexString(algorithm(data))
  }

  /**
   * makeHash: digests the rest of the stream and prints it as hex, or
   * returns null (None) when reading throws. (Looking up the algorithm by
   * name cannot fail for MD5 and SHA-256, which every Java platform has.)
   */
  method MakeHash(algorithm: Hasher, stream: InputStream) returns (r: Option<string>)
    requires stream.Valid()
    modifies stream
    ensures stream.Valid()
    ensures r.Some? ==> r.value == HashHex(algorithm, stream.data[old(stream.pos)..])
    ensures !stream.mayFail ==> r.Some?
  {
    var md := new MessageDigest(algorithm);
    var ioError := UpdateDigest(md, stream);
    if ioError {
      return None;
    }
    assert stream.data[old(stream.pos) .. stream.pos] == stream.data[old(stream.pos)..];
    assert md.input == stream.data[old(stream.pos)..];
    var d := md.Digest();
    assert d == algorithm(stream.data[old(stream.pos)..]);
    var s := DigestToString(d);
    return Some(s);
  }

  /**
   * makeMd5Hash / makeSha256Hash on a file stream: makeHash over a buffered
   * wrapper of the stream; an IOException from closing the wrapper also
   * yields null.
   */
  method MakeHashOfFile(algorithm: Hasher, stream: InputStream, closeFails: bool) returns (r: Option<string>)
    requires stream.Valid()
    modifies stream
    ensures stream.Valid()
    ensures closeFails ==> r == None
    ensures r.Some? ==> r.value == HashHex(algorithm, stream.data[old(stream.pos)..])
    ensures !closeFails && !stream.mayFail ==> r.Some?
  {
    r := MakeHash(algorithm, stream);
    if closeFails {
      r := None;
    }
  }

  /**
   * makeMd5Hash / makeSha256Hash on a byte array: a ByteArrayInputStream
   * never throws, so the result is always the hex digest of the bytes.
   */
  method MakeHashOfBytes(algorithm: Hasher, bytes: seq<JByte>) returns (r: Option<string>)
    ensures r == Some(HashHex(algorithm, bytes))
  {
    var stream := new InputStream(bytes, false);
    r := MakeHash(algorithm, stream);
    assert bytes[0..] == bytes;
  }
}
