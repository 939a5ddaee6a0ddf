/** SHA-1 as FIPS 180-1 defines it (sections 4 to 7), and the loops of core/onvif_wsse.c that compute
it in place over a 128-byte buffer. */
module Sha1 {
  import opened CText

  // ----- FIPS 180-1 -----

  type Word = bv32

  /** Section 3: the circular left shift. */
  function Rol(v: Word, b: nat): Word
    requires 0 < b < 32
  {
    (v << b) | (v >> (32 - b))
  }

  function Ch(b: Word, c: Word, d: Word): Word {
    (b & c) | (!b & d)
  }

  function Parity(b: Word, c: Word, d: Word): Word {
    b ^ c ^ d
  }

  function Maj(b: Word, c: Word, d: Word): Word {
    (b & c) | (b & d) | (c & d)
  }

  /** Section 5: the functions. */
  function F(t: nat, b: Word, c: Word, d: Word): Word {
    if t < 20 then Ch(b, c, d)
    else if t < 40 then Parity(b, c, d)
    else if t < 60 then Maj(b, c, d)
    else Parity(b, c, d)
  }

  /** Section 6: the constants. */
  function K(t: nat): Word {
    if t < 20 then 0x5A827999
    else if t < 40 then 0x6ED9EBA1
    else if t < 60 then 0x8F1BBCDC
    else 0xCA62C1D6
  }

  /** Section 2: a word from four bytes, most significant first. */
  function WordAt(block: seq<Byte>, i: nat): Word
    requires 4 * i + 4 <= |block|
  {
    FourBytes(block[4 * i], block[4 * i + 1], block[4 * i + 2], block[4 * i + 3])
  }

  function FourBytes(b0: Byte, b1: Byte, b2: Byte, b3: Byte): Word {
    (b0 as Word << 24) | (b1 as Word << 16) | (b2 as Word << 8) | b3 as Word
  }

  /** Section 7, steps a and b: the first `n` words of the message schedule. */
  function Schedule(block: seq<Byte>, n: nat): (w: seq<Word>)
    requires |block| == 64
    ensures |w| == n
  {
    if n == 0 then []
    else
      var w := Schedule(block, n - 1);
      var t := n - 1;
      w + [if t < 16 then WordAt(block, t) else Mix(w[t - 3], w[t - 8], w[t - 14], w[t - 16])]
  }

  function Mix(w3: Word, w8: Word, w14: Word, w16: Word): Word {
    Rol(w3 ^ w8 ^ w14 ^ w16, 1)
  }

  datatype State = State(a: Word, b: Word, c: Word, d: Word, e: Word)

  const H0 := State(0x67452301, 0xEFCDAB89, 0x98BADCFE, 0x10325476, 0xC3D2E1F0)

  /** Section 7, step d. */
  function Round(s: State, t: nat, w: Word): State {
    State(Temp(s.a, F(t, s.b, s.c, s.d), s.e, K(t), w), s.a, Rol(s.b, 30), s.c, s.d)
  }

  function Temp(a: Word, f: Word, e: Word, k: Word, w: Word): Word {
    Rol(a, 5) + f + e + k + w
  }

  function Rounds(s: State, block: seq<Byte>, t: nat): State
    requires |block| == 64
  {
    if t == 0 then s else Round(Rounds(s, block, t - 1), t - 1, Schedule(block, t)[t - 1])
  }

  /** Addition modulo 2^32. */
  function Add(x: Word, y: Word): Word {
    x + y
  }

  /** Section 7, step e. */
  function Added(h: State, s: State): State {
    State(Add(h.a, s.a), Add(h.b, s.b), Add(h.c, s.c), Add(h.d, s.d), Add(h.e, s.e))
  }

  function Compress(h: State, block: seq<Byte>): State
    requires |block| == 64
  {
    Added(h, Rounds(h, block, 80))
  }

  /** The chaining value after the first `n` blocks. */
  function Chained(padded: seq<Byte>, n: nat): State
    requires 64 * n <= |padded|
  {
    if n == 0 then H0 else Compress(Chained(padded, n - 1), padded[64 * (n - 1)..64 * n])
  }

  /** `n >> 8 * i` as a byte. */
  function ByteAt(n: nat, i: nat): Byte {
    if i == 0 then n % 256 else ByteAt(n / 256, i - 1)
  }

  /** A number in eight bytes, most significant first. */
  function BigEndian8(n: nat): seq<Byte> {
    [ByteAt(n, 7), ByteAt(n, 6), ByteAt(n, 5), ByteAt(n, 4), ByteAt(n, 3), ByteAt(n, 2), ByteAt(n, 1), ByteAt(n, 0)]
  }

  function ZeroBytes(n: nat): seq<Byte> {
    seq(n, _ => 0)
  }

  /** How many zero bytes section 4 puts between the 1 bit and the length. */
  function Gap(len: nat): nat {
    (119 - len % 64) % 64
  }

  /** Section 4: padding. */
  function Padded(m: seq<Byte>): seq<Byte> {
    m + [0x80] + ZeroBytes(Gap(|m|)) + BigEndian8(8 * |m|)
  }

  function LowByte(w: Word): Byte {
    (w & 0xFF) as bv8 as Byte
  }

  function WordBytes(w: Word): seq<Byte> {
    [LowByte(w >> 24), LowByte(w >> 16), LowByte(w >> 8), LowByte(w)]
  }

  function DigestBytes(s: State): (d: seq<Byte>)
    ensures |d| == 20
  {
    WordBytes(s.a) + WordBytes(s.b) + WordBytes(s.c) + WordBytes(s.d) + WordBytes(s.e)
  }

  function Digest(m: seq<Byte>): (d: seq<Byte>)
    ensures |d| == 20
  {
    DigestBytes(Chained(Padded(m), |Padded(m)| / 64))
  }

  // ----- the code -----

  /** What `onvif_sha1` returns: past 119 bytes its 128-byte buffer is too small, it skips the whole
      computation and returns the initial chaining value. */
  function CodeDigest(m: seq<Byte>): (d: seq<Byte>)
    ensures |d| == 20
  {
    if |m| <= 119 then Digest(m) else DigestBytes(H0)
  }

  function PaddedSize(len: nat): nat {
    ((len + 8) / 64 + 1) * 64
  }

  /** The padded size is the least multiple of 64 with room for the data, the 0x80 byte and the
      length, so the length field starts after the 0x80 byte; and it is what section 4 pads to. */
  lemma PaddedSizeIsLeast(m: seq<Byte>)
    ensures PaddedSize(|m|) == |Padded(m)|
    ensures PaddedSize(|m|) % 64 == 0 && |m| + 1 <= PaddedSize(|m|) - 8
    ensures forall n :: n % 64 == 0 && |m| + 9 <= n ==> PaddedSize(|m|) <= n
    ensures PaddedSize(|m|) <= 128 <==> |m| <= 119
  {
    GapFills(|m|);
    SizeLimits(|m|);
    forall n | n % 64 == 0 && |m| + 9 <= n
      ensures PaddedSize(|m|) <= n
    {
      SizeIsLeast(|m|, n / 64);
    }
  }

  lemma GapFills(len: nat)
    ensures len + 1 + Gap(len) + 8 == PaddedSize(len)
  {
    var q, r := len / 64, len % 64;
    if r < 56 {
      assert (len + 8) / 64 == q && Gap(len) == 55 - r;
    } else {
      assert (len + 8) / 64 == q + 1 && Gap(len) == 119 - r;
    }
  }

  lemma SizeLimits(len: nat)
    ensures PaddedSize(len) % 64 == 0 && (PaddedSize(len) <= 128 <==> len <= 119)
  {
  }

  lemma SizeIsLeast(len: nat, q: int)
    requires len + 9 <= 64 * q
    ensures PaddedSize(len) <= 64 * q
  {
  }

  /** `memset`, `memcpy` and the 0x80 byte, for at most 119 bytes of data. */
  method CopyInto(buf: array<Byte>, data: seq<Byte>, padded: nat)
    requires |data| + 9 <= padded <= buf.Length
    modifies buf
    ensures buf[..padded - 8] == data + [0x80] + ZeroBytes(padded - 9 - |data|)
  {
    var len := |data|;
    forall i | 0 <= i < padded {
      buf[i] := 0;
    }
    forall i | 0 <= i < len {
      buf[i] := data[i];
    }
    buf[len] := 0x80;
  }

  /** The loop that writes the length, last byte first. */
  method WriteLength(buf: array<Byte>, padded: nat, bits: nat)
    requires 8 <= padded <= buf.Length
    modifies buf
    ensures buf[..padded] == old(buf[..padded - 8]) + BigEndian8(bits)
  {
    for i := 0 to 8
      invariant forall k :: 0 <= k < padded - 8 ==> buf[k] == old(buf[k])
      invariant forall k :: 0 <= k < i ==> buf[padded - 1 - k] == ByteAt(bits, k)
    {
      buf[padded - 1 - i] := ByteAt(bits, i);
    }
    forall k | 0 <= k < 8
      ensures buf[padded - 8 + k] == BigEndian8(bits)[k]
    {
      assert buf[padded - 1 - (7 - k)] == ByteAt(bits, 7 - k);
    }
  }

  method PadInto(buf: array<Byte>, data: seq<Byte>, padded: nat)
    requires buf.Length == 128 && |data| <= 119 && padded == PaddedSize(|data|)
    modifies buf
    ensures padded <= 128 && buf[..padded] == Padded(data)
  {
    PaddedSizeIsLeast(data);
    CopyInto(buf, data, padded);
    WriteLength(buf, padded, 8 * |data|);
  }

  lemma ScheduleNext(block: seq<Byte>, i: nat)
    requires |block| == 64 && i < 16
    ensures Schedule(block, i + 1) == Schedule(block, i) + [WordAt(block, i)]
  {
  }

  /** The loop that reads the sixteen words of a block. */
  method ReadWords(block: seq<Byte>, w: array<Word>)
    requires |block| == 64 && w.Length == 80
    modifies w
    ensures w[..16] == Schedule(block, 16)
  {
    for i := 0 to 16
      invariant w[..i] == Schedule(block, i)
    {
      ScheduleNext(block, i);
      w[i] := FourBytes(block[4 * i], block[4 * i + 1], block[4 * i + 2], block[4 * i + 3]);
    }
  }

  /** The loop that extends them to eighty. */
  method ExtendWords(block: seq<Byte>, w: array<Word>)
    requires |block| == 64 && w.Length == 80
    requires w[..16] == Schedule(block, 16)
    modifies w
    ensures w[..] == Schedule(block, 80)
  {
    for i := 16 to 80
      invariant w[..i] == Schedule(block, i)
    {
      w[i] := Mix(w[i - 3], w[i - 8], w[i - 14], w[i - 16]);
    }
    assert w[..80] == w[..];
  }

  /** A shorter schedule is the start of a longer one. */
  lemma {:induction false} ScheduleGrows(block: seq<Byte>, n: nat, m: nat)
    requires |block| == 64 && n <= m
    ensures Schedule(block, m)[..n] == Schedule(block, n)
  {
    if n < m {
      ScheduleGrows(block, n, m - 1);
      OneWordMore(block, m - 1);
      PrefixOfPrefix(Schedule(block, m), Schedule(block, m - 1), n);
    } else {
      assert Schedule(block, m)[..n] == Schedule(block, n);
    }
  }

  lemma PrefixOfPrefix(s: seq<Word>, t: seq<Word>, n: nat)
    requires n <= |t| <= |s| && s[..|t|] == t
    ensures s[..n] == t[..n]
  {
  }

  lemma OneWordMore(block: seq<Byte>, m: nat)
    requires |block| == 64
    ensures Schedule(block, m + 1)[..m] == Schedule(block, m)
  {
  }

  /** The chaining value in the array `h`. */
  ghost predicate Holds(h: array<Word>, s: State)
    reads h
  {
    h.Length == 5 && h[0] == s.a && h[1] == s.b && h[2] == s.c && h[3] == s.d && h[4] == s.e
  }

  /** The function and constant of round `i`. */
  method Choose(i: nat, b: Word, c: Word, d: Word) returns (f: Word, k: Word)
    ensures f == F(i, b, c, d) && k == K(i)
  {
    if i < 20 {
      f := Ch(b, c, d);
      k := 0x5A827999;
    } else if i < 40 {
      f := Parity(b, c, d);
      k := 0x6ED9EBA1;
    } else if i < 60 {
      f := Maj(b, c, d);
      k := 0x8F1BBCDC;
    } else {
      f := Parity(b, c, d);
      k := 0xCA62C1D6;
    }
  }

  /** The eighty rounds. */
  method RunRounds(w: array<Word>, block: seq<Byte>, s: State) returns (r: State)
    requires |block| == 64 && w.Length == 80
    requires w[..] == Schedule(block, 80)
    ensures r == Rounds(s, block, 80)
  {
    var a, b, c, d, e := s.a, s.b, s.c, s.d, s.e;
    for i := 0 to 80
      invariant State(a, b, c, d, e) == Rounds(s, block, i)
    {
      ScheduleGrows(block, i + 1, 80);
      assert w[i] == Schedule(block, i + 1)[i];
      var f, k := Choose(i, b, c, d);
      var t := Temp(a, f, e, k, w[i]);
      e := d;
      d := c;
      c := Rol(b, 30);
      b := a;
      a := t;
    }
    r := State(a, b, c, d, e);
  }

  method AddInto(h: array<Word>, r: State, ghost s: State)
    requires Holds(h, s)
    modifies h
    ensures Holds(h, Added(s, r))
  {
    h[0] := Add(h[0], r.a);
    h[1] := Add(h[1], r.b);
    h[2] := Add(h[2], r.c);
    h[3] := Add(h[3], r.d);
    h[4] := Add(h[4], r.e);
  }

  /** One turn of the block loop. */
  method CompressInto(h: array<Word>, block: seq<Byte>, ghost s: State)
    requires |block| == 64 && Holds(h, s)
    modifies h
    ensures Holds(h, Compress(s, block))
  {
    var w := new Word[80];
    ReadWords(block, w);
    ExtendWords(block, w);
    var r := RunRounds(w, block, State(h[0], h[1], h[2], h[3], h[4]));
    AddInto(h, r, s);
  }

  method WriteWord(w: Word, digest: array<Byte>, at: nat)
    requires at + 4 <= digest.Length
    modifies digest
    ensures digest[..at + 4] == old(digest[..at]) + WordBytes(w)
  {
    digest[at] := LowByte(w >> 24);
    digest[at + 1] := LowByte(w >> 16);
    digest[at + 2] := LowByte(w >> 8);
    digest[at + 3] := LowByte(w);
  }

  function WordOf(s: State, i: nat): Word {
    if i == 0 then s.a else if i == 1 then s.b else if i == 2 then s.c else if i == 3 then s.d else s.e
  }

  function WordsBytes(s: State, n: nat): (b: seq<Byte>)
    ensures |b| == 4 * n
  {
    if n == 0 then [] else WordsBytes(s, n - 1) + WordBytes(WordOf(s, n - 1))
  }

  lemma FiveWords(s: State)
    ensures WordsBytes(s, 5) == DigestBytes(s)
  {
    assert WordsBytes(s, 1) == WordBytes(s.a);
    assert WordsBytes(s, 2) == WordBytes(s.a) + WordBytes(s.b);
    assert WordsBytes(s, 3) == WordsBytes(s, 2) + WordBytes(s.c);
    assert WordsBytes(s, 4) == WordsBytes(s, 3) + WordBytes(s.d);
  }

  lemma HeldWord(h: array<Word>, s: State, i: nat)
    requires Holds(h, s) && i < 5
    ensures h[i] == WordOf(s, i)
  {
  }

  /** The digest is the five words, most significant byte first. */
  method WriteDigest(h: array<Word>, digest: array<Byte>, ghost s: State)
    requires Holds(h, s) && digest.Length == 20
    modifies digest
    ensures digest[..] == DigestBytes(s)
  {
    for i := 0 to 5
      invariant Holds(h, s)
      invariant digest[..4 * i] == WordsBytes(s, i)
    {
      HeldWord(h, s, i);
      WriteWord(h[i], digest, 4 * i);
    }
    FiveWords(s);
    assert digest[..20] == digest[..];
  }

  lemma BlockOf(buf: seq<Byte>, padded: nat, off: nat, text: seq<Byte>)
    requires off + 64 <= padded <= |buf| && buf[..padded] == text
    ensures buf[off..off + 64] == text[off..off + 64]
  {
  }

  lemma ChainStep(text: seq<Byte>, n: nat, block: seq<Byte>)
    requires 64 * (n + 1) <= |text| && block == text[64 * n..64 * (n + 1)]
    ensures Chained(text, n + 1) == Compress(Chained(text, n), block)
  {
  }

  /** The block loop. */
  method ProcessBlocks(h: array<Word>, buf: array<Byte>, padded: nat, ghost text: seq<Byte>)
    requires Holds(h, H0) && padded <= buf.Length && padded % 64 == 0 && buf[..padded] == text
    modifies h
    ensures Holds(h, Chained(text, |text| / 64))
  {
    var off := 0;
    ghost var n, blocks := 0, padded / 64;
    assert padded == 64 * blocks;
    while off < padded
      invariant off == 64 * n && n <= blocks && padded == 64 * blocks && buf[..padded] == text
      invariant Holds(h, Chained(text, n))
    {
      var block := buf[off..off + 64];
      BlockOf(buf[..], padded, off, text);
      ChainStep(text, n, block);
      CompressInto(h, block, Chained(text, n));
      off := off + 64;
      n := n + 1;
    }
    assert n == |text| / 64;
  }

  /** `onvif_sha1`. */
  method Sha1(data: seq<Byte>, digest: array<Byte>)
    requires digest.Length == 20
    modifies digest
    ensures digest[..] == CodeDigest(data)
    ensures |data| <= 119 ==> digest[..] == Digest(data)
  {
    var h := new Word[] [0x67452301, 0xEFCDAB89, 0x98BADCFE, 0x10325476, 0xC3D2E1F0];
    var padded := PaddedSize(|data|);
    ghost var s := H0;
    PaddedSizeIsLeast(data);
    if padded <= 128 {
      var buf := new Byte[128];
      PadInto(buf, data, padded);
      ProcessBlocks(h, buf, padded, Padded(data));
      s := Chained(Padded(data), |Padded(data)| / 64);
    }
    WriteDigest(h, digest, s);
  }
}
