/** Base64 (section 4 of RFC 4648) as core/onvif_wsse.c decodes and encodes it.

The reference is the bit string: a decoder lays the six bits of each character end to end and cuts
them into bytes; an encoder lays the eight bits of each byte end to end, pads with zeros and cuts
them into sextets. C's shifts and masks on `uint32_t` are written as multiplication, division and
remainder; `|` joins disjoint bits there, so it is `+`. */
module Base64 {
  import opened CText

  type Sextet = n: nat | n < 64

  const TABLE: string := UPPER + LOWER + REST
  const UPPER: string := "ABCDEFGHIJKLMNOPQRSTUVWXYZ"
  const LOWER: string := "abcdefghijklmnopqrstuvwxyz"
  const REST: string := "0123456789+/"

  // ----- bits -----

  /** The low `w` bits of `n`, most significant first. */
  function Bits(n: nat, w: nat): (s: seq<bool>)
    ensures |s| == w
  {
    if w == 0 then [] else Bits(n / 2, w - 1) + [n % 2 == 1]
  }

  function BitsOfBytes(bytes: seq<Byte>): (s: seq<bool>)
    ensures |s| == 8 * |bytes|
  {
    if bytes == [] then [] else BitsOfBytes(bytes[..|bytes| - 1]) + Bits(bytes[|bytes| - 1], 8)
  }

  function BitsOfSextets(sextets: seq<Sextet>): (s: seq<bool>)
    ensures |s| == 6 * |sextets|
  {
    if sextets == [] then [] else BitsOfSextets(sextets[..|sextets| - 1]) + Bits(sextets[|sextets| - 1], 6)
  }

  function Zeros(n: nat): (s: seq<bool>)
    ensures |s| == n
  {
    seq(n, _ => false)
  }

  function Pow2(k: nat): (p: nat)
    ensures p > 0
  {
    if k == 0 then 1 else 2 * Pow2(k - 1)
  }

  /** `n >> k`. */
  function High(n: nat, k: nat): nat {
    if k == 0 then n else High(n / 2, k - 1)
  }

  /** The low `k` bits of `n` as a number. */
  function Low(n: nat, k: nat): nat {
    if k == 0 then 0 else 2 * Low(n / 2, k - 1) + n % 2
  }

  lemma HighFour(n: nat)
    ensures High(n, 4) == n / 16
  {
    assert High(n, 4) == High(n / 4, 2) == n / 4 / 2 / 2;
  }

  lemma HighSix(n: nat)
    ensures High(n, 6) == n / 64
  {
    assert High(n, 6) == High(n / 4, 4);
    HighFour(n / 4);
  }

  lemma HighEight(n: nat)
    ensures High(n, 8) == n / 256
  {
    assert High(n, 8) == High(n / 4, 6);
    HighSix(n / 4);
  }

  lemma {:induction false} LowIsRemainder(n: nat, k: nat)
    ensures Low(n, k) == n % Pow2(k)
  {
    if k > 0 {
      LowIsRemainder(n / 2, k - 1);
      RemainderOfDouble(n, Pow2(k - 1));
    }
  }

  lemma RemainderOfDouble(n: nat, p: nat)
    requires p > 0
    ensures n % (2 * p) == 2 * (n / 2 % p) + n % 2
  {
    var q, r := n / 2 / p, n / 2 % p;
    assert n / 2 == p * q + r;
    RemainderIs(n, 2 * p, q, 2 * r + n % 2);
  }

  lemma RemainderIs(n: nat, p: nat, q: nat, r: nat)
    requires p > 0 && n == p * q + r && r < p
    ensures n % p == r
  {
    var d := n / p - q;
    assert p * d == r - n % p by {
      assert n == p * (n / p) + n % p;
      assert p * d == p * (n / p) - p * q;
    }
    assert d >= 1 ==> p * d >= p;
    assert d <= -1 ==> p * d + p <= 0;
  }

  /** Cutting a bit string in two. */
  lemma {:induction false} BitsSplit(n: nat, high: nat, low: nat)
    ensures Bits(n, high + low) == Bits(High(n, low), high) + Bits(n, low)
  {
    if low > 0 {
      BitsSplit(n / 2, high, low - 1);
    }
  }

  /** Only the low bits matter. */
  lemma {:induction false} HighBitsDropped(n: nat, k: nat, w: nat)
    requires w <= k
    ensures Bits(Low(n, k), w) == Bits(n, w)
  {
    if w > 0 {
      HighBitsDropped(n / 2, k - 1, w - 1);
    }
  }

  lemma {:induction false} BitsInjective(a: nat, b: nat, w: nat)
    requires a < Pow2(w) && b < Pow2(w) && Bits(a, w) == Bits(b, w)
    ensures a == b
  {
    if w > 0 {
      var s, t := Bits(a, w), Bits(b, w);
      assert s[..w - 1] == Bits(a / 2, w - 1) && t[..w - 1] == Bits(b / 2, w - 1);
      assert s[w - 1] == t[w - 1];
      BitsInjective(a / 2, b / 2, w - 1);
    }
  }

  lemma Pow2Values()
    ensures Pow2(6) == 64 && Pow2(8) == 256 && Pow2(32) == 0x1_0000_0000
  {
    assert Pow2(12) == 4096;
    assert Pow2(18) == 64 * Pow2(12);
    assert Pow2(24) == 64 * Pow2(18);
    assert Pow2(30) == 64 * Pow2(24);
  }

  lemma {:induction false} BytesInjective(a: seq<Byte>, b: seq<Byte>)
    requires BitsOfBytes(a) == BitsOfBytes(b)
    ensures a == b
  {
    assert |a| == |b|;
    if a != [] {
      var n := |a| - 1;
      LastByteApart(a);
      LastByteApart(b);
      BytesInjective(a[..n], b[..n]);
      Pow2Values();
      BitsInjective(a[n], b[n], 8);
      SameEnds(a, b);
    }
  }

  lemma SameEnds(a: seq<Byte>, b: seq<Byte>)
    requires |a| == |b| > 0 && a[..|a| - 1] == b[..|a| - 1] && a[|a| - 1] == b[|a| - 1]
    ensures a == b
  {
    assert a == a[..|a| - 1] + [a[|a| - 1]];
  }

  lemma LastByteApart(bytes: seq<Byte>)
    requires bytes != []
    ensures var n := |bytes| - 1;
            BitsOfBytes(bytes)[..8 * n] == BitsOfBytes(bytes[..n]) && BitsOfBytes(bytes)[8 * n..] == Bits(bytes[n], 8)
  {
  }

  // ----- characters -----

  function B64Val(c: char): (r: Option<Sextet>)
    ensures c == '=' ==> r == None
  {
    if 'A' <= c <= 'Z' then Some(c as int - 'A' as int)
    else if 'a' <= c <= 'z' then Some(c as int - 'a' as int + 26)
    else if '0' <= c <= '9' then Some(c as int - '0' as int + 52)
    else if c == '+' then Some(62)
    else if c == '/' then Some(63)
    else None
  }

  predicate Skipped(c: char) {
    c == '=' || c == '\r' || c == '\n' || c == ' '
  }

  predicate Legible(c: char) {
    Skipped(c) || B64Val(c).Some?
  }

  /** Every character is a Base64 digit or one of the four the decoder skips. */
  predicate Readable(text: string) {
    forall k :: 0 <= k < |text| ==> Legible(text[k])
  }

  /** The values of the digits of a text. */
  function SextetsOf(text: string): (s: seq<Sextet>)
    ensures |s| <= |text|
  {
    if text == "" then []
    else
      var last := |text| - 1;
      var v := B64Val(text[last]);
      SextetsOf(text[..last]) + (if v.Some? then [v.value] else [])
  }

  /** The bytes a text stands for: as many as the digits fill, in their bit order. */
  ghost predicate Decodes(text: string, bytes: seq<Byte>) {
    var sextets := SextetsOf(text);
    |bytes| == 6 * |sextets| / 8 && BitsOfBytes(bytes) == BitsOfSextets(sextets)[..8 * |bytes|]
  }

  lemma DecodingIsUnique(text: string, a: seq<Byte>, b: seq<Byte>)
    requires Decodes(text, a) && Decodes(text, b)
    ensures a == b
  {
    BytesInjective(a, b);
  }

  /** Byte `j` of a decoding is bits 8j to 8j + 7 of the sextets laid end to end. */
  lemma DecodedByte(text: string, bytes: seq<Byte>, j: nat)
    requires Decodes(text, bytes) && j < |bytes|
    ensures Bits(bytes[j], 8) == BitsOfSextets(SextetsOf(text))[8 * j..8 * j + 8]
  {
    ByteOfBits(bytes, j);
    assert BitsOfBytes(bytes)[8 * j..8 * j + 8] == BitsOfSextets(SextetsOf(text))[8 * j..8 * j + 8];
  }

  lemma SliceOfSum(a: seq<bool>, b: seq<bool>, i: nat, j: nat)
    requires i <= j
    ensures j <= |a| ==> (a + b)[i..j] == a[i..j]
    ensures i == |a| && j == |a| + |b| ==> (a + b)[i..j] == b
  {
  }

  lemma {:induction false} ByteOfBits(bytes: seq<Byte>, j: nat)
    requires j < |bytes|
    ensures BitsOfBytes(bytes)[8 * j..8 * j + 8] == Bits(bytes[j], 8)
  {
    var n := |bytes| - 1;
    SliceOfSum(BitsOfBytes(bytes[..n]), Bits(bytes[n], 8), 8 * j, 8 * j + 8);
    if j < n {
      ByteOfBits(bytes[..n], j);
    }
  }

  // ----- decoding -----

  lemma LastSextet(a: nat, v: Sextet)
    ensures (a * 64 + v) / 64 == a && (a * 64 + v) % 64 == v
  {
  }

  /** Putting six bits behind a number. */
  lemma AppendSix(a: nat, v: Sextet, w: nat)
    ensures Bits(a * 64 + v, w + 6) == Bits(a, w) + Bits(v, 6)
  {
    var whole := a * 64 + v;
    LastSextet(a, v);
    BitsSplit(whole, w, 6);
    HighSix(whole);
    Pow2Values();
    LowIsRemainder(whole, 6);
    HighBitsDropped(whole, 6, 6);
  }

  lemma LastByte(a: nat, b: Byte)
    ensures (a * 256 + b) / 256 == a && (a * 256 + b) % 256 == b
  {
  }

  /** Putting a byte behind a number. */
  lemma AppendEight(a: nat, b: Byte, w: nat)
    ensures Bits(a * 256 + b, w + 8) == Bits(a, w) + Bits(b, 8)
  {
    var whole := a * 256 + b;
    LastByte(a, b);
    BitsSplit(whole, w, 8);
    HighEight(whole);
    Pow2Values();
    LowIsRemainder(whole, 8);
    HighBitsDropped(whole, 8, 8);
  }

  /** One character goes into the accumulator: the `bits` pending bits are followed by six more,
      whatever the accumulator has lost at the top. */
  lemma Shifted(acc: nat, bits: nat, v: Sextet)
    requires bits <= 6
    ensures Bits((acc * 64 + v) % 0x1_0000_0000, bits + 6) == Bits(acc, bits) + Bits(v, 6)
  {
    Pow2Values();
    LowIsRemainder(acc * 64 + v, 32);
    HighBitsDropped(acc * 64 + v, 32, bits + 6);
    AppendSix(acc, v, bits);
  }

  /** A byte comes out: the eight oldest pending bits, leaving the others pending. */
  lemma Emitted(acc: nat, bits: nat)
    ensures Bits(acc, bits + 8) == Bits(High(acc, bits) % 256, 8) + Bits(acc, bits)
  {
    Pow2Values();
    BitsSplit(acc, 8, bits);
    LowIsRemainder(High(acc, bits), 8);
    HighBitsDropped(High(acc, bits), 8, 8);
  }

  lemma OneMoreByte(bytes: seq<Byte>, b: Byte)
    ensures BitsOfBytes(bytes + [b]) == BitsOfBytes(bytes) + Bits(b, 8)
  {
    assert (bytes + [b])[..|bytes|] == bytes;
  }

  lemma OneMoreSextet(sextets: seq<Sextet>, v: Sextet)
    ensures BitsOfSextets(sextets + [v]) == BitsOfSextets(sextets) + Bits(v, 6)
  {
    assert (sextets + [v])[..|sextets|] == sextets;
  }

  lemma {:induction false} PrefixHasFewer(text: string, i: nat)
    requires i <= |text|
    ensures |SextetsOf(text[..i])| <= |SextetsOf(text)|
    ensures Readable(text) ==> Readable(text[..i])
  {
    if i < |text| {
      PrefixHasFewer(text[..|text| - 1], i);
      assert text[..|text| - 1][..i] == text[..i];
    } else {
      assert text[..i] == text;
    }
  }

  /** The decoder's variables: the bytes written, the accumulator and how many of its low bits are
      still pending. */
  datatype Decoder = Decoder(done: seq<Byte>, acc: nat, bits: nat)

  /** Six more bits in the 32-bit accumulator. */
  function Shift(d: Decoder, v: Sextet): Decoder {
    Decoder(d.done, (d.acc * 64 + v) % 0x1_0000_0000, d.bits + 6)
  }

  /** A byte goes out. */
  function Emit(d: Decoder): Decoder
    requires d.bits >= 8
  {
    Decoder(d.done + [High(d.acc, d.bits - 8) % 256], d.acc, d.bits - 8)
  }

  function Feed(d: Decoder, v: Sextet): Decoder {
    if d.bits + 6 >= 8 then Emit(Shift(d, v)) else Shift(d, v)
  }

  /** The decoder after a readable text, as long as the output has room. */
  function FeedAll(text: string): Decoder {
    if text == "" then Decoder([], 0, 0)
    else
      var d := FeedAll(text[..|text| - 1]);
      var v := B64Val(text[|text| - 1]);
      if v.Some? then Feed(d, v.value) else d
  }

  /** The bytes written followed by the pending bits are the bits `whole`. */
  ghost predicate Shows(d: Decoder, whole: seq<bool>) {
    whole == BitsOfBytes(d.done) + Bits(d.acc, d.bits)
  }

  ghost predicate Faithful(d: Decoder, sextets: seq<Sextet>) {
    && d.bits in {0, 2, 4, 6}
    && 8 * |d.done| + d.bits == 6 * |sextets|
    && Shows(d, BitsOfSextets(sextets))
  }

  lemma ShiftKeeps(d: Decoder, v: Sextet, whole: seq<bool>)
    requires d.bits <= 6 && Shows(d, whole)
    ensures Shows(Shift(d, v), whole + Bits(v, 6))
  {
    Shifted(d.acc, d.bits, v);
    Associate(BitsOfBytes(d.done), Bits(d.acc, d.bits), Bits(v, 6));
  }

  lemma EmitKeeps(d: Decoder, whole: seq<bool>)
    requires d.bits >= 8 && Shows(d, whole)
    ensures Shows(Emit(d), whole)
  {
    var left := d.bits - 8;
    var b := High(d.acc, left) % 256;
    Emitted(d.acc, left);
    OneMoreByte(d.done, b);
    Associate(BitsOfBytes(d.done), Bits(b, 8), Bits(d.acc, left));
  }

  lemma FeedKeeps(d: Decoder, sextets: seq<Sextet>, v: Sextet)
    requires Faithful(d, sextets)
    ensures Faithful(Feed(d, v), sextets + [v])
  {
    OneMoreSextet(sextets, v);
    FeedBits(d, BitsOfSextets(sextets), v);
    FeedCounts(d, v);
  }

  lemma FeedBits(d: Decoder, whole: seq<bool>, v: Sextet)
    requires d.bits <= 6 && Shows(d, whole)
    ensures Shows(Feed(d, v), whole + Bits(v, 6))
  {
    ShiftKeeps(d, v, whole);
    if d.bits + 6 >= 8 {
      EmitKeeps(Shift(d, v), whole + Bits(v, 6));
    }
  }

  lemma FeedCounts(d: Decoder, v: Sextet)
    requires d.bits in {0, 2, 4, 6}
    ensures Feed(d, v).bits in {0, 2, 4, 6}
    ensures 8 * |Feed(d, v).done| + Feed(d, v).bits == 8 * |d.done| + d.bits + 6
  {
  }

  /** The accumulator loses nothing the output needs. */
  lemma {:induction false} FeedAllIsFaithful(text: string)
    ensures Faithful(FeedAll(text), SextetsOf(text))
  {
    if text != "" {
      var last := |text| - 1;
      FeedAllIsFaithful(text[..last]);
      var v := B64Val(text[last]);
      if v.Some? {
        FeedKeeps(FeedAll(text[..last]), SextetsOf(text[..last]), v.value);
      } else {
        assert SextetsOf(text) == SextetsOf(text[..last]);
      }
    }
  }

  lemma FedText(text: string)
    ensures Decodes(text, FeedAll(text).done)
    ensures |FeedAll(text).done| == 6 * |SextetsOf(text)| / 8
  {
    FeedAllIsFaithful(text);
    var d, bits := FeedAll(text), BitsOfSextets(SextetsOf(text));
    assert bits[..8 * |d.done|] == BitsOfBytes(d.done);
  }

  lemma FeedNext(text: string, i: nat)
    requires i < |text|
    ensures var v := B64Val(text[i]);
            FeedAll(text[..i + 1]) == if v.Some? then Feed(FeedAll(text[..i]), v.value) else FeedAll(text[..i])
  {
    assert text[..i + 1][..i] == text[..i];
  }

  lemma NoDigit(c: char)
    requires Skipped(c)
    ensures B64Val(c) == None
  {
  }

  lemma TooSmall(text: string, i: nat, room: nat)
    requires i <= |text| && room < |FeedAll(text[..i]).done|
    ensures 6 * |SextetsOf(text)| / 8 > room
  {
    FedText(text[..i]);
    PrefixHasFewer(text, i);
  }

  method PutByte(b: Byte, out: array<Byte>, o: nat)
    requires o < out.Length
    modifies out
    ensures out[..o + 1] == old(out[..o]) + [b]
    ensures forall k :: o + 1 <= k < out.Length ==> out[k] == old(out[k])
  {
    out[o] := b;
  }

  /** `onvif_base64_decode`: `-1` exactly for a character outside the alphabet or an output that is
      too small, otherwise the number of bytes written. */
  method Decode(text: string, out: array<Byte>) returns (r: int)
    modifies out
    ensures -1 <= r <= out.Length
    ensures r == -1 <==> !Readable(text) || 6 * |SextetsOf(text)| / 8 > out.Length
    ensures r >= 0 ==> Decodes(text, out[..r]) && forall k :: r <= k < out.Length ==> out[k] == old(out[k])
  {
    var o := 0;
    var acc: nat := 0;
    var bits := 0;
    for i := 0 to |text|
      invariant o <= out.Length && Readable(text[..i])
      invariant FeedAll(text[..i]) == Decoder(out[..o], acc, bits)
      invariant forall k :: o <= k < out.Length ==> out[k] == old(out[k])
    {
      FeedNext(text, i);
      if Skipped(text[i]) {
        NoDigit(text[i]);
        continue;
      }
      var v := B64Val(text[i]);
      if v.None? {
        assert !Legible(text[i]);
        return -1;
      }
      acc := (acc * 64 + v.value) % 0x1_0000_0000;
      bits := bits + 6;
      if bits >= 8 {
        bits := bits - 8;
        if o >= out.Length {
          TooSmall(text, i + 1, o);
          return -1;
        }
        PutByte(High(acc, bits) % 256, out, o);
        o := o + 1;
      }
    }
    assert text[..|text|] == text;
    FedText(text);
    return o;
  }

  // ----- encoding -----

  function Char(v: nat): char {
    TABLE[v % 64]
  }

  /** The bytes of a group side by side in 24 bits, missing ones zero. */
  function GroupValue(group: seq<Byte>): nat
    requires 1 <= |group| <= 3
  {
    var b1: nat := if |group| > 1 then group[1] else 0;
    var b2: nat := if |group| > 2 then group[2] else 0;
    group[0] as int * 65536 + b1 * 256 + b2
  }

  /** The four characters for one, two or three bytes. */
  function Quantum(group: seq<Byte>): (text: string)
    requires 1 <= |group| <= 3
    ensures |text| == 4
  {
    var v := GroupValue(group);
    [Char(v / 262144), Char(v / 4096),
     if |group| > 1 then Char(v / 64) else '=',
     if |group| > 2 then Char(v) else '=']
  }

  /** The part of `bytes` from `i` on, empty past the end. */
  function From(bytes: seq<Byte>, i: nat): seq<Byte> {
    if i < |bytes| then bytes[i..] else []
  }

  /** The first group of a non-empty byte string. */
  function Group(bytes: seq<Byte>): (group: seq<Byte>)
    requires bytes != []
    ensures 1 <= |group| <= 3
  {
    if |bytes| <= 3 then bytes else bytes[..3]
  }

  function Encoded(bytes: seq<Byte>): (text: string)
    ensures bytes != [] ==> |text| >= 4
    decreases |bytes|
  {
    if bytes == [] then "" else Quantum(Group(bytes)) + Encoded(From(bytes, 3))
  }

  lemma {:induction false} EncodedLength(bytes: seq<Byte>)
    ensures |Encoded(bytes)| == (|bytes| + 2) / 3 * 4
    decreases |bytes|
  {
    if bytes != [] {
      EncodedLength(From(bytes, 3));
      EncodedStep(bytes);
      CountStep(|bytes|, |From(bytes, 3)|);
    }
  }

  lemma EncodedStep(bytes: seq<Byte>)
    requires bytes != []
    ensures |Encoded(bytes)| == 4 + |Encoded(From(bytes, 3))|
    ensures |From(bytes, 3)| == if |bytes| > 3 then |bytes| - 3 else 0
  {
  }

  lemma CountStep(n: nat, m: nat)
    requires n > 0 && m == if n > 3 then n - 3 else 0
    ensures (n + 2) / 3 * 4 == 4 + (m + 2) / 3 * 4
  {
  }

  /** The body of the encoding loop. */
  method PutQuantum(group: seq<Byte>, out: array<char>, o: nat)
    requires 1 <= |group| <= 3 && o + 4 <= out.Length
    modifies out
    ensures out[..o + 4] == old(out[..o]) + Quantum(group)
    ensures forall k :: o + 4 <= k < out.Length ==> out[k] == old(out[k])
  {
    var v: nat := group[0] as int * 65536;
    var rem := |group|;
    if rem > 1 {
      v := v + group[1] as int * 256;
    }
    if rem > 2 {
      v := v + group[2];
    }
    assert v == GroupValue(group);
    out[o] := Char(v / 262144);
    out[o + 1] := Char(v / 4096);
    out[o + 2] := if rem > 1 then Char(v / 64) else '=';
    out[o + 3] := if rem > 2 then Char(v) else '=';
  }

  lemma EncodeNext(written: string, rest: seq<Byte>)
    requires rest != []
    ensures written + Quantum(Group(rest)) + Encoded(From(rest, 3)) == written + Encoded(rest)
  {
    Associate(written, Quantum(Group(rest)), Encoded(From(rest, 3)));
  }

  /** `onvif_base64_encode`: it succeeds exactly when two characters more than the text fit (one, for
      no bytes), and then leaves the text and its terminator in `out`. */
  method Encode(bytes: seq<Byte>, out: array<char>) returns (r: int)
    modifies out
    ensures r == -1 || r == |Encoded(bytes)|
    ensures r == -1 <==> out.Length < (if bytes == [] then 1 else |Encoded(bytes)| + 2)
    ensures r >= 0 ==> out[..r] == Encoded(bytes) && out[r] == '\0'
    ensures r >= 0 ==> forall k :: r < k < out.Length ==> out[k] == old(out[k])
  {
    var o := 0;
    var i := 0;
    while i < |bytes|
      invariant i > 0 ==> o + 2 <= out.Length
      invariant o <= out.Length && out[..o] + Encoded(From(bytes, i)) == Encoded(bytes)
      invariant forall k :: o <= k < out.Length ==> out[k] == old(out[k])
    {
      if o + 5 >= out.Length {
        return -1;
      }
      ghost var rest := From(bytes, i);
      assert From(rest, 3) == From(bytes, i + 3);
      EncodeNext(out[..o], rest);
      PutQuantum(Group(bytes[i..]), out, o);
      o := o + 4;
      i := i + 3;
    }
    if o >= out.Length {
      return -1;
    }
    out[o] := '\0';
    return o;
  }

  // ----- what encoding means, and the round trip -----

  /** Base64 by its bits: the bytes' bits, padded with zeros to whole sextets, as digits; then `=` up
      to a multiple of four characters. */
  ghost predicate IsEncoding(bytes: seq<Byte>, text: string) {
    && |text| == (|bytes| + 2) / 3 * 4
    && |SextetsOf(text)| == (8 * |bytes| + 5) / 6
    && DigitsThenPadding(text, |SextetsOf(text)|)
    && PaddedBits(bytes, SextetsOf(text))
  }

  ghost predicate DigitsThenPadding(text: string, n: nat) {
    && (forall k :: 0 <= k < n && k < |text| ==> B64Val(text[k]).Some?)
    && (forall k :: n <= k < |text| ==> text[k] == '=')
  }

  ghost predicate PaddedBits(bytes: seq<Byte>, sextets: seq<Sextet>) {
    && 6 * |sextets| >= 8 * |bytes|
    && BitsOfSextets(sextets) == BitsOfBytes(bytes) + Zeros(6 * |sextets| - 8 * |bytes|)
  }

  lemma CharIsDigit(v: nat)
    ensures B64Val(Char(v)) == Some(v % 64)
  {
    var i := v % 64;
    InTable(UPPER, LOWER, REST, i);
    if i < 26 {
      UpperAt(i);
    } else if i < 52 {
      LowerAt(i - 26);
    } else {
      RestAt(i - 52);
    }
  }

  lemma InTable(a: string, b: string, c: string, i: nat)
    requires i < |a| + |b| + |c|
    ensures (a + b + c)[i] == if i < |a| then a[i] else if i < |a| + |b| then b[i - |a|] else c[i - |a| - |b|]
  {
  }

  lemma UpperAt(i: nat)
    requires i < 26
    ensures B64Val(UPPER[i]) == Some(i)
  {
    assert UPPER[i] == 'A' + i as char;
  }

  lemma LowerAt(i: nat)
    requires i < 26
    ensures B64Val(LOWER[i]) == Some(i + 26)
  {
    assert LOWER[i] == 'a' + i as char;
  }

  lemma RestAt(i: nat)
    requires i < 12
    ensures B64Val(REST[i]) == Some(i + 52)
  {
    if i < 10 { assert REST[i] == '0' + i as char; }
  }

  function DigitOf(c: char): seq<Sextet> {
    var v := B64Val(c);
    if v.Some? then [v.value] else []
  }

  lemma SextetsAppend(a: string, c: char)
    ensures SextetsOf(a + [c]) == SextetsOf(a) + DigitOf(c)
  {
    assert (a + [c])[..|a|] == a;
  }

  lemma {:induction false} SextetsOfConcat(a: string, b: string)
    ensures SextetsOf(a + b) == SextetsOf(a) + SextetsOf(b)
  {
    if b == "" {
      assert a + b == a;
    } else {
      var last := |b| - 1;
      SextetsOfConcat(a, b[..last]);
      assert a + b == a + b[..last] + [b[last]];
      SextetsAppend(a + b[..last], b[last]);
      Associate(SextetsOf(a), SextetsOf(b[..last]), DigitOf(b[last]));
    }
  }

  lemma {:induction false} BitsOfSextetsConcat(a: seq<Sextet>, b: seq<Sextet>)
    ensures BitsOfSextets(a + b) == BitsOfSextets(a) + BitsOfSextets(b)
  {
    if b == [] {
      assert a + b == a;
    } else {
      var last := |b| - 1;
      BitsOfSextetsConcat(a, b[..last]);
      assert a + b == a + b[..last] + [b[last]];
      OneMoreSextet(a + b[..last], b[last]);
      Associate(BitsOfSextets(a), BitsOfSextets(b[..last]), Bits(b[last], 6));
    }
  }

  lemma {:induction false} BitsOfBytesConcat(a: seq<Byte>, b: seq<Byte>)
    ensures BitsOfBytes(a + b) == BitsOfBytes(a) + BitsOfBytes(b)
  {
    if b == [] {
      assert a + b == a;
    } else {
      var last := |b| - 1;
      BitsOfBytesConcat(a, b[..last]);
      assert a + b == a + b[..last] + [b[last]];
      OneMoreByte(a + b[..last], b[last]);
      Associate(BitsOfBytes(a), BitsOfBytes(b[..last]), Bits(b[last], 8));
    }
  }

  lemma BitsOfOne(d: Sextet)
    ensures BitsOfSextets([d]) == Bits(d, 6)
  {
    assert [d][..0] == [];
  }

  lemma BitsOfFour(d0: Sextet, d1: Sextet, d2: Sextet, d3: Sextet)
    ensures BitsOfSextets([d0, d1, d2, d3]) == Bits(d0, 6) + Bits(d1, 6) + Bits(d2, 6) + Bits(d3, 6)
  {
    BitsOfOne(d0);
    OneMoreSextet([d0], d1);
    OneMoreSextet([d0] + [d1], d2);
    OneMoreSextet([d0] + [d1] + [d2], d3);
    assert [d0, d1, d2, d3] == [d0] + [d1] + [d2] + [d3];
  }

  /** A number built from four digits. */
  lemma BitsOfDigits(d0: Sextet, d1: Sextet, d2: Sextet, d3: Sextet)
    ensures Bits(Joined(d0, d1, d2, d3), 24) == BitsOfSextets([d0, d1, d2, d3])
  {
    var x: nat := d0 as nat * 64 + d1;
    var y: nat := x * 64 + d2;
    BitsOfFour(d0, d1, d2, d3);
    SixMore(d0, d1, x, 6, 12, Bits(d0, 6));
    SixMore(x, d2, y, 12, 18, Bits(d0, 6) + Bits(d1, 6));
    SixMore(y, d3, Joined(d0, d1, d2, d3), 18, 24, Bits(d0, 6) + Bits(d1, 6) + Bits(d2, 6));
  }

  lemma SixMore(a: nat, v: Sextet, n: nat, w: nat, total: nat, head: seq<bool>)
    requires n == a * 64 + v && total == w + 6 && Bits(a, w) == head
    ensures Bits(n, total) == head + Bits(v, 6)
  {
    AppendSix(a, v, w);
  }

  function Joined(d0: Sextet, d1: Sextet, d2: Sextet, d3: Sextet): nat {
    ((d0 as nat * 64 + d1) * 64 + d2) * 64 + d3
  }

  lemma JoinedDigits(v: nat)
    requires v < 0x100_0000
    ensures Joined(v / 262144 % 64, v / 4096 % 64, v / 64 % 64, v % 64) == v
  {
    assert v / 262144 < 64;
    assert v / 4096 == 64 * (v / 262144) + v / 4096 % 64;
    assert v / 64 == 64 * (v / 4096) + v / 64 % 64;
  }

  lemma BitsOfGroup(b0: Byte, b1: Byte, b2: Byte)
    ensures Bits((b0 as nat * 256 + b1) * 256 + b2, 24) == Bits(b0, 8) + Bits(b1, 8) + Bits(b2, 8)
  {
    var high: nat := b0 as nat * 256 + b1;
    BitsOfTwo(b0, b1, high);
    EightMore(high, b2, high * 256 + b2, 16, 24, Bits(b0, 8) + Bits(b1, 8));
  }

  lemma BitsOfTwo(b0: Byte, b1: Byte, high: nat)
    requires high == b0 as nat * 256 + b1
    ensures Bits(high, 16) == Bits(b0, 8) + Bits(b1, 8)
  {
    EightMore(b0, b1, high, 8, 16, Bits(b0, 8));
  }

  lemma EightMore(a: nat, b: Byte, n: nat, w: nat, total: nat, head: seq<bool>)
    requires n == a * 256 + b && total == w + 8 && Bits(a, w) == head
    ensures Bits(n, total) == head + Bits(b, 8)
  {
    AppendEight(a, b, w);
  }

  lemma {:induction false} BitsOfZero(w: nat)
    ensures Bits(0, w) == Zeros(w)
  {
    if w > 0 { BitsOfZero(w - 1); }
  }

  /** A full group, or a short one filled with zero bytes. */
  lemma BitsOfQuantum(group: seq<Byte>)
    requires 1 <= |group| <= 3
    ensures BitsOfSextets(QuantumDigits(group)) == BitsOfBytes(group) + Zeros(24 - 8 * |group|)
  {
    var b0 := group[0];
    var b1: Byte := if |group| > 1 then group[1] else 0;
    var b2: Byte := if |group| > 2 then group[2] else 0;
    var v := GroupValue(group);
    assert v == (b0 as nat * 256 + b1) * 256 + b2;
    JoinedDigits(v);
    BitsOfDigits(v / 262144 % 64, v / 4096 % 64, v / 64 % 64, v % 64);
    BitsOfGroup(b0, b1, b2);
    BitsOfZero(8);
    BitsOfPadded(group, b1, b2);
  }

  lemma BitsOfPadded(group: seq<Byte>, b1: Byte, b2: Byte)
    requires 1 <= |group| <= 3
    requires b1 == (if |group| > 1 then group[1] else 0) && b2 == (if |group| > 2 then group[2] else 0)
    ensures Bits(group[0], 8) + Bits(b1, 8) + Bits(b2, 8) == BitsOfBytes(group) + Zeros(24 - 8 * |group|)
  {
    BitsOfZero(8);
    BitsOfOneByte(group[0]);
    if |group| == 1 {
      assert group == [group[0]];
      EightMoreZeros(BitsOfBytes(group), 8);
    } else {
      OneMoreByte([group[0]], group[1]);
      if |group| == 2 {
        assert group == [group[0]] + [group[1]];
      } else {
        OneMoreByte([group[0]] + [group[1]], group[2]);
        assert group == [group[0]] + [group[1]] + [group[2]];
        NoZeros(BitsOfBytes(group));
      }
    }
  }

  lemma BitsOfOneByte(b: Byte)
    ensures BitsOfBytes([b]) == Bits(b, 8)
  {
    assert [b][..0] == [];
  }

  lemma EightMoreZeros(s: seq<bool>, n: nat)
    ensures s + Zeros(n) + Zeros(8) == s + Zeros(n + 8)
  {
  }

  lemma NoZeros(s: seq<bool>)
    ensures s + Zeros(0) == s
  {
  }

  function QuantumDigits(group: seq<Byte>): (digits: seq<Sextet>)
    requires 1 <= |group| <= 3
    ensures |digits| == 4
  {
    var v := GroupValue(group);
    [v / 262144 % 64, v / 4096 % 64, v / 64 % 64, v % 64]
  }

  lemma QuantumShowsDigits(group: seq<Byte>)
    requires 1 <= |group| <= 3
    ensures SextetsOf(Quantum(group)) == QuantumDigits(group)[..|group| + 1]
    ensures forall k :: 0 <= k <= |group| ==> B64Val(Quantum(group)[k]).Some?
    ensures forall k :: |group| < k < 4 ==> Quantum(group)[k] == '='
  {
    var v := GroupValue(group);
    CharIsDigit(v / 262144);
    CharIsDigit(v / 4096);
    CharIsDigit(v / 64);
    CharIsDigit(v);
    SextetsOfQuantum(Quantum(group), QuantumDigits(group), |group| + 1);
  }

  lemma PrefixOfPadded(a: seq<bool>, b: seq<bool>, bits: seq<bool>, z: nat)
    requires a + b == bits + Zeros(z) && |bits| <= |a| <= |bits| + z
    ensures a == bits + Zeros(|a| - |bits|)
  {
    assert a == (a + b)[..|a|];
  }

  lemma QuantumBits(group: seq<Byte>)
    requires 1 <= |group| <= 3
    ensures PaddedBits(group, QuantumDigits(group)[..|group| + 1])
  {
    var digits := QuantumDigits(group);
    var shown, hidden := digits[..|group| + 1], digits[|group| + 1..];
    BitsOfQuantum(group);
    BitsOfSextetsConcat(shown, hidden);
    assert digits == shown + hidden;
    PrefixOfPadded(BitsOfSextets(shown), BitsOfSextets(hidden), BitsOfBytes(group), 24 - 8 * |group|);
  }

  lemma QuantumMeaning(group: seq<Byte>)
    requires 1 <= |group| <= 3
    ensures IsEncoding(group, Quantum(group))
  {
    QuantumCounts(|group|);
    QuantumShowsDigits(group);
    QuantumBits(group);
    var q := Quantum(group);
    assert |q| == 4 && |SextetsOf(q)| == |group| + 1;
  }

  lemma QuantumCounts(n: nat)
    requires 1 <= n <= 3
    ensures (n + 2) / 3 * 4 == 4 && (8 * n + 5) / 6 == n + 1
  {
  }

  lemma SextetsOfQuantum(q: string, digits: seq<Sextet>, n: nat)
    requires |q| == |digits| == 4 && 2 <= n <= 4
    requires forall k :: 0 <= k < n ==> B64Val(q[k]) == Some(digits[k])
    requires forall k :: n <= k < 4 ==> q[k] == '='
    ensures SextetsOf(q) == digits[..n]
  {
    assert q[..4] == q;
    SextetsUpTo(q, digits, n, 4);
  }

  lemma {:induction false} SextetsUpTo(q: string, digits: seq<Sextet>, n: nat, k: nat)
    requires k <= |q| && n <= |q| == |digits|
    requires forall k :: 0 <= k < n ==> B64Val(q[k]) == Some(digits[k])
    requires forall k :: n <= k < |q| ==> q[k] == '='
    ensures SextetsOf(q[..k]) == digits[..if k < n then k else n]
  {
    if k > 0 {
      SextetsUpTo(q, digits, n, k - 1);
      assert q[..k] == q[..k - 1] + [q[k - 1]];
      SextetsAppend(q[..k - 1], q[k - 1]);
    }
  }

  lemma JoinBits(a: seq<Byte>, s: seq<Sextet>, b: seq<Byte>, t: seq<Sextet>)
    requires |a| == 3 && |s| == 4 && PaddedBits(a, s) && PaddedBits(b, t)
    ensures PaddedBits(a + b, s + t)
  {
    BitsOfSextetsConcat(s, t);
    BitsOfBytesConcat(a, b);
    assert BitsOfSextets(s) == BitsOfBytes(a);
    Associate(BitsOfBytes(a), BitsOfBytes(b), Zeros(6 * |t| - 8 * |b|));
  }

  lemma JoinCounts(n: nat)
    ensures (n + 3 + 2) / 3 * 4 == (n + 2) / 3 * 4 + 4
    ensures (8 * (n + 3) + 5) / 6 == (8 * n + 5) / 6 + 4
  {
  }

  lemma FullGroup(a: seq<Byte>, p: string)
    requires |a| == 3 && IsEncoding(a, p)
    ensures |p| == 4 && |SextetsOf(p)| == 4 && DigitsThenPadding(p, 4) && PaddedBits(a, SextetsOf(p))
  {
  }

  /** Three bytes encode without padding, so what follows them encodes on its own. */
  lemma JoinEncodings(a: seq<Byte>, p: string, b: seq<Byte>, q: string)
    requires |a| == 3 && IsEncoding(a, p) && IsEncoding(b, q)
    ensures IsEncoding(a + b, p + q)
  {
    var s, t := SextetsOf(p), SextetsOf(q);
    FullGroup(a, p);
    JoinCounts(|b|);
    SextetsOfConcat(p, q);
    JoinBits(a, s, b, t);
    JoinText(p, q, |t|);
  }

  lemma JoinText(p: string, q: string, n: nat)
    requires |p| == 4 && DigitsThenPadding(p, 4) && DigitsThenPadding(q, n)
    ensures DigitsThenPadding(p + q, 4 + n)
  {
  }

  /** What `onvif_base64_encode` writes is the Base64 of its input. */
  lemma {:induction false} EncodedIsEncoding(bytes: seq<Byte>)
    ensures IsEncoding(bytes, Encoded(bytes))
    decreases |bytes|
  {
    if bytes != [] {
      var group, rest := Group(bytes), From(bytes, 3);
      QuantumMeaning(group);
      if |bytes| > 3 {
        EncodedIsEncoding(rest);
        JoinEncodings(group, Quantum(group), rest, Encoded(rest));
        assert bytes == group + rest;
      } else {
        assert bytes == group && Encoded(bytes) == Quantum(group);
      }
    }
  }

  lemma PaddingIsSkipped(text: string)
    requires forall k :: |SextetsOf(text)| <= k < |text| ==> text[k] == '='
    requires forall k :: 0 <= k < |SextetsOf(text)| ==> B64Val(text[k]).Some?
    ensures Readable(text)
  {
    forall k | 0 <= k < |text|
      ensures Legible(text[k])
    {
    }
  }

  /** Decoding an encoding gives the bytes back, for every byte string: `Decode` on `Encoded(bytes)`
      can only write `bytes`. */
  lemma RoundTrip(bytes: seq<Byte>, decoded: seq<Byte>)
    ensures Readable(Encoded(bytes)) && 6 * |SextetsOf(Encoded(bytes))| / 8 == |bytes|
    ensures Decodes(Encoded(bytes), decoded) <==> decoded == bytes
  {
    var text := Encoded(bytes);
    EncodedIsEncoding(bytes);
    PaddingIsSkipped(text);
    assert BitsOfSextets(SextetsOf(text))[..8 * |bytes|] == BitsOfBytes(bytes);
    if Decodes(text, decoded) {
      DecodingIsUnique(text, decoded, bytes);
    }
  }

  // ----- the alphabet -----

  /** Table 1 of RFC 4648: the code point of the digit with value `v`. */
  function CodeOf(v: Sextet): int {
    if v < 26 then 65 + v
    else if v < 52 then 71 + v
    else if v < 62 then v - 4
    else if v == 62 then 43
    else 47
  }

  /** What is read: one digit has the value table 1 gives it, and no other character has one. */
  lemma ReadsTable1(c: char)
    ensures forall v: Sextet :: SextetsOf([c]) == [v] <==> c as int == CodeOf(v)
    ensures SextetsOf([c]) == [] <==> forall v: Sextet :: c as int != CodeOf(v)
  {
    SextetsAppend("", c);
    assert "" + [c] == [c] && SextetsOf([c]) == DigitOf(c);
    ValueOfCode(c);
    forall v: Sextet
      ensures SextetsOf([c]) == [v] <==> B64Val(c) == Some(v)
    {
      if SextetsOf([c]) == [v] { assert [v][0] == v; }
    }
  }

  lemma ValueOfCode(c: char)
    ensures forall v: Sextet :: B64Val(c) == Some(v) <==> c as int == CodeOf(v)
    ensures B64Val(c) == None <==> forall v: Sextet :: c as int != CodeOf(v)
  {
    if B64Val(c).Some? {
      assert c as int == CodeOf(B64Val(c).value);
    }
  }

  /** Besides digits only line feeds, carriage returns, blanks and '=' (code points 10, 13, 32 and 61) are
      readable, and these have no value. */
  lemma ReadableByCode(text: string)
    ensures Readable(text) <==>
              forall k :: 0 <= k < |text| ==>
                text[k] as int in {10, 13, 32, 61} || exists v: Sextet :: text[k] as int == CodeOf(v)
  {
    forall k | 0 <= k < |text|
      ensures Legible(text[k]) <==>
                text[k] as int in {10, 13, 32, 61} || exists v: Sextet :: text[k] as int == CodeOf(v)
    {
      ValueOfCode(text[k]);
    }
  }

  /** The text without those four characters. */
  function Digits64(text: string): string {
    if text == "" then ""
    else
      var last := |text| - 1;
      Digits64(text[..last]) + (if text[last] as int in {10, 13, 32, 61} then "" else [text[last]])
  }

  /** The values read are those of the characters that remain, by table 1. */
  lemma {:induction false} ReadsDigits(text: string)
    requires Readable(text)
    ensures |SextetsOf(text)| == |Digits64(text)|
    ensures forall k :: 0 <= k < |Digits64(text)| ==> Digits64(text)[k] as int == CodeOf(SextetsOf(text)[k])
  {
    if text != "" {
      var last := |text| - 1;
      ReadsDigits(text[..last]);
      assert Legible(text[last]);
      ValueOfCode(text[last]);
    }
  }

  /** What is written for a value. */
  lemma CharByCode(v: nat)
    ensures Char(v) as int == CodeOf(v % 64)
  {
    CharIsDigit(v);
    ValueOfCode(Char(v));
  }

  lemma {:induction false} LeadingDigits(text: string, n: nat)
    requires n <= |text| && forall k :: 0 <= k < n ==> B64Val(text[k]).Some?
    requires forall k :: n <= k < |text| ==> text[k] == '='
    ensures |SextetsOf(text)| == n && forall k :: 0 <= k < n ==> B64Val(text[k]) == Some(SextetsOf(text)[k])
  {
    if text != "" {
      var last := |text| - 1;
      LeadingDigits(text[..last], if n <= last then n else last);
    }
  }

  /** The encoding of any bytes by code points: the digits of the sextets their bits fill, then `=`. */
  lemma EncodedByCode(bytes: seq<Byte>) returns (s: seq<Sextet>)
    ensures |s| == (8 * |bytes| + 5) / 6 && PaddedBits(bytes, s)
    ensures |Encoded(bytes)| == (|bytes| + 2) / 3 * 4 && |s| <= |Encoded(bytes)|
    ensures forall k :: 0 <= k < |s| ==> Encoded(bytes)[k] as int == CodeOf(s[k])
    ensures forall k :: |s| <= k < |Encoded(bytes)| ==> Encoded(bytes)[k] as int == 61
  {
    var text := Encoded(bytes);
    s := SextetsOf(text);
    EncodedIsEncoding(bytes);
    CountDigits(|bytes|);
    LeadingDigits(text, |s|);
    forall k | 0 <= k < |s|
      ensures text[k] as int == CodeOf(s[k])
    {
      ValueOfCode(text[k]);
    }
  }

  lemma CountDigits(n: nat)
    ensures (8 * n + 5) / 6 <= (n + 2) / 3 * 4
  {
  }

  lemma QuantumByCode(b0: Byte, b1: Byte, b2: Byte, c0: char, c1: char, c2: char, c3: char)
    requires c0 as int == CodeOf(b0 / 4) && c1 as int == CodeOf(b0 % 4 * 16 + b1 / 16)
    requires c2 as int == CodeOf(b1 % 16 * 4 + b2 / 64) && c3 as int == CodeOf(b2 % 64)
    ensures Quantum([b0, b1, b2]) == [c0, c1, c2, c3]
  {
    var v := GroupValue([b0, b1, b2]);
    GroupDigits(b0, b1, b2, v);
    CharByCode(v / 262144);
    CharByCode(v / 4096);
    CharByCode(v / 64);
    CharByCode(v);
    SameCode(Char(v / 262144), c0);
    SameCode(Char(v / 4096), c1);
    SameCode(Char(v / 64), c2);
    SameCode(Char(v), c3);
  }

  lemma SameCode(a: char, b: char)
    requires a as int == b as int
    ensures a == b
  {
  }

  lemma GroupDigits(b0: Byte, b1: Byte, b2: Byte, v: nat)
    requires v == b0 as int * 65536 + b1 as int * 256 + b2
    ensures v / 262144 % 64 == b0 / 4 && v / 4096 % 64 == b0 % 4 * 16 + b1 / 16
    ensures v / 64 % 64 == b1 % 16 * 4 + b2 / 64 && v % 64 == b2 % 64
  {
    FirstDigit(b0, b1, b2);
    SecondDigit(b0, b1, b2);
    ThirdDigit(b0, b1, b2);
    FourthDigit(b0, b1, b2);
  }

  lemma FirstDigit(b0: Byte, b1: Byte, b2: Byte)
    ensures (b0 as int * 65536 + b1 as int * 256 + b2) / 262144 % 64 == b0 / 4
  {
    assert (b0 as int * 65536 + b1 as int * 256 + b2) / 262144 == b0 / 4;
  }

  lemma SecondDigit(b0: Byte, b1: Byte, b2: Byte)
    ensures (b0 as int * 65536 + b1 as int * 256 + b2) / 4096 % 64 == b0 % 4 * 16 + b1 / 16
  {
    assert (b0 as int * 65536 + b1 as int * 256 + b2) / 4096 == b0 / 4 * 64 + (b0 % 4 * 16 + b1 / 16);
  }

  lemma ThirdDigit(b0: Byte, b1: Byte, b2: Byte)
    ensures (b0 as int * 65536 + b1 as int * 256 + b2) / 64 % 64 == b1 % 16 * 4 + b2 / 64
  {
    assert (b0 as int * 65536 + b1 as int * 256 + b2) / 64 == (b0 as int * 16 + b1 / 16) * 64 + (b1 % 16 * 4 + b2 / 64);
  }

  lemma FourthDigit(b0: Byte, b1: Byte, b2: Byte)
    ensures (b0 as int * 65536 + b1 as int * 256 + b2) % 64 == b2 % 64
  {
    assert b0 as int * 65536 + b1 as int * 256 + b2 == (b0 as int * 1024 + b1 as int * 4) * 64 + b2;
  }

  lemma EncodesThree(b0: Byte, b1: Byte, b2: Byte, rest: seq<Byte>)
    ensures Encoded([b0, b1, b2] + rest) == Quantum([b0, b1, b2]) + Encoded(rest)
  {
    var bytes := [b0, b1, b2] + rest;
    assert Group(bytes) == [b0, b1, b2] && From(bytes, 3) == rest;
  }

  lemma FoobarText()
    ensures ['Z', 'm', '9', 'v'] + ['Y', 'm', 'F', 'y'] == "Zm9vYmFy"
  {
  }

  lemma EncodesSix(b0: Byte, b1: Byte, b2: Byte, b3: Byte, b4: Byte, b5: Byte)
    ensures Encoded([b0, b1, b2] + [b3, b4, b5]) == Quantum([b0, b1, b2]) + Quantum([b3, b4, b5])
  {
    EncodesThree(b0, b1, b2, [b3, b4, b5]);
    EncodesThree(b3, b4, b5, []);
    assert [b3, b4, b5] + [] == [b3, b4, b5];
    assert Quantum([b3, b4, b5]) + "" == Quantum([b3, b4, b5]);
  }

  function FoobarBytes(): seq<Byte> {
    [102, 111, 111] + [98, 97, 114]
  }

  lemma EncodesFoobar()
    ensures Encoded(FoobarBytes()) == "Zm9vYmFy"
  {
    EncodesSix(102, 111, 111, 98, 97, 114);
    QuantumByCode(102, 111, 111, 'Z', 'm', '9', 'v');
    QuantumByCode(98, 97, 114, 'Y', 'm', 'F', 'y');
    FoobarText();
  }

  /** Section 10 of RFC 4648: "foobar" is Zm9vYmFy, both ways. */
  lemma Foobar()
    ensures Encoded(FoobarBytes()) == "Zm9vYmFy"
    ensures Readable("Zm9vYmFy") && Decodes("Zm9vYmFy", FoobarBytes())
  {
    EncodesFoobar();
    RoundTrip(FoobarBytes(), FoobarBytes());
  }
}
