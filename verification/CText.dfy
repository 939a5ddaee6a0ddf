/** The parts of the C library the repository leans on, as functions of strings.

A C string is the sequence of its characters; the terminator is the position after the last one. */
module CText {

  datatype Option<+T> = None | Some(value: T)

  type Byte = n: nat | n < 256

  /** A character stored through an `uint8_t` pointer. */
  function ByteOf(c: char): Byte {
    c as int % 256
  }

  function BytesOf(s: string): (b: seq<Byte>)
    ensures |b| == |s|
  {
    seq(|s|, i requires 0 <= i < |s| => ByteOf(s[i]))
  }

  /** Characters of eight bits are the bytes of their codes. */
  lemma BytesAreCodes(s: string)
    ensures |BytesOf(s)| == |s|
    ensures forall k :: 0 <= k < |s| && s[k] as int < 256 ==> BytesOf(s)[k] == s[k] as int
  {
  }

  /** `s[i]` read through a pointer: the terminator is readable, nothing after it is. */
  function At(s: string, i: nat): char
    requires i <= |s|
  {
    if i < |s| then s[i] else '\0'
  }

  lemma Associate<T>(a: seq<T>, b: seq<T>, c: seq<T>)
    ensures a + b + c == a + (b + c)
  {
  }

  // ----- searching -----

  /** Offset of the next `c` at or after `i`, or the length (`strchr(s + i, c)`). */
  function FindFrom(s: string, i: nat, c: char): (p: nat)
    requires i <= |s|
    ensures i <= p <= |s| && (p < |s| ==> s[p] == c)
    decreases |s| - i
  {
    if i == |s| || s[i] == c then i else FindFrom(s, i + 1, c)
  }

  lemma {:induction false} NothingBeforeFound(s: string, i: nat, c: char)
    requires i <= |s|
    ensures c !in s[i..FindFrom(s, i, c)]
    decreases |s| - i
  {
    if i < |s| && s[i] != c {
      NothingBeforeFound(s, i + 1, c);
      assert s[i..FindFrom(s, i, c)] == [s[i]] + s[i + 1..FindFrom(s, i, c)];
    }
  }

  lemma {:induction false} FindShifts(a: string, s: string, i: nat, c: char)
    requires i <= |s|
    ensures FindFrom(a + s, |a| + i, c) == |a| + FindFrom(s, i, c)
    decreases |s| - i
  {
    if i < |s| && s[i] != c {
      FindShifts(a, s, i + 1, c);
    }
  }

  lemma {:induction false} FindPast(a: string, b: string, rest: string, i: nat, c: char)
    requires i <= |b| && c !in b && (rest == "" || rest[0] == c)
    ensures FindFrom(a + b + rest, |a| + i, c) == |a| + |b|
    decreases |b| - i
  {
    if i < |b| {
      assert b[i] in b;
      FindPast(a, b, rest, i + 1, c);
    }
  }

  lemma SliceShifts(a: string, w: string, i: nat, j: nat)
    requires i <= j <= |w|
    ensures (a + w)[|a| + i..|a| + j] == w[i..j]
  {
  }

  /** `memchr(s + i, c, end - i)`: the next `c` in [i, end), or `end`. */
  method NextWithin(s: string, i: nat, end: nat, c: char) returns (p: nat)
    requires i <= end <= |s|
    ensures i <= p <= end
    ensures p == if FindFrom(s, i, c) < end then FindFrom(s, i, c) else end
  {
    p := i;
    while p < end && s[p] != c
      invariant i <= p <= end && FindFrom(s, i, c) == FindFrom(s, p, c)
    {
      p := p + 1;
    }
  }

  /** `strchr(s + i, c)`: the next `c` at or after `i`, or the length. */
  method NextChar(s: string, i: nat, c: char) returns (p: nat)
    requires i <= |s|
    ensures p == FindFrom(s, i, c)
  {
    p := NextWithin(s, i, |s|, c);
  }

  /** `strstr`: offset of the first occurrence of `part`. */
  function FindText(s: string, part: string): (r: Option<nat>)
    ensures r.Some? ==> r.value + |part| <= |s| && part <= s[r.value..]
  {
    if part <= s then Some(0)
    else if s == "" then None
    else match FindText(s[1..], part)
      case None => None
      case Some(k) => assert s[1..][k..] == s[k + 1..]; Some(k + 1)
  }

  /** `strstr` finds something. */
  predicate Contains(s: string, part: string) {
    FindText(s, part).Some?
  }

  /** `part` stands at `k`. */
  predicate Occurs(s: string, k: nat, part: string) {
    k + |part| <= |s| && s[k..k + |part|] == part
  }

  /** `FindText` finds the first place where `part` stands. */
  lemma {:induction false} FindTextIsFirst(s: string, part: string)
    ensures match FindText(s, part)
            case None => forall k :: 0 <= k ==> !Occurs(s, k, part)
            case Some(r) => Occurs(s, r, part) && forall k :: 0 <= k < r ==> !Occurs(s, k, part)
  {
    if !(part <= s) && s != "" {
      FindTextIsFirst(s[1..], part);
      forall k | 0 < k
        ensures Occurs(s, k, part) <==> Occurs(s[1..], k - 1, part)
      {
        if k + |part| <= |s| {
          assert s[1..][k - 1..k - 1 + |part|] == s[k..k + |part|];
        }
      }
    }
  }

  /** More text behind an occurrence does not change which one is the first. */
  lemma {:induction false} FindTextGrows(a: string, b: string, part: string)
    requires FindText(a, part).Some?
    ensures FindText(a + b, part) == FindText(a, part)
  {
    if part <= a {
      assert part <= a + b;
    } else {
      FindTextGrows(a[1..], b, part);
      assert (a + b)[1..] == a[1..] + b;
      NotYetThere(a, b, part);
    }
  }

  lemma NotYetThere(a: string, b: string, part: string)
    requires |part| <= |a| && !(part <= a)
    ensures !(part <= a + b)
  {
    assert (a + b)[..|part|] == a[..|part|];
  }

  /** Any occurrence makes `strstr` find one. */
  lemma {:induction false} OccursContains(before: string, part: string, after: string)
    ensures Contains(before + part + after, part)
  {
    var s := before + part + after;
    if before == "" {
      assert s == part + after;
      assert part <= s;
    } else {
      OccursContains(before[1..], part, after);
      assert s[1..] == before[1..] + part + after;
    }
  }

  // ----- numbers -----

  predicate IsSpace(c: char) {
    c == ' ' || '\t' <= c <= '\r'
  }

  predicate IsDigit(c: char) {
    '0' <= c <= '9'
  }

  predicate AllDigits(s: string) {
    forall c :: c in s ==> IsDigit(c)
  }

  predicate IsAlpha(c: char) {
    'A' <= c <= 'Z' || 'a' <= c <= 'z'
  }

  predicate IsAlnum(c: char) {
    IsAlpha(c) || IsDigit(c)
  }

  /** Number of leading white-space characters. */
  function SpaceRun(s: string): (k: nat)
    ensures k <= |s|
  {
    if s != "" && IsSpace(s[0]) then 1 + SpaceRun(s[1..]) else 0
  }

  /** Number of leading digits. */
  function DigitRun(s: string): (k: nat)
    ensures k <= |s| && AllDigits(s[..k])
    ensures k < |s| ==> !IsDigit(s[k])
  {
    if s != "" && IsDigit(s[0]) then
      assert s[..1 + DigitRun(s[1..])] == [s[0]] + s[1..][..DigitRun(s[1..])];
      1 + DigitRun(s[1..])
    else 0
  }

  function Value(s: string): nat
    requires AllDigits(s)
  {
    if s == "" then 0
    else
      assert IsDigit(s[|s| - 1]);
      10 * Value(s[..|s| - 1]) + (s[|s| - 1] as int - '0' as int)
  }

  /** A decimal number at the start of `s`, as `%<width>d` of `sscanf` and `strtol` read it: white
      space, then at most `width` characters of sign and digits. The result is the number and how
      many characters were used. */
  function ScanInt(s: string, width: nat): (r: Option<(int, nat)>)
    ensures r.Some? ==> 0 < r.value.1 <= |s|
  {
    var k := SpaceRun(s);
    Later(ScanSigned(First(s[k..], width)), k)
  }

  function Signed(negative: bool, v: int): int {
    if negative then -v else v
  }

  /** A result found `k` characters further on. */
  function Later(r: Option<(int, nat)>, k: nat): Option<(int, nat)> {
    match r
    case None => None
    case Some((v, used)) => Some((v, k + used))
  }

  /** The first `n` characters, or all there are. */
  function First(s: string, n: nat): string {
    if n < |s| then s[..n] else s
  }

  function ScanSigned(t: string): (r: Option<(int, nat)>)
    ensures r.Some? ==> 0 < r.value.1 <= |t|
  {
    if t == "" then None
    else if t[0] == '-' then ScanDigits(t, 1, true)
    else if t[0] == '+' then ScanDigits(t, 1, false)
    else ScanDigits(t, 0, false)
  }

  function ScanDigits(t: string, sign: nat, negative: bool): (r: Option<(int, nat)>)
    requires sign <= |t|
    ensures r.Some? ==> sign < r.value.1 <= |t|
  {
    var run := DigitRun(t[sign..]);
    if run == 0 then None else Some((Signed(negative, Value(t[sign..][..run])), sign + run))
  }

  /** `atoi`. */
  function Atoi(s: string): int {
    match ScanInt(s, |s|)
    case None => 0
    case Some(r) => r.0
  }

  /** `%d`. */
  function Decimal(n: int): string {
    if n < 0 then "-" + Digits(-n) else Digits(n)
  }

  function Digits(n: nat): (s: string)
    ensures s != "" && AllDigits(s)
  {
    (if n < 10 then "" else Digits(n / 10)) + [('0' as int + n % 10) as char]
  }

  lemma ValueOfAppended(s: string, d: nat)
    requires AllDigits(s) && d < 10
    ensures AllDigits(s + [('0' as int + d) as char]) && Value(s + [('0' as int + d) as char]) == 10 * Value(s) + d
  {
    var t := s + [('0' as int + d) as char];
    assert t[..|t| - 1] == s;
  }

  lemma {:induction false} ValueOfDigits(n: nat)
    ensures Value(Digits(n)) == n
  {
    if n >= 10 {
      ValueOfDigits(n / 10);
    }
    ValueOfAppended(if n < 10 then "" else Digits(n / 10), n % 10);
  }

  /** A number of at most `w` digits prints in at most `w` characters. */
  lemma {:induction false} DigitsLength(n: nat, w: nat, bound: nat)
    requires w >= 1 && n < bound && bound == Power10(w)
    ensures |Digits(n)| <= w
  {
    if n >= 10 {
      DigitsLength(n / 10, w - 1, Power10(w - 1));
    }
  }

  function Power10(w: nat): nat {
    if w == 0 then 1 else 10 * Power10(w - 1)
  }

  lemma DigitRunWhole(s: string)
    requires AllDigits(s)
    ensures DigitRun(s) == |s|
  {
    if s != "" { DigitRunWhole(s[1..]); }
  }

  lemma {:induction false} DigitRunStops(digits: string, after: string)
    requires AllDigits(digits) && (after == "" || !IsDigit(after[0]))
    ensures DigitRun(digits + after) == |digits|
  {
    if digits == "" {
      assert digits + after == after;
    } else {
      assert IsDigit(digits[0]) && (digits + after)[1..] == digits[1..] + after;
      DigitRunStops(digits[1..], after);
    }
  }

  /** `s` is white space, a sign or none, and digits that say `v`. The white space ends at `k`. */
  predicate SaysFrom(s: string, k: nat, v: int) {
    && k < |s|
    && (forall i :: 0 <= i < k ==> IsSpace(s[i]))
    && SaysSigned(s[k..], v)
  }

  /** A sign or none, and digits that say `v`. */
  predicate SaysSigned(t: string, v: int)
    requires t != ""
  {
    if t[0] == '-' then SaysDigits(t[1..], -v)
    else if t[0] == '+' then SaysDigits(t[1..], v)
    else SaysDigits(t, v)
  }

  predicate SaysDigits(digits: string, v: int) {
    digits != "" && AllDigits(digits) && v == Value(digits)
  }

  /** The whole of `s` is one decimal number. */
  predicate Says(s: string, v: int) {
    exists k :: 0 <= k < |s| && SaysFrom(s, k, v)
  }

  lemma {:induction false} SpacesRun(s: string)
    ensures forall i :: 0 <= i < SpaceRun(s) ==> IsSpace(s[i])
    ensures SpaceRun(s) < |s| ==> !IsSpace(s[SpaceRun(s)])
  {
    if s != "" && IsSpace(s[0]) {
      SpacesRun(s[1..]);
      forall i | 0 < i < SpaceRun(s)
        ensures IsSpace(s[i])
      {
        assert s[i] == s[1..][i - 1];
      }
    }
  }

  lemma SaysAtTheRun(s: string, k: nat, v: int)
    requires SaysFrom(s, k, v)
    ensures SpaceRun(s) == k
  {
    SpacesRun(s);
    assert s[k] == s[k..][0];
    if s[k] != '-' && s[k] != '+' {
      assert s[k] in s[k..];
    }
    assert !IsSpace(s[k]);
  }

  /** `v` is the number in the first `n` characters of `s`, without white space at most `width`, and it
      does not go on behind them. */
  predicate Takes(s: string, width: nat, v: int, n: nat) {
    && n <= |s| && Says(s[..n], v)
    && var k := SpaceRun(s[..n]);
    && n - k <= width && (n == |s| || !IsDigit(s[n]) || n - k == width)
  }

  lemma RunThen(u: string, digits: string, after: string)
    requires u == digits + after && AllDigits(digits) && (after == "" || !IsDigit(after[0]))
    ensures DigitRun(u) == |digits| && u[..|digits|] == digits
  {
    DigitRunStops(digits, after);
  }

  lemma DigitsTake(t: string, sign: nat, negative: bool, v: int, m: nat)
    requires sign <= |t|
    ensures ScanDigits(t, sign, negative) == Some((v, m)) <==>
            sign < m <= |t| && SaysDigits(t[sign..m], Signed(negative, v)) && (m == |t| || !IsDigit(t[m]))
  {
    var u, run := t[sign..], DigitRun(t[sign..]);
    assert u[..run] == t[sign..sign + run];
    if sign < m <= |t| && AllDigits(t[sign..m]) && (m == |t| || !IsDigit(t[m])) {
      assert u == t[sign..m] + t[m..];
      RunThen(u, t[sign..m], t[m..]);
    }
  }

  lemma SignedTakes(t: string, v: int, m: nat)
    requires t != ""
    ensures ScanSigned(t) == Some((v, m)) <==>
            0 < m <= |t| && SaysSigned(t[..m], v) && (m == |t| || !IsDigit(t[m]))
  {
    DigitsTake(t, 1, true, v, m);
    DigitsTake(t, 1, false, v, m);
    DigitsTake(t, 0, false, v, m);
    if 0 < m <= |t| {
      assert t[..m][1..] == t[1..m] && t[0..m] == t[..m];
    }
  }

  /** `%<width>d` takes exactly what `Takes` says, for every text. */
  lemma ScanTakes(s: string, width: nat, v: int, n: nat)
    ensures ScanInt(s, width) == Some((v, n)) <==> Takes(s, width, v, n)
  {
    if Takes(s, width, v, n) {
      TakesIsScanned(s, width, v, n);
    }
    if ScanInt(s, width) == Some((v, n)) {
      ScannedTakes(s, width, v, n);
    }
  }

  lemma ScannedTakes(s: string, width: nat, v: int, n: nat)
    requires ScanInt(s, width) == Some((v, n))
    ensures Takes(s, width, v, n)
  {
    var k := SpaceRun(s);
    var t := First(s[k..], width);
    SpacesRun(s);
    SignedTakes(t, v, n - k);
    assert s[..n][k..] == t[..n - k];
    assert SaysFrom(s[..n], k, v);
    SaysAtTheRun(s[..n], k, v);
  }

  lemma TakesIsScanned(s: string, width: nat, v: int, n: nat)
    requires Takes(s, width, v, n)
    ensures ScanInt(s, width) == Some((v, n))
  {
    var k :| 0 <= k < n && SaysFrom(s[..n], k, v);
    SaysAtTheRun(s[..n], k, v);
    SaysInside(s, k, n, v);
    TokenOf(s, width, k, n);
    SignedTakes(First(s[k..], width), v, n - k);
  }

  lemma TokenOf(s: string, width: nat, k: nat, n: nat)
    requires k < n <= |s| && n - k <= width && (n == |s| || !IsDigit(s[n]) || n - k == width)
    ensures var t := First(s[k..], width);
            n - k <= |t| && t[..n - k] == s[..n][k..] && (n - k == |t| || !IsDigit(t[n - k]))
  {
  }

  lemma SaysInside(s: string, k: nat, n: nat, v: int)
    requires n <= |s| && SaysFrom(s[..n], k, v)
    ensures SpaceRun(s) == k
  {
    SaysAtTheRun(s[..n], k, v);
    SpacesRun(s[..n]);
    SpacesRun(s);
    assert forall i :: 0 <= i <= k ==> s[..n][i] == s[i];
  }

  /** `strtol` uses a whole text exactly when that says a number. */
  lemma ScansWhole(s: string, v: int)
    ensures ScanInt(s, |s|) == Some((v, |s|)) <==> Says(s, v)
  {
    ScanTakes(s, |s|, v, |s|);
    assert s[..|s|] == s;
  }

  lemma DecimalSays(n: int)
    ensures Says(Decimal(n), n)
  {
    var digits := Digits(if n < 0 then -n else n);
    ValueOfDigits(if n < 0 then -n else n);
    assert digits[0] in digits;
    assert Decimal(n)[0..] == Decimal(n) && ("-" + digits)[1..] == digits;
    assert SaysFrom(Decimal(n), 0, n);
  }

  /** `atoi` reads a number at the start of a text. */
  lemma AtoiReads(s: string, v: int, after: string)
    requires Says(s, v) && (after == "" || !IsDigit(after[0]))
    ensures Atoi(s + after) == v
  {
    assert (s + after)[..|s|] == s;
    ScanTakes(s + after, |s + after|, v, |s|);
  }

  /** And gives zero when there is none. */
  lemma AtoiWithoutNumber(s: string)
    requires forall n, v :: 0 <= n <= |s| ==> !Says(s[..n], v)
    ensures Atoi(s) == 0
  {
    var r := ScanInt(s, |s|);
    if r.Some? {
      ScanTakes(s, |s|, r.value.0, r.value.1);
    }
  }

  /** `atoi` reads a printed number, whatever follows it. */
  lemma AtoiPrinted(n: int, after: string)
    requires after == "" || !IsDigit(after[0])
    ensures Atoi(Decimal(n) + after) == n
  {
    DecimalSays(n);
    AtoiReads(Decimal(n), n, after);
  }

  /** Reading back a printed number uses the whole text and gives the number. */
  lemma ScanPrinted(n: int)
    ensures ScanInt(Decimal(n), |Decimal(n)|) == Some((n, |Decimal(n)|))
  {
    DecimalSays(n);
    ScansWhole(Decimal(n), n);
  }

  /** What digits are, written out. */
  lemma DecimalExamples()
    ensures Decimal(2024) == "2024" && Decimal(-360) == "-360" && Decimal(0) == "0"
    ensures Says(" +42", 42) && Says("-6", -6)
  {
    DigitsOfNumbers();
    ValuesOfDigits();
    assert " +42"[1..][1..] == "42" && "-6"[0..][1..] == "6";
    assert SaysFrom(" +42", 1, 42);
    assert SaysFrom("-6", 0, -6);
  }

  lemma DigitsOfNumbers()
    ensures Digits(2024) == "2024" && Digits(360) == "360" && Digits(0) == "0"
  {
    assert Digits(2) == "2" && Digits(20) == "20" && Digits(202) == "202";
    assert Digits(3) == "3" && Digits(36) == "36";
  }

  lemma ValuesOfDigits()
    ensures Value("42") == 42 && Value("6") == 6
  {
    assert "42"[..1] == "4" && "4"[..0] == "" && "6"[..0] == "";
  }

  // ----- snprintf -----

  /** `snprintf(buf + off, n, "%s", text)`: writes what fits, always terminates when `n > 0`, and
      returns the length the whole text would have had. */
  method Snprintf(buf: array<char>, off: nat, n: nat, text: string) returns (w: nat)
    requires off + n <= buf.Length
    modifies buf
    ensures w == |text|
    ensures buf[..off] == old(buf[..off]) && buf[off + n..] == old(buf[off + n..])
    ensures n > |text| ==> buf[off..off + |text|] == text && buf[off + |text|] == '\0'
    ensures 0 < n <= |text| ==> buf[off..off + n - 1] == text[..n - 1] && buf[off + n - 1] == '\0'
  {
    if n > 0 {
      var k := if |text| < n then |text| else n - 1;
      forall i | 0 <= i < k {
        buf[off + i] := text[i];
      }
      buf[off + k] := '\0';
    }
    w := |text|;
  }

  /** `text` printed into a whole buffer: `w` is its length; below the size the buffer holds all of it,
      otherwise the longest prefix that leaves room for the terminator. */
  ghost predicate Printed(buf: array<char>, text: string, w: nat)
    reads buf
  {
    && w == |text|
    && (w < buf.Length ==> buf[..w] == text && buf[w] == '\0')
    && (0 < buf.Length <= w ==> buf[..buf.Length - 1] == text[..buf.Length - 1] && buf[buf.Length - 1] == '\0')
  }

  method PrintWhole(buf: array<char>, text: string) returns (w: nat)
    modifies buf
    ensures Printed(buf, text, w)
  {
    w := Snprintf(buf, 0, buf.Length, text);
  }
}
