/** Created times: `onvif_wsse_parse_created` of core/onvif_wsse.c. */
module CreatedTime {
  import opened CText
  import opened Calendar

  /** A number of at most `width` characters and the separator after it: the number and the rest. */
  function Item(s: string, width: nat, sep: char): Option<(int, string)> {
    match ScanInt(s, width)
    case None => None
    case Some((v, used)) =>
      if used < |s| && s[used] == sep then Some((v, s[used + 1..])) else None
  }

  datatype TimeStamp = TimeStamp(year: int, month: int, day: int, hour: int, minute: int, second: int)

  /** `sscanf(s, "%4d-%2d-%2dT%2d:%2d:%2d", ...) == 6`. */
  function ScanStamp(s: string): Option<TimeStamp> {
    match Item(s, 4, '-')
    case None => None
    case Some((y, s1)) => match Item(s1, 2, '-')
    case None => None
    case Some((mo, s2)) => match Item(s2, 2, 'T')
    case None => None
    case Some((d, s3)) => match Item(s3, 2, ':')
    case None => None
    case Some((h, s4)) => match Item(s4, 2, ':')
    case None => None
    case Some((mi, s5)) => match ScanInt(s5, 2)
    case None => None
    case Some((sec, _)) => Some(TimeStamp(y, mo, d, h, mi, sec))
  }

  function ParseCreated(s: string): Option<int> {
    match ScanStamp(s)
    case None => None
    case Some(t) => MomentOf(t)
  }

  function MomentOf(t: TimeStamp): Option<int> {
    if t.month < 1 || t.month > 12 || t.day < 1 || t.day > 31 then None
    else Some(Seconds(CreatedDays(t.year, t.month, t.day), t))
  }

  function Seconds(days: int, t: TimeStamp): int {
    days * 86400 + t.hour * 3600 + t.minute * 60 + t.second
  }

  // ----- the canonical form -----

  /** `n` in exactly `w` digits. */
  function Fixed(n: nat, w: nat): (s: string)
    ensures |s| == w && AllDigits(s)
  {
    if w == 0 then "" else Fixed(n / 10, w - 1) + [('0' as int + n % 10) as char]
  }

  lemma {:induction false} ValueOfFixed(n: nat, w: nat)
    requires n < Power10(w)
    ensures Value(Fixed(n, w)) == n
  {
    if w > 0 {
      ValueOfFixed(n / 10, w - 1);
      assert Fixed(n, w)[..w - 1] == Fixed(n / 10, w - 1);
    }
  }

  lemma ScanFixed(n: nat, w: nat, rest: string)
    requires 0 < w && n < Power10(w)
    ensures ScanInt(Fixed(n, w) + rest, w) == Some((n, w))
  {
    var digits := Fixed(n, w);
    var s := digits + rest;
    assert IsDigit(digits[0]) && s[0] == digits[0];
    assert SpaceRun(s) == 0;
    assert First(s[0..], w) == digits && digits[0..] == digits && digits[..w] == digits;
    DigitRunWhole(digits);
    ValueOfFixed(n, w);
  }

  lemma ItemFixed(n: nat, w: nat, sep: char, rest: string)
    requires 0 < w && n < Power10(w)
    ensures Item(Fixed(n, w) + ([sep] + rest), w, sep) == Some((n, rest))
  {
    ScanFixed(n, w, [sep] + rest);
    AfterSeparator(Fixed(n, w), sep, rest);
  }

  lemma AfterSeparator(a: string, sep: char, rest: string)
    ensures var s := a + ([sep] + rest);
            |a| < |s| && s[|a|] == sep && s[|a| + 1..] == rest
  {
  }

  /** YYYY-MM-DDTHH:MM:SS, followed by anything (a fraction, a zone). */
  function StampText(y: nat, mo: nat, d: nat, h: nat, mi: nat, sec: nat, rest: string): string {
    Fixed(y, 4) + (['-'] + (Fixed(mo, 2) + (['-'] + (Fixed(d, 2) + (['T'] +
    (Fixed(h, 2) + ([':'] + (Fixed(mi, 2) + ([':'] + (Fixed(sec, 2) + rest))))))))))
  }

  /** The canonical form, whatever follows it, is read as its six numbers. */
  lemma ScanStampText(y: nat, mo: nat, d: nat, h: nat, mi: nat, sec: nat, rest: string)
    requires y < 10000 && mo < 100 && d < 100 && h < 100 && mi < 100 && sec < 100
    ensures ScanStamp(StampText(y, mo, d, h, mi, sec, rest)) == Some(TimeStamp(y, mo, d, h, mi, sec))
  {
    assert Power10(2) == 100 && Power10(4) == 10000;
    var s5 := Fixed(sec, 2) + rest;
    var s4 := Fixed(mi, 2) + ([':'] + s5);
    var s3 := Fixed(h, 2) + ([':'] + s4);
    var s2 := Fixed(d, 2) + (['T'] + s3);
    var s1 := Fixed(mo, 2) + (['-'] + s2);
    ItemFixed(y, 4, '-', s1);
    ItemFixed(mo, 2, '-', s2);
    ItemFixed(d, 2, 'T', s3);
    ItemFixed(h, 2, ':', s4);
    ItemFixed(mi, 2, ':', s5);
    ScanFixed(sec, 2, rest);
  }

  // ----- what is a time stamp, and what is not -----

  /** A text that is a number of at most `width` characters, white space not counted. */
  predicate Numeral(a: string, width: nat, v: int) {
    Says(a, v) && |a| - SpaceRun(a) <= width
  }

  /** The six texts of a time stamp and what follows them. */
  datatype Parts = Parts(
    year: string, month: string, day: string, hour: string, minute: string, second: string, rest: string)

  /** `s` is y-m-dTh:m:s and anything that does not go on with the seconds. */
  predicate HasParts(s: string, p: Parts, t: TimeStamp) {
    && s == p.year + (['-'] + (p.month + (['-'] + (p.day + (['T'] +
            (p.hour + ([':'] + (p.minute + ([':'] + (p.second + p.rest))))))))))
    && Numeral(p.year, 4, t.year) && Numeral(p.month, 2, t.month) && Numeral(p.day, 2, t.day)
    && Numeral(p.hour, 2, t.hour) && Numeral(p.minute, 2, t.minute) && Numeral(p.second, 2, t.second)
    && (p.rest == "" || !IsDigit(p.rest[0]) || |p.second| - SpaceRun(p.second) == 2)
  }

  lemma AroundSeparator(s: string, k: nat)
    requires k < |s|
    ensures s == s[..k] + ([s[k]] + s[k + 1..])
  {
  }

  lemma ItemTakes(s: string, width: nat, sep: char, v: int, rest: string) returns (a: string)
    requires Item(s, width, sep) == Some((v, rest))
    ensures s == a + ([sep] + rest) && Numeral(a, width, v)
  {
    var used := ScanInt(s, width).value.1;
    ScanTakes(s, width, v, used);
    AroundSeparator(s, used);
    a := s[..used];
  }

  lemma ItemReads(a: string, width: nat, sep: char, v: int, rest: string)
    requires Numeral(a, width, v) && !IsDigit(sep)
    ensures Item(a + ([sep] + rest), width, sep) == Some((v, rest))
  {
    var s := a + ([sep] + rest);
    AfterSeparator(a, sep, rest);
    assert s[..|a|] == a;
    ScanTakes(s, width, v, |a|);
  }

  /** The reading of a time stamp, item by item. */
  predicate Reads(s: string, s1: string, s2: string, s3: string, s4: string, s5: string, n: nat, t: TimeStamp) {
    && Item(s, 4, '-') == Some((t.year, s1)) && Item(s1, 2, '-') == Some((t.month, s2))
    && Item(s2, 2, 'T') == Some((t.day, s3)) && Item(s3, 2, ':') == Some((t.hour, s4))
    && Item(s4, 2, ':') == Some((t.minute, s5)) && ScanInt(s5, 2) == Some((t.second, n))
  }

  lemma ReadsIsScan(s: string, s1: string, s2: string, s3: string, s4: string, s5: string, n: nat, t: TimeStamp)
    requires Reads(s, s1, s2, s3, s4, s5, n, t)
    ensures ScanStamp(s) == Some(t)
  {
  }

  lemma ScanReads(s: string, t: TimeStamp)
    returns (s1: string, s2: string, s3: string, s4: string, s5: string, n: nat)
    requires ScanStamp(s) == Some(t)
    ensures Reads(s, s1, s2, s3, s4, s5, n, t)
  {
    s1 := Item(s, 4, '-').value.1;
    s2 := Item(s1, 2, '-').value.1;
    s3 := Item(s2, 2, 'T').value.1;
    s4 := Item(s3, 2, ':').value.1;
    s5 := Item(s4, 2, ':').value.1;
    n := ScanInt(s5, 2).value.1;
  }

  lemma Chain(p: Parts, s: string, s1: string, s2: string, s3: string, s4: string)
    requires s == p.year + (['-'] + s1) && s1 == p.month + (['-'] + s2) && s2 == p.day + (['T'] + s3)
    requires s3 == p.hour + ([':'] + s4) && s4 == p.minute + ([':'] + (p.second + p.rest))
    ensures s == p.year + (['-'] + (p.month + (['-'] + (p.day + (['T'] +
                   (p.hour + ([':'] + (p.minute + ([':'] + (p.second + p.rest))))))))))
  {
  }

  lemma LastTakes(s: string, v: int, n: nat)
    requires ScanInt(s, 2) == Some((v, n))
    ensures n <= |s| && s == s[..n] + s[n..] && Numeral(s[..n], 2, v)
    ensures s[n..] == "" || !IsDigit(s[n..][0]) || n - SpaceRun(s[..n]) == 2
  {
    ScanTakes(s, 2, v, n);
  }

  lemma ReadsHasParts(s: string, s1: string, s2: string, s3: string, s4: string, s5: string, n: nat, t: TimeStamp)
    returns (p: Parts)
    requires Reads(s, s1, s2, s3, s4, s5, n, t)
    ensures HasParts(s, p, t)
  {
    var y := ItemTakes(s, 4, '-', t.year, s1);
    var mo := ItemTakes(s1, 2, '-', t.month, s2);
    var d := ItemTakes(s2, 2, 'T', t.day, s3);
    var h := ItemTakes(s3, 2, ':', t.hour, s4);
    var mi := ItemTakes(s4, 2, ':', t.minute, s5);
    LastTakes(s5, t.second, n);
    p := Parts(y, mo, d, h, mi, s5[..n], s5[n..]);
    Chain(p, s, s1, s2, s3, s4);
  }

  lemma LastReads(second: string, rest: string, v: int)
    requires Numeral(second, 2, v) && (rest == "" || !IsDigit(rest[0]) || |second| - SpaceRun(second) == 2)
    ensures ScanInt(second + rest, 2) == Some((v, |second|))
  {
    assert (second + rest)[..|second|] == second;
    ScanTakes(second + rest, 2, v, |second|);
  }

  lemma PartsAreRead(s: string, p: Parts, t: TimeStamp)
    returns (s1: string, s2: string, s3: string, s4: string, s5: string)
    requires HasParts(s, p, t)
    ensures Reads(s, s1, s2, s3, s4, s5, |p.second|, t)
  {
    s5 := p.second + p.rest;
    s4 := p.minute + ([':'] + s5);
    s3 := p.hour + ([':'] + s4);
    s2 := p.day + (['T'] + s3);
    s1 := p.month + (['-'] + s2);
    ItemReads(p.year, 4, '-', t.year, s1);
    ItemReads(p.month, 2, '-', t.month, s2);
    ItemReads(p.day, 2, 'T', t.day, s3);
    ItemReads(p.hour, 2, ':', t.hour, s4);
    ItemReads(p.minute, 2, ':', t.minute, s5);
    LastReads(p.second, p.rest, t.second);
  }

  /** Exactly the texts of that form are time stamps, and nothing else is. */
  lemma ScansExactly(s: string, t: TimeStamp)
    ensures ScanStamp(s) == Some(t) <==> exists p :: HasParts(s, p, t)
  {
    if ScanStamp(s) == Some(t) {
      var s1, s2, s3, s4, s5, n := ScanReads(s, t);
      var p := ReadsHasParts(s, s1, s2, s3, s4, s5, n, t);
    }
    if p :| HasParts(s, p, t) {
      var s1, s2, s3, s4, s5 := PartsAreRead(s, p, t);
      ReadsIsScan(s, s1, s2, s3, s4, s5, |p.second|, t);
    }
  }

  lemma DaysCount(y: int, mo: int, d: int)
    requires 1 <= mo <= 12 && 1 <= d <= 31
    ensures CreatedDays(y, mo, d) == DayCount(y, mo, d)
  {
    FormulasAgree(y, mo, d);
    DaysFromCivilCounts(y, mo, d);
  }

  /** A time stamp is read as the seconds since 1970-01-01 by the plain count of days; fraction and
      zone are ignored, months outside 1 to 12 and days outside 1 to 31 are refused, and a day past the
      end of its month runs on into the next. */
  lemma CreatedCounts(s: string, t: TimeStamp)
    requires ScanStamp(s) == Some(t)
    ensures ParseCreated(s) ==
            if 1 <= t.month <= 12 && 1 <= t.day <= 31 then
              Some(((DayCount(t.year, t.month, t.day) * 24 + t.hour) * 60 + t.minute) * 60 + t.second)
            else None
  {
    MomentCounts(t);
  }

  lemma MomentCounts(t: TimeStamp)
    ensures MomentOf(t) ==
            if 1 <= t.month <= 12 && 1 <= t.day <= 31 then
              Some(((DayCount(t.year, t.month, t.day) * 24 + t.hour) * 60 + t.minute) * 60 + t.second)
            else None
  {
    if 1 <= t.month <= 12 && 1 <= t.day <= 31 {
      DaysCount(t.year, t.month, t.day);
      SecondsOf(DayCount(t.year, t.month, t.day), t);
    }
  }

  lemma SecondsOf(days: int, t: TimeStamp)
    ensures Seconds(days, t) == ((days * 24 + t.hour) * 60 + t.minute) * 60 + t.second
  {
  }

  lemma ScansAs(s: string, t: TimeStamp)
    requires ScanStamp(s) == Some(t)
    ensures ParseCreated(s) == MomentOf(t)
  {
  }

  lemma ReadsAs(y: nat, mo: nat, d: nat, h: nat, mi: nat, sec: nat, rest: string)
    requires y < 10000 && mo < 100 && d < 100 && h < 100 && mi < 100 && sec < 100
    ensures ParseCreated(StampText(y, mo, d, h, mi, sec, rest)) == MomentOf(TimeStamp(y, mo, d, h, mi, sec))
  {
    ScanStampText(y, mo, d, h, mi, sec, rest);
    ScansAs(StampText(y, mo, d, h, mi, sec, rest), TimeStamp(y, mo, d, h, mi, sec));
  }

  lemma MomentInRange(y: nat, mo: nat, d: nat, h: nat, mi: nat, sec: nat)
    requires 1 <= mo <= 12 && 1 <= d <= 31
    ensures MomentOf(TimeStamp(y, mo, d, h, mi, sec)) == Some(((DayCount(y, mo, d) * 24 + h) * 60 + mi) * 60 + sec)
  {
    MomentCounts(TimeStamp(y, mo, d, h, mi, sec));
  }

  /** The canonical form, a fraction or zone behind it or not, is read as the moment it names. */
  lemma ReadsStampText(y: nat, mo: nat, d: nat, h: nat, mi: nat, sec: nat, rest: string)
    requires y < 10000 && 1 <= mo <= 12 && 1 <= d <= 31 && h < 100 && mi < 100 && sec < 100
    ensures ParseCreated(StampText(y, mo, d, h, mi, sec, rest)) ==
            Some(((DayCount(y, mo, d) * 24 + h) * 60 + mi) * 60 + sec)
  {
    ReadsAs(y, mo, d, h, mi, sec, rest);
    MomentInRange(y, mo, d, h, mi, sec);
  }

  /** Unless its month or its day is out of range. */
  lemma RefusesStampText(y: nat, mo: nat, d: nat, h: nat, mi: nat, sec: nat, rest: string)
    requires y < 10000 && mo < 100 && d < 100 && h < 100 && mi < 100 && sec < 100
    requires !(1 <= mo <= 12 && 1 <= d <= 31)
    ensures ParseCreated(StampText(y, mo, d, h, mi, sec, rest)) == None
  {
    ReadsAs(y, mo, d, h, mi, sec, rest);
  }
}

/** `onvif_wsse_verify` of core/onvif_wsse.c. */
module UsernameToken {
  import opened CText
  import opened Markup
  import opened WsseScan
  import opened CreatedTime
  import opened NonceCache
  import B = Base64
  import S = Sha1

  datatype Status = OK | NO_TOKEN | BAD_DIGEST | STALE | REPLAY | TEXT_REJECTED

  /** What is decided before the replay cache is looked at: a final status, or an accepted digest
      whose nonce hash the cache still has to admit. */
  datatype Verdict = Final(status: Status) | Fresh(hash: Digest, created: int)

  datatype Request = Request(
    envelope: Option<string>, username: Option<string>, password: Option<string>,
    now: int, window: int, allowText: bool)

  function Window(window: int): (w: int)
    ensures w > 0
  {
    if window <= 0 then 300 else window
  }

  function Abs(x: int): int {
    if x < 0 then -x else x
  }

  /** The nonce bytes, or nothing when it is not Base64 or too long for 192 bytes. */
  function DecodeNonce(text: string): Option<seq<Byte>> {
    if B.Readable(text) && 6 * |B.SextetsOf(text)| / 8 <= 192 then Some(B.FeedAll(text).done) else None
  }

  /** BASE64(SHA1(nonce + created + password)), with the code's SHA-1. */
  function Expected(nonce: seq<Byte>, created: string, password: string): string {
    B.Encoded(S.CodeDigest(nonce + BytesOf(created) + BytesOf(password)))
  }

  function SameBytes(a: string, b: string): bool {
    BytesOf(a) == BytesOf(b)
  }

  function JudgeDigest(r: Request, password: string, given: string, nonceText: string, created: string): Verdict {
    var t := ParseCreated(created);
    if t.None? then Final(STALE)
    else if Abs(r.now - t.value) > Window(r.window) then Final(STALE)
    else JudgeNonce(password, given, nonceText, created, t.value)
  }

  function JudgeNonce(password: string, given: string, nonceText: string, created: string, at: int): Verdict {
    var nonce := DecodeNonce(nonceText);
    if nonce.None? then Final(BAD_DIGEST)
    else if |nonce.value| + |created| + |password| + 1 > 512 then Final(BAD_DIGEST)
    else if !SameBytes(Expected(nonce.value, created, password), given) then Final(BAD_DIGEST)
    else Fresh(S.CodeDigest(nonce.value), at)
  }

  function Judge(r: Request): Verdict {
    if r.envelope.None? || r.password.None? || r.password.value == "" then Final(BAD_DIGEST)
    else
      var env, password := r.envelope.value, r.password.value;
      if !Contains(env, "UsernameToken") then Final(NO_TOKEN)
      else
        var user := Field(env, "Username", 64);
        var given := Field(env, "Password", 256);
        var nonce := Field(env, "Nonce", 256);
        var created := Field(env, "Created", 40);
        match JudgeFields(r, password, Contains(env, "#PasswordText"), user, given, nonce, created)
        case Decided(status) => Final(status)
        case NeedsDigest(g, n, c) => JudgeDigest(r, password, g, n, c)
  }

  /** What the fields alone decide. */
  datatype Stage = Decided(status: Status) | NeedsDigest(given: string, nonce: string, created: string)

  function JudgeFields(
      r: Request, password: string, plain: bool,
      user: Option<string>, given: Option<string>, nonce: Option<string>, created: Option<string>): Stage {
    if user.None? then Decided(NO_TOKEN)
    else if r.username.Some? && r.username.value != "" && user.value != r.username.value then Decided(BAD_DIGEST)
    else if given.None? then Decided(NO_TOKEN)
    else if plain then
      if !r.allowText then Decided(TEXT_REJECTED)
      else if given.value != password then Decided(BAD_DIGEST)
      else Decided(OK)
    else if nonce.None? || created.None? then Decided(BAD_DIGEST)
    else NeedsDigest(given.value, nonce.value, created.value)
  }

  /** The status, and the cache afterwards; without a cache there is no replay protection. */
  function Answer(r: Request, cache: Option<Cache>): (a: (Status, Option<Cache>))
    requires cache.Some? ==> IsCache(cache.value)
    ensures a.1.Some? ==> IsCache(a.1.value)
  {
    match Judge(r)
    case Final(status) => (status, cache)
    case Fresh(hash, created) =>
      if cache.None? then (OK, None)
      else
        var (ok, after) := Admit(cache.value, hash, created);
        (if ok then OK else REPLAY, Some(after))
  }

  // ----- the code -----

  method MemCopy(dst: array<Byte>, off: nat, src: seq<Byte>)
    requires off + |src| <= dst.Length
    modifies dst
    ensures dst[..off + |src|] == old(dst[..off]) + src
  {
    forall i | 0 <= i < |src| {
      dst[off + i] := src[i];
    }
  }

  lemma DecodedNonce(text: string, bytes: seq<Byte>)
    requires B.Decodes(text, bytes)
    ensures bytes == B.FeedAll(text).done
  {
    B.FedText(text);
    B.DecodingIsUnique(text, bytes, B.FeedAll(text).done);
  }

  method ReadNonce(text: string) returns (nonce: Option<seq<Byte>>)
    ensures nonce == DecodeNonce(text)
  {
    var raw := new Byte[192];
    var len := B.Decode(text, raw);
    if len < 0 {
      return None;
    }
    DecodedNonce(text, raw[..len]);
    return Some(raw[..len]);
  }

  lemma DigestTextLength(d: seq<Byte>)
    requires |d| == 20
    ensures |B.Encoded(d)| == 28
  {
    B.EncodedLength(d);
  }

  /** The digest the token should carry. */
  method ExpectedText(nonce: seq<Byte>, created: string, password: string) returns (text: string)
    requires |nonce| + |created| + |password| + 1 <= 512
    ensures text == Expected(nonce, created, password)
  {
    var payload := new Byte[512];
    MemCopy(payload, 0, nonce);
    var pl := |nonce|;
    MemCopy(payload, pl, BytesOf(created));
    pl := pl + |created|;
    MemCopy(payload, pl, BytesOf(password));
    pl := pl + |password|;
    assert payload[..pl] == nonce + BytesOf(created) + BytesOf(password);
    var digest := new Byte[20];
    S.Sha1(payload[..pl], digest);
    var b64 := new char[32];
    DigestTextLength(digest[..]);
    var n := B.Encode(digest[..], b64);
    text := b64[..n];
  }

  /** The comparison of the computed and the given digest. */
  method DigestMatches(expected: string, given: string) returns (same: bool)
    ensures same == SameBytes(expected, given)
  {
    if |expected| != |given| {
      return false;
    }
    same := MemEq(BytesOf(expected), BytesOf(given), |expected|);
    assert BytesOf(expected)[..|expected|] == BytesOf(expected) && BytesOf(given)[..|expected|] == BytesOf(given);
  }

  /** Nonces are remembered by their hash. */
  method HashOf(nonce: seq<Byte>) returns (hash: Digest)
    ensures hash == S.CodeDigest(nonce)
  {
    var h := new Byte[20];
    S.Sha1(nonce, h);
    hash := h[..];
  }

  /** The time window. */
  method InWindow(now: int, at: int, secs: int) returns (ok: bool)
    ensures ok == (Abs(now - at) <= Window(secs))
  {
    var window := if secs <= 0 then 300 else secs;
    var delta := now - at;
    if delta < 0 {
      delta := -delta;
    }
    ok := delta <= window;
  }

  method CheckDigest(r: Request, password: string, given: string, nonceText: string, created: string)
    returns (v: Verdict)
    ensures v == JudgeDigest(r, password, given, nonceText, created)
  {
    var t := ParseCreated(created);
    if t.None? {
      return Final(STALE);
    }
    var timely := InWindow(r.now, t.value, r.window);
    if !timely {
      return Final(STALE);
    }
    var nonce := ReadNonce(nonceText);
    if nonce.None? {
      return Final(BAD_DIGEST);
    }
    if |nonce.value| + |created| + |password| + 1 > 512 {
      return Final(BAD_DIGEST);
    }
    var expected := ExpectedText(nonce.value, created, password);
    var same := DigestMatches(expected, given);
    if !same {
      return Final(BAD_DIGEST);
    }
    var hash := HashOf(nonce.value);
    return Fresh(hash, t.value);
  }

  method CheckToken(r: Request) returns (v: Verdict)
    ensures v == Judge(r)
  {
    if r.envelope.None? || r.password.None? || r.password.value == "" {
      return Final(BAD_DIGEST);
    }
    var env, password := r.envelope.value, r.password.value;
    if !Contains(env, "UsernameToken") {
      return Final(NO_TOKEN);
    }
    var user := ReadElement(env, "Username", 64);
    if user.None? {
      return Final(NO_TOKEN);
    }
    if r.username.Some? && r.username.value != "" && user.value != r.username.value {
      return Final(BAD_DIGEST);
    }
    var given := ReadElement(env, "Password", 256);
    var nonce := ReadElement(env, "Nonce", 256);
    var created := ReadElement(env, "Created", 40);
    if given.None? {
      return Final(NO_TOKEN);
    }
    if Contains(env, "#PasswordText") {
      if !r.allowText {
        return Final(TEXT_REJECTED);
      }
      if given.value != password {
        return Final(BAD_DIGEST);
      }
      return Final(OK);
    }
    if nonce.None? || created.None? {
      return Final(BAD_DIGEST);
    }
    v := CheckDigest(r, password, given.value, nonce.value, created.value);
  }

  /** `onvif_wsse_verify` with a cache: only an accepted, unseen nonce changes it. */
  method Verify(r: Request, cache: NonceCache) returns (status: Status)
    requires cache.Valid()
    modifies cache, cache.nonceHash, cache.createdUnix, cache.used
    ensures cache.Valid()
    ensures (status, Some(cache.View())) == Answer(r, Some(old(cache.View())))
    ensures status != OK ==> cache.View() == old(cache.View())
  {
    var v := CheckToken(r);
    if v.Final? {
      return v.status;
    }
    var ok := cache.Check(v.hash, v.created);
    return if ok then OK else REPLAY;
  }

  /** `onvif_wsse_verify` without a cache. */
  method VerifyUncached(r: Request) returns (status: Status)
    ensures status == Answer(r, None).0
  {
    var v := CheckToken(r);
    return if v.Final? then v.status else OK;
  }
}
