/** Concrete envelopes for what TokenRules says about long nonces and long names. */
module TokenExamples {
  import opened CText
  import opened Markup
  import opened WsseScan
  import opened CreatedTime
  import opened Calendar
  import opened NonceCache
  import opened UsernameToken
  import opened TokenRules
  import B = Base64
  import S = Sha1

  // ----- the texts -----

  /** `n` times the Base64 digit of value zero: the nonce of 3n/4 zero bytes. */
  function Zeroes(n: nat): (text: string)
    ensures |text| == n && (forall k :: 0 <= k < n ==> text[k] == 'A')
  {
    seq(n, _ => 'A')
  }

  /** The Base64 of the initial chaining value. */
  function Given(): string {
    B.Encoded(S.DigestBytes(S.H0))
  }

  /** 2020-01-01T00:00:00 */
  function CreatedText(): string {
    StampText(2020, 1, 1, 0, 0, 0, "")
  }

  /** That moment, in seconds since 1970-01-01. */
  const NOW := 1577836800

  // ----- the document -----

  function Pair(local: string, text: string): seq<Tag> {
    [Open(Name("", local), "", text), Close(Name("", local), "")]
  }

  function Document(user: string, given: string, n: nat): seq<Tag> {
    Pair("UsernameToken", "")
    + (Pair("Username", user)
    + (Pair("Password", given)
    + (Pair("Nonce", Zeroes(n))
    + Pair("Created", CreatedText()))))
  }

  function TokenIn(user: string, given: string, n: nat): Token {
    Token(Clipped(user, 64), given, Zeroes(n), CreatedText())
  }

  function RequestFor(user: string, given: string, n: nat, expected: string, password: string): Request {
    Request(Some(Render(Document(user, given, n))), Some(expected), Some(password), NOW, 300, false)
  }

  /** The same envelope whatever the password the camera is set to. */
  function SampleRequest(n: nat, password: string): Request {
    RequestFor("u", Given(), n, "u", password)
  }

  // ----- it is a document without '#' -----

  /** A text with neither '<' nor '#'. */
  predicate Clean(text: string) {
    '<' !in text && '#' !in text
  }

  lemma PairIsClean(local: string, text: string)
    requires IsName(local) && Clean(text)
    ensures AllClean(Pair(local, text))
  {
  }

  predicate AllClean(tags: seq<Tag>) {
    forall k :: 0 <= k < |tags| ==>
      Strict(tags[k]) && '#' !in Body(tags[k]) && !RunsOn(tags[k]) && !tags[k].Misc?
  }

  lemma BothClean(a: seq<Tag>, b: seq<Tag>)
    requires AllClean(a) && AllClean(b)
    ensures AllClean(a + b)
  {
  }

  lemma {:induction false} CleanRender(tags: seq<Tag>)
    requires AllClean(tags)
    ensures '#' !in Render(tags)
  {
    if tags != [] {
      CleanRender(tags[1..]);
    }
  }

  lemma PartBrings(s: string, part: string)
    requires part != ""
    ensures Contains(s, part) ==> part[0] in s
  {
    var r := FindText(s, part);
    if r.Some? {
      assert s[r.value] == s[r.value..][0] == part[0];
    }
  }

  lemma FixedIsClean(n: nat, w: nat)
    ensures Clean(Fixed(n, w))
  {
  }

  lemma CleanSum(a: string, b: string)
    requires Clean(a) && Clean(b)
    ensures Clean(a + b)
  {
  }

  lemma SeparatedIsClean(n: nat, w: nat, sep: char, rest: string)
    requires Clean(rest) && sep != '<' && sep != '#'
    ensures Clean(Fixed(n, w) + ([sep] + rest)) && |Fixed(n, w) + ([sep] + rest)| == w + 1 + |rest|
  {
    FixedIsClean(n, w);
    CleanSum([sep], rest);
    CleanSum(Fixed(n, w), [sep] + rest);
  }

  lemma StampIsClean(y: nat, mo: nat, d: nat, h: nat, mi: nat, sec: nat)
    ensures Clean(StampText(y, mo, d, h, mi, sec, "")) && |StampText(y, mo, d, h, mi, sec, "")| == 19
  {
    var s5 := Fixed(sec, 2) + "";
    var s4 := Fixed(mi, 2) + ([':'] + s5);
    var s3 := Fixed(h, 2) + ([':'] + s4);
    var s2 := Fixed(d, 2) + (['T'] + s3);
    var s1 := Fixed(mo, 2) + (['-'] + s2);
    FixedIsClean(sec, 2);
    SeparatedIsClean(mi, 2, ':', s5);
    SeparatedIsClean(h, 2, ':', s4);
    SeparatedIsClean(d, 2, 'T', s3);
    SeparatedIsClean(mo, 2, '-', s2);
    SeparatedIsClean(y, 4, '-', s1);
  }

  lemma EncodedIsClean(bytes: seq<Byte>)
    ensures Clean(B.Encoded(bytes)) && EightBit(B.Encoded(bytes))
  {
    B.EncodedIsEncoding(bytes);
    EncodedIsEightBit(bytes);
    var text := B.Encoded(bytes);
    forall k | 0 <= k < |text|
      ensures text[k] != '<' && text[k] != '#'
    {
      assert B.B64Val(text[k]).Some? || text[k] == '=';
    }
  }

  lemma TokenNames()
    ensures IsName("UsernameToken") && IsName("Username") && IsName("Password") && IsName("Nonce") && IsName("Created")
  {
  }

  lemma DocumentIsClean(user: string, given: string, n: nat)
    requires Clean(user) && Clean(given)
    ensures AllClean(Document(user, given, n))
  {
    var nonce, created := Zeroes(n), CreatedText();
    TokenNames();
    StampIsClean(2020, 1, 1, 0, 0, 0);
    PairIsClean("UsernameToken", "");
    PairIsClean("Username", user);
    PairIsClean("Password", given);
    PairIsClean("Nonce", nonce);
    PairIsClean("Created", created);
    var last := Pair("Nonce", nonce) + Pair("Created", created);
    BothClean(Pair("Nonce", nonce), Pair("Created", created));
    BothClean(Pair("Password", given), last);
    BothClean(Pair("Username", user), Pair("Password", given) + last);
    BothClean(Pair("UsernameToken", ""), Pair("Username", user) + (Pair("Password", given) + last));
  }

  lemma CleanIsStrict(tags: seq<Tag>, tag: string)
    requires AllClean(tags)
    ensures AllStrict(tags, tag)
  {
  }

  // ----- its fields -----

  lemma PairField(local: string, text: string, rest: seq<Tag>, tag: string)
    ensures FieldOf(Pair(local, text) + rest, tag) == if local == tag then Some(text) else FieldOf(rest, tag)
  {
    var tags := Pair(local, text) + rest;
    assert tags[1..] == [Close(Name("", local), "")] + rest;
    assert tags[1..][1..] == rest;
  }

  lemma NamesDiffer()
    ensures "UsernameToken" != "Username" && "UsernameToken" != "Password" && "UsernameToken" != "Nonce"
    ensures "UsernameToken" != "Created" && "Username" != "Password" && "Username" != "Nonce" && "Username" != "Created"
    ensures "Password" != "Nonce" && "Password" != "Created" && "Nonce" != "Created"
  {
    assert |"UsernameToken"| == 13 && "Username"[0] == 'U' && "Password"[0] == 'P' && "Nonce"[0] == 'N';
    assert "Created"[0] == 'C' && |"Username"| == 8;
  }

  lemma FieldsOf(a: string, b: string, c: string, d: string, tag: string)
    ensures var rest := Pair("Password", b) + (Pair("Nonce", c) + Pair("Created", d));
            var tags := Pair("UsernameToken", "") + (Pair("Username", a) + rest);
            && (tag == "Username" ==> FieldOf(tags, tag) == Some(a))
            && (tag == "Password" ==> FieldOf(tags, tag) == Some(b))
            && (tag == "Nonce" ==> FieldOf(tags, tag) == Some(c))
            && (tag == "Created" ==> FieldOf(tags, tag) == Some(d))
  {
    var last := Pair("Created", d);
    NamesDiffer();
    PairField("UsernameToken", "", Pair("Username", a) + (Pair("Password", b) + (Pair("Nonce", c) + last)), tag);
    PairField("Username", a, Pair("Password", b) + (Pair("Nonce", c) + last), tag);
    PairField("Password", b, Pair("Nonce", c) + last, tag);
    PairField("Nonce", c, last, tag);
    assert last + [] == last;
    PairField("Created", d, [], tag);
  }

  lemma DocumentHasFields(user: string, given: string, n: nat)
    requires n < 256 && |given| < 256
    ensures HasFields(Document(user, given, n), TokenIn(user, given, n))
    ensures FieldOf(Document(user, given, n), "Username") == Some(user)
  {
    FieldsOf(user, given, Zeroes(n), CreatedText(), "Username");
    FieldsOf(user, given, Zeroes(n), CreatedText(), "Password");
    FieldsOf(user, given, Zeroes(n), CreatedText(), "Nonce");
    FieldsOf(user, given, Zeroes(n), CreatedText(), "Created");
    StampIsClean(2020, 1, 1, 0, 0, 0);
  }

  lemma DocumentCarries(user: string, given: string, n: nat, expected: string, password: string)
    requires n < 256 && |given| < 256 && Clean(user) && Clean(given)
    ensures Carries(RequestFor(user, given, n, expected, password), "",
                    Document(user, given, n), TokenIn(user, given, n))
  {
    var tags := Document(user, given, n);
    DocumentIsClean(user, given, n);
    CleanIsStrict(tags, "Username");
    CleanIsStrict(tags, "Password");
    CleanIsStrict(tags, "Nonce");
    CleanIsStrict(tags, "Created");
    CleanRender(tags);
    assert "" + Render(tags) == Render(tags);
    PartBrings(Render(tags), "#PasswordText");
    DocumentHasFields(user, given, n);
    assert IsElement(tags[0], "UsernameToken");
  }

  // ----- its nonce and its time -----

  lemma {:induction false} ZeroesAreDigits(text: string)
    requires forall k :: 0 <= k < |text| ==> text[k] == 'A'
    ensures B.Readable(text) && |B.SextetsOf(text)| == |text|
  {
    if text != "" {
      assert B.B64Val('A') == Some(0);
      ZeroesAreDigits(text[..|text| - 1]);
    }
  }

  /** The bytes the nonce text stands for. */
  function NonceBytes(n: nat): seq<Byte> {
    B.FeedAll(Zeroes(n)).done
  }

  lemma SampleNonce(n: nat)
    ensures B.Readable(Zeroes(n)) && B.Decodes(Zeroes(n), NonceBytes(n)) && |NonceBytes(n)| == 6 * n / 8
  {
    ZeroesAreDigits(Zeroes(n));
    B.FedText(Zeroes(n));
  }

  lemma SampleTime()
    ensures ParseCreated(CreatedText()) == Some(NOW)
  {
    ReadsAs(2020, 1, 1, 0, 0, 0, "");
    SampleMoment();
  }

  lemma SampleMoment()
    ensures MomentOf(TimeStamp(2020, 1, 1, 0, 0, 0)) == Some(NOW)
  {
  }

  lemma IsTimely(r: Request, t: Token)
    requires r.window > 0 && ParseCreated(t.created) == Some(r.now)
    ensures Timely(r, t)
  {
  }

  /** With the text wanted such a request is right exactly when the user is. */
  lemma DocumentIsRight(user: string, given: string, n: nat, expected: string, password: string)
    requires n < 256 && 6 * n / 8 + 19 + |password| < 512
    requires given == Wanted(NonceBytes(n), TokenIn(user, given, n), password)
    ensures var r, t := RequestFor(user, given, n, expected, password), TokenIn(user, given, n);
            Right(r, t, NonceBytes(n)) <==> RightUser(r, t)
  {
    SampleNonce(n);
    SampleTime();
    StampIsClean(2020, 1, 1, 0, 0, 0);
    IsTimely(RequestFor(user, given, n, expected, password), TokenIn(user, given, n));
  }

  lemma DocumentAnswer(user: string, given: string, n: nat, expected: string, password: string, cache: Cache)
    requires IsCache(cache) && n < 256 && password != "" && 6 * n / 8 + 19 + |password| < 512
    requires given == Wanted(NonceBytes(n), TokenIn(user, given, n), password)
    requires Clean(user) && Clean(given) && EightBit(given) && |given| < 256
    ensures var r, t := RequestFor(user, given, n, expected, password), TokenIn(user, given, n);
            var (status, after) := Answer(r, Some(cache));
            var hash := S.CodeDigest(NonceBytes(n));
            && (status == OK <==> RightUser(r, t) && !Seen(cache, hash))
            && (status == REPLAY <==> RightUser(r, t) && Seen(cache, hash))
            && (status == OK ==> after == Some(Stored(cache, hash, NOW)))
  {
    SampleNonce(n);
    SampleTime();
    DocumentCarries(user, given, n, expected, password);
    DocumentIsRight(user, given, n, expected, password);
    AnswersDigestTokens(RequestFor(user, given, n, expected, password), "", Document(user, given, n),
                        TokenIn(user, given, n), NonceBytes(n), cache);
  }

  // ----- long nonces -----

  lemma LongWanted(nonce: seq<Byte>, t: Token, password: string)
    requires Length(nonce, t, password) > 119
    ensures Wanted(nonce, t, password) == Given()
  {
  }

  lemma SampleAnswer(n: nat, password: string, cache: Cache)
    requires IsCache(cache) && 160 <= n < 256 && password != "" && 6 * n / 8 + 19 + |password| < 512
    ensures var (status, after) := Answer(SampleRequest(n, password), Some(cache));
            var hash := S.DigestBytes(S.H0);
            if Seen(cache, hash) then status == REPLAY
            else status == OK && after == Some(Stored(cache, hash, NOW))
  {
    SampleNonce(n);
    LongWanted(NonceBytes(n), TokenIn("u", Given(), n), password);
    EncodedIsClean(S.DigestBytes(S.H0));
    DigestTextLength(S.DigestBytes(S.H0));
    DocumentAnswer("u", Given(), n, "u", password, cache);
  }

  /** Where OK does not mean the profile's digest: with a nonce of 120 bytes this one envelope is
      accepted whatever the password is, as long as it fits. */
  lemma OneEnvelopeFitsEveryPassword(password: string)
    requires password != "" && 120 + 19 + |password| < 512
    ensures Answer(SampleRequest(160, password), Some(Zeroed())).0 == OK
  {
    SampleAnswer(160, password, Zeroed());
  }

  /** Where REPLAY does not mean a used nonce: once the nonce of 120 bytes is accepted, one of 123
      bytes, never used before, is refused. */
  lemma AnotherLongNonceIsRefused(password: string)
    requires password != "" && 123 + 19 + |password| < 512
    ensures var (first, cache) := Answer(SampleRequest(160, password), Some(Zeroed()));
            first == OK && Answer(SampleRequest(164, password), cache).0 == REPLAY
  {
    var hash := S.DigestBytes(S.H0);
    SampleAnswer(160, password, Zeroed());
    var cache := Stored(Zeroed(), hash, NOW);
    assert cache.used[0] && cache.hashes[0] == hash;
    SampleAnswer(164, password, cache);
  }

  // ----- long names -----

  /** A name of `n` letters. */
  function LongName(n: nat): (name: string)
    ensures |name| == n
  {
    seq(n, _ => 'u')
  }

  /** The digest the profile wants for a nonce of three zero bytes. */
  function RightGiven(password: string): string {
    ProfileDigest(NonceBytes(4), CreatedText(), password)
  }

  lemma RightDocument(user: string, expected: string, password: string)
    requires Clean(user) && password != "" && 3 + 19 + |password| <= 119
    ensures var r := RequestFor(user, RightGiven(password), 4, expected, password);
            var t := TokenIn(user, RightGiven(password), 4);
            Answer(r, Some(Zeroed())).0 == OK <==> RightUser(r, t)
  {
    var given := RightGiven(password);
    var m := NonceBytes(4) + BytesOf(CreatedText()) + BytesOf(password);
    SampleNonce(4);
    StampIsClean(2020, 1, 1, 0, 0, 0);
    ShortWanted(NonceBytes(4), TokenIn(user, given, 4), password);
    EncodedIsClean(S.Digest(m));
    DigestTextLength(S.Digest(m));
    DocumentAnswer(user, given, 4, expected, password, Zeroed());
    NothingSeen(S.CodeDigest(NonceBytes(4)));
  }

  lemma NothingSeen(h: Digest)
    ensures !Seen(Zeroed(), h)
  {
  }

  /** Where OK does not mean the expected user: a token with the right digest for a user of 64 letters
      is accepted where one of 63 is expected, and refused where one of 64 is. */
  lemma LongNamesAreClipped(password: string)
    requires password != "" && 3 + 19 + |password| <= 119
    ensures var name := LongName(64);
            var given := RightGiven(password);
            && Answer(RequestFor(name, given, 4, LongName(63), password), Some(Zeroed())).0 == OK
            && Answer(RequestFor(name, given, 4, name, password), Some(Zeroed())).0 != OK
  {
    var name := LongName(64);
    assert name[..63] == LongName(63);
    RightDocument(name, LongName(63), password);
    RightDocument(name, name, password);
  }
}
