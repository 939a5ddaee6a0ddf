/** What core/onvif_wsse.c promises of a token: when `onvif_wsse_verify` accepts one, and what it
refuses over a run of requests. */
module TokenRules {
  import opened CText
  import opened Markup
  import opened WsseScan
  import opened CreatedTime
  import opened NonceCache
  import opened UsernameToken
  import B = Base64
  import S = Sha1

  // ----- the digest formula -----

  /** The four fields of a token. */
  datatype Token = Token(username: string, password: string, nonce: string, created: string)

  /** The fields of a document, each cut to its buffer. */
  predicate HasFields(tags: seq<Tag>, t: Token) {
    && FieldIn(tags, "Username", 64) == Some(t.username)
    && FieldIn(tags, "Password", 256) == Some(t.password)
    && FieldIn(tags, "Nonce", 256) == Some(t.nonce)
    && FieldIn(tags, "Created", 40) == Some(t.created)
  }

  predicate StrictFields(tags: seq<Tag>) {
    AllStrict(tags, "Username") && AllStrict(tags, "Password") && AllStrict(tags, "Nonce") && AllStrict(tags, "Created")
  }

  /** The request's envelope is a document with these fields and, anywhere in it, a UsernameToken
      element, and it does not ask for a plain-text comparison. */
  ghost predicate Carries(r: Request, lead: string, tags: seq<Tag>, t: Token) {
    && '<' !in lead && StrictFields(tags)
    && r.envelope == Some(lead + Render(tags))
    && (exists k :: 0 <= k < |tags| && IsElement(tags[k], "UsernameToken"))
    && !Contains(lead + Render(tags), "#PasswordText")
    && HasFields(tags, t)
  }

  /** A caller that gives no user name accepts any. */
  predicate RightUser(r: Request, t: Token) {
    r.username.None? || r.username.value == "" || t.username == r.username.value
  }

  predicate Timely(r: Request, t: Token) {
    var at := ParseCreated(t.created);
    at.Some? && -Window(r.window) <= r.now - at.value <= Window(r.window)
  }

  /** Section 3.1 of the UsernameToken Profile 1.0: Base64 (SHA-1 (nonce + created + password)). */
  function ProfileDigest(nonce: seq<Byte>, created: string, password: string): string {
    B.Encoded(S.Digest(nonce + BytesOf(created) + BytesOf(password)))
  }

  /** Characters as C has them, eight bits wide. */
  predicate EightBit(s: string) {
    forall k :: 0 <= k < |s| ==> s[k] as int < 256
  }

  lemma SameEightBit(a: string, b: string)
    requires EightBit(a) && EightBit(b)
    ensures SameBytes(a, b) <==> a == b
  {
    if SameBytes(a, b) {
      assert |BytesOf(a)| == |a|;
      forall k | 0 <= k < |a|
        ensures a[k] == b[k]
      {
        assert BytesOf(a)[k] == ByteOf(a[k]) && BytesOf(b)[k] == ByteOf(b[k]);
      }
    }
  }

  lemma EncodedIsEightBit(bytes: seq<Byte>)
    ensures EightBit(B.Encoded(bytes))
  {
    B.EncodedIsEncoding(bytes);
    var text := B.Encoded(bytes);
    forall k | 0 <= k < |text|
      ensures text[k] as int < 256
    {
      assert B.B64Val(text[k]).Some? || text[k] == '=';
    }
  }

  lemma NamesAreNames()
    ensures IsName("Username") && IsName("Password") && IsName("Nonce") && IsName("Created")
  {
  }

  lemma NameAppears(tags: seq<Tag>, k: nat, name: string) returns (before: string, after: string)
    requires k < |tags| && IsElement(tags[k], name)
    ensures Render(tags) == before + name + after
  {
    var head, rest := tags[..k], tags[k..];
    assert tags == head + rest;
    RenderConcat(head, rest);
    var b, a := NameInBody(rest[0], name);
    RenderStep(rest);
    Around(Render(head), b, name, a, Render(rest[1..]));
    before, after := Render(head) + "<" + b, a + Render(rest[1..]);
  }

  lemma Around(head: string, b: string, name: string, a: string, tail: string)
    ensures head + ("<" + (b + name + a) + tail) == (head + "<" + b) + name + (a + tail)
  {
  }

  lemma NameInBody(t: Tag, name: string) returns (before: string, after: string)
    requires IsElement(t, name)
    ensures Body(t) == before + name + after
  {
    before := if t.name.prefix == "" then "" else t.name.prefix + ":";
    after := if t.Open? then t.attrs + ">" + t.text else t.attrs + "/>" + t.text;
  }

  lemma ContainsName(lead: string, tags: seq<Tag>, k: nat, name: string)
    requires k < |tags| && IsElement(tags[k], name)
    ensures Contains(lead + Render(tags), name)
  {
    var before, after := NameAppears(tags, k, name);
    OccursBehind(lead, before, name, after);
  }

  lemma OccursBehind(lead: string, before: string, name: string, after: string)
    ensures Contains(lead + (before + name + after), name)
  {
    OccursContains(lead + before, name, after);
    assert lead + (before + name + after) == lead + before + name + after;
  }

  lemma ReadsField(lead: string, tags: seq<Tag>, tag: string, n: nat, text: string)
    requires '<' !in lead && AllStrict(tags, tag) && IsName(tag)
    requires n > 0 && FieldIn(tags, tag, n) == Some(text)
    ensures Field(lead + Render(tags), tag, n) == Some(text)
  {
    FieldOfTags(lead, tags, tag, n);
  }

  lemma ReadsFields(lead: string, tags: seq<Tag>, t: Token)
    requires '<' !in lead && StrictFields(tags) && HasFields(tags, t)
    ensures var env := lead + Render(tags);
            Field(env, "Username", 64) == Some(t.username) && Field(env, "Password", 256) == Some(t.password) &&
            Field(env, "Nonce", 256) == Some(t.nonce) && Field(env, "Created", 40) == Some(t.created)
  {
    NamesAreNames();
    ReadsField(lead, tags, "Username", 64, t.username);
    ReadsField(lead, tags, "Password", 256, t.password);
    ReadsField(lead, tags, "Nonce", 256, t.nonce);
    ReadsField(lead, tags, "Created", 40, t.created);
  }

  /** A request with a token is judged by the token's fields. */
  lemma JudgesFields(r: Request, lead: string, tags: seq<Tag>, t: Token)
    requires Carries(r, lead, tags, t) && r.password.Some? && r.password.value != ""
    ensures Judge(r) ==
            if !RightUser(r, t) then Final(BAD_DIGEST)
            else JudgeDigest(r, r.password.value, t.password, t.nonce, t.created)
  {
    var k :| 0 <= k < |tags| && IsElement(tags[k], "UsernameToken");
    ContainsName(lead, tags, k, "UsernameToken");
    ReadsFields(lead, tags, t);
    JudgesAll(r, t);
  }

  lemma JudgesAll(r: Request, t: Token)
    requires r.password.Some?
    ensures JudgeFields(r, r.password.value, false,
                        Some(t.username), Some(t.password), Some(t.nonce), Some(t.created)) ==
            if !RightUser(r, t) then Decided(BAD_DIGEST) else NeedsDigest(t.password, t.nonce, t.created)
  {
  }

  /** A nonce text that fits its buffer never stands for more than 191 bytes. */
  lemma NonceDecodes(text: string, nonce: seq<Byte>)
    requires B.Decodes(text, nonce) && |text| < 256
    ensures DecodeNonce(text) == if B.Readable(text) then Some(nonce) else None
  {
    DecodedNonce(text, nonce);
    B.FedText(text);
  }

  function Length(nonce: seq<Byte>, t: Token, password: string): nat {
    |nonce| + |t.created| + |password|
  }

  /** The text the code compares with: the profile's digest up to 119 hashed bytes, and beyond them the
      Base64 of the initial chaining value. */
  function Wanted(nonce: seq<Byte>, t: Token, password: string): string {
    if Length(nonce, t, password) <= 119 then ProfileDigest(nonce, t.created, password)
    else B.Encoded(S.DigestBytes(S.H0))
  }

  /** The time is in the window, the nonce is Base64, the parts fit the buffer and the digest is the
      text wanted. */
  predicate RightDigest(r: Request, t: Token, nonce: seq<Byte>, password: string) {
    && Timely(r, t) && B.Readable(t.nonce)
    && Length(nonce, t, password) < 512
    && t.password == Wanted(nonce, t, password)
  }

  /** A token is right when its user and its digest are. */
  predicate Right(r: Request, t: Token, nonce: seq<Byte>)
    requires r.password.Some?
  {
    RightUser(r, t) && RightDigest(r, t, nonce, r.password.value)
  }

  lemma ExpectsWanted(nonce: seq<Byte>, t: Token, password: string)
    requires EightBit(t.password)
    ensures SameBytes(Expected(nonce, t.created, password), t.password) <==> t.password == Wanted(nonce, t, password)
  {
    var m := nonce + BytesOf(t.created) + BytesOf(password);
    EncodedIsEightBit(S.CodeDigest(m));
    SameEightBit(Expected(nonce, t.created, password), t.password);
  }

  /** The checks after the field extraction, the nonce being decoded. */
  lemma DigestChecks(r: Request, password: string, t: Token, nonce: seq<Byte>, same: bool)
    requires DecodeNonce(t.nonce) == if B.Readable(t.nonce) then Some(nonce) else None
    requires same == SameBytes(Expected(nonce, t.created, password), t.password)
    ensures JudgeDigest(r, password, t.password, t.nonce, t.created) ==
            if !Timely(r, t) then Final(STALE)
            else if !B.Readable(t.nonce) || Length(nonce, t, password) >= 512 || !same then Final(BAD_DIGEST)
            else Fresh(S.CodeDigest(nonce), ParseCreated(t.created).value)
  {
    if Timely(r, t) {
      NonceChecks(password, t, nonce, same, ParseCreated(t.created).value);
    }
  }

  lemma NonceChecks(password: string, t: Token, nonce: seq<Byte>, same: bool, at: int)
    requires DecodeNonce(t.nonce) == if B.Readable(t.nonce) then Some(nonce) else None
    requires same == SameBytes(Expected(nonce, t.created, password), t.password)
    ensures JudgeNonce(password, t.password, t.nonce, t.created, at) ==
            if !B.Readable(t.nonce) || Length(nonce, t, password) >= 512 || !same then Final(BAD_DIGEST)
            else Fresh(S.CodeDigest(nonce), at)
  {
  }

  lemma JudgesDigest(r: Request, t: Token, nonce: seq<Byte>)
    requires r.password.Some? && B.Decodes(t.nonce, nonce) && EightBit(t.password) && |t.nonce| < 256
    ensures var v := JudgeDigest(r, r.password.value, t.password, t.nonce, t.created);
            if RightDigest(r, t, nonce, r.password.value)
            then v == Fresh(S.CodeDigest(nonce), ParseCreated(t.created).value)
            else v == Final(if Timely(r, t) then BAD_DIGEST else STALE)
  {
    var password := r.password.value;
    NonceDecodes(t.nonce, nonce);
    ExpectsWanted(nonce, t, password);
    DigestChecks(r, password, t, nonce, t.password == Wanted(nonce, t, password));
  }

  /** `onvif_wsse_verify` on an envelope with a digest token, `nonce` being the bytes its nonce text
      stands for: OK exactly when user, time and digest are right and the nonce hash is not cached,
      REPLAY exactly when it is; otherwise STALE when the user is right and the time is not, and
      BAD_DIGEST. */
  lemma AnswersDigestTokens(r: Request, lead: string, tags: seq<Tag>, t: Token, nonce: seq<Byte>, cache: Cache)
    requires IsCache(cache) && Carries(r, lead, tags, t)
    requires r.password.Some? && r.password.value != ""
    requires B.Decodes(t.nonce, nonce) && EightBit(t.password)
    ensures var (status, after) := Answer(r, Some(cache));
            var hash := S.CodeDigest(nonce);
            && (status == OK <==> Right(r, t, nonce) && !Seen(cache, hash))
            && (status == REPLAY <==> Right(r, t, nonce) && Seen(cache, hash))
            && (status == STALE <==> RightUser(r, t) && !Timely(r, t))
            && (status == OK || status == REPLAY || status == STALE || status == BAD_DIGEST)
            && after == Some(if status == OK then Stored(cache, hash, ParseCreated(t.created).value) else cache)
  {
    JudgesFields(r, lead, tags, t);
    JudgesDigest(r, t, nonce);
  }

  /** Without a cache such a token is never a replay. */
  lemma AnswersUncached(r: Request, lead: string, tags: seq<Tag>, t: Token, nonce: seq<Byte>)
    requires Carries(r, lead, tags, t) && r.password.Some? && r.password.value != ""
    requires B.Decodes(t.nonce, nonce) && EightBit(t.password)
    ensures Answer(r, None) ==
            (if Right(r, t, nonce) then OK else if RightUser(r, t) && !Timely(r, t) then STALE else BAD_DIGEST, None)
  {
    JudgesFields(r, lead, tags, t);
    JudgesDigest(r, t, nonce);
  }

  /** The time window, in seconds: the window asked for, or 300 when that is not positive; both ends
      belong to it. */
  lemma WindowInSeconds(r: Request, t: Token)
    ensures var at := ParseCreated(t.created);
            Timely(r, t) <==>
              at.Some? && (if r.window > 0 then at.value - r.window <= r.now <= at.value + r.window
                           else at.value - 300 <= r.now <= at.value + 300)
  {
  }

  /** Up to 119 hashed bytes the right digest is that of the profile. */
  lemma AcceptsExactlyTheProfileDigest(
      r: Request, lead: string, tags: seq<Tag>, t: Token, nonce: seq<Byte>, cache: Cache)
    requires IsCache(cache) && Carries(r, lead, tags, t)
    requires r.password.Some? && r.password.value != ""
    requires B.Decodes(t.nonce, nonce) && EightBit(t.password)
    requires Length(nonce, t, r.password.value) <= 119
    ensures Answer(r, Some(cache)).0 == OK <==>
              RightUser(r, t) && Timely(r, t) && B.Readable(t.nonce) && !Seen(cache, S.Digest(nonce)) &&
              t.password == B.Encoded(S.Digest(nonce + BytesOf(t.created) + BytesOf(r.password.value)))
  {
    ShortWanted(nonce, t, r.password.value);
    AnswersDigestTokens(r, lead, tags, t, nonce, cache);
  }

  lemma ShortWanted(nonce: seq<Byte>, t: Token, password: string)
    requires Length(nonce, t, password) <= 119
    ensures Wanted(nonce, t, password) == ProfileDigest(nonce, t.created, password)
    ensures S.CodeDigest(nonce) == S.Digest(nonce)
  {
  }

  // ----- clipped fields -----

  /** What the comparison of user names at core/onvif_wsse.c:255 decides: equality of the names, if and
      only if the name in the token is not one of 64 characters or more that is the expected one (which
      is then refused) or whose first 63 characters are (which is then accepted). */
  lemma UserTestIsEquality(r: Request, tags: seq<Tag>, t: Token, name: string, expected: string)
    requires HasFields(tags, t) && FieldOf(tags, "Username") == Some(name)
    requires r.username == Some(expected) && expected != ""
    ensures (RightUser(r, t) <==> name == expected) <==>
              !(|name| >= 64 && (expected == name || expected == name[..63]))
  {
    ClippedTestIsEquality(name, expected, 64);
  }

  /** The same for the password text of a plain-text token and 256 characters. */
  lemma PlainTestIsEquality(r: Request, lead: string, tags: seq<Tag>, t: Token, text: string)
    requires CarriesPlain(r, lead, tags, t) && FieldOf(tags, "Password") == Some(text)
    requires r.password.Some? && r.password.value != "" && r.allowText && RightUser(r, t)
    ensures (Answer(r, None).0 == OK <==> text == r.password.value) <==>
              !(|text| >= 256 && (r.password.value == text || r.password.value == text[..255]))
  {
    AnswersPlainTokens(r, lead, tags, t, None);
    ClippedTestIsEquality(text, r.password.value, 256);
  }

  // ----- past 119 bytes -----

  lemma EncodedIsInjective(a: seq<Byte>, b: seq<Byte>)
    ensures B.Encoded(a) == B.Encoded(b) <==> a == b
  {
    B.RoundTrip(a, a);
    B.RoundTrip(b, a);
  }

  /** When the code compares with the profile's digest: for at most 119 hashed bytes, and beyond only
      for a message whose SHA-1 happens to be the initial chaining value. */
  lemma MeetsTheProfile(nonce: seq<Byte>, t: Token, password: string)
    ensures Wanted(nonce, t, password) == ProfileDigest(nonce, t.created, password) <==>
              Length(nonce, t, password) <= 119 ||
              S.Digest(nonce + BytesOf(t.created) + BytesOf(password)) == S.DigestBytes(S.H0)
  {
    EncodedIsInjective(S.DigestBytes(S.H0), S.Digest(nonce + BytesOf(t.created) + BytesOf(password)));
  }

  /** Past 119 hashed bytes the answer is the same for every non-empty password that fits: the right
      text is one constant, so the password is not checked. */
  lemma LongTokensIgnoreThePassword(
      r: Request, lead: string, tags: seq<Tag>, t: Token, nonce: seq<Byte>, cache: Cache)
    requires IsCache(cache) && Carries(r, lead, tags, t)
    requires r.password.Some? && r.password.value != ""
    requires B.Decodes(t.nonce, nonce) && EightBit(t.password)
    requires 119 < Length(nonce, t, r.password.value) < 512
    ensures Answer(r, Some(cache)).0 == OK <==>
              RightUser(r, t) && Timely(r, t) && B.Readable(t.nonce) &&
              t.password == B.Encoded(S.DigestBytes(S.H0)) && !Seen(cache, S.CodeDigest(nonce))
  {
    AnswersDigestTokens(r, lead, tags, t, nonce, cache);
  }

  // ----- the other answers -----

  /** The request's envelope is a document with a UsernameToken element and these two fields, and it
      asks for a plain-text comparison. */
  ghost predicate CarriesPlain(r: Request, lead: string, tags: seq<Tag>, t: Token) {
    && '<' !in lead && AllStrict(tags, "Username") && AllStrict(tags, "Password")
    && r.envelope == Some(lead + Render(tags))
    && (exists k :: 0 <= k < |tags| && IsElement(tags[k], "UsernameToken"))
    && Contains(lead + Render(tags), "#PasswordText")
    && FieldIn(tags, "Username", 64) == Some(t.username)
    && FieldIn(tags, "Password", 256) == Some(t.password)
  }

  lemma JudgesPlain(r: Request, t: Token, nonce: Option<string>, created: Option<string>)
    requires r.password.Some?
    ensures JudgeFields(r, r.password.value, true, Some(t.username), Some(t.password), nonce, created) ==
            Decided(if !RightUser(r, t) then BAD_DIGEST
                    else if !r.allowText then TEXT_REJECTED
                    else if t.password != r.password.value then BAD_DIGEST
                    else OK)
  {
  }

  /** On such a document plain text is accepted exactly when it is allowed and user and password are
      the right ones; the cache plays no part. */
  lemma AnswersPlainTokens(r: Request, lead: string, tags: seq<Tag>, t: Token, cache: Option<Cache>)
    requires cache.Some? ==> IsCache(cache.value)
    requires CarriesPlain(r, lead, tags, t) && r.password.Some? && r.password.value != ""
    ensures var (status, after) := Answer(r, cache);
            && (status == OK <==> r.allowText && RightUser(r, t) && t.password == r.password.value)
            && (status == TEXT_REJECTED <==> !r.allowText && RightUser(r, t))
            && (status == OK || status == TEXT_REJECTED || status == BAD_DIGEST)
            && after == cache
  {
    var k :| 0 <= k < |tags| && IsElement(tags[k], "UsernameToken");
    var env := lead + Render(tags);
    ContainsName(lead, tags, k, "UsernameToken");
    NamesAreNames();
    ReadsField(lead, tags, "Username", 64, t.username);
    ReadsField(lead, tags, "Password", 256, t.password);
    JudgesPlain(r, t, Field(env, "Nonce", 256), Field(env, "Created", 40));
  }

  /** A document whose UsernameToken lacks a field. */
  ghost predicate HasToken(r: Request, lead: string, tags: seq<Tag>) {
    && '<' !in lead && StrictFields(tags)
    && r.envelope == Some(lead + Render(tags))
    && (exists k :: 0 <= k < |tags| && IsElement(tags[k], "UsernameToken"))
  }

  /** The user name of the document, cut to its buffer, is the one expected. */
  predicate ExpectsUser(r: Request, tags: seq<Tag>) {
    match FieldIn(tags, "Username", 64)
    case None => false
    case Some(name) => r.username.None? || r.username.value == "" || name == r.username.value
  }

  predicate NoNonceIn(tags: seq<Tag>) {
    FieldOf(tags, "Nonce") == None || FieldOf(tags, "Created") == None
  }

  /** With a UsernameToken in the document the answer is NO_TOKEN exactly when there is no user name, or
      the user is the one expected and there is no password; and a digest token without nonce or time
      is a bad one. */
  lemma MissingFields(r: Request, lead: string, tags: seq<Tag>, cache: Option<Cache>)
    requires cache.Some? ==> IsCache(cache.value)
    requires HasToken(r, lead, tags) && r.password.Some? && r.password.value != ""
    ensures var status := Answer(r, cache).0;
            && (status == NO_TOKEN <==>
                  FieldOf(tags, "Username") == None || (ExpectsUser(r, tags) && FieldOf(tags, "Password") == None))
            && (FieldOf(tags, "Username").Some? && !ExpectsUser(r, tags) ==> status == BAD_DIGEST)
            && (status != NO_TOKEN && !Contains(lead + Render(tags), "#PasswordText") && NoNonceIn(tags)
                ==> status == BAD_DIGEST)
  {
    var k :| 0 <= k < |tags| && IsElement(tags[k], "UsernameToken");
    ContainsName(lead, tags, k, "UsernameToken");
    NamesAreNames();
    FieldOfTags(lead, tags, "Username", 64);
    FieldOfTags(lead, tags, "Password", 256);
    FieldOfTags(lead, tags, "Nonce", 256);
    FieldOfTags(lead, tags, "Created", 40);
    MissingIs(r, lead + Render(tags), cache);
  }

  /** Whatever the envelope: NO_TOKEN is the answer exactly when the word UsernameToken is not in it, no
      user name is found, or the user is the one expected and no password is found. */
  lemma MissingIs(r: Request, env: string, cache: Option<Cache>)
    requires cache.Some? ==> IsCache(cache.value)
    requires r.envelope == Some(env) && r.password.Some? && r.password.value != ""
    ensures var status := Answer(r, cache).0;
            var user, given := Field(env, "Username", 64), Field(env, "Password", 256);
            var other := user.Some? && r.username.Some? && r.username.value != "" && user.value != r.username.value;
            && (status == NO_TOKEN <==>
                  !Contains(env, "UsernameToken") || user.None? || (!other && given.None?))
            && (other && status != NO_TOKEN ==> status == BAD_DIGEST)
            && (status != NO_TOKEN && !Contains(env, "#PasswordText") && LacksNonce(env) ==> status == BAD_DIGEST)
  {
  }

  predicate LacksNonce(env: string) {
    Field(env, "Nonce", 256).None? || Field(env, "Created", 40).None?
  }

  lemma JudgeFailsClosed(r: Request)
    ensures var v := Judge(r);
            && (r.envelope.None? || r.password.None? || r.password.value == "" ==> v == Final(BAD_DIGEST))
            && (v == Final(TEXT_REJECTED) ==> !r.allowText)
            && (v == Final(OK) ==>
                  r.allowText && Contains(r.envelope.value, "#PasswordText") &&
                  Field(r.envelope.value, "Password", 256) == r.password)
            && (v.Fresh? ==> !Contains(r.envelope.value, "#PasswordText"))
  {
  }

  /** Whatever the envelope: an empty password is never accepted, plain text only when allowed and
      equal, and an answer other than OK leaves the cache as it was. */
  lemma FailsClosed(r: Request, cache: Option<Cache>)
    requires cache.Some? ==> IsCache(cache.value)
    ensures var (status, after) := Answer(r, cache);
            && (r.envelope.None? || r.password.None? || r.password.value == "" ==> status == BAD_DIGEST)
            && (status == TEXT_REJECTED ==> !r.allowText)
            && (status == OK && Contains(r.envelope.value, "#PasswordText") ==>
                  r.allowText && Field(r.envelope.value, "Password", 256) == r.password)
            && (status != OK ==> after == cache)
  {
    JudgeFailsClosed(r);
    AnswerKeepsVerdict(r, cache, Judge(r));
  }

  lemma AnswerKeepsVerdict(r: Request, cache: Option<Cache>, v: Verdict)
    requires v == Judge(r) && (cache.Some? ==> IsCache(cache.value))
    ensures var (status, after) := Answer(r, cache);
            && (v.Final? ==> status == v.status)
            && (v.Fresh? ==> status == OK || status == REPLAY)
            && (v.Final? || status != OK ==> after == cache)
  {
  }

  // ----- runs of requests -----

  /** The token of a verdict, if its digest was right. */
  function DigestOf(v: Verdict): seq<Entry> {
    match v
    case Final(_) => []
    case Fresh(hash, created) => [Entry(hash, created)]
  }

  function TokensOf(verdicts: seq<Verdict>): seq<Entry> {
    if verdicts == [] then []
    else TokensOf(verdicts[..|verdicts| - 1]) + DigestOf(verdicts[|verdicts| - 1])
  }

  function Verdicts(run: seq<Request>): (v: seq<Verdict>)
    ensures |v| == |run|
  {
    seq(|run|, i requires 0 <= i < |run| => Judge(run[i]))
  }

  /** The tokens of a run whose digest was right, in order. */
  function DigestsOf(run: seq<Request>): seq<Entry> {
    TokensOf(Verdicts(run))
  }

  lemma OneMoreRequest(run: seq<Request>, r: Request)
    ensures Verdicts(run + [r]) == Verdicts(run) + [Judge(r)]
    ensures DigestsOf(run + [r]) == DigestsOf(run) + DigestOf(Judge(r))
  {
    var before := Verdicts(run);
    assert Verdicts(run + [r]) == before + [Judge(r)];
    assert (before + [Judge(r)])[..|before|] == before;
  }

  /** The cache after a run of requests from a zeroed one. */
  function CacheAfter(run: seq<Request>): (c: Cache)
    ensures IsCache(c)
  {
    if run == [] then Zeroed()
    else Answer(run[|run| - 1], Some(CacheAfter(run[..|run| - 1]))).1.value
  }

  lemma {:induction false} RequestsAreTokens(run: seq<Request>)
    ensures CacheAfter(run) == RunAll(DigestsOf(run)).0
  {
    if run != [] {
      var before, r := run[..|run| - 1], run[|run| - 1];
      RequestsAreTokens(before);
      assert run == before + [r];
      OneMoreRequest(before, r);
      OneMoreToken(DigestsOf(before), Judge(r));
    }
  }

  lemma OneMoreToken(tokens: seq<Entry>, v: Verdict)
    ensures RunAll(tokens + DigestOf(v)) ==
            if v.Final? then RunAll(tokens)
            else
              var (c, accepted) := RunAll(tokens);
              var (ok, c') := Admit(c, v.hash, v.created);
              (c', if ok then accepted + [Entry(v.hash, v.created)] else accepted)
  {
    match v
    case Final(_) => assert tokens + [] == tokens;
    case Fresh(hash, created) =>
      assert (tokens + [Entry(hash, created)])[..|tokens|] == tokens;
  }

  /** The digest-right tokens of a run that were not refused as replays. */
  function AcceptedIn(run: seq<Request>): seq<Entry> {
    RunAll(DigestsOf(run)).1
  }

  /** Over every run of requests, of any kind and in any order, from a zeroed cache: the cache holds
      the last sixteen accepted nonces, so a digest-right token is answered REPLAY exactly when its
      nonce hash is among them, and OK otherwise. */
  lemma ReplaysAreRefusedOverRuns(run: seq<Request>, r: Request)
    requires Judge(r).Fresh?
    ensures HoldsLast(CacheAfter(run), AcceptedIn(run))
    ensures var status := Answer(r, Some(CacheAfter(run))).0;
            var accepted := AcceptedIn(run);
            && (status == OK || status == REPLAY)
            && (status == REPLAY <==>
                  exists j :: 0 <= j < |accepted| && |accepted| - j <= 16 && accepted[j].hash == Judge(r).hash)
  {
    RequestsAreTokens(run);
    RunHoldsLast(DigestsOf(run));
    SeenIsRecent(CacheAfter(run), AcceptedIn(run), Judge(r).hash);
  }

  // ----- which entry goes -----

  function TokenOf(r: Request): Entry
    requires Judge(r).Fresh?
  {
    Entry(Judge(r).hash, Judge(r).created)
  }

  lemma {:induction false} FreshAreTokens(verdicts: seq<Verdict>)
    requires forall i :: 0 <= i < |verdicts| ==> verdicts[i].Fresh?
    ensures |TokensOf(verdicts)| == |verdicts|
    ensures forall i :: 0 <= i < |verdicts| ==>
              TokensOf(verdicts)[i] == Entry(verdicts[i].hash, verdicts[i].created)
  {
    if verdicts != [] {
      var last := |verdicts| - 1;
      FreshAreTokens(verdicts[..last]);
      OneMore(TokensOf(verdicts[..last]), verdicts[last], TokensOf(verdicts));
    }
  }

  lemma OneMore(before: seq<Entry>, v: Verdict, after: seq<Entry>)
    requires v.Fresh? && after == before + DigestOf(v)
    ensures |after| == |before| + 1 && after[|before|] == Entry(v.hash, v.created) && after[..|before|] == before
  {
  }

  /** After any sixteen requests with right digests, different nonce hashes and decreasing Created
      times, the next accepted one overwrites the entry created last of all. */
  lemma {:induction false} NewestRequestGoes(run: seq<Request>)
    requires |run| == 16 && forall i :: 0 <= i < |run| ==> Judge(run[i]).Fresh?
    requires forall i, j :: 0 <= i < j < |run| ==> Judge(run[i]).hash != Judge(run[j]).hash
    requires forall i, j :: 0 <= i < j < |run| ==> Judge(run[i]).created > Judge(run[j]).created
    ensures var c := CacheAfter(run);
            c.created[c.next % 16] == Judge(run[0]).created &&
            forall i :: 0 < i < 16 ==> c.created[c.next % 16] > c.created[i]
  {
    FreshAreTokens(Verdicts(run));
    RequestsAreTokens(run);
    EvictsTheNewest(DigestsOf(run));
  }

  // ----- nonces past 119 bytes -----

  /** The request carries a digest token whose nonce stands for more than 119 bytes. */
  ghost predicate LongNonce(r: Request) {
    exists lead, tags, t, nonce :: Carries(r, lead, tags, t) && B.Decodes(t.nonce, nonce) && |nonce| > 119
  }

  /** All of them have the same nonce hash. */
  lemma LongNoncesShareAHash(r: Request)
    requires LongNonce(r) && Judge(r).Fresh?
    ensures Judge(r).hash == S.DigestBytes(S.H0)
  {
    var lead, tags, t, nonce :| Carries(r, lead, tags, t) && B.Decodes(t.nonce, nonce) && |nonce| > 119;
    HashOfNonce(r, lead, tags, t, nonce);
  }

  lemma NonceFits(tags: seq<Tag>, t: Token)
    requires HasFields(tags, t)
    ensures |t.nonce| < 256
  {
  }

  /** The hash by which an accepted nonce is remembered. */
  lemma HashOfNonce(r: Request, lead: string, tags: seq<Tag>, t: Token, nonce: seq<Byte>)
    requires Carries(r, lead, tags, t) && B.Decodes(t.nonce, nonce) && Judge(r).Fresh?
    ensures Judge(r).hash == S.CodeDigest(nonce)
  {
    PasswordIsGiven(r);
    JudgesFields(r, lead, tags, t);
    NonceFits(tags, t);
    HashWhenFresh(r, r.password.value, t, nonce);
  }

  lemma PasswordIsGiven(r: Request)
    requires Judge(r).Fresh?
    ensures r.password.Some? && r.password.value != ""
  {
  }

  lemma HashWhenFresh(r: Request, password: string, t: Token, nonce: seq<Byte>)
    requires B.Decodes(t.nonce, nonce) && |t.nonce| < 256
    ensures var v := JudgeDigest(r, password, t.password, t.nonce, t.created);
            v.Fresh? ==> v.hash == S.CodeDigest(nonce)
  {
    NonceDecodes(t.nonce, nonce);
    DigestChecks(r, password, t, nonce, SameBytes(Expected(nonce, t.created, password), t.password));
  }

  lemma {:induction false} AcceptedGrows(a: seq<Entry>, b: seq<Entry>)
    ensures RunAll(a).1 <= RunAll(a + b).1
  {
    if b == [] {
      assert a + b == a;
    } else {
      AcceptedGrows(a, b[..|b| - 1]);
      assert (a + b)[..|a + b| - 1] == a + b[..|b| - 1];
    }
  }

  lemma {:induction false} TokensOfConcat(a: seq<Verdict>, b: seq<Verdict>)
    ensures TokensOf(a + b) == TokensOf(a) + TokensOf(b)
  {
    if b == [] {
      assert a + b == a;
    } else {
      var last := |b| - 1;
      TokensOfConcat(a, b[..last]);
      assert (a + b)[..|a + b| - 1] == a + b[..last] && (a + b)[|a + b| - 1] == b[last];
      Associate(TokensOf(a), TokensOf(b[..last]), DigestOf(b[last]));
    }
  }

  lemma DigestsOfConcat(a: seq<Request>, b: seq<Request>)
    ensures DigestsOf(a + b) == DigestsOf(a) + DigestsOf(b)
  {
    assert Verdicts(a + b) == Verdicts(a) + Verdicts(b);
    TokensOfConcat(Verdicts(a), Verdicts(b));
  }

  lemma AcceptedAtTheEnd(run: seq<Request>, q: Request)
    requires Judge(q).Fresh? && Answer(q, Some(CacheAfter(run))).0 == OK
    ensures AcceptedIn(run + [q]) == AcceptedIn(run) + [TokenOf(q)]
  {
    RequestsAreTokens(run);
    OneMoreRequest(run, q);
    OneMoreToken(DigestsOf(run), Judge(q));
  }

  /** Different long nonces count as one: after one was accepted, every digest-right token with a long
      nonce, used before or not, is answered REPLAY until sixteen other tokens have been accepted. */
  lemma LongNoncesCountAsOne(run: seq<Request>, q: Request, later: seq<Request>, r: Request)
    requires LongNonce(q) && LongNonce(r) && Judge(q).Fresh? && Judge(r).Fresh?
    requires Answer(q, Some(CacheAfter(run))).0 == OK
    requires |AcceptedIn(run + [q] + later)| < |AcceptedIn(run + [q])| + 16
    ensures Answer(r, Some(CacheAfter(run + [q] + later))).0 == REPLAY
  {
    LongNoncesShareAHash(q);
    LongNoncesShareAHash(r);
    AcceptedAtTheEnd(run, q);
    DigestsOfConcat(run + [q], later);
    AcceptedGrows(DigestsOf(run + [q]), DigestsOf(later));
    ReplaysAreRefusedOverRuns(run + [q] + later, r);
    StillThere(AcceptedIn(run), TokenOf(q), AcceptedIn(run + [q]),
               AcceptedIn(run + [q] + later));
  }

  lemma StillThere(before: seq<Entry>, e: Entry, mid: seq<Entry>, end: seq<Entry>)
    requires mid == before + [e] && mid <= end && |end| < |mid| + 16
    ensures |before| < |end| && |end| - |before| <= 16 && end[|before|] == e
  {
  }
}
