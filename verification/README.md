# onvif-c: a verified model of its stateful and parsing core

The repository serves ONVIF requests on small devices. This project models the parts of it that do
real work on untrusted text and shared state, and proves what they are for.

- **Replay-protected login** (`core/onvif_wsse.c`): SHA-1, Base64, the envelope field scanner, the
  Created time, the replay cache and `onvif_wsse_verify` on top of them (`Sha1`, `Sha1Vectors`,
  `Base64`, `WsseScan`, `CreatedTime`, `NonceCache`, `UsernameToken`, `TokenRules`, `TokenExamples`).
- **Clock setting** (`core/onvif_time.c`, `core/onvif_xml.c`): the pointer-walking element finder, the
  two request parsers, the calendar arithmetic and the printer (`TimeScan`, `TimeDocs`,
  `TimeRequest`, `TimeMeaning`, `DateTimePage`, `Ntp`, `NtpDocs`, `Calendar`).
- **Motion events** (`esp_idf/onvif_c_events.c`, `core/onvif_events_ring.c`, `core/onvif_xml.c`): the
  Pull-Point subscription, its twelve-slot ring and the page a pull prints (`EventRing`,
  `Subscription`, `SubscriptionRuns`, `PullPages`, `PullReader`, `PullPoint`).
- **Scopes** (`core/onvif_xml.c`): the multi-stage builder of GetScopes (`Scopes`).

`CText` holds the C library functions the rest leans on, `Markup` the documents the scanners are
judged against, `PieceReader` a reader for printed pages that knows nothing of how they are printed.

## How it is modelled

A C string is the sequence of its characters without the terminator. Reading one past the last
character gives the terminator, reading further is a precondition violation, so a scanner that
verifies never leaves its string. Loops of the source are loops here and are proved against functions
of the text; the functions are then related to something independent: bit strings for Base64, FIPS
180-1 for SHA-1, documents made of tags and trees of elements for the scanners, a plain count of year
and month lengths for the calendar, histories of whole runs for the subscription and the cache. What
such a reference is made of is fixed in turn by statements in plain numbers and characters: the known
answers of FIPS 180-1, table 1 of RFC 4648 by code points, printed pages read back, requests and time
stamps characterised by their texts.

`core/onvif_wsse.c` and `esp_idf/onvif_c_events.c` keep state: a class with the same fields each, its
methods proved to take the steps of a transition function (`NonceCache.Admit`, `Subscription.Step`),
and lemmas over every sequence of those steps. Each mutex-held section is one step. Handlers read the
clock before they take the lock, so a step takes the time as an argument and steps may see times out
of order; a claim that needs a clock that never runs backwards says so.

The time stamps inside events and pull responses come from `gmtime_r` and `strftime` into 24 bytes:
they are an arbitrary function to texts of at most 23 characters. An allocation failure and a busy
lock are inputs of the step they affect.

## Where the code and its own words differ

- The comment at `core/onvif_wsse.c:27-28` says longer inputs are hashed in 64-byte chunks. They are
  not hashed: past 119 bytes `onvif_sha1` returns the initial constants. So an answer OK means the
  profile's digest only up to 119 hashed bytes. `TokenRules.AnswersDigestTokens` gives the answer for
  every length, `TokenRules.MeetsTheProfile` the exact condition,
  `TokenRules.LongTokensIgnoreThePassword` what happens beyond, and
  `TokenExamples.OneEnvelopeFitsEveryPassword` one request for which it does.
- The comment at `core/onvif_wsse.c:328` speaks of the identity of nonces. What is compared is the
  hash, and all nonces of more than 119 bytes have the same one: after one was accepted the others are
  answered REPLAY until sixteen other tokens have been accepted (`TokenRules.LongNoncesCountAsOne`,
  with an instance in `TokenExamples.AnotherLongNonceIsRefused`).
- `core/onvif_wsse.h:24` says the oldest-created entry is evicted. The entry that goes is the oldest
  accepted; `NonceCache.EvictsOldestCreated` says when the two are the same, and by
  `TokenRules.NewestRequestGoes` it is the newest-created one after any sixteen right requests with
  different nonce hashes and decreasing Created times.
- The repository's `README.md` (line 106) says events queue only while a subscription is alive. They
  queue as long as `sub_valid` is set, which an expired subscription still has until the next pull or
  renew; `SubscriptionRuns.QueuedPastDeadline` says exactly when that happens.
  `SubscriptionRuns.LateMotionIsNeverDelivered` shows that on a non-decreasing clock no such event is
  delivered, `SubscriptionRuns.LateMotionNeedsTheClock` that the clock assumption is needed.
- `onvif_time_parse_set_ntp` also matches closing tags, so text between a closing IPv4Address tag and
  the next tag can be taken for an address, as in an indented document
  (`NtpDocs.IndentedDocument`). `NtpDocs.FirstServersAreTheLeaves` gives the exact condition.
- `elem_scope` ends at the first closing tag of the name, also when it closes a nested element.
  `TimeDocs.ScannerReadsTrees` gives the exact condition, `TimeDocs.NestedStopsShort` an instance.
- `elem_scope` does not take a closing tag with white space before its '>' for one, so the scope of an
  element closed that way runs on; the condition in `TimeDocs.ScannerReadsTrees` (`Delimited`) says so.
- `core/onvif_time.c:3-5` says elements are matched by local name. Those with attributes are passed over:
  every statement about the time scanner speaks of the first element of the name without attributes.
- `core/onvif_wsse.c:159-160` promises the first element with the local name. An element whose name is
  followed by a tab or a line break is passed over, because only a blank, '>' and '/' end a name for
  the code, and a word such as the start of a comment that ends in ':' and the name is taken for it.
  `WsseScan.SeesTheFirst` gives the exact condition, `WsseScan.BrokenLineIsMissed` an instance.
- Fields are cut to their buffers before they are compared, so a user name of 64 characters or more is
  accepted where its first 63 characters are expected, and refused where it is expected itself. OK means
  the expected user exactly under the condition of `TokenRules.UserTestIsEquality`;
  `TokenExamples.LongNamesAreClipped` is an instance, `TokenRules.PlainTestIsEquality` the same for
  plain-text passwords of 256 characters or more.
- `core/onvif_time.h:35-36` promises the servers in request order. They come with all IPv4 addresses
  before all IPv6 addresses, so a limit drops IPv6 first. `NtpDocs.RequestOrder` says when that is the
  request's order, `NtpDocs.SixThenFour` is an instance in which it is not.

## Model

| member | source | states |
|---|---|---|
| Sha1.Sha1 | core/onvif_wsse.c:19-82 | the in-place loops over `h`, `w` and the 128-byte buffer leave in `digest` the SHA-1 of FIPS 180-1 for every message of at most 119 bytes, and the initial constants for longer ones; what that SHA-1 is, `Sha1Vectors` fixes |
| Sha1.PaddedSizeIsLeast | core/onvif_wsse.c:24-31 | the padded size is the least multiple of 64 with room for data, 0x80 and length, equals the length of the standard's padding, and fits 128 bytes exactly up to 119 bytes of data |
| Sha1.PadInto | core/onvif_wsse.c:30-35 | the buffer holds exactly the padding of section 4, neither the 0x80 nor the length overwriting data |
| Sha1.ReadWords | core/onvif_wsse.c:39-42 | the first sixteen words are the block's, most significant byte first |
| Sha1.ExtendWords | core/onvif_wsse.c:43-45 | the eighty words are the message schedule of section 7 |
| Sha1.RunRounds | core/onvif_wsse.c:46-68 | the eighty rounds with rotating variables give the state the standard's rounds give, whose functions and constants `Sha1Vectors` fixes |
| Sha1.CompressInto | core/onvif_wsse.c:38-73 | one turn of the block loop replaces the chaining value by its compression with the block |
| Sha1.WriteDigest | core/onvif_wsse.c:76-81 | the digest is the five words, most significant byte first |
| Sha1Vectors.AbcDigest | core/onvif_wsse.c:19-82 | the SHA-1 of "abc" is A9993E36 4706816A BA3E2571 7850C26C 9CD0D89D (FIPS 180-1, appendix A) |
| Sha1Vectors.LongDigest | core/onvif_wsse.c:38-73 | the SHA-1 of the 56-byte message of appendix B, two blocks long, is 84983E44 1C3BD26E BAAE4AA1 F95129E5 E54670F1 |
| Sha1Vectors.ConstantsAreRoots | core/onvif_wsse.c:49-60 | the four round constants are the square roots of 2, 3, 5 and 10, scaled by 2^30 and rounded down, each in its twenty rounds |
| Sha1Vectors.ChooseByBits | core/onvif_wsse.c:49-51 | where a bit of b is set the round function of the first twenty rounds gives c, elsewhere d |
| Sha1Vectors.ParityByBits | core/onvif_wsse.c:52-54 | where bits of b and c agree the second function gives d, elsewhere its complement |
| Sha1Vectors.MajorityByBits | core/onvif_wsse.c:55-57 | where bits of b and c agree the third function gives them, elsewhere d |
| Base64.Decode | core/onvif_wsse.c:103-127 | -1 exactly when a character is neither a digit nor skipped or floor(6k/8) bytes do not fit; otherwise the bytes written are the ones the digits stand for (by code points: `Base64.ReadsTable1`), and nothing else is written |
| Base64.DecodedByte | core/onvif_wsse.c:103-127 | byte j of a decoding is bits 8j to 8j+7 of the sextets laid end to end |
| Base64.FeedAllIsFaithful | core/onvif_wsse.c:105-125 | although the 32-bit accumulator discards high bits, the bytes written followed by the pending bits are always all the bits read |
| Base64.DecodingIsUnique | core/onvif_wsse.c:103-127 | a text stands for at most one byte string |
| Base64.ReadsTable1 | core/onvif_wsse.c:88-101 | the character read as value v is the one with code point 65+v, 71+v, v-4, 43 or 47, as table 1 of RFC 4648 has it, and no other character has a value |
| Base64.ReadableByCode | core/onvif_wsse.c:107-113 | a text is readable exactly when its characters are digits of that table or have code points 10, 13, 32 or 61, which are skipped |
| Base64.ReadsDigits | core/onvif_wsse.c:105-125 | the values read are, in order, those table 1 gives the characters that are not skipped |
| Base64.Encode | core/onvif_wsse.c:129-153 | fails exactly when fewer than 4*ceil(n/3)+2 characters (one, for no bytes) are available; otherwise returns the length, leaves the text and its terminator, and writes nothing after it |
| Base64.EncodedIsEncoding | core/onvif_wsse.c:129-153 | what is written has 4*ceil(n/3) characters: digits whose bits are the input's padded with zeros, then `=` |
| Base64.EncodedByCode | core/onvif_wsse.c:129-153 | by code points: the characters written are those of table 1 for the six-bit pieces of the input, padded with zero bits, then 61 up to a multiple of four |
| Base64.Foobar | core/onvif_wsse.c:103-153 | "foobar" is encoded as Zm9vYmFy, and that text decodes to its six bytes (RFC 4648, section 10) |
| Base64.RoundTrip | core/onvif_wsse.c:103-153 | for every byte string its encoding is readable, fills as many bytes, and decodes to that byte string and no other |
| WsseScan.ReadElement | core/onvif_wsse.c:161-200 | the walk and the bounded copy give the field function of the text, for every string |
| WsseScan.FieldOfTags | core/onvif_wsse.c:161-200 | on every document whose attributes hold no '>' and whose opening tags' attributes do not end in '/': the text behind the first tag that `NameHit` describes (an element of the local name whose name does not run on into a tab or line break, or another first word that ends in ':' and the name), whatever its prefix and attributes, cut to the buffer; nothing when that tag ends in "/>" |
| WsseScan.SeesTheFirst | core/onvif_wsse.c:159-176 | the walk stops at the first element with the local name if and only if no word before it ends in ':' and the name without being a tag name, and the name of that element is not followed by a tab or line break (or deceives in the same way) |
| WsseScan.SeesTheFirstPlainly | core/onvif_wsse.c:159-176 | where no word deceives: if and only if the first element's name is not followed by a tab or line break |
| WsseScan.FieldIsAtSeen | core/onvif_wsse.c:176-196 | the field is the text behind the tag the walk stops at |
| WsseScan.ClippedTestIsEquality | core/onvif_wsse.c:189-194 | comparing a clipped text with an expected one is comparing the texts if and only if the text is not too long with the expected one being it or its clipped beginning |
| WsseScan.BrokenLineIsMissed | core/onvif_wsse.c:168-176 | a document whose Nonce element has a line break after its name and is not found |
| WsseScan.WordIsName | core/onvif_wsse.c:168-176 | the code's cut at `tag_len` characters from the end finds the tag exactly in what `NameHit` says, never in closing tags |
| CreatedTime.ScanStampText | core/onvif_wsse.c:204-208 | YYYY-MM-DDTHH:MM:SS is read as its six numbers, whatever follows |
| CreatedTime.CreatedCounts | core/onvif_wsse.c:202-225 | the time read is ((days * 24 + hours) * 60 + minutes) * 60 + seconds, the days since 1970-01-01 by the plain count; months outside 1 to 12 and days outside 1 to 31 are refused, a day past the end of its month runs on into the next |
| CreatedTime.ReadsStampText | core/onvif_wsse.c:202-225 | the text YYYY-MM-DDTHH:MM:SS, whatever follows, is read as the second it names |
| CreatedTime.RefusesStampText | core/onvif_wsse.c:209-211 | with a month outside 1 to 12 or a day outside 1 to 31 it is refused |
| CreatedTime.ScansExactly | core/onvif_wsse.c:204-208 | a text is a time stamp if and only if it is six numbers (white space and a sign allowed, at most 4 and 2 characters) with '-', '-', 'T', ':' and ':' between them and something that does not go on with the last |
| NonceCache.MemEq | core/onvif_wsse.c:228-235 | or-ing the differences together ends at zero exactly when the bytes are equal |
| NonceCache.NonceCache.Check | core/onvif_wsse.c:327-341 | answer and new cache are those of one admission step: a seen hash changes nothing, a new one goes into slot `next % 16` |
| NonceCache.RunHoldsLast | core/onvif_wsse.c:327-341 | over every run from a zeroed cache: the used slots are those of the last min(16, k) accepted tokens, `next` is k modulo 2^32, and the hashes are pairwise distinct |
| NonceCache.UsedSlotsAreTheLastSixteen | core/onvif_wsse.c:327-341 | the set of cached hashes is the set of hashes of the last min(16, k) accepted tokens |
| NonceCache.RefusedUntilSixteenOthers | core/onvif_wsse.c:327-341 | over every run a nonce hash is refused if and only if it is that of one of the last sixteen accepted tokens |
| NonceCache.SlotSurvivesWrap | core/onvif_wsse.c:336-340 | the wrap of the 32-bit `next` does not disturb the slot sequence |
| NonceCache.OverwritesTheOldestAccepted | core/onvif_wsse.c:336-340 | a full cache gives up the oldest accepted of its sixteen |
| NonceCache.EvictsOldestCreated | core/onvif_wsse.h:24 | the entry given up has the oldest Created time if and only if the oldest accepted one does |
| NonceCache.EvictsTheNewest | core/onvif_wsse.h:24 | after any sixteen tokens with distinct hashes and decreasing Created times the next one overwrites the entry created later than all fifteen others |
| UsernameToken.ReadNonce | core/onvif_wsse.c:298-302 | the nonce bytes, or nothing when the text is not Base64 or exceeds 192 bytes |
| UsernameToken.ExpectedText | core/onvif_wsse.c:304-321 | the expected text is the Base64 of the code's SHA-1 of nonce, created and password laid end to end |
| CText.BytesAreCodes | core/onvif_wsse.c:309-316 | the bytes hashed for a text are the codes of its characters |
| UsernameToken.CheckToken | core/onvif_wsse.c:237-325 | the checks, in the code's order, give the verdict function of the request |
| UsernameToken.Verify | core/onvif_wsse.c:237-344 | status and new cache are those of the answer function; any status but OK leaves the cache as it was |
| UsernameToken.VerifyUncached | core/onvif_wsse.c:237-344 | without a cache the same answer without replay protection |
| TokenRules.AnswersDigestTokens | core/onvif_wsse.c:237-344 | for every document that carries a digest token, its fields of any length and cut to their buffers: OK if and only if user, time window, nonce text, size and password text are right and the nonce hash is not cached; REPLAY if and only if they are right and it is cached; STALE if and only if the user is right and the time is not; else BAD_DIGEST; the cache changes exactly on OK |
| TokenRules.UserTestIsEquality | core/onvif_wsse.c:248-257 | the user test is equality of the names if and only if the name in the token is not one of 64 characters or more that is the expected one or starts with an expected one of 63 |
| TokenRules.PlainTestIsEquality | core/onvif_wsse.c:267-276 | so for plain-text passwords and 256 characters |
| TokenExamples.LongNamesAreClipped | core/onvif_wsse.c:248-257 | a token with the right digest for a name of 64 letters, answered OK where 63 letters are expected and not OK where that name is |
| TokenRules.AcceptsExactlyTheProfileDigest | core/onvif_wsse.c:297-325 | up to 119 hashed bytes the right password text is Base64(SHA1(nonce + created + password)) |
| TokenRules.AnswersUncached | core/onvif_wsse.c:326-344 | without a cache: OK when user and digest are right, STALE when only the time is not, else BAD_DIGEST |
| TokenRules.WindowInSeconds | core/onvif_wsse.c:286-293 | the time is right when it differs from now by at most the window asked for, or 300 s when that is not positive |
| TokenRules.MissingFields | core/onvif_wsse.c:244-280 | on a document with a UsernameToken: NO_TOKEN if and only if there is no user name, or the user is right and there is no password; BAD_DIGEST for another user, or when nonce or time is missing |
| TokenRules.MissingIs | core/onvif_wsse.c:244-280 | whatever the envelope: NO_TOKEN if and only if the word UsernameToken, the user name, or (the user being right) the password is not found |
| TokenRules.MeetsTheProfile | core/onvif_wsse.c:297-325 | the text compared with is the profile's digest if and only if at most 119 bytes are hashed or their SHA-1 happens to be the initial constants |
| TokenRules.LongTokensIgnoreThePassword | core/onvif_wsse.c:25-35 | from 120 to 511 hashed bytes OK depends on user, time, nonce text and cache and on the password text being one constant, not on the password |
| TokenExamples.OneEnvelopeFitsEveryPassword | core/onvif_wsse.c:237-344 | one envelope with a nonce of 120 bytes that is answered OK for every non-empty password that fits the buffer |
| TokenRules.LongNoncesCountAsOne | core/onvif_wsse.c:327-341 | over every run, after a token with a nonce of more than 119 bytes was accepted, every digest-right token with such a nonce, used before or not, is answered REPLAY until sixteen others were accepted |
| TokenExamples.AnotherLongNonceIsRefused | core/onvif_wsse.c:327-341 | two envelopes with nonces of 120 and 123 bytes, the first answered OK and then the second REPLAY |
| TokenRules.NewestRequestGoes | core/onvif_wsse.h:24 | after any sixteen requests with right digests, different nonce hashes and decreasing Created times the entry given up next is the one created last of all |
| TokenRules.JudgesFields | core/onvif_wsse.c:248-280 | such a request is judged by the four field texts as their buffers hold them |
| TokenRules.AnswersPlainTokens | core/onvif_wsse.c:244-276 | for every document that carries a plain-text token, its fields cut to their buffers: OK if and only if plain text is allowed and user and password are right, TEXT_REJECTED if and only if it is not allowed and the user is right, else BAD_DIGEST; the cache plays no part |
| TokenRules.FailsClosed | core/onvif_wsse.c:241-276 | whatever the envelope, an empty password or none, or no envelope, is answered BAD_DIGEST, plain text is accepted only when allowed and equal, and any answer but OK leaves the cache unchanged |
| TokenRules.ReplaysAreRefusedOverRuns | core/onvif_wsse.c:327-344 | over every run of requests of any kind from a zeroed cache, a token with a right digest is answered REPLAY if and only if its nonce hash is one of the last sixteen accepted, else OK |
| Calendar.DaysFromCivilCounts | core/onvif_time.c:116-124 | with C's truncating division and unsigned conversions, the day number is the plain count of Gregorian year and month lengths, for every integer year |
| Calendar.FormulasAgree | core/onvif_wsse.c:212-223 | the two separately written formulas agree for every integer year, month 1 to 12 and day 1 to 31 |
| Calendar.EraIsFloor | core/onvif_time.c:119-120 | truncating division of the adjusted year gives the floor and a year of era in 0 to 399 |
| Calendar.RotationsCoincide | core/onvif_wsse.c:219-220 | the two month rotations are the same |
| Calendar.StrictlyIncreasing | core/onvif_time.c:116-124 | later dates have greater day numbers |
| Calendar.Bijection | core/onvif_time.c:116-124 | every day number belongs to exactly one valid date |
| TimeScan.ElemScope | core/onvif_time.c:45-73 | on every string the offsets delimit the scope function's text; text is never past end |
| TimeScan.LeafText | core/onvif_time.c:77-97 | on every string and window ending at a '<' or the terminator: offset and length of the leaf, no negative length |
| TimeScan.ScanIdent | core/onvif_time.c:21-26 | stops at the first character that continues no identifier, at the latest at the terminator |
| TimeScan.SplitName | core/onvif_time.c:30-40 | start and end of the local name after an optional prefix |
| Markup.NameCharacters | core/onvif_time.c:21-26 | identifiers are made of letters, digits, '_', '.' and '-', start with a letter or '_', and white space is what it is in XML and in C, by character codes |
| TimeScan.OpensStopsAtAngle | core/onvif_time.c:45-97 | whether a tag matches depends only on the characters before the next '<' |
| TimeScan.LeafMeaning | core/onvif_time.c:77-97 | the offsets inside the whole body delimit the leaf of the scope read on its own |
| TimeDocs.ScopeOfTags | core/onvif_time.c:45-73 | on any sequence of tags, balanced or not: what stands between the first attribute-free opening tag of the name and the next closing tag of the name |
| TimeDocs.LeafOfTags | core/onvif_time.c:77-97 | on any sequence of tags: the text after the first attribute-free opening tag of the name |
| TimeDocs.ScopeOfTree | core/onvif_time.c:45-73 | on a tree the scope is the content of the first attribute-free element of the name in document order if and only if its own closing tag has no white space and no element of the name with such a closing tag nests in it; with one nested it is a proper beginning of the content, otherwise it runs on |
| TimeDocs.ScannerReadsTrees | core/onvif_time.c:21-97 | on the text of every tree `leaf_text` returns the text of the first attribute-free element of the name, and `elem_scope` its content if and only if that condition holds |
| TimeDocs.NestedStopsShort | core/onvif_time.c:59-68 | a nested document in which the scope stops at the inner closing tag |
| TimeRequest.ParseSetRequest | core/onvif_time.c:126-183 | result and all fields of `*out`, on success and on failure, are those of the parse function, for every string; what they are in terms of the text, `TimeMeaning.ParsesBody` says |
| TimeRequest.LeavesOfTags | core/onvif_time.c:126-183 | on every document the parser sees the tags and nothing else |
| TimeRequest.ParseIgnoresPrefixes | core/onvif_time.c:3-5 | renaming, adding or removing namespace prefixes never changes the parse result |
| TimeMeaning.ParsesBody | core/onvif_time.c:126-183 | for every string: success if and only if a TimeZone scope comes with a TZ (in it or in the body) and a UTCDateTime scope with six numbers of 1 to 5 characters in 1970 to 9999, 1 to 12, 1 to 31, 0 to 23, 0 to 59 and 0 to 60; NTP mode, the first 47 characters of the zone, and on success the Unix time, each set exactly when it should be, also on failure |
| TimeMeaning.ParsesDocument | core/onvif_time.c:126-183 | the same for every document, in terms of its tags |
| TimeMeaning.SwitchToNtp | core/onvif_time.c:132-159 | the request that only switches to NTP succeeds with `ntp_mode` and nothing else set |
| TimeMeaning.ZoneWithoutTz | core/onvif_time.c:143-146 | a TimeZone without a TZ is refused |
| CText.ScanTakes | core/onvif_time.c:104-110 | for every text and width the number `strtol` and `sscanf` take is the white space, sign and digits at its start, as far as the width allows, and there is none exactly when no beginning of the text is a number |
| CText.DecimalExamples | core/onvif_time.c:104-110 | what digits, signs and leading blanks are, on written-out numbers |
| DateTimePage.BuildDateTime | core/onvif_xml.c:23-58 | the value is the length of the text; below the buffer size the buffer holds the whole text, otherwise its longest terminated prefix |
| DateTimePage.PrintsThePage | core/onvif_xml.c:23-58 | the printed response is the rendering of a sequence of tags |
| DateTimePage.PageIsWellFormed | core/onvif_xml.c:23-58 | for every `struct tm`, mode and zone without '<' these tags are well formed |
| DateTimePage.ReadsPage | core/onvif_xml.c:23-58 | read back with the element finder, for every zone without '<': the mode as NTP or MANUAL, no daylight saving, the zone (UTC when none is set), hour, minute and second under their names in Time, year, month and day in Date |
| DateTimePage.ParsePrinted | core/onvif_time.c:126-183 | what parsing gives for every printed `struct tm`, mode and zone without '<', in range or not |
| DateTimePage.RoundTrip | core/onvif_time.c:126-183 | fields in range come back as the same mode, zone and exact Unix time if and only if the zone has at most 47 characters and no '<'; with such a zone text free of '<', fields out of range are refused (a zone that holds elements of its own can make them parse) |
| DateTimePage.ParsedZone | core/onvif_time.c:137-154 | whatever the body, a parsed zone has at most 47 characters and no '<' |
| Ntp.ParseSetNtp | core/onvif_time.c:185-212 | the rows hold the first `max` texts after hits, all for IPv4Address before all for IPv6Address, of 1 to 45 characters; other rows are untouched |
| NtpDocs.KeepsUpTo45 | core/onvif_time.c:203-208 | of the texts found those of 1 to 45 characters are kept, in their order |
| Ntp.TakesUpTo | core/onvif_time.c:190-192 | the rows filled are the first min(max, number kept) |
| NtpDocs.ServersOfTags | core/onvif_time.c:185-212 | on every document the hits are the attribute-free opening tags and the closing tags without white space whose name ends in the target |
| NtpDocs.AddressedByLocalName | core/onvif_time.c:193-200 | those are the names whose local name is the target or ends in '.' and the target |
| NtpDocs.UndottedMatch | core/onvif_time.c:193-200 | for local names without dots that is equality |
| NtpDocs.ServersAreTheLeaves | core/onvif_time.c:185-212 | before the limit, the list is that of the elements the suffix test addresses if and only if no closing tag it addresses is followed by a text of 1 to 45 characters |
| NtpDocs.FirstServersAreTheLeaves | core/onvif_time.c:185-212 | by local name and for every `max`: the result is the first `max` address leaves, IPv4 before IPv6, if and only if no closing address tag is followed by a text of 1 to 45 characters |
| NtpDocs.RequestOrder | core/onvif_time.h:35-36 | where the list is that of the leaves it is the request's addresses sorted by kind, which is the request's order if and only if no IPv6 address stands before an IPv4 address |
| NtpDocs.SixThenFour | core/onvif_time.h:35-36 | a request for an IPv6 and then an IPv4 server, answered in the other order |
| NtpDocs.CompactServers | core/onvif_time.c:185-212 | in a document without text after closing tags it always is |
| NtpDocs.IndentedDocument | core/onvif_time.c:185-212 | an indented document in which it is not |
| EventRing.Ring.Push | core/onvif_events_ring.c:14-27 | the contents become the old ones with the event appended, the oldest gone first when twelve were queued |
| EventRing.Ring.Pop | core/onvif_events_ring.c:29-38 | takes the oldest event off the contents; an empty ring changes nothing |
| EventRing.Ring.Reset | core/onvif_events_ring.c:7-12 | empties the ring |
| EventRing.WindowAppend | core/onvif_events_ring.c:20-25 | writing behind the last of fewer than twelve events, wrapping round, appends to the window |
| EventRing.WindowDrop | core/onvif_events_ring.c:16-19 | moving the head on, wrapping round, drops the oldest of the window |
| PullPoint.PullPoint.SubAlive | esp_idf/onvif_c_events.c:120-131 | the state converges to closed exactly when a deadline has passed |
| PullPoint.PullPoint.HandleCreatePullPoint | esp_idf/onvif_c_events.c:137-160 | takes the Create step |
| PullPoint.PullPoint.Drain | esp_idf/onvif_c_events.c:196-208 | the pull loop takes exactly the first min(limit, queued) events, prints them in order and never overflows |
| PullPoint.PullPoint.HandlePullMessages | esp_idf/onvif_c_events.c:162-227 | takes the Pull step for any MessageLimit text; the page is that of exactly the delivered events (what it says, `PullReader` shows) and stays below 4096, so no popped event is lost |
| PullPoint.PullPoint.HandleRenew | esp_idf/onvif_c_events.c:229-252 | takes the Renew step |
| PullPoint.PullPoint.HandleUnsubscribe | esp_idf/onvif_c_events.c:254-262 | takes the Unsubscribe step |
| PullPoint.PullPoint.Motion | esp_idf/onvif_c_events.c:309-326 | takes the Motion step, with the lock taken or not |
| PullPoint.MessageLimit | esp_idf/onvif_c_events.c:164-173 | for every body whose first MessageLimit tag holds the number n the limit is n when that is 1 to 5 and 6 otherwise; without MessageLimit or without '>' it is 6 |
| Subscription.LimitOfNumber | esp_idf/onvif_c_events.c:164-173 | whatever stands before, inside and behind that tag, its number is the limit of the Pull step when it is 1 to 5, and 6 otherwise |
| CText.AtoiWithoutNumber | esp_idf/onvif_c_events.c:168-172 | `atoi` gives zero when no beginning of the text is a number |
| PullPages.TextsAreBounded | core/onvif_xml.c:336-360 | for any time stamps, score and state an event prints in 1 to 480 characters and the end in 1 to 200 |
| PullReader.ReadsUtcTimes | core/onvif_xml.c:336-352 | the UtcTime values read back from a page are the time stamps of its events, in order, for every list of events and time stamps without '<' and '"' |
| PullReader.ReadsStates | core/onvif_xml.c:336-352 | the State values are "true" for the events that start a motion and "false" for the others, in order |
| PullReader.ReadsScores | core/onvif_xml.c:336-352 | the Score values are numbers and the scores of the events, in order |
| PullReader.ReadsEnd | core/onvif_xml.c:353-360 | CurrentTime is the present time and TerminationTime the end of the subscription |
| SubscriptionRuns.EveryAnswer | esp_idf/onvif_c_events.c:137-326 | after every run: Create and Renew grant 3600 s, a pull in time answers the first min(limit, queued) events and the end of the last grant and takes them off the queue, one too late or after the end is a fault, one without memory changes nothing, a motion is queued (the oldest gone when twelve were) exactly when enabled, locked and open and leaves no trace otherwise |
| SubscriptionRuns.ValidExactlyWhenOpen | esp_idf/onvif_c_events.c:120-262 | over every run the subscription is marked valid if and only if it was created, not unsubscribed from since, and no pull with memory and no renew came more than 120 s after the last pull or 3600 s after the last grant |
| SubscriptionRuns.DeliveredThenQueued | esp_idf/onvif_c_events.c:137-227 | over every run and any clock, delivered then queued events are the ones pushed since Create without the dropped ones, in order, and what is queued is newer than all of those |
| SubscriptionRuns.DropsTheOldestOfTwelve | core/onvif_events_ring.c:14-27 | over every run an event is dropped only by a push onto twelve, and then it is the oldest of them |
| SubscriptionRuns.LosslessExactly | esp_idf/onvif_c_events.c:162-227 | over every run, delivered then queued is everything pushed since Create if and only if nothing was dropped |
| SubscriptionRuns.LosslessWithoutBacklog | esp_idf/onvif_c_events.c:162-227 | that is so if and only if no push since the last Create met a full ring, whatever happened to earlier subscriptions |
| SubscriptionRuns.ClosedStaysClosed | esp_idf/onvif_c_events.c:120-131 | from a closed state no pull or renew of any run succeeds before the next Create |
| SubscriptionRuns.ExpiryIsFinal | esp_idf/onvif_c_events.c:188-262 | so it is after an expiry fault and after an unsubscribe, whatever times are read |
| SubscriptionRuns.PastDeadlineIsSilent | esp_idf/onvif_c_events.c:120-131 | once a deadline has passed nothing succeeds on a non-decreasing clock, although the state is still marked valid |
| SubscriptionRuns.LateMotionIsNeverDelivered | esp_idf/onvif_c_events.c:309-326 | on a non-decreasing clock nothing is delivered after a motion past the deadline until a Create, which forgets the queue |
| SubscriptionRuns.LateMotionNeedsTheClock | esp_idf/onvif_c_events.c:188-213 | a run of Create, late motion and a pull that read the clock earlier, which delivers that motion |
| SubscriptionRuns.QueuedPastDeadline | esp_idf/onvif_c_events.c:309-326 | after every run a motion is queued past a deadline if and only if the subscription is still marked valid and the time is more than 120 s after the last pull or 3600 s after the last grant |
| SubscriptionRuns.PullsAreClose | esp_idf/onvif_c_events.c:120-131 | over every run consecutive successful pulls are at most 120 s apart, however often it is renewed |
| SubscriptionRuns.SucceedsExactlyInTime | esp_idf/onvif_c_events.c:120-131 | after every run a pull or renew of an open subscription succeeds if and only if it is at most 120 s after the last pull and 3600 s after the last grant |
| Scopes.GetScopes | core/onvif_xml.c:415-454 | for every scopes string and buffer size: the value is below the size if and only if header, one item per non-empty piece and footer all fit, and the buffer then holds that text, terminated, and the value is its length |
| Scopes.TokensAreThePieces | core/onvif_xml.c:430-448 | skipping spaces and measuring tokens yields the non-empty pieces between spaces, in order |
| Scopes.PiecesAreTheText | core/onvif_xml.c:430-448 | the pieces have no space, and joined with single spaces they are the text |
| Scopes.ReadsScopes | core/onvif_xml.c:436-446 | the ScopeItem texts read back from the response are the non-empty pieces, in order, if and only if the scopes have no '<' |
| CText.Snprintf | core/onvif_xml.c:438-446 | what the builders rely on: the full length is returned, what fits is written and terminated, nothing else changes |

## Left out

- Sockets, multicast, mDNS, HTTP, task creation, logging and SOAP dispatch: no logic of their own.
- FreeRTOS mutexes: mutual exclusion is taken for granted; the zero-timeout take of `onvif_c_motion` is an input that may fail.
- The responses of Create, Renew and Unsubscribe and the other builders of `core/onvif_xml.c` and `core/onvif_probe.c`: fixed templates.
- Null pointer checks for bodies and output arguments: references here are never null; `envelope`, `username`, `password`, the scopes string, the time zone and the cache, where null has a meaning, are optional.
- The C library in full: `sscanf`, `strtol`, `atoi`, `strstr`, `snprintf` are functions of what the code needs; numbers of any length have their value, where `atoi` and `strtol` would overflow.
- `int` overflow of `n`, `len` and `off` beyond 2^31 and `int64_t` overflow of times: integers are unbounded except where the source relies on wrapping (SHA-1 words, the Base64 accumulator, `next`, `generated`, the calendar's `unsigned`).
- The time `ct_memeq` takes: only its result is modelled.
- TokenRules.MeetsTheProfile: whether some message of more than 119 bytes has the initial constants as its SHA-1 stays open; to find out would mean inverting SHA-1.
- TokenRules.AnswersDigestTokens: the absence of `#PasswordText` is a condition on the envelope's text, as in the code; password texts have eight-bit characters, as C's do.
- NtpDocs.ServersOfTags: documents with '>' inside texts or attribute values are not described by tags; `Ntp.ParseSetNtp` covers them as strings.
- WsseScan.FieldOfTags: documents with '>' inside attribute values, and a comment without '>' whose first word ends in ':' and the name, are not described by tags; `WsseScan.ReadElement` covers them as strings.
- TokenRules.NewestRequestGoes: that sixteen requests with different nonce hashes exist is not shown, since it would take sixteen evaluations of SHA-1.
