/** SetSystemDateAndTime requests: `onvif_time_parse_set_request` of core/onvif_time.c. */
module TimeRequest {
  import opened CText
  import opened Calendar
  import opened Markup
  import opened TimeScan
  import opened TimeDocs

  const TZ_MAX: nat := 47

  datatype Request = Request(ntpMode: bool, hasUtc: bool, utcEpoch: int, hasTz: bool, tz: string)

  const BLANK := Request(false, false, 0, false, "")

  // ----- what the parser reads, and what it makes of it -----

  /** The six leaves of a UTCDateTime. */
  datatype Clock = Clock(
    year: Option<string>, month: Option<string>, day: Option<string>,
    hour: Option<string>, minute: Option<string>, second: Option<string>)

  /** `zone` is the TZ text looked up for a TimeZone element, when there is one. */
  datatype Leaves = Leaves(mode: Option<string>, zone: Option<Option<string>>, utc: Option<Clock>)

  function ClockOf(scope: string): Clock {
    Clock(Leaf(scope, "Year"), Leaf(scope, "Month"), Leaf(scope, "Day"),
          Leaf(scope, "Hour"), Leaf(scope, "Minute"), Leaf(scope, "Second"))
  }

  function LeavesOf(body: string): Leaves {
    var zone := Scope(body, "TimeZone");
    var utc := Scope(body, "UTCDateTime");
    Leaves(
      Leaf(body, "DateTimeType"),
      if zone.None? then None
      else Some(if Leaf(zone.value, "TZ").Some? then Leaf(zone.value, "TZ") else Leaf(body, "TZ")),
      if utc.None? then None else Some(ClockOf(utc.value)))
  }

  /** `parse_num`: at most five characters, all of them one decimal number in [lo, hi]. */
  function ParseNum(s: string, lo: int, hi: int): (r: Option<int>)
    ensures r.Some? ==> lo <= r.value <= hi
  {
    if s == "" || |s| > 5 then None
    else match ScanInt(s, |s|)
      case None => None
      case Some((v, used)) => if used != |s| || v < lo || v > hi then None else Some(v)
  }

  function NumberField(leaf: Option<string>, lo: int, hi: int): (r: Option<int>)
    ensures r.Some? ==> lo <= r.value <= hi
  {
    match leaf
    case None => None
    case Some(s) => ParseNum(s, lo, hi)
  }

  function Epoch(y: int, mo: int, d: int, h: int, mi: int, s: int): int {
    DaysFromCivil(y, mo, d) * 86400 + h * 3600 + mi * 60 + s
  }

  function EpochOf(c: Clock): Option<int> {
    var y := NumberField(c.year, 1970, 9999);
    var mo := NumberField(c.month, 1, 12);
    var d := NumberField(c.day, 1, 31);
    var h := NumberField(c.hour, 0, 23);
    var mi := NumberField(c.minute, 0, 59);
    var s := NumberField(c.second, 0, 60);
    if y.Some? && mo.Some? && d.Some? && h.Some? && mi.Some? && s.Some? then
      Some(Epoch(y.value, mo.value, d.value, h.value, mi.value, s.value))
    else None
  }

  function Clip(tz: string): string {
    if |tz| > TZ_MAX then tz[..TZ_MAX] else tz
  }

  /** Success, and the fields filled in, also on failure. */
  function Interpret(l: Leaves): (bool, Request) {
    var mode := BLANK.(ntpMode := l.mode == Some("NTP"));
    if l.zone == Some(None) then (false, mode)
    else
      var zone := if l.zone.None? then mode else mode.(hasTz := true, tz := Clip(l.zone.value.value));
      if l.utc.None? then (true, zone)
      else
        var epoch := EpochOf(l.utc.value);
        if epoch.None? then (false, zone)
        else (true, zone.(hasUtc := true, utcEpoch := epoch.value))
  }

  function Parse(body: string): (bool, Request) {
    Interpret(LeavesOf(body))
  }

  // ----- the code -----

  /** `*out`. */
  class TimeRequest {
    var ntpMode: bool
    var hasUtc: bool
    var utcEpoch: int
    var hasTz: bool
    var tz: string

    function View(): Request
      reads this
    {
      Request(ntpMode, hasUtc, utcEpoch, hasTz, tz)
    }

    constructor ()
      ensures View() == BLANK
    {
      ntpMode, hasUtc, utcEpoch, hasTz, tz := false, false, 0, false, "";
    }
  }

  /** `leaf_text` with its result as a string. */
  method ReadLeaf(s: string, scope: nat, end: nat, local: string) returns (leaf: Option<string>)
    requires scope <= end <= |s| && (end < |s| ==> s[end] == '<')
    ensures leaf == Leaf(s[scope..end], local)
  {
    var text, len := LeafText(s, scope, end, local);
    LeafMeaning(s, scope, end, local, text, len);
    leaf := if text.Some? then Some(s[text.value..text.value + len]) else None;
  }

  method ReadField(s: string, scope: nat, end: nat, local: string, lo: int, hi: int)
    returns (ok: bool, v: int)
    requires scope <= end <= |s| && (end < |s| ==> s[end] == '<')
    ensures NumberField(Leaf(s[scope..end], local), lo, hi) == if ok then Some(v) else None
  {
    var t := ReadLeaf(s, scope, end, local);
    if t.None? {
      return false, 0;
    }
    var n := ParseNum(t.value, lo, hi);
    if n.None? {
      return false, 0;
    }
    return true, n.value;
  }

  /** The six fields, read one after the other until one fails. */
  method ReadClock(s: string, us: nat, ue: nat) returns (epoch: Option<int>)
    requires us <= ue <= |s| && (ue < |s| ==> s[ue] == '<')
    ensures epoch == EpochOf(ClockOf(s[us..ue]))
  {
    ghost var c := ClockOf(s[us..ue]);
    var y, mo, d, h, mi, sec := 0, 0, 0, 0, 0, 0;
    var ok;
    ok, y := ReadField(s, us, ue, "Year", 1970, 9999);
    if ok { ok, mo := ReadField(s, us, ue, "Month", 1, 12); }
    if ok { ok, d := ReadField(s, us, ue, "Day", 1, 31); }
    if ok { ok, h := ReadField(s, us, ue, "Hour", 0, 23); }
    if ok { ok, mi := ReadField(s, us, ue, "Minute", 0, 59); }
    if ok { ok, sec := ReadField(s, us, ue, "Second", 0, 60); }
    if !ok {
      return None;
    }
    return Some(Epoch(y, mo, d, h, mi, sec));
  }

  /** The TimeZone block: the TZ inside it or, failing that, anywhere in the body. */
  method ReadZone(body: string) returns (zone: Option<Option<string>>)
    ensures zone == LeavesOf(body).zone
  {
    var scope, tze := ElemScope(body, "TimeZone");
    if scope.None? {
      return None;
    }
    var tz := ReadLeaf(body, scope.value, tze, "TZ");
    if tz.None? {
      assert body[0..|body|] == body;
      tz := ReadLeaf(body, 0, |body|, "TZ");
    }
    return Some(tz);
  }

  /** `onvif_time_parse_set_request`. */
  method ParseSetRequest(body: string, out: TimeRequest) returns (ok: bool)
    modifies out
    ensures (ok, out.View()) == Parse(body)
  {
    out.ntpMode, out.hasUtc, out.utcEpoch, out.hasTz, out.tz := false, false, 0, false, "";
    assert body[0..|body|] == body;
    var dt := ReadLeaf(body, 0, |body|, "DateTimeType");
    if dt == Some("NTP") {
      out.ntpMode := true;
    }
    var zone := ReadZone(body);
    if zone == Some(None) {
      return false;
    }
    if zone.Some? {
      out.tz := Clip(zone.value.value);
      out.hasTz := true;
    }
    var us, ue := ElemScope(body, "UTCDateTime");
    if us.None? {
      return true;
    }
    var epoch := ReadClock(body, us.value, ue);
    if epoch.None? {
      return false;
    }
    out.hasUtc := true;
    out.utcEpoch := epoch.value;
    return true;
  }

  // ----- what the parser makes of a document -----

  function ClockOfDoc(doc: Section): Clock {
    Clock(LeafOf(doc, "Year"), LeafOf(doc, "Month"), LeafOf(doc, "Day"),
          LeafOf(doc, "Hour"), LeafOf(doc, "Minute"), LeafOf(doc, "Second"))
  }

  function LeavesOfDoc(doc: Section): Leaves {
    var zone := ScopeOf(doc, "TimeZone");
    var utc := ScopeOf(doc, "UTCDateTime");
    Leaves(
      LeafOf(doc, "DateTimeType"),
      if zone.None? then None
      else Some(if LeafOf(zone.value, "TZ").Some? then LeafOf(zone.value, "TZ") else LeafOf(doc, "TZ")),
      if utc.None? then None else Some(ClockOfDoc(utc.value)))
  }

  lemma ClockOfTags(doc: Section)
    requires IsSection(doc)
    ensures ClockOf(TextOf(doc)) == ClockOfDoc(doc)
  {
    LeafOfTags(doc, "Year");
    LeafOfTags(doc, "Month");
    LeafOfTags(doc, "Day");
    LeafOfTags(doc, "Hour");
    LeafOfTags(doc, "Minute");
    LeafOfTags(doc, "Second");
  }

  /** On every document the parser sees the tags and nothing else. */
  lemma LeavesOfTags(doc: Section)
    requires IsSection(doc)
    ensures LeavesOf(TextOf(doc)) == LeavesOfDoc(doc)
  {
    LeafOfTags(doc, "DateTimeType");
    LeafOfTags(doc, "TZ");
    ScopeOfTags(doc, "TimeZone");
    ScopeOfTags(doc, "UTCDateTime");
    var zone, utc := ScopeOf(doc, "TimeZone"), ScopeOf(doc, "UTCDateTime");
    if zone.Some? { LeafOfTags(zone.value, "TZ"); }
    if utc.Some? { ClockOfTags(utc.value); }
  }

  lemma {:induction false} PrefixesDoNotMatter(a: seq<Tag>, b: seq<Tag>, local: string)
    requires SameButPrefixes(a, b)
    ensures match AfterOpen(a, local)
            case None => AfterOpen(b, local) == None
            case Some(r) =>
              AfterOpen(b, local).Some? && AfterOpen(b, local).value.text == r.text &&
              SameButPrefixes(r.tags, AfterOpen(b, local).value.tags)
    ensures SameButPrefixes(BeforeClose(a, local), BeforeClose(b, local))
  {
    if a != [] {
      assert Strip(a[0]) == Strip(b[0]);
      assert SameButPrefixes(a[1..], b[1..]);
      PrefixesDoNotMatter(a[1..], b[1..], local);
    }
  }

  lemma SameLeaf(a: Section, b: Section, local: string)
    requires a.text == b.text && SameButPrefixes(a.tags, b.tags)
    ensures LeafOf(a, local) == LeafOf(b, local)
  {
    PrefixesDoNotMatter(a.tags, b.tags, local);
  }

  lemma SameScope(a: Section, b: Section, local: string)
    requires a.text == b.text && SameButPrefixes(a.tags, b.tags)
    ensures var s, t := ScopeOf(a, local), ScopeOf(b, local);
            s.Some? == t.Some? &&
            (s.Some? ==> s.value.text == t.value.text && SameButPrefixes(s.value.tags, t.value.tags))
  {
    PrefixesDoNotMatter(a.tags, b.tags, local);
    var r := AfterOpen(a.tags, local);
    if r.Some? {
      PrefixesDoNotMatter(r.value.tags, AfterOpen(b.tags, local).value.tags, local);
    }
  }

  lemma SameClock(a: Section, b: Section)
    requires a.text == b.text && SameButPrefixes(a.tags, b.tags)
    ensures ClockOfDoc(a) == ClockOfDoc(b)
  {
    SameLeaf(a, b, "Year");
    SameLeaf(a, b, "Month");
    SameLeaf(a, b, "Day");
    SameLeaf(a, b, "Hour");
    SameLeaf(a, b, "Minute");
    SameLeaf(a, b, "Second");
  }

  /** Renaming, adding or removing namespace prefixes never changes the result, whatever the
      document and however its elements nest. */
  lemma ParseIgnoresPrefixes(a: Section, b: Section)
    requires IsSection(a) && IsSection(b)
    requires a.text == b.text && SameButPrefixes(a.tags, b.tags)
    ensures Parse(TextOf(a)) == Parse(TextOf(b))
  {
    LeavesOfTags(a);
    LeavesOfTags(b);
    SameLeaf(a, b, "DateTimeType");
    SameLeaf(a, b, "TZ");
    SameScope(a, b, "TimeZone");
    SameScope(a, b, "UTCDateTime");
    var s, t := ScopeOf(a, "TimeZone"), ScopeOf(b, "TimeZone");
    if s.Some? { SameLeaf(s.value, t.value, "TZ"); }
    var u, v := ScopeOf(a, "UTCDateTime"), ScopeOf(b, "UTCDateTime");
    if u.Some? { SameClock(u.value, v.value); }
  }
}
