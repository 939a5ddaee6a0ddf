/** What a SetSystemDateAndTime request comes to: success and every field, from the leaves of the document
alone, without the parser's own steps. */
module TimeMeaning {
  import opened CText
  import opened Calendar
  import opened Markup
  import opened TimeScan
  import opened TimeDocs
  import opened TimeRequest
  import opened DateTimePage

  /** The leaf is there, has one to five characters, and is a number in [lo, hi]. */
  predicate LeafSays(leaf: Option<string>, lo: int, hi: int, v: int) {
    leaf.Some? && 1 <= |leaf.value| <= 5 && Says(leaf.value, v) && lo <= v <= hi
  }

  predicate ClockSays(c: Clock, y: int, mo: int, d: int, h: int, mi: int, s: int) {
    && LeafSays(c.year, 1970, 9999, y) && LeafSays(c.month, 1, 12, mo) && LeafSays(c.day, 1, 31, d)
    && LeafSays(c.hour, 0, 23, h) && LeafSays(c.minute, 0, 59, mi) && LeafSays(c.second, 0, 60, s)
  }

  /** All six leaves are numbers in range. */
  ghost predicate IsMoment(c: Clock) {
    exists y, mo, d, h, mi, s :: ClockSays(c, y, mo, d, h, mi, s)
  }

  /** `e` is the number of seconds from 1970-01-01 to the moment the clock says. */
  ghost predicate IsEpoch(c: Clock, e: int) {
    forall y, mo, d, h, mi, s :: ClockSays(c, y, mo, d, h, mi, s) ==>
      e == ((DayCount(y, mo, d) * 24 + h) * 60 + mi) * 60 + s
  }

  /** A request succeeds exactly when a TimeZone element comes with a TZ and a UTCDateTime element with
      six numbers in range. The mode is NTP exactly when DateTimeType says so, the first 47 characters of
      the TZ are kept, both also when the request fails later, and the moment only on success. */
  ghost predicate ComesTo(
      p: (bool, Request), mode: Option<string>, zone: bool, tz: Option<string>, utc: bool, clock: Clock)
  {
    var (ok, r) := p;
    && (ok <==> (zone ==> tz.Some?) && (utc ==> IsMoment(clock)))
    && (r.ntpMode <==> mode == Some("NTP"))
    && (r.hasTz <==> zone && tz.Some?)
    && (r.hasTz ==> r.tz == if |tz.value| > 47 then tz.value[..47] else tz.value)
    && (!r.hasTz ==> r.tz == "")
    && (r.hasUtc <==> ok && utc)
    && (r.hasUtc ==> IsEpoch(clock, r.utcEpoch))
    && (!r.hasUtc ==> r.utcEpoch == 0)
  }

  // ----- one number -----

  lemma FieldSays(leaf: Option<string>, lo: int, hi: int, v: int)
    ensures NumberField(leaf, lo, hi) == Some(v) <==> LeafSays(leaf, lo, hi, v)
  {
    if leaf.Some? { ScansWhole(leaf.value, v); }
  }

  // ----- the clock -----

  /** When the code finds an epoch the clock says a moment, and it is the one. */
  lemma ClockMoment(c: Clock, e: int)
    requires EpochOf(c) == Some(e)
    ensures IsMoment(c) && IsEpoch(c, e)
  {
    var y, mo := NumberField(c.year, 1970, 9999).value, NumberField(c.month, 1, 12).value;
    var d, h := NumberField(c.day, 1, 31).value, NumberField(c.hour, 0, 23).value;
    var mi, s := NumberField(c.minute, 0, 59).value, NumberField(c.second, 0, 60).value;
    ClockFields(c, y, mo, d, h, mi, s);
    assert ClockSays(c, y, mo, d, h, mi, s);
    EpochIs(y, mo, d, h, mi, s);
    forall y1, mo1, d1, h1, mi1, s1 | ClockSays(c, y1, mo1, d1, h1, mi1, s1)
      ensures e == ((DayCount(y1, mo1, d1) * 24 + h1) * 60 + mi1) * 60 + s1
    {
      ClockFields(c, y1, mo1, d1, h1, mi1, s1);
    }
  }

  lemma EpochIs(y: int, mo: int, d: int, h: int, mi: int, s: int)
    requires 1 <= mo <= 12 && 1 <= d <= 31
    ensures Epoch(y, mo, d, h, mi, s) == ((DayCount(y, mo, d) * 24 + h) * 60 + mi) * 60 + s
  {
    DaysFromCivilCounts(y, mo, d);
  }

  lemma ClockFields(c: Clock, y: int, mo: int, d: int, h: int, mi: int, s: int)
    ensures ClockSays(c, y, mo, d, h, mi, s) <==>
            && NumberField(c.year, 1970, 9999) == Some(y) && NumberField(c.month, 1, 12) == Some(mo)
            && NumberField(c.day, 1, 31) == Some(d) && NumberField(c.hour, 0, 23) == Some(h)
            && NumberField(c.minute, 0, 59) == Some(mi) && NumberField(c.second, 0, 60) == Some(s)
  {
    FieldSays(c.year, 1970, 9999, y);
    FieldSays(c.month, 1, 12, mo);
    FieldSays(c.day, 1, 31, d);
    FieldSays(c.hour, 0, 23, h);
    FieldSays(c.minute, 0, 59, mi);
    FieldSays(c.second, 0, 60, s);
  }

  lemma NoMoment(c: Clock)
    requires EpochOf(c) == None
    ensures !IsMoment(c)
  {
    forall y, mo, d, h, mi, s
      ensures !ClockSays(c, y, mo, d, h, mi, s)
    {
      ClockFields(c, y, mo, d, h, mi, s);
    }
  }

  // ----- the request -----

  /** The leaves the parser reads. */
  lemma LeavesComeTo(mode: Option<string>, zone: bool, tz: Option<string>, utc: bool, clock: Clock)
    ensures ComesTo(Interpret(Leaves(mode, if zone then Some(tz) else None, if utc then Some(clock) else None)),
                    mode, zone, tz, utc, clock)
  {
    var epoch := EpochOf(clock);
    if epoch.Some? {
      ClockMoment(clock, epoch.value);
    } else {
      NoMoment(clock);
    }
    InterpretComesTo(mode, zone, tz, utc, clock);
  }

  lemma InterpretComesTo(mode: Option<string>, zone: bool, tz: Option<string>, utc: bool, clock: Clock)
    requires IsMoment(clock) <==> EpochOf(clock).Some?
    requires EpochOf(clock).Some? ==> IsEpoch(clock, EpochOf(clock).value)
    ensures ComesTo(Interpret(Leaves(mode, if zone then Some(tz) else None, if utc then Some(clock) else None)),
                    mode, zone, tz, utc, clock)
  {
  }

  const NO_CLOCK := Clock(None, None, None, None, None, None)

  /** For every body: what the request comes to, from what `elem_scope` and `leaf_text` find. */
  lemma ParsesBody(body: string)
    ensures var zone, utc := Scope(body, "TimeZone"), Scope(body, "UTCDateTime");
            var inner := if zone.Some? then Leaf(zone.value, "TZ") else None;
            var t := if utc.Some? then utc.value else "";
            ComesTo(Parse(body), Leaf(body, "DateTimeType"),
                    zone.Some?, if inner.Some? then inner else Leaf(body, "TZ"),
                    utc.Some?, Clock(Leaf(t, "Year"), Leaf(t, "Month"), Leaf(t, "Day"),
                                     Leaf(t, "Hour"), Leaf(t, "Minute"), Leaf(t, "Second")))
  {
    var zone, utc := Scope(body, "TimeZone"), Scope(body, "UTCDateTime");
    var inner := if zone.Some? then Leaf(zone.value, "TZ") else None;
    var clock := ClockOf(if utc.Some? then utc.value else "");
    LeavesComeTo(Leaf(body, "DateTimeType"), zone.Some?, if inner.Some? then inner else Leaf(body, "TZ"),
                 utc.Some?, clock);
  }

  /** For every document: what the request comes to, from its tags. */
  lemma ParsesDocument(doc: Section)
    requires IsSection(doc)
    ensures var zone, utc := ScopeOf(doc, "TimeZone"), ScopeOf(doc, "UTCDateTime");
            var inner := if zone.Some? then LeafOf(zone.value, "TZ") else None;
            var t := if utc.Some? then utc.value else Section("", []);
            ComesTo(Parse(TextOf(doc)), LeafOf(doc, "DateTimeType"),
                    zone.Some?, if inner.Some? then inner else LeafOf(doc, "TZ"),
                    utc.Some?, Clock(LeafOf(t, "Year"), LeafOf(t, "Month"), LeafOf(t, "Day"),
                                     LeafOf(t, "Hour"), LeafOf(t, "Minute"), LeafOf(t, "Second")))
  {
    var zone, utc := ScopeOf(doc, "TimeZone"), ScopeOf(doc, "UTCDateTime");
    var inner := if zone.Some? then LeafOf(zone.value, "TZ") else None;
    var clock := ClockOfDoc(if utc.Some? then utc.value else Section("", []));
    LeavesOfTags(doc);
    LeavesComeTo(LeafOf(doc, "DateTimeType"), zone.Some?, if inner.Some? then inner else LeafOf(doc, "TZ"),
                 utc.Some?, clock);
  }

  // ----- two requests -----

  const SET := "SetSystemDateAndTime"
  const TYPE := "DateTimeType"

  function SwitchTags(): seq<Tag> {
    [Start("tds", SET)] + ([Open(Name("tds", TYPE), "", "NTP")] + ([End("tds", TYPE)] + [End("tds", SET)]))
  }

  lemma RequestNames()
    ensures IsName("tds") && IsName(SET) && IsName(TYPE)
    ensures TYPE != SET && "TimeZone" != SET && "TimeZone" != TYPE && "UTCDateTime" != SET && "UTCDateTime" != TYPE
  {
    assert |SET| == 20 && |TYPE| == 12 && |"TimeZone"| == 8 && |"UTCDateTime"| == 11;
  }

  lemma SwitchText()
    ensures Render(SwitchTags()) ==
            "<tds:SetSystemDateAndTime>" + ("<tds:DateTimeType>NTP"
            + ("</tds:DateTimeType>" + "</tds:SetSystemDateAndTime>"))
  {
    var leaf := Open(Name("tds", TYPE), "", "NTP");
    RenderMarks("tds", SET);
    RenderMarks("tds", TYPE);
    RenderOne(leaf);
    RenderConcat([End("tds", TYPE)], [End("tds", SET)]);
    RenderConcat([leaf], [End("tds", TYPE)] + [End("tds", SET)]);
    RenderConcat([Start("tds", SET)], [leaf] + ([End("tds", TYPE)] + [End("tds", SET)]));
    SetOpens();
    SetCloses();
    TypeMarks();
  }

  lemma SetOpens()
    ensures StartMark("tds", SET) == "<tds:SetSystemDateAndTime>"
  {
  }

  lemma SetCloses()
    ensures EndMark("tds", SET) == "</tds:SetSystemDateAndTime>"
  {
  }

  lemma TypeMarks()
    ensures "<" + Body(Open(Name("tds", TYPE), "", "NTP")) == "<tds:DateTimeType>NTP"
    ensures EndMark("tds", TYPE) == "</tds:DateTimeType>"
  {
  }

  lemma SwitchLeaves()
    ensures var doc := Section("", SwitchTags());
            && IsSection(doc) && LeafOf(doc, TYPE) == Some("NTP")
            && ScopeOf(doc, "TimeZone") == None && ScopeOf(doc, "UTCDateTime") == None
  {
    var leaf := Open(Name("tds", TYPE), "", "NTP");
    var rest := [leaf] + ([End("tds", TYPE)] + [End("tds", SET)]);
    RequestNames();
    MissesBox("tds", SET, rest, TYPE);
    assert OpenHit(rest[0], TYPE);
    Misses(SwitchTags(), [], "TimeZone");
    Misses(SwitchTags(), [], "UTCDateTime");
    assert SwitchTags() + [] == SwitchTags();
  }

  /** The switch to NTP, without a time and without a zone, succeeds. */
  lemma SwitchToNtp()
    ensures Parse("<tds:SetSystemDateAndTime>" + ("<tds:DateTimeType>NTP"
                  + ("</tds:DateTimeType>" + "</tds:SetSystemDateAndTime>")))
            == (true, Request(true, false, 0, false, ""))
  {
    var doc := Section("", SwitchTags());
    SwitchLeaves();
    SwitchText();
    ParsesDocument(doc);
    assert TextOf(doc) == Render(SwitchTags());
  }

  /** A TimeZone without a TZ is refused. */
  lemma ZoneWithoutTz()
    ensures Parse("<a:TimeZone>" + "</a:TimeZone>") == (false, Request(false, false, 0, false, ""))
  {
    var tags := [Start("a", "TimeZone")] + [End("a", "TimeZone")];
    var doc := Section("", tags);
    ZoneLeaves();
    RenderMarks("a", "TimeZone");
    RenderConcat([Start("a", "TimeZone")], [End("a", "TimeZone")]);
    assert StartMark("a", "TimeZone") == "<a:TimeZone>" && EndMark("a", "TimeZone") == "</a:TimeZone>";
    ParsesDocument(doc);
    assert TextOf(doc) == Render(tags);
  }

  lemma ZoneLeaves()
    ensures var doc := Section("", [Start("a", "TimeZone")] + [End("a", "TimeZone")]);
            && IsSection(doc) && LeafOf(doc, TYPE) == None && LeafOf(doc, "TZ") == None
            && ScopeOf(doc, "TimeZone") == Some(Section("", [])) && ScopeOf(doc, "UTCDateTime") == None
  {
    var open, close := Start("a", "TimeZone"), End("a", "TimeZone");
    var tags := [open] + [close];
    BoxNamesDiffer();
    assert IsName("a") && IsName("TimeZone");
    Misses(tags, [], TYPE);
    Misses(tags, [], "TZ");
    Misses(tags, [], "UTCDateTime");
    assert tags + [] == tags && tags[1..] == [close];
  }
}
