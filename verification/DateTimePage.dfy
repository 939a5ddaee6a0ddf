/** The GetSystemDateAndTime response of core/onvif_xml.c, and what the SetSystemDateAndTime parser
makes of it. */
module DateTimePage {
  import opened CText
  import opened Calendar
  import opened Markup
  import opened TimeScan
  import opened TimeDocs
  import opened TimeRequest

  /** The fields of `struct tm` the printer uses. */
  datatype Tm = Tm(sec: int, min: int, hour: int, mday: int, mon: int, year: int)

  const ATTRS := SOAP_NS + TT_NS + TDS_NS
  const SOAP_NS := " xmlns:soap=\"" + "http://www.w3.org/" + "2003/05/" + "soap-envelope\""
  const TT_NS := " xmlns:tt=\"" + "http://www.onvif.org/" + "ver10/schema\""
  const TDS_NS := " xmlns:tds=\"" + "http://www.onvif.org/" + "ver10/device/wsdl\""

  const XML := "?xml version=\"1.0\" encoding=\"utf-8\"?>"

  /** A null or empty time zone prints as UTC. */
  function ZoneText(tz: Option<string>): (zone: string)
    ensures zone != ""
  {
    if tz.None? || tz.value == "" then "UTC" else tz.value
  }

  const SYSTEM := "SystemDateAndTime"
  const RESPONSE := "GetSystemDateAndTimeResponse"

  function StartMark(prefix: string, local: string): string {
    "<" + prefix + ":" + local + ">"
  }

  function EndMark(prefix: string, local: string): string {
    "</" + prefix + ":" + local + ">"
  }

  /** One leaf of the page. */
  function Line(local: string, text: string): string {
    StartMark("tt", local) + text + EndMark("tt", local)
  }

  function Joined(lines: seq<string>): string {
    if lines == [] then "" else lines[0] + Joined(lines[1..])
  }

  function HeadLines(): seq<string> {
    ["<" + XML, "<soap:Envelope" + ATTRS + ">", StartMark("soap", "Body"),
     StartMark("tds", RESPONSE), StartMark("tds", SYSTEM)]
  }

  function ModeText(ntp: bool): string {
    if ntp then "NTP" else "MANUAL"
  }

  /** An element around three leaves. */
  function BlockLines(box: string, l1: string, t1: string, l2: string, t2: string, l3: string, t3: string)
    : seq<string>
  {
    [StartMark("tt", box), Line(l1, t1), Line(l2, t2), Line(l3, t3), EndMark("tt", box)]
  }

  function HmsLines(tm: Tm): seq<string> {
    BlockLines("Time", "Hour", Decimal(tm.hour), "Minute", Decimal(tm.min), "Second", Decimal(tm.sec))
  }

  function YmdLines(tm: Tm): seq<string> {
    BlockLines("Date", "Year", Decimal(tm.year + 1900), "Month", Decimal(tm.mon + 1), "Day", Decimal(tm.mday))
  }

  function FootLines(): seq<string> {
    [EndMark("tds", SYSTEM), EndMark("tds", RESPONSE), EndMark("soap", "Body"), EndMark("soap", "Envelope")]
  }

  /** The lines from the UTCDateTime element on. */
  function ClockLines(tm: Tm): seq<string> {
    [StartMark("tt", "UTCDateTime")] + (HmsLines(tm) + (YmdLines(tm) + ([EndMark("tt", "UTCDateTime")] + FootLines())))
  }

  /** The lines from the DateTimeType element on. */
  function BodyLines(ntp: bool, zone: string): seq<string> {
    [Line("DateTimeType", ModeText(ntp)), Line("DaylightSavings", "false"),
     StartMark("tt", "TimeZone"), Line("TZ", zone), EndMark("tt", "TimeZone")]
  }

  /** `onvif_xml_system_date_and_time`. */
  function DateTimeText(tm: Tm, ntp: bool, tz: Option<string>): string {
    Joined(HeadLines() + (BodyLines(ntp, ZoneText(tz)) + ClockLines(tm)))
  }

  /** The builder with its buffer: a value below the size means the buffer holds the whole text. */
  method BuildDateTime(buf: array<char>, tm: Tm, ntp: bool, tz: Option<string>) returns (w: nat)
    modifies buf
    ensures Printed(buf, DateTimeText(tm, ntp, tz), w)
  {
    w := PrintWhole(buf, DateTimeText(tm, ntp, tz));
  }

  // ----- the same page as tags -----

  function Start(prefix: string, local: string): Tag {
    Open(Name(prefix, local), "", "")
  }

  function End(prefix: string, local: string): Tag {
    Close(Name(prefix, local), "")
  }

  /** <tt:local>text</tt:local> */
  function Leafy(local: string, text: string): seq<Tag> {
    [Open(Name("tt", local), "", text), End("tt", local)]
  }

  function Head(): seq<Tag> {
    [Misc(XML), Open(Name("soap", "Envelope"), ATTRS, ""), Start("soap", "Body"),
     Start("tds", RESPONSE), Start("tds", SYSTEM)]
  }

  /** A box around three leaves. */
  function Block(box: string, l1: string, t1: string, l2: string, t2: string, l3: string, t3: string): seq<Tag> {
    [Start("tt", box)] + (Leafy(l1, t1) + (Leafy(l2, t2) + (Leafy(l3, t3) + [End("tt", box)])))
  }

  function Hms(tm: Tm): seq<Tag> {
    Block("Time", "Hour", Decimal(tm.hour), "Minute", Decimal(tm.min), "Second", Decimal(tm.sec))
  }

  function Ymd(tm: Tm): seq<Tag> {
    Block("Date", "Year", Decimal(tm.year + 1900), "Month", Decimal(tm.mon + 1), "Day", Decimal(tm.mday))
  }

  function Foot(): seq<Tag> {
    [End("tds", SYSTEM), End("tds", RESPONSE), End("soap", "Body"), End("soap", "Envelope")]
  }

  /** The page from the UTCDateTime element on. */
  function ClockTags(tm: Tm): seq<Tag> {
    [Start("tt", "UTCDateTime")] + (Hms(tm) + (Ymd(tm) + ([End("tt", "UTCDateTime")] + Foot())))
  }

  /** The page from the TimeZone element on. */
  function ZoneTags(tm: Tm, zone: string): seq<Tag> {
    [Start("tt", "TimeZone")] + (Leafy("TZ", zone) + ([End("tt", "TimeZone")] + ClockTags(tm)))
  }

  function Page(tm: Tm, ntp: bool, zone: string): seq<Tag> {
    Head()
    + (Leafy("DateTimeType", ModeText(ntp))
    + (Leafy("DaylightSavings", "false")
    + ZoneTags(tm, zone)))
  }

  // ----- the printed response is the rendering of the page -----

  lemma RenderMarks(prefix: string, local: string)
    requires prefix != ""
    ensures Render([Start(prefix, local)]) == StartMark(prefix, local)
    ensures Render([End(prefix, local)]) == EndMark(prefix, local)
  {
    RenderOne(Start(prefix, local));
    RenderOne(End(prefix, local));
  }

  lemma OpenBody(local: string, text: string)
    ensures "<" + Body(Open(Name("tt", local), "", text)) == StartMark("tt", local) + text
  {
  }

  lemma RenderLeafy(local: string, text: string)
    ensures Render(Leafy(local, text)) == Line(local, text)
  {
    var open := Open(Name("tt", local), "", text);
    RenderMarks("tt", local);
    RenderOne(open);
    OpenBody(local, text);
    RenderConcat([open], [End("tt", local)]);
    assert Leafy(local, text) == [open] + [End("tt", local)];
  }

  lemma {:induction false} JoinedConcat(a: seq<string>, b: seq<string>)
    ensures Joined(a + b) == Joined(a) + Joined(b)
  {
    if a == [] {
      assert a + b == b;
    } else {
      JoinedConcat(a[1..], b);
      assert (a + b)[1..] == a[1..] + b && (a + b)[0] == a[0];
      Associate(a[0], Joined(a[1..]), Joined(b));
    }
  }

  lemma JoinedOne(line: string)
    ensures Joined([line]) == line
  {
    assert [line][1..] == [];
  }

  /** The tags render to the lines. */
  predicate Prints(tags: seq<Tag>, lines: seq<string>) {
    Render(tags) == Joined(lines)
  }

  lemma PrintsBoth(a: seq<Tag>, l: seq<string>, b: seq<Tag>, m: seq<string>)
    requires Prints(a, l) && Prints(b, m)
    ensures Prints(a + b, l + m)
  {
    RenderConcat(a, b);
    JoinedConcat(l, m);
  }

  lemma PrintsOne(t: Tag, line: string)
    requires "<" + Body(t) == line
    ensures Prints([t], [line])
  {
    RenderOne(t);
    JoinedOne(line);
  }

  lemma PrintsMarks(prefix: string, local: string)
    requires prefix != ""
    ensures Prints([Start(prefix, local)], [StartMark(prefix, local)])
    ensures Prints([End(prefix, local)], [EndMark(prefix, local)])
  {
    RenderMarks(prefix, local);
    JoinedOne(StartMark(prefix, local));
    JoinedOne(EndMark(prefix, local));
  }

  lemma PrintsLeafy(local: string, text: string)
    ensures Prints(Leafy(local, text), [Line(local, text)])
  {
    RenderLeafy(local, text);
    JoinedOne(Line(local, text));
  }

  /** Five pieces of one line each. */
  lemma PrintsFive(a: seq<Tag>, b: seq<Tag>, c: seq<Tag>, d: seq<Tag>, e: seq<Tag>,
                   l: string, m: string, n: string, o: string, p: string)
    requires Prints(a, [l]) && Prints(b, [m]) && Prints(c, [n]) && Prints(d, [o]) && Prints(e, [p])
    ensures Prints(a + (b + (c + (d + e))), [l, m, n, o, p])
  {
    PrintsBoth(d, [o], e, [p]);
    PrintsBoth(c, [n], d + e, [o] + [p]);
    PrintsBoth(b, [m], c + (d + e), [n] + ([o] + [p]));
    PrintsBoth(a, [l], b + (c + (d + e)), [m] + ([n] + ([o] + [p])));
    assert [l] + ([m] + ([n] + ([o] + [p]))) == [l, m, n, o, p];
  }

  lemma PrintsBlock(box: string, l1: string, t1: string, l2: string, t2: string, l3: string, t3: string)
    ensures Prints(Block(box, l1, t1, l2, t2, l3, t3), BlockLines(box, l1, t1, l2, t2, l3, t3))
  {
    PrintsMarks("tt", box);
    PrintsLeafy(l1, t1);
    PrintsLeafy(l2, t2);
    PrintsLeafy(l3, t3);
    PrintsFive([Start("tt", box)], Leafy(l1, t1), Leafy(l2, t2), Leafy(l3, t3), [End("tt", box)],
               StartMark("tt", box), Line(l1, t1), Line(l2, t2), Line(l3, t3), EndMark("tt", box));
  }

  lemma EnvelopePrints()
    ensures Prints([Open(Name("soap", "Envelope"), ATTRS, "")], ["<soap:Envelope" + ATTRS + ">"])
  {
    EnvelopeBody(ATTRS);
    PrintsOne(Open(Name("soap", "Envelope"), ATTRS, ""), "<soap:Envelope" + ATTRS + ">");
  }

  lemma EnvelopeBody(attrs: string)
    ensures "<" + Body(Open(Name("soap", "Envelope"), attrs, "")) == "<soap:Envelope" + attrs + ">"
  {
  }

  lemma PrintsHead()
    ensures Prints(Head(), HeadLines())
  {
    var e := Open(Name("soap", "Envelope"), ATTRS, "");
    PrintsOne(Misc(XML), "<" + XML);
    EnvelopePrints();
    PrintsMarks("soap", "Body");
    PrintsMarks("tds", RESPONSE);
    PrintsMarks("tds", SYSTEM);
    FiveTags(Misc(XML), e, Start("soap", "Body"), Start("tds", RESPONSE), Start("tds", SYSTEM));
    PrintsFive([Misc(XML)], [e], [Start("soap", "Body")], [Start("tds", RESPONSE)], [Start("tds", SYSTEM)],
               "<" + XML, "<soap:Envelope" + ATTRS + ">", StartMark("soap", "Body"),
               StartMark("tds", RESPONSE), StartMark("tds", SYSTEM));
  }

  lemma FiveTags(a: Tag, b: Tag, c: Tag, d: Tag, e: Tag)
    ensures [a, b, c, d, e] == [a] + ([b] + ([c] + ([d] + [e])))
  {
  }

  lemma PrintsFour(a: Tag, b: Tag, c: Tag, d: Tag, l: string, m: string, n: string, o: string)
    requires Prints([a], [l]) && Prints([b], [m]) && Prints([c], [n]) && Prints([d], [o])
    ensures Prints([a, b, c, d], [l, m, n, o])
  {
    PrintsBoth([a], [l], [b], [m]);
    PrintsBoth([c], [n], [d], [o]);
    PrintsBoth([a] + [b], [l] + [m], [c] + [d], [n] + [o]);
    assert [a, b, c, d] == [a] + [b] + ([c] + [d]) && [l, m, n, o] == [l] + [m] + ([n] + [o]);
  }

  lemma PrintsFoot()
    ensures Prints(Foot(), FootLines())
  {
    PrintsMarks("tds", SYSTEM);
    PrintsMarks("tds", RESPONSE);
    PrintsMarks("soap", "Body");
    PrintsMarks("soap", "Envelope");
    PrintsFour(End("tds", SYSTEM), End("tds", RESPONSE), End("soap", "Body"), End("soap", "Envelope"),
               EndMark("tds", SYSTEM), EndMark("tds", RESPONSE), EndMark("soap", "Body"), EndMark("soap", "Envelope"));
  }

  lemma PrintsHms(tm: Tm)
    ensures Prints(Hms(tm), HmsLines(tm))
  {
    PrintsBlock("Time", "Hour", Decimal(tm.hour), "Minute", Decimal(tm.min), "Second", Decimal(tm.sec));
  }

  lemma PrintsYmd(tm: Tm)
    ensures Prints(Ymd(tm), YmdLines(tm))
  {
    PrintsBlock("Date", "Year", Decimal(tm.year + 1900), "Month", Decimal(tm.mon + 1), "Day", Decimal(tm.mday));
  }

  lemma PrintsClock(tm: Tm)
    ensures Prints(ClockTags(tm), ClockLines(tm))
  {
    var utc, end := [StartMark("tt", "UTCDateTime")], [EndMark("tt", "UTCDateTime")];
    PrintsMarks("tt", "UTCDateTime");
    PrintsHms(tm);
    PrintsYmd(tm);
    PrintsFoot();
    PrintsParts([Start("tt", "UTCDateTime")], utc, Hms(tm), HmsLines(tm), Ymd(tm), YmdLines(tm),
                [End("tt", "UTCDateTime")], end, Foot(), FootLines());
  }

  lemma PrintsParts(a: seq<Tag>, l: seq<string>, b: seq<Tag>, m: seq<string>, c: seq<Tag>, n: seq<string>,
                    d: seq<Tag>, o: seq<string>, e: seq<Tag>, p: seq<string>)
    requires Prints(a, l) && Prints(b, m) && Prints(c, n) && Prints(d, o) && Prints(e, p)
    ensures Prints(a + (b + (c + (d + e))), l + (m + (n + (o + p))))
  {
    PrintsBoth(d, o, e, p);
    PrintsBoth(c, n, d + e, o + p);
    PrintsBoth(b, m, c + (d + e), n + (o + p));
    PrintsBoth(a, l, b + (c + (d + e)), m + (n + (o + p)));
  }

  lemma PrintsBody(ntp: bool, zone: string)
    ensures Prints(BodyTags(ntp, zone), BodyLines(ntp, zone))
  {
    PrintsLeafy("DateTimeType", ModeText(ntp));
    PrintsLeafy("DaylightSavings", "false");
    PrintsMarks("tt", "TimeZone");
    PrintsLeafy("TZ", zone);
    PrintsFive(Leafy("DateTimeType", ModeText(ntp)), Leafy("DaylightSavings", "false"), [Start("tt", "TimeZone")],
               Leafy("TZ", zone), [End("tt", "TimeZone")],
               Line("DateTimeType", ModeText(ntp)), Line("DaylightSavings", "false"), StartMark("tt", "TimeZone"),
               Line("TZ", zone), EndMark("tt", "TimeZone"));
  }

  /** The page from the DateTimeType element to the end of the TimeZone element. */
  function BodyTags(ntp: bool, zone: string): seq<Tag> {
    Leafy("DateTimeType", ModeText(ntp)) + (Leafy("DaylightSavings", "false") + ([Start("tt", "TimeZone")]
      + (Leafy("TZ", zone) + [End("tt", "TimeZone")])))
  }

  lemma BodyThenClock(tm: Tm, ntp: bool, zone: string)
    ensures Page(tm, ntp, zone) == Head() + (BodyTags(ntp, zone) + ClockTags(tm))
  {
    Regrouped(Leafy("DateTimeType", ModeText(ntp)), Leafy("DaylightSavings", "false"), [Start("tt", "TimeZone")],
              Leafy("TZ", zone), [End("tt", "TimeZone")], ClockTags(tm));
  }

  lemma Regrouped(a: seq<Tag>, b: seq<Tag>, c: seq<Tag>, d: seq<Tag>, e: seq<Tag>, f: seq<Tag>)
    ensures a + (b + (c + (d + (e + f)))) == a + (b + (c + (d + e))) + f
  {
  }

  /** The printed response is the rendering of the page. */
  lemma PrintsThePage(tm: Tm, ntp: bool, tz: Option<string>)
    ensures DateTimeText(tm, ntp, tz) == Render(Page(tm, ntp, ZoneText(tz)))
  {
    var zone := ZoneText(tz);
    PrintsHead();
    PrintsBody(ntp, zone);
    PrintsClock(tm);
    PrintsBoth(BodyTags(ntp, zone), BodyLines(ntp, zone), ClockTags(tm), ClockLines(tm));
    PrintsBoth(Head(), HeadLines(), BodyTags(ntp, zone) + ClockTags(tm), BodyLines(ntp, zone) + ClockLines(tm));
    BodyThenClock(tm, ntp, zone);
  }

  // ----- the page is a document -----

  lemma HeadNames()
    ensures IsName("tt") && IsName("tds") && IsName("soap") && IsName("Envelope") && IsName("Body")
    ensures IsName(SYSTEM) && IsName(RESPONSE)
  {
  }

  lemma BoxNames()
    ensures IsName("DateTimeType") && IsName("DaylightSavings") && IsName("TimeZone") && IsName("TZ")
    ensures IsName("UTCDateTime") && IsName("Time") && IsName("Date")
  {
  }

  lemma ClockNames()
    ensures IsName("Hour") && IsName("Minute") && IsName("Second") && IsName("Year") && IsName("Month") && IsName("Day")
  {
  }

  lemma BoxIsWellFormed(prefix: string, local: string)
    requires IsName(prefix) && IsName(local)
    ensures AllWellFormed([Start(prefix, local)]) && AllWellFormed([End(prefix, local)])
  {
  }

  lemma LeafyIsWellFormed(local: string, text: string)
    requires IsName(local) && '<' !in text
    ensures AllWellFormed(Leafy(local, text))
  {
    assert IsName("tt");
  }

  lemma NumberLeafIsWellFormed(local: string, n: int)
    requires IsName(local)
    ensures AllWellFormed(Leafy(local, Decimal(n)))
  {
    assert AllDigits(Digits(if n < 0 then -n else n));
    LeafyIsWellFormed(local, Decimal(n));
  }

  lemma FiveWellFormed(a: seq<Tag>, b: seq<Tag>, c: seq<Tag>, d: seq<Tag>, e: seq<Tag>)
    requires AllWellFormed(a) && AllWellFormed(b) && AllWellFormed(c) && AllWellFormed(d) && AllWellFormed(e)
    ensures AllWellFormed(a + (b + (c + (d + e))))
  {
  }

  lemma BlockIsWellFormed(box: string, l1: string, n1: int, l2: string, n2: int, l3: string, n3: int)
    requires IsName("tt") && IsName(box) && IsName(l1) && IsName(l2) && IsName(l3)
    ensures AllWellFormed(Block(box, l1, Decimal(n1), l2, Decimal(n2), l3, Decimal(n3)))
  {
    BoxIsWellFormed("tt", box);
    NumberLeafIsWellFormed(l1, n1);
    NumberLeafIsWellFormed(l2, n2);
    NumberLeafIsWellFormed(l3, n3);
    FiveWellFormed([Start("tt", box)], Leafy(l1, Decimal(n1)), Leafy(l2, Decimal(n2)), Leafy(l3, Decimal(n3)),
                   [End("tt", box)]);
  }

  lemma ClockIsWellFormed(tm: Tm)
    ensures AllWellFormed(Hms(tm)) && AllWellFormed(Ymd(tm))
  {
    HeadNames();
    BoxNames();
    ClockNames();
    BlockIsWellFormed("Time", "Hour", tm.hour, "Minute", tm.min, "Second", tm.sec);
    BlockIsWellFormed("Date", "Year", tm.year + 1900, "Month", tm.mon + 1, "Day", tm.mday);
  }

  lemma HeadIsWellFormed()
    ensures AllWellFormed(Head())
  {
    HeadNames();
    AttributesHaveNoTags();
    assert '<' !in XML && XML[0] == '?';
  }

  lemma FootIsWellFormed()
    ensures AllWellFormed(Foot())
  {
    HeadNames();
  }

  lemma AttributesHaveNoTags()
    ensures WellFormedAttrs(ATTRS)
  {
    assert '<' !in SOAP_NS && SOAP_NS[0] == ' ';
    assert '<' !in TT_NS;
    assert '<' !in TDS_NS;
  }

  lemma PageIsWellFormed(tm: Tm, ntp: bool, zone: string)
    requires '<' !in zone
    ensures AllWellFormed(Page(tm, ntp, zone))
  {
    HeadNames();
    BoxNames();
    HeadIsWellFormed();
    FootIsWellFormed();
    ClockIsWellFormed(tm);
    BoxIsWellFormed("tt", "UTCDateTime");
    BoxIsWellFormed("tt", "TimeZone");
    LeafyIsWellFormed("TZ", zone);
    LeafyIsWellFormed("DateTimeType", ModeText(ntp));
    LeafyIsWellFormed("DaylightSavings", "false");
    FiveWellFormed([Start("tt", "UTCDateTime")], Hms(tm), Ymd(tm), [End("tt", "UTCDateTime")], Foot());
    FiveWellFormed([Start("tt", "TimeZone")], Leafy("TZ", zone), [End("tt", "TimeZone")], ClockTags(tm), []);
    assert ClockTags(tm) + [] == ClockTags(tm);
    FiveWellFormed(Head(), Leafy("DateTimeType", ModeText(ntp)), Leafy("DaylightSavings", "false"),
                   ZoneTags(tm, zone), []);
    assert ZoneTags(tm, zone) + [] == ZoneTags(tm, zone);
  }

  // ----- what the parser finds on the page -----

  lemma {:induction false} Misses(tags: seq<Tag>, rest: seq<Tag>, local: string)
    requires forall k :: 0 <= k < |tags| ==> !OpenHit(tags[k], local)
    ensures AfterOpen(tags + rest, local) == AfterOpen(rest, local)
  {
    if tags == [] {
      assert tags + rest == rest;
    } else {
      Misses(tags[1..], rest, local);
      assert (tags + rest)[1..] == tags[1..] + rest;
    }
  }

  lemma {:induction false} NoClose(tags: seq<Tag>, rest: seq<Tag>, local: string)
    requires forall k :: 0 <= k < |tags| ==> !CloseHit(tags[k], local)
    ensures BeforeClose(tags + rest, local) == tags + BeforeClose(rest, local)
  {
    if tags == [] {
      assert tags + rest == rest;
    } else {
      NoClose(tags[1..], rest, local);
      assert (tags + rest)[1..] == tags[1..] + rest;
    }
  }

  lemma MissesLeafy(name: string, text: string, rest: seq<Tag>, local: string)
    requires name != local
    ensures AfterOpen(Leafy(name, text) + rest, local) == AfterOpen(rest, local)
  {
    Misses(Leafy(name, text), rest, local);
  }

  lemma HitsLeafy(local: string, text: string, rest: seq<Tag>)
    ensures AfterOpen(Leafy(local, text) + rest, local) == Some(Section(text, [End("tt", local)] + rest))
  {
    assert (Leafy(local, text) + rest)[1..] == [End("tt", local)] + rest;
  }

  lemma MissesBox(prefix: string, name: string, rest: seq<Tag>, local: string)
    requires name != local
    ensures AfterOpen([Start(prefix, name)] + rest, local) == AfterOpen(rest, local)
    ensures AfterOpen([End(prefix, name)] + rest, local) == AfterOpen(rest, local)
  {
    Misses([Start(prefix, name)], rest, local);
    Misses([End(prefix, name)], rest, local);
  }

  /** The clock of the page, as the parser sees it. */
  function PrintedClock(tm: Tm): Clock {
    Clock(Some(Decimal(tm.year + 1900)), Some(Decimal(tm.mon + 1)), Some(Decimal(tm.mday)),
          Some(Decimal(tm.hour)), Some(Decimal(tm.min)), Some(Decimal(tm.sec)))
  }

  lemma NoBoxInBlock(box: string, l1: string, t1: string, l2: string, t2: string, l3: string, t3: string,
                     rest: seq<Tag>, local: string)
    requires local != box && local != l1 && local != l2 && local != l3
    ensures AfterOpen(Block(box, l1, t1, l2, t2, l3, t3) + rest, local) == AfterOpen(rest, local)
  {
    Misses(Block(box, l1, t1, l2, t2, l3, t3), rest, local);
  }

  lemma LeavesOfBlock(box: string, l1: string, t1: string, l2: string, t2: string, l3: string, t3: string,
                      rest: seq<Tag>)
    requires box != l1 && box != l2 && box != l3 && l1 != l2 && l1 != l3 && l2 != l3
    ensures var tags := Block(box, l1, t1, l2, t2, l3, t3) + rest;
            LeafOf(Section("", tags), l1) == Some(t1) &&
            LeafOf(Section("", tags), l2) == Some(t2) &&
            LeafOf(Section("", tags), l3) == Some(t3)
  {
    var c := Leafy(l3, t3) + ([End("tt", box)] + rest);
    var b := Leafy(l2, t2) + c;
    var a := Leafy(l1, t1) + b;
    assert Block(box, l1, t1, l2, t2, l3, t3) + rest == [Start("tt", box)] + a;
    MissesBox("tt", box, a, l1);
    MissesBox("tt", box, a, l2);
    MissesBox("tt", box, a, l3);
    HitsLeafy(l1, t1, b);
    MissesLeafy(l1, t1, b, l2);
    MissesLeafy(l1, t1, b, l3);
    HitsLeafy(l2, t2, c);
    MissesLeafy(l2, t2, c, l3);
    HitsLeafy(l3, t3, [End("tt", box)] + rest);
  }

  lemma ClockNamesDiffer()
    ensures "Time" != "Hour" && "Time" != "Minute" && "Time" != "Second"
    ensures "Hour" != "Minute" && "Hour" != "Second" && "Minute" != "Second"
    ensures "Date" != "Year" && "Date" != "Month" && "Date" != "Day"
    ensures "Year" != "Month" && "Year" != "Day" && "Month" != "Day"
    ensures "Year" != "Time" && "Year" != "Hour" && "Year" != "Minute" && "Year" != "Second"
    ensures "Month" != "Time" && "Month" != "Hour" && "Month" != "Minute" && "Month" != "Second"
    ensures "Day" != "Time" && "Day" != "Hour" && "Day" != "Minute" && "Day" != "Second"
  {
    assert "Time"[0] == 'T' && "Hour"[0] == 'H' && "Date"[0] == 'D' && "Year"[0] == 'Y';
    assert "Minute"[0] == 'M' && "Second"[0] == 'S';
  }

  lemma ClockOfPage(tm: Tm)
    ensures ClockOfDoc(Section("", Hms(tm) + Ymd(tm))) == PrintedClock(tm)
  {
    var h, mi, sec := Decimal(tm.hour), Decimal(tm.min), Decimal(tm.sec);
    var y, mo, d := Decimal(tm.year + 1900), Decimal(tm.mon + 1), Decimal(tm.mday);
    ClockNamesDiffer();
    LeavesOfBlock("Time", "Hour", h, "Minute", mi, "Second", sec, Ymd(tm));
    NoBoxInBlock("Time", "Hour", h, "Minute", mi, "Second", sec, Ymd(tm), "Year");
    NoBoxInBlock("Time", "Hour", h, "Minute", mi, "Second", sec, Ymd(tm), "Month");
    NoBoxInBlock("Time", "Hour", h, "Minute", mi, "Second", sec, Ymd(tm), "Day");
    LeavesOfBlock("Date", "Year", y, "Month", mo, "Day", d, []);
    assert Ymd(tm) + [] == Ymd(tm);
  }

  lemma BoxNamesDiffer()
    ensures "DateTimeType" != "Body" && "TimeZone" != "Body" && "UTCDateTime" != "Body"
    ensures "DateTimeType" != SYSTEM && "TimeZone" != SYSTEM && "UTCDateTime" != SYSTEM
    ensures "TimeZone" != "DateTimeType" && "UTCDateTime" != "DateTimeType"
    ensures "TimeZone" != "DaylightSavings" && "UTCDateTime" != "DaylightSavings"
    ensures "UTCDateTime" != "TimeZone" && "UTCDateTime" != "TZ" && "TZ" != "TimeZone"
  {
  }

  lemma ResponseDiffers()
    ensures "DateTimeType" != RESPONSE && "TimeZone" != RESPONSE && "UTCDateTime" != RESPONSE
  {
    assert |"DateTimeType"| == 12 && |"TimeZone"| == 8 && |"UTCDateTime"| == 11 && |RESPONSE| == 28;
  }

  lemma HeadMisses(rest: seq<Tag>, local: string)
    requires local != "Body" && local != RESPONSE && local != SYSTEM
    ensures AfterOpen(Head() + rest, local) == AfterOpen(rest, local)
  {
    assert ATTRS != "";
    Misses(Head(), rest, local);
  }

  lemma ModeOnPage(tm: Tm, ntp: bool, zone: string)
    ensures LeafOf(Section("", Page(tm, ntp, zone)), "DateTimeType") == Some(ModeText(ntp))
  {
    var mode := ModeText(ntp);
    var rest := Leafy("DaylightSavings", "false") + ZoneTags(tm, zone);
    BoxNamesDiffer();
    ResponseDiffers();
    HeadMisses(Leafy("DateTimeType", mode) + rest, "DateTimeType");
    HitsLeafy("DateTimeType", mode, rest);
  }

  /** Neither the head nor the leaves before the zone are the element sought. */
  lemma PageMissesToZone(tm: Tm, ntp: bool, zone: string, local: string)
    requires local == "TimeZone" || local == "UTCDateTime"
    ensures AfterOpen(Page(tm, ntp, zone), local) == AfterOpen(ZoneTags(tm, zone), local)
  {
    var mode := ModeText(ntp);
    BoxNamesDiffer();
    ResponseDiffers();
    HeadMisses(Leafy("DateTimeType", mode) + (Leafy("DaylightSavings", "false") + ZoneTags(tm, zone)), local);
    MissesLeafy("DateTimeType", mode, Leafy("DaylightSavings", "false") + ZoneTags(tm, zone), local);
    MissesLeafy("DaylightSavings", "false", ZoneTags(tm, zone), local);
  }

  lemma ZoneOnPage(tm: Tm, ntp: bool, zone: string)
    ensures ScopeOf(Section("", Page(tm, ntp, zone)), "TimeZone") == Some(Section("", Leafy("TZ", zone)))
    ensures LeafOf(Section("", Leafy("TZ", zone)), "TZ") == Some(zone)
  {
    var tail := [End("tt", "TimeZone")] + ClockTags(tm);
    PageMissesToZone(tm, ntp, zone, "TimeZone");
    assert ZoneTags(tm, zone)[1..] == Leafy("TZ", zone) + tail;
    BoxNamesDiffer();
    NoClose(Leafy("TZ", zone), tail, "TimeZone");
    assert BeforeClose(tail, "TimeZone") == [];
    HitsLeafy("TZ", zone, []);
    assert Leafy("TZ", zone) + [] == Leafy("TZ", zone);
  }

  lemma UtcDiffers()
    ensures "UTCDateTime" != "Time" && "UTCDateTime" != "Date"
    ensures "UTCDateTime" != "Hour" && "UTCDateTime" != "Minute" && "UTCDateTime" != "Second"
    ensures "UTCDateTime" != "Year" && "UTCDateTime" != "Month" && "UTCDateTime" != "Day"
  {
  }

  predicate NoneCloses(tags: seq<Tag>, local: string) {
    forall k :: 0 <= k < |tags| ==> !CloseHit(tags[k], local)
  }

  lemma NoneClosesInBlock(box: string, l1: string, t1: string, l2: string, t2: string, l3: string, t3: string,
                          local: string)
    requires local != box && local != l1 && local != l2 && local != l3
    ensures NoneCloses(Block(box, l1, t1, l2, t2, l3, t3), local)
  {
  }

  lemma NoCloseInTwo(a: seq<Tag>, b: seq<Tag>, rest: seq<Tag>, local: string)
    requires NoneCloses(a, local) && NoneCloses(b, local)
    ensures BeforeClose(a + (b + rest), local) == a + (b + BeforeClose(rest, local))
  {
    NoClose(a, b + rest, local);
    NoClose(b, rest, local);
  }

  lemma NoUtcInside(tm: Tm, rest: seq<Tag>)
    ensures BeforeClose(Hms(tm) + (Ymd(tm) + rest), "UTCDateTime") ==
            Hms(tm) + (Ymd(tm) + BeforeClose(rest, "UTCDateTime"))
  {
    UtcDiffers();
    NoneClosesInBlock("Time", "Hour", Decimal(tm.hour), "Minute", Decimal(tm.min), "Second", Decimal(tm.sec),
                      "UTCDateTime");
    NoneClosesInBlock("Date", "Year", Decimal(tm.year + 1900), "Month", Decimal(tm.mon + 1), "Day", Decimal(tm.mday),
                      "UTCDateTime");
    NoCloseInTwo(Hms(tm), Ymd(tm), rest, "UTCDateTime");
  }

  lemma UtcOnPage(tm: Tm, ntp: bool, zone: string)
    ensures ScopeOf(Section("", Page(tm, ntp, zone)), "UTCDateTime") == Some(Section("", Hms(tm) + Ymd(tm)))
  {
    var tail := [End("tt", "UTCDateTime")] + Foot();
    var rest := [End("tt", "TimeZone")] + ClockTags(tm);
    PageMissesToZone(tm, ntp, zone, "UTCDateTime");
    BoxNamesDiffer();
    MissesBox("tt", "TimeZone", Leafy("TZ", zone) + rest, "UTCDateTime");
    MissesLeafy("TZ", zone, rest, "UTCDateTime");
    MissesBox("tt", "TimeZone", ClockTags(tm), "UTCDateTime");
    assert ClockTags(tm)[1..] == Hms(tm) + (Ymd(tm) + tail);
    NoUtcInside(tm, tail);
    assert BeforeClose(tail, "UTCDateTime") == [];
    assert Ymd(tm) + [] == Ymd(tm);
  }

  lemma LeavesOfPage(tm: Tm, ntp: bool, zone: string)
    ensures LeavesOfDoc(Section("", Page(tm, ntp, zone))) ==
            Leaves(Some(ModeText(ntp)), Some(Some(zone)), Some(PrintedClock(tm)))
  {
    ModeOnPage(tm, ntp, zone);
    ZoneOnPage(tm, ntp, zone);
    UtcOnPage(tm, ntp, zone);
    ClockOfPage(tm);
  }

  // ----- what a client reads on the page -----

  /** The three leaves inside a box. */
  function Inside(l1: string, t1: string, l2: string, t2: string, l3: string, t3: string): seq<Tag> {
    Leafy(l1, t1) + (Leafy(l2, t2) + Leafy(l3, t3))
  }

  lemma ScopeOfBlock(box: string, l1: string, t1: string, l2: string, t2: string, l3: string, t3: string,
                     rest: seq<Tag>)
    requires box != l1 && box != l2 && box != l3
    ensures ScopeOf(Section("", Block(box, l1, t1, l2, t2, l3, t3) + rest), box) ==
            Some(Section("", Inside(l1, t1, l2, t2, l3, t3)))
  {
    var inside, end := Inside(l1, t1, l2, t2, l3, t3), [End("tt", box)] + rest;
    assert Block(box, l1, t1, l2, t2, l3, t3) + rest == [Start("tt", box)] + (inside + end);
    assert ([Start("tt", box)] + (inside + end))[1..] == inside + end;
    NoClose(inside, end, box);
    assert BeforeClose(end, box) == [] && inside + [] == inside;
  }

  lemma LeavesInside(l1: string, t1: string, l2: string, t2: string, l3: string, t3: string)
    requires l1 != l2 && l1 != l3 && l2 != l3
    ensures var doc := Section("", Inside(l1, t1, l2, t2, l3, t3));
            LeafOf(doc, l1) == Some(t1) && LeafOf(doc, l2) == Some(t2) && LeafOf(doc, l3) == Some(t3)
  {
    var b := Leafy(l2, t2) + Leafy(l3, t3);
    HitsLeafy(l1, t1, b);
    MissesLeafy(l1, t1, b, l2);
    MissesLeafy(l1, t1, b, l3);
    HitsLeafy(l2, t2, Leafy(l3, t3));
    MissesLeafy(l2, t2, Leafy(l3, t3), l3);
    HitsLeafy(l3, t3, []);
    assert Leafy(l3, t3) + [] == Leafy(l3, t3);
  }

  function HmsInside(tm: Tm): Section {
    Section("", Inside("Hour", Decimal(tm.hour), "Minute", Decimal(tm.min), "Second", Decimal(tm.sec)))
  }

  function YmdInside(tm: Tm): Section {
    Section("", Inside("Year", Decimal(tm.year + 1900), "Month", Decimal(tm.mon + 1), "Day", Decimal(tm.mday)))
  }

  lemma DateIsNotTime()
    ensures "Date" != "Time" && "Date" != "Hour" && "Date" != "Minute" && "Date" != "Second"
  {
    assert "Date"[0] == 'D' && "Time"[0] == 'T' && "Hour"[0] == 'H' && "Minute"[0] == 'M' && "Second"[0] == 'S';
  }

  lemma BoxesOfClock(tm: Tm)
    ensures ScopeOf(Section("", Hms(tm) + Ymd(tm)), "Time") == Some(HmsInside(tm))
    ensures ScopeOf(Section("", Hms(tm) + Ymd(tm)), "Date") == Some(YmdInside(tm))
  {
    var h, mi, sec := Decimal(tm.hour), Decimal(tm.min), Decimal(tm.sec);
    ClockNamesDiffer();
    DateIsNotTime();
    ScopeOfBlock("Time", "Hour", h, "Minute", mi, "Second", sec, Ymd(tm));
    NoBoxInBlock("Time", "Hour", h, "Minute", mi, "Second", sec, Ymd(tm), "Date");
    ScopeOfBlock("Date", "Year", Decimal(tm.year + 1900), "Month", Decimal(tm.mon + 1), "Day", Decimal(tm.mday), []);
    assert Ymd(tm) + [] == Ymd(tm);
  }

  lemma SavingsOnPage(tm: Tm, ntp: bool, zone: string)
    ensures LeafOf(Section("", Page(tm, ntp, zone)), "DaylightSavings") == Some("false")
  {
    var rest := ZoneTags(tm, zone);
    SavingsDiffers();
    HeadMisses(Leafy("DateTimeType", ModeText(ntp)) + (Leafy("DaylightSavings", "false") + rest), "DaylightSavings");
    MissesLeafy("DateTimeType", ModeText(ntp), Leafy("DaylightSavings", "false") + rest, "DaylightSavings");
    HitsLeafy("DaylightSavings", "false", rest);
  }

  lemma SavingsDiffers()
    ensures "DaylightSavings" != "Body" && "DaylightSavings" != RESPONSE && "DaylightSavings" != SYSTEM
    ensures "DaylightSavings" != "DateTimeType"
  {
    assert |"DaylightSavings"| == 15 && |RESPONSE| == 28 && |SYSTEM| == 17 && |"DateTimeType"| == 12;
  }

  /** The element holds a number. */
  predicate Shows(scope: string, local: string, n: int) {
    Leaf(scope, local).Some? && Says(Leaf(scope, local).value, n)
  }

  /** What a client finds in a UTCDateTime element. */
  predicate ShowsClock(utc: string, tm: Tm) {
    var time, date := Scope(utc, "Time"), Scope(utc, "Date");
    && time.Some? && Shows(time.value, "Hour", tm.hour) && Shows(time.value, "Minute", tm.min)
    && Shows(time.value, "Second", tm.sec)
    && date.Some? && Shows(date.value, "Year", tm.year + 1900) && Shows(date.value, "Month", tm.mon + 1)
    && Shows(date.value, "Day", tm.mday)
  }

  lemma ShowsThree(doc: Section, l1: string, n1: int, l2: string, n2: int, l3: string, n3: int)
    requires doc == Section("", Inside(l1, Decimal(n1), l2, Decimal(n2), l3, Decimal(n3))) && IsSection(doc)
    requires l1 != l2 && l1 != l3 && l2 != l3
    ensures Shows(TextOf(doc), l1, n1) && Shows(TextOf(doc), l2, n2) && Shows(TextOf(doc), l3, n3)
  {
    LeavesInside(l1, Decimal(n1), l2, Decimal(n2), l3, Decimal(n3));
    ShowsNumber(doc, l1, n1);
    ShowsNumber(doc, l2, n2);
    ShowsNumber(doc, l3, n3);
  }

  lemma ShowsTime(tm: Tm, doc: Section)
    requires doc == HmsInside(tm) && IsSection(doc)
    ensures Shows(TextOf(doc), "Hour", tm.hour) && Shows(TextOf(doc), "Minute", tm.min)
    ensures Shows(TextOf(doc), "Second", tm.sec)
  {
    ClockNamesDiffer();
    ShowsThree(doc, "Hour", tm.hour, "Minute", tm.min, "Second", tm.sec);
  }

  lemma ShowsDate(tm: Tm, doc: Section)
    requires doc == YmdInside(tm) && IsSection(doc)
    ensures Shows(TextOf(doc), "Year", tm.year + 1900) && Shows(TextOf(doc), "Month", tm.mon + 1)
    ensures Shows(TextOf(doc), "Day", tm.mday)
  {
    ClockNamesDiffer();
    ShowsThree(doc, "Year", tm.year + 1900, "Month", tm.mon + 1, "Day", tm.mday);
  }

  lemma ShowsNumber(doc: Section, local: string, n: int)
    requires IsSection(doc) && LeafOf(doc, local) == Some(Decimal(n))
    ensures Shows(TextOf(doc), local, n)
  {
    LeafOfTags(doc, local);
    DecimalSays(n);
  }

  lemma ClockShows(tm: Tm, doc: Section)
    requires doc == Section("", Hms(tm) + Ymd(tm)) && IsSection(doc)
    ensures ShowsClock(TextOf(doc), tm)
  {
    BoxesOfClock(tm);
    ScopeOfTags(doc, "Time");
    ScopeOfTags(doc, "Date");
    ShowsTime(tm, HmsInside(tm));
    ShowsDate(tm, YmdInside(tm));
  }

  /** A client reads on the page, for every zone text without '<': the mode, no daylight saving, the zone
      (UTC when none is set), and the six numbers under their names in the Time and the Date element. */
  lemma ReadsPage(tm: Tm, ntp: bool, tz: Option<string>)
    requires '<' !in ZoneText(tz)
    ensures var text := DateTimeText(tm, ntp, tz);
            var zone, utc := Scope(text, "TimeZone"), Scope(text, "UTCDateTime");
            && Leaf(text, "DateTimeType") == Some(if ntp then "NTP" else "MANUAL")
            && Leaf(text, "DaylightSavings") == Some("false")
            && zone.Some?
            && Leaf(zone.value, "TZ") == Some(if tz == None || tz == Some("") then "UTC" else tz.value)
            && utc.Some? && ShowsClock(utc.value, tm)
  {
    var zone := ZoneText(tz);
    var doc := Section("", Page(tm, ntp, zone));
    PrintsThePage(tm, ntp, tz);
    PageIsWellFormed(tm, ntp, zone);
    assert TextOf(doc) == DateTimeText(tm, ntp, tz);
    ModeOnPage(tm, ntp, zone);
    LeafOfTags(doc, "DateTimeType");
    SavingsOnPage(tm, ntp, zone);
    LeafOfTags(doc, "DaylightSavings");
    ZoneOnPage(tm, ntp, zone);
    ScopeOfTags(doc, "TimeZone");
    LeafOfTags(Section("", Leafy("TZ", zone)), "TZ");
    UtcOnPage(tm, ntp, zone);
    ScopeOfTags(doc, "UTCDateTime");
    ClockShows(tm, Section("", Hms(tm) + Ymd(tm)));
  }

  // ----- the round trip -----

  /** The ranges the parser accepts. */
  predicate InRange(tm: Tm) {
    && 1970 <= tm.year + 1900 <= 9999 && 1 <= tm.mon + 1 <= 12 && 1 <= tm.mday <= 31
    && 0 <= tm.hour <= 23 && 0 <= tm.min <= 59 && 0 <= tm.sec <= 60
  }

  /** The moment a `struct tm` names, by the plain count of days. */
  function EpochOfTm(tm: Tm): int
    requires InRange(tm)
  {
    DayCount(tm.year + 1900, tm.mon + 1, tm.mday) * 86400 + tm.hour * 3600 + tm.min * 60 + tm.sec
  }

  lemma EpochCounts(tm: Tm)
    requires InRange(tm)
    ensures Epoch(tm.year + 1900, tm.mon + 1, tm.mday, tm.hour, tm.min, tm.sec) == EpochOfTm(tm)
  {
    DaysFromCivilCounts(tm.year + 1900, tm.mon + 1, tm.mday);
  }

  lemma PrintedNumber(n: int, lo: int, hi: int)
    requires 0 <= lo && hi <= 9999
    ensures ParseNum(Decimal(n), lo, hi) == if lo <= n <= hi then Some(n) else None
  {
    ScanPrinted(n);
    if 0 <= n <= 9999 {
      assert Power10(4) == 10000;
      DigitsLength(n, 4, 10000);
    }
  }

  lemma PrintedEpoch(tm: Tm)
    ensures EpochOf(PrintedClock(tm)) == if InRange(tm) then Some(EpochOfTm(tm)) else None
  {
    PrintedFields(tm);
    if InRange(tm) { EpochCounts(tm); }
  }

  lemma PrintedFields(tm: Tm)
    ensures EpochOf(PrintedClock(tm)) ==
            if InRange(tm) then Some(Epoch(tm.year + 1900, tm.mon + 1, tm.mday, tm.hour, tm.min, tm.sec)) else None
  {
    PrintedNumber(tm.year + 1900, 1970, 9999);
    PrintedNumber(tm.mon + 1, 1, 12);
    PrintedNumber(tm.mday, 1, 31);
    PrintedNumber(tm.hour, 0, 23);
    PrintedNumber(tm.min, 0, 59);
    PrintedNumber(tm.sec, 0, 60);
  }

  lemma LeavesOfPrinted(tm: Tm, ntp: bool, tz: Option<string>)
    requires '<' !in ZoneText(tz)
    ensures LeavesOf(DateTimeText(tm, ntp, tz)) == PrintedLeaves(tm, ntp, ZoneText(tz))
  {
    var zone := ZoneText(tz);
    var doc := Section("", Page(tm, ntp, zone));
    PrintsThePage(tm, ntp, tz);
    PageIsWellFormed(tm, ntp, zone);
    assert TextOf(doc) == Render(Page(tm, ntp, zone));
    LeavesOfTags(doc);
    LeavesOfPage(tm, ntp, zone);
  }

  function PrintedLeaves(tm: Tm, ntp: bool, zone: string): Leaves {
    Leaves(Some(ModeText(ntp)), Some(Some(zone)), Some(PrintedClock(tm)))
  }

  lemma InterpretPrinted(tm: Tm, ntp: bool, zone: string)
    ensures Interpret(PrintedLeaves(tm, ntp, zone)) ==
            if InRange(tm) then (true, Request(ntp, true, EpochOfTm(tm), true, First(zone, 47)))
            else (false, Request(ntp, false, 0, true, First(zone, 47)))
  {
    PrintedEpoch(tm);
    assert |"NTP"| == 3 && |"MANUAL"| == 6;
  }

  /** What parsing a printed response gives: for every `struct tm`, mode and zone text without '<'. */
  lemma ParsePrinted(tm: Tm, ntp: bool, tz: Option<string>)
    requires '<' !in ZoneText(tz)
    ensures Parse(DateTimeText(tm, ntp, tz)) ==
            if InRange(tm) then
              (true, Request(ntp, true, EpochOfTm(tm), true, First(ZoneText(tz), 47)))
            else (false, Request(ntp, false, 0, true, First(ZoneText(tz), 47)))
  {
    LeavesOfPrinted(tm, ntp, tz);
    InterpretPrinted(tm, ntp, ZoneText(tz));
  }

  lemma LeafHasNoAngle(s: string, local: string)
    ensures Leaf(s, local).Some? ==> '<' !in Leaf(s, local).value
  {
    var t := OpenFrom(s, 0, local);
    if t.Some? { NothingBeforeFound(s, t.value, '<'); }
  }

  /** Whatever the body, a parsed zone has at most 47 characters and no '<'. */
  lemma ParsedZone(body: string)
    ensures |Parse(body).1.tz| <= 47 && '<' !in Parse(body).1.tz
  {
    var scope := Scope(body, "TimeZone");
    LeafHasNoAngle(body, "TZ");
    if scope.Some? { LeafHasNoAngle(scope.value, "TZ"); }
  }

  lemma RoundTripPlain(tm: Tm, ntp: bool, tz: Option<string>)
    requires '<' !in ZoneText(tz)
    ensures !InRange(tm) ==> !Parse(DateTimeText(tm, ntp, tz)).0
    ensures InRange(tm) ==> (GivesBack(tm, ntp, tz) <==> |ZoneText(tz)| <= 47)
  {
    ParsePrinted(tm, ntp, tz);
    ComesBack(Parse(DateTimeText(tm, ntp, tz)), tm, ntp, ZoneText(tz));
  }

  /** What a parse result says about the round trip. */
  lemma ComesBack(p: (bool, Request), tm: Tm, ntp: bool, zone: string)
    requires p == if InRange(tm) then (true, Request(ntp, true, EpochOfTm(tm), true, First(zone, 47)))
                  else (false, Request(ntp, false, 0, true, First(zone, 47)))
    ensures !InRange(tm) ==> !p.0
    ensures InRange(tm) ==> (p == (true, Request(ntp, true, EpochOfTm(tm), true, zone)) <==> |zone| <= 47)
  {
  }

  /** Parsing what was printed succeeds with the same mode, the same zone and the exact moment. */
  predicate GivesBack(tm: Tm, ntp: bool, tz: Option<string>)
    requires InRange(tm)
  {
    Parse(DateTimeText(tm, ntp, tz)) == (true, Request(ntp, true, EpochOfTm(tm), true, ZoneText(tz)))
  }

  /** Fields in range make the round trip if and only if the zone text has at most 47 characters and
      no '<'; fields out of range are refused. */
  lemma RoundTrip(tm: Tm, ntp: bool, tz: Option<string>)
    ensures InRange(tm) ==> (GivesBack(tm, ntp, tz) <==> |ZoneText(tz)| <= 47 && '<' !in ZoneText(tz))
    ensures !InRange(tm) && '<' !in ZoneText(tz) ==> !Parse(DateTimeText(tm, ntp, tz)).0
  {
    ParsedZone(DateTimeText(tm, ntp, tz));
    if '<' !in ZoneText(tz) {
      RoundTripPlain(tm, ntp, tz);
    }
  }
}
