/** A PullMessages response read back: what a client finds in the page is what was put into it. */
module PullReader {
  import opened CText
  import opened EventRing
  import opened PieceReader
  import opened PullPages

  const UTC := "tt:Message UtcTime=\""
  const STATE := "tt:SimpleItem Name=\"State\"" + " Value=\""
  const SCORE := "tt:SimpleItem Name=\"Score\"" + " Value=\""
  const CURRENT := "tev:CurrentTime>"
  const TERMINATION := "tev:TerminationTime>"

  predicate Plain(t: string) {
    '<' !in t && '"' !in t
  }

  // ----- the marks -----

  /** A mark that neither the head of a page nor the frame of an event starts with. */
  predicate IsMark(mark: string) {
    |mark| > 4 && mark[0] == 't' && mark[4] != 'P'
  }

  /** A mark of the end of a page. */
  predicate IsEndMark(mark: string) {
    IsMark(mark) && mark[1] == 'e'
  }

  /** A mark of an item of an event, other than its source. */
  predicate IsItemMark(mark: string) {
    IsMark(mark) && mark[1] == 't' && mark[3] == 'S' && mark[4] == 'i' && |mark| > 21 && mark[21] != 'o'
  }

  lemma UtcMark()
    ensures IsMark(UTC) && UTC[1] == 't' && UTC[3] == 'M' && '<' !in UTC
  {
  }

  lemma StateMark()
    ensures IsItemMark(STATE) && STATE[21] == 't' && '<' !in STATE
  {
  }

  lemma ScoreMark()
    ensures IsItemMark(SCORE) && SCORE[21] == 'c' && '<' !in SCORE
  {
  }

  lemma EndMarks()
    ensures IsEndMark(CURRENT) && CURRENT[4] == 'C' && '<' !in CURRENT
    ensures IsEndMark(TERMINATION) && TERMINATION[4] == 'T' && '<' !in TERMINATION
  {
  }

  // ----- the parts that say nothing -----

  lemma NoAngles()
    ensures '<' !in NS_EV && '<' !in NS_WSN && '<' !in NS_TT
  {
  }

  lemma NoAnglesEither()
    ensures '<' !in NS_SOAP && '<' !in DIALECT
  {
  }

  lemma LastOpening(mark: string, stop: char)
    requires IsMark(mark)
    ensures Gives(Piece("tev:PullMessagesResponse" + " xmlns:tev=\"" + NS_EV + "\" xmlns:wsnt=\"" + NS_WSN
                        + "\" xmlns:tt=\"" + NS_TT + "\">"), mark, stop, [])
  {
    NoAngles();
    LastOpeningPiece(NS_EV, NS_WSN, NS_TT, mark, stop);
  }

  lemma LastOpeningPiece(ev: string, wsn: string, tt: string, mark: string, stop: char)
    requires IsMark(mark) && '<' !in ev && '<' !in wsn && '<' !in tt
    ensures Gives(Piece("tev:PullMessagesResponse" + " xmlns:tev=\"" + ev + "\" xmlns:wsnt=\"" + wsn
                        + "\" xmlns:tt=\"" + tt + "\">"), mark, stop, [])
  {
    Misses("tev:PullMessagesResponse" + " xmlns:tev=\"" + ev + "\" xmlns:wsnt=\"" + wsn
           + "\" xmlns:tt=\"" + tt + "\">", mark, stop, 4);
  }

  lemma EnvelopePiece(soap: string, mark: string, stop: char)
    requires IsMark(mark) && '<' !in soap
    ensures Gives(Piece("s:Envelope xmlns:s=\"" + soap + "\">"), mark, stop, [])
  {
    Misses("s:Envelope xmlns:s=\"" + soap + "\">", mark, stop, 0);
  }

  lemma OpenTextIsSilent(mark: string, stop: char)
    requires IsMark(mark)
    ensures Gives(OpenText(), mark, stop, [])
  {
    var xml, body := Piece("?xml version=\"1.0\"" + " encoding=\"UTF-8\"?>"), Piece("s:Body>");
    var soap := Piece("s:Envelope xmlns:s=\"" + NS_SOAP + "\">");
    NoAnglesEither();
    Misses("?xml version=\"1.0\"" + " encoding=\"UTF-8\"?>", mark, stop, 0);
    EnvelopePiece(NS_SOAP, mark, stop);
    Misses("s:Body>", mark, stop, 0);
    LastOpening(mark, stop);
    SilentBoth(xml, soap, mark, stop);
    SilentBoth(xml + soap, body, mark, stop);
    SilentBoth(xml + soap + body,
               Piece("tev:PullMessagesResponse" + " xmlns:tev=\"" + NS_EV + "\" xmlns:wsnt=\"" + NS_WSN
                     + "\" xmlns:tt=\"" + NS_TT + "\">"), mark, stop);
  }

  /** The first and the third of five say something. */
  lemma FirstAndThirdGive(a: string, v: seq<string>, b: string, c: string, w: seq<string>, d: string, e: string,
                          mark: string, stop: char)
    requires Gives(a, mark, stop, v) && Gives(b, mark, stop, []) && Gives(c, mark, stop, w)
    requires Gives(d, mark, stop, []) && Gives(e, mark, stop, [])
    ensures Gives(a + b + c + d + e, mark, stop, v + w)
  {
    GivesBoth(a, v, b, [], mark, stop);
    GivesBoth(a + b, v + [], c, w, mark, stop);
    GivesBoth(a + b + c, v + [] + w, d, [], mark, stop);
    GivesBoth(a + b + c + d, v + [] + w + [], e, [], mark, stop);
    assert v + [] + w + [] + [] == v + w;
  }

  lemma TopicPiece(dialect: string, mark: string, stop: char)
    requires IsMark(mark) && '<' !in dialect
    ensures Gives(Piece("wsnt:Topic Dialect=\"" + dialect + "\">" + "tns1:VideoSource/MotionAlarm"), mark, stop, [])
  {
    Misses("wsnt:Topic Dialect=\"" + dialect + "\">" + "tns1:VideoSource/MotionAlarm", mark, stop, 0);
  }

  lemma HeadIsSilent(mark: string, stop: char)
    requires IsMark(mark)
    ensures Gives(EventHead(), mark, stop, [])
  {
    NoAnglesEither();
    Misses("wsnt:NotificationMessage>", mark, stop, 0);
    TopicPiece(DIALECT, mark, stop);
    Misses("/wsnt:Topic>", mark, stop, 0);
    Misses("wsnt:Message>", mark, stop, 0);
    FourSilent(Piece("wsnt:NotificationMessage>"),
               Piece("wsnt:Topic Dialect=\"" + DIALECT + "\">" + "tns1:VideoSource/MotionAlarm"),
               Piece("/wsnt:Topic>"), Piece("wsnt:Message>"), mark, stop);
  }

  lemma FootIsSilent(mark: string, stop: char)
    requires IsMark(mark)
    ensures Gives(EventFoot(), mark, stop, [])
  {
    Misses("/tt:Data>", mark, stop, 0);
    Misses("/tt:Message>", mark, stop, 0);
    Misses("/wsnt:Message>", mark, stop, 0);
    Misses("/wsnt:NotificationMessage>", mark, stop, 0);
    FourSilent(Piece("/tt:Data>"), Piece("/tt:Message>"), Piece("/wsnt:Message>"),
               Piece("/wsnt:NotificationMessage>"), mark, stop);
  }

  lemma CloseFootIsSilent(mark: string, stop: char)
    requires IsMark(mark)
    ensures Gives(CloseFoot(), mark, stop, [])
  {
    Misses("/tev:PullMessagesResponse>", mark, stop, 0);
    Misses("/s:Body>", mark, stop, 0);
    Misses("/s:Envelope>", mark, stop, 0);
    SilentBoth(Piece("/tev:PullMessagesResponse>"), Piece("/s:Body>"), mark, stop);
    SilentBoth(Piece("/tev:PullMessagesResponse>") + Piece("/s:Body>"), Piece("/s:Envelope>"), mark, stop);
  }

  // ----- the time of an event -----

  function TimePiece(utc: TimeText): string {
    Piece("tt:Message UtcTime=\"" + utc + "\"" + ">")
  }

  function SourceText(): string {
    Piece("tt:SimpleItem Name=\"Source\"" + " Value=\"CSI\"/>")
  }

  /** Whatever the first piece says, the others of the group say nothing. */
  lemma TimeGroup(utc: TimeText, v: seq<string>, mark: string, stop: char)
    requires Gives(TimePiece(utc), mark, stop, v)
    requires Gives(Piece("tt:Source>"), mark, stop, []) && Gives(SourceText(), mark, stop, [])
    requires Gives(Piece("/tt:Source>"), mark, stop, [])
    ensures Gives(EventTime(utc), mark, stop, v)
  {
    FirstAndThirdGive(TimePiece(utc), v, Piece("tt:Source>"), SourceText(), [], Piece("/tt:Source>"), "", mark, stop);
    assert v + [] == v;
    assert TimePiece(utc) + Piece("tt:Source>") + SourceText() + Piece("/tt:Source>") + "" == EventTime(utc);
  }

  lemma SourceIsSilent(mark: string, stop: char, k: nat)
    requires IsMark(mark) && |mark| > k && (k == 1 || k == 3 || k == 21)
    requires k == 1 ==> mark[1] == 'e'
    requires k == 3 ==> mark[3] == 'M'
    requires k == 21 ==> mark[4] == 'i' && mark[21] != 'o'
    ensures Gives(Piece("tt:Source>"), mark, stop, []) && Gives(SourceText(), mark, stop, [])
    ensures Gives(Piece("/tt:Source>"), mark, stop, [])
  {
    Misses("/tt:Source>", mark, stop, 0);
    var source := "tt:Source>";
    assert source[1] == 't' && source[3] == 'S' && source[4] == 'o';
    Misses(source, mark, stop, if k == 21 then 4 else k);
    SourceItemMisses(mark, stop, k);
  }

  lemma SourceItemMisses(mark: string, stop: char, k: nat)
    requires |mark| > k && (k == 1 || k == 3 || k == 21)
    requires k == 1 ==> mark[1] == 'e'
    requires k == 3 ==> mark[3] == 'M'
    requires k == 21 ==> mark[21] != 'o'
    ensures Gives(SourceText(), mark, stop, [])
  {
    var item := "tt:SimpleItem Name=\"Source\"" + " Value=\"CSI\"/>";
    assert item[1] == 't' && item[3] == 'S' && item[21] == 'o';
    Misses(item, mark, stop, k);
  }

  lemma TimeSaysUtc(utc: TimeText)
    requires Plain(utc)
    ensures Gives(EventTime(utc), UTC, '"', [utc])
  {
    UtcMark();
    HitsValue("tt:Message UtcTime=\"", utc, ">");
    SourceIsSilent(UTC, '"', 3);
    TimeGroup(utc, [utc], UTC, '"');
  }

  lemma TimeIsSilent(utc: TimeText, mark: string, stop: char)
    requires Plain(utc) && (IsItemMark(mark) || IsEndMark(mark))
    ensures Gives(EventTime(utc), mark, stop, [])
  {
    if IsEndMark(mark) {
      Misses("tt:Message UtcTime=\"" + utc + "\"" + ">", mark, stop, 1);
      SourceIsSilent(mark, stop, 1);
    } else {
      Misses("tt:Message UtcTime=\"" + utc + "\"" + ">", mark, stop, 3);
      SourceIsSilent(mark, stop, 21);
    }
    TimeGroup(utc, [], mark, stop);
  }

  // ----- the data of an event -----

  function StatePiece(state: string): string {
    Piece("tt:SimpleItem Name=\"State\"" + " Value=\"" + state + "\"" + "/>")
  }

  function ScorePiece(score: string): string {
    Piece("tt:SimpleItem Name=\"Score\"" + " Value=\"" + score + "\"" + "/>")
  }

  function StateText(active: bool): string {
    if active then "true" else "false"
  }

  lemma PlainState(active: bool)
    ensures Plain(StateText(active))
  {
  }

  lemma PlainScore(score: Score)
    ensures Plain(Decimal(score))
  {
    assert AllDigits(Digits(score));
  }

  lemma DataGroup(active: bool, score: Score, v: seq<string>, w: seq<string>, mark: string, stop: char)
    requires Gives(Piece("tt:Data>"), mark, stop, [])
    requires Gives(StatePiece(StateText(active)), mark, stop, v) && Gives(ScorePiece(Decimal(score)), mark, stop, w)
    ensures Gives(EventData(active, score), mark, stop, v + w)
  {
    LastGive(Piece("tt:Data>"), StatePiece(StateText(active)), v, ScorePiece(Decimal(score)), w, mark, stop);
  }

  lemma StateMisses(state: string, mark: string, stop: char, k: nat)
    requires Plain(state) && |mark| > k && (k == 1 || k == 3 || k == 21)
    requires k == 1 ==> mark[1] == 'e'
    requires k == 3 ==> mark[3] == 'M'
    requires k == 21 ==> mark[21] == 'c'
    ensures Gives(StatePiece(state), mark, stop, [])
  {
    Misses("tt:SimpleItem Name=\"State\"" + " Value=\"" + state + "\"" + "/>", mark, stop, k);
  }

  lemma ScoreMisses(score: string, mark: string, stop: char, k: nat)
    requires Plain(score) && |mark| > k && (k == 1 || k == 3 || k == 21)
    requires k == 1 ==> mark[1] == 'e'
    requires k == 3 ==> mark[3] == 'M'
    requires k == 21 ==> mark[21] == 't'
    ensures Gives(ScorePiece(score), mark, stop, [])
  {
    Misses("tt:SimpleItem Name=\"Score\"" + " Value=\"" + score + "\"" + "/>", mark, stop, k);
  }

  lemma DataIsSilent(active: bool, score: Score, mark: string, stop: char, k: nat)
    requires |mark| > k && ((k == 1 && mark[1] == 'e') || (k == 3 && mark[3] == 'M'))
    ensures Gives(EventData(active, score), mark, stop, [])
  {
    PlainState(active);
    PlainScore(score);
    Misses("tt:Data>", mark, stop, k);
    StateMisses(StateText(active), mark, stop, k);
    ScoreMisses(Decimal(score), mark, stop, k);
    DataGroup(active, score, [], [], mark, stop);
  }

  lemma DataSaysState(active: bool, score: Score)
    ensures Gives(EventData(active, score), STATE, '"', [StateText(active)])
  {
    StateMark();
    PlainState(active);
    PlainScore(score);
    Misses("tt:Data>", STATE, '"', 3);
    HitsValue("tt:SimpleItem Name=\"State\"" + " Value=\"", StateText(active), "/>");
    ScoreMisses(Decimal(score), STATE, '"', 21);
    DataGroup(active, score, [StateText(active)], [], STATE, '"');
  }

  lemma DataSaysScore(active: bool, score: Score)
    ensures Gives(EventData(active, score), SCORE, '"', [Decimal(score)])
  {
    ScoreMark();
    PlainState(active);
    PlainScore(score);
    Misses("tt:Data>", SCORE, '"', 3);
    StateMisses(StateText(active), SCORE, '"', 21);
    HitsValue("tt:SimpleItem Name=\"Score\"" + " Value=\"", Decimal(score), "/>");
    DataGroup(active, score, [], [Decimal(score)], SCORE, '"');
  }

  // ----- an event -----

  lemma EventGives(utc: TimeText, active: bool, score: Score, v: seq<string>, w: seq<string>, mark: string, stop: char)
    requires IsMark(mark)
    requires Gives(EventTime(utc), mark, stop, v) && Gives(EventData(active, score), mark, stop, w)
    ensures Gives(EventText(utc, active, score), mark, stop, v + w)
  {
    HeadIsSilent(mark, stop);
    FootIsSilent(mark, stop);
    MiddleGives(EventHead(), EventTime(utc), v, EventData(active, score), w, EventFoot(), mark, stop);
  }

  lemma EventSaysUtc(utc: TimeText, active: bool, score: Score)
    requires Plain(utc)
    ensures Gives(EventText(utc, active, score), UTC, '"', [utc])
  {
    UtcMark();
    TimeSaysUtc(utc);
    DataIsSilent(active, score, UTC, '"', 3);
    EventGives(utc, active, score, [utc], [], UTC, '"');
  }

  lemma EventSaysState(utc: TimeText, active: bool, score: Score)
    requires Plain(utc)
    ensures Gives(EventText(utc, active, score), STATE, '"', [StateText(active)])
  {
    StateMark();
    TimeIsSilent(utc, STATE, '"');
    DataSaysState(active, score);
    EventGives(utc, active, score, [], [StateText(active)], STATE, '"');
  }

  lemma EventSaysScore(utc: TimeText, active: bool, score: Score)
    requires Plain(utc)
    ensures Gives(EventText(utc, active, score), SCORE, '"', [Decimal(score)])
  {
    ScoreMark();
    TimeIsSilent(utc, SCORE, '"');
    DataSaysScore(active, score);
    EventGives(utc, active, score, [], [Decimal(score)], SCORE, '"');
  }

  lemma EventIsSilent(utc: TimeText, active: bool, score: Score, mark: string, stop: char)
    requires Plain(utc) && IsEndMark(mark)
    ensures Gives(EventText(utc, active, score), mark, stop, [])
  {
    TimeIsSilent(utc, mark, stop);
    DataIsSilent(active, score, mark, stop, 1);
    EventGives(utc, active, score, [], [], mark, stop);
  }

  // ----- the end of the page -----

  lemma CloseGives(now: TimeText, termination: TimeText, v: seq<string>, w: seq<string>, mark: string, stop: char)
    requires IsMark(mark)
    requires Gives(Piece("tev:CurrentTime>" + now), mark, stop, v)
    requires Gives(Piece("tev:TerminationTime>" + termination), mark, stop, w)
    ensures Gives(CloseText(now, termination), mark, stop, v + w)
  {
    Misses("/tev:CurrentTime>", mark, stop, 0);
    Misses("/tev:TerminationTime>", mark, stop, 0);
    CloseFootIsSilent(mark, stop);
    FirstAndThirdGive(Piece("tev:CurrentTime>" + now), v, Piece("/tev:CurrentTime>"),
                      Piece("tev:TerminationTime>" + termination), w, Piece("/tev:TerminationTime>"), CloseFoot(),
                      mark, stop);
  }

  lemma CloseIsSilent(now: TimeText, termination: TimeText, mark: string, stop: char)
    requires Plain(now) && Plain(termination) && IsMark(mark) && mark[1] == 't'
    ensures Gives(CloseText(now, termination), mark, stop, [])
  {
    Misses("tev:CurrentTime>" + now, mark, stop, 1);
    Misses("tev:TerminationTime>" + termination, mark, stop, 1);
    CloseGives(now, termination, [], [], mark, stop);
  }

  lemma CloseSaysCurrent(now: TimeText, termination: TimeText)
    requires Plain(now) && Plain(termination)
    ensures Gives(CloseText(now, termination), CURRENT, '<', [now])
  {
    EndMarks();
    HitsText("tev:CurrentTime>", now);
    Misses("tev:TerminationTime>" + termination, CURRENT, '<', 4);
    CloseGives(now, termination, [now], [], CURRENT, '<');
  }

  lemma CloseSaysTermination(now: TimeText, termination: TimeText)
    requires Plain(now) && Plain(termination)
    ensures Gives(CloseText(now, termination), TERMINATION, '<', [termination])
  {
    EndMarks();
    Misses("tev:CurrentTime>" + now, TERMINATION, '<', 4);
    HitsText("tev:TerminationTime>", termination);
    CloseGives(now, termination, [], [termination], TERMINATION, '<');
  }

  // ----- an event of a page -----

  lemma NotedUtc(iso: int -> TimeText, e: Event)
    requires Plain(iso(e.utc))
    ensures Gives(Notification(iso)(e), UTC, '"', [iso(e.utc)])
  {
    EventSaysUtc(iso(e.utc), e.active, e.score);
  }

  lemma NotedState(iso: int -> TimeText, e: Event)
    requires Plain(iso(e.utc))
    ensures Gives(Notification(iso)(e), STATE, '"', [StateText(e.active)])
  {
    EventSaysState(iso(e.utc), e.active, e.score);
  }

  lemma NotedScore(iso: int -> TimeText, e: Event)
    requires Plain(iso(e.utc))
    ensures Gives(Notification(iso)(e), SCORE, '"', [Decimal(e.score)])
  {
    EventSaysScore(iso(e.utc), e.active, e.score);
  }

  lemma NotedSilently(iso: int -> TimeText, e: Event, mark: string, stop: char)
    requires Plain(iso(e.utc)) && IsEndMark(mark)
    ensures Gives(Notification(iso)(e), mark, stop, [])
  {
    EventIsSilent(iso(e.utc), e.active, e.score, mark, stop);
  }

  // ----- the page -----

  /** What the events say, one after the other. */
  function Said(say: Event -> seq<string>, events: seq<Event>): seq<string> {
    if events == [] then []
    else Said(say, events[..|events| - 1]) + say(events[|events| - 1])
  }

  lemma {:induction false} ListingGives(
      text: Event -> string, say: Event -> seq<string>, events: seq<Event>, mark: string, stop: char)
    requires forall e :: e in events ==> Gives(text(e), mark, stop, say(e))
    ensures Gives(Listing(text, events), mark, stop, Said(say, events))
  {
    if events != [] {
      var front, last := events[..|events| - 1], events[|events| - 1];
      ListingGives(text, say, front, mark, stop);
      GivesBoth(Listing(text, front), Said(say, front), text(last), say(last), mark, stop);
    }
  }

  lemma PageGives(iso: int -> TimeText, events: seq<Event>, now: int, termination: int,
                  say: Event -> seq<string>, close: seq<string>, mark: string, stop: char)
    requires IsMark(mark)
    requires forall e :: e in events ==> Gives(Notification(iso)(e), mark, stop, say(e))
    requires Gives(CloseText(iso(now), iso(termination)), mark, stop, close)
    ensures Behind(Page(iso, events, now, termination), mark, stop) == Said(say, events) + close
  {
    OpenTextIsSilent(mark, stop);
    ListingGives(Notification(iso), say, events, mark, stop);
    LastGive(OpenText(), Listing(Notification(iso), events), Said(say, events),
             CloseText(iso(now), iso(termination)), close, mark, stop);
  }

  lemma {:induction false} SaidOnce(value: Event -> string, say: Event -> seq<string>, events: seq<Event>)
    requires forall e :: say(e) == [value(e)]
    ensures |Said(say, events)| == |events|
    ensures forall i :: 0 <= i < |events| ==> Said(say, events)[i] == value(events[i])
  {
    if events != [] {
      SaidOnce(value, say, events[..|events| - 1]);
    }
  }

  lemma {:induction false} SaidNever(say: Event -> seq<string>, events: seq<Event>)
    requires forall e :: say(e) == []
    ensures Said(say, events) == []
  {
    if events != [] {
      SaidNever(say, events[..|events| - 1]);
    }
  }

  /** All time stamps of the page are free of '<' and '"'. */
  predicate PlainTimes(iso: int -> TimeText, events: seq<Event>, now: int, termination: int) {
    Plain(iso(now)) && Plain(iso(termination)) && forall e :: e in events ==> Plain(iso(e.utc))
  }

  /** The values behind one mark of the events of a page. */
  lemma PageValues(iso: int -> TimeText, events: seq<Event>, now: int, termination: int,
                   value: Event -> string, mark: string)
    requires PlainTimes(iso, events, now, termination) && IsMark(mark) && mark[1] == 't'
    requires forall e :: e in events ==> Gives(Notification(iso)(e), mark, '"', [value(e)])
    ensures var found := Behind(Page(iso, events, now, termination), mark, '"');
            |found| == |events| && forall i :: 0 <= i < |events| ==> found[i] == value(events[i])
  {
    var say := (e: Event) => [value(e)];
    CloseIsSilent(iso(now), iso(termination), mark, '"');
    PageGives(iso, events, now, termination, say, [], mark, '"');
    SaidOnce(value, say, events);
    assert Said(say, events) + [] == Said(say, events);
  }

  /** The time stamps on the page are those of the events, in order. */
  lemma ReadsUtcTimes(iso: int -> TimeText, events: seq<Event>, now: int, termination: int)
    requires PlainTimes(iso, events, now, termination)
    ensures var found := Behind(Page(iso, events, now, termination), "tt:Message UtcTime=\"", '"');
            |found| == |events| && forall i :: 0 <= i < |events| ==> found[i] == iso(events[i].utc)
  {
    UtcMark();
    forall e | e in events
      ensures Gives(Notification(iso)(e), UTC, '"', [iso(e.utc)])
    {
      NotedUtc(iso, e);
    }
    PageValues(iso, events, now, termination, (e: Event) => iso(e.utc), UTC);
  }

  /** The states on the page are those of the events, in order: "true" for the start of a motion and
      "false" for its end. */
  lemma ReadsStates(iso: int -> TimeText, events: seq<Event>, now: int, termination: int)
    requires PlainTimes(iso, events, now, termination)
    ensures var found := Behind(Page(iso, events, now, termination), "tt:SimpleItem Name=\"State\"" + " Value=\"", '"');
            |found| == |events| &&
            forall i :: 0 <= i < |events| ==>
              if events[i].active then found[i] == "true" else found[i] == "false"
  {
    StateMark();
    forall e | e in events
      ensures Gives(Notification(iso)(e), STATE, '"', [StateText(e.active)])
    {
      NotedState(iso, e);
    }
    PageValues(iso, events, now, termination, (e: Event) => StateText(e.active), STATE);
  }

  /** The scores on the page are numbers, and they are those of the events, in order. */
  lemma ReadsScores(iso: int -> TimeText, events: seq<Event>, now: int, termination: int)
    requires PlainTimes(iso, events, now, termination)
    ensures var found := Behind(Page(iso, events, now, termination), "tt:SimpleItem Name=\"Score\"" + " Value=\"", '"');
            |found| == |events| && forall i :: 0 <= i < |events| ==> Says(found[i], events[i].score)
  {
    ScoreMark();
    forall e | e in events
      ensures Gives(Notification(iso)(e), SCORE, '"', [Decimal(e.score)])
    {
      NotedScore(iso, e);
    }
    PageValues(iso, events, now, termination, (e: Event) => Decimal(e.score), SCORE);
    var found := Behind(Page(iso, events, now, termination), SCORE, '"');
    forall i | 0 <= i < |events|
      ensures Says(found[i], events[i].score)
    {
      DecimalSays(events[i].score);
    }
  }

  lemma PageEnd(iso: int -> TimeText, events: seq<Event>, now: int, termination: int,
                close: seq<string>, mark: string)
    requires PlainTimes(iso, events, now, termination) && IsEndMark(mark)
    requires Gives(CloseText(iso(now), iso(termination)), mark, '<', close)
    ensures Behind(Page(iso, events, now, termination), mark, '<') == close
  {
    var say := (e: Event) => [];
    forall e | e in events
      ensures Gives(Notification(iso)(e), mark, '<', say(e))
    {
      NotedSilently(iso, e, mark, '<');
    }
    PageGives(iso, events, now, termination, say, close, mark, '<');
    SaidNever(say, events);
    assert [] + close == close;
  }

  /** The page ends with the present time and the time the subscription ends, each under its name. */
  lemma ReadsEnd(iso: int -> TimeText, events: seq<Event>, now: int, termination: int)
    requires PlainTimes(iso, events, now, termination)
    ensures Behind(Page(iso, events, now, termination), "tev:CurrentTime>", '<') == [iso(now)]
    ensures Behind(Page(iso, events, now, termination), "tev:TerminationTime>", '<') == [iso(termination)]
  {
    EndMarks();
    CloseSaysCurrent(iso(now), iso(termination));
    PageEnd(iso, events, now, termination, [iso(now)], CURRENT);
    CloseSaysTermination(iso(now), iso(termination));
    PageEnd(iso, events, now, termination, [iso(termination)], TERMINATION);
  }
}
