/** The text of a PullMessages response, from core/onvif_xml.c. */
module PullPages {
  import opened CText
  import opened EventRing
  import opened PieceReader

  /** Time stamps are formatted by the C library into 24 bytes, terminator included. */
  type TimeText = s: string | |s| <= 23

  const NS_EV := "http://www.onvif.org/" + "ver10/events/wsdl"
  const NS_WSN := "http://docs.oasis-open.org" + "/wsn/b-2"
  const NS_TT := "http://www.onvif.org/" + "ver10/schema"
  const NS_SOAP := "http://www.w3.org/2003/05/" + "soap-envelope"
  const DIALECT := "http://www.onvif.org/" + "ver10/tev/topicExpression/" + "ConcreteSet"

  function OpenText(): (text: string)
    ensures 0 < |text| <= 300
  {
    Piece("?xml version=\"1.0\"" + " encoding=\"UTF-8\"?>")
    + Piece("s:Envelope xmlns:s=\"" + NS_SOAP + "\">")
    + Piece("s:Body>")
    + Piece("tev:PullMessagesResponse" + " xmlns:tev=\"" + NS_EV + "\" xmlns:wsnt=\"" + NS_WSN
            + "\" xmlns:tt=\"" + NS_TT + "\">")
  }

  function EventText(utc: TimeText, active: bool, score: Score): (text: string)
    ensures 0 < |text| <= 480
  {
    EventHead() + EventTime(utc) + EventData(active, score) + EventFoot()
  }

  function EventHead(): (text: string)
    ensures 0 < |text| <= 180
  {
    Piece("wsnt:NotificationMessage>")
    + Piece("wsnt:Topic Dialect=\"" + DIALECT + "\">" + "tns1:VideoSource/MotionAlarm")
    + Piece("/wsnt:Topic>")
    + Piece("wsnt:Message>")
  }

  function EventTime(utc: TimeText): (text: string)
    ensures 0 < |text| <= 120
  {
    Piece("tt:Message UtcTime=\"" + utc + "\"" + ">")
    + Piece("tt:Source>")
    + Piece("tt:SimpleItem Name=\"Source\"" + " Value=\"CSI\"/>")
    + Piece("/tt:Source>")
  }

  function EventData(active: bool, score: Score): (text: string)
    ensures 0 < |text| <= 100
  {
    assert |Decimal(score)| <= 3 by {
      assert Power10(3) == 1000;
      DigitsLength(score, 3, 1000);
    }
    Piece("tt:Data>")
    + Piece("tt:SimpleItem Name=\"State\"" + " Value=\"" + (if active then "true" else "false") + "\"" + "/>")
    + Piece("tt:SimpleItem Name=\"Score\"" + " Value=\"" + Decimal(score) + "\"" + "/>")
  }

  function EventFoot(): (text: string)
    ensures 0 < |text| <= 80
  {
    Piece("/tt:Data>")
    + Piece("/tt:Message>")
    + Piece("/wsnt:Message>")
    + Piece("/wsnt:NotificationMessage>")
  }

  function CloseText(now: TimeText, termination: TimeText): (text: string)
    ensures 0 < |text| <= 200
  {
    Piece("tev:CurrentTime>" + now)
    + Piece("/tev:CurrentTime>")
    + Piece("tev:TerminationTime>" + termination)
    + Piece("/tev:TerminationTime>")
    + CloseFoot()
  }

  function CloseFoot(): (text: string)
    ensures 0 < |text| <= 60
  {
    Piece("/tev:PullMessagesResponse>")
    + Piece("/s:Body>")
    + Piece("/s:Envelope>")
  }

  /** One event with its time stamp formatted by `iso`. */
  function Notification(iso: int -> TimeText): Event -> string {
    (e: Event) => EventText(iso(e.utc), e.active, e.score)
  }

  /** The end of the response, given when the subscription ends. */
  function Ending(iso: int -> TimeText, now: int): int -> string {
    (termination: int) => CloseText(iso(now), iso(termination))
  }

  /** The texts of `events` one after the other. */
  function Listing(text: Event -> string, events: seq<Event>): string {
    if events == [] then ""
    else Listing(text, events[..|events| - 1]) + text(events[|events| - 1])
  }

  function Page(iso: int -> TimeText, events: seq<Event>, now: int, termination: int): string {
    OpenText() + Listing(Notification(iso), events) + CloseText(iso(now), iso(termination))
  }

  lemma ListingStep(head: string, text: Event -> string, events: seq<Event>, e: Event)
    ensures head + Listing(text, events + [e]) == head + Listing(text, events) + text(e)
  {
    assert (events + [e])[..|events|] == events;
  }

  lemma TextsAreBounded(iso: int -> TimeText, now: int)
    ensures forall e :: 0 < |Notification(iso)(e)| <= 480
    ensures forall t :: 0 < |Ending(iso, now)(t)| <= 200
  {
    forall e: Event
      ensures 0 < |Notification(iso)(e)| <= 480
    {
      var text := EventText(iso(e.utc), e.active, e.score);
      assert 0 < |text| <= 480;
    }
    forall t: int
      ensures 0 < |Ending(iso, now)(t)| <= 200
    {
      var text := CloseText(iso(now), iso(t));
      assert 0 < |text| <= 200;
    }
  }
}
