/** The handlers of esp_idf/onvif_c_events.c over the static state they share.

Each method is one mutex-held section with the code around it; `now` is the time the handler read
before it took the lock. Every method is proved to take the matching step of Subscription. */
module PullPoint {
  import opened CText
  import opened EventRing
  import opened Subscription
  import opened PullPages

  const RESP_MAX: nat := 4096

  class PullPoint {
    var subValid: bool
    var subTermination: int
    var subLastPull: int
    const ring: Ring
    const iso: int -> TimeText

    ghost predicate Valid()
      reads this, ring, ring.q
    {
      ring.Valid()
    }

    ghost function View(): State
      requires Valid()
      reads this, ring, ring.q
    {
      Sub(subValid, subTermination, subLastPull, ring.Contents())
    }

    constructor (iso: int -> TimeText)
      ensures Valid() && fresh(ring) && fresh(ring.q)
      ensures View() == Sub(false, 0, 0, [])
    {
      subValid, subTermination, subLastPull := false, 0, 0;
      ring := new Ring();
      this.iso := iso;
    }

    method SubAlive(now: int) returns (alive: bool)
      requires Valid()
      modifies this
      ensures Valid()
      ensures View() == Converge(old(View()), now)
      ensures alive == Alive(old(View()), now)
    {
      if !subValid {
        return false;
      }
      if now > subTermination || now - subLastPull > IDLE_TIMEOUT {
        subValid := false;
        return false;
      }
      return true;
    }

    method HandleCreatePullPoint(now: int) returns (reply: Reply)
      requires Valid()
      modifies this, ring
      ensures Valid()
      ensures (View(), reply) == Step(old(View()), Create(now))
    {
      subValid := true;
      subTermination := now + LIFETIME;
      subLastPull := now;
      ring.Reset();
      reply := Created(now + LIFETIME);
    }

    /** One turn of the pull loop: pops an event and prints it at `off`. */
    method MoveOne(resp: array<char>, off: nat, text: Event -> string)
      returns (ok: bool, e: Event, w: nat)
      requires Valid() && off < resp.Length
      modifies ring, resp
      ensures Valid()
      ensures ok == (old(ring.Contents()) != [])
      ensures !ok ==> ring.Contents() == old(ring.Contents())
      ensures ok ==> [e] + ring.Contents() == old(ring.Contents()) && w == |text(e)|
      ensures resp[..off] == old(resp[..off])
      ensures ok && w < resp.Length - off ==> resp[..off + w] == old(resp[..off]) + text(e)
    {
      w := 0;
      ok, e := ring.Pop(Event(false, 0, 0));
      if ok {
        w := Snprintf(resp, off, resp.Length - off, text(e));
        if w < resp.Length - off {
          Extend(resp, off, w);
        }
      }
    }

    /** The pull loop: moves events from the ring into `resp` after `start` characters, until the
        limit is reached, the ring is empty or the buffer is full. */
    method Drain(resp: array<char>, start: nat, limit: nat, text: Event -> string)
      returns (events: seq<Event>, off: nat, truncated: bool)
      requires Valid()
      requires limit <= PULL_MAX && resp.Length == RESP_MAX && 0 < start <= 300
      requires forall e :: 0 < |text(e)| <= 480
      modifies ring, resp
      ensures Valid()
      ensures !truncated && |events| == Min(limit, |old(ring.Contents())|)
      ensures events == old(ring.Contents())[..|events|]
      ensures ring.Contents() == old(ring.Contents())[|events|..]
      ensures 0 < off <= 300 + 480 * |events|
      ensures resp[..off] == old(resp[..start]) + Listing(text, events)
    {
      events, off, truncated := [], start, false;
      ghost var queue := ring.Contents();
      ghost var head := resp[..start];
      while !truncated && |events| < limit
        invariant Valid() && !truncated
        invariant |events| <= limit && |events| <= |queue|
        invariant events == queue[..|events|] && ring.Contents() == queue[|events|..]
        invariant 0 < off <= 300 + 480 * |events|
        invariant resp[..off] == head + Listing(text, events)
      {
        var ok, e, w := MoveOne(resp, off, text);
        if !ok {
          break;
        }
        if w == 0 || w >= RESP_MAX - off {
          truncated := true;
          break;
        }
        TakeOne(queue, |events|, e, ring.Contents());
        ListingStep(head, text, events, e);
        off := off + w;
        events := events + [e];
      }
    }

    /** The handler for given texts and limit. The response buffer never overflows. */
    method Answer(now: int, limit: nat, memory: bool, open: string, text: Event -> string, close: int -> string)
      returns (reply: Reply, page: string)
      requires Valid() && limit <= PULL_MAX
      requires 0 < |open| <= 300
      requires forall e :: 0 < |text(e)| <= 480
      requires forall t :: 0 < |close(t)| <= 200
      modifies this, ring
      ensures Valid()
      ensures !memory ==> View() == old(View()) && reply == OutOfMemory
      ensures memory && !Alive(old(View()), now) ==>
                View() == Converge(old(View()), now) && reply == Dereferenced
      ensures memory && Alive(old(View()), now) ==>
                var s := old(View());
                var k := Min(limit, |s.queue|);
                View() == s.(lastPull := now, queue := s.queue[k..]) &&
                reply == Delivered(s.queue[..k], s.termination) &&
                page == open + Listing(text, s.queue[..k]) + close(s.termination)
      ensures |page| < 4096
    {
      page := "";
      if !memory {
        return OutOfMemory, "";
      }
      var cap := RESP_MAX;
      var resp := new char[cap];
      var off := Snprintf(resp, 0, cap, open);
      var truncated := off == 0 || off >= cap;

      var events: seq<Event> := [];
      var alive := SubAlive(now);
      if alive {
        subLastPull := now;
        if !truncated {
          events, off, truncated := Drain(resp, off, limit, text);
        }
      }
      if !alive {
        return Dereferenced, "";
      }
      if truncated {
        return Overflow, "";
      }
      var wc := Snprintf(resp, off, cap - off, close(subTermination));
      if wc == 0 || wc >= cap - off {
        return Overflow, "";
      }
      Extend(resp, off, wc);
      page := resp[..off + wc];
      reply := Delivered(events, subTermination);
    }

    /** Every live pull delivers the first min(limit, queued) events in one page that holds exactly
        them, and no popped event is lost. */
    method HandlePullMessages(now: int, body: string, memory: bool)
      returns (reply: Reply, page: string)
      requires Valid()
      modifies this, ring
      ensures Valid()
      ensures (View(), reply) == Step(old(View()), Pull(now, body, memory))
      ensures reply.Delivered? ==> page == Page(iso, reply.events, now, reply.termination)
      ensures |page| < 4096
    {
      var limit := MessageLimit(body);
      TextsAreBounded(iso, now);
      reply, page := Answer(now, limit, memory, OpenText(), Notification(iso), Ending(iso, now));
    }

    method HandleRenew(now: int) returns (reply: Reply)
      requires Valid()
      modifies this
      ensures Valid()
      ensures (View(), reply) == Step(old(View()), Renew(now))
    {
      var alive := SubAlive(now);
      if alive {
        subTermination := now + LIFETIME;
      }
      if !alive {
        return Dereferenced;
      }
      return Renewed(now + LIFETIME);
    }

    method HandleUnsubscribe() returns (reply: Reply)
      requires Valid()
      modifies this
      ensures Valid()
      ensures (View(), reply) == Step(old(View()), Unsubscribe)
    {
      subValid := false;
      reply := Closed;
    }

    method Motion(now: int, active: bool, score: Score, enabled: bool, locked: bool) returns (reply: Reply)
      requires Valid()
      modifies this, ring, ring.q
      ensures Valid()
      ensures (View(), reply) == Step(old(View()), Subscription.Motion(now, active, score, enabled, locked))
    {
      reply := Silent;
      if !enabled {
        return;
      }
      if !locked {
        return;
      }
      if subValid {
        var _ := ring.Push(active, score, now);
      }
    }
  }

  /** The MessageLimit of the request, as the handler works it out: the number asked for when it is 1
      to 5, otherwise 6. */
  method MessageLimit(body: string) returns (limit: nat)
    ensures limit == PullLimit(body) && AsAsked(body, limit)
  {
    LimitsAsAsked(body);
    limit := PULL_MAX;
    var v := ReadNumber(body, LIMIT);
    if v > 0 && v < limit {
      limit := v;
    }
  }

  method ReadNumber(body: string, mark: string) returns (v: int)
    ensures v == NumberBehind(body, mark)
  {
    v := 0;
    var ml := FindText(body, mark);
    if ml.Some? {
      var gt := NextChar(body, ml.value, '>');
      v := NumberAfter(body, gt);
    }
  }

  ghost predicate AsAsked(body: string, limit: nat) {
    && 1 <= limit <= 6
    && (forall before, attrs, n, after :: Asks(body, before, attrs, n, after) ==>
          limit == if 1 <= n <= 5 then n else 6)
    && (!Contains(body, LIMIT) || '>' !in body ==> limit == 6)
  }

  lemma LimitsAsAsked(body: string)
    ensures AsAsked(body, PullLimit(body))
  {
    LimitByDefault(body);
    forall before, attrs, n, after | Asks(body, before, attrs, n, after)
      ensures PullLimit(body) == if 1 <= n <= 5 then n else 6
    {
      LimitOfNumber(body, before, attrs, n, after);
    }
  }

  lemma Extend(buf: array<char>, off: nat, w: nat)
    requires off + w <= buf.Length
    ensures buf[..off + w] == buf[..off] + buf[off..off + w]
  {
  }

  lemma TakeOne(queue: seq<Event>, n: nat, e: Event, left: seq<Event>)
    requires n <= |queue| && [e] + left == queue[n..]
    ensures n < |queue| && queue[..n] + [e] == queue[..n + 1] && left == queue[n + 1..]
  {
  }
}
