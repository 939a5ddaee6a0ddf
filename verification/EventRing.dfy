/** The motion event ring of core/onvif_events_ring.c: twelve slots, oldest dropped first. */
module EventRing {

  const QUEUE_MAX: nat := 12

  type Score = n: nat | n < 256

  datatype Event = Event(active: bool, score: Score, utc: int)

  /** The queue a push leaves: when it is full the oldest event makes room. */
  function Pushed(queue: seq<Event>, e: Event): (after: seq<Event>)
    requires |queue| <= QUEUE_MAX
    ensures |after| <= QUEUE_MAX
  {
    (if |queue| == QUEUE_MAX then queue[1..] else queue) + [e]
  }

  /** The `count` events from slot `head` on, wrapping round. */
  function Window(slots: seq<Event>, head: nat, count: nat): (s: seq<Event>)
    requires |slots| == QUEUE_MAX
    ensures |s| == count
  {
    seq(count, i requires 0 <= i < count => slots[(head + i) % QUEUE_MAX])
  }

  lemma WindowDrop(slots: seq<Event>, head: nat, count: nat)
    requires |slots| == QUEUE_MAX && head < QUEUE_MAX && 0 < count <= QUEUE_MAX
    ensures [slots[head]] + Window(slots, (head + 1) % QUEUE_MAX, count - 1) == Window(slots, head, count)
  {
  }

  lemma WindowAppend(slots: seq<Event>, head: nat, count: nat, e: Event)
    requires |slots| == QUEUE_MAX && head < QUEUE_MAX && count < QUEUE_MAX
    ensures Window(slots[(head + count) % QUEUE_MAX := e], head, count + 1) == Window(slots, head, count) + [e]
  {
  }

  class Ring {
    const q: array<Event>
    var head: nat
    var count: nat
    var generated: nat

    ghost predicate Valid()
      reads this, q
    {
      q.Length == QUEUE_MAX && head < QUEUE_MAX && count <= QUEUE_MAX && generated < 0x1_0000_0000
    }

    /** The queued events, oldest first. */
    ghost function Contents(): (s: seq<Event>)
      requires Valid()
      reads this, q
      ensures |s| == count
    {
      Window(q[..], head, count)
    }

    constructor ()
      ensures Valid() && fresh(q)
      ensures Contents() == [] && generated == 0
    {
      q := new Event[QUEUE_MAX](_ => Event(false, 0, 0));
      head, count, generated := 0, 0, 0;
    }

    method Reset()
      requires Valid()
      modifies this
      ensures Valid()
      ensures Contents() == [] && generated == 0
    {
      head := 0;
      count := 0;
      generated := 0;
    }

    method Push(active: bool, score: Score, utc: int) returns (ok: bool)
      requires Valid()
      modifies this, q
      ensures Valid()
      ensures ok
      ensures Contents() == Pushed(old(Contents()), Event(active, score, utc))
      ensures |old(Contents())| <= 12
      ensures Contents() == (if |old(Contents())| == 12 then old(Contents())[1..] else old(Contents()))
                            + [Event(active, score, utc)]
      ensures generated == (old(generated) + 1) % 0x1_0000_0000
    {
      if count == QUEUE_MAX {
        WindowDrop(q[..], head, count);
        head := (head + 1) % QUEUE_MAX;
        count := count - 1;
      }
      WindowAppend(q[..], head, count, Event(active, score, utc));
      q[(head + count) % QUEUE_MAX] := Event(active, score, utc);
      count := count + 1;
      generated := (generated + 1) % 0x1_0000_0000;
      ok := true;
    }

    /** `e` stands for `*out`, which an empty ring leaves alone. */
    method Pop(e: Event) returns (ok: bool, out: Event)
      requires Valid()
      modifies this
      ensures Valid()
      ensures generated == old(generated)
      ensures ok == (old(Contents()) != [])
      ensures ok ==> [out] + Contents() == old(Contents())
      ensures !ok ==> out == e && Contents() == old(Contents())
    {
      if count == 0 {
        return false, e;
      }
      WindowDrop(q[..], head, count);
      ok, out := true, q[head];
      head := (head + 1) % QUEUE_MAX;
      count := count - 1;
    }
  }
}
