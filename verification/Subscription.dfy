/** The Pull-Point subscription as a state machine.

Every mutex-held section of esp_idf/onvif_c_events.c is one atomic step. A handler reads the clock
before it takes the lock, so the `now` of a step is whatever the handler had read, and steps may
carry times that go backwards; each claim below says whether it needs a clock that does not. */
module Subscription {
  import opened CText
  import opened EventRing

  const LIFETIME: int := 3600
  const IDLE_TIMEOUT: int := 120
  const PULL_MAX: nat := 6

  datatype Sub = Sub(valid: bool, termination: int, lastPull: int, queue: seq<Event>)

  type State = s: Sub | |s.queue| <= QUEUE_MAX witness Sub(false, 0, 0, [])

  /** `enabled` is the runtime gate, `locked` whether the zero-timeout lock attempt succeeded, and
      `memory` whether the response buffer could be allocated. */
  datatype Op =
    | Create(now: int)
    | Pull(now: int, body: string, memory: bool)
    | Renew(now: int)
    | Unsubscribe
    | Motion(now: int, active: bool, score: Score, enabled: bool, locked: bool)

  /** `Overflow` is the fault for a response that outgrows its buffer; no step answers it. */
  datatype Reply =
    | Created(termination: int)
    | Delivered(events: seq<Event>, termination: int)
    | Renewed(termination: int)
    | Dereferenced
    | OutOfMemory
    | Overflow
    | Closed
    | Silent

  predicate PastDeadline(s: State, now: int) {
    now > s.termination || now - s.lastPull > IDLE_TIMEOUT
  }

  predicate Alive(s: State, now: int) {
    s.valid && !PastDeadline(s, now)
  }

  /** `sub_alive`: an expired subscription is closed when somebody looks at it. */
  function Converge(s: State, now: int): State {
    s.(valid := Alive(s, now))
  }

  const LIMIT := "MessageLimit"

  /** The number after the first '>' behind the first `mark`, zero when there is none. */
  function NumberBehind(body: string, mark: string): int {
    match FindText(body, mark)
    case None => 0
    case Some(ml) => NumberAfter(body, FindFrom(body, ml, '>'))
  }

  function NumberAfter(body: string, gt: nat): int {
    if gt < |body| then Atoi(body[gt + 1..]) else 0
  }

  /** How many events one PullMessages may take. */
  function PullLimit(body: string): (limit: nat)
    ensures 1 <= limit <= PULL_MAX
  {
    var v := NumberBehind(body, LIMIT);
    if 0 < v < PULL_MAX then v else PULL_MAX
  }

  /** The first MessageLimit of `body` is a tag (`attrs` reaches to its '>') whose text starts with the
      number `n`. */
  predicate Asks(body: string, before: string, attrs: string, n: int, after: string) {
    && body == before + LIMIT + attrs + ">" + (Decimal(n) + after)
    && FindText(before + LIMIT, LIMIT) == Some(|before|)
    && '>' !in attrs
    && (after == "" || !IsDigit(after[0]))
  }

  lemma BehindMark(before: string, mark: string, attrs: string, text: string)
    requires FindText(before + mark, mark) == Some(|before|) && '>' !in mark && '>' !in attrs
    ensures var body := before + mark + attrs + ">" + text;
            var gt := FindFrom(body, |before|, '>');
            FindText(body, mark) == Some(|before|) && gt < |body| && body[gt + 1..] == text
  {
    RegroupMark(before, mark, attrs, text);
    FindTextGrows(before + mark, attrs + (">" + text), mark);
    FindPast(before, mark + attrs, ">" + text, 0, '>');
  }

  lemma RegroupMark(before: string, mark: string, attrs: string, text: string)
    ensures var body := before + mark + attrs + ">" + text;
            && body == (before + mark) + (attrs + (">" + text))
            && body == before + (mark + attrs) + (">" + text)
            && body[|before| + |mark + attrs| + 1..] == text
  {
  }

  lemma LimitHasNoMark()
    ensures '>' !in LIMIT
  {
  }

  /** A pull that asks for `n` events may take `n` when that is 1 to 5, and six otherwise. */
  lemma LimitOfNumber(body: string, before: string, attrs: string, n: int, after: string)
    requires Asks(body, before, attrs, n, after)
    ensures PullLimit(body) == if 1 <= n <= 5 then n else 6
  {
    LimitHasNoMark();
    BehindMark(before, LIMIT, attrs, Decimal(n) + after);
    AtoiPrinted(n, after);
  }

  /** Six is also what a pull without MessageLimit, or without any '>', may take. */
  lemma LimitByDefault(body: string)
    ensures !Contains(body, LIMIT) || '>' !in body ==> PullLimit(body) == 6
  {
    var ml := FindText(body, LIMIT);
    if ml.Some? && FindFrom(body, ml.value, '>') < |body| {
      assert body[FindFrom(body, ml.value, '>')] in body;
    }
  }

  function Min(a: nat, b: nat): nat {
    if a < b then a else b
  }

  predicate Queues(s: State, op: Op) {
    op.Motion? && op.enabled && op.locked && s.valid
  }

  function Step(s: State, op: Op): (State, Reply) {
    match op
    case Create(now) =>
      (Sub(true, now + LIFETIME, now, []), Created(now + LIFETIME))
    case Pull(now, body, memory) =>
      if !memory then (s, OutOfMemory)
      else if !Alive(s, now) then (Converge(s, now), Dereferenced)
      else
        var k := Min(PullLimit(body), |s.queue|);
        (s.(lastPull := now, queue := s.queue[k..]), Delivered(s.queue[..k], s.termination))
    case Renew(now) =>
      if !Alive(s, now) then (Converge(s, now), Dereferenced)
      else (s.(termination := now + LIFETIME), Renewed(now + LIFETIME))
    case Unsubscribe =>
      (s.(valid := false), Closed)
    case Motion(now, active, score, _, _) =>
      if Queues(s, op) then (s.(queue := Pushed(s.queue, Event(active, score, now))), Silent)
      else (s, Silent)
  }
}

/** Whole runs of the subscription machine. */
module SubscriptionRuns {
  import opened EventRing
  import opened Subscription

  // ----- runs, with what has happened since the last Create -----

  /** `pushed`, `delivered`: the events queued and delivered in this subscription, in order.
      `dropped`: which of `pushed` (by position) were overwritten in the ring.
      `pulls`: when it was created and successfully pulled. `grants`: when a lifetime was granted. */
  datatype History = History(
    sub: State,
    pushed: seq<Event>,
    dropped: set<nat>,
    delivered: seq<Event>,
    pulls: seq<int>,
    grants: seq<int>)

  /** The position in `pushed` of the oldest event still queued. */
  function Oldest(h: History): int {
    |h.pushed| - |h.sub.queue|
  }

  predicate Overflows(s: State, op: Op) {
    Queues(s, op) && |s.queue| == QUEUE_MAX
  }

  function Advance(h: History, op: Op): History {
    var (s, r) := Step(h.sub, op);
    match r
    case Created(_) => History(s, [], {}, [], [op.now], [op.now])
    case Delivered(events, _) =>
      h.(sub := s, delivered := h.delivered + events, pulls := h.pulls + [op.now])
    case Renewed(_) => h.(sub := s, grants := h.grants + [op.now])
    case Silent =>
      if Queues(h.sub, op) then
        h.(sub := s,
           pushed := h.pushed + [Event(op.active, op.score, op.now)],
           dropped := if Overflows(h.sub, op) && Oldest(h) >= 0 then h.dropped + {Oldest(h)}
                      else h.dropped)
      else h
    case _ => h.(sub := s)
  }

  const START := History(Sub(false, 0, 0, []), [], {}, [], [], [])

  function Run(ops: seq<Op>): History {
    if ops == [] then START else Advance(Run(ops[..|ops| - 1]), ops[|ops| - 1])
  }

  /** What remains of `pushed` when the positions in `lost` are taken out. */
  function Without(pushed: seq<Event>, lost: set<nat>): seq<Event> {
    if pushed == [] then []
    else
      var last := |pushed| - 1;
      Without(pushed[..last], lost) + (if last in lost then [] else [pushed[last]])
  }

  lemma {:induction false} WithoutLater(pushed: seq<Event>, lost: set<nat>, x: nat)
    requires x >= |pushed|
    ensures Without(pushed, lost + {x}) == Without(pushed, lost)
  {
    if pushed != [] {
      WithoutLater(pushed[..|pushed| - 1], lost, x);
    }
  }

  lemma {:induction false} WithoutSplit(pushed: seq<Event>, lost: set<nat>, base: nat)
    requires base <= |pushed| && forall i :: i in lost ==> i < base
    ensures Without(pushed, lost) == Without(pushed[..base], lost) + pushed[base..]
  {
    if base == |pushed| {
      assert pushed[..base] == pushed;
    } else {
      var last := |pushed| - 1;
      WithoutSplit(pushed[..last], lost, base);
      assert pushed[..last][..base] == pushed[..base];
      assert pushed[..last][base..] + [pushed[last]] == pushed[base..];
    }
  }

  // ----- what every run keeps -----

  ghost predicate Accounted(h: History) {
    && 0 <= Oldest(h)
    && h.sub.queue == h.pushed[Oldest(h)..]
    && (forall i :: i in h.dropped ==> i < Oldest(h))
    && h.delivered == Without(h.pushed[..Oldest(h)], h.dropped)
  }

  lemma PushKeepsAccount(h: History, op: Op)
    requires Accounted(h) && Queues(h.sub, op)
    ensures Accounted(Advance(h, op))
  {
    var h' := Advance(h, op);
    var base := Oldest(h);
    if Overflows(h.sub, op) {
      assert h'.pushed[..base + 1][..base] == h.pushed[..base];
      WithoutLater(h.pushed[..base], h.dropped, base);
    } else {
      assert h'.pushed[..base] == h.pushed[..base];
    }
  }

  lemma TakenParts(pushed: seq<Event>, base: nat, k: nat)
    requires base + k <= |pushed|
    ensures pushed[..base + k][..base] == pushed[..base]
    ensures pushed[..base + k][base..] == pushed[base..][..k]
    ensures pushed[base + k..] == pushed[base..][k..]
  {
  }

  lemma PullKeepsAccount(h: History, op: Op)
    requires Accounted(h) && op.Pull? && Step(h.sub, op).1.Delivered?
    ensures Accounted(Advance(h, op))
  {
    var h' := Advance(h, op);
    var base, k := Oldest(h), Min(PullLimit(op.body), |h.sub.queue|);
    assert Oldest(h') == base + k;
    var taken := h.pushed[..base + k];
    WithoutSplit(taken, h.dropped, base);
    TakenParts(h.pushed, base, k);
  }

  lemma StepKeepsAccount(h: History, op: Op)
    requires Accounted(h)
    ensures Accounted(Advance(h, op))
  {
    if Queues(h.sub, op) {
      PushKeepsAccount(h, op);
    } else if op.Pull? && Step(h.sub, op).1.Delivered? {
      PullKeepsAccount(h, op);
    } else if op.Create? {
      assert Advance(h, op).pushed == [];
    } else {
      var h' := Advance(h, op);
      assert h'.sub.queue == h.sub.queue && h'.pushed == h.pushed;
    }
  }

  lemma {:induction false} RunsAreAccounted(ops: seq<Op>)
    ensures Accounted(Run(ops))
  {
    if ops != [] {
      RunsAreAccounted(ops[..|ops| - 1]);
      StepKeepsAccount(Run(ops[..|ops| - 1]), ops[|ops| - 1]);
    }
  }

  /** Over every run, with any clock: what was delivered in this subscription followed by what is
      still queued is what was pushed since its Create without the dropped positions. So events
      come in order, none twice, none from an earlier subscription; and everything still queued is
      newer than everything delivered or dropped. */
  lemma DeliveredThenQueued(ops: seq<Op>)
    ensures var h := Run(ops);
            h.delivered + h.sub.queue == Without(h.pushed, h.dropped)
    ensures var h := Run(ops);
            0 <= Oldest(h) && h.sub.queue == h.pushed[Oldest(h)..] &&
            forall i :: i in h.dropped ==> i < Oldest(h)
  {
    RunsAreAccounted(ops);
    var h := Run(ops);
    WithoutSplit(h.pushed, h.dropped, Oldest(h));
  }

  /** An event is dropped only by a push that finds twelve newer-or-equal events queued, and then
      it is the oldest of them. */
  lemma DropsTheOldestOfTwelve(ops: seq<Op>, op: Op, i: nat)
    requires i !in Run(ops).dropped && i in Run(ops + [op]).dropped
    ensures var h := Run(ops);
            Queues(h.sub, op) && |h.sub.queue| == 12 && i == |h.pushed| - 12 &&
            h.sub.queue[0] == h.pushed[i]
  {
    assert (ops + [op])[..|ops|] == ops;
    RunsAreAccounted(ops);
    DropIsOldest(Run(ops), op, i);
  }

  lemma DropIsOldest(h: History, op: Op, i: nat)
    requires Accounted(h) && i !in h.dropped && i in Advance(h, op).dropped
    ensures Queues(h.sub, op) && |h.sub.queue| == QUEUE_MAX && i == |h.pushed| - QUEUE_MAX
    ensures h.sub.queue[0] == h.pushed[i]
  {
  }

  lemma {:induction false} WithoutCounts(pushed: seq<Event>, lost: set<nat>)
    ensures |Without(pushed, lost)| <= |pushed|
    ensures Without(pushed, lost) == pushed <==> forall i :: i in lost ==> i >= |pushed|
  {
    if pushed != [] {
      var last := |pushed| - 1;
      WithoutCounts(pushed[..last], lost);
      assert pushed == pushed[..last] + [pushed[last]];
      assert last !in lost && Without(pushed, lost) == pushed ==> Without(pushed[..last], lost) == pushed[..last];
    }
  }

  /** Over every run: nothing of the current subscription is lost if and only if nothing was dropped. */
  lemma LosslessExactly(ops: seq<Op>)
    ensures var h := Run(ops);
            h.delivered + h.sub.queue == h.pushed <==> h.dropped == {}
  {
    var h := Run(ops);
    DeliveredThenQueued(ops);
    WithoutCounts(h.pushed, h.dropped);
    if h.dropped != {} {
      var i :| i in h.dropped;
      assert i < Oldest(h) <= |h.pushed|;
    }
  }

  /** Since the last Create no push of the run has met a full queue. */
  predicate BacklogFits(ops: seq<Op>) {
    ops != [] && !ops[|ops| - 1].Create? ==>
      BacklogFits(ops[..|ops| - 1]) && !Overflows(Run(ops[..|ops| - 1]).sub, ops[|ops| - 1])
  }

  lemma DropsNothing(h: History, op: Op)
    requires Accounted(h)
    ensures Advance(h, op).dropped == {} <==> op.Create? || (h.dropped == {} && !Overflows(h.sub, op))
  {
    if Overflows(h.sub, op) { assert Oldest(h) in Advance(h, op).dropped; }
  }

  lemma {:induction false} NothingDropped(ops: seq<Op>)
    ensures Run(ops).dropped == {} <==> BacklogFits(ops)
  {
    if ops != [] {
      NothingDropped(ops[..|ops| - 1]);
      RunsAreAccounted(ops[..|ops| - 1]);
      DropsNothing(Run(ops[..|ops| - 1]), ops[|ops| - 1]);
    }
  }

  /** Nothing of the current subscription is lost if and only if no push since its Create has met a
      full queue, whatever happened to earlier subscriptions. */
  lemma LosslessWithoutBacklog(ops: seq<Op>)
    ensures Run(ops).delivered + Run(ops).sub.queue == Run(ops).pushed <==> BacklogFits(ops)
  {
    NothingDropped(ops);
    LosslessExactly(ops);
  }

  // ----- lifetime -----

  /** The answers to a run that starts in an arbitrary state. */
  function Replies(s: State, ops: seq<Op>): (r: seq<Reply>)
    ensures |r| == |ops|
    decreases ops
  {
    if ops == [] then []
    else
      var (s', r) := Step(s, ops[0]);
      [r] + Replies(s', ops[1..])
  }

  predicate Succeeds(r: Reply) {
    r.Delivered? || r.Renewed?
  }

  predicate NoneCreates(ops: seq<Op>) {
    forall op :: op in ops ==> !op.Create?
  }

  predicate NoneBefore(ops: seq<Op>, t: int) {
    forall op :: op in ops ==> op.Unsubscribe? || op.now >= t
  }

  /** Once closed, no pull and no renew succeeds before the next Create, whatever the clock reads. */
  lemma {:induction false} ClosedStaysClosed(s: State, ops: seq<Op>)
    requires !s.valid && NoneCreates(ops)
    ensures forall i :: 0 <= i < |ops| ==> !Succeeds(Replies(s, ops)[i])
    decreases ops
  {
    if ops != [] {
      assert ops[0] in ops;
      ClosedStaysClosed(Step(s, ops[0]).0, ops[1..]);
    }
  }

  /** A fault for expiry and an unsubscribe are both final, whatever times are read afterwards. */
  lemma ExpiryIsFinal(s: State, op: Op, ops: seq<Op>)
    requires Step(s, op).1.Dereferenced? || op.Unsubscribe?
    requires NoneCreates(ops)
    ensures forall i :: 0 <= i < |ops| ==> !Succeeds(Replies(Step(s, op).0, ops)[i])
  {
    ClosedStaysClosed(Step(s, op).0, ops);
  }

  /** Once a deadline has passed on a clock that does not run backwards, nothing succeeds before the
      next Create, although the subscription may still be marked valid. */
  lemma {:induction false} PastDeadlineIsSilent(s: State, t: int, ops: seq<Op>)
    requires PastDeadline(s, t) && NoneCreates(ops) && NoneBefore(ops, t)
    ensures forall i :: 0 <= i < |ops| ==> !Succeeds(Replies(s, ops)[i])
    decreases ops
  {
    if ops != [] {
      assert ops[0] in ops;
      PastDeadlineIsSilent(Step(s, ops[0]).0, t, ops[1..]);
    }
  }

  predicate NonDecreasing(ops: seq<Op>) {
    forall i, j :: 0 <= i < j < |ops| && !ops[i].Unsubscribe? && !ops[j].Unsubscribe? ==>
      ops[i].now <= ops[j].now
  }

  /** One step of a subscription past its deadline, read on a clock not behind that deadline. */
  lemma PastDeadlineStep(h: History, t: int, op: Op)
    requires PastDeadline(h.sub, t) && !op.Create?
    requires op.Unsubscribe? || op.now >= t
    ensures PastDeadline(Advance(h, op).sub, t) && Advance(h, op).delivered == h.delivered
  {
  }

  /** With a non-decreasing clock an event queued after a deadline is never delivered: nothing is
      delivered from then on until a Create, and a Create forgets the queue. */
  lemma {:induction false} LateMotionIsNeverDelivered(ops: seq<Op>, i: nat, j: nat)
    requires i < j <= |ops| && NonDecreasing(ops)
    requires ops[i].Motion? && PastDeadline(Run(ops[..i]).sub, ops[i].now)
    ensures (forall k :: i < k < j ==> !ops[k].Create?) ==>
              PastDeadline(Run(ops[..j]).sub, ops[i].now) &&
              Run(ops[..j]).delivered == Run(ops[..i]).delivered
    ensures ops[j - 1].Create? ==> Run(ops[..j]).sub.queue == [] && Run(ops[..j]).delivered == []
  {
    var h := Run(ops[..j - 1]);
    assert ops[..j][..j - 1] == ops[..j - 1];
    assert Run(ops[..j]) == Advance(h, ops[j - 1]);
    if j > i + 1 {
      LateMotionIsNeverDelivered(ops, i, j - 1);
    }
    if forall k :: i < k < j ==> !ops[k].Create? {
      PastDeadlineStep(h, ops[i].now, ops[j - 1]);
    }
  }

  /** Without that assumption the claim fails: in this run the motion of time 200 comes after the idle
      deadline of the subscription created at 0, and a pull that had read the clock at 100 delivers it. */
  lemma LateMotionNeedsTheClock()
    ensures var early := [Create(0)];
            var motion := Motion(200, true, 1, true, true);
            var pull := Pull(100, "", true);
            PastDeadline(Run(early).sub, motion.now) &&
            Run(early + [motion] + [pull]).delivered == [Event(true, 1, 200)]
  {
    var early: seq<Op> := [Create(0)];
    var motion := Motion(200, true, 1, true, true);
    var pull := Pull(100, "", true);
    assert early[..0] == [];
    RunStep([], early[0]);
    assert [] + [early[0]] == early;
    RunStep(early, motion);
    RunStep(early + [motion], pull);
    assert PullLimit("") == 6;
    assert Run(early + [motion]).sub.queue[..1] == [Event(true, 1, 200)];
  }

  lemma RunStep(ops: seq<Op>, op: Op)
    ensures Run(ops + [op]) == Advance(Run(ops), op)
  {
    assert (ops + [op])[..|ops|] == ops;
  }

  // ----- how long a subscription lives -----

  ghost predicate Clocked(h: History) {
    && (h.pulls != [] <==> h.grants != [])
    && (h.pulls != [] ==>
          && h.sub.lastPull == h.pulls[|h.pulls| - 1]
          && h.sub.termination == h.grants[|h.grants| - 1] + LIFETIME)
    && (h.sub.valid ==> h.pulls != [])
    && Spaced(h.pulls)
  }

  ghost predicate Spaced(pulls: seq<int>) {
    forall i :: 0 <= i < |pulls| - 1 ==> pulls[i + 1] - pulls[i] <= IDLE_TIMEOUT
  }

  lemma SpacedSoFar(pulls: seq<int>, now: int)
    requires Spaced(pulls) && (pulls != [] ==> now - pulls[|pulls| - 1] <= IDLE_TIMEOUT)
    ensures Spaced(pulls + [now])
  {
  }

  lemma StepKeepsClock(h: History, op: Op)
    requires Clocked(h)
    ensures Clocked(Advance(h, op))
  {
    match Step(h.sub, op).1
    case Delivered(_, _) => SpacedSoFar(h.pulls, op.now);
    case _ =>
  }

  lemma {:induction false} RunsAreClocked(ops: seq<Op>)
    ensures Clocked(Run(ops))
  {
    if ops != [] {
      RunsAreClocked(ops[..|ops| - 1]);
      StepKeepsClock(Run(ops[..|ops| - 1]), ops[|ops| - 1]);
    }
  }

  /** On any clock, consecutive successful pulls of one subscription (its Create counting as the
      first) are at most 120 s apart, however often it is renewed. */
  lemma PullsAreClose(ops: seq<Op>, i: nat)
    requires i + 1 < |Run(ops).pulls|
    ensures Run(ops).pulls[i + 1] - Run(ops).pulls[i] <= 120
  {
    RunsAreClocked(ops);
  }

  /** After any run, a pull or a renew succeeds exactly when the subscription is open, at most 120 s
      after the last successful pull and at most 3600 s after the last grant. */
  lemma SucceedsExactlyInTime(ops: seq<Op>, op: Op)
    requires Run(ops).sub.valid
    requires op.Renew? || (op.Pull? && op.memory)
    ensures Run(ops).pulls != [] && Run(ops).grants != []
    ensures var h := Run(ops);
            Succeeds(Step(h.sub, op).1) <==>
              op.now - h.pulls[|h.pulls| - 1] <= 120 && op.now - h.grants[|h.grants| - 1] <= 3600
  {
    RunsAreClocked(ops);
    SucceedsInTime(Run(ops), op);
  }

  lemma SucceedsInTime(h: History, op: Op)
    requires Clocked(h) && h.sub.valid && (op.Renew? || (op.Pull? && op.memory))
    ensures h.pulls != [] && h.grants != []
    ensures Succeeds(Step(h.sub, op).1) <==>
              op.now - h.pulls[|h.pulls| - 1] <= 120 && op.now - h.grants[|h.grants| - 1] <= 3600
  {
  }

  // ----- every answer of every run -----

  /** At most 120 s after the last successful pull and 3600 s after the last grant. */
  predicate InTime(h: History, now: int) {
    && h.pulls != [] && h.grants != []
    && now - h.pulls[|h.pulls| - 1] <= 120 && now - h.grants[|h.grants| - 1] <= 3600
  }

  /** The run has created a subscription since the start, has not unsubscribed from it, and no pull
      (with memory for its answer) and no renew has come too late for it. */
  predicate Open(ops: seq<Op>) {
    ops != [] &&
    var before, op := ops[..|ops| - 1], ops[|ops| - 1];
    op.Create? ||
    (Open(before) &&
     match op
     case Unsubscribe => false
     case Pull(now, _, memory) => memory ==> InTime(Run(before), now)
     case Renew(now) => InTime(Run(before), now)
     case _ => true)
  }

  lemma StepKeepsOpen(h: History, op: Op)
    requires Clocked(h)
    ensures Advance(h, op).sub.valid <==>
            match op
            case Create(_) => true
            case Unsubscribe => false
            case Pull(now, _, memory) => h.sub.valid && (memory ==> InTime(h, now))
            case Renew(now) => h.sub.valid && InTime(h, now)
            case Motion(_, _, _, _, _) => h.sub.valid
  {
  }

  /** Over every run: the subscription is marked valid exactly when it is open in that sense. */
  lemma {:induction false} ValidExactlyWhenOpen(ops: seq<Op>)
    ensures Run(ops).sub.valid <==> Open(ops)
  {
    if ops != [] {
      var before, op := ops[..|ops| - 1], ops[|ops| - 1];
      ValidExactlyWhenOpen(before);
      RunsAreClocked(before);
      StepKeepsOpen(Run(before), op);
    }
  }

  /** What an operation answers after a run, and what it does to the events. */
  ghost predicate AnswersAs(open: bool, h: History, op: Op, r: Reply, h': History) {
    match op
    case Create(now) =>
      r == Created(now + 3600) && h'.delivered == [] && h'.pushed == [] && h'.sub.queue == []
    case Pull(now, body, memory) =>
      if !memory then r == OutOfMemory && h' == h
      else if !open || !InTime(h, now) then r == Dereferenced && SameEvents(h, h')
      else
        exists k: nat ::
          && k <= |h.sub.queue| && k <= PullLimit(body) && (k == |h.sub.queue| || k == PullLimit(body))
          && r == Delivered(h.sub.queue[..k], h.grants[|h.grants| - 1] + 3600)
          && h'.delivered == h.delivered + h.sub.queue[..k] && h'.sub.queue == h.sub.queue[k..]
          && h'.pushed == h.pushed
    case Renew(now) =>
      r == (if open && InTime(h, now) then Renewed(now + 3600) else Dereferenced) && SameEvents(h, h')
    case Unsubscribe => r == Closed && SameEvents(h, h')
    case Motion(now, active, score, enabled, locked) =>
      r == Silent &&
      if !enabled || !locked || !open then h' == h
      else
        && h'.pushed == h.pushed + [Event(active, score, now)] && h'.delivered == h.delivered
        && h'.sub.queue == (if |h.sub.queue| == 12 then h.sub.queue[1..] else h.sub.queue) + [Event(active, score, now)]
  }

  predicate SameEvents(h: History, h': History) {
    h'.delivered == h.delivered && h'.pushed == h.pushed && h'.sub.queue == h.sub.queue
  }

  lemma AnswersStep(h: History, op: Op)
    requires Clocked(h)
    ensures AnswersAs(h.sub.valid, h, op, Step(h.sub, op).1, Advance(h, op))
  {
    if op.Pull? {
      var k := Min(PullLimit(op.body), |h.sub.queue|);
      assert k <= |h.sub.queue|;
    }
  }

  /** After every run every operation answers as `AnswersAs` says: a lifetime of 3600 s, deliveries from
      the front of the queue up to the limit asked for, and motions that are queued or leave no trace. */
  lemma EveryAnswer(ops: seq<Op>, op: Op)
    ensures var h := Run(ops);
            AnswersAs(Open(ops), h, op, Step(h.sub, op).1, Run(ops + [op]))
  {
    RunsAreClocked(ops);
    ValidExactlyWhenOpen(ops);
    RunStep(ops, op);
    AnswersStep(Run(ops), op);
  }

  /** When a motion is queued although the subscription is past a deadline: exactly when it is still
      marked valid and the time is more than 120 s after the last pull or 3600 s after the last grant. */
  lemma QueuedPastDeadline(ops: seq<Op>, op: Op)
    requires op.Motion? && op.enabled && op.locked
    ensures var h := Run(ops);
            Queues(h.sub, op) && !Alive(h.sub, op.now) <==>
              h.sub.valid && h.pulls != [] && h.grants != [] &&
              (op.now - h.pulls[|h.pulls| - 1] > 120 || op.now - h.grants[|h.grants| - 1] > 3600)
  {
    RunsAreClocked(ops);
  }
}
