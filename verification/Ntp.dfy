/** SetNTP requests: `onvif_time_parse_set_ntp` of core/onvif_time.c, which looks for the element
names with `strstr` and so hits closing tags as well. */
module Ntp {
  import opened CText
  import opened Markup
  import opened TimeScan

  const HOST_MAX: nat := 45

  // ----- what the search hits -----

  /** A character that would continue the identifier on the left of a hit. */
  predicate Continues(c: char) {
    IsAlnum(c) || c == '_' || c == '-'
  }

  /** The '>' at `g` ends a hit: `local` stands right before it and does not continue a word. */
  predicate HitEnd(s: string, g: nat, local: string)
    requires g < |s|
  {
    && s[g] == '>' && |local| <= g && s[g - |local|..g] == local
    && (g == |local| || !Continues(s[g - |local| - 1]))
  }

  /** The texts after the hits that end at or after `i`, in order. */
  function HitsFrom(s: string, i: nat, local: string): seq<string>
    requires i <= |s|
    decreases |s| - i
  {
    if i == |s| then []
    else
      (if HitEnd(s, i, local) then [s[i + 1..FindFrom(s, i + 1, '<')]] else []) + HitsFrom(s, i + 1, local)
  }

  predicate Keeps(text: string) {
    1 <= |text| <= HOST_MAX
  }

  function Kept(texts: seq<string>): (r: seq<string>)
    ensures |r| <= |texts|
  {
    if texts == [] then [] else (if Keeps(texts[0]) then [texts[0]] else []) + Kept(texts[1..])
  }

  function Take(r: seq<string>, max: nat): (t: seq<string>)
    ensures t <= r && |t| <= max
  {
    if |r| <= max then r else r[..max]
  }

  lemma TakesUpTo(r: seq<string>, max: nat)
    ensures Take(r, max) == r[..if |r| < max then |r| else max]
  {
  }

  const V4 := "IPv4Address"
  const V6 := "IPv6Address"

  /** All the addresses of a body, before the limit: those of the first pass, then the second. */
  function Servers(body: string): seq<string> {
    Kept(HitsFrom(body, 0, V4)) + Kept(HitsFrom(body, 0, V6))
  }

  // ----- the code -----

  lemma HitsNeedRoom(s: string, i: nat, j: nat, local: string)
    requires i <= j <= |s| && (forall g :: i <= g < j ==> !HitEnd(s, g, local))
    ensures HitsFrom(s, i, local) == HitsFrom(s, j, local)
    decreases j - i
  {
    if i < j {
      assert !HitEnd(s, i, local);
      HitsNeedRoom(s, i + 1, j, local);
    }
  }

  /** `strstr(s + from, part)`. */
  method NextText(s: string, from: nat, part: string) returns (p: Option<nat>)
    requires from <= |s|
    ensures NextPlace(s, from, p, part)
  {
    var r := FindText(s[from..], part);
    FindTextIsFirst(s[from..], part);
    OccursBehind(s, from, part);
    return if r.None? then None else Some(from + r.value);
  }

  lemma OccursBehind(s: string, from: nat, part: string)
    requires from <= |s|
    ensures forall k :: from <= k ==> (Occurs(s, k, part) <==> Occurs(s[from..], k - from, part))
  {
    forall k | from <= k
      ensures Occurs(s, k, part) <==> Occurs(s[from..], k - from, part)
    {
      if k + |part| <= |s| {
        assert s[from..][k - from..k - from + |part|] == s[k..k + |part|];
      }
    }
  }

  /** No hit ends between two places of `strstr`. */
  lemma NoHitBetween(s: string, p: nat, q: nat, local: string)
    requires p <= q && q + |local| <= |s|
    requires forall k :: p <= k < q ==> !Occurs(s, k, local)
    ensures HitsFrom(s, p + |local|, local) == HitsFrom(s, q + |local|, local)
  {
    forall g | p + |local| <= g < q + |local|
      ensures !HitEnd(s, g, local)
    {
      assert !Occurs(s, g - |local|, local);
    }
    HitsNeedRoom(s, p + |local|, q + |local|, local);
  }

  lemma NoHitLeft(s: string, p: nat, local: string)
    requires p + |local| <= |s|
    requires forall k :: p <= k ==> !Occurs(s, k, local)
    ensures HitsFrom(s, p + |local|, local) == []
  {
    forall g | p + |local| <= g < |s|
      ensures !HitEnd(s, g, local)
    {
      assert !Occurs(s, g - |local|, local);
    }
    HitsNeedRoom(s, p + |local|, |s|, local);
  }

  /** The hits that `strstr` can still find from `p` on. */
  function HitsAhead(s: string, p: nat, local: string): seq<string> {
    if p + |local| <= |s| then HitsFrom(s, p + |local|, local) else []
  }

  /** The addresses still to come from `p` on. */
  function Remaining(s: string, p: nat, local: string): seq<string> {
    Kept(HitsAhead(s, p, local))
  }

  lemma AllAhead(s: string, local: string)
    ensures HitsFrom(s, 0, local) == HitsAhead(s, 0, local)
  {
    HitsNeedRoom(s, 0, if |local| <= |s| then |local| else |s|, local);
  }

  /** The addresses from the place `q` of the name on. */
  function FromPlace(s: string, q: nat, local: string): seq<string>
    requires q + |local| <= |s|
  {
    Kept(HitsFrom(s, q + |local|, local))
  }

  /** `q` is the next place of `strstr` from `p` on. */
  ghost predicate NextPlace(s: string, p: nat, q: Option<nat>, local: string) {
    && (q.None? ==> forall k :: p <= k ==> !Occurs(s, k, local))
    && (q.Some? ==> p <= q.value && Occurs(s, q.value, local))
    && (q.Some? ==> forall k :: p <= k < q.value ==> !Occurs(s, k, local))
  }

  lemma RemainingFrom(s: string, p: nat, q: Option<nat>, local: string)
    requires p <= |s| && NextPlace(s, p, q, local)
    ensures Remaining(s, p, local) == if q.None? then [] else FromPlace(s, q.value, local)
  {
    if p + |local| <= |s| {
      if q.None? {
        NoHitLeft(s, p, local);
      } else {
        NoHitBetween(s, p, q.value, local);
      }
    }
  }

  lemma KeptStep(text: string, rest: seq<string>)
    ensures Kept([text] + rest) == (if Keeps(text) then [text] else []) + Kept(rest)
  {
    assert ([text] + rest)[1..] == rest;
  }

  lemma HereThenAhead(s: string, p: nat, local: string)
    requires p + |local| <= |s|
    ensures var g := p + |local|;
            HitsFrom(s, g, local) ==
            if g < |s| && HitEnd(s, g, local) then
              [s[g + 1..FindFrom(s, g + 1, '<')]] + HitsAhead(s, p + 1, local)
            else HitsAhead(s, p + 1, local)
  {
    var g := p + |local|;
    if g < |s| && !HitEnd(s, g, local) {
      assert [] + HitsFrom(s, g + 1, local) == HitsFrom(s, g + 1, local);
    }
  }

  /** The address text after the name at `p`, when the code takes that place for a hit. */
  method AddressAt(body: string, p: nat, local: string) returns (text: Option<string>)
    requires Occurs(body, p, local) && |local| > 0
    ensures FromPlace(body, p, local) ==
            if text.Some? then [text.value] + Remaining(body, p + 1, local) else Remaining(body, p + 1, local)
  {
    var g := p + |local|;
    HereThenAhead(body, p, local);
    if p > 0 && (IsAlnum(body[p - 1]) || body[p - 1] == '_' || body[p - 1] == '-') {
      assert g < |body| ==> !HitEnd(body, g, local);
      return None;
    }
    if At(body, g) != '>' {
      assert g < |body| ==> !HitEnd(body, g, local);
      return None;
    }
    assert HitEnd(body, g, local);
    var stop := NextWithin(body, g + 1, |body|, '<');
    var len := stop - (g + 1);
    KeptStep(body[g + 1..stop], HitsAhead(body, p + 1, local));
    if len == 0 || len >= 46 {
      return None;
    }
    return Some(body[g + 1..stop]);
  }

  /** The rows one place adds. */
  function Rows(text: Option<string>): seq<string> {
    if text.None? then [] else [text.value]
  }

  /** `memcpy` of the address of a place, if the code takes one, into the next row. */
  method PutRow(out: array<string>, n: nat, text: Option<string>) returns (filled: nat)
    requires n < out.Length
    modifies out
    ensures n <= filled <= n + 1
    ensures out[..filled] == old(out[..n]) + Rows(text)
    ensures forall k :: filled <= k < out.Length ==> out[k] == old(out[k])
  {
    if text.None? {
      return n;
    }
    out[n] := text.value;
    return n + 1;
  }

  /** The addresses still to come when the search is at `p`, or over. */
  ghost function Coming(body: string, p: Option<nat>, local: string): seq<string> {
    if p.None? then [] else Remaining(body, p.value, local)
  }

  /** The next place of `strstr` from `p` on: the address there, if the code takes one, and where the
      search goes on, if there is a place. */
  method NextAddress(body: string, p: nat, local: string) returns (next: Option<nat>, text: Option<string>)
    requires p <= |body| && |local| > 0
    ensures next.Some? ==> p < next.value <= |body|
    ensures Remaining(body, p, local) == Rows(text) + Coming(body, next, local)
  {
    var q := NextText(body, p, local);
    RemainingFrom(body, p, q, local);
    if q.None? {
      return None, None;
    }
    text := AddressAt(body, q.value, local);
    next := Some(q.value + 1);
  }

  /** One turn of the inner loop: where the search goes on, and how many rows are filled. */
  method Turn(body: string, out: array<string>, n: nat, p: nat, local: string)
    returns (next: Option<nat>, filled: nat)
    requires n < out.Length && p <= |body| && |local| > 0
    modifies out
    ensures n <= filled <= n + 1
    ensures next.Some? ==> p < next.value <= |body|
    ensures out[..filled] + Coming(body, next, local) == old(out[..n]) + Remaining(body, p, local)
    ensures forall k :: filled <= k < out.Length ==> out[k] == old(out[k])
  {
    var text;
    next, text := NextAddress(body, p, local);
    filled := PutRow(out, n, text);
    Associate(old(out[..n]), Rows(text), Coming(body, next, local));
  }

  /** One pass of the outer loop: adds the addresses named `local` to the rows already filled. */
  method Pass(body: string, out: array<string>, start: nat, max: nat, local: string) returns (n: nat)
    requires start <= max <= out.Length && |local| > 0
    modifies out
    ensures start <= n <= max
    ensures out[..n] == Take(old(out[..start]) + Remaining(body, 0, local), max)
    ensures forall k :: n <= k < out.Length ==> out[k] == old(out[k])
  {
    n := start;
    var p: Option<nat> := Some(0);
    ghost var total := out[..start] + Remaining(body, 0, local);
    while p.Some? && n < max
      invariant start <= n <= max && (p.Some? ==> p.value <= |body|)
      invariant out[..n] + Coming(body, p, local) == total
      invariant forall k :: n <= k < out.Length ==> out[k] == old(out[k])
      decreases if p.Some? then 1 + |body| - p.value else 0
    {
      p, n := Turn(body, out, n, p.value, local);
    }
    TakeAll(out[..n], Coming(body, p, local), max);
  }

  lemma TakeAll(filled: seq<string>, rest: seq<string>, max: nat)
    requires |filled| <= max && (|filled| == max || rest == [])
    ensures filled == Take(filled + rest, max)
  {
  }

  /** `onvif_time_parse_set_ntp`: the rows hold the first `max` addresses, IPv4 before IPv6. */
  method ParseSetNtp(body: string, out: array<string>, max: int) returns (n: nat)
    requires max <= out.Length
    modifies out
    ensures n <= out.Length && (max <= 0 ==> n == 0)
    ensures max > 0 ==> out[..n] == Take(Servers(body), max)
    ensures forall k :: n <= k < out.Length ==> out[k] == old(out[k])
  {
    if max <= 0 {
      return 0;
    }
    AllAhead(body, V4);
    AllAhead(body, V6);
    n := Pass(body, out, 0, max, V4);
    if n < max {
      n := Pass(body, out, n, max, V6);
    }
    TakeTwice(Remaining(body, 0, V4), Remaining(body, 0, V6), max);
  }

  lemma TakeTwice(a: seq<string>, b: seq<string>, max: nat)
    ensures |a| >= max ==> Take(a + b, max) == Take(a, max)
    ensures |a| < max ==> Take(a + b, max) == Take(Take(a, max) + b, max)
  {
  }
}
