/** What the SetNTP search of core/onvif_time.c finds in a document. */
module NtpDocs {
  import opened CText
  import opened Markup
  import opened TimeScan
  import opened Ntp

  /** Every '>' but the one that ends a tag is away from letters and digits: texts and attributes have
      none, attributes end in a quote or the like, and so does whatever stands before a '>' in other
      markup. */
  predicate Plain(t: Tag) {
    && WellFormed(t)
    && match t
       case Open(_, attrs, text) =>
         '>' !in attrs && '>' !in text && (attrs != "" ==> !IsAlnum(attrs[|attrs| - 1]))
       case Close(_, text, _) => '>' !in text
       case Lone(_, attrs, text) => '>' !in attrs && '>' !in text
       case Misc(markup) => forall k :: 0 < k < |markup| && markup[k] == '>' ==> !IsAlnum(markup[k - 1])
  }

  predicate AllPlain(tags: seq<Tag>) {
    forall k :: 0 <= k < |tags| ==> Plain(tags[k])
  }

  /** An element name to look for: letters and digits. */
  predicate IsTarget(local: string) {
    local != "" && forall k :: 0 <= k < |local| ==> IsAlnum(local[k])
  }

  /** The qualified name ends with `local`, which does not continue a word. */
  predicate Addressed(n: Name, local: string) {
    var q := QName(n);
    |local| <= |q| && q[|q| - |local|..] == local && (|q| == |local| || !Continues(q[|q| - |local| - 1]))
  }

  /** A local name the search takes for `local`: the name itself, or one that ends in '.' and it. */
  predicate Matches(name: string, local: string) {
    name == local ||
    (|local| < |name| && name[|name| - |local| - 1] == '.' && name[|name| - |local|..] == local)
  }

  /** Which elements the search takes, by their local names. */
  lemma AddressedByLocalName(n: Name, local: string)
    requires WellNamed(n) && IsTarget(local)
    ensures Addressed(n, local) <==> Matches(n.local, local)
  {
    if |local| < |n.local| {
      ShorterTarget(n, local);
    } else {
      LongerTarget(n, local);
    }
  }

  lemma ShorterTarget(n: Name, local: string)
    requires WellNamed(n) && |local| < |n.local|
    ensures Addressed(n, local) <==> Matches(n.local, local)
  {
    var q, c := QName(n), n.local[|n.local| - |local| - 1];
    assert q[|q| - |local| - 1] == c && NameChar(c);
    assert q[|q| - |local|..] == n.local[|n.local| - |local|..];
  }

  lemma LongerTarget(n: Name, local: string)
    requires WellNamed(n) && IsTarget(local) && |n.local| <= |local|
    ensures Addressed(n, local) <==> n.local == local
  {
    var q := QName(n);
    assert q[|q| - |n.local|..] == n.local;
    if n.prefix != "" {
      assert q[|q| - |n.local| - 1] == ':';
      if |n.local| < |local| <= |q| {
        assert q[|q| - |local|..][|local| - |n.local| - 1] == ':';
        assert IsAlnum(local[|local| - |n.local| - 1]);
      }
    }
  }

  /** For a name without dots that is equality. */
  lemma UndottedMatch(name: string, local: string)
    requires '.' !in name
    ensures Matches(name, local) <==> name == local
  {
    if |local| < |name| {
      assert name[|name| - |local| - 1] in name;
    }
  }

  /** What a hit after the tag collects: opening tags without attributes, and closing tags. */
  function TextAfter(t: Tag, local: string): seq<string> {
    match t
    case Open(n, attrs, text) => if attrs == "" && Addressed(n, local) then [text] else []
    case Close(n, text, space) => if space == "" && Addressed(n, local) then [text] else []
    case _ => []
  }

  function HitsOfTags(tags: seq<Tag>, local: string): seq<string> {
    if tags == [] then [] else TextAfter(tags[0], local) + HitsOfTags(tags[1..], local)
  }

  /** The leaves with the name: the texts of its opening tags, in document order. */
  function LeavesNamed(tags: seq<Tag>, local: string): seq<string> {
    if tags == [] then []
    else (if tags[0].Open? then TextAfter(tags[0], local) else []) + LeavesNamed(tags[1..], local)
  }

  // ----- one tag -----

  /** The part of a tag before the '>' that ends it. */
  function Before(t: Tag): string
    requires !t.Misc?
  {
    match t
    case Open(n, attrs, _) => "<" + QName(n) + attrs
    case Close(n, _, space) => "</" + QName(n) + space
    case Lone(n, attrs, _) => "<" + QName(n) + attrs + "/"
  }

  function After(t: Tag): string
    requires !t.Misc?
  {
    match t
    case Open(_, _, text) => text
    case Close(_, text, _) => text
    case Lone(_, _, text) => text
  }

  lemma NoMarkInName(n: Name)
    requires WellNamed(n)
    ensures '>' !in QName(n) && '<' !in QName(n)
  {
  }

  lemma TagIsBeforeAfter(t: Tag)
    requires !t.Misc?
    ensures "<" + Body(t) == Before(t) + ">" + After(t)
  {
    match t
    case Open(n, attrs, text) => OpenParts(QName(n), attrs, text);
    case Close(n, text, space) => CloseParts(QName(n), space, text);
    case Lone(n, attrs, text) => LoneParts(QName(n), attrs, text);
  }

  lemma OpenParts(q: string, attrs: string, text: string)
    ensures "<" + (q + attrs + ">" + text) == "<" + q + attrs + ">" + text
  {
  }

  lemma CloseParts(q: string, space: string, text: string)
    ensures "<" + ("/" + q + space + ">" + text) == "</" + q + space + ">" + text
  {
  }

  lemma LoneParts(q: string, attrs: string, text: string)
    ensures "<" + (q + attrs + "/>" + text) == "<" + q + attrs + "/" + ">" + text
  {
  }

  lemma NoMarkAround(t: Tag)
    requires !t.Misc? && Plain(t)
    ensures '>' !in Before(t) && '>' !in After(t)
  {
    NoMarkInName(t.name);
  }

  /** A name right before a '>' at the end of `b`, where `b` starts with '<'. */
  lemma HitInside(a: string, b: string, c: string, local: string)
    requires b != "" && b[0] == '<' && IsTarget(local)
    ensures HitEnd(a + b + ">" + c, |a| + |b|, local) <==>
            EndsWith(b, local)
  {
    var s, g := a + b + ">" + c, |a| + |b|;
    if |local| < |b| {
      assert s[g - |local|..g] == b[|b| - |local|..];
      assert s[g - |local| - 1] == b[|b| - |local| - 1];
    } else if |local| <= g {
      assert s[g - |local|..g][|local| - |b|] == s[|a|] == '<';
      assert IsAlnum(local[|local| - |b|]);
    }
  }

  lemma NoHitHere(s: string, g: nat, local: string)
    requires g < |s| && IsTarget(local)
    requires s[g] != '>' || (g > 0 && !IsAlnum(s[g - 1]))
    ensures !HitEnd(s, g, local)
  {
    assert IsAlnum(local[|local| - 1]);
    if |local| <= g {
      assert s[g - |local|..g][|local| - 1] == s[g - 1];
    }
  }

  lemma HitsByName(t: Tag, local: string)
    requires Plain(t) && !t.Misc? && IsTarget(local)
    ensures EndsWith(Before(t), local) <==> TextAfter(t, local) != []
  {
    var b := Before(t);
    match t
    case Open(n, attrs, _) =>
      if attrs != "" {
        assert b[|b| - 1] == attrs[|attrs| - 1];
        LastOfSuffix(b, local);
      } else {
        assert b == "<" + QName(n);
        NameAtEnd("<", n, local);
      }
    case Close(n, _, space) =>
      if space != "" {
        assert b[|b| - 1] == space[|space| - 1] && space[|space| - 1] in space;
        LastOfSuffix(b, local);
      } else {
        assert b == "</" + QName(n);
        NameAtEnd("</", n, local);
      }
    case Lone(_, _, _) =>
      assert b[|b| - 1] == '/';
      LastOfSuffix(b, local);
  }

  lemma LastOfSuffix(b: string, local: string)
    requires IsTarget(local)
    ensures |local| < |b| && b[|b| - |local|..] == local ==> IsAlnum(b[|b| - 1])
  {
    if |local| < |b| && b[|b| - |local|..] == local {
      assert b[|b| - 1] == local[|local| - 1];
    }
  }

  lemma NameAtEnd(mark: string, n: Name, local: string)
    requires mark == "<" || mark == "</"
    requires WellNamed(n) && IsTarget(local)
    ensures EndsWith(mark + QName(n), local) <==> Addressed(n, local)
  {
    assert mark[|mark| - 1] == '<' || mark[|mark| - 1] == '/';
    EndsBehind(mark, QName(n), local);
  }

  /** `b` ends with `local`, after a character that does not continue a word. */
  predicate EndsWith(b: string, local: string) {
    |local| < |b| && b[|b| - |local|..] == local && !Continues(b[|b| - |local| - 1])
  }

  lemma EndsBehind(mark: string, q: string, local: string)
    requires mark != "" && !Continues(mark[|mark| - 1]) && IsTarget(local)
    ensures EndsWith(mark + q, local) <==>
            |local| <= |q| && q[|q| - |local|..] == local && (|q| == |local| || !Continues(q[|q| - |local| - 1]))
  {
    var b := mark + q;
    if |local| <= |q| {
      assert b[|b| - |local|..] == q[|q| - |local|..];
    } else if |local| < |b| {
      var k := |local| - |q| - 1;
      assert b[|b| - |local|..][k] == mark[|mark| - 1];
      assert IsAlnum(local[k]);
    }
  }

  // ----- a sequence of tags -----

  lemma NoHitsInText(s: string, i: nat, j: nat, local: string)
    requires i <= j <= |s| && '>' !in s[i..j]
    ensures HitsFrom(s, i, local) == HitsFrom(s, j, local)
  {
    forall g | i <= g < j
      ensures !HitEnd(s, g, local)
    {
      assert s[g] == s[i..j][g - i];
    }
    HitsNeedRoom(s, i, j, local);
  }

  /** No hit can end at this character. */
  predicate Quiet(m: string, k: nat) {
    k < |m| && (m[k] != '>' || (k > 0 && !IsAlnum(m[k - 1])))
  }

  lemma QuietChar(a: string, m: string, rest: string, k: nat, local: string)
    requires IsTarget(local) && Quiet(m, k)
    ensures !HitEnd(a + m + rest, |a| + k, local)
  {
    NoHitHere(a + m + rest, |a| + k, local);
  }

  lemma NoHitsInQuiet(a: string, m: string, rest: string, local: string)
    requires IsTarget(local)
    requires forall k :: 0 <= k < |m| ==> Quiet(m, k)
    ensures HitsFrom(a + m + rest, |a|, local) == HitsFrom(a + m + rest, |a| + |m|, local)
  {
    forall g | |a| <= g < |a| + |m|
      ensures !HitEnd(a + m + rest, g, local)
    {
      QuietChar(a, m, rest, g - |a|, local);
    }
    HitsNeedRoom(a + m + rest, |a|, |a| + |m|, local);
  }

  lemma MiscIsQuiet(markup: string, k: nat)
    requires Plain(Misc(markup)) && k <= |markup|
    ensures Quiet("<" + markup, k)
  {
    if k > 0 {
      assert ("<" + markup)[k] == markup[k - 1];
      assert ("<" + markup)[k - 1] == if k > 1 then markup[k - 2] else '<';
    }
  }

  /** The hit at the '>' after `b`, if there is one, collects `text`. */
  lemma HitsAtMark(b: string, text: string, rest: string, local: string)
    requires '<' !in text && '>' !in text && (rest == "" || rest[0] == '<')
    ensures var s := b + ">" + text + rest;
            HitsFrom(s, |b|, local) ==
            (if HitEnd(s, |b|, local) then [text] else []) + HitsFrom(s, |b| + 1 + |text|, local)
  {
    HitsAfter(b + ">", text, rest, local);
  }

  lemma HitsAfter(a: string, text: string, rest: string, local: string)
    requires a != "" && '<' !in text && '>' !in text && (rest == "" || rest[0] == '<')
    ensures var s := a + text + rest;
            HitsFrom(s, |a| - 1, local) ==
            (if HitEnd(s, |a| - 1, local) then [text] else []) + HitsFrom(s, |a| + |text|, local)
  {
    FindPast(a, text, rest, 0, '<');
    TextBetween(a, text, rest);
    HitsBefore(a + text + rest, |a|, |a| + |text|, text, local);
  }

  lemma HitsBefore(s: string, i: nat, stop: nat, text: string, local: string)
    requires 0 < i <= stop <= |s| && s[i..stop] == text && '>' !in text && FindFrom(s, i, '<') == stop
    ensures HitsFrom(s, i - 1, local) == (if HitEnd(s, i - 1, local) then [text] else []) + HitsFrom(s, stop, local)
  {
    NoHitsInText(s, i, stop, local);
    HitsUnroll(s, i - 1, local);
  }

  lemma TextBetween(a: string, text: string, rest: string)
    ensures (a + text + rest)[|a|..|a| + |text|] == text
  {
  }

  lemma HitsUnroll(s: string, i: nat, local: string)
    requires i < |s|
    ensures HitsFrom(s, i, local) ==
            (if HitEnd(s, i, local) then [s[i + 1..FindFrom(s, i + 1, '<')]] else []) + HitsFrom(s, i + 1, local)
  {
  }

  lemma Regroup(a: string, b: string, c: string, d: string)
    ensures a + (b + ">" + c) + d == (a + b) + ">" + c + d
    ensures a + (b + ">" + c) + d == a + b + ">" + (c + d)
    ensures a + (b + ">" + c) + d == a + b + (">" + (c + d))
  {
  }

  lemma NoHitsInMiddle(a: string, b: string, c: string, local: string)
    requires '>' !in b
    ensures HitsFrom(a + b + c, |a|, local) == HitsFrom(a + b + c, |a| + |b|, local)
  {
    TextBetween(a, b, c);
    NoHitsInText(a + b + c, |a|, |a| + |b|, local);
  }

  lemma HitsOfNamedTag(a: string, b: string, c: string, m: string, rest: string, hit: bool, local: string)
    requires '>' !in b && '<' !in c && '>' !in c && (rest == "" || rest[0] == '<') && m == b + ">" + c
    requires hit == HitEnd(a + b + ">" + (c + rest), |a| + |b|, local)
    ensures HitsFrom(a + m + rest, |a|, local) ==
            (if hit then [c] else []) + HitsFrom(a + m + rest, |a| + |m|, local)
  {
    Regroup(a, b, c, rest);
    NoHitsInMiddle(a, b, ">" + (c + rest), local);
    HitsAtMark(a + b, c, rest, local);
  }

  lemma CollectsItsText(t: Tag, local: string)
    requires Plain(t) && !t.Misc?
    ensures TextAfter(t, local) == if TextAfter(t, local) != [] then [After(t)] else []
    ensures '<' !in After(t) && '>' !in After(t) && '>' !in Before(t)
  {
    NoMarkAround(t);
  }

  lemma HitsOfTag(a: string, t: Tag, m: string, rest: string, local: string)
    requires Plain(t) && IsTarget(local) && (rest == "" || rest[0] == '<') && m == "<" + Body(t)
    ensures HitsFrom(a + m + rest, |a|, local) == TextAfter(t, local) + HitsFrom(a + m + rest, |a| + |m|, local)
  {
    if t.Misc? {
      forall k | 0 <= k < |m| ensures Quiet(m, k) { MiscIsQuiet(t.markup, k); }
      NoHitsInQuiet(a, m, rest, local);
    } else {
      HitsOfElement(a, t, m, rest, local);
    }
  }

  lemma HitsOfElement(a: string, t: Tag, m: string, rest: string, local: string)
    requires Plain(t) && !t.Misc? && IsTarget(local) && (rest == "" || rest[0] == '<') && m == "<" + Body(t)
    ensures HitsFrom(a + m + rest, |a|, local) == TextAfter(t, local) + HitsFrom(a + m + rest, |a| + |m|, local)
  {
    var b, c := TagParts(t, local);
    HitInside(a, b, c + rest, local);
    HitsOfNamedTag(a, b, c, m, rest, EndsWith(b, local), local);
  }

  /** A tag before and after the '>' that ends it, and the text a hit there collects. */
  lemma TagParts(t: Tag, local: string) returns (b: string, c: string)
    requires Plain(t) && !t.Misc? && IsTarget(local)
    ensures "<" + Body(t) == b + ">" + c && '>' !in b && '<' !in c && '>' !in c
    ensures b != "" && b[0] == '<'
    ensures TextAfter(t, local) == if EndsWith(b, local) then [c] else []
  {
    b, c := Before(t), After(t);
    TagIsBeforeAfter(t);
    CollectsItsText(t, local);
    HitsByName(t, local);
  }

  lemma Unroll(tags: seq<Tag>, local: string)
    requires tags != []
    ensures Render(tags) == "<" + Body(tags[0]) + Render(tags[1..])
    ensures HitsOfTags(tags, local) == TextAfter(tags[0], local) + HitsOfTags(tags[1..], local)
    ensures Render(tags[1..]) == "" || Render(tags[1..])[0] == '<'
  {
  }

  lemma {:induction false} HitsFromTags(a: string, tags: seq<Tag>, local: string)
    requires AllPlain(tags) && IsTarget(local)
    ensures HitsFrom(a + Render(tags), |a|, local) == HitsOfTags(tags, local)
    decreases |tags|
  {
    if tags == [] {
      assert a + "" == a;
    } else {
      var m, rest := "<" + Body(tags[0]), Render(tags[1..]);
      Unroll(tags, local);
      HitsFromTags(a + m, tags[1..], local);
      HitsBehind(a, tags[0], m, rest, HitsOfTags(tags[1..], local), local);
    }
  }

  lemma HitsBehind(a: string, t: Tag, m: string, rest: string, later: seq<string>, local: string)
    requires Plain(t) && IsTarget(local) && (rest == "" || rest[0] == '<') && m == "<" + Body(t)
    requires later == HitsFrom(a + m + rest, |a + m|, local)
    ensures HitsFrom(a + (m + rest), |a|, local) == TextAfter(t, local) + later
  {
    Associate(a, m, rest);
    HitsOfTag(a, t, m, rest, local);
  }

  lemma TargetNames()
    ensures IsTarget(V4) && IsTarget(V6)
  {
  }

  /** On every document the search collects the texts after its hits: first all for IPv4Address in
      document order, then all for IPv6Address. */
  lemma ServersOfTags(lead: string, tags: seq<Tag>)
    requires '>' !in lead && AllPlain(tags)
    ensures Servers(lead + Render(tags)) == Kept(HitsOfTags(tags, V4)) + Kept(HitsOfTags(tags, V6))
  {
    var s := lead + Render(tags);
    TargetNames();
    assert s[0..|lead|] == lead;
    NoHitsInText(s, 0, |lead|, V4);
    NoHitsInText(s, 0, |lead|, V6);
    HitsFromTags(lead, tags, V4);
    HitsFromTags(lead, tags, V6);
  }

  // ----- the leaves, and what closing tags add -----

  /** A closing tag whose hit is kept as if it were an address. */
  predicate AddsText(t: Tag, local: string) {
    t.Close? && t.space == "" && Addressed(t.name, local) && Keeps(t.text)
  }

  function Added(tags: seq<Tag>, local: string): nat {
    if tags == [] then 0 else (if AddsText(tags[0], local) then 1 else 0) + Added(tags[1..], local)
  }

  lemma {:induction false} KeptConcat(a: seq<string>, b: seq<string>)
    ensures Kept(a + b) == Kept(a) + Kept(b)
  {
    if a == [] {
      assert a + b == b;
    } else {
      KeptConcat(a[1..], b);
      assert (a + b)[0] == a[0] && (a + b)[1..] == a[1..] + b;
      Associate(if Keeps(a[0]) then [a[0]] else [], Kept(a[1..]), Kept(b));
    }
  }

  lemma {:induction false} HitsAndLeaves(tags: seq<Tag>, local: string)
    ensures |Kept(HitsOfTags(tags, local))| == |Kept(LeavesNamed(tags, local))| + Added(tags, local)
    ensures Added(tags, local) == 0 ==> Kept(HitsOfTags(tags, local)) == Kept(LeavesNamed(tags, local))
  {
    if tags != [] {
      var t := tags[0];
      HitsAndLeaves(tags[1..], local);
      KeptConcat(TextAfter(t, local), HitsOfTags(tags[1..], local));
      KeptConcat(if t.Open? then TextAfter(t, local) else [], LeavesNamed(tags[1..], local));
    }
  }

  lemma {:induction false} NoneAdded(tags: seq<Tag>, local: string)
    ensures Added(tags, local) == 0 <==> forall k :: 0 <= k < |tags| ==> !AddsText(tags[k], local)
  {
    if tags != [] {
      NoneAdded(tags[1..], local);
      if !AddsText(tags[0], local) {
        assert forall k :: 1 <= k < |tags| ==> tags[k] == tags[1..][k - 1];
      }
    }
  }

  /** The server list is the list of address leaves if and only if no closing tag of an address
      element is followed by a text of 1 to 45 characters; a compact document has none. */
  lemma ServersAreTheLeaves(lead: string, tags: seq<Tag>)
    requires '>' !in lead && AllPlain(tags)
    ensures Servers(lead + Render(tags)) == Kept(LeavesNamed(tags, V4)) + Kept(LeavesNamed(tags, V6))
            <==> forall k :: 0 <= k < |tags| ==> !AddsText(tags[k], V4) && !AddsText(tags[k], V6)
  {
    ServersOfTags(lead, tags);
    HitsAndLeaves(tags, V4);
    HitsAndLeaves(tags, V6);
    NoneAdded(tags, V4);
    NoneAdded(tags, V6);
  }

  // ----- by local name -----

  /** The texts of the attribute-free elements the search takes for `local`, in document order. */
  function LeafTexts(tags: seq<Tag>, local: string): seq<string> {
    if tags == [] then []
    else
      var t := tags[0];
      (if t.Open? && t.attrs == "" && Matches(t.name.local, local) then [t.text] else []) + LeafTexts(tags[1..], local)
  }

  lemma {:induction false} LeavesByLocalName(tags: seq<Tag>, local: string)
    requires AllPlain(tags) && IsTarget(local)
    ensures LeavesNamed(tags, local) == LeafTexts(tags, local)
  {
    if tags != [] {
      var t := tags[0];
      if t.Open? { AddressedByLocalName(t.name, local); }
      LeavesByLocalName(tags[1..], local);
    }
  }

  /** A closing tag of an address element that is followed by what could be an address. */
  predicate ClosesIntoText(t: Tag) {
    t.Close? && t.space == "" && (Matches(t.name.local, V4) || Matches(t.name.local, V6)) && Keeps(t.text)
  }

  lemma AddsByLocalName(t: Tag)
    requires Plain(t)
    ensures AddsText(t, V4) || AddsText(t, V6) <==> ClosesIntoText(t)
  {
    TargetNames();
    if t.Close? {
      AddressedByLocalName(t.name, V4);
      AddressedByLocalName(t.name, V6);
    }
  }

  lemma TakesTell(a: seq<string>, b: seq<string>)
    ensures (forall max: nat :: Take(a, max) == Take(b, max)) <==> a == b
  {
    var longest := if |a| < |b| then |b| else |a|;
    assert Take(a, longest) == a && Take(b, longest) == b;
  }

  predicate NoneClosesIntoText(tags: seq<Tag>) {
    forall k :: 0 <= k < |tags| ==> !ClosesIntoText(tags[k])
  }

  /** By local name: the list is that of the address leaves, IPv4 before IPv6, if and only if no closing
      tag of an address element is followed by a text of 1 to 45 characters. */
  lemma ServersByLocalName(lead: string, tags: seq<Tag>)
    requires '>' !in lead && AllPlain(tags)
    ensures Servers(lead + Render(tags)) == Kept(LeafTexts(tags, V4)) + Kept(LeafTexts(tags, V6))
            <==> NoneClosesIntoText(tags)
  {
    TargetNames();
    LeavesByLocalName(tags, V4);
    LeavesByLocalName(tags, V6);
    ServersAreTheLeaves(lead, tags);
    forall k | 0 <= k < |tags|
      ensures !AddsText(tags[k], V4) && !AddsText(tags[k], V6) <==> !ClosesIntoText(tags[k])
    {
      AddsByLocalName(tags[k]);
    }
  }

  /** So it is for the first `max` of them, for every `max`. */
  lemma FirstServersAreTheLeaves(lead: string, tags: seq<Tag>)
    requires '>' !in lead && AllPlain(tags)
    ensures var leaves := Kept(LeafTexts(tags, V4)) + Kept(LeafTexts(tags, V6));
            (forall max: nat :: Take(Servers(lead + Render(tags)), max) == Take(leaves, max))
            <==> NoneClosesIntoText(tags)
  {
    ServersByLocalName(lead, tags);
    TakesTell(Servers(lead + Render(tags)), Kept(LeafTexts(tags, V4)) + Kept(LeafTexts(tags, V6)));
  }

  // ----- the order of the request -----

  datatype Address = Address(six: bool, text: string)

  function AddressesOf(t: Tag): seq<Address> {
    if !t.Open? || t.attrs != "" || !Keeps(t.text) then []
    else if Matches(t.name.local, V4) then [Address(false, t.text)]
    else if Matches(t.name.local, V6) then [Address(true, t.text)]
    else []
  }

  /** The addresses of a request, in its order. */
  function Addresses(tags: seq<Tag>): seq<Address> {
    if tags == [] then [] else AddressesOf(tags[0]) + Addresses(tags[1..])
  }

  function Only(addresses: seq<Address>, six: bool): seq<Address> {
    if addresses == [] then []
    else (if addresses[0].six == six then [addresses[0]] else []) + Only(addresses[1..], six)
  }

  /** IPv4 before IPv6. */
  function Sorted(addresses: seq<Address>): seq<Address> {
    Only(addresses, false) + Only(addresses, true)
  }

  function Texts(addresses: seq<Address>): seq<string> {
    if addresses == [] then [] else [addresses[0].text] + Texts(addresses[1..])
  }

  lemma {:induction false} TextsConcat(a: seq<Address>, b: seq<Address>)
    ensures Texts(a + b) == Texts(a) + Texts(b)
  {
    if a == [] {
      assert a + b == b;
    } else {
      TextsConcat(a[1..], b);
      assert (a + b)[1..] == a[1..] + b && (a + b)[0] == a[0];
      Associate([a[0].text], Texts(a[1..]), Texts(b));
    }
  }

  lemma {:induction false} OnlyConcat(a: seq<Address>, b: seq<Address>, six: bool)
    ensures Only(a + b, six) == Only(a, six) + Only(b, six)
  {
    if a == [] {
      assert a + b == b;
    } else {
      OnlyConcat(a[1..], b, six);
      assert (a + b)[1..] == a[1..] + b && (a + b)[0] == a[0];
      Associate(if a[0].six == six then [a[0]] else [], Only(a[1..], six), Only(b, six));
    }
  }

  lemma NotBoth(name: string)
    ensures !(Matches(name, V4) && Matches(name, V6))
  {
    if |name| >= |V4| {
      assert name[|name| - |V4|..][3] == name[|name| - |V4| + 3];
      assert V4[3] == '4' && V6[3] == '6' && |V4| == |V6|;
    }
  }

  lemma OneTag(t: Tag, six: bool)
    ensures var local := if six then V6 else V4;
            Texts(Only(AddressesOf(t), six)) ==
            Kept(if t.Open? && t.attrs == "" && Matches(t.name.local, local) then [t.text] else [])
  {
    if t.Open? { NotBoth(t.name.local); }
  }

  lemma {:induction false} AddressesAreLeaves(tags: seq<Tag>, six: bool)
    ensures Texts(Only(Addresses(tags), six)) == Kept(LeafTexts(tags, if six then V6 else V4))
  {
    if tags != [] {
      var t, local := tags[0], if six then V6 else V4;
      AddressesAreLeaves(tags[1..], six);
      OneTag(t, six);
      OnlyConcat(AddressesOf(t), Addresses(tags[1..]), six);
      TextsConcat(Only(AddressesOf(t), six), Only(Addresses(tags[1..]), six));
      KeptConcat(if t.Open? && t.attrs == "" && Matches(t.name.local, local) then [t.text] else [],
                 LeafTexts(tags[1..], local));
    }
  }

  /** No IPv6 address stands before an IPv4 address. */
  predicate FourBeforeSix(addresses: seq<Address>) {
    forall i, j :: 0 <= i < j < |addresses| && addresses[i].six ==> addresses[j].six
  }

  lemma {:induction false} OnlyIsAll(addresses: seq<Address>, six: bool)
    ensures |Only(addresses, six)| + |Only(addresses, !six)| == |addresses|
    ensures forall k :: 0 <= k < |Only(addresses, six)| ==> Only(addresses, six)[k].six == six
    ensures (forall k :: 0 <= k < |addresses| ==> addresses[k].six == six) ==> Only(addresses, six) == addresses
  {
    if addresses != [] {
      OnlyIsAll(addresses[1..], six);
      assert forall k :: 1 <= k < |addresses| ==> addresses[k] == addresses[1..][k - 1];
    }
  }

  lemma SortedIsOrdered(addresses: seq<Address>)
    ensures Sorted(addresses) == addresses <==> FourBeforeSix(addresses)
  {
    if FourBeforeSix(addresses) {
      OrderedIsSorted(addresses);
    } else if Sorted(addresses) == addresses {
      SortedHasFourFirst(addresses);
    }
  }

  lemma SortedHasFourFirst(addresses: seq<Address>)
    ensures FourBeforeSix(Sorted(addresses))
  {
    OnlyIsAll(addresses, false);
    OnlyIsAll(addresses, true);
  }

  lemma OnlyStep(first: Address, rest: seq<Address>, six: bool)
    ensures Only([first] + rest, six) == (if first.six == six then [first] else []) + Only(rest, six)
  {
    assert ([first] + rest)[1..] == rest;
  }

  lemma AllSixAreSorted(addresses: seq<Address>)
    requires forall k :: 0 <= k < |addresses| ==> addresses[k].six
    ensures Sorted(addresses) == addresses
  {
    OnlyIsAll(addresses, true);
    assert Only(addresses, false) == [];
  }

  lemma FourStaysFirst(first: Address, rest: seq<Address>)
    requires !first.six && Sorted(rest) == rest
    ensures Sorted([first] + rest) == [first] + rest
  {
    OnlyStep(first, rest, false);
    OnlyStep(first, rest, true);
    Associate([first], Only(rest, false), Only(rest, true));
  }

  lemma RestIsOrdered(addresses: seq<Address>)
    requires FourBeforeSix(addresses) && addresses != []
    ensures FourBeforeSix(addresses[1..]) && addresses == [addresses[0]] + addresses[1..]
    ensures addresses[0].six ==> forall k :: 0 <= k < |addresses| ==> addresses[k].six
  {
  }

  lemma {:induction false} OrderedIsSorted(addresses: seq<Address>)
    requires FourBeforeSix(addresses)
    ensures Sorted(addresses) == addresses
  {
    if addresses != [] {
      RestIsOrdered(addresses);
      if addresses[0].six {
        AllSixAreSorted(addresses);
      } else {
        OrderedIsSorted(addresses[1..]);
        FourStaysFirst(addresses[0], addresses[1..]);
      }
    }
  }

  /** The header promises the request's order. Where the list is that of the leaves, it holds the
      addresses sorted by kind, and that is the request's order if and only if no IPv6 address stands
      before an IPv4 address. */
  lemma RequestOrder(lead: string, tags: seq<Tag>)
    requires '>' !in lead && AllPlain(tags) && NoneClosesIntoText(tags)
    ensures Servers(lead + Render(tags)) == Texts(Sorted(Addresses(tags)))
    ensures Sorted(Addresses(tags)) == Addresses(tags) <==> FourBeforeSix(Addresses(tags))
  {
    ServersByLocalName(lead, tags);
    AddressesAreLeaves(tags, false);
    AddressesAreLeaves(tags, true);
    TextsConcat(Only(Addresses(tags), false), Only(Addresses(tags), true));
    SortedIsOrdered(Addresses(tags));
  }

  /** Of any list, in its order, the texts of 1 to 45 characters are kept. */
  lemma KeepsUpTo45(a: seq<string>, text: string, b: seq<string>)
    ensures Kept(a + [text] + b) == Kept(a) + (if 1 <= |text| <= 45 then [text] else []) + Kept(b)
  {
    KeptConcat(a + [text], b);
    KeptConcat(a, [text]);
    KeptStep(text, []);
    assert [text] + [] == [text];
  }

  lemma TwoServers(six: string, four: string)
    requires Keeps(six) && Keeps(four) && '<' !in six && '>' !in six && '<' !in four && '>' !in four
    ensures var a, b := Name("tt", V6), Name("tt", V4);
            var tags := [Open(a, "", six)] + ([Close(a, "")] + ([Open(b, "", four)] + [Close(b, "")]));
            Texts(Addresses(tags)) == [six] + [four] && Servers(Render(tags)) == [four] + [six]
  {
    var a, b := Name("tt", V6), Name("tt", V4);
    var second := [Open(b, "", four)] + [Close(b, "")];
    var first := [Close(a, "")] + second;
    var tags := [Open(a, "", six)] + first;
    SixAndFour();
    assert tags[1..] == first && first[1..] == second && second[1..] == [Close(b, "")];
    assert Addresses([Close(b, "")]) == [];
    assert Addresses(second) == [Address(false, four)];
    assert Addresses(first) == [] + Addresses(second);
    assert Addresses(tags) == [Address(true, six)] + Addresses(second);
    assert AllPlain(tags) && NoneClosesIntoText(tags);
    RequestOrder("", tags);
    assert "" + Render(tags) == Render(tags);
    TwoTexts(Address(true, six), Address(false, four));
  }

  /** An IPv6 server asked for before an IPv4 server comes after it. */
  lemma SixThenFour(six: string, four: string)
    requires 1 <= |six| <= 45 && 1 <= |four| <= 45 && '<' !in six && '>' !in six && '<' !in four && '>' !in four
    ensures var a, b := Name("tt", "IPv6Address"), Name("tt", "IPv4Address");
            var tags := [Open(a, "", six)] + ([Close(a, "")] + ([Open(b, "", four)] + [Close(b, "")]));
            Texts(Addresses(tags)) == [six] + [four] && Servers(Render(tags)) == [four] + [six]
  {
    TwoServers(six, four);
  }

  lemma TwoTexts(x: Address, y: Address)
    requires x.six && !y.six
    ensures Texts([x] + [y]) == [x.text] + [y.text] && Texts(Sorted([x] + [y])) == [y.text] + [x.text]
  {
    assert Only([], false) == [] && Only([], true) == [] && [y] + [] == [y];
    OnlyStep(y, [], false);
    OnlyStep(y, [], true);
    OnlyStep(x, [y], false);
    OnlyStep(x, [y], true);
    TextsOfTwo(x, y);
    TextsOfTwo(y, x);
  }

  lemma TextsOfTwo(x: Address, y: Address)
    ensures Texts([x] + [y]) == [x.text] + [y.text]
  {
    assert ([x] + [y])[1..] == [y] && [y][1..] == [];
    assert Texts([]) == [] && Texts([y]) == [y.text] + Texts([]) == [y.text];
  }

  lemma SixAndFour()
    ensures IsName("tt") && IsName(V4) && IsName(V6)
    ensures Matches(V4, V4) && Matches(V6, V6) && !Matches(V6, V4)
  {
    NotBoth(V6);
  }

  /** No text between a closing tag and the next tag. */
  predicate Compact(tags: seq<Tag>) {
    forall k :: 0 <= k < |tags| && tags[k].Close? ==> tags[k].text == ""
  }

  /** For a compact document the result is the first `max` address leaves of 1 to 45 characters. */
  lemma CompactServers(lead: string, tags: seq<Tag>, max: nat)
    requires '>' !in lead && AllPlain(tags) && Compact(tags)
    ensures Take(Servers(lead + Render(tags)), max) ==
            Take(Kept(LeavesNamed(tags, V4)) + Kept(LeavesNamed(tags, V6)), max)
  {
    ServersAreTheLeaves(lead, tags);
  }

  /** With line breaks between the tags the claim fails: the white space after the closing tag of
      one address is taken for a second one. */
  lemma IndentedDocument()
    ensures var name := Name("tt", "IPv4Address");
            var tags := [Open(name, "", "10.0.0.1"), Close(name, "\n")];
            AllPlain(tags) && Servers(Render(tags)) != Kept(LeavesNamed(tags, V4)) + Kept(LeavesNamed(tags, V6))
  {
    var name := Name("tt", V4);
    var tags := [Open(name, "", "10.0.0.1"), Close(name, "\n")];
    TargetNames();
    assert IsName("tt") && IsName(V4);
    AddressedByLocalName(name, V4);
    assert AddsText(tags[1], V4);
    ServersAreTheLeaves("", tags);
    assert "" + Render(tags) == Render(tags);
  }
}
