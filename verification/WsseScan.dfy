/** The field extraction of core/onvif_wsse.c: `element_text`, which finds an element by local name,
with or without attributes, and takes its text. */
module WsseScan {
  import opened CText
  import opened Markup

  predicate EndsName(c: char) {
    c == '>' || c == ' ' || c == '/'
  }

  /** End of the tag name that starts at `i`. */
  function NameEnd(s: string, i: nat): (e: nat)
    requires i <= |s|
    ensures i <= e <= |s|
    decreases |s| - i
  {
    if i == |s| || EndsName(s[i]) then i else NameEnd(s, i + 1)
  }

  /** Start of what the code takes for the local name of the tag name [name, end). */
  function TagLocal(s: string, name: nat, end: nat, tagLen: nat): (local: nat)
    requires name <= end <= |s|
    ensures name <= local <= end
  {
    if end - name > tagLen + 1 && s[end - tagLen - 1] == ':' then end - tagLen else name
  }

  /** The tag at the '<' at `p` is named `tag`. */
  predicate Named(s: string, p: nat, tag: string)
    requires p < |s|
  {
    var end := NameEnd(s, p + 1);
    s[TagLocal(s, p + 1, end, |tag|)..end] == tag
  }

  /** The text of the element whose tag starts at `p`, unless it is empty or cut off. */
  function TextAt(s: string, p: nat): Option<string>
    requires p < |s|
  {
    var gt := FindFrom(s, NameEnd(s, p + 1), '>');
    if gt == |s| || s[gt - 1] == '/' then None
    else
      var lt := FindFrom(s, gt + 1, '<');
      if lt == |s| then None else Some(s[gt + 1..lt])
  }

  /** The next '<' the walk looks at after the one at `p`. */
  function NextAfter(s: string, p: nat): (q: nat)
    requires p < |s|
    ensures p < q <= |s|
  {
    FindFrom(s, NameEnd(s, p + 1), '<')
  }

  /** `element_text` from the '<' at `p` on (or from the end), before the copy into a buffer. */
  function ElementFrom(s: string, p: nat, tag: string): Option<string>
    requires p <= |s|
    decreases |s| - p
  {
    if p == |s| then None
    else if Named(s, p, tag) then TextAt(s, p)
    else ElementFrom(s, NextAfter(s, p), tag)
  }

  function ElementText(s: string, tag: string): Option<string> {
    ElementFrom(s, FindFrom(s, 0, '<'), tag)
  }

  function Clipped(text: string, n: nat): (r: string)
    requires n > 0
    ensures |r| < n && r <= text
  {
    if |text| >= n then text[..n - 1] else text
  }

  /** A field as it ends up in a buffer of `n` characters. */
  function Field(s: string, tag: string, n: nat): Option<string>
    requires n > 0
  {
    match ElementText(s, tag)
    case None => None
    case Some(text) => Some(Clipped(text, n))
  }

  // ----- the walk -----

  method ScanName(s: string, name: nat) returns (end: nat)
    requires name <= |s|
    ensures end == NameEnd(s, name)
  {
    end := name;
    while end < |s| && At(s, end) != '>' && At(s, end) != ' ' && At(s, end) != '/'
      invariant name <= end <= |s| && NameEnd(s, name) == NameEnd(s, end)
    {
      end := end + 1;
    }
  }

  lemma SliceOfSlice(s: string, i: nat, j: nat, k: nat)
    requires i <= j <= |s| && i + k <= j
    ensures s[i..j][..k] == s[i..i + k] && |s[i..j]| == j - i
  {
  }

  /** What `element_text` does once the name matches. */
  method CopyText(body: string, p: nat, end: nat, n: nat) returns (out: Option<string>)
    requires p < |body| && end == NameEnd(body, p + 1) && n > 0
    ensures out == match TextAt(body, p) case None => None case Some(text) => Some(Clipped(text, n))
  {
    var gt := NextChar(body, end, '>');
    if gt == |body| {
      return None;
    }
    if body[gt - 1] == '/' {
      return None;
    }
    var text := gt + 1;
    var lt := NextChar(body, text, '<');
    if lt == |body| {
      return None;
    }
    var len := lt - text;
    if len >= n {
      len := n - 1;
    }
    SliceOfSlice(body, text, lt, len);
    return Some(body[text..text + len]);
  }

  /** The comparison of the name of the tag at `p`. */
  method NamedAt(body: string, p: nat, tag: string) returns (yes: bool, end: nat)
    requires p < |body|
    ensures end == NameEnd(body, p + 1) && yes == Named(body, p, tag)
  {
    var name := p + 1;
    end := ScanName(body, name);
    var nameLen := end - name;
    var local := if nameLen > |tag| + 1 && body[name + nameLen - |tag| - 1] == ':'
      then name + nameLen - |tag| else name;
    yes := end - local == |tag| && body[local..end] == tag;
  }

  /** `element_text`; `out` stands for the buffer of `n` characters, `None` for `false`. */
  method ReadElement(body: string, tag: string, n: nat) returns (out: Option<string>)
    requires n > 0
    ensures out == Field(body, tag, n)
  {
    var p := NextChar(body, 0, '<');
    ghost var wanted := ElementFrom(body, p, tag);
    while p < |body|
      invariant p <= |body| && (p < |body| ==> body[p] == '<')
      invariant ElementFrom(body, p, tag) == wanted
    {
      var yes, end := NamedAt(body, p, tag);
      if yes {
        out := CopyText(body, p, end, n);
        return;
      }
      p := NextChar(body, end, '<');
    }
    return None;
  }

  // ----- documents -----

  /** Attributes without '>' that do not end in '/', and other markup whose first word ends in it. */
  predicate Strict(t: Tag) {
    && WellFormed(t)
    && match t
       case Open(_, attrs, _) => '>' !in attrs && (attrs != "" ==> attrs[|attrs| - 1] != '/')
       case Close(_, _, _) => true
       case Lone(_, attrs, _) => '>' !in attrs
       case Misc(markup) => NameEnd(markup, 0) < |markup|
  }

  /** The tag name is followed by a tab or a line break, which the code takes for part of the name. */
  predicate RunsOn(t: Tag) {
    (t.Open? || t.Lone?) && t.attrs != "" && t.attrs[0] != ' '
  }

  /** What the code takes for the tag name: everything up to a blank, a '>' or a '/'. */
  function Word(t: Tag): string {
    match t
    case Open(n, attrs, _) => QName(n) + attrs[..NameEnd(attrs, 0)]
    case Lone(n, attrs, _) => QName(n) + attrs[..NameEnd(attrs, 0)]
    case Close(_, _, _) => ""
    case Misc(markup) => markup[..NameEnd(markup, 0)]
  }

  predicate EndsInName(w: string, tag: string) {
    |w| > |tag| + 1 && w[|w| - |tag| - 1] == ':' && w[|w| - |tag|..] == tag
  }

  /** A word that is no tag name, run on or the start of other markup, but ends in ':' and the tag. */
  predicate Deceives(t: Tag, tag: string) {
    (RunsOn(t) || t.Misc?) && EndsInName(Word(t), tag)
  }

  /** Every tag is strict, and what deceives has a '>' after its first word. */
  predicate AllStrict(tags: seq<Tag>, tag: string) {
    forall k :: 0 <= k < |tags| ==> StrictFor(tags[k], tag)
  }

  predicate StrictFor(t: Tag, tag: string) {
    Strict(t) && (t.Misc? && Deceives(t, tag) ==> '>' in t.markup[NameEnd(t.markup, 0)..])
  }

  predicate IsElement(t: Tag, tag: string) {
    (t.Open? || t.Lone?) && t.name.local == tag
  }

  /** What the code takes for an element named `tag`: the elements of that name whose name does not run
      on, and what deceives. */
  predicate NameHit(t: Tag, tag: string) {
    (IsElement(t, tag) && !RunsOn(t)) || Deceives(t, tag)
  }

  /** Where the '>' that ends a tag stands in it, after its first word. */
  function Mark(t: Tag): (k: nat)
    requires t.Misc?
    ensures k <= |t.markup|
  {
    FindFrom(t.markup, NameEnd(t.markup, 0), '>')
  }

  /** The rest of a tag before its '>', with the '/' of an empty element. */
  function Inside(t: Tag): string
    requires !t.Close?
  {
    match t
    case Open(_, attrs, _) => attrs[NameEnd(attrs, 0)..]
    case Lone(_, attrs, _) => attrs[NameEnd(attrs, 0)..] + "/"
    case Misc(markup) => markup[NameEnd(markup, 0)..Mark(t)]
  }

  /** The text behind a tag. */
  function Behind(t: Tag): string
    requires !t.Close?
  {
    match t
    case Open(_, _, text) => text
    case Lone(_, _, text) => text
    case Misc(markup) => if Mark(t) < |markup| then markup[Mark(t) + 1..] else ""
  }

  /** The '>' follows a '/'. */
  predicate IsEmptyTag(t: Tag)
    requires !t.Close?
  {
    Inside(t) != "" && Inside(t)[|Inside(t)| - 1] == '/'
  }

  /** The text behind the first tag the code takes for the element, unless that tag is empty (or the
      last of the text). */
  function FieldOf(tags: seq<Tag>, tag: string): Option<string> {
    if tags == [] then None
    else if NameHit(tags[0], tag) then
      if !IsEmptyTag(tags[0]) && |tags| > 1 then Some(Behind(tags[0])) else None
    else FieldOf(tags[1..], tag)
  }

  /** A field as a buffer of `n` characters holds it. */
  function FieldIn(tags: seq<Tag>, tag: string, n: nat): (r: Option<string>)
    requires n > 0
    ensures r.Some? ==> |r.value| < n
  {
    match FieldOf(tags, tag)
    case None => None
    case Some(text) => Some(Clipped(text, n))
  }

  lemma {:induction false} NameEndAfter(a: string, name: string, b: string, i: nat)
    requires i <= |name| && (forall k :: i <= k < |name| ==> !EndsName(name[k])) && (b != "" && EndsName(b[0]))
    ensures NameEnd(a + name + b, |a| + i) == |a| + |name|
    decreases |name| - i
  {
    if i < |name| {
      NameEndAfter(a, name, b, i + 1);
    }
  }

  lemma QNameHasNoEnd(n: Name)
    requires WellNamed(n)
    ensures forall k :: 0 <= k < |QName(n)| ==> !EndsName(QName(n)[k])
  {
  }

  /** Where the code cuts a qualified name, it finds the tag exactly when the local name is the tag. */
  lemma CutsAtPrefix(n: Name, tag: string)
    requires WellNamed(n) && IsName(tag)
    ensures var q := QName(n);
            q[TagLocal(q, 0, |q|, |tag|)..] == tag <==> n.local == tag
  {
    var q := QName(n);
    var local := TagLocal(q, 0, |q|, |tag|);
    if n.prefix == "" {
      assert local == 0 && q[0..] == q;
    } else {
      var colon := |n.prefix|;
      assert q[colon] == ':' && q[colon + 1..] == n.local;
      if local != 0 {
        assert q[local - 1] == ':' && local - 1 == colon;
      } else {
        assert q[0..] == q;
        assert |tag| == |q| ==> tag[colon] != q[colon];
      }
    }
  }

  lemma CutShifts(c: string, q: string, b: string, tagLen: nat)
    ensures var s := c + q + b;
            TagLocal(s, |c|, |c| + |q|, tagLen) == |c| + TagLocal(q, 0, |q|, tagLen) &&
            s[TagLocal(s, |c|, |c| + |q|, tagLen)..|c| + |q|] == q[TagLocal(q, 0, |q|, tagLen)..]
  {
    var s := c + q + b;
    if |q| > tagLen + 1 {
      assert s[|c| + |q| - tagLen - 1] == q[|q| - tagLen - 1];
    }
  }

  /** A word after '<' that ends inside the tag is compared on its own. */
  lemma NamedByWord(c: string, q: string, b: string, tag: string)
    requires c != "" && (forall k :: 0 <= k < |q| ==> !EndsName(q[k])) && b != "" && EndsName(b[0])
    ensures NameEnd(c + q + b, |c|) == |c| + |q|
    ensures Named(c + q + b, |c| - 1, tag) <==> q[TagLocal(q, 0, |q|, |tag|)..] == tag
  {
    NameEndAfter(c, q, b, 0);
    CutShifts(c, q, b, |tag|);
  }

  function AfterWord(t: Tag): string {
    match t
    case Open(_, _, text) => Inside(t) + ">" + text
    case Lone(_, _, text) => Inside(t) + ">" + text
    case Close(n, text, space) => "/" + QName(n) + space + ">" + text
    case Misc(markup) => markup[NameEnd(markup, 0)..]
  }

  lemma {:induction false} NameEndIsFirst(s: string, i: nat)
    requires i <= |s|
    ensures forall k :: i <= k < NameEnd(s, i) ==> !EndsName(s[k])
    ensures NameEnd(s, i) < |s| ==> EndsName(s[NameEnd(s, i)])
    decreases |s| - i
  {
    if i < |s| && !EndsName(s[i]) {
      NameEndIsFirst(s, i + 1);
    }
  }

  lemma SplitAttrs(q: string, attrs: string, k: nat, end: string, text: string)
    requires k <= |attrs|
    ensures q + attrs + (end + ">") + text == (q + attrs[..k]) + (attrs[k..] + end + ">" + text)
  {
    assert attrs == attrs[..k] + attrs[k..];
  }

  lemma BodySplits(t: Tag)
    ensures Body(t) == Word(t) + AfterWord(t)
  {
    match t
    case Open(n, attrs, text) =>
      SplitAttrs(QName(n), attrs, NameEnd(attrs, 0), "", text);
      assert "" + ">" == ">" && attrs[NameEnd(attrs, 0)..] + "" == attrs[NameEnd(attrs, 0)..];
    case Lone(n, attrs, text) =>
      SplitAttrs(QName(n), attrs, NameEnd(attrs, 0), "/", text);
      assert "/" + ">" == "/>";
    case Close(_, _, _) =>
    case Misc(_) =>
  }

  lemma NameThenAttrs(n: Name, attrs: string)
    requires WellNamed(n)
    ensures var w := QName(n) + attrs[..NameEnd(attrs, 0)];
            forall k :: 0 <= k < |w| ==> !EndsName(w[k])
  {
    QNameHasNoEnd(n);
    NameEndIsFirst(attrs, 0);
  }

  lemma WordHasNoEnd(t: Tag)
    requires Strict(t)
    ensures forall k :: 0 <= k < |Word(t)| ==> !EndsName(Word(t)[k])
  {
    if t.Open? || t.Lone? {
      NameThenAttrs(t.name, t.attrs);
      assert Word(t) == QName(t.name) + t.attrs[..NameEnd(t.attrs, 0)];
    } else if t.Misc? {
      NameEndIsFirst(t.markup, 0);
      assert forall k :: 0 <= k < |Word(t)| ==> Word(t)[k] == t.markup[k];
    }
  }

  lemma EndsAfterWord(t: Tag)
    requires Strict(t)
    ensures AfterWord(t) != "" && EndsName(AfterWord(t)[0])
  {
    match t
    case Open(_, attrs, _) => NameEndIsFirst(attrs, 0);
    case Lone(_, attrs, _) => NameEndIsFirst(attrs, 0);
    case Close(_, _, _) =>
    case Misc(markup) => NameEndIsFirst(markup, 0);
  }

  lemma WordSplits(t: Tag)
    requires Strict(t)
    ensures Body(t) == Word(t) + AfterWord(t)
    ensures AfterWord(t) != "" && EndsName(AfterWord(t)[0])
    ensures forall k :: 0 <= k < |Word(t)| ==> !EndsName(Word(t)[k])
    ensures '<' !in AfterWord(t)
  {
    NoAngleInBody(t);
    BodySplits(t);
    WordHasNoEnd(t);
    EndsAfterWord(t);
  }

  /** A word that is no name is taken for the tag exactly when it ends in ':' and the tag. */
  lemma OtherWord(w: string, tag: string, k: nat)
    requires IsName(tag)
    requires w == "" || !NameStart(w[0]) || (k < |w| && !NameChar(w[k]))
    ensures w[TagLocal(w, 0, |w|, |tag|)..] == tag <==> EndsInName(w, tag)
  {
    assert w[0..] == w;
  }

  /** The code's cut finds the tag exactly in what `NameHit` says. */
  lemma WordIsName(t: Tag, tag: string)
    requires Strict(t) && IsName(tag)
    ensures Word(t)[TagLocal(Word(t), 0, |Word(t)|, |tag|)..] == tag <==> NameHit(t, tag)
  {
    if t.Close? {
      assert tag != "";
    } else if t.Misc? {
      OtherWord(Word(t), tag, 0);
    } else if RunsOn(t) {
      RunOnWord(t);
      OtherWord(Word(t), tag, |QName(t.name)|);
    } else {
      PlainWord(t);
      CutsAtPrefix(t.name, tag);
    }
  }

  lemma RunOnWord(t: Tag)
    requires Strict(t) && RunsOn(t)
    ensures |QName(t.name)| < |Word(t)| && !NameChar(Word(t)[|QName(t.name)|])
  {
  }

  lemma PlainWord(t: Tag)
    requires (t.Open? || t.Lone?) && !RunsOn(t)
    ensures Word(t) == QName(t.name)
  {
  }

  // ----- offsets move with what comes before -----

  lemma {:induction false} NameEndShifts(a: string, s: string, i: nat)
    requires i <= |s|
    ensures NameEnd(a + s, |a| + i) == |a| + NameEnd(s, i)
    decreases |s| - i
  {
    if i < |s| && !EndsName(s[i]) {
      NameEndShifts(a, s, i + 1);
    }
  }

  lemma NamedShifts(a: string, s: string, p: nat, tag: string)
    requires p < |s|
    ensures Named(a + s, |a| + p, tag) == Named(s, p, tag)
  {
    NameEndShifts(a, s, p + 1);
    var end := NameEnd(s, p + 1);
    var local := TagLocal(s, p + 1, end, |tag|);
    if end - (p + 1) > |tag| + 1 {
      assert (a + s)[|a| + end - |tag| - 1] == s[end - |tag| - 1];
    }
    SliceShifts(a, s, local, end);
  }

  lemma MarkShifts(a: string, s: string, p: nat)
    requires p < |s|
    ensures FindFrom(a + s, NameEnd(a + s, |a| + p + 1), '>') == |a| + FindFrom(s, NameEnd(s, p + 1), '>')
  {
    NameEndShifts(a, s, p + 1);
    FindShifts(a, s, NameEnd(s, p + 1), '>');
  }

  lemma TextAtShifts(a: string, s: string, p: nat)
    requires p < |s|
    ensures TextAt(a + s, |a| + p) == TextAt(s, p)
  {
    MarkShifts(a, s, p);
    var gt := FindFrom(s, NameEnd(s, p + 1), '>');
    if gt < |s| {
      FindShifts(a, s, gt + 1, '<');
      SliceShifts(a, s, gt + 1, FindFrom(s, gt + 1, '<'));
    }
  }

  lemma NextShifts(a: string, s: string, p: nat)
    requires p < |s|
    ensures NextAfter(a + s, |a| + p) == |a| + NextAfter(s, p)
  {
    NameEndShifts(a, s, p + 1);
    FindShifts(a, s, NameEnd(s, p + 1), '<');
  }

  /** What the walk does at the '<' at `p`: the tag's own text, or the next place to look at. */
  function Look(s: string, p: nat, tag: string): (bool, Option<string>, nat)
    requires p < |s|
  {
    (Named(s, p, tag), TextAt(s, p), NextAfter(s, p))
  }

  lemma LookShifts(a: string, s: string, p: nat, tag: string)
    requires p < |s|
    ensures Look(a + s, |a| + p, tag) == (Look(s, p, tag).0, Look(s, p, tag).1, |a| + Look(s, p, tag).2)
  {
    NextShifts(a, s, p);
    NamedShifts(a, s, p, tag);
    TextAtShifts(a, s, p);
  }

  lemma ElementLooks(s: string, p: nat, tag: string)
    requires p < |s|
    ensures Look(s, p, tag).2 <= |s|
    ensures ElementFrom(s, p, tag) ==
            var (hit, text, next) := Look(s, p, tag);
            if hit then text else ElementFrom(s, next, tag)
  {
  }

  type Looked = (bool, Option<string>, nat)

  /** The walk, up to `end`, for whatever `look` sees. */
  function Walk(end: nat, p: nat, look: nat -> Looked): Option<string>
    decreases if p < end then end - p else 0
  {
    if p >= end then None
    else
      var (hit, text, next) := look(p);
      if hit then text else if next <= p then None else Walk(end, next, look)
  }

  function Ahead(k: nat, look: Looked): Looked {
    (look.0, look.1, k + look.2)
  }

  /** `moved` sees `k` characters ahead what `look` sees. */
  ghost predicate Moved(end: nat, k: nat, look: nat -> Looked, moved: nat -> Looked) {
    forall q: nat :: q < end ==> moved(k + q) == Ahead(k, look(q))
  }

  lemma {:induction false} WalkShifts(end: nat, k: nat, p: nat, look: nat -> Looked, moved: nat -> Looked)
    requires Moved(end, k, look, moved)
    ensures Walk(k + end, k + p, moved) == Walk(end, p, look)
    decreases if p < end then end - p else 0
  {
    if p < end {
      var (hit, _, next) := look(p);
      if !hit && next > p {
        WalkShifts(end, k, next, look, moved);
      }
    }
  }

  function LooksAt(s: string, tag: string): nat -> Looked {
    (p: nat) => if p < |s| then Look(s, p, tag) else (false, None, p)
  }

  lemma {:induction false} ElementIsWalk(s: string, p: nat, tag: string)
    requires p <= |s|
    ensures ElementFrom(s, p, tag) == Walk(|s|, p, LooksAt(s, tag))
    decreases |s| - p
  {
    if p < |s| {
      ElementLooks(s, p, tag);
      ElementIsWalk(s, Look(s, p, tag).2, tag);
    }
  }

  lemma LooksShift(a: string, s: string, q: nat, tag: string)
    requires q < |s|
    ensures LooksAt(a + s, tag)(|a| + q) == Ahead(|a|, LooksAt(s, tag)(q))
  {
    LookShifts(a, s, q, tag);
  }

  /** `look` walks the string `s` as the code does. */
  ghost predicate WalksAs(s: string, tag: string, look: nat -> Looked) {
    forall p: nat :: p <= |s| ==> ElementFrom(s, p, tag) == Walk(|s|, p, look)
  }

  lemma WalksAsLooks(s: string, tag: string)
    ensures WalksAs(s, tag, LooksAt(s, tag))
  {
    forall p: nat | p <= |s|
      ensures ElementFrom(s, p, tag) == Walk(|s|, p, LooksAt(s, tag))
    {
      ElementIsWalk(s, p, tag);
    }
  }

  lemma WalkBoth(a: string, s: string, tag: string) returns (look: nat -> Looked, moved: nat -> Looked)
    ensures WalksAs(s, tag, look) && WalksAs(a + s, tag, moved) && Moved(|s|, |a|, look, moved)
  {
    look, moved := LooksAt(s, tag), LooksAt(a + s, tag);
    WalksAsLooks(s, tag);
    WalksAsLooks(a + s, tag);
    LooksMove(a, s, tag);
  }

  lemma ElementShifts(a: string, s: string, p: nat, tag: string)
    requires p <= |s|
    ensures ElementFrom(a + s, |a| + p, tag) == ElementFrom(s, p, tag)
  {
    var look, moved := WalkBoth(a, s, tag);
    SameWalk(s, a + s, |a|, p, tag, look, moved);
  }

  lemma SameWalk(s: string, t: string, k: nat, p: nat, tag: string, look: nat -> Looked, moved: nat -> Looked)
    requires p <= |s| && |t| == k + |s|
    requires WalksAs(s, tag, look) && WalksAs(t, tag, moved) && Moved(|s|, k, look, moved)
    ensures ElementFrom(t, k + p, tag) == ElementFrom(s, p, tag)
  {
    WalkShifts(|s|, k, p, look, moved);
  }

  lemma LooksMove(a: string, s: string, tag: string)
    ensures Moved(|s|, |a|, LooksAt(s, tag), LooksAt(a + s, tag))
  {
    forall q: nat | q < |s|
      ensures LooksAt(a + s, tag)(|a| + q) == Ahead(|a|, LooksAt(s, tag)(q))
    {
      LooksShift(a, s, q, tag);
    }
  }

  // ----- one tag and what follows it -----

  lemma TagIsNamed(t: Tag, rest: string, tag: string)
    requires Strict(t) && IsName(tag)
    ensures var s := "<" + Body(t) + rest;
            NameEnd(s, 1) == 1 + |Word(t)| && (Named(s, 0, tag) <==> NameHit(t, tag))
  {
    var w, more := Word(t), AfterWord(t);
    WordSplits(t);
    Associate("<", w, more);
    Associate("<" + w, more, rest);
    NamedByWord("<", w, more + rest, tag);
    WordIsName(t, tag);
  }

  /** The next tag after one that is not the element. */
  lemma NextTag(t: Tag, rest: string)
    requires Strict(t) && (rest == "" || rest[0] == '<')
    ensures FindFrom("<" + Body(t) + rest, 1 + |Word(t)|, '<') == 1 + |Body(t)|
  {
    WordSplits(t);
    Associate("<", Word(t), AfterWord(t));
    FindPast("<" + Word(t), AfterWord(t), rest, 0, '<');
  }

  /** What stands before the '>' of a tag is a '/' exactly in an empty one. */
  lemma LastBeforeEnd(t: Tag)
    requires Strict(t) && !t.Close?
    ensures var b := "<" + Word(t);
            (if Inside(t) != "" then Inside(t)[|Inside(t)| - 1] else b[|b| - 1]) == '/' <==> IsEmptyTag(t)
  {
    WordHasNoEnd(t);
    var b := "<" + Word(t);
    assert b[|b| - 1] == if Word(t) != "" then Word(t)[|Word(t)| - 1] else '<';
  }

  /** In a tag that ends in '>' there is no other '>' after the name, and no '<' behind it. */
  lemma InsideHasNoMark(t: Tag)
    requires Strict(t) && !t.Close?
    ensures '>' !in Inside(t) && '<' !in Behind(t)
  {
    match t
    case Open(_, attrs, _) => assert forall c :: c in attrs[NameEnd(attrs, 0)..] ==> c in attrs;
    case Lone(_, attrs, _) => assert forall c :: c in attrs[NameEnd(attrs, 0)..] ==> c in attrs;
    case Misc(markup) => NothingBeforeFound(markup, NameEnd(markup, 0), '>');
  }

  /** A hit has a first word, and its '>' splits the rest of it. */
  lemma HitSplits(t: Tag, tag: string)
    requires StrictFor(t, tag) && NameHit(t, tag)
    ensures AfterWord(t) == Inside(t) + ">" + Behind(t)
  {
    match t
    case Open(_, _, _) =>
    case Lone(_, _, _) =>
    case Misc(markup) =>
      var e, k := NameEnd(markup, 0), Mark(t);
      MarkIsThere(markup, e);
      assert markup[e..] == markup[e..k] + [markup[k]] + markup[k + 1..];
  }

  lemma MarkIsThere(s: string, i: nat)
    requires i <= |s|
    ensures '>' in s[i..] ==> FindFrom(s, i, '>') < |s|
  {
    NothingBeforeFound(s, i, '>');
    assert s[i..|s|] == s[i..];
  }

  lemma RegroupText(b: string, inside: string, text: string, rest: string)
    ensures b + (inside + ">" + text) + rest == b + inside + (">" + (text + rest))
    ensures b + (inside + ">" + text) + rest == (b + inside + ">") + text + rest
  {
  }

  lemma LastBeforeMark(b: string, inside: string, more: string)
    requires b != ""
    ensures (b + inside + more)[|b| + |inside| - 1] == if inside != "" then inside[|inside| - 1] else b[|b| - 1]
  {
  }

  /** The '>' that ends a tag, after its name `b` and what stands `inside`. */
  lemma MarkOfTag(s: string, b: string, inside: string, more: string)
    requires b != "" && '>' !in inside && s == b + inside + (">" + more)
    ensures FindFrom(s, |b|, '>') == |b| + |inside|
    ensures s[|b| + |inside| - 1] == if inside != "" then inside[|inside| - 1] else b[|b| - 1]
  {
    FindPast(b, inside, ">" + more, 0, '>');
    LastBeforeMark(b, inside, ">" + more);
  }

  /** The text after a tag, up to the next '<'. */
  lemma TextOfTag(s: string, c: string, text: string, rest: string)
    requires '<' !in text && (rest == "" || rest[0] == '<') && s == c + text + rest
    ensures FindFrom(s, |c|, '<') == |c| + |text| && s[|c|..|c| + |text|] == text
  {
    FindPast(c, text, rest, 0, '<');
  }

  lemma TextAtMarks(s: string, p: nat, e: nat, gt: nat, lt: nat)
    requires p < |s| && e == NameEnd(s, p + 1) && gt == FindFrom(s, e, '>') && gt < |s|
    requires lt == FindFrom(s, gt + 1, '<')
    ensures TextAt(s, p) == if s[gt - 1] == '/' || lt == |s| then None else Some(s[gt + 1..lt])
  {
  }

  lemma SplitHere(t: Tag, rest: string, tag: string)
    requires StrictFor(t, tag) && NameHit(t, tag)
    ensures var s, b := "<" + Body(t) + rest, "<" + Word(t);
            s == b + Inside(t) + (">" + (Behind(t) + rest)) && s == (b + Inside(t) + ">") + Behind(t) + rest
  {
    WordSplits(t);
    HitSplits(t, tag);
    Associate("<", Word(t), AfterWord(t));
    RegroupText("<" + Word(t), Inside(t), Behind(t), rest);
  }

  /** The text at a tag whose marks are known. */
  lemma TextAtTag(s: string, b: string, inside: string, text: string, rest: string)
    requires b != "" && '>' !in inside && '<' !in text && (rest == "" || rest[0] == '<')
    requires s == b + inside + (">" + (text + rest)) && s == (b + inside + ">") + text + rest
    requires NameEnd(s, 1) == |b|
    ensures TextAt(s, 0) ==
            if (if inside != "" then inside[|inside| - 1] else b[|b| - 1]) == '/' || rest == "" then None
            else Some(text)
  {
    MarkOfTag(s, b, inside, text + rest);
    TextOfTag(s, b + inside + ">", text, rest);
    TextAtMarks(s, 0, |b|, |b| + |inside|, |b| + |inside| + 1 + |text|);
  }

  lemma TextOfHit(t: Tag, rest: string, tag: string)
    requires StrictFor(t, tag) && NameHit(t, tag) && (rest == "" || rest[0] == '<')
    requires NameEnd("<" + Body(t) + rest, 1) == 1 + |Word(t)|
    ensures TextAt("<" + Body(t) + rest, 0) == if !IsEmptyTag(t) && rest != "" then Some(Behind(t)) else None
  {
    var b, inside := HitParts(t, rest, tag);
    TextFromParts("<" + Body(t) + rest, b, inside, Behind(t), rest, IsEmptyTag(t));
  }

  /** A hit up to the end of its first word, and from there to its '>'. */
  lemma HitParts(t: Tag, rest: string, tag: string) returns (b: string, inside: string)
    requires StrictFor(t, tag) && NameHit(t, tag)
    ensures var s := "<" + Body(t) + rest;
            s == b + inside + (">" + (Behind(t) + rest)) && s == (b + inside + ">") + Behind(t) + rest
    ensures b != "" && |b| == 1 + |Word(t)| && '>' !in inside && '<' !in Behind(t)
    ensures (if inside != "" then inside[|inside| - 1] else b[|b| - 1]) == '/' <==> IsEmptyTag(t)
  {
    b, inside := "<" + Word(t), Inside(t);
    SplitHere(t, rest, tag);
    LastBeforeEnd(t);
    InsideHasNoMark(t);
  }

  lemma TextFromParts(s: string, b: string, inside: string, text: string, rest: string, empty: bool)
    requires b != "" && '>' !in inside && '<' !in text && (rest == "" || rest[0] == '<')
    requires s == b + inside + (">" + (text + rest)) && s == (b + inside + ">") + text + rest
    requires NameEnd(s, 1) == |b|
    requires (if inside != "" then inside[|inside| - 1] else b[|b| - 1]) == '/' <==> empty
    ensures TextAt(s, 0) == if !empty && rest != "" then Some(text) else None
  {
    TextAtTag(s, b, inside, text, rest);
  }

  lemma ElementStep(t: Tag, rest: string, tag: string)
    requires StrictFor(t, tag) && IsName(tag) && (rest == "" || rest[0] == '<')
    ensures ElementFrom("<" + Body(t) + rest, 0, tag) ==
            if NameHit(t, tag) then (if !IsEmptyTag(t) && rest != "" then Some(Behind(t)) else None)
            else ElementFrom(rest, 0, tag)
  {
    TagIsNamed(t, rest, tag);
    if NameHit(t, tag) {
      TextOfHit(t, rest, tag);
    } else {
      NextTag(t, rest);
      PassesOver("<" + Body(t), rest, tag);
    }
  }

  lemma PassesOver(m: string, rest: string, tag: string)
    requires m != "" && !Named(m + rest, 0, tag) && NextAfter(m + rest, 0) == |m|
    ensures ElementFrom(m + rest, 0, tag) == ElementFrom(rest, 0, tag)
  {
    ElementShifts(m, rest, 0, tag);
  }

  lemma {:induction false} ElementInTags(tags: seq<Tag>, tag: string)
    requires AllStrict(tags, tag) && IsName(tag)
    ensures ElementFrom(Render(tags), 0, tag) == FieldOf(tags, tag)
  {
    if tags != [] {
      RenderStep(tags);
      ElementStep(tags[0], Render(tags[1..]), tag);
      ElementInTags(tags[1..], tag);
    }
  }

  /** `element_text` on a document: the text behind the first tag it takes for the element, whatever its
      prefix and attributes, cut to the buffer. */
  lemma FieldOfTags(lead: string, tags: seq<Tag>, tag: string, n: nat)
    requires '<' !in lead && AllStrict(tags, tag) && IsName(tag) && n > 0
    ensures Field(lead + Render(tags), tag, n) == FieldIn(tags, tag, n)
  {
    SkipsLead(lead, Render(tags), tag);
    ElementInTags(tags, tag);
  }

  lemma SkipsLead(lead: string, rest: string, tag: string)
    requires '<' !in lead && (rest == "" || rest[0] == '<')
    ensures ElementText(lead + rest, tag) == ElementFrom(rest, 0, tag)
  {
    FindPast("", lead, rest, 0, '<');
    assert "" + lead + rest == lead + rest;
    ElementShifts(lead, rest, 0, tag);
  }

  // ----- the first element -----

  /** The first position whose tag satisfies `test`, or the length. */
  function First(tags: seq<Tag>, test: Tag -> bool): (k: nat)
    ensures k <= |tags| && (k < |tags| ==> test(tags[k]))
    ensures forall i :: 0 <= i < k ==> !test(tags[i])
  {
    if tags == [] || test(tags[0]) then 0
    else
      assert forall i :: 1 <= i < |tags| ==> tags[i] == tags[1..][i - 1];
      1 + First(tags[1..], test)
  }

  /** Where the first element of the name stands. */
  function FirstAt(tags: seq<Tag>, tag: string): nat {
    First(tags, (t: Tag) => IsElement(t, tag))
  }

  /** Where the code stops. */
  function SeenAt(tags: seq<Tag>, tag: string): nat {
    First(tags, (t: Tag) => NameHit(t, tag))
  }

  /** The text behind the tag at `k`. */
  function TextBehind(tags: seq<Tag>, k: nat): Option<string>
    requires k < |tags| ==> !tags[k].Close?
  {
    if k + 1 < |tags| && !IsEmptyTag(tags[k]) then Some(Behind(tags[k])) else None
  }

  lemma {:induction false} FieldAtHit(tags: seq<Tag>, tag: string, k: nat)
    requires k <= |tags| && (k < |tags| ==> NameHit(tags[k], tag))
    requires forall i :: 0 <= i < k ==> !NameHit(tags[i], tag)
    ensures FieldOf(tags, tag) == TextBehind(tags, k)
  {
    if k > 0 {
      var rest := tags[1..];
      MissesInRest(tags, tag, k);
      FieldAtHit(rest, tag, k - 1);
      BehindInRest(tags, k);
    }
  }

  lemma MissesInRest(tags: seq<Tag>, tag: string, k: nat)
    requires 0 < k <= |tags| && forall i :: 0 <= i < k ==> !NameHit(tags[i], tag)
    ensures forall i :: 0 <= i < k - 1 ==> !NameHit(tags[1..][i], tag)
    ensures FieldOf(tags, tag) == FieldOf(tags[1..], tag)
    ensures k < |tags| ==> tags[1..][k - 1] == tags[k]
  {
    forall i | 0 <= i < k - 1
      ensures !NameHit(tags[1..][i], tag)
    {
      assert tags[1..][i] == tags[i + 1];
    }
  }

  lemma BehindInRest(tags: seq<Tag>, k: nat)
    requires 0 < k <= |tags| && (k < |tags| ==> !tags[k].Close?)
    ensures TextBehind(tags, k) == TextBehind(tags[1..], k - 1)
  {
  }

  /** The field is the text behind the tag the code stops at. */
  lemma FieldIsAtSeen(tags: seq<Tag>, tag: string)
    ensures FieldOf(tags, tag) == TextBehind(tags, SeenAt(tags, tag))
  {
    FieldAtHit(tags, tag, SeenAt(tags, tag));
  }

  /** The code stops at the first element of the name if and only if nothing before it deceives and the
      name of that element itself does not run on (or deceives all the same). */
  lemma SeesTheFirst(tags: seq<Tag>, tag: string)
    ensures var k := FirstAt(tags, tag);
            SeenAt(tags, tag) == k <==>
              && (forall i :: 0 <= i < k ==> !Deceives(tags[i], tag))
              && (k == |tags| || !RunsOn(tags[k]) || Deceives(tags[k], tag))
  {
  }

  /** For documents in which nothing deceives: if and only if that element does not run on. */
  lemma SeesTheFirstPlainly(tags: seq<Tag>, tag: string)
    requires forall i :: 0 <= i < |tags| ==> !Deceives(tags[i], tag)
    ensures var k := FirstAt(tags, tag);
            SeenAt(tags, tag) == k <==> k == |tags| || !RunsOn(tags[k])
  {
    SeesTheFirst(tags, tag);
  }

  /** <Nonce, a line break, a:b="c">x</Nonce> */
  function BrokenLine(): seq<Tag> {
    var n := Name("", "Nonce");
    [Open(n, "\na:b=\"c\"", "x"), Close(n, "")]
  }

  /** Such an element, which any XML parser reads, is missed by the code. */
  lemma BrokenLineIsMissed()
    ensures FirstAt(BrokenLine(), "Nonce") == 0 && TextBehind(BrokenLine(), 0) == Some("x")
    ensures Field(Render(BrokenLine()), "Nonce", 256) == None
  {
    var tags := BrokenLine();
    BrokenLineIsStrict();
    assert IsElement(tags[0], "Nonce");
    assert SeenAt(tags, "Nonce") == 2;
    FieldIsAtSeen(tags, "Nonce");
    FieldOfTags("", tags, "Nonce", 256);
    assert "" + Render(tags) == Render(tags);
  }

  lemma BrokenLineIsStrict()
    ensures AllStrict(BrokenLine(), "Nonce") && IsName("Nonce")
    ensures !NameHit(BrokenLine()[0], "Nonce") && !NameHit(BrokenLine()[1], "Nonce")
    ensures !IsEmptyTag(BrokenLine()[0])
  {
    var attrs := "\na:b=\"c\"";
    assert NameEnd(attrs, 0) == |attrs| by {
      NameEndAfter("", attrs, "/", 0);
      NameEndIsFirst(attrs, 0);
    }
    var w := Word(BrokenLine()[0]);
    assert w[|w| - 1] == '"';
  }

  // ----- comparing clipped texts -----

  /** Comparing a clipped text with what is expected is comparing the texts if and only if the text fits
      its buffer, or the expected one is neither the text nor its beginning that fits. */
  lemma ClippedTestIsEquality(text: string, expected: string, n: nat)
    requires n > 0
    ensures (Clipped(text, n) == expected <==> text == expected) <==>
              !(|text| >= n && (expected == text || expected == text[..n - 1]))
  {
  }
}
