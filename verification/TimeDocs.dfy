/** What the element finder of core/onvif_time.c finds in a document.

First for any sequence of tags, balanced or not; then for trees, where the element found is the
first one in document order and the scope is exactly its content as long as no element nests inside
one of the same local name. */
module TimeDocs {
  import opened CText
  import opened Markup
  import opened TimeScan

  /** Some text and the tags that follow it: a document, or the content of an element. */
  datatype Section = Section(text: string, tags: seq<Tag>)

  function TextOf(doc: Section): string {
    doc.text + Render(doc.tags)
  }

  predicate IsSection(doc: Section) {
    '<' !in doc.text && AllWellFormed(doc.tags)
  }

  predicate OpenHit(t: Tag, local: string) {
    t.Open? && t.attrs == "" && t.name.local == local
  }

  predicate CloseHit(t: Tag, local: string) {
    t.Close? && t.name.local == local && t.space == ""
  }

  /** What follows the first opening tag named `local` that has no attributes. */
  function AfterOpen(tags: seq<Tag>, local: string): Option<Section> {
    if tags == [] then None
    else if OpenHit(tags[0], local) then Some(Section(tags[0].text, tags[1..]))
    else AfterOpen(tags[1..], local)
  }

  /** The tags before the first closing tag named `local`. */
  function BeforeClose(tags: seq<Tag>, local: string): (r: seq<Tag>)
    ensures r <= tags
  {
    if tags == [] || CloseHit(tags[0], local) then []
    else [tags[0]] + BeforeClose(tags[1..], local)
  }

  function ScopeOf(doc: Section, local: string): Option<Section> {
    match AfterOpen(doc.tags, local)
    case None => None
    case Some(r) => Some(Section(r.text, BeforeClose(r.tags, local)))
  }

  function LeafOf(doc: Section, local: string): Option<string> {
    match AfterOpen(doc.tags, local)
    case None => None
    case Some(r) => Some(r.text)
  }

  // ----- one tag -----

  lemma {:induction false} IdentOfName(a: string, name: string, b: string, i: nat)
    requires i <= |name| && (forall k :: 0 <= k < |name| ==> NameChar(name[k]))
    requires b == "" || !NameChar(b[0])
    ensures IdentEnd(a + name + b, |a| + i) == |a| + |name|
    decreases |name| - i
  {
    if i < |name| {
      IdentOfName(a, name, b, i + 1);
    }
  }

  /** Reading a qualified name that is followed by something else than a name character or ':'. */
  lemma ReadQName(a: string, n: Name, b: string)
    requires WellNamed(n) && b != "" && !NameChar(b[0]) && b[0] != ':'
    ensures var s := a + QName(n) + b;
            var name := LocalStart(s, |a|);
            IdentEnd(s, name) == |a| + |QName(n)| && s[name..|a| + |QName(n)|] == n.local
  {
    var s := a + QName(n) + b;
    if n.prefix == "" {
      IdentOfName(a, n.local, b, 0);
    } else {
      var c := a + n.prefix + ":";
      IdentOfName(a, n.prefix, ":" + n.local + b, 0);
      assert s == a + n.prefix + (":" + n.local + b);
      IdentOfName(c, n.local, b, 0);
      assert s == c + n.local + b;
    }
  }

  /** What a tag whose name is `n` is recognised as. */
  lemma ReadTag(a: string, n: Name, b: string, local: string)
    requires WellNamed(n) && b != "" && !NameChar(b[0]) && b[0] != ':'
    ensures TagEnd(a + QName(n) + b, |a|, local) ==
            if b[0] == '>' && n.local == local then Some(|a| + |QName(n)| + 1) else None
  {
    ReadQName(a, n, b);
  }

  /** The part of a tag after its name. */
  function Rest(t: Tag): string
    requires !t.Misc?
  {
    match t
    case Open(_, attrs, text) => attrs + ">" + text
    case Close(_, text, space) => space + ">" + text
    case Lone(_, attrs, text) => attrs + "/>" + text
  }

  lemma NameOpens(n: Name, b: string, local: string)
    requires WellNamed(n) && b != "" && !NameChar(b[0]) && b[0] != ':'
    ensures Opens("<" + QName(n) + b, 0, local) ==
            if b[0] == '>' && n.local == local then Some(|QName(n)| + 2) else None
  {
    ReadTag("<", n, b, local);
    assert At("<" + QName(n) + b, 1) == QName(n)[0];
  }

  lemma NamedTagOpens(t: Tag, rest: string, local: string)
    requires WellFormed(t) && (t.Open? || t.Lone?)
    ensures Opens("<" + Body(t) + rest, 0, local) ==
            if OpenHit(t, local) then Some(|QName(t.name)| + 2) else None
  {
    NameOpens(t.name, Rest(t) + rest, local);
    SplitBody(t, rest);
  }

  lemma SplitBody(t: Tag, rest: string)
    requires WellFormed(t) && (t.Open? || t.Lone?)
    ensures "<" + Body(t) + rest == "<" + QName(t.name) + (Rest(t) + rest)
  {
    NameThenRest(t);
    Associate("<", QName(t.name), Rest(t));
    Associate("<" + QName(t.name), Rest(t), rest);
  }

  lemma NameThenRest(t: Tag)
    requires t.Open? || t.Lone?
    ensures Body(t) == QName(t.name) + Rest(t)
  {
  }

  lemma SecondChar(t: Tag, rest: string)
    requires WellFormed(t)
    ensures At("<" + Body(t) + rest, 1) ==
            match t
            case Open(n, _, _) => QName(n)[0]
            case Lone(n, _, _) => QName(n)[0]
            case Close(_, _, _) => '/'
            case Misc(markup) => if markup != "" then markup[0] else At(rest, 0)
    ensures !t.Misc? ==> NameStart(QName(t.name)[0])
  {
  }

  /** The scanner takes a tag for an opening tag exactly when it is one, without attributes. */
  lemma TagOpens(t: Tag, rest: string, local: string)
    requires WellFormed(t) && (rest == "" || rest[0] == '<')
    ensures Opens("<" + Body(t) + rest, 0, local) ==
            if OpenHit(t, local) then Some(|QName(t.name)| + 2) else None
  {
    SecondChar(t, rest);
    if t.Open? || t.Lone? {
      NamedTagOpens(t, rest, local);
    }
  }

  lemma CloseTagCloses(n: Name, space: string, text: string, rest: string, local: string)
    requires WellNamed(n) && forall c :: c in space ==> IsBlank(c)
    ensures Closes("<" + Body(Close(n, text, space)) + rest, 0, local) == (n.local == local && space == "")
  {
    var b := space + ">" + text + rest;
    RegroupClose(QName(n), space, text, rest);
    assert b[0] == if space == "" then '>' else space[0];
    assert space != "" ==> space[0] in space;
    ReadTag("</", n, b, local);
    assert At("</" + QName(n) + b, 1) == '/';
  }

  lemma RegroupClose(q: string, space: string, text: string, rest: string)
    ensures "<" + ("/" + q + space + ">" + text) + rest == "</" + q + (space + ">" + text + rest)
  {
  }

  /** The scanner takes a tag for a closing tag exactly when it is one. */
  lemma TagCloses(t: Tag, rest: string, local: string)
    requires WellFormed(t) && (rest == "" || rest[0] == '<')
    ensures Closes("<" + Body(t) + rest, 0, local) == CloseHit(t, local)
  {
    SecondChar(t, rest);
    if t.Close? {
      CloseTagCloses(t.name, t.space, t.text, rest, local);
    }
  }

  // ----- a sequence of tags -----

  lemma {:induction false} SkipText(a: string, rest: string, i: nat)
    requires i <= |a| && '<' !in a[i..]
    ensures FindFrom(a + rest, i, '<') == FindFrom(a + rest, |a|, '<')
    decreases |a| - i
  {
    if i < |a| {
      assert a[i] == a[i..][0] && a[i + 1..] == a[i..][1..];
      SkipText(a, rest, i + 1);
    }
  }

  /** The searches pass over text without '<'. */
  lemma OpenAfterText(a: string, rest: string, i: nat, local: string)
    requires i <= |a| && '<' !in a[i..]
    ensures OpenFrom(a + rest, i, local) == Shifted(|a|, OpenFrom(rest, 0, local))
  {
    var p := FindFrom(a + rest, |a|, '<');
    SkipText(a, rest, i);
    OpenFromShifts(a, rest, 0, local);
    OpenUnroll(a + rest, i, p, local);
    OpenUnroll(a + rest, |a|, p, local);
  }

  lemma CloseAfterText(a: string, rest: string, i: nat, local: string)
    requires i <= |a| && '<' !in a[i..]
    ensures CloseFrom(a + rest, i, local) == |a| + CloseFrom(rest, 0, local)
  {
    var p := FindFrom(a + rest, |a|, '<');
    SkipText(a, rest, i);
    CloseFromShifts(a, rest, 0, local);
    CloseUnroll(a + rest, i, p, local);
    CloseUnroll(a + rest, |a|, p, local);
  }

  lemma RenderStarts(tags: seq<Tag>)
    ensures Render(tags) == "" || Render(tags)[0] == '<'
  {
  }

  lemma {:induction false} OpenInTags(tags: seq<Tag>, local: string)
    requires AllWellFormed(tags)
    ensures var s := Render(tags);
            var r := AfterOpen(tags, local);
            var p := OpenFrom(s, 0, local);
            if r.Some? then p.Some? && s[p.value..] == TextOf(r.value) else p == None
  {
    if tags != [] {
      var t, rest := tags[0], Render(tags[1..]);
      RenderStarts(tags[1..]);
      if OpenHit(t, local) {
        OpensHere(t, rest, local);
      } else {
        OpenInTags(tags[1..], local);
        OpensLater(t, rest, local);
      }
    }
  }

  lemma OpensHere(t: Tag, rest: string, local: string)
    requires WellFormed(t) && (rest == "" || rest[0] == '<') && OpenHit(t, local)
    ensures var s := "<" + Body(t) + rest;
            var p := OpenFrom(s, 0, local);
            p.Some? && s[p.value..] == t.text + rest
  {
    TagOpens(t, rest, local);
    assert "<" + Body(t) + rest == "<" + QName(t.name) + ">" + (t.text + rest);
  }

  lemma OpensLater(t: Tag, rest: string, local: string)
    requires WellFormed(t) && (rest == "" || rest[0] == '<') && !OpenHit(t, local)
    ensures var s := "<" + Body(t) + rest;
            var p, q := OpenFrom(s, 0, local), OpenFrom(rest, 0, local);
            p.Some? == q.Some? && (p.Some? ==> s[p.value..] == rest[q.value..])
  {
    var m := "<" + Body(t);
    TagOpens(t, rest, local);
    NoAngleInBody(t);
    OpenAfterText(m, rest, 1, local);
    OpenUnroll(m + rest, 0, 0, local);
    ShowsTheSame(m, rest, OpenFrom(m + rest, 0, local), OpenFrom(rest, 0, local));
  }

  lemma ShowsTheSame(m: string, rest: string, p: Option<nat>, q: Option<nat>)
    requires p == Shifted(|m|, q) && (q.Some? ==> q.value <= |rest|)
    ensures p.Some? == q.Some? && (p.Some? ==> p.value <= |m + rest| && (m + rest)[p.value..] == rest[q.value..])
  {
  }

  lemma {:induction false} CloseInTags(tags: seq<Tag>, local: string)
    requires AllWellFormed(tags)
    ensures CloseFrom(Render(tags), 0, local) == |Render(BeforeClose(tags, local))|
    ensures Render(tags)[..CloseFrom(Render(tags), 0, local)] == Render(BeforeClose(tags, local))
  {
    if tags != [] {
      var t, rest := tags[0], Render(tags[1..]);
      RenderStarts(tags[1..]);
      TagCloses(t, rest, local);
      if !CloseHit(t, local) {
        CloseInTags(tags[1..], local);
        NoAngleInBody(t);
        CloseAfterText("<" + Body(t), rest, 1, local);
      }
    }
  }

  lemma {:induction false} AfterOpenIsSection(tags: seq<Tag>, local: string)
    requires AllWellFormed(tags)
    ensures AfterOpen(tags, local).Some? ==> IsSection(AfterOpen(tags, local).value)
  {
    if tags != [] && !OpenHit(tags[0], local) {
      AfterOpenIsSection(tags[1..], local);
    }
  }

  /** The opening tag found in a document, and what follows it. */
  lemma OpenInDoc(doc: Section, local: string)
    requires IsSection(doc)
    ensures var p := OpenFrom(TextOf(doc), 0, local);
            var r := AfterOpen(doc.tags, local);
            if r.Some? then p.Some? && TextOf(doc)[p.value..] == TextOf(r.value) else p == None
  {
    OpenAfterText(doc.text, Render(doc.tags), 0, local);
    OpenInTags(doc.tags, local);
  }

  /** The content of a section up to a closing tag. */
  lemma CloseInDoc(doc: Section, local: string)
    requires IsSection(doc)
    ensures TextOf(doc)[..CloseFrom(TextOf(doc), 0, local)] ==
            TextOf(Section(doc.text, BeforeClose(doc.tags, local)))
  {
    CloseAfterText(doc.text, Render(doc.tags), 0, local);
    CloseInTags(doc.tags, local);
  }

  /** `elem_scope` on any sequence of tags: the text and tags between the first opening tag of the
      name (without attributes) and the first closing tag of the name after it. */
  lemma ScopeOfTags(doc: Section, local: string)
    requires IsSection(doc)
    ensures Scope(TextOf(doc), local) ==
            match ScopeOf(doc, local) case None => None case Some(r) => Some(TextOf(r))
    ensures ScopeOf(doc, local).Some? ==> IsSection(ScopeOf(doc, local).value)
  {
    var s, r := TextOf(doc), AfterOpen(doc.tags, local);
    OpenInDoc(doc, local);
    AfterOpenIsSection(doc.tags, local);
    if r.Some? {
      var t := OpenFrom(s, 0, local).value;
      CloseInDoc(r.value, local);
      ScopeSplit(s, t, TextOf(r.value), local);
    }
  }

  lemma ScopeSplit(s: string, t: nat, w: string, local: string)
    requires t <= |s| && s[t..] == w
    ensures s[t..CloseFrom(s, t, local)] == w[..CloseFrom(w, 0, local)]
  {
    assert s == s[..t] + w;
    CloseFromShifts(s[..t], w, 0, local);
  }

  lemma FindAfterText(a: string, rest: string)
    requires '<' !in a && (rest == "" || rest[0] == '<')
    ensures FindFrom(a + rest, 0, '<') == |a|
  {
    SkipText(a, rest, 0);
  }

  /** `leaf_text` on any sequence of tags: the text after the first opening tag of the name. */
  lemma LeafOfTags(doc: Section, local: string)
    requires IsSection(doc)
    ensures Leaf(TextOf(doc), local) == LeafOf(doc, local)
  {
    var s, r := TextOf(doc), AfterOpen(doc.tags, local);
    OpenInDoc(doc, local);
    AfterOpenIsSection(doc.tags, local);
    if r.Some? {
      var t := OpenFrom(s, 0, local).value;
      RenderStarts(r.value.tags);
      FindAfterText(r.value.text, Render(r.value.tags));
      LeafSplit(s, t, TextOf(r.value));
    }
  }

  lemma LeafSplit(s: string, t: nat, w: string)
    requires t <= |s| && s[t..] == w
    ensures s[t..FindFrom(s, t, '<')] == w[..FindFrom(w, 0, '<')]
  {
    assert s == s[..t] + w;
    FindShifts(s[..t], w, 0, '<');
  }

  // ----- trees -----

  /** The tags of an element and of what follows it, one by one. */
  lemma FlattenElement(f: Forest, rest: seq<Tag>)
    requires f.Element?
    ensures var after := [Close(f.name, f.tail, f.space)] + (Flatten(f.next) + rest);
            var tags := Flatten(f) + rest;
            tags == [Open(f.name, f.attrs, f.text)] + (Flatten(f.kids) + after) &&
            tags[1..] == Flatten(f.kids) + after &&
            after[1..] == Flatten(f.next) + rest
  {
  }

  lemma {:induction false} AfterOpenSkips(f: Forest, rest: seq<Tag>, local: string)
    requires IsTree(f)
    ensures FirstPlain(f, local) == None ==> AfterOpen(Flatten(f) + rest, local) == AfterOpen(rest, local)
  {
    match f
    case Empty => assert [] + rest == rest;
    case Element(n, attrs, text, kids, tail, next, space) =>
      var after := [Close(n, tail, space)] + (Flatten(next) + rest);
      FlattenElement(f, rest);
      AfterOpenSkips(kids, after, local);
      AfterOpenSkips(next, rest, local);
    case Other(tag, next) =>
      assert (Flatten(f) + rest)[1..] == Flatten(next) + rest;
      AfterOpenSkips(next, rest, local);
  }

  /** The first opening tag found belongs to the first element in document order; its content and
      its own closing tag follow. */
  lemma {:induction false} AfterOpenFinds(f: Forest, rest: seq<Tag>, local: string) returns (more: seq<Tag>)
    requires IsTree(f) && FirstPlain(f, local).Some?
    ensures var e := FirstPlain(f, local).value;
            AfterOpen(Flatten(f) + rest, local) ==
            Some(Section(e.text, Flatten(e.kids) + [Close(e.name, e.tail, e.space)] + more)) && e.name.local == local
  {
    match f
    case Element(n, attrs, text, kids, tail, next, space) =>
      var after := [Close(n, tail, space)] + (Flatten(next) + rest);
      FlattenElement(f, rest);
      if n.local == local && attrs == "" {
        more := Flatten(next) + rest;
        assert Flatten(kids) + after == Flatten(kids) + [Close(n, tail, space)] + more;
      } else if FirstPlain(kids, local).Some? {
        more := AfterOpenFinds(kids, after, local);
      } else {
        AfterOpenSkips(kids, after, local);
        more := AfterOpenFinds(next, rest, local);
      }
    case Other(tag, next) =>
      assert (Flatten(f) + rest)[1..] == Flatten(next) + rest;
      more := AfterOpenFinds(next, rest, local);
  }

  /** What the search for a closing tag makes of a forest and what follows it: without plainly closed
      elements of the name it passes over the forest, with them it ends inside. */
  predicate PassesOrEnds(f: Forest, rest: seq<Tag>, local: string) {
    var found := BeforeClose(Flatten(f) + rest, local);
    if HasClosed(f, local) then |found| < |Flatten(f)| else found == Flatten(f) + BeforeClose(rest, local)
  }

  lemma ElementPassesOrEnds(f: Forest, rest: seq<Tag>, local: string)
    requires f.Element?
    requires PassesOrEnds(f.kids, [Close(f.name, f.tail, f.space)] + (Flatten(f.next) + rest), local)
    requires PassesOrEnds(f.next, rest, local)
    ensures PassesOrEnds(f, rest, local)
  {
    FlattenElement(f, rest);
  }

  lemma {:induction false} BeforeCloseInForest(f: Forest, rest: seq<Tag>, local: string)
    requires IsTree(f)
    ensures PassesOrEnds(f, rest, local)
  {
    match f
    case Empty => assert [] + rest == rest;
    case Element(n, attrs, text, kids, tail, next, space) =>
      BeforeCloseInForest(kids, [Close(n, tail, space)] + (Flatten(next) + rest), local);
      BeforeCloseInForest(next, rest, local);
      ElementPassesOrEnds(f, rest, local);
    case Other(tag, next) =>
      assert (Flatten(f) + rest)[1..] == Flatten(next) + rest;
      BeforeCloseInForest(next, rest, local);
  }

  /** The element's own closing tag has no white space, and no element of its name with such a closing
      tag nests in it. */
  predicate Delimited(e: Forest, local: string)
    requires e.Element?
  {
    e.space == "" && !HasClosed(e.kids, local)
  }

  /** On a document tree `elem_scope` delimits exactly the content of the first element in document
      order that has the name and no attributes if and only if that element is `Delimited`; with a
      plainly closed element of the name inside the scope stops short, otherwise it runs on. */
  lemma ScopeOfTree(lead: string, f: Forest, local: string)
    requires IsTree(f)
    ensures var scope := ScopeOf(Section(lead, Flatten(f)), local);
            match FirstPlain(f, local)
            case None => scope == None
            case Some(e) =>
              scope.Some? && scope.value.text == e.text &&
              (scope.value.tags == Flatten(e.kids) <==> Delimited(e, local)) &&
              (HasClosed(e.kids, local) ==> scope.value.tags < Flatten(e.kids)) &&
              (!HasClosed(e.kids, local) && e.space != "" ==> Flatten(e.kids) < scope.value.tags)
  {
    assert Flatten(f) + [] == Flatten(f);
    var first := FirstPlain(f, local);
    if first == None {
      AfterOpenSkips(f, [], local);
    } else {
      var e := first.value;
      var more := AfterOpenFinds(f, [], local);
      assert IsTree(e.kids) by { FirstPlainIsTree(f, local); }
      var rest := [Close(e.name, e.tail, e.space)] + more;
      BeforeCloseInForest(e.kids, rest, local);
      Associate(Flatten(e.kids), [Close(e.name, e.tail, e.space)], more);
      if e.space == "" {
        assert BeforeClose(rest, local) == [];
      } else {
        assert BeforeClose(rest, local)[0] == rest[0];
      }
      if HasClosed(e.kids, local) {
        ShorterPrefix(BeforeClose(Flatten(e.kids) + rest, local), Flatten(e.kids), rest);
      }
    }
  }

  lemma ShorterPrefix(a: seq<Tag>, b: seq<Tag>, rest: seq<Tag>)
    requires a <= b + rest && |a| < |b|
    ensures a < b
  {
    assert (b + rest)[..|a|] == b[..|a|];
  }

  lemma ShorterText(a: seq<Tag>, b: seq<Tag>)
    requires a < b
    ensures |Render(a)| < |Render(b)|
  {
    assert b == a + b[|a|..];
    RenderConcat(a, b[|a|..]);
    RenderStep(b[|a|..]);
  }

  lemma {:induction false} FirstPlainIsTree(f: Forest, local: string)
    requires IsTree(f)
    ensures FirstPlain(f, local).Some? ==> IsTree(FirstPlain(f, local).value.kids)
  {
    match f
    case Empty =>
    case Element(_, _, _, kids, _, next, _) =>
      FirstPlainIsTree(kids, local);
      FirstPlainIsTree(next, local);
    case Other(_, next) => FirstPlainIsTree(next, local);
  }

  /** On a document tree `leaf_text` gives the text of the first element in document order that has
      the name and no attributes, whatever nests where. */
  lemma LeafOfTree(lead: string, f: Forest, local: string)
    requires IsTree(f)
    ensures LeafOf(Section(lead, Flatten(f)), local) ==
            match FirstPlain(f, local) case None => None case Some(e) => Some(e.text)
  {
    ScopeOfTree(lead, f, local);
  }

  /** The two together, on the text of a tree: `leaf_text` finds the text of the first element of the
      name without attributes, and `elem_scope` its content if and only if it is `Delimited`. */
  lemma ScannerReadsTrees(lead: string, f: Forest, local: string)
    requires IsTree(f) && IsSection(Section(lead, Flatten(f)))
    ensures var first := FirstPlain(f, local);
            var s := TextOf(Section(lead, Flatten(f)));
            && Leaf(s, local) == (match first case None => None case Some(e) => Some(e.text))
            && (first == None ==> Scope(s, local) == None)
            && (first.Some? ==>
                  (Scope(s, local) == Some(Content(first.value)) <==> Delimited(first.value, local)))
  {
    var doc := Section(lead, Flatten(f));
    ScopeOfTags(doc, local);
    LeafOfTags(doc, local);
    ScopeOfTree(lead, f, local);
    LeafOfTree(lead, f, local);
    var first := FirstPlain(f, local);
    if first.Some? && !Delimited(first.value, local) {
      var found, content := ScopeOf(doc, local).value.tags, Flatten(first.value.kids);
      if HasClosed(first.value.kids, local) {
        ShorterText(found, content);
      } else {
        ShorterText(content, found);
      }
    }
  }

  /** What stands between the tags of an element. */
  function Content(e: Forest): string
    requires e.Element?
  {
    TextOf(Section(e.text, Flatten(e.kids)))
  }

  /** <a><a>x</a></a> */
  function Nested(): (f: Forest)
    ensures IsTree(f)
  {
    var n := Name("", "a");
    Element(n, "", "", Element(n, "", "x", Empty, "", Empty), "", Empty)
  }

  /** In that document the scope of the outer element stops at the closing tag of the inner one. */
  lemma NestedStopsShort()
    ensures Content(Nested()) == "<a>x</a>"
    ensures Scope(TextOf(Section("", Flatten(Nested()))), "a") == Some("<a>x")
  {
    var n := Name("", "a");
    var open, inner, close := Open(n, "", ""), Open(n, "", "x"), Close(n, "");
    assert Flatten(Nested().kids) == [inner] + [close];
    assert Flatten(Nested()) == [open] + ([inner] + ([close] + [close]));
    NestedScope(open, inner, close, "a");
    ScopeOfTags(Section("", Flatten(Nested())), "a");
    RenderOne(inner);
    RenderOne(close);
    RenderConcat([inner], [close]);
    NestedTexts();
  }

  lemma NestedTexts()
    ensures "<" + Body(Open(Name("", "a"), "", "x")) == "<a>x"
    ensures "<" + Body(Close(Name("", "a"), "")) == "</a>"
    ensures "" + "<a>x" == "<a>x" && "" + ("<a>x" + "</a>") == "<a>x</a>"
  {
  }

  lemma NestedScope(open: Tag, inner: Tag, close: Tag, local: string)
    requires OpenHit(open, local) && !CloseHit(inner, local) && CloseHit(close, local)
    ensures ScopeOf(Section("", [open] + ([inner] + ([close] + [close]))), local) ==
            Some(Section(open.text, [inner]))
  {
    var rest := [inner] + ([close] + [close]);
    assert ([open] + rest)[1..] == rest;
    assert rest[1..] == [close] + [close] && rest[0] == inner;
    assert BeforeClose([close] + [close], local) == [];
    assert BeforeClose(rest, local) == [inner] + [] == [inner];
    assert AfterOpen([open] + rest, local) == Some(Section(open.text, rest));
  }
}
