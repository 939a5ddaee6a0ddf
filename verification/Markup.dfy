/** The documents the scanners are judged against: a text that is a sequence of tags, each with the
text up to the next one, and trees of elements flattened into such sequences.

Tags need not be balanced; a tree gives a balanced sequence. */
module Markup {
  import opened CText

  /** A qualified name; `prefix` is empty when there is none. */
  datatype Name = Name(prefix: string, local: string)

  /** Each tag carries the text that follows it. `attrs` and `space` are everything between the name and the end
      of the tag. `Misc` is the inside of a comment, a processing instruction or a declaration. */
  datatype Tag =
    | Open(name: Name, attrs: string, text: string)
    | Close(name: Name, text: string, space: string := "")
    | Lone(name: Name, attrs: string, text: string)
    | Misc(markup: string)

  predicate NameChar(c: char) {
    IsAlnum(c) || c == '_' || c == '.' || c == '-'
  }

  predicate NameStart(c: char) {
    IsAlpha(c) || c == '_'
  }

  /** Which characters these are, by their codes: letters, digits, '_', '.' and '-'. */
  lemma NameCharacters(c: char)
    ensures var k := c as int;
            && (NameChar(c) <==> 65 <= k <= 90 || 97 <= k <= 122 || 48 <= k <= 57 || k == 95 || k == 46 || k == 45)
            && (NameStart(c) <==> 65 <= k <= 90 || 97 <= k <= 122 || k == 95)
            && (IsBlank(c) <==> k == 32 || k == 9 || k == 13 || k == 10)
            && (IsSpace(c) <==> k == 32 || 9 <= k <= 13)
  {
  }

  predicate IsName(s: string) {
    s != "" && NameStart(s[0]) && forall k :: 0 <= k < |s| ==> NameChar(s[k])
  }

  predicate WellNamed(n: Name) {
    IsName(n.local) && (n.prefix == "" || IsName(n.prefix))
  }

  /** The white space of XML (section 2.3 of XML 1.0). */
  predicate IsBlank(c: char) {
    c == ' ' || c == '\t' || c == '\r' || c == '\n'
  }

  predicate WellFormedAttrs(attrs: string) {
    '<' !in attrs && (attrs != "" ==> IsBlank(attrs[0]))
  }

  predicate WellFormed(t: Tag) {
    match t
    case Open(n, attrs, text) => WellNamed(n) && WellFormedAttrs(attrs) && '<' !in text
    case Close(n, text, space) => WellNamed(n) && '<' !in text && forall c :: c in space ==> IsBlank(c)
    case Lone(n, attrs, text) => WellNamed(n) && WellFormedAttrs(attrs) && '<' !in text
    case Misc(markup) => '<' !in markup && (markup != "" ==> !NameStart(markup[0]) && markup[0] != '/')
  }

  predicate AllWellFormed(tags: seq<Tag>) {
    forall k :: 0 <= k < |tags| ==> WellFormed(tags[k])
  }

  function QName(n: Name): string {
    if n.prefix == "" then n.local else n.prefix + ":" + n.local
  }

  /** A tag and its text, without the leading '<'. */
  function Body(t: Tag): string {
    match t
    case Open(n, attrs, text) => QName(n) + attrs + ">" + text
    case Close(n, text, space) => "/" + QName(n) + space + ">" + text
    case Lone(n, attrs, text) => QName(n) + attrs + "/>" + text
    case Misc(markup) => markup
  }

  function Render(tags: seq<Tag>): string {
    if tags == [] then "" else "<" + Body(tags[0]) + Render(tags[1..])
  }

  lemma RenderOne(t: Tag)
    ensures Render([t]) == "<" + Body(t)
  {
    assert [t][1..] == [];
  }

  lemma NoAngleInBody(t: Tag)
    requires WellFormed(t)
    ensures '<' !in Body(t)
  {
  }

  lemma RenderStep(tags: seq<Tag>)
    requires tags != []
    ensures Render(tags) == "<" + Body(tags[0]) + Render(tags[1..])
    ensures Render(tags[1..]) == "" || Render(tags[1..])[0] == '<'
    ensures Render(tags[1..]) == "" <==> |tags| == 1
  {
  }

  lemma RestOfConcat(a: seq<Tag>, b: seq<Tag>)
    requires a != []
    ensures (a + b)[1..] == a[1..] + b && (a + b)[0] == a[0]
  {
  }

  lemma {:induction false} RenderConcat(a: seq<Tag>, b: seq<Tag>)
    ensures Render(a + b) == Render(a) + Render(b)
  {
    if a == [] {
      assert a + b == b;
    } else {
      RenderConcat(a[1..], b);
      RestOfConcat(a, b);
      RenderStep(a);
      RenderStep(a + b);
      Associate("<" + Body(a[0]), Render(a[1..]), Render(b));
    }
  }

  // ----- prefixes -----

  /** The same tag without its namespace prefix. */
  function Strip(t: Tag): Tag {
    match t
    case Open(n, attrs, text) => Open(n.(prefix := ""), attrs, text)
    case Close(n, text, space) => Close(n.(prefix := ""), text, space)
    case Lone(n, attrs, text) => Lone(n.(prefix := ""), attrs, text)
    case Misc(_) => t
  }

  /** Two documents that differ in namespace prefixes only: some renamed, added or removed. */
  predicate SameButPrefixes(a: seq<Tag>, b: seq<Tag>) {
    |a| == |b| && forall k :: 0 <= k < |a| ==> Strip(a[k]) == Strip(b[k])
  }

  // ----- trees -----

  /** A forest of elements: each node is an element (or a childless tag or other markup) and the
      forest that follows it. */
  datatype Forest =
    | Empty
    | Element(name: Name, attrs: string, text: string, kids: Forest, tail: string, next: Forest, space: string := "")
    | Other(tag: Tag, next: Forest)

  function Flatten(f: Forest): seq<Tag> {
    match f
    case Empty => []
    case Element(n, attrs, text, kids, tail, next, space) =>
      [Open(n, attrs, text)] + Flatten(kids) + [Close(n, tail, space)] + Flatten(next)
    case Other(tag, next) => [tag] + Flatten(next)
  }

  /** `Other` nodes are neither opening nor closing tags. */
  predicate IsTree(f: Forest) {
    match f
    case Empty => true
    case Element(_, _, _, kids, _, next, _) => IsTree(kids) && IsTree(next)
    case Other(tag, next) => (tag.Lone? || tag.Misc?) && IsTree(next)
  }

  /** Some element of the forest, at any depth, has this local name and a closing tag without white
      space. */
  predicate HasClosed(f: Forest, local: string) {
    match f
    case Empty => false
    case Element(n, _, _, kids, _, next, space) =>
      (n.local == local && space == "") || HasClosed(kids, local) || HasClosed(next, local)
    case Other(_, next) => HasClosed(next, local)
  }

  /** The first element in document order with this local name and no attributes. */
  function FirstPlain(f: Forest, local: string): (r: Option<Forest>)
    ensures r.Some? ==> r.value.Element?
  {
    match f
    case Empty => None
    case Element(n, attrs, _, kids, _, next, _) =>
      if n.local == local && attrs == "" then Some(f)
      else
        var inside := FirstPlain(kids, local);
        if inside.Some? then inside else FirstPlain(next, local)
    case Other(_, next) => FirstPlain(next, local)
  }
}
