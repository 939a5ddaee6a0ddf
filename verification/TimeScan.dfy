/** The element finder of core/onvif_time.c: no parser, just pointers that walk from '<' to '<' and
compare local names.

The functions say where the walk stops, as offsets into the string. The methods are the walks
themselves: every character they read is at or before the terminator. */
module TimeScan {
  import opened CText
  import opened Markup

  // ----- where the scanner stops -----

  /** End of the identifier at `i`. */
  function IdentEnd(s: string, i: nat): (q: nat)
    requires i <= |s|
    ensures i <= q <= |s|
    decreases |s| - i
  {
    if i < |s| && NameChar(s[i]) then IdentEnd(s, i + 1) else i
  }

  /** Start of the local name of the tag name at `i`: after the prefix and its colon, if any. */
  function LocalStart(s: string, i: nat): (n: nat)
    requires i <= |s|
    ensures i <= n <= |s|
  {
    var q := IdentEnd(s, i);
    if q < |s| && s[q] == ':' then q + 1 else i
  }

  /** [prefix ':'] local '>' at `i`: the offset after it, if it is there. */
  function TagEnd(s: string, i: nat, local: string): (r: Option<nat>)
    requires i <= |s|
    ensures r.Some? ==> i < r.value <= |s|
  {
    var name := LocalStart(s, i);
    var end := IdentEnd(s, name);
    if s[name..end] == local && end < |s| && s[end] == '>' then Some(end + 1) else None
  }

  /** At a '<': an opening tag without attributes named `local`, and the offset after it. */
  function Opens(s: string, p: nat, local: string): (r: Option<nat>)
    requires p < |s|
    ensures r.Some? ==> p < r.value <= |s|
  {
    if NameStart(At(s, p + 1)) then TagEnd(s, p + 1, local) else None
  }

  /** At a '<': a closing tag named `local`. */
  predicate Closes(s: string, p: nat, local: string)
    requires p < |s|
  {
    At(s, p + 1) == '/' && TagEnd(s, p + 2, local).Some?
  }

  /** Offset after the first opening tag named `local` at or after `i`. */
  function OpenFrom(s: string, i: nat, local: string): (r: Option<nat>)
    requires i <= |s|
    ensures r.Some? ==> i < r.value <= |s|
    decreases |s| - i
  {
    var p := FindFrom(s, i, '<');
    if p == |s| then None
    else if Opens(s, p, local).Some? then Opens(s, p, local)
    else OpenFrom(s, p + 1, local)
  }

  /** Offset of the first closing tag named `local` at or after `i`, or the length. */
  function CloseFrom(s: string, i: nat, local: string): (r: nat)
    requires i <= |s|
    ensures i <= r <= |s| && (r < |s| ==> s[r] == '<')
    decreases |s| - i
  {
    var p := FindFrom(s, i, '<');
    if p == |s| || Closes(s, p, local) then p else CloseFrom(s, p + 1, local)
  }

  /** The content `elem_scope` delimits; an element that is never closed reaches to the end. */
  function Scope(s: string, local: string): Option<string> {
    match OpenFrom(s, 0, local)
    case None => None
    case Some(t) => Some(s[t..CloseFrom(s, t, local)])
  }

  /** The text `leaf_text` delimits, searching from `i` on. */
  function LeafFrom(s: string, i: nat, local: string): Option<string>
    requires i <= |s|
  {
    match OpenFrom(s, i, local)
    case None => None
    case Some(t) => Some(s[t..FindFrom(s, t, '<')])
  }

  function Leaf(scope: string, local: string): Option<string> {
    LeafFrom(scope, 0, local)
  }

  // ----- an identifier does not cross '<' -----

  lemma {:induction false} IdentStopsAtAngle(a: string, b: string, i: nat)
    requires i <= |a| && (b == "" || !NameChar(b[0]))
    ensures IdentEnd(a + b, i) == IdentEnd(a, i)
    decreases |a| - i
  {
    if i < |a| && NameChar(a[i]) {
      IdentStopsAtAngle(a, b, i + 1);
    }
  }

  /** A tag is recognised from the characters up to the next '<' alone. */
  lemma TagEndStopsAtAngle(a: string, b: string, i: nat, local: string)
    requires i <= |a| && (b == "" || b[0] == '<')
    ensures TagEnd(a + b, i, local) == TagEnd(a, i, local)
  {
    IdentStopsAtAngle(a, b, i);
    assert LocalStart(a + b, i) == LocalStart(a, i);
    var name := LocalStart(a, i);
    IdentStopsAtAngle(a, b, name);
    var end := IdentEnd(a, name);
    assert (a + b)[name..end] == a[name..end];
  }

  lemma OpensStopsAtAngle(a: string, b: string, p: nat, local: string)
    requires p < |a| && (b == "" || b[0] == '<')
    ensures Opens(a + b, p, local) == Opens(a, p, local)
  {
    TagEndStopsAtAngle(a, b, p + 1, local);
  }

  // ----- offsets move with what comes before -----

  lemma {:induction false} IdentShifts(a: string, s: string, i: nat)
    requires i <= |s|
    ensures IdentEnd(a + s, |a| + i) == |a| + IdentEnd(s, i)
    decreases |s| - i
  {
    if i < |s| && NameChar(s[i]) {
      IdentShifts(a, s, i + 1);
    }
  }

  lemma TagEndShifts(a: string, s: string, i: nat, local: string)
    requires i <= |s|
    ensures TagEnd(a + s, |a| + i, local) ==
            Shifted(|a|, TagEnd(s, i, local))
  {
    LocalStartShifts(a, s, i);
    var name := LocalStart(s, i);
    IdentShifts(a, s, name);
    var end := IdentEnd(s, name);
    SliceShifts(a, s, name, end);
  }

  lemma LocalStartShifts(a: string, s: string, i: nat)
    requires i <= |s|
    ensures LocalStart(a + s, |a| + i) == |a| + LocalStart(s, i)
  {
    var q := IdentEnd(s, i);
    IdentShifts(a, s, i);
    assert q < |s| ==> (a + s)[|a| + q] == s[q];
  }

  function Shifted(k: nat, r: Option<nat>): Option<nat> {
    match r
    case None => None
    case Some(v) => Some(k + v)
  }

  lemma OpensShifts(a: string, s: string, p: nat, local: string)
    requires p < |s|
    ensures Opens(a + s, |a| + p, local) == Shifted(|a|, Opens(s, p, local))
  {
    TagEndShifts(a, s, p + 1, local);
    assert At(a + s, |a| + p + 1) == At(s, p + 1);
  }

  lemma ClosesShifts(a: string, s: string, p: nat, local: string)
    requires p < |s|
    ensures Closes(a + s, |a| + p, local) == Closes(s, p, local)
  {
    assert At(a + s, |a| + p + 1) == At(s, p + 1);
    if p + 1 < |s| {
      TagEndShifts(a, s, p + 2, local);
    }
  }

  /** One turn of the search for an opening tag. */
  lemma OpenUnroll(s: string, i: nat, p: nat, local: string)
    requires i <= |s| && p == FindFrom(s, i, '<')
    ensures OpenFrom(s, i, local) ==
            if p == |s| then None
            else if Opens(s, p, local).Some? then Opens(s, p, local)
            else OpenFrom(s, p + 1, local)
  {
  }

  /** The searches as one search for the first '<' at which `hit` gives something. */
  function Search(s: string, i: nat, hit: nat -> Option<nat>): Option<nat>
    requires i <= |s|
    decreases |s| - i
  {
    var p := FindFrom(s, i, '<');
    if p == |s| then None
    else if hit(p).Some? then hit(p)
    else Search(s, p + 1, hit)
  }

  /** It moves with what comes before, like the hits. */
  lemma {:induction false} SearchShifts(
      a: string, s: string, i: nat, hit: nat -> Option<nat>, moved: nat -> Option<nat>)
    requires i <= |s| && forall p: nat :: p < |s| ==> moved(|a| + p) == Shifted(|a|, hit(p))
    ensures Search(a + s, |a| + i, moved) == Shifted(|a|, Search(s, i, hit))
    decreases |s| - i
  {
    FindShifts(a, s, i, '<');
    var p := FindFrom(s, i, '<');
    if p < |s| {
      SearchShifts(a, s, p + 1, hit, moved);
    }
  }

  function OpensIn(s: string, local: string): nat -> Option<nat> {
    (p: nat) => if p < |s| then Opens(s, p, local) else None
  }

  lemma {:induction false} OpenIsSearch(s: string, i: nat, local: string)
    requires i <= |s|
    ensures OpenFrom(s, i, local) == Search(s, i, OpensIn(s, local))
    decreases |s| - i
  {
    var p := FindFrom(s, i, '<');
    OpenUnroll(s, i, p, local);
    if p < |s| {
      OpenIsSearch(s, p + 1, local);
    }
  }

  lemma HitsShift(a: string, s: string, p: nat, local: string)
    requires p < |s|
    ensures OpensIn(a + s, local)(|a| + p) == Shifted(|a|, OpensIn(s, local)(p))
  {
    OpensShifts(a, s, p, local);
  }

  lemma OpenFromShifts(a: string, s: string, i: nat, local: string)
    requires i <= |s|
    ensures OpenFrom(a + s, |a| + i, local) == Shifted(|a|, OpenFrom(s, i, local))
  {
    OpenIsSearch(s, i, local);
    OpenIsSearch(a + s, |a| + i, local);
    forall p: nat | p < |s|
      ensures OpensIn(a + s, local)(|a| + p) == Shifted(|a|, OpensIn(s, local)(p))
    {
      HitsShift(a, s, p, local);
    }
    SearchShifts(a, s, i, OpensIn(s, local), OpensIn(a + s, local));
  }

  /** One turn of the search for a closing tag. */
  lemma CloseUnroll(s: string, i: nat, p: nat, local: string)
    requires i <= |s| && p == FindFrom(s, i, '<')
    ensures CloseFrom(s, i, local) == if p == |s| || Closes(s, p, local) then p else CloseFrom(s, p + 1, local)
  {
  }

  function ClosesIn(s: string, local: string): nat -> Option<nat> {
    (p: nat) => if p < |s| && Closes(s, p, local) then Some(p) else None
  }

  function OrEnd(r: Option<nat>, end: nat): nat {
    match r
    case None => end
    case Some(p) => p
  }

  lemma {:induction false} CloseIsSearch(s: string, i: nat, local: string)
    requires i <= |s|
    ensures CloseFrom(s, i, local) == OrEnd(Search(s, i, ClosesIn(s, local)), |s|)
    decreases |s| - i
  {
    var p := FindFrom(s, i, '<');
    CloseUnroll(s, i, p, local);
    if p < |s| {
      CloseIsSearch(s, p + 1, local);
    }
  }

  lemma ClosingHitsShift(a: string, s: string, p: nat, local: string)
    requires p < |s|
    ensures ClosesIn(a + s, local)(|a| + p) == Shifted(|a|, ClosesIn(s, local)(p))
  {
    ClosesShifts(a, s, p, local);
  }

  lemma CloseFromShifts(a: string, s: string, i: nat, local: string)
    requires i <= |s|
    ensures CloseFrom(a + s, |a| + i, local) == |a| + CloseFrom(s, i, local)
  {
    CloseIsSearch(s, i, local);
    CloseIsSearch(a + s, |a| + i, local);
    forall p: nat | p < |s|
      ensures ClosesIn(a + s, local)(|a| + p) == Shifted(|a|, ClosesIn(s, local)(p))
    {
      ClosingHitsShift(a, s, p, local);
    }
    SearchShifts(a, s, i, ClosesIn(s, local), ClosesIn(a + s, local));
  }

  // ----- the walks -----

  /** `scan_ident`. */
  method ScanIdent(s: string, from: nat) returns (q: nat)
    requires from <= |s|
    ensures q == IdentEnd(s, from)
  {
    q := from;
    while NameChar(At(s, q))
      invariant from <= q <= |s| && IdentEnd(s, from) == IdentEnd(s, q)
      decreases |s| - q
    {
      q := q + 1;
    }
  }

  /** `split_name`. */
  method SplitName(s: string, tag: nat) returns (name: nat, nameEnd: nat)
    requires tag <= |s|
    ensures name == LocalStart(s, tag) && nameEnd == IdentEnd(s, name)
  {
    name := tag;
    var q := ScanIdent(s, tag);
    if At(s, q) == ':' {
      name := q + 1;
      q := ScanIdent(s, name);
    }
    nameEnd := q;
  }

  /** The comparison both scanners make after a '<' at `p`. */
  method OpensAt(s: string, p: nat, local: string) returns (text: Option<nat>)
    requires p < |s|
    ensures text == Opens(s, p, local)
  {
    var q := p + 1;
    if !IsAlpha(At(s, q)) && At(s, q) != '_' {
      return None;
    }
    var name, nameEnd := SplitName(s, q);
    if nameEnd - name != |local| || s[name..nameEnd] != local || At(s, nameEnd) != '>' {
      return None;
    }
    return Some(nameEnd + 1);
  }

  /** The comparison the inner loop of `elem_scope` makes after a '<' at `c`. */
  method ClosesAt(s: string, c: nat, local: string) returns (yes: bool)
    requires c < |s|
    ensures yes == Closes(s, c, local)
  {
    if At(s, c + 1) != '/' {
      return false;
    }
    var name, nameEnd := SplitName(s, c + 2);
    return nameEnd - name == |local| && s[name..nameEnd] == local && At(s, nameEnd) == '>';
  }

  lemma CloseSkips(s: string, i: nat, local: string)
    requires i <= |s|
    ensures CloseFrom(s, i, local) == CloseFrom(s, FindFrom(s, i, '<'), local)
  {
  }

  /** One turn of the inner loop of `elem_scope`. */
  lemma CloseTurn(s: string, p: nat, local: string)
    requires p < |s| && s[p] == '<'
    ensures CloseFrom(s, p, local) ==
            if Closes(s, p, local) then p else CloseFrom(s, FindFrom(s, p + 1, '<'), local)
  {
    CloseSkips(s, p + 1, local);
  }

  /** The inner loop of `elem_scope`. */
  method FindClose(s: string, text: nat, local: string) returns (end: nat)
    requires text <= |s|
    ensures end == CloseFrom(s, text, local)
  {
    end := NextChar(s, text, '<');
    CloseSkips(s, text, local);
    while end < |s|
      invariant text <= end <= |s| && (end < |s| ==> s[end] == '<')
      invariant CloseFrom(s, text, local) == CloseFrom(s, end, local)
    {
      CloseTurn(s, end, local);
      var found := ClosesAt(s, end, local);
      if found {
        return;
      }
      end := NextChar(s, end + 1, '<');
    }
  }

  lemma OpenSkips(s: string, i: nat, local: string)
    requires i <= |s|
    ensures OpenFrom(s, i, local) == OpenFrom(s, FindFrom(s, i, '<'), local)
  {
  }

  /** One turn of the outer loop of `elem_scope`. */
  lemma OpenTurn(s: string, p: nat, local: string)
    requires p < |s| && s[p] == '<'
    ensures OpenFrom(s, p, local) ==
            if Opens(s, p, local).Some? then Opens(s, p, local) else OpenFrom(s, FindFrom(s, p + 1, '<'), local)
  {
    OpenSkips(s, p + 1, local);
  }

  /** `elem_scope`: the offsets of the content, or nothing. */
  method ElemScope(s: string, local: string) returns (text: Option<nat>, end: nat)
    ensures text.Some? ==> text.value <= end <= |s| && (end < |s| ==> s[end] == '<')
    ensures Scope(s, local) == if text.Some? then Some(s[text.value..end]) else None
  {
    var p := NextChar(s, 0, '<');
    OpenSkips(s, 0, local);
    while p < |s|
      invariant p <= |s| && (p < |s| ==> s[p] == '<')
      invariant OpenFrom(s, 0, local) == OpenFrom(s, p, local)
    {
      OpenTurn(s, p, local);
      text := OpensAt(s, p, local);
      if text.Some? {
        end := FindClose(s, text.value, local);
        return;
      }
      p := NextChar(s, p + 1, '<');
    }
    text, end := None, 0;
  }

  /** A window that ends at a '<' or at the terminator shows the same tags as the whole string. */
  lemma WindowShowsTag(s: string, p: nat, end: nat, local: string)
    requires p < end <= |s| && (end < |s| ==> s[end] == '<')
    ensures Opens(s, p, local) == Opens(s[..end], p, local)
  {
    assert s == s[..end] + s[end..];
    OpensStopsAtAngle(s[..end], s[end..], p, local);
  }

  /** The next '<' of the whole string, seen from a window that ends at `end`. */
  lemma {:induction false} FindInWindow(s: string, i: nat, end: nat, c: char)
    requires i <= end <= |s|
    ensures FindFrom(s[..end], i, c) == if FindFrom(s, i, c) < end then FindFrom(s, i, c) else end
    decreases end - i
  {
    if i < end && s[i] != c {
      FindInWindow(s, i + 1, end, c);
    }
  }

  /** The leaf text that starts at `t` in a scope that stands after `a`. */
  lemma LeafTextShifts(a: string, w: string, t: nat)
    requires t <= |w|
    ensures (a + w)[|a| + t..FindFrom(a + w, |a| + t, '<')] == w[t..FindFrom(w, t, '<')]
  {
    FindShifts(a, w, t, '<');
    SliceShifts(a, w, t, FindFrom(w, t, '<'));
  }

  /** One turn of that loop. */
  lemma WindowStep(s: string, p: nat, end: nat, local: string)
    requires p < end <= |s| && s[p] == '<' && (end < |s| ==> s[end] == '<')
    ensures var q := FindFrom(s, p + 1, '<');
            OpenFrom(s[..end], p, local) ==
            if Opens(s, p, local).Some? then Opens(s, p, local)
            else if q < end then OpenFrom(s[..end], q, local)
            else None
  {
    WindowShowsTag(s, p, end, local);
    FindInWindow(s, p + 1, end, '<');
  }

  /** The loop of `leaf_text`. */
  method FindOpen(s: string, scope: nat, end: nat, local: string) returns (text: Option<nat>)
    requires scope <= end <= |s| && (end < |s| ==> s[end] == '<')
    ensures text == OpenFrom(s[..end], scope, local)
  {
    ghost var w := s[..end];
    FindInWindow(s, scope, end, '<');
    var p := NextWithin(s, scope, end, '<');
    while p < |s| && p < end
      invariant scope <= p <= |s| && (p < end ==> s[p] == '<')
      invariant OpenFrom(w, scope, local) == if p < end then OpenFrom(w, p, local) else None
      decreases |s| - p
    {
      WindowStep(s, p, end, local);
      text := OpensAt(s, p, local);
      if text.Some? {
        return;
      }
      p := NextChar(s, p + 1, '<');
    }
    text := None;
  }

  /** `leaf_text`: offset and length of the leaf inside the scope [scope, end). The subtractions
      `stop - text` and `end - text` never go below zero. `LeafMeaning` reads the result. */
  method LeafText(s: string, scope: nat, end: nat, local: string) returns (text: Option<nat>, len: nat)
    requires scope <= end <= |s| && (end < |s| ==> s[end] == '<')
    ensures text == OpenFrom(s[..end], scope, local)
    ensures text.Some? ==> text.value + len == FindFrom(s[..end], text.value, '<')
  {
    len := 0;
    text := FindOpen(s, scope, end, local);
    if text.Some? {
      FindInWindow(s, text.value, end, '<');
      var stop := NextWithin(s, text.value, end, '<');
      len := stop - text.value;
    }
  }

  lemma SliceOfPrefix(s: string, end: nat, i: nat, j: nat)
    requires i <= j <= end <= |s|
    ensures s[..end][i..j] == s[i..j]
  {
  }

  /** The offset and length `leaf_text` gives delimit the leaf of the scope read on its own. */
  lemma LeafMeaning(s: string, scope: nat, end: nat, local: string, text: Option<nat>, len: nat)
    requires scope <= end <= |s|
    requires text == OpenFrom(s[..end], scope, local)
    requires text.Some? ==> text.value + len == FindFrom(s[..end], text.value, '<')
    ensures text.Some? ==> text.value + len <= end
    ensures Leaf(s[scope..end], local) ==
            if text.Some? then Some(s[text.value..text.value + len]) else None
  {
    LeafOfSlice(s, scope, end, local);
    LeafMarks(s, end, scope, local, text, len);
  }

  lemma LeafOfSlice(s: string, scope: nat, end: nat, local: string)
    requires scope <= end <= |s|
    ensures Leaf(s[scope..end], local) == LeafFrom(s[..end], scope, local)
  {
    WindowSplits(s, scope, end);
    LeafAfter(s[..scope], s[scope..end], local);
  }

  lemma LeafMarks(s: string, end: nat, i: nat, local: string, text: Option<nat>, len: nat)
    requires i <= end <= |s| && text == OpenFrom(s[..end], i, local)
    requires text.Some? ==> text.value + len == FindFrom(s[..end], text.value, '<')
    ensures text.Some? ==> text.value + len <= end
    ensures LeafFrom(s[..end], i, local) == if text.Some? then Some(s[text.value..text.value + len]) else None
  {
    if text.Some? {
      SliceOfPrefix(s, end, text.value, text.value + len);
    }
  }

  lemma WindowSplits(s: string, scope: nat, end: nat)
    requires scope <= end <= |s|
    ensures s[..end] == s[..scope] + s[scope..end]
  {
  }

  lemma LeafAfter(a: string, w: string, local: string)
    ensures Leaf(w, local) == LeafFrom(a + w, |a|, local)
  {
    OpenAfter(a, w, local);
    var t := OpenFrom(w, 0, local);
    if t.Some? {
      LeafTextShifts(a, w, t.value);
    }
  }

  lemma OpenAfter(a: string, w: string, local: string)
    ensures OpenFrom(a + w, |a|, local) == Shifted(|a|, OpenFrom(w, 0, local))
  {
    OpenFromShifts(a, w, 0, local);
  }
}
