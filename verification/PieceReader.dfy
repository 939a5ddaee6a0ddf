/** A reader for the pages the device writes. It cuts a text at each '<' and looks at how every piece
starts; it knows nothing of how the pages are put together. */
module PieceReader {
  import opened CText

  /** `t` up to the first `stop`, or all of it. */
  function UpTo(t: string, stop: char): string {
    t[..FindFrom(t, 0, stop)]
  }

  /** What a piece that starts with `mark` says behind it, up to `stop`. */
  function Hit(piece: string, mark: string, stop: char): seq<string> {
    if mark <= piece then [UpTo(piece[|mark|..], stop)] else []
  }

  /** What the pieces of `s` between one '<' and the next say behind `mark`, in order. */
  function Behind(s: string, mark: string, stop: char): seq<string>
    decreases |s|
  {
    if s == "" then []
    else (if s[0] == '<' then Hit(UpTo(s[1..], '<'), mark, stop) else []) + Behind(s[1..], mark, stop)
  }

  /** One piece. */
  function Piece(p: string): string {
    "<" + p
  }

  /** `t` starts with a piece or is empty, and its pieces say `values`. */
  predicate Gives(t: string, mark: string, stop: char, values: seq<string>) {
    (t == "" || t[0] == '<') && Behind(t, mark, stop) == values
  }

  lemma UpToEnd(t: string, stop: char)
    requires stop !in t
    ensures UpTo(t, stop) == t
  {
    UpToStop(t, "", stop);
  }

  lemma UpToStop(t: string, rest: string, stop: char)
    requires stop !in t && (rest == "" || rest[0] == stop)
    ensures UpTo(t + rest, stop) == t
  {
    FindPast("", t, rest, 0, stop);
    assert "" + t + rest == t + rest;
  }

  lemma {:induction false} TextSaysNothing(t: string, mark: string, stop: char)
    requires '<' !in t
    ensures Behind(t, mark, stop) == []
  {
    if t != "" {
      TextSaysNothing(t[1..], mark, stop);
    }
  }

  /** What comes later does not change what a piece says. */
  lemma {:induction false} BehindConcat(a: string, b: string, mark: string, stop: char)
    requires b == "" || b[0] == '<'
    ensures Behind(a + b, mark, stop) == Behind(a, mark, stop) + Behind(b, mark, stop)
  {
    if a == "" {
      assert a + b == b;
    } else {
      BehindConcat(a[1..], b, mark, stop);
      assert (a + b)[1..] == a[1..] + b;
      SamePiece(a[1..], b);
      Associate(if a[0] == '<' then Hit(UpTo(a[1..], '<'), mark, stop) else [],
                Behind(a[1..], mark, stop), Behind(b, mark, stop));
    }
  }

  lemma SamePiece(a: string, b: string)
    requires b == "" || b[0] == '<'
    ensures UpTo(a + b, '<') == UpTo(a, '<')
  {
    var k := FindFrom(a, 0, '<');
    NothingBeforeFound(a, 0, '<');
    assert a + b == a[..k] + (a[k..] + b);
    UpToStop(a[..k], a[k..] + b, '<');
  }

  lemma GivesPiece(p: string, mark: string, stop: char)
    requires '<' !in p
    ensures Gives(Piece(p), mark, stop, Hit(p, mark, stop))
  {
    assert Piece(p)[1..] == p;
    UpToEnd(p, '<');
    TextSaysNothing(p, mark, stop);
  }

  lemma GivesBoth(a: string, v: seq<string>, b: string, w: seq<string>, mark: string, stop: char)
    requires Gives(a, mark, stop, v) && Gives(b, mark, stop, w)
    ensures Gives(a + b, mark, stop, v + w)
  {
    BehindConcat(a, b, mark, stop);
  }

  /** Texts without a hit. */
  lemma SilentBoth(a: string, b: string, mark: string, stop: char)
    requires Gives(a, mark, stop, []) && Gives(b, mark, stop, [])
    ensures Gives(a + b, mark, stop, [])
  {
    GivesBoth(a, [], b, [], mark, stop);
  }

  lemma FourSilent(a: string, b: string, c: string, d: string, mark: string, stop: char)
    requires Gives(a, mark, stop, []) && Gives(b, mark, stop, [])
    requires Gives(c, mark, stop, []) && Gives(d, mark, stop, [])
    ensures Gives(a + b + c + d, mark, stop, [])
  {
    SilentBoth(a, b, mark, stop);
    SilentBoth(a + b, c, mark, stop);
    SilentBoth(a + b + c, d, mark, stop);
  }

  /** The last two of three say something. */
  lemma LastGive(a: string, b: string, v: seq<string>, c: string, w: seq<string>, mark: string, stop: char)
    requires Gives(a, mark, stop, []) && Gives(b, mark, stop, v) && Gives(c, mark, stop, w)
    ensures Gives(a + b + c, mark, stop, v + w)
  {
    GivesBoth(a, [], b, v, mark, stop);
    GivesBoth(a + b, [] + v, c, w, mark, stop);
    assert [] + v + w == v + w;
  }

  /** The second and the third of four say something. */
  lemma MiddleGives(a: string, b: string, v: seq<string>, c: string, w: seq<string>, d: string,
                    mark: string, stop: char)
    requires Gives(a, mark, stop, []) && Gives(b, mark, stop, v)
    requires Gives(c, mark, stop, w) && Gives(d, mark, stop, [])
    ensures Gives(a + b + c + d, mark, stop, v + w)
  {
    GivesBoth(a, [], b, v, mark, stop);
    GivesBoth(a + b, [] + v, c, w, mark, stop);
    GivesBoth(a + b + c, [] + v + w, d, [], mark, stop);
    assert [] + v + w + [] == v + w;
  }

  lemma Misses(p: string, mark: string, stop: char, k: nat)
    requires '<' !in p && k < |p| && k < |mark| && p[k] != mark[k]
    ensures Gives(Piece(p), mark, stop, [])
  {
    GivesPiece(p, mark, stop);
  }

  /** A piece that starts with the mark, for a text up to the end of the piece. */
  lemma HitsText(mark: string, value: string)
    requires '<' !in mark && '<' !in value
    ensures Gives(Piece(mark + value), mark, '<', [value])
  {
    GivesPiece(mark + value, mark, '<');
    assert (mark + value)[|mark|..] == value;
    UpToEnd(value, '<');
  }

  /** A piece that starts with the mark, for a value up to the quotation mark. */
  lemma HitsValue(mark: string, value: string, after: string)
    requires '<' !in mark && '<' !in value && '<' !in after && '"' !in value
    ensures Gives(Piece(mark + value + "\"" + after), mark, '"', [value])
  {
    var p := mark + value + "\"" + after;
    GivesPiece(p, mark, '"');
    assert p[|mark|..] == value + ("\"" + after);
    UpToStop(value, "\"" + after, '"');
  }
}
