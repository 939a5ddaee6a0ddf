/** The GetScopes response of core/onvif_xml.c: a buffer filled in stages, one item per scope. */
module Scopes {
  import opened CText
  import opened PieceReader

  // ----- tokens -----

  /** The non-empty tokens between spaces, in order. */
  function Tokens(s: string): seq<string>
    decreases |s|
  {
    if s == "" then []
    else if s[0] == ' ' then Tokens(s[1..])
    else
      var k := FindFrom(s, 0, ' ');
      [s[..k]] + Tokens(s[k..])
  }

  /** All pieces between spaces, empty ones included. */
  function Pieces(s: string): (p: seq<string>)
    ensures p != []
  {
    if s == "" then [""]
    else
      var p := Pieces(s[1..]);
      if s[0] == ' ' then [""] + p else [[s[0]] + p[0]] + p[1..]
  }

  function NonEmpty(p: seq<string>): seq<string> {
    if p == [] then []
    else (if p[0] == "" then [] else [p[0]]) + NonEmpty(p[1..])
  }

  /** Words with one space between them. */
  function Spaced(words: seq<string>): string {
    if words == [] then "" else if |words| == 1 then words[0] else words[0] + " " + Spaced(words[1..])
  }

  /** The pieces have no space, and with single spaces between them they are the text again. */
  lemma {:induction false} PiecesAreTheText(s: string)
    ensures Spaced(Pieces(s)) == s
    ensures forall k :: 0 <= k < |Pieces(s)| ==> ' ' !in Pieces(s)[k]
  {
    if s != "" {
      var p := Pieces(s[1..]);
      PiecesAreTheText(s[1..]);
      if s[0] == ' ' {
        assert ([""] + p)[1..] == p;
        assert s == "" + " " + s[1..];
      } else {
        var q := [[s[0]] + p[0]] + p[1..];
        assert q[1..] == p[1..];
        FirstWordGrows(s[0], p, q);
        assert s == [s[0]] + s[1..];
      }
    }
  }

  lemma FirstWordGrows(c: char, p: seq<string>, q: seq<string>)
    requires p != [] && q != [] && q[0] == [c] + p[0] && q[1..] == p[1..]
    ensures Spaced(q) == [c] + Spaced(p)
  {
    assert |q| == |p|;
    if |p| > 1 {
      Associate([c], p[0], " " + Spaced(p[1..]));
      Associate(p[0], " ", Spaced(p[1..]));
      Associate([c] + p[0], " ", Spaced(p[1..]));
    }
  }

  lemma {:induction false} PiecesOfToken(token: string, rest: string)
    requires ' ' !in token && (rest == "" || rest[0] == ' ')
    ensures Pieces(token + rest)[0] == token
    ensures Pieces(token + rest)[1..] == Pieces(rest)[1..]
  {
    if token == "" {
      assert token + rest == rest;
    } else {
      assert (token + rest)[1..] == token[1..] + rest;
      PiecesOfToken(token[1..], rest);
    }
  }

  /** The tokens are the non-empty pieces. */
  lemma {:induction false} TokensAreThePieces(s: string)
    ensures Tokens(s) == NonEmpty(Pieces(s))
    decreases |s|
  {
    if s != "" && s[0] == ' ' {
      TokensAreThePieces(s[1..]);
    } else if s != "" {
      var k := FindFrom(s, 0, ' ');
      NothingBeforeFound(s, 0, ' ');
      PiecesOfToken(s[..k], s[k..]);
      assert s == s[..k] + s[k..];
      TokensAreThePieces(s[k..]);
      assert Pieces(s[k..])[0] == "";
    }
  }

  // ----- the builder -----

  function Items(item: string -> string, tokens: seq<string>): string {
    if tokens == [] then "" else item(tokens[0]) + Items(item, tokens[1..])
  }

  function Response(header: string, item: string -> string, footer: string, s: string): string {
    header + Items(item, Tokens(s)) + footer
  }

  /** `while (*p == ' ') p++`. */
  method SkipSpaces(s: string, from: nat) returns (p: nat)
    requires from <= |s|
    ensures from <= p <= |s| && Tokens(s[p..]) == Tokens(s[from..])
    ensures At(s, p) != ' '
  {
    p := from;
    while At(s, p) == ' '
      invariant from <= p <= |s| && Tokens(s[p..]) == Tokens(s[from..])
      decreases |s| - p
    {
      assert s[p..][1..] == s[p + 1..];
      p := p + 1;
    }
  }

  lemma RestAt(s: string, p: nat)
    requires p <= |s|
    ensures FindFrom(s, p, ' ') == p + FindFrom(s[p..], 0, ' ')
  {
    assert s == s[..p] + s[p..];
    FindShifts(s[..p], s[p..], 0, ' ');
  }

  /** Length of the token at `p`. */
  method TokenLength(s: string, p: nat) returns (len: nat)
    requires p <= |s| && At(s, p) != ' '
    ensures p + len <= |s| && (len == 0 <==> p == |s|)
    ensures len > 0 ==> Tokens(s[p..]) == [s[p..p + len]] + Tokens(s[p + len..])
  {
    len := FindFrom(s, p, ' ') - p;
    RestAt(s, p);
    assert s[p..][len..] == s[p + len..] && s[p..][..len] == s[p..p + len];
  }

  lemma ResponseGrows(done: string, item: string -> string, tokens: seq<string>)
    requires tokens != []
    ensures done + Items(item, tokens) == done + item(tokens[0]) + Items(item, tokens[1..])
  {
    Associate(done, item(tokens[0]), Items(item, tokens[1..]));
  }

  /** One stage: prints `text` at `off` behind what the buffer already holds. */
  method Stage(buf: array<char>, off: nat, text: string) returns (after: nat)
    requires off < buf.Length
    modifies buf
    ensures after == off + |text|
    ensures after < buf.Length ==> buf[..after] == old(buf[..off]) + text && buf[after] == '\0'
  {
    var w := Snprintf(buf, off, buf.Length - off, text);
    after := off + w;
    if after < buf.Length {
      assert buf[..after] == buf[..off] + buf[off..after];
    }
  }

  /** The stages of the builder, for any header, item and footer text. The space left, `n - off`,
      never goes below zero. */
  method Build(buf: array<char>, header: string, item: string -> string, footer: string, s: string)
    returns (off: nat)
    modifies buf
    ensures off < buf.Length <==> |Response(header, item, footer, s)| < buf.Length
    ensures off < buf.Length ==>
              off == |Response(header, item, footer, s)| &&
              buf[..off] == Response(header, item, footer, s) && buf[off] == '\0'
  {
    ghost var all := header + Items(item, Tokens(s));
    if buf.Length == 0 {
      return |header|;
    }
    off := Stage(buf, 0, header);
    if off >= buf.Length {
      return;
    }
    var p := 0;
    assert s[0..] == s;
    while p < |s|
      invariant p <= |s| && off < buf.Length
      invariant buf[..off] + Items(item, Tokens(s[p..])) == all
    {
      p := SkipSpaces(s, p);
      var len := TokenLength(s, p);
      if len == 0 {
        break;
      }
      ResponseGrows(buf[..off], item, Tokens(s[p..]));
      off := Stage(buf, off, item(s[p..p + len]));
      if off >= buf.Length {
        return;
      }
      p := p + len;
    }
    assert Tokens(s[p..]) == [];
    off := Stage(buf, off, footer);
  }

  // ----- the texts -----

  function HeaderText(): string {
    Piece("?xml version=\"1.0\"" + " encoding=\"utf-8\"?>")
    + Piece("soap:Envelope" + HeaderAttributes() + ">")
    + Piece("soap:Body>")
    + Piece("tds:GetScopesResponse>")
  }

  function HeaderAttributes(): string {
    " xmlns:soap=\"" + "http://www.w3.org/" + "2003/05/soap-envelope\""
    + " xmlns:tt=\"" + "http://www.onvif.org/" + "ver10/schema\""
    + " xmlns:tds=\"" + "http://www.onvif.org/" + "ver10/device/wsdl\""
  }

  function ItemText(): string -> string {
    (token: string) =>
      Piece("tt:Scopes>")
      + Piece("tt:ScopeDef>" + "Fixed") + Piece("/tt:ScopeDef>")
      + Piece("tt:ScopeItem>" + token) + Piece("/tt:ScopeItem>")
      + Piece("/tt:Scopes>")
  }

  function FooterText(): string {
    Piece("/tds:GetScopesResponse>")
    + Piece("/soap:Body>")
    + Piece("/soap:Envelope>")
  }

  /** The whole response: header, one item per non-empty piece of the scopes, footer. */
  function ScopesText(scopes: string): string {
    HeaderText() + Items(ItemText(), NonEmpty(Pieces(scopes))) + FooterText()
  }

  /** `onvif_xml_get_scopes`: the value is below the buffer size exactly when the whole response and
      its terminator fit, and then the buffer holds it. */
  method GetScopes(buf: array<char>, scopes: Option<string>) returns (off: nat)
    modifies buf
    ensures var text := ScopesText(if scopes.Some? then scopes.value else "");
            (off < buf.Length <==> |text| < buf.Length) &&
            (off < buf.Length ==> off == |text| && buf[..off] == text && buf[off] == '\0')
  {
    var s := if scopes.Some? then scopes.value else "";
    TokensAreThePieces(s);
    off := Build(buf, HeaderText(), ItemText(), FooterText(), s);
  }

  // ----- the response read back -----

  const ITEM := "tt:ScopeItem>"

  lemma ItemMark()
    ensures |ITEM| == 13 && ITEM[0] == 't' && ITEM[1] == 't' && ITEM[8] == 'I' && '<' !in ITEM
  {
  }

  lemma NoAngleInHeader()
    ensures '<' !in HeaderAttributes()
  {
    assert '<' !in "http://www.w3.org/" && '<' !in "2003/05/soap-envelope\"";
    assert '<' !in "http://www.onvif.org/" && '<' !in "ver10/schema\"" && '<' !in "ver10/device/wsdl\"";
  }

  lemma EnvelopeIsSilent(attributes: string)
    requires '<' !in attributes
    ensures Gives(Piece("soap:Envelope" + attributes + ">"), ITEM, '<', [])
  {
    ItemMark();
    Misses("soap:Envelope" + attributes + ">", ITEM, '<', 0);
  }

  lemma FirstPieceIsSilent()
    ensures Gives(Piece("?xml version=\"1.0\"" + " encoding=\"utf-8\"?>"), ITEM, '<', [])
  {
    ItemMark();
    Misses("?xml version=\"1.0\"" + " encoding=\"utf-8\"?>", ITEM, '<', 0);
  }

  lemma LastPiecesAreSilent()
    ensures Gives(Piece("soap:Body>"), ITEM, '<', []) && Gives(Piece("tds:GetScopesResponse>"), ITEM, '<', [])
  {
    ItemMark();
    Misses("soap:Body>", ITEM, '<', 0);
    Misses("tds:GetScopesResponse>", ITEM, '<', 1);
  }

  lemma HeaderIsSilent()
    ensures Gives(HeaderText(), ITEM, '<', [])
  {
    NoAngleInHeader();
    FirstPieceIsSilent();
    EnvelopeIsSilent(HeaderAttributes());
    LastPiecesAreSilent();
    FourSilent(Piece("?xml version=\"1.0\"" + " encoding=\"utf-8\"?>"),
               Piece("soap:Envelope" + HeaderAttributes() + ">"), Piece("soap:Body>"),
               Piece("tds:GetScopesResponse>"), ITEM, '<');
  }

  lemma FooterIsSilent()
    ensures Gives(FooterText(), ITEM, '<', [])
  {
    ItemMark();
    Misses("/tds:GetScopesResponse>", ITEM, '<', 0);
    Misses("/soap:Body>", ITEM, '<', 0);
    Misses("/soap:Envelope>", ITEM, '<', 0);
    SilentBoth(Piece("/tds:GetScopesResponse>"), Piece("/soap:Body>"), ITEM, '<');
    SilentBoth(Piece("/tds:GetScopesResponse>") + Piece("/soap:Body>"), Piece("/soap:Envelope>"), ITEM, '<');
  }

  /** The fourth of six says something. */
  lemma FourthGives(a: string, b: string, c: string, d: string, v: seq<string>, e: string, f: string)
    requires Gives(a, ITEM, '<', []) && Gives(b, ITEM, '<', []) && Gives(c, ITEM, '<', [])
    requires Gives(d, ITEM, '<', v) && Gives(e, ITEM, '<', []) && Gives(f, ITEM, '<', [])
    ensures Gives(a + b + c + d + e + f, ITEM, '<', v)
  {
    SilentBoth(a, b, ITEM, '<');
    SilentBoth(a + b, c, ITEM, '<');
    MiddleGives(a + b + c, d, v, e, [], f, ITEM, '<');
    assert v + [] == v;
  }

  lemma ItemGives(token: string)
    requires '<' !in token
    ensures Gives(ItemText()(token), ITEM, '<', [token])
  {
    ItemMark();
    Misses("tt:Scopes>", ITEM, '<', 8);
    Misses("tt:ScopeDef>" + "Fixed", ITEM, '<', 8);
    Misses("/tt:ScopeDef>", ITEM, '<', 0);
    HitsText("tt:ScopeItem>", token);
    Misses("/tt:ScopeItem>", ITEM, '<', 0);
    Misses("/tt:Scopes>", ITEM, '<', 0);
    FourthGives(Piece("tt:Scopes>"), Piece("tt:ScopeDef>" + "Fixed"), Piece("/tt:ScopeDef>"),
                Piece("tt:ScopeItem>" + token), [token], Piece("/tt:ScopeItem>"), Piece("/tt:Scopes>"));
  }

  lemma {:induction false} ItemsGive(tokens: seq<string>)
    requires forall t :: t in tokens ==> '<' !in t
    ensures Gives(Items(ItemText(), tokens), ITEM, '<', tokens)
  {
    if tokens != [] {
      ItemGives(tokens[0]);
      ItemsGive(tokens[1..]);
      GivesBoth(ItemText()(tokens[0]), [tokens[0]], Items(ItemText(), tokens[1..]), tokens[1..], ITEM, '<');
      assert [tokens[0]] + tokens[1..] == tokens;
    }
  }

  /** The characters of the pieces are those of the text, without the spaces. */
  lemma {:induction false} PiecesHold(s: string, c: char)
    requires c != ' '
    ensures c in s <==> exists k :: 0 <= k < |Pieces(s)| && c in Pieces(s)[k]
  {
    if s != "" {
      var p, q := Pieces(s[1..]), Pieces(s);
      PiecesHold(s[1..], c);
      assert c in s <==> c == s[0] || c in s[1..];
      forall k | 0 <= k < |p|
        ensures s[0] == ' ' ==> q[k + 1] == p[k]
        ensures s[0] != ' ' ==> q[k] == if k == 0 then [s[0]] + p[0] else p[k]
      {
      }
      if c in s[1..] {
        var k :| 0 <= k < |p| && c in p[k];
        assert if s[0] == ' ' then c in q[k + 1] else c in q[k];
      } else if c == s[0] {
        assert c in q[0];
      }
    }
  }

  lemma {:induction false} NonEmptyHold(p: seq<string>, t: string)
    ensures t in NonEmpty(p) <==> t in p && t != ""
  {
    if p != [] {
      NonEmptyHold(p[1..], t);
    }
  }

  lemma {:induction false} NoAngleSaid(s: string, mark: string)
    ensures forall t :: t in Behind(s, mark, '<') ==> '<' !in t
  {
    if s != "" {
      NoAngleSaid(s[1..], mark);
      NothingBeforeFound(s[1..], 0, '<');
      var piece := UpTo(s[1..], '<');
      if mark <= piece {
        NothingBeforeFound(piece[|mark|..], 0, '<');
      }
    }
  }

  /** The items of the response are the non-empty pieces of the scopes, in order, exactly when the scopes
      have no '<'. */
  lemma ReadsScopes(scopes: string)
    ensures Behind(ScopesText(scopes), "tt:ScopeItem>", '<') == NonEmpty(Pieces(scopes)) <==> '<' !in scopes
  {
    var tokens := NonEmpty(Pieces(scopes));
    PiecesHold(scopes, '<');
    if '<' in scopes {
      var k :| 0 <= k < |Pieces(scopes)| && '<' in Pieces(scopes)[k];
      NonEmptyHold(Pieces(scopes), Pieces(scopes)[k]);
      NoAngleSaid(ScopesText(scopes), "tt:ScopeItem>");
    } else {
      forall t | t in tokens
        ensures '<' !in t
      {
        NonEmptyHold(Pieces(scopes), t);
      }
      ReadsPlain(tokens);
    }
  }

  lemma ReadsPlain(tokens: seq<string>)
    requires forall t :: t in tokens ==> '<' !in t
    ensures Behind(HeaderText() + Items(ItemText(), tokens) + FooterText(), ITEM, '<') == tokens
  {
    HeaderIsSilent();
    ItemsGive(tokens);
    FooterIsSilent();
    LastGive(HeaderText(), Items(ItemText(), tokens), tokens, FooterText(), [], ITEM, '<');
    assert tokens + [] == tokens;
  }
}
