/** The save-time link pass `fixLinks`: a global, leftmost, non-overlapping
    textual replacement over every `href="…"` span (the JavaScript pattern
    `href="([^"]+)"`). A matched URL that starts with `http://`, `https://`,
    `/` or `#` is kept; any other gets `https://` in front. The pass knows
    nothing about HTML, so `data-href="x"` is rewritten as well. */
module LinkFix {
  import opened Text

  const HrefOpen: string := "href=\""

  /** What `[^"]+` accepts: one or more characters, none of them a quote. */
  predicate ValidUrl(u: string) {
    u != [] && '"' !in u
  }

  /** The URL of the match starting at the first position of `s`, if any.
      The URL runs to the first quote after `href="`, so a match exists
      exactly when that quote exists and is not the very next character. */
  function HrefAt(s: string): (r: Option<string>)
    ensures r.Some? <==> StartsWith(s, HrefOpen) && |s| > 6 && s[6] != '"' && '"' in s[6..]
    ensures r.Some? ==> ValidUrl(r.value) && StartsWith(s, HrefOpen + r.value + "\"")
  {
    if StartsWith(s, HrefOpen) && '"' in s[6..] then
      var k := FirstIndex(s[6..], '"');
      if k == 0 then None
      else
        var u := s[6..6 + k];
        assert u == s[6..][..k];
        assert s[..6 + k + 1] == HrefOpen + u + "\"";
        Some(u)
    else None
  }

  /** The match at the start of `s` is unique: any quote-free `u` that
      `s` opens with as `href="u"` is the one `HrefAt` finds. */
  lemma HrefAtComplete(s: string, u: string)
    requires ValidUrl(u) && StartsWith(s, HrefOpen + u + "\"")
    ensures HrefAt(s) == Some(u)
  {
    var w := HrefOpen + u + "\"";
    assert s[..|w|] == w;
    assert s[6] == u[0] && s[6 + |u|] == '"';
    assert s[6..][|u|] == '"';
    var v := HrefAt(s).value;
    var wv := HrefOpen + v + "\"";
    assert s[..|wv|] == wv;
    assert v == s[6..6 + |u|] == u;
  }

  /** The replacement rule: URLs that already carry a scheme, or are
      site-relative or fragment links, are kept. */
  predicate Keep(u: string) {
    StartsWith(u, "http://") || StartsWith(u, "https://") || StartsWith(u, "/") || StartsWith(u, "#")
  }

  /** The callback's result for one matched URL: kept, or `https://` in front. */
  function Fix(u: string): (r: string)
    ensures Keep(u) ==> r == u
    ensures !Keep(u) ==> r == "https://" + u
    ensures Keep(r)
    ensures ValidUrl(u) ==> ValidUrl(r)
  {
    if Keep(u) then u else "https://" + u
  }

  /** `fixLinks`: scan left to right; at a match emit the rewritten span and
      continue after it, otherwise copy one character. */
  function FixLinks(s: string): (r: string)
    ensures |r| >= |s|
    ensures '"' !in s ==> r == s
    decreases |s|
  {
    if s == [] then []
    else match HrefAt(s)
      case Some(u) => HrefOpen + Fix(u) + "\"" + FixLinks(s[|u| + 7..])
      case None => [s[0]] + FixLinks(s[1..])
  }

  /** A piece of the input as the pattern splits it: one character outside
      any match, or one matched `href="url"` span. */
  datatype Piece = Plain(c: char) | Link(url: string)

  /** The text of one piece. */
  function PieceText(p: Piece): string {
    match p
    case Plain(c) => [c]
    case Link(u) => HrefOpen + u + "\""
  }

  function Render(ps: seq<Piece>): string {
    if ps == [] then [] else PieceText(ps[0]) + Render(ps[1..])
  }

  /** A piece the text opens with, followed by pieces rendering the rest of it, renders the text. */
  lemma RenderStep(s: string, p: Piece, rest: seq<Piece>)
    requires |PieceText(p)| <= |s| && s[..|PieceText(p)|] == PieceText(p)
    requires Render(rest) == s[|PieceText(p)|..]
    ensures Render([p] + rest) == s
  {
    assert ([p] + rest)[0] == p && ([p] + rest)[1..] == rest;
    assert s == s[..|PieceText(p)|] + s[|PieceText(p)|..];
  }

  /** The piece the scan takes at the start of non-empty text: the match
      there, or else the first character. */
  function FirstPiece(s: string): (p: Piece)
    requires s != []
    ensures 0 < |PieceText(p)| <= |s| && s[..|PieceText(p)|] == PieceText(p)
    ensures p.Link? ==> ValidUrl(p.url)
    ensures p.Link? <==> HrefAt(s).Some?
    ensures p.Link? ==> HrefAt(s) == Some(p.url)
  {
    match HrefAt(s)
    case Some(u) => Link(u)
    case None => Plain(s[0])
  }

  /** The matches of the pattern, leftmost first and non-overlapping, with
      the text between them; rendering the pieces gives the input back, and
      each piece is a match exactly when the pattern matches where it starts
      (so a character is kept plain only where no match begins). */
  function Scan(s: string): (ps: seq<Piece>)
    ensures Render(ps) == s
    ensures forall i :: 0 <= i < |ps| && ps[i].Link? ==> ValidUrl(ps[i].url)
    ensures forall i :: 0 <= i < |ps| ==> HrefAt(Render(ps[i..])) == PieceMatch(ps[i])
    decreases |s|
  {
    if s == [] then []
    else
      var p := FirstPiece(s);
      var n := |PieceText(p)|;
      var rest := Scan(s[n..]);
      RenderStep(s, p, rest);
      var ps := [p] + rest;
      assert forall i :: 0 < i < |ps| ==> ps[i] == rest[i - 1];
      assert forall i :: 0 < i < |ps| ==> ps[i..] == rest[i - 1..];
      assert ps[0..] == ps;
      ps
  }

  /** What the pattern finds where a piece starts: its URL for a match,
      nothing for a plain character. */
  function PieceMatch(p: Piece): Option<string> {
    match p
    case Link(u) => Some(u)
    case Plain(_) => None
  }

  function FixPiece(p: Piece): Piece {
    match p
    case Plain(_) => p
    case Link(u) => Link(Fix(u))
  }

  function FixPieces(ps: seq<Piece>): (qs: seq<Piece>)
    ensures |qs| == |ps|
    ensures forall i :: 0 <= i < |ps| ==> qs[i] == FixPiece(ps[i])
  {
    if ps == [] then [] else [FixPiece(ps[0])] + FixPieces(ps[1..])
  }

  /** Only matched spans change: the output is the input's pieces with each
      matched URL replaced by `Fix` of it, and every character outside a
      match copied as it is. */
  lemma {:induction false} FixLinksPiecewise(s: string)
    ensures FixLinks(s) == Render(FixPieces(Scan(s)))
    decreases |s|
  {
    if s != [] {
      var ps := Scan(s);
      match HrefAt(s)
      case Some(u) =>
        FixLinksPiecewise(s[|u| + 7..]);
        assert ps[1..] == Scan(s[|u| + 7..]);
        assert FixPieces(ps)[1..] == FixPieces(ps[1..]);
      case None =>
        FixLinksPiecewise(s[1..]);
        assert ps[1..] == Scan(s[1..]);
        assert FixPieces(ps)[1..] == FixPieces(ps[1..]);
    }
  }

  /** Without a quote at position `k` or later, where `k <= 6`, there is no
      match anywhere, so the pass changes nothing. */
  lemma {:induction false} NoQuoteFixed(t: string, k: nat)
    requires k <= 6
    requires forall i :: k <= i < |t| ==> t[i] != '"'
    ensures FixLinks(t) == t
    decreases |t|
  {
    if t != [] {
      NoQuoteFixed(t[1..], if k > 0 then k - 1 else 0);
      assert t == [t[0]] + t[1..];
    }
  }

  /** The pass keeps the first six characters (a span it rewrites starts
      with the six characters of `href="` it was matched on). */
  lemma {:induction false} PrefixKept(t: string, k: nat)
    requires k <= 6 && k <= |t|
    ensures FixLinks(t)[..k] == t[..k]
    decreases |t|
  {
    if k > 0 {
      match HrefAt(t)
      case Some(u) =>
        var r := FixLinks(t);
        assert r == HrefOpen + Fix(u) + "\"" + FixLinks(t[|u| + 7..]);
        assert r[..6] == HrefOpen && t[..6] == HrefOpen;
        assert r[..k] == r[..6][..k] && t[..k] == t[..6][..k];
      case None =>
        PrefixKept(t[1..], k - 1);
        assert FixLinks(t)[..k] == [t[0]] + FixLinks(t[1..])[..k - 1];
        assert t[..k] == [t[0]] + t[1..][..k - 1];
    }
  }

  /** A position where the pattern fails still fails after the rest of the
      text has been fixed: a rewrite adds no quote, and keeps `href="`. */
  lemma NoMatchPreserved(c: char, t: string)
    requires HrefAt([c] + t).None?
    ensures HrefAt([c] + FixLinks(t)).None?
  {
    var x := [c] + t;
    var y := [c] + FixLinks(t);
    if |t| < 6 {
      NoQuoteFixed(t, 6);
    } else {
      PrefixKept(t, 6);
      assert y[..7] == x[..7];
      if StartsWith(x, HrefOpen) && x[6] != '"' {
        QuoteFreeTail(c, t);
      }
      NoMatchTransfer(x, y);
    }
  }

  /** No match at the start of `x` means none at the start of `y` when both
      open with the same seven characters and, should those be `href="`
      and a non-quote, `y` is `x`. */
  lemma NoMatchTransfer(x: string, y: string)
    requires HrefAt(x).None?
    requires |x| >= 7 && |y| >= 7 && y[..7] == x[..7]
    requires StartsWith(x, HrefOpen) && x[6] != '"' ==> y == x
    ensures HrefAt(y).None?
  {
    assert y[..6] == x[..6] && y[6] == x[6];
  }

  /** Text whose tail from position 5 has no quote is left as it is. */
  lemma QuoteFreeTail(c: char, t: string)
    requires |t| >= 6 && '"' !in ([c] + t)[6..]
    ensures FixLinks(t) == t
  {
    forall i | 5 <= i < |t|
      ensures t[i] != '"'
    {
      assert t[i] == ([c] + t)[6..][i - 5];
    }
    NoQuoteFixed(t, 5);
  }

  /** `fixLinks` is idempotent: a second pass finds the same spans, now all
      starting with a kept prefix. */
  lemma {:induction false} FixLinksIdempotent(s: string)
    ensures FixLinks(FixLinks(s)) == FixLinks(s)
    decreases |s|
  {
    if s != [] {
      var r := FixLinks(s);
      match HrefAt(s)
      case Some(u) =>
        var t := s[|u| + 7..];
        var f := Fix(u);
        FixLinksIdempotent(t);
        assert r == HrefOpen + f + "\"" + FixLinks(t);
        assert r[..|f| + 7] == HrefOpen + f + "\"";
        HrefAtComplete(r, f);
        assert r[|f| + 7..] == FixLinks(t);
      case None =>
        FixLinksIdempotent(s[1..]);
        assert s == [s[0]] + s[1..];
        NoMatchPreserved(s[0], s[1..]);
        assert r == [s[0]] + FixLinks(s[1..]);
        assert r[1..] == FixLinks(s[1..]);
    }
  }

  /** A matched span is rewritten by `Fix` and the scan resumes right after it. */
  lemma FixLinksAtMatch(u: string, rest: string)
    requires ValidUrl(u)
    ensures FixLinks(HrefOpen + u + "\"" + rest) == HrefOpen + Fix(u) + "\"" + FixLinks(rest)
  {
    var s := HrefOpen + u + "\"" + rest;
    assert s[..|u| + 7] == HrefOpen + u + "\"";
    HrefAtComplete(s, u);
    assert s[|u| + 7..] == rest;
  }

  /** No match starts at a character other than `h`; it is copied. */
  lemma PlainStep(s: string)
    requires s != [] && s[0] != 'h'
    ensures FixLinks(s) == [s[0]] + FixLinks(s[1..])
  {
    assert !StartsWith(s, HrefOpen) by {
      assert HrefOpen[0] == 'h';
    }
  }

  /** Text in which no match can start (it has no `h`) is copied unchanged. */
  lemma {:induction false} PlainTextCopied(p: string, rest: string)
    requires forall i :: 0 <= i < |p| ==> p[i] != 'h'
    ensures FixLinks(p + rest) == p + FixLinks(rest)
    decreases |p|
  {
    if p == [] {
      assert p + rest == rest;
    } else {
      var s := p + rest;
      assert s[0] == p[0];
      PlainStep(s);
      assert s[1..] == p[1..] + rest;
      PlainTextCopied(p[1..], rest);
      ConcatAssoc([p[0]], p[1..], FixLinks(rest));
      assert [p[0]] + p[1..] == p;
    }
  }

  /** Matching is purely textual: an `href="…"` preceded by text such as
      `data-` is rewritten exactly as a real `href` attribute would be. */
  lemma EmbeddedHrefRewritten(p: string, u: string, rest: string)
    requires forall i :: 0 <= i < |p| ==> p[i] != 'h'
    requires ValidUrl(u)
    ensures FixLinks(p + (HrefOpen + u + "\"" + rest)) == p + (HrefOpen + Fix(u) + "\"" + FixLinks(rest))
  {
    PlainTextCopied(p, HrefOpen + u + "\"" + rest);
    FixLinksAtMatch(u, rest);
  }
}
