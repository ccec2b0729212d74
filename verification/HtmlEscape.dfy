/** `escapeHtml` of packages/web-theme/markdown.ts: five global replacements, one after the other. */
module HtmlEscape {

  /** `value.replace(/c/g, replacement)`. */
  function ReplaceAll(s: string, c: char, replacement: string): string {
    if s == "" then "" else (if s[0] == c then replacement else [s[0]]) + ReplaceAll(s[1..], c, replacement)
  }

  function EscapeHtml(value: string): string {
    ReplaceAll(ReplaceAll(ReplaceAll(ReplaceAll(ReplaceAll(value,
      '&', "&amp;"), '<', "&lt;"), '>', "&gt;"), '"', "&quot;"), '\'', "&#39;")
  }

  /** What one character becomes. */
  function Entity(c: char): string {
    if c == '&' then "&amp;"
    else if c == '<' then "&lt;"
    else if c == '>' then "&gt;"
    else if c == '"' then "&quot;"
    else if c == '\'' then "&#39;"
    else [c]
  }

  /** The one-pass form. */
  function EachEscaped(s: string): string {
    if s == "" then "" else Entity(s[0]) + EachEscaped(s[1..])
  }

  lemma {:induction false} ReplaceConcat(a: string, b: string, c: char, replacement: string)
    ensures ReplaceAll(a + b, c, replacement) == ReplaceAll(a, c, replacement) + ReplaceAll(b, c, replacement)
  {
    if a == "" {
      assert a + b == b;
    } else {
      assert (a + b)[1..] == a[1..] + b;
      ReplaceConcat(a[1..], b, c, replacement);
    }
  }

  lemma {:induction false} ReplaceAbsent(s: string, c: char, replacement: string)
    requires c !in s
    ensures ReplaceAll(s, c, replacement) == s
  {
    if s != "" {
      ReplaceAbsent(s[1..], c, replacement);
    }
  }

  lemma EscapeConcat(a: string, b: string)
    ensures EscapeHtml(a + b) == EscapeHtml(a) + EscapeHtml(b)
  {
    var a1, b1 := ReplaceAll(a, '&', "&amp;"), ReplaceAll(b, '&', "&amp;");
    var a2, b2 := ReplaceAll(a1, '<', "&lt;"), ReplaceAll(b1, '<', "&lt;");
    var a3, b3 := ReplaceAll(a2, '>', "&gt;"), ReplaceAll(b2, '>', "&gt;");
    var a4, b4 := ReplaceAll(a3, '"', "&quot;"), ReplaceAll(b3, '"', "&quot;");
    ReplaceConcat(a, b, '&', "&amp;");
    ReplaceConcat(a1, b1, '<', "&lt;");
    ReplaceConcat(a2, b2, '>', "&gt;");
    ReplaceConcat(a3, b3, '"', "&quot;");
    ReplaceConcat(a4, b4, '\'', "&#39;");
  }

  lemma ReplaceOne(x: char, c: char, replacement: string)
    ensures ReplaceAll([x], c, replacement) == if x == c then replacement else [x]
  {
    assert [x][1..] == "";
  }

  predicate Markup(c: char) {
    c == '<' || c == '>' || c == '"' || c == '\''
  }

  /** Text without markup passes through the four later replacements. */
  lemma NoMarkupStays(e: string)
    requires forall i :: 0 <= i < |e| ==> !Markup(e[i])
    ensures var e1 := ReplaceAll(e, '<', "&lt;"); var e2 := ReplaceAll(e1, '>', "&gt;"); var e3 := ReplaceAll(e2, '"', "&quot;");
      e1 == e && e2 == e && e3 == e && ReplaceAll(e3, '\'', "&#39;") == e
  {
    ReplaceAbsent(e, '<', "&lt;");
    ReplaceAbsent(e, '>', "&gt;");
    ReplaceAbsent(e, '"', "&quot;");
    ReplaceAbsent(e, '\'', "&#39;");
  }

  lemma EscapeAmpersand(c: char)
    requires c == '&'
    ensures EscapeHtml([c]) == Entity(c)
  {
    ReplaceOne(c, '&', "&amp;");
    LaterStages([c], Entity(c));
  }

  lemma LaterStages(value: string, e: string)
    requires ReplaceAll(value, '&', "&amp;") == e && forall i :: 0 <= i < |e| ==> !Markup(e[i])
    ensures EscapeHtml(value) == e
  {
    NoMarkupStays(e);
  }

  lemma EscapeLess(c: char)
    requires c == '<'
    ensures EscapeHtml([c]) == Entity(c)
  {
    var e := Entity(c);
    ReplaceOne(c, '&', "&amp;");
    ReplaceOne(c, '<', "&lt;");
    NoMarkupStays(e);
  }

  lemma EscapeGreater(c: char)
    requires c == '>'
    ensures EscapeHtml([c]) == Entity(c)
  {
    var e := Entity(c);
    ReplaceOne(c, '&', "&amp;");
    ReplaceOne(c, '<', "&lt;");
    ReplaceOne(c, '>', "&gt;");
    NoMarkupStays(e);
  }

  lemma EscapeQuote(c: char)
    requires c == '"'
    ensures EscapeHtml([c]) == Entity(c)
  {
    var e := Entity(c);
    ReplaceOne(c, '&', "&amp;");
    ReplaceOne(c, '<', "&lt;");
    ReplaceOne(c, '>', "&gt;");
    ReplaceOne(c, '"', "&quot;");
    NoMarkupStays(e);
  }

  lemma EscapeLast(c: char)
    requires c != '&' && c != '<' && c != '>' && c != '"'
    ensures EscapeHtml([c]) == Entity(c)
  {
    ReplaceOne(c, '&', "&amp;");
    ReplaceOne(c, '<', "&lt;");
    ReplaceOne(c, '>', "&gt;");
    ReplaceOne(c, '"', "&quot;");
    ReplaceOne(c, '\'', "&#39;");
  }

  /** The order of the replacements is right: no replacement touches what an earlier one made. */
  lemma EscapeOne(c: char)
    ensures EscapeHtml([c]) == Entity(c)
  {
    if c == '&' {
      EscapeAmpersand(c);
    } else if c == '<' {
      EscapeLess(c);
    } else if c == '>' {
      EscapeGreater(c);
    } else if c == '"' {
      EscapeQuote(c);
    } else {
      EscapeLast(c);
    }
  }

  /** The five replacements are one pass. */
  lemma {:induction false} EscapeIsOnePass(s: string)
    ensures EscapeHtml(s) == EachEscaped(s)
  {
    if s != "" {
      assert s == [s[0]] + s[1..];
      EscapeConcat([s[0]], s[1..]);
      EscapeOne(s[0]);
      EscapeIsOnePass(s[1..]);
    }
  }

  lemma {:induction false} EachEscapedHasNoMarkup(s: string)
    ensures forall i :: 0 <= i < |EachEscaped(s)| ==> !Markup(EachEscaped(s)[i])
  {
    if s != "" {
      EachEscapedHasNoMarkup(s[1..]);
    }
  }

  /** No angle bracket and no quote is left. */
  lemma EscapedHasNoMarkup(s: string)
    ensures forall i :: 0 <= i < |EscapeHtml(s)| ==> !Markup(EscapeHtml(s)[i])
  {
    EscapeIsOnePass(s);
    EachEscapedHasNoMarkup(s);
  }

  /** Reads the five entities back. */
  function Unescape(s: string): string
    decreases |s|
  {
    if s == "" then ""
    else if "&amp;" <= s then "&" + Unescape(s[5..])
    else if "&lt;" <= s then "<" + Unescape(s[4..])
    else if "&gt;" <= s then ">" + Unescape(s[4..])
    else if "&quot;" <= s then "\"" + Unescape(s[6..])
    else if "&#39;" <= s then "'" + Unescape(s[5..])
    else [s[0]] + Unescape(s[1..])
  }

  lemma UnescapeEntity(c: char, rest: string)
    ensures Unescape(Entity(c) + rest) == [c] + Unescape(rest)
  {
    var s := Entity(c) + rest;
    assert s[|Entity(c)|..] == rest;
    assert s[0] == Entity(c)[0];
    if c == '&' || Markup(c) {
      assert s[1] == Entity(c)[1];
      assert s[..|Entity(c)|] == Entity(c);
    }
  }

  /** Unescaping gives back every string. */
  lemma UnescapeEscape(s: string)
    ensures Unescape(EscapeHtml(s)) == s
  {
    EscapeIsOnePass(s);
    UnescapeEach(s);
  }

  lemma {:induction false} UnescapeEach(s: string)
    ensures Unescape(EachEscaped(s)) == s
  {
    if s != "" {
      UnescapeEach(s[1..]);
      UnescapeEntity(s[0], EachEscaped(s[1..]));
    }
  }

  /** Different strings stay different. */
  lemma EscapeIsInjective(a: string, b: string)
    requires EscapeHtml(a) == EscapeHtml(b)
    ensures a == b
  {
    UnescapeEscape(a);
    UnescapeEscape(b);
  }

  /** The five entities, as HTML names them; everything else stays. */
  lemma FiveEntities(c: char)
    ensures EscapeHtml([c]) == if c == '&' then "&amp;" else if c == '<' then "&lt;" else if c == '>' then "&gt;"
                               else if c == '"' then "&quot;" else if c == '\'' then "&#39;" else [c]
  {
    EscapeOne(c);
  }
}
