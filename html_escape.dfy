/** Flott::Parser::HTML_ESCAPE, the default escape of an environment, and the decoder it is inverse to. */
module HtmlEscaping {
  import opened Strings

  /** The five characters HTML_ESCAPE rewrites. */
  predicate IsEscaped(c: char) {
    c == '&' || c == '<' || c == '>' || c == '"' || c == '\''
  }

  /** The replacement HTML_ESCAPE's block returns for one matched character; other characters stay as they are. */
  function EscapeChar(c: char): (r: string)
    ensures IsEscaped(c) <==> r != [c]
  {
    match c
    case '&' => "&amp;"
    case '<' => "&lt;"
    case '>' => "&gt;"
    case '"' => "&quot;"
    case '\'' => "&apos;"
    case _ => [c]
  }

  /**
   * HTML_ESCAPE: every '&', '<', '>', '"' and "'" replaced by its entity, every other character kept.
   * The result never contains '<', '>', '"' or "'", and text without the five characters comes back unchanged.
   */
  function HtmlEscape(s: string): (r: string)
    ensures |s| <= |r|
    ensures (forall i :: 0 <= i < |s| ==> !IsEscaped(s[i])) ==> r == s
    ensures forall i :: 0 <= i < |r| ==> r[i] != '<' && r[i] != '>' && r[i] != '"' && r[i] != '\''
  {
    if s == [] then [] else EscapeChar(s[0]) + HtmlEscape(s[1..])
  }

  /** Reads the five entities back as the characters they stand for; every other character is kept. */
  function HtmlUnescape(r: string): (s: string)
    decreases |r|
  {
    if r == [] then []
    else if StartsWith(r, "&amp;") then "&" + HtmlUnescape(r[5..])
    else if StartsWith(r, "&lt;") then "<" + HtmlUnescape(r[4..])
    else if StartsWith(r, "&gt;") then ">" + HtmlUnescape(r[4..])
    else if StartsWith(r, "&quot;") then "\"" + HtmlUnescape(r[6..])
    else if StartsWith(r, "&apos;") then "'" + HtmlUnescape(r[6..])
    else [r[0]] + HtmlUnescape(r[1..])
  }

  /** Decoding reads one escaped character back and then carries on with what follows it. */
  lemma UnescapeOneChar(c: char, rest: string)
    ensures HtmlUnescape(EscapeChar(c) + rest) == [c] + HtmlUnescape(rest)
  {
    var e := EscapeChar(c);
    var r := e + rest;
    assert r[..|e|] == e && r[|e|..] == rest;
    if !IsEscaped(c) {
      assert r[0] == c && r[1..] == rest;
      assert !StartsWith(r, "&amp;") && !StartsWith(r, "&lt;") && !StartsWith(r, "&gt;");
      assert !StartsWith(r, "&quot;") && !StartsWith(r, "&apos;");
    } else if c == '<' {
      assert !StartsWith(r, "&amp;") by { assert r[1] == 'l'; }
    } else if c == '>' {
      assert !StartsWith(r, "&amp;") by { assert r[1] == 'g'; }
      assert !StartsWith(r, "&lt;") by { assert r[1] == 'g'; }
    } else if c == '"' {
      assert !StartsWith(r, "&amp;") && !StartsWith(r, "&lt;") && !StartsWith(r, "&gt;") by { assert r[1] == 'q'; }
    } else if c == '\'' {
      assert !StartsWith(r, "&amp;") by { assert r[2] == 'p'; }
      assert !StartsWith(r, "&lt;") && !StartsWith(r, "&gt;") && !StartsWith(r, "&quot;") by { assert r[1] == 'a'; }
    }
  }

  /** Escaping loses nothing: decoding the escaped text gives back the original. */
  lemma {:induction false} UnescapeOfEscape(s: string)
    ensures HtmlUnescape(HtmlEscape(s)) == s
  {
    if s != [] {
      UnescapeOneChar(s[0], HtmlEscape(s[1..]));
      UnescapeOfEscape(s[1..]);
      assert s == [s[0]] + s[1..];
    }
  }

  /** Escaping works character by character, so it distributes over concatenation. */
  lemma {:induction false} EscapeAppend(a: string, b: string)
    ensures HtmlEscape(a + b) == HtmlEscape(a) + HtmlEscape(b)
  {
    if a != [] {
      var ab := a + b;
      assert ab[0] == a[0] && ab[1..] == a[1..] + b;
      assert HtmlEscape(ab) == EscapeChar(a[0]) + HtmlEscape(a[1..] + b);
      EscapeAppend(a[1..], b);
      assert HtmlEscape(a) == EscapeChar(a[0]) + HtmlEscape(a[1..]);
    } else {
      assert a + b == b;
    }
  }
}
