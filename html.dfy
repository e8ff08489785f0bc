/**
  Python's `html.escape(s)` (with its default `quote=True`) and the decoding
  of the five character references it produces, which undoes it.
 */
module Html {

  /** The reference `html.escape` writes for one character. Escaping character
      by character is the same as the library's chain of replacements, since
      that chain replaces `&` first. */
  function EscapeChar(c: char): string {
    match c
    case '&' => "&amp;"
    case '<' => "&lt;"
    case '>' => "&gt;"
    case '"' => "&quot;"
    case '\'' => "&#x27;"
    case _ => [c]
  }

  /** `html.escape(s)`: the result holds no raw `<`, `>`, `"` or `'`, so it can
      neither open a tag nor close an attribute value. */
  function Escape(s: string): (r: string)
    ensures '<' !in r && '>' !in r && '"' !in r && '\'' !in r
    ensures |r| >= |s|
  {
    if s == [] then []
    else
      EscapeCharInert(s[0]);
      EscapeChar(s[0]) + Escape(s[1..])
  }

  lemma EscapeCharInert(c: char)
    ensures '<' !in EscapeChar(c) && '>' !in EscapeChar(c) && '"' !in EscapeChar(c) && '\'' !in EscapeChar(c)
    ensures |EscapeChar(c)| >= 1
  {
  }

  predicate StartsWith(s: string, p: string) {
    |p| <= |s| && s[..|p|] == p
  }

  /** The length of the reference `Escape` writes that `s` begins with, and the
      character it stands for; length 0 when `s` begins with none of them. */
  function LeadingReference(s: string): (r: (nat, char))
    ensures r.0 <= |s|
  {
    if StartsWith(s, "&amp;") then (5, '&')
    else if StartsWith(s, "&lt;") then (4, '<')
    else if StartsWith(s, "&gt;") then (4, '>')
    else if StartsWith(s, "&quot;") then (6, '"')
    else if StartsWith(s, "&#x27;") then (6, '\'')
    else (0, ' ')
  }

  /** Replaces each of the five references `Escape` writes by its character;
      every other character, including an `&` that starts none of them, is kept. */
  function Unescape(s: string): string
    decreases |s|
  {
    if s == [] then []
    else
      var (n, c) := LeadingReference(s);
      if n > 0 then [c] + Unescape(s[n..]) else [s[0]] + Unescape(s[1..])
  }

  lemma LeadingReferenceOfEscapeChar(c: char, t: string)
    ensures LeadingReference(EscapeChar(c) + t)
         == if EscapeChar(c) == [c] then (0, ' ') else (|EscapeChar(c)|, c)
  {
    var e := EscapeChar(c);
    var s := e + t;
    assert s[..|e|] == e;
    if e == [c] {
      assert s[0] == c && c != '&';
      assert !StartsWith(s, "&amp;") by { assert "&amp;"[0] == '&'; }
      assert !StartsWith(s, "&lt;") by { assert "&lt;"[0] == '&'; }
      assert !StartsWith(s, "&gt;") by { assert "&gt;"[0] == '&'; }
      assert !StartsWith(s, "&quot;") by { assert "&quot;"[0] == '&'; }
      assert !StartsWith(s, "&#x27;") by { assert "&#x27;"[0] == '&'; }
    } else {
      assert s[1] == e[1];
    }
  }

  lemma UnescapeAfterEscapeChar(c: char, t: string)
    ensures Unescape(EscapeChar(c) + t) == [c] + Unescape(t)
  {
    var e := EscapeChar(c);
    var s := e + t;
    LeadingReferenceOfEscapeChar(c, t);
    assert s[|e|..] == t;
  }

  /** Escaping loses nothing: decoding the escaped text gives back the input. */
  lemma {:induction false} UnescapeEscape(s: string)
    ensures Unescape(Escape(s)) == s
    decreases |s|
  {
    if s != [] {
      UnescapeAfterEscapeChar(s[0], Escape(s[1..]));
      UnescapeEscape(s[1..]);
      assert [s[0]] + s[1..] == s;
    }
  }
}
