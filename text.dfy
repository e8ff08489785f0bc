/**
  String primitives that the handler and the validators use: Python's
  `str.isspace`, `str.strip`, `str.split()` (on runs of whitespace),
  `str.split(sep)`, `sep.join(xs)` and `str.replace(old, new)`.
 */
module Text {

  /** Python's `str.isspace` (also the `\s` class of `re` on str patterns):
      the ASCII controls 0x09-0x0D and 0x1C-0x1F, the space, and the Unicode
      separators that Python counts as whitespace. */
  predicate IsSpace(c: char) {
    || ('\t' <= c <= '\r')
    || ('\U{1C}' <= c <= '\U{1F}')
    || c == ' '
    || c == '\U{85}'
    || c == '\U{A0}'
    || c == '\U{1680}'
    || ('\U{2000}' <= c <= '\U{200A}')
    || c == '\U{2028}'
    || c == '\U{2029}'
    || c == '\U{202F}'
    || c == '\U{205F}'
    || c == '\U{3000}'
  }

  predicate AllSpace(s: string) {
    forall i :: 0 <= i < |s| ==> IsSpace(s[i])
  }

  predicate NoSpace(s: string) {
    forall i :: 0 <= i < |s| ==> !IsSpace(s[i])
  }

  /** `s.lstrip()`: drops the leading whitespace. */
  function TrimLeft(s: string): (r: string)
    ensures |r| <= |s| && r == s[|s| - |r|..]
    ensures AllSpace(s[..|s| - |r|])
    ensures r == [] || !IsSpace(r[0])
  {
    if s != [] && IsSpace(s[0]) then
      var r := TrimLeft(s[1..]);
      TrimmedOneMore(s, r);
      r
    else s
  }

  /** A suffix of `s[1..]` after whitespace is a suffix of `s` after
      whitespace, when `s` starts with whitespace. */
  lemma TrimmedOneMore(s: string, r: string)
    requires s != [] && IsSpace(s[0])
    requires |r| <= |s| - 1 && r == s[1..][|s| - 1 - |r|..] && AllSpace(s[1..][..|s| - 1 - |r|])
    ensures r == s[|s| - |r|..] && AllSpace(s[..|s| - |r|])
  {
    assert s[..|s| - |r|] == [s[0]] + s[1..][..|s| - 1 - |r|];
  }

  /** `s.rstrip()`: drops the trailing whitespace. */
  function TrimRight(s: string): (r: string)
    ensures |r| <= |s| && r == s[..|r|]
    ensures AllSpace(s[|r|..])
    ensures r == [] || !IsSpace(r[|r| - 1])
  {
    if s != [] && IsSpace(s[|s| - 1]) then
      var r := TrimRight(s[..|s| - 1]);
      TrimmedOneLess(s, r);
      r
    else s
  }

  /** A prefix of `s` without its last character, followed by whitespace,
      is a prefix of `s` followed by whitespace, when `s` ends in whitespace. */
  lemma TrimmedOneLess(s: string, r: string)
    requires s != [] && IsSpace(s[|s| - 1])
    requires |r| <= |s| - 1 && r == s[..|s| - 1][..|r|] && AllSpace(s[..|s| - 1][|r|..])
    ensures r == s[..|r|] && AllSpace(s[|r|..])
  {
    assert s[|r|..] == s[..|s| - 1][|r|..] + [s[|s| - 1]];
  }

  /** `r` is the slice of `s` that starts at `i`, and everything before and
      after it in `s` is whitespace. */
  predicate IsTrimmedSlice(s: string, r: string, i: int) {
    0 <= i <= |s| - |r| && r == s[i..i + |r|] && AllSpace(s[..i]) && AllSpace(s[i + |r|..])
  }

  /** `s.strip()`: the slice of `s` left after cutting whitespace, and only
      whitespace, off either side, with no whitespace left at its ends. */
  function Strip(s: string): (r: string)
    ensures exists i :: IsTrimmedSlice(s, r, i)
    ensures r == [] || (!IsSpace(r[0]) && !IsSpace(r[|r| - 1]))
  {
    TrimmedSliceOf(s, TrimLeft(s), TrimRight(TrimLeft(s)));
    TrimRight(TrimLeft(s))
  }

  /** A whitespace-free suffix `t` of `s`, then a whitespace-free prefix
      `r` of `t`, make `r` a trimmed slice of `s`. */
  lemma TrimmedSliceOf(s: string, t: string, r: string)
    requires |t| <= |s| && t == s[|s| - |t|..] && AllSpace(s[..|s| - |t|])
    requires |r| <= |t| && r == t[..|r|] && AllSpace(t[|r|..])
    ensures IsTrimmedSlice(s, r, |s| - |t|)
  {
    var i := |s| - |t|;
    SliceOfSuffix(s, i, r);
    DropOfSuffix(s, i, |r|);
  }

  lemma SliceOfSuffix(s: string, i: nat, r: string)
    requires i <= |s| && |r| <= |s| - i && r == s[i..][..|r|]
    ensures r == s[i..i + |r|]
  {
  }

  lemma DropOfSuffix(s: string, i: nat, k: nat)
    requires i + k <= |s|
    ensures s[i..][k..] == s[i + k..]
  {
  }

  /** The longest prefix of `s` without whitespace. */
  function Word(s: string): (w: string)
    ensures |w| <= |s| && w == s[..|w|] && NoSpace(w)
    ensures |w| == |s| || IsSpace(s[|w|])
  {
    if s == [] || IsSpace(s[0]) then [] else [s[0]] + Word(s[1..])
  }

  /** The characters of `s` that are not whitespace, in order. */
  function NonSpace(s: string): string
    decreases |s|
  {
    if s == [] then [] else (if IsSpace(s[0]) then [] else [s[0]]) + NonSpace(s[1..])
  }

  /** The strings of `ws` one after the other. */
  function Concat(ws: seq<string>): string
    decreases |ws|
  {
    if ws == [] then [] else ws[0] + Concat(ws[1..])
  }

  lemma {:induction false} NonSpaceOfWord(w: string, rest: string)
    requires NoSpace(w)
    ensures NonSpace(w + rest) == w + NonSpace(rest)
    decreases |w|
  {
    if w != [] {
      assert (w + rest)[0] == w[0] && !IsSpace(w[0]);
      assert (w + rest)[1..] == w[1..] + rest;
      assert NoSpace(w[1..]);
      NonSpaceOfWord(w[1..], rest);
      assert NonSpace(w + rest) == [w[0]] + NonSpace(w[1..] + rest);
      assert [w[0]] + (w[1..] + NonSpace(rest)) == w + NonSpace(rest);
    } else {
      assert w + rest == rest;
    }
  }

  /** `s.split()` with no argument: the maximal runs of non-whitespace, in
      order. One after the other, the words hold exactly the non-whitespace
      characters of `s`: nothing but whitespace is dropped. */
  function Words(s: string): (ws: seq<string>)
    ensures forall k :: 0 <= k < |ws| ==> ws[k] != [] && NoSpace(ws[k])
    ensures Concat(ws) == NonSpace(s)
    decreases |s|
  {
    if s == [] then []
    else if IsSpace(s[0]) then Words(s[1..])
    else
      var w := Word(s);
      var rest := Words(s[|w|..]);
      assert s == w + s[|w|..];
      NonSpaceOfWord(w, s[|w|..]);
      assert ([w] + rest)[1..] == rest;
      [w] + rest
  }

  /** `sep.join(xs)`. */
  function Join(xs: seq<string>, sep: string): string {
    if |xs| == 0 then []
    else if |xs| == 1 then xs[0]
    else xs[0] + sep + Join(xs[1..], sep)
  }

  /** `s.split(sep)` for a non-empty separator: the pieces between the
      non-overlapping occurrences of `sep`, found from left to right. */
  function SplitOn(s: string, sep: string): (pieces: seq<string>)
    requires sep != []
    ensures |pieces| >= 1
    decreases |s|
  {
    if |s| < |sep| then [s]
    else if s[..|sep|] == sep then [[]] + SplitOn(s[|sep|..], sep)
    else
      var rest := SplitOn(s[1..], sep);
      [[s[0]] + rest[0]] + rest[1..]
  }

  /** `s.replace(pat, rep)` for a non-empty pattern: every non-overlapping
      occurrence of `pat`, found from left to right, becomes `rep`. */
  function ReplaceAll(s: string, pat: string, rep: string): string
    requires pat != []
    decreases |s|
  {
    if |s| < |pat| then s
    else if s[..|pat|] == pat then rep + ReplaceAll(s[|pat|..], pat, rep)
    else [s[0]] + ReplaceAll(s[1..], pat, rep)
  }

  /** `pat` stands in `s` at position `i`. */
  predicate MatchAt(pat: string, s: string, i: nat) {
    i + |pat| <= |s| && s[i..i + |pat|] == pat
  }

  /** `pat in s`. */
  predicate Occurs(pat: string, s: string) {
    exists i: nat | i <= |s| :: MatchAt(pat, s, i)
  }

  /** The number of times `c` occurs in `s`. */
  function Count(c: char, s: string): nat {
    multiset(s)[c]
  }

  // ---------------------------------------------------------------------
  // Replace, split and join

  lemma JoinCons(c: char, xs: seq<string>, sep: string)
    requires |xs| >= 1
    ensures Join([[c] + xs[0]] + xs[1..], sep) == [c] + Join(xs, sep)
  {
    var ys := [[c] + xs[0]] + xs[1..];
    if |xs| > 1 {
      assert ys[1..] == xs[1..];
    }
  }

  lemma JoinEmptyHead(xs: seq<string>, sep: string)
    requires |xs| >= 1
    ensures Join([[]] + xs, sep) == sep + Join(xs, sep)
  {
    assert ([[]] + xs)[1..] == xs;
  }

  /** `s.replace(pat, rep) == rep.join(s.split(pat))`: the replacement keeps every
      piece between two occurrences of the pattern and puts `rep` where each
      occurrence was. */
  lemma {:induction false} ReplaceAllIsJoinOfSplit(s: string, pat: string, rep: string)
    requires pat != []
    ensures ReplaceAll(s, pat, rep) == Join(SplitOn(s, pat), rep)
    decreases |s|
  {
    if |s| < |pat| {
    } else if s[..|pat|] == pat {
      ReplaceAllIsJoinOfSplit(s[|pat|..], pat, rep);
      JoinEmptyHead(SplitOn(s[|pat|..], pat), rep);
    } else {
      ReplaceAllIsJoinOfSplit(s[1..], pat, rep);
      JoinCons(s[0], SplitOn(s[1..], pat), rep);
    }
  }

  /** Joining the pieces of a split with the separator gives back the string. */
  lemma {:induction false} JoinOfSplit(s: string, sep: string)
    requires sep != []
    ensures Join(SplitOn(s, sep), sep) == s
    decreases |s|
  {
    if |s| < |sep| {
    } else if s[..|sep|] == sep {
      var rest := SplitOn(s[|sep|..], sep);
      assert SplitOn(s, sep) == [[]] + rest;
      JoinOfSplit(s[|sep|..], sep);
      JoinEmptyHead(rest, sep);
      assert s == sep + s[|sep|..];
    } else {
      var rest := SplitOn(s[1..], sep);
      assert SplitOn(s, sep) == [[s[0]] + rest[0]] + rest[1..];
      JoinOfSplit(s[1..], sep);
      JoinCons(s[0], rest, sep);
      assert s == [s[0]] + s[1..];
    }
  }

  lemma {:induction false} SplitOnAbsentChar(w: string, c: char)
    requires c !in w
    ensures SplitOn(w, [c]) == [w]
    decreases |w|
  {
    if |w| >= 1 {
      assert w[..1] == [w[0]];
      SplitOnAbsentChar(w[1..], c);
      assert [w[0]] + w[1..] == w;
    }
  }

  lemma {:induction false} SplitOnAtChar(w: string, c: char, t: string)
    requires c !in w
    ensures SplitOn(w + [c] + t, [c]) == [w] + SplitOn(t, [c])
    decreases |w|
  {
    var s := w + [c] + t;
    if w == [] {
      assert s[..1] == [c];
      assert s[1..] == t;
    } else {
      assert s[..1] == [w[0]];
      assert s[1..] == w[1..] + [c] + t;
      SplitOnAtChar(w[1..], c, t);
      assert [w[0]] + w[1..] == w;
    }
  }

  /** Splitting on a one-character separator undoes the join, provided no
      element holds that character (`','.join(xs).split(',') == xs`). */
  lemma {:induction false} SplitOfJoin(xs: seq<string>, c: char)
    requires |xs| >= 1
    requires forall k :: 0 <= k < |xs| ==> c !in xs[k]
    ensures SplitOn(Join(xs, [c]), [c]) == xs
    decreases |xs|
  {
    if |xs| == 1 {
      SplitOnAbsentChar(xs[0], c);
    } else {
      SplitOfJoin(xs[1..], c);
      SplitOnAtChar(xs[0], c, Join(xs[1..], [c]));
      assert [xs[0]] + xs[1..] == xs;
    }
  }

  lemma OccursInTail(pat: string, s: string)
    requires s != []
    ensures Occurs(pat, s[1..]) ==> Occurs(pat, s)
  {
    if Occurs(pat, s[1..]) {
      var t := s[1..];
      var i: nat :| i <= |t| && MatchAt(pat, t, i);
      assert i + |pat| <= |t| && t[i..i + |pat|] == pat;
      assert s[i + 1..i + 1 + |pat|] == s[1..][i..i + |pat|];
      assert MatchAt(pat, s, i + 1);
    }
  }

  /** A string without the pattern is left as it is by the replacement. */
  lemma {:induction false} ReplaceAllAbsent(s: string, pat: string, rep: string)
    requires pat != []
    requires !Occurs(pat, s)
    ensures ReplaceAll(s, pat, rep) == s
    decreases |s|
  {
    if |s| >= |pat| {
      assert s[0..0 + |pat|] == s[..|pat|];
      assert !MatchAt(pat, s, 0);
      OccursInTail(pat, s);
      ReplaceAllAbsent(s[1..], pat, rep);
      assert [s[0]] + s[1..] == s;
    }
  }

  /** A replacement whose replacement text holds a character exactly as often
      as the pattern does leaves the number of that character unchanged. */
  lemma {:induction false} ReplaceAllKeepsCount(s: string, pat: string, rep: string, c: char)
    requires pat != []
    requires Count(c, pat) == Count(c, rep)
    ensures Count(c, ReplaceAll(s, pat, rep)) == Count(c, s)
    decreases |s|
  {
    if |s| < |pat| {
    } else if s[..|pat|] == pat {
      ReplaceAllKeepsCount(s[|pat|..], pat, rep, c);
      assert s == s[..|pat|] + s[|pat|..];
    } else {
      ReplaceAllKeepsCount(s[1..], pat, rep, c);
      assert s == [s[0]] + s[1..];
    }
  }

  // ---------------------------------------------------------------------
  // Whitespace splitting

  lemma {:induction false} WordOfSpacePadded(t: string, u: string)
    requires u == [] || IsSpace(u[0])
    ensures Word(t + u) == Word(t)
    decreases |t|
  {
    if t != [] {
      assert (t + u)[0] == t[0];
      assert (t + u)[1..] == t[1..] + u;
      if !IsSpace(t[0]) {
        WordOfSpacePadded(t[1..], u);
      }
    } else {
      assert t + u == u;
    }
  }

  lemma {:induction false} WordsOfAllSpace(s: string)
    requires AllSpace(s)
    ensures Words(s) == []
    decreases |s|
  {
    if s != [] {
      WordsOfAllSpace(s[1..]);
    }
  }

  lemma {:induction false} WordsTrailingSpace(t: string, u: string)
    requires AllSpace(u)
    ensures Words(t + u) == Words(t)
    decreases |t|
  {
    if t == [] {
      assert t + u == u;
      WordsOfAllSpace(u);
    } else {
      var s := t + u;
      assert s[0] == t[0];
      if IsSpace(t[0]) {
        assert s[1..] == t[1..] + u;
        WordsTrailingSpace(t[1..], u);
      } else {
        WordOfSpacePadded(t, u);
        var w := Word(t);
        assert s[|w|..] == t[|w|..] + u;
        WordsTrailingSpace(t[|w|..], u);
      }
    }
  }

  lemma {:induction false} WordsLeadingSpace(s: string)
    ensures Words(TrimLeft(s)) == Words(s)
    decreases |s|
  {
    if s != [] && IsSpace(s[0]) {
      WordsLeadingSpace(s[1..]);
    }
  }

  /** `s.strip().split() == s.split()`. */
  lemma WordsOfStrip(s: string)
    ensures Words(Strip(s)) == Words(s)
  {
    var t := TrimLeft(s);
    var r := TrimRight(t);
    assert Words(t) == Words(r) by {
      assert t == r + t[|r|..];
      WordsTrailingSpace(r, t[|r|..]);
    }
    assert Words(t) == Words(s) by { WordsLeadingSpace(s); }
  }

  lemma {:induction false} WordOfWordThenSpace(w: string, rest: string)
    requires NoSpace(w)
    requires rest == [] || IsSpace(rest[0])
    ensures Word(w + rest) == w
    decreases |w|
  {
    if w == [] {
      assert w + rest == rest;
    } else {
      assert (w + rest)[1..] == w[1..] + rest;
      WordOfWordThenSpace(w[1..], rest);
      assert [w[0]] + w[1..] == w;
    }
  }

  /** A non-empty run without whitespace is one word. */
  lemma WordsOfWord(w: string)
    requires w != [] && NoSpace(w)
    ensures Words(w) == [w]
  {
    WordOfWordThenSpace(w, []);
    assert w + [] == w;
    assert w[|w|..] == [];
  }

  /** Whitespace always ends a word: the words on either side of a
      whitespace character are the words of the whole, so together with
      `WordsOfWord` and `Words("") == []` this fixes `str.split()` on every
      string, whatever whitespace (tabs, doubled spaces) separates the words. */
  lemma {:induction false} WordsAtSpace(s: string, c: char, t: string)
    requires IsSpace(c)
    ensures Words(s + [c] + t) == Words(s) + Words(t)
    decreases |s|, 1
  {
    if s == [] {
      SpaceThenRest(c, t);
    } else if IsSpace(s[0]) {
      WordsAtSpaceAfterSpace(s, c, t);
    } else {
      WordsAtSpaceAfterWord(s, c, t);
    }
  }

  /** `WordsAtSpace` for an `s` that starts with whitespace. */
  lemma {:induction false} WordsAtSpaceAfterSpace(s: string, c: char, t: string)
    requires IsSpace(c)
    requires s != [] && IsSpace(s[0])
    ensures Words(s + [c] + t) == Words(s) + Words(t)
    decreases |s|, 0
  {
    SpaceBeforeSpace(s, c, t);
    WordsAtSpace(s[1..], c, t);
  }

  /** `WordsAtSpace` for an `s` that starts with a word. */
  lemma {:induction false} WordsAtSpaceAfterWord(s: string, c: char, t: string)
    requires IsSpace(c)
    requires s != [] && !IsSpace(s[0])
    ensures Words(s + [c] + t) == Words(s) + Words(t)
    decreases |s|, 0
  {
    var w, v := WordBeforeSpace(s, c, t);
    WordsAtSpace(v, c, t);
    ConsAppend(w, Words(v), Words(t));
  }

  lemma ConsAppend<T>(x: T, a: seq<T>, b: seq<T>)
    ensures [x] + (a + b) == ([x] + a) + b
  {
  }

  /** The base case of `WordsAtSpace`: leading whitespace is skipped. */
  lemma SpaceThenRest(c: char, t: string)
    requires IsSpace(c)
    ensures Words([] + [c] + t) == Words(t)
  {
    var u := [] + [c] + t;
    assert u[0] == c && u[1..] == t;
  }

  /** A step of `WordsAtSpace` past a leading whitespace character of `s`. */
  lemma SpaceBeforeSpace(s: string, c: char, t: string)
    requires s != [] && IsSpace(s[0])
    ensures Words(s + [c] + t) == Words(s[1..] + [c] + t)
    ensures Words(s) == Words(s[1..])
  {
    var u := s + [c] + t;
    assert u[0] == s[0] && u[1..] == s[1..] + [c] + t;
  }

  /** A step of `WordsAtSpace` past the first word `w` of `s`, leaving `v`. */
  lemma WordBeforeSpace(s: string, c: char, t: string) returns (w: string, v: string)
    requires IsSpace(c)
    requires s != [] && !IsSpace(s[0])
    ensures |v| < |s|
    ensures Words(s + [c] + t) == [w] + Words(v + [c] + t)
    ensures Words(s) == [w] + Words(v)
  {
    w := Word(s);
    v := s[|w|..];
    assert s == w + v;
    WordsAfterWord(s + [c] + t, w, v + [c] + t);
    if v == [] {
      WordsOfWord(w);
    } else {
      WordsAfterWord(s, w, v);
    }
  }

  /** A word followed by whitespace is the first word. */
  lemma WordsAfterWord(u: string, w: string, rest: string)
    requires u == w + rest && w != [] && NoSpace(w)
    requires rest != [] && IsSpace(rest[0])
    ensures Words(u) == [w] + Words(rest)
  {
    WordOfWordThenSpace(w, rest);
    assert u[0] == w[0];
    assert u[|w|..] == rest;
  }

  /** Splitting words joined by single spaces gives the words back. */
  lemma {:induction false} WordsOfJoin(ws: seq<string>)
    requires forall k :: 0 <= k < |ws| ==> ws[k] != [] && NoSpace(ws[k])
    ensures Words(Join(ws, " ")) == ws
    decreases |ws|
  {
    if |ws| == 1 {
      var s := ws[0];
      WordOfWordThenSpace(s, []);
      assert s + [] == s;
      assert s[|s|..] == [];
    } else if |ws| > 1 {
      var rest := " " + Join(ws[1..], " ");
      var s := ws[0] + rest;
      assert Join(ws, " ") == s;
      assert s[0] == ws[0][0] && !IsSpace(s[0]);
      assert rest[0] == ' ';
      WordOfWordThenSpace(ws[0], rest);
      assert s[|ws[0]|..] == rest;
      assert rest[1..] == Join(ws[1..], " ");
      WordsOfJoin(ws[1..]);
      assert [ws[0]] + ws[1..] == ws;
    }
  }
}
