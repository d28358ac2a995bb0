/**
 * The string operations the Python code relies on: `str.lower()`, `str.strip()`,
 * the substring test `needle in hay`, `any(w in hay for w in words)`, and the
 * character classes `\w` and `\s` of Python's `re` module.
 */
module Text {

  /** `str.lower()` on one character: the ASCII capitals are mapped, everything else is kept. */
  function LowerChar(c: char): char {
    if 'A' <= c <= 'Z' then (c as int + 32) as char else c
  }

  function Lower(s: string): (r: string)
    ensures |r| == |s|
    ensures forall i :: 0 <= i < |s| ==> r[i] == LowerChar(s[i])
  {
    seq(|s|, i requires 0 <= i < |s| => LowerChar(s[i]))
  }

  lemma LowerConcat(a: string, b: string)
    ensures Lower(a + b) == Lower(a) + Lower(b)
  {
  }

  lemma LowerIdempotent(s: string)
    ensures Lower(Lower(s)) == Lower(s)
  {
  }

  /** `needle` occurs in `hay` starting at index `i`. */
  predicate OccursAt(hay: string, needle: string, i: int) {
    0 <= i && i + |needle| <= |hay| && hay[i..i + |needle|] == needle
  }

  /** Python's `needle in hay`: a left-to-right scan for an occurrence. */
  predicate Contains(hay: string, needle: string)
    decreases |hay|
  {
    |needle| <= |hay| && (hay[..|needle|] == needle || Contains(hay[1..], needle))
  }

  /** The scan finds an occurrence exactly when one exists. */
  lemma {:induction false} ContainsIff(hay: string, needle: string)
    ensures Contains(hay, needle) <==> exists i :: OccursAt(hay, needle, i)
    decreases |hay|
  {
    if |needle| <= |hay| && hay[..|needle|] != needle {
      ContainsIff(hay[1..], needle);
      if exists i :: OccursAt(hay, needle, i) {
        var i :| OccursAt(hay, needle, i);
        assert i != 0;
        assert OccursAt(hay[1..], needle, i - 1) by {
          assert hay[1..][i - 1..i - 1 + |needle|] == hay[i..i + |needle|];
        }
      }
      if exists j :: OccursAt(hay[1..], needle, j) {
        var j :| OccursAt(hay[1..], needle, j);
        assert hay[1..][j..j + |needle|] == hay[j + 1..j + 1 + |needle|];
        assert OccursAt(hay, needle, j + 1);
      }
    } else if |needle| <= |hay| {
      assert OccursAt(hay, needle, 0);
    }
  }

  lemma OccursContains(hay: string, needle: string, i: int)
    requires OccursAt(hay, needle, i)
    ensures Contains(hay, needle)
  {
    ContainsIff(hay, needle);
  }

  /** Text placed around a string keeps every substring of it. */
  lemma ContainsWithin(hay: string, needle: string, before: string, after: string)
    requires Contains(hay, needle)
    ensures Contains(before + hay + after, needle)
  {
    ContainsIff(hay, needle);
    var i :| OccursAt(hay, needle, i);
    var whole := before + hay + after;
    assert whole[|before| + i..|before| + i + |needle|] == hay[i..i + |needle|];
    OccursContains(whole, needle, |before| + i);
  }

  lemma ContainsInfix(before: string, needle: string, after: string)
    ensures Contains(before + needle + after, needle)
  {
    var whole := before + needle + after;
    assert whole[|before|..|before| + |needle|] == needle;
    OccursContains(whole, needle, |before|);
  }

  /** Python's `any(w in hay for w in words)`. */
  predicate ContainsAny(hay: string, words: seq<string>) {
    exists w :: w in words && Contains(hay, w)
  }

  lemma ContainsAnyWithin(hay: string, words: seq<string>, before: string, after: string)
    requires ContainsAny(hay, words)
    ensures ContainsAny(before + hay + after, words)
  {
    var w :| w in words && Contains(hay, w);
    ContainsWithin(hay, w, before, after);
  }

  predicate EndsWith(s: string, suffix: string) {
    |suffix| <= |s| && s[|s| - |suffix|..] == suffix
  }

  lemma EndsWithContains(s: string, suffix: string)
    requires EndsWith(s, suffix)
    ensures Contains(s, suffix)
  {
    assert s[|s| - |suffix|..|s|] == s[|s| - |suffix|..];
    OccursContains(s, suffix, |s| - |suffix|);
  }

  lemma EndsWithConcat(s: string, suffix: string)
    ensures EndsWith(s + suffix, suffix)
  {
    assert (s + suffix)[|s|..] == suffix;
  }

  /** Text put in front keeps an ending. */
  lemma EndsWithPrefixed(prefix: string, s: string, suffix: string)
    requires EndsWith(s, suffix)
    ensures EndsWith(prefix + s, suffix)
  {
    assert (prefix + s)[|prefix + s| - |suffix|..] == s[|s| - |suffix|..];
  }

  /** The characters for which Python's `str.isspace()` holds, which are also what `\s` matches. */
  predicate IsSpace(c: char) {
    || c == ' ' || '\t' <= c <= '\r' || '\U{1C}' <= c <= '\U{1F}'
    || c == '\U{85}' || c == '\U{A0}' || c == '\U{1680}' || '\U{2000}' <= c <= '\U{200A}'
    || c == '\U{2028}' || c == '\U{2029}' || c == '\U{202F}' || c == '\U{205F}' || c == '\U{3000}'
  }

  /** What `\w` matches, restricted to ASCII: letters, digits and the underscore. */
  predicate IsWordChar(c: char) {
    'a' <= c <= 'z' || 'A' <= c <= 'Z' || '0' <= c <= '9' || c == '_'
  }

  function StripStart(s: string): (r: string)
    ensures |r| <= |s| && r == s[|s| - |r|..]
    ensures r == [] || !IsSpace(r[0])
    ensures forall i :: 0 <= i < |s| - |r| ==> IsSpace(s[i])
  {
    if |s| > 0 && IsSpace(s[0]) then StripStart(s[1..]) else s
  }

  function StripEnd(s: string): (r: string)
    ensures |r| <= |s| && r == s[..|r|]
    ensures r == [] || !IsSpace(r[|r| - 1])
    ensures forall i :: |r| <= i < |s| ==> IsSpace(s[i])
  {
    if |s| > 0 && IsSpace(s[|s| - 1]) then StripEnd(s[..|s| - 1]) else s
  }

  /** `str.strip()`: leading and trailing whitespace removed. */
  function Strip(s: string): string {
    StripEnd(StripStart(s))
  }

  /** Whitespace only, lower-cased and stripped, leaves nothing. */
  lemma BlankStripsToEmpty(s: string)
    requires forall i :: 0 <= i < |s| ==> IsSpace(s[i])
    ensures Strip(Lower(s)) == []
  {
    var l := Lower(s);
    assert forall i :: 0 <= i < |l| ==> IsSpace(l[i]);
    assert |StripStart(l)| == 0;
  }

  /** An ending that neither starts nor ends with whitespace survives stripping. */
  lemma StripKeepsEnding(x: string, w: string)
    requires 0 < |w| && EndsWith(x, w) && !IsSpace(w[0]) && !IsSpace(w[|w| - 1])
    ensures EndsWith(Strip(x), w)
  {
    StripStartKeepsEnding(x, w);
    var start := StripStart(x);
    assert start[|start| - 1] == w[|w| - 1];
  }

  lemma {:induction false} StripStartKeepsEnding(x: string, w: string)
    requires 0 < |w| && EndsWith(x, w) && !IsSpace(w[0])
    ensures EndsWith(StripStart(x), w)
    decreases |x|
  {
    if |x| > 0 && IsSpace(x[0]) {
      assert |x| > |w| by {
        assert x[|x| - |w|] == w[0];
      }
      assert x[1..][|x| - 1 - |w|..] == x[|x| - |w|..];
      StripStartKeepsEnding(x[1..], w);
    }
  }

  /** Text that neither starts nor ends with whitespace is left as it is. */
  lemma StripUnchanged(s: string)
    requires s == [] || (!IsSpace(s[0]) && !IsSpace(s[|s| - 1]))
    ensures Strip(s) == s
  {
  }

  /** Stripping keeps a contiguous piece of the text, so whatever occurs in the result occurs in the text. */
  lemma ContainsFromStrip(x: string, w: string)
    requires Contains(Strip(x), w)
    ensures Contains(x, w)
  {
    var a := StripIsSlice(x);
    ContainsFromPiece(x, Strip(x), a, w);
  }

  /** A word in a piece of a text is in the text. */
  lemma ContainsFromPiece(x: string, piece: string, a: int, w: string)
    requires 0 <= a && a + |piece| <= |x| && piece == x[a..a + |piece|]
    requires Contains(piece, w)
    ensures Contains(x, w)
  {
    ContainsIff(piece, w);
    var i :| OccursAt(piece, w, i);
    OccursInSlice(x, piece, a, w, i);
    OccursContains(x, w, a + i);
  }

  /** Stripping keeps a contiguous piece of the text. */
  lemma StripIsSlice(x: string) returns (a: int)
    ensures 0 <= a && a + |Strip(x)| <= |x| && Strip(x) == x[a..a + |Strip(x)|]
  {
    var start := StripStart(x);
    a := |x| - |start|;
    assert Strip(x) == start[..|Strip(x)|];
  }

  /** An occurrence in a piece of a text is an occurrence in the text, shifted by where the piece starts. */
  lemma OccursInSlice(x: string, piece: string, a: int, w: string, i: int)
    requires 0 <= a && a + |piece| <= |x| && piece == x[a..a + |piece|]
    requires OccursAt(piece, w, i)
    ensures OccursAt(x, w, a + i)
  {
    forall k | 0 <= k < |w| ensures x[a + i + k] == w[k] {
      assert piece[i..i + |w|][k] == piece[i + k];
    }
  }

  lemma AbsentEach(hay: string, words: seq<string>)
    requires forall k :: 0 <= k < |words| ==> !Contains(hay, words[k])
    ensures !ContainsAny(hay, words)
  {
  }

  /** A word absent from a text is absent from the text stripped of its padding. */
  lemma AbsentAfterStrip(x: string, words: seq<string>)
    requires !ContainsAny(x, words)
    ensures !ContainsAny(Strip(x), words)
  {
    forall w | w in words ensures !Contains(Strip(x), w) {
      if Contains(Strip(x), w) {
        ContainsFromStrip(x, w);
      }
    }
  }

  predicate AllSpace(s: string) {
    forall i :: 0 <= i < |s| ==> IsSpace(s[i])
  }

  /** Lower-casing maps whitespace to whitespace. */
  lemma LowerAllSpace(s: string)
    requires AllSpace(s)
    ensures AllSpace(Lower(s))
  {
    var l := Lower(s);
    forall i | 0 <= i < |l| ensures IsSpace(l[i]) {
      assert l[i] == LowerChar(s[i]);
    }
  }

  /** Leading whitespace is removed whatever follows it. */
  lemma {:induction false} StripStartPadded(ws: string, s: string)
    requires AllSpace(ws)
    ensures StripStart(ws + s) == StripStart(s)
    decreases |ws|
  {
    if |ws| > 0 {
      assert (ws + s)[1..] == ws[1..] + s;
      StripStartPadded(ws[1..], s);
    } else {
      assert ws + s == s;
    }
  }

  /** Trailing whitespace is removed whatever precedes it. */
  lemma {:induction false} StripEndPadded(s: string, ws: string)
    requires AllSpace(ws)
    ensures StripEnd(s + ws) == StripEnd(s)
    decreases |ws|
  {
    if |ws| > 0 {
      var x := s + ws;
      assert x[..|x| - 1] == s + ws[..|ws| - 1];
      StripEndPadded(s, ws[..|ws| - 1]);
    } else {
      assert s + ws == s;
    }
  }

  /** Trailing whitespace does not change the stripped text. */
  lemma {:induction false} StripTrailing(s: string, ws: string)
    requires AllSpace(ws)
    ensures Strip(s + ws) == Strip(s)
    decreases |s|
  {
    if |s| == 0 {
      assert s + ws == ws;
      assert StripStart(ws) == [];
    } else if IsSpace(s[0]) {
      assert (s + ws)[1..] == s[1..] + ws;
      assert StripStart(s + ws) == StripStart(s[1..] + ws);
      StripTrailing(s[1..], ws);
    } else {
      assert StripStart(s + ws) == s + ws;
      StripEndPadded(s, ws);
    }
  }

  /** `str.strip()` of whitespace, text and whitespace is the stripped text. */
  lemma StripPadded(ws: string, s: string, ws2: string)
    requires AllSpace(ws) && AllSpace(ws2)
    ensures Strip(ws + s + ws2) == Strip(s)
  {
    assert ws + s + ws2 == ws + (s + ws2);
    StripStartPadded(ws, s + ws2);
    StripTrailing(s, ws2);
  }
}
