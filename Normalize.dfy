/**
 * The text normaliser `escape` of cwlgenerator.py: line breaks and tabs become
 * spaces, the ends are stripped and every run of whitespace collapses into
 * one space. It is written as the same chain of Python string operations,
 * `" ".join(s.replace(...)...strip().split())`, and then shown to be the
 * joining of the whitespace-separated words of its input.
 */
module Normalize {
  import opened Strings

  /**
   * Python's `s.replace(pat, rep)`: left to right, non-overlapping. A
   * replacement no longer than the pattern never lengthens the text, and a
   * one-character pattern that the replacement does not contain is gone
   * from the result.
   */
  function Replace(s: string, pat: string, rep: string): (r: string)
    requires pat != []
    ensures |rep| <= |pat| ==> |r| <= |s|
    ensures |pat| == 1 && pat[0] !in rep ==> pat[0] !in r
    decreases |s|
  {
    if s == [] then []
    else if IsPrefix(pat, s) then rep + Replace(s[|pat|..], pat, rep)
    else [s[0]] + Replace(s[1..], pat, rep)
  }

  /** Python's `s.lstrip()`: the suffix of `s` left after its leading whitespace. */
  function LStrip(s: string): (r: string)
    ensures IsSuffix(r, s) && AllSpace(s[..|s| - |r|])
    ensures r == [] || !IsSpace(r[0])
    decreases |s|
  {
    if s != [] && IsSpace(s[0]) then LStrip(s[1..]) else s
  }

  /** Python's `s.rstrip()`: the prefix of `s` left before its trailing whitespace. */
  function RStrip(s: string): (r: string)
    ensures IsPrefix(r, s) && AllSpace(s[|r|..])
    ensures r == [] || !IsSpace(r[|r| - 1])
    decreases |s|
  {
    if s != [] && IsSpace(s[|s| - 1]) then RStrip(s[..|s| - 1]) else s
  }

  /** Python's `s.strip()`: empty exactly for all-whitespace text, otherwise with no whitespace at either end. */
  function Strip(s: string): (r: string)
    ensures r == [] <==> AllSpace(s)
    ensures r != [] ==> !IsSpace(r[0]) && !IsSpace(r[|r| - 1])
  {
    StripEnds(s);
    RStrip(LStrip(s))
  }

  lemma StripEnds(s: string)
    ensures RStrip(LStrip(s)) == [] <==> AllSpace(s)
    ensures RStrip(LStrip(s)) != [] ==> !IsSpace(RStrip(LStrip(s))[0])
  {
    var left := LStrip(s);
    LStripEmpty(s);
    RStripEmpty(left);
    if left != [] {
      assert RStrip(left) != [] ==> RStrip(left)[0] == left[0];
    }
  }

  lemma {:induction false} LStripEmpty(s: string)
    ensures LStrip(s) == [] <==> AllSpace(s)
    decreases |s|
  {
    if s != [] {
      LStripEmpty(s[1..]);
      assert AllSpace(s) <==> IsSpace(s[0]) && AllSpace(s[1..]) by {
        assert forall i :: 0 <= i < |s| - 1 ==> s[1..][i] == s[i + 1];
      }
    }
  }

  lemma {:induction false} RStripEmpty(s: string)
    ensures RStrip(s) == [] <==> AllSpace(s)
    decreases |s|
  {
    if s != [] {
      var n := |s| - 1;
      RStripEmpty(s[..n]);
      assert AllSpace(s) <==> IsSpace(s[n]) && AllSpace(s[..n]) by {
        assert forall i :: 0 <= i < n ==> s[..n][i] == s[i];
      }
    }
  }

  /** Non-empty words without whitespace. */
  predicate ValidWords(ws: seq<string>) {
    forall k :: 0 <= k < |ws| ==> ws[k] != [] && NoSpace(ws[k])
  }

  /**
   * Python's `s.split()`: the maximal runs of non-whitespace characters,
   * in order. Every word is non-empty and holds no whitespace.
   */
  function Words(s: string): (r: seq<string>)
    ensures ValidWords(r)
    ensures s != [] && !IsSpace(s[0]) ==> |r| > 0 && r[0][0] == s[0]
    decreases |s|
  {
    if s == [] then []
    else
      var rest := Words(s[1..]);
      if IsSpace(s[0]) then rest
      else if |s| > 1 && !IsSpace(s[1]) then [[s[0]] + rest[0]] + rest[1..]
      else [[s[0]]] + rest
  }

  /** cwlgenerator.py's `escape`: its result is always normalised text. */
  function Escape(s: string): (r: string)
    ensures Normalized(r)
  {
    var spaced := Replace(Replace(Replace(Replace(s, "\r\n", " "), "\r", " "), "\n", " "), "\t", " ");
    var words := Words(Strip(spaced));
    JoinNormalized(words);
    Join(" ", words)
  }

  /**
   * Single-line, single-spaced text: the only whitespace character is the
   * plain space, never at either end and never twice in a row.
   */
  predicate Normalized(t: string) {
    (forall i :: 0 <= i < |t| ==> t[i] == ' ' || !IsSpace(t[i]))
    && (t != [] ==> t[0] != ' ' && t[|t| - 1] != ' ')
    && (forall i :: 0 <= i < |t| - 1 ==> !(t[i] == ' ' && t[i + 1] == ' '))
  }

  // ---------------------------------------------------------------------
  // The replacements and the strip do not change the words.

  lemma {:induction false} WordsAfterSpaces(ws: string, t: string)
    requires AllSpace(ws)
    ensures Words(ws + t) == Words(t)
    decreases |ws|
  {
    if ws != [] {
      assert (ws + t)[0] == ws[0] && IsSpace(ws[0]);
      assert (ws + t)[1..] == ws[1..] + t;
      assert AllSpace(ws[1..]) by {
        assert forall i :: 0 <= i < |ws[1..]| ==> ws[1..][i] == ws[i + 1];
      }
      WordsAfterSpaces(ws[1..], t);
    } else {
      assert ws + t == t;
    }
  }

  lemma {:induction false} WordsBeforeSpace(t: string, c: char)
    requires IsSpace(c)
    ensures Words(t + [c]) == Words(t)
    decreases |t|
  {
    if t != [] {
      assert (t + [c])[1..] == t[1..] + [c];
      WordsBeforeSpace(t[1..], c);
    }
  }

  /** Replacing whitespace by a space keeps the text empty or not, and keeps its first character's kind. */
  lemma {:induction false} ReplaceHead(s: string, pat: string)
    requires pat != [] && AllSpace(pat)
    ensures var r := Replace(s, pat, " ");
      (r == []) == (s == [])
      && (s != [] ==> (IsSpace(r[0]) <==> IsSpace(s[0])) && (!IsSpace(s[0]) ==> r[0] == s[0]))
  {
  }

  lemma {:induction false} WordsReplace(s: string, pat: string)
    requires pat != [] && AllSpace(pat)
    ensures Words(Replace(s, pat, " ")) == Words(s)
    decreases |s|
  {
    if s == [] {
    } else if IsPrefix(pat, s) {
      var tail := Replace(s[|pat|..], pat, " ");
      assert (" " + tail)[1..] == tail;
      WordsReplace(s[|pat|..], pat);
      assert s == pat + s[|pat|..];
      WordsAfterSpaces(pat, s[|pat|..]);
    } else {
      var tail := Replace(s[1..], pat, " ");
      assert ([s[0]] + tail)[1..] == tail;
      WordsReplace(s[1..], pat);
      ReplaceHead(s[1..], pat);
    }
  }

  lemma {:induction false} WordsLStrip(s: string)
    ensures Words(LStrip(s)) == Words(s)
    decreases |s|
  {
    if s != [] && IsSpace(s[0]) {
      WordsLStrip(s[1..]);
    }
  }

  lemma {:induction false} WordsRStrip(s: string)
    ensures Words(RStrip(s)) == Words(s)
    decreases |s|
  {
    if s != [] && IsSpace(s[|s| - 1]) {
      WordsRStrip(s[..|s| - 1]);
      assert s == s[..|s| - 1] + [s[|s| - 1]];
      WordsBeforeSpace(s[..|s| - 1], s[|s| - 1]);
    }
  }

  /** `escape` joins the whitespace-separated words of its input with single spaces. */
  lemma EscapeIsJoinedWords(s: string)
    ensures Escape(s) == Join(" ", Words(s))
  {
    var s1 := Replace(s, "\r\n", " ");
    var s2 := Replace(s1, "\r", " ");
    var s3 := Replace(s2, "\n", " ");
    var s4 := Replace(s3, "\t", " ");
    WordsReplace(s, "\r\n");
    WordsReplace(s1, "\r");
    WordsReplace(s2, "\n");
    WordsReplace(s3, "\t");
    WordsLStrip(s4);
    WordsRStrip(LStrip(s4));
  }

  // ---------------------------------------------------------------------
  // Joining words and splitting them again.

  lemma {:induction false} WordsAfterWord(w: string, t: string)
    requires w != [] && NoSpace(w)
    requires t == [] || IsSpace(t[0])
    ensures Words(w + t) == [w] + Words(t)
    decreases |w|
  {
    assert (w + t)[0] == w[0];
    assert (w + t)[1..] == w[1..] + t;
    if |w| == 1 {
      var x := w + t;
      assert t != [] ==> x[1] == t[0];
      assert !(|x| > 1 && !IsSpace(x[1]));
      assert x[1..] == t;
      assert [x[0]] == w;
      assert Words(x) == [[x[0]]] + Words(x[1..]);
    } else {
      assert (w + t)[1] == w[1];
      assert NoSpace(w[1..]) by {
        assert forall i :: 0 <= i < |w[1..]| ==> w[1..][i] == w[i + 1];
      }
      WordsAfterWord(w[1..], t);
      assert [w[0]] + w[1..] == w;
    }
  }

  /** Splitting words joined by single spaces gives back the words. */
  lemma {:induction false} WordsOfJoin(ws: seq<string>)
    requires ValidWords(ws)
    ensures Words(Join(" ", ws)) == ws
    decreases |ws|
  {
    if |ws| == 1 {
      WordsAfterWord(ws[0], []);
      assert ws[0] + [] == ws[0];
    } else if |ws| > 1 {
      var rest := Join(" ", ws[1..]);
      assert ws[0] + " " + rest == ws[0] + (" " + rest);
      WordsAfterWord(ws[0], " " + rest);
      assert (" " + rest)[1..] == rest;
      WordsOfJoin(ws[1..]);
      assert ws == [ws[0]] + ws[1..];
    }
  }

  /** Words joined by single spaces form normalised text. */
  lemma {:induction false} JoinNormalized(ws: seq<string>)
    requires ValidWords(ws)
    ensures Normalized(Join(" ", ws))
    ensures |ws| > 0 ==> var j := Join(" ", ws); j != [] && j[0] == ws[0][0] && !IsSpace(j[|j| - 1])
    decreases |ws|
  {
    if |ws| == 1 {
      assert !IsSpace(ws[0][|ws[0]| - 1]);
    } else if |ws| > 1 {
      var w, rest := ws[0], Join(" ", ws[1..]);
      JoinNormalized(ws[1..]);
      var j := w + " " + rest;
      assert forall i :: 0 <= i < |w| ==> j[i] == w[i] && !IsSpace(w[i]);
      assert j[|w|] == ' ';
      assert forall i :: |w| < i < |j| ==> j[i] == rest[i - |w| - 1];
      assert !IsSpace(rest[0]);
      assert j[|j| - 1] == rest[|rest| - 1];
    }
  }

  lemma {:induction false} WordsEmpty(s: string)
    ensures Words(s) == [] <==> AllSpace(s)
    decreases |s|
  {
    if s != [] {
      WordsEmpty(s[1..]);
      if AllSpace(s[1..]) && IsSpace(s[0]) {
        assert forall i :: 0 < i < |s| ==> s[i] == s[1..][i - 1];
      }
    }
  }

  // ---------------------------------------------------------------------
  // The promised properties of `escape`.

  /** `escape` leaves no carriage return, line feed or tab: all are whitespace other than a space. */
  lemma EscapeNoBreaks(s: string)
    ensures '\r' !in Escape(s) && '\n' !in Escape(s) && '\t' !in Escape(s)
  {
  }

  /** Applying `escape` to its own output returns it unchanged. */
  lemma EscapeIdempotent(s: string)
    ensures Escape(Escape(s)) == Escape(s)
  {
    EscapeIsJoinedWords(s);
    EscapeIsJoinedWords(Escape(s));
    WordsOfJoin(Words(s));
  }

  /** `escape` gives "" exactly for empty or all-whitespace input. */
  lemma EscapeEmpty(s: string)
    ensures Escape(s) == "" <==> AllSpace(s)
  {
    EscapeIsJoinedWords(s);
    WordsEmpty(s);
    JoinNormalized(Words(s));
  }

  /** Index of the first whitespace character, or the length when there is none. */
  function FirstSpace(t: string): (n: nat)
    ensures n <= |t| && NoSpace(t[..n]) && (n < |t| ==> IsSpace(t[n]))
    decreases |t|
  {
    if t == [] || IsSpace(t[0]) then 0
    else
      var m := FirstSpace(t[1..]);
      assert t[..m + 1] == [t[0]] + t[1..][..m];
      1 + m
  }

  /** Text with a space at `n` is what comes before it, the space, and what comes after. */
  lemma SplitAtSpace(t: string, n: nat)
    requires n < |t| && t[n] == ' '
    ensures t == t[..n] + " " + t[n + 1..]
  {
  }

  /** What follows the first space of normalised text is normalised too. */
  lemma NormalizedRest(t: string, n: nat)
    requires Normalized(t) && n == FirstSpace(t) && n < |t|
    ensures 0 < n < |t| - 1 && t[n] == ' ' && Normalized(t[n + 1..])
  {
    assert t[n] == ' ';
    var rest := t[n + 1..];
    forall i | 0 <= i < |rest|
      ensures rest[i] == ' ' || !IsSpace(rest[i])
    {
      assert rest[i] == t[n + 1 + i];
    }
    assert rest[0] == t[n + 1] && rest[|rest| - 1] == t[|t| - 1];
    forall i | 0 <= i < |rest| - 1
      ensures !(rest[i] == ' ' && rest[i + 1] == ' ')
    {
      assert rest[i] == t[n + 1 + i] && rest[i + 1] == t[n + 1 + i + 1];
    }
  }

  lemma {:induction false} NormalizedIsFixed(t: string)
    requires Normalized(t)
    ensures Join(" ", Words(t)) == t
    decreases |t|
  {
    if t != [] {
      var n := FirstSpace(t);
      if n == |t| {
        assert t[..n] == t;
        WordsAfterWord(t, []);
        assert t + [] == t;
      } else {
        var w, rest := t[..n], t[n + 1..];
        NormalizedRest(t, n);
        SplitAtSpace(t, n);
        assert t == w + t[n..];
        WordsAfterWord(w, t[n..]);
        assert t[n..][1..] == rest;
        NormalizedIsFixed(rest);
        var ws := Words(rest);
        assert ws != [];
        assert ([w] + ws)[1..] == ws;
      }
    }
  }

  /** Text is left unchanged by `escape` exactly when it is already normalised. */
  lemma EscapeFixedPoint(t: string)
    ensures Escape(t) == t <==> Normalized(t)
  {
    if Normalized(t) {
      EscapeIsJoinedWords(t);
      NormalizedIsFixed(t);
    }
  }

  lemma WordThenGap(x: char, gap: string, t: string)
    requires !IsSpace(x) && gap != [] && AllSpace(gap)
    ensures Words([x] + gap + t) == [[x]] + Words(t)
  {
    assert [x] + gap + t == [x] + (gap + t);
    WordsAfterWord([x], gap + t);
    WordsAfterSpaces(gap, t);
  }

  /** Four one-letter words separated by a CR LF pair, a tab and a double space. */
  lemma WordsSample(a: char, b: char, c: char, d: char)
    requires !IsSpace(a) && !IsSpace(b) && !IsSpace(c) && !IsSpace(d)
    ensures Words([a] + "\r\n" + ([b] + "\t" + ([c] + "  " + [d]))) == [[a], [b], [c], [d]]
  {
    WordThenGap(a, "\r\n", [b] + "\t" + ([c] + "  " + [d]));
    WordThenGap(b, "\t", [c] + "  " + [d]);
    WordThenGap(c, "  ", [d]);
    WordsAfterWord([d], []);
    assert [d] + [] == [d];
  }

  /**
   * Normalising "a\r\nb\tc  d" yields "a b c d".
   * The example text is a parameter pinned by the `requires`, not a literal
   * in the statement, so that its characters are unfolded only inside the
   * small lemmas that need them.
   */
  lemma EscapeExample(s: string)
    requires s == "a\r\nb\tc  d"
    ensures Escape(s) == "a b c d"
  {
    WordsSample('a', 'b', 'c', 'd');
    assert s == ['a'] + "\r\n" + (['b'] + "\t" + (['c'] + "  " + ['d']));
    EscapeIsJoinedWords(s);
    JoinLetters('a', 'b', 'c', 'd');
  }

  lemma JoinLetters(a: char, b: char, c: char, d: char)
    ensures Join(" ", [[a], [b], [c], [d]]) == [a, ' ', b, ' ', c, ' ', d]
  {
    assert Join(" ", [[c], [d]]) == [c, ' ', d];
    assert Join(" ", [[b], [c], [d]]) == [b, ' ', c, ' ', d];
  }
}
