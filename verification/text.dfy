/** Words and whitespace of a text, over any notion of whitespace. */
module Text {

  ghost predicate NoSpace(s: string, space: char -> bool) {
    forall i :: 0 <= i < |s| ==> !space(s[i])
  }

  /** What Python's `strip` and `split` treat as whitespace. */
  predicate PySpace(c: char) {
    || '\t' <= c <= '\r' || '\U{1C}' <= c <= ' ' || c == '\U{85}' || c == '\U{A0}' || c == '\U{1680}'
    || '\U{2000}' <= c <= '\U{200A}' || c == '\U{2028}' || c == '\U{2029}' || c == '\U{202F}' || c == '\U{205F}'
    || c == '\U{3000}'
  }

  /** Removes the whitespace at both ends. */
  function Strip(s: string, space: char -> bool): (r: string)
    ensures |r| <= |s|
    ensures r != [] ==> !space(r[0]) && !space(r[|r| - 1])
    decreases |s|
  {
    if s == [] then []
    else if space(s[0]) then Strip(s[1..], space)
    else if space(s[|s| - 1]) then Strip(s[..|s| - 1], space)
    else s
  }

  ghost predicate AllSpace(s: string, space: char -> bool) {
    forall i :: 0 <= i < |s| ==> space(s[i])
  }

  /** Only whitespace goes, and only from the two ends. */
  lemma {:induction false} StripCutsEnds(s: string, space: char -> bool) returns (before: string, after: string)
    ensures s == before + Strip(s, space) + after && AllSpace(before, space) && AllSpace(after, space)
    decreases |s|
  {
    if s == [] {
      before, after := [], [];
    } else if space(s[0]) {
      before, after := StripCutsEnds(s[1..], space);
      before := [s[0]] + before;
    } else if space(s[|s| - 1]) {
      before, after := StripCutsEnds(s[..|s| - 1], space);
      after := after + [s[|s| - 1]];
    } else {
      before, after := [], [];
    }
  }

  /** From where to where the text is that stripping leaves. */
  lemma {:induction false} StripPlaces(s: string, space: char -> bool) returns (a: nat, b: nat)
    ensures a <= b <= |s| && Strip(s, space) == s[a..b]
    ensures forall i :: 0 <= i < a || b <= i < |s| ==> space(s[i])
    ensures a < b ==> !space(s[a]) && !space(s[b - 1])
    decreases |s|
  {
    a, b := 0, |s|;
    if s != [] && space(s[0]) {
      a, b := StripPlaces(s[1..], space);
      assert s[1..][a..b] == s[a + 1..b + 1];
      a, b := a + 1, b + 1;
    } else if s != [] && space(s[|s| - 1]) {
      var front := s[..|s| - 1];
      a, b := StripPlaces(front, space);
      assert front[a..b] == s[a..b];
    }
  }

  /** Splits `s` at whitespace, `word` being the word that is still open. */
  function Scan(s: string, word: string, space: char -> bool): seq<string>
    decreases |s|
  {
    if s == [] then Close(word)
    else if space(s[0]) then Close(word) + Scan(s[1..], [], space)
    else Scan(s[1..], word + [s[0]], space)
  }

  function Close(word: string): seq<string> {
    if word == [] then [] else [word]
  }

  /** The maximal runs of non-whitespace characters, in order. */
  function Words(s: string, space: char -> bool): seq<string> {
    Scan(s, [], space)
  }

  /** The words separated by single blanks. */
  function Join(ws: seq<string>): string {
    if ws == [] then "" else if |ws| == 1 then ws[0] else ws[0] + " " + Join(ws[1..])
  }

  ghost predicate AreWords(ws: seq<string>, space: char -> bool) {
    forall k :: 0 <= k < |ws| ==> ws[k] != [] && NoSpace(ws[k], space)
  }

  lemma {:induction false} ScanGivesWords(s: string, word: string, space: char -> bool)
    requires NoSpace(word, space)
    ensures AreWords(Scan(s, word, space), space)
    decreases |s|
  {
    if s != [] {
      if space(s[0]) {
        ScanGivesWords(s[1..], [], space);
      } else {
        ScanGivesWords(s[1..], word + [s[0]], space);
      }
    }
  }

  lemma {:induction false} ScanWord(w: string, rest: string, word: string, space: char -> bool)
    requires NoSpace(w, space)
    ensures Scan(w + rest, word, space) == Scan(rest, word + w, space)
    decreases |w|
  {
    if w == [] {
      assert w + rest == rest && word + w == word;
    } else {
      assert (w + rest)[1..] == w[1..] + rest;
      ScanWord(w[1..], rest, word + [w[0]], space);
      assert word + [w[0]] + w[1..] == word + w;
    }
  }

  lemma {:induction false} ScanTrailingSpace(s: string, c: char, word: string, space: char -> bool)
    requires space(c)
    ensures Scan(s + [c], word, space) == Scan(s, word, space)
    decreases |s|
  {
    if s == [] {
      assert (s + [c])[1..] == [];
    } else {
      assert (s + [c])[1..] == s[1..] + [c];
      ScanTrailingSpace(s[1..], c, if space(s[0]) then [] else word + [s[0]], space);
    }
  }

  /** Stripping does not change the words. */
  lemma {:induction false} WordsOfStrip(s: string, space: char -> bool)
    ensures Words(Strip(s, space), space) == Words(s, space)
    decreases |s|
  {
    if s != [] {
      if space(s[0]) {
        WordsOfStrip(s[1..], space);
      } else if space(s[|s| - 1]) {
        assert s == s[..|s| - 1] + [s[|s| - 1]];
        ScanTrailingSpace(s[..|s| - 1], s[|s| - 1], [], space);
        WordsOfStrip(s[..|s| - 1], space);
      }
    }
  }

  /** Splitting undoes joining. */
  lemma {:induction false} WordsOfJoin(ws: seq<string>, space: char -> bool)
    requires AreWords(ws, space) && space(' ')
    ensures Words(Join(ws), space) == ws
    decreases |ws|
  {
    if |ws| == 1 {
      assert ws[0] + [] == ws[0];
      ScanWord(ws[0], [], [], space);
      assert [] + ws[0] == ws[0];
    } else if |ws| > 1 {
      var rest := " " + Join(ws[1..]);
      assert ws[0] + " " + Join(ws[1..]) == ws[0] + rest;
      ScanWord(ws[0], rest, [], space);
      assert [] + ws[0] == ws[0];
      assert rest[1..] == Join(ws[1..]);
      WordsOfJoin(ws[1..], space);
      assert ws == [ws[0]] + ws[1..];
    }
  }
}
