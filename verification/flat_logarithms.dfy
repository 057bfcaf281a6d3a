/** Rewriting flat logarithms such as log_2(8) into LaTeX, and the whole rewriting of flat mathematics. */
module FlatLogarithms {
  import opened Common
  import opened Rewriting

  /** The first of the two characters from `i` on, or the end. */
  function FindEither(s: string, i: nat, a: char, b: char): (e: nat)
    requires i <= |s|
    ensures i <= e <= |s| && (e < |s| ==> s[e] == a || s[e] == b)
    decreases |s| - i
  {
    if i == |s| || s[i] == a || s[i] == b then i else FindEither(s, i + 1, a, b)
  }

  /** Where the base that starts at `i` ends: digits, or something in braces. */
  function BaseEnd(s: string, i: nat): (e: Option<nat>)
    requires i <= |s|
    ensures e.Some? ==> i < e.value <= |s|
  {
    if i == |s| then None
    else if IsDigit(s[i]) then Some(DigitsEnd(s, i + 1))
    else if s[i] != '{' then None
    else
      var close := FindEither(s, i + 1, '}', '}');
      if close == |s| || close == i + 1 then None else Some(close + 1)
  }

  predicate LogAt(s: string, p: nat) {
    p + 3 <= |s| && s[p] == 'l' && s[p + 1] == 'o' && s[p + 2] == 'g' && (p > 0 ==> !IsWord(s[p - 1]))
  }

  function BaseStart(s: string, p: nat): (b: nat)
    requires p + 3 <= |s|
    ensures p + 3 <= b <= p + 4 && b <= |s|
  {
    if p + 3 < |s| && s[p + 3] == '_' then p + 4 else p + 3
  }

  /** What the pattern matches at position `p`: the opening parenthesis is the separator. */
  function CallAt(s: string, p: nat): (place: Option<Place>)
    requires p <= |s|
    ensures place.Some? ==> p == place.value.p && Fits(s, place.value)
  {
    if !LogAt(s, p) then None
    else
      var m := BaseEnd(s, BaseStart(s, p));
      if m.None? || m.value == |s| || s[m.value] != '(' then None
      else
        var q := FindEither(s, m.value + 1, '(', ')');
        if q == |s| || s[q] != ')' then None else Some(Place(p, m.value, q + 1))
  }

  ghost predicate NoneOf(s: string, a: nat, b: nat, c: char, d: char) {
    a <= b <= |s| && forall i :: a <= i < b ==> s[i] != c && s[i] != d
  }

  /** s[i..e] is a base: digits, or braces around something without a closing brace. */
  ghost predicate IsBase(s: string, i: nat, e: nat) {
    || DigitRun(s, i, e)
    || (i + 2 < e <= |s| && s[i] == '{' && s[e - 1] == '}' && NoneOf(s, i + 1, e - 1, '}', '}'))
  }

  /** "log", perhaps an underscore, a base, and an argument in parentheses without parentheses inside. */
  ghost predicate IsCall(s: string, place: Place) {
    var Place(p, m, q) := place;
    && LogAt(s, p) && Fits(s, place) && s[m] == '(' && s[q - 1] == ')' && m + 1 < q && NoneOf(s, m + 1, q - 1, '(', ')')
    && exists b :: (b == p + 3 || (b == p + 4 && s[p + 3] == '_')) && IsBase(s, b, m)
  }

  lemma {:induction false} FindEitherIs(s: string, i: nat, a: char, b: char)
    requires i <= |s|
    ensures NoneOf(s, i, FindEither(s, i, a, b), a, b)
    decreases |s| - i
  {
    if i < |s| && s[i] != a && s[i] != b {
      FindEitherIs(s, i + 1, a, b);
    }
  }

  lemma {:induction false} FindEitherAt(s: string, i: nat, e: nat, a: char, b: char)
    requires NoneOf(s, i, e, a, b) && e < |s| && (s[e] == a || s[e] == b)
    ensures FindEither(s, i, a, b) == e
    decreases e - i
  {
    if i < e {
      FindEitherAt(s, i + 1, e, a, b);
    }
  }

  lemma BaseIff(s: string, i: nat, e: nat)
    requires i <= |s| && e < |s| && s[e] == '('
    ensures BaseEnd(s, i) == Some(e) <==> IsBase(s, i, e)
  {
    if BaseEnd(s, i) == Some(e) {
      if IsDigit(s[i]) {
        DigitsEndIs(s, i + 1);
      } else {
        FindEitherIs(s, i + 1, '}', '}');
      }
    }
    if IsBase(s, i, e) {
      if DigitRun(s, i, e) {
        DigitsEndAt(s, i + 1, e);
      } else {
        FindEitherAt(s, i + 1, e - 1, '}', '}');
      }
    }
  }

  /** The pattern matches exactly the calls. */
  lemma CallIff(s: string, place: Place)
    requires place.p <= |s|
    ensures CallAt(s, place.p) == Some(place) <==> IsCall(s, place)
  {
    var Place(p, m, q) := place;
    if CallAt(s, p) == Some(place) {
      BaseIff(s, BaseStart(s, p), m);
      FindEitherIs(s, m + 1, '(', ')');
    }
    if IsCall(s, place) {
      var b :| (b == p + 3 || (b == p + 4 && s[p + 3] == '_')) && IsBase(s, b, m);
      assert b == BaseStart(s, p);
      BaseIff(s, b, m);
      FindEitherAt(s, m + 1, q - 1, '(', ')');
    }
  }

  // ---- The rewriting. ----

  function WithoutBraces(s: string): string {
    if s == [] then [] else (if IsBrace(s[0]) then [] else [s[0]]) + WithoutBraces(s[1..])
  }

  /** The base of a call, from the text before its parenthesis. */
  function BaseOf(head: string): string {
    if |head| <= 3 then [] else if head[3] == '_' then head[4..] else head[3..]
  }

  const OPEN: string := "$\\log_{"
  const MIDDLE: string := "}("
  const CLOSE: string := "$"

  /** `head` is the text before the parenthesis, `tail` the argument with the closing one. */
  function Log(head: string, tail: string): (text: string)
    ensures text != [] && text[0] == '$'
  {
    OPEN + WithoutBraces(BaseOf(head)) + MIDDLE + tail + CLOSE
  }

  /** The matches from position `at` on, each search starting behind the match before. */
  function Calls(s: string, at: nat): seq<Place>
    requires at <= |s|
    decreases |s| - at
  {
    if at == |s| then []
    else
      match CallAt(s, at)
      case None => Calls(s, at + 1)
      case Some(place) => [place] + Calls(s, place.q)
  }

  lemma {:induction false} CallsInOrder(s: string, at: nat)
    requires at <= |s|
    ensures InOrder(s, at, Calls(s, at))
    decreases |s| - at
  {
    if at < |s| {
      match CallAt(s, at)
      case None =>
        CallsInOrder(s, at + 1);
        SpliceLater(s, at, Calls(s, at + 1), Log);
      case Some(place) =>
        CallsInOrder(s, place.q);
        SpliceHere(s, place, Calls(s, place.q), Log);
    }
  }

  function FixFlatLogarithms(text: string): string {
    CallsInOrder(text, 0);
    Splice(text, 0, Calls(text, 0), Log)
  }

  /** Only calls are rewritten... */
  lemma {:induction false} OnlyCallsAreRewritten(s: string, at: nat, place: Place)
    requires at <= |s| && place in Calls(s, at)
    ensures IsCall(s, place)
    decreases |s| - at
  {
    match CallAt(s, at)
    case None => OnlyCallsAreRewritten(s, at + 1, place);
    case Some(first) =>
      if place == first {
        CallIff(s, place);
      } else {
        OnlyCallsAreRewritten(s, first.q, place);
      }
  }

  ghost predicate Covers(places: seq<Place>, p: nat) {
    exists i :: 0 <= i < |places| && places[i].p <= p < places[i].q
  }

  /** ... and every call is rewritten, or begins inside one that is. */
  lemma {:induction false} EveryCallIsCovered(s: string, at: nat, place: Place)
    requires at <= place.p && IsCall(s, place)
    ensures Covers(Calls(s, at), place.p)
    decreases |s| - at
  {
    match CallAt(s, at)
    case None =>
      CallIff(s, place);
      EveryCallIsCovered(s, at + 1, place);
    case Some(first) =>
      var calls := Calls(s, at);
      assert calls[0] == first;
      if place.p >= first.q {
        EveryCallIsCovered(s, first.q, place);
        var later := Calls(s, first.q);
        var i :| 0 <= i < |later| && later[i].p <= place.p < later[i].q;
        assert calls[i + 1] == later[i];
      }
  }

  /** A text stays as it is exactly when it contains no call. */
  lemma UnchangedIffNoCall(s: string)
    ensures FixFlatLogarithms(s) == s <==> forall place :: !IsCall(s, place)
  {
    var calls := Calls(s, 0);
    CallsInOrder(s, 0);
    if calls == [] {
      forall place
        ensures !IsCall(s, place)
      {
        if IsCall(s, place) {
          EveryCallIsCovered(s, 0, place);
        }
      }
    } else {
      OnlyCallsAreRewritten(s, 0, calls[0]);
      var out := FixFlatLogarithms(s);
      assert out == s[0..calls[0].p] + SpliceHead(s, calls[0], calls[1..], Log);
      assert out[calls[0].p] == SpliceHead(s, calls[0], calls[1..], Log)[0] == '$';
    }
  }

  predicate IsBrace(c: char) {
    c == '{' || c == '}'
  }

  /** The characters of `clean` are those of `base` at the places `idx`, none of them a brace. */
  ghost predicate CharsAt(clean: string, base: string, idx: seq<nat>) {
    |idx| == |clean| && forall k :: 0 <= k < |idx| ==> idx[k] < |base| && base[idx[k]] == clean[k] && !IsBrace(clean[k])
  }

  ghost predicate AllListed(base: string, idx: seq<nat>) {
    forall i: nat :: i < |base| && !IsBrace(base[i]) ==> i in idx
  }

  ghost predicate Ascending(idx: seq<nat>) {
    forall j, k :: 0 <= j < k < |idx| ==> idx[j] < idx[k]
  }

  /** `clean` is `base` without its braces: all other characters, in order. `idx` are their places. */
  ghost predicate Unbraced(clean: string, base: string, idx: seq<nat>) {
    CharsAt(clean, base, idx) && Ascending(idx) && AllListed(base, idx)
  }

  lemma {:induction false} WithoutBracesIs(base: string) returns (idx: seq<nat>)
    ensures Unbraced(WithoutBraces(base), base, idx)
    decreases |base|
  {
    if base == [] {
      idx := [];
    } else {
      var rest := WithoutBracesIs(base[1..]);
      idx := LaterUnbraced(base, WithoutBraces(base), WithoutBraces(base[1..]), rest);
    }
  }

  /** The places one further on, with a first place in front of them if `n` is 1. */
  function Shifted(n: nat, rest: seq<nat>): (idx: seq<nat>)
    requires n <= 1
    ensures |idx| == n + |rest| && forall k :: 0 <= k < |idx| ==> idx[k] == if k < n then 0 else rest[k - n] + 1
  {
    seq(n + |rest|, k requires 0 <= k < n + |rest| => if k < n then 0 else rest[k - n] + 1)
  }

  lemma LaterUnbraced(base: string, clean: string, tail: string, rest: seq<nat>) returns (idx: seq<nat>)
    requires base != [] && Unbraced(tail, base[1..], rest)
    requires clean == (if IsBrace(base[0]) then [] else [base[0]]) + tail
    ensures Unbraced(clean, base, idx)
  {
    var n := if IsBrace(base[0]) then 0 else 1;
    idx := Shifted(n, rest);
    CharsKept(base, clean, tail, rest, n);
    PlacesKept(base, rest, n);
  }

  lemma CharsKept(base: string, clean: string, tail: string, rest: seq<nat>, n: nat)
    requires base != [] && CharsAt(tail, base[1..], rest)
    requires n == (if IsBrace(base[0]) then 0 else 1) && clean == base[..n] + tail
    ensures CharsAt(clean, base, Shifted(n, rest))
  {
    var idx := Shifted(n, rest);
    forall k: nat | k < |idx|
      ensures idx[k] < |base| && base[idx[k]] == clean[k] && !IsBrace(clean[k])
    {
      if k >= n {
        assert clean[k] == tail[k - n] && base[1..][rest[k - n]] == base[rest[k - n] + 1];
      }
    }
  }

  lemma PlacesKept(base: string, rest: seq<nat>, n: nat)
    requires base != [] && AllListed(base[1..], rest) && n == if IsBrace(base[0]) then 0 else 1
    ensures AllListed(base, Shifted(n, rest))
  {
    var idx := Shifted(n, rest);
    forall i: nat | i < |base| && !IsBrace(base[i])
      ensures i in idx
    {
      if i == 0 {
        assert idx[0] == 0;
      } else {
        assert base[1..][i - 1] == base[i] && i - 1 in rest;
        var k :| 0 <= k < |rest| && rest[k] == i - 1;
        assert idx[n + k] == i;
      }
    }
  }

  /** The call at `place` written in LaTeX: its base without braces, its argument. */
  ghost predicate IsLogarithm(s: string, place: Place, piece: string) {
    && place.p + 3 < place.m < place.q - 1 < |s|
    && exists b: nat, clean: string, idx: seq<nat> ::
         && IsBase(s, b, place.m) && b < place.m && (b == place.p + 3 || (b == place.p + 4 && s[place.p + 3] == '_'))
         && Unbraced(clean, s[b..place.m], idx)
         && piece == "$\\log_{" + clean + "}(" + s[place.m + 1..place.q - 1] + ")$"
  }

  /** `out` is `s` with the calls at `places` written in LaTeX, and nothing else changed; every call is one of these or
      begins inside one. */
  ghost predicate LogarithmsWritten(s: string, out: string, places: seq<Place>, pieces: seq<string>) {
    && (forall k :: 0 <= k < |places| ==> IsCall(s, places[k]))
    && (forall place :: IsCall(s, place) ==> Covers(places, place.p))
    && |pieces| == |places| && (forall k :: 0 <= k < |places| ==> IsLogarithm(s, places[k], pieces[k]))
    && Replaced(s, 0, places, pieces, out, 0)
  }

  lemma LogText(head: string, base: string, arg: string)
    requires BaseOf(head) == base
    ensures Log(head, arg + ")") == "$\\log_{" + WithoutBraces(base) + "}(" + arg + ")$"
  {
    var clean := WithoutBraces(base);
    assert ")" + "$" == ")$";
    assert OPEN + clean + MIDDLE + (arg + ")") + CLOSE == OPEN + clean + MIDDLE + arg + ")$";
  }

  lemma BaseOfCall(s: string, place: Place) returns (b: nat)
    requires IsCall(s, place)
    ensures place.p + 3 < place.m < place.q - 1 < |s| && b < place.m
    ensures (b == place.p + 3 || (b == place.p + 4 && s[place.p + 3] == '_')) && IsBase(s, b, place.m)
    ensures BaseOf(s[place.p..place.m]) == s[b..place.m]
  {
    var Place(p, m, q) := place;
    b :| (b == p + 3 || (b == p + 4 && s[p + 3] == '_')) && IsBase(s, b, m);
    assert s[p..m][3] == s[p + 3];
  }

  lemma WritesLogarithm(s: string, place: Place, piece: string)
    requires IsCall(s, place) && WrittenBy(s, place, piece, Log)
    ensures IsLogarithm(s, place, piece)
  {
    var b := BaseOfCall(s, place);
    var base, arg := s[b..place.m], s[place.m + 1..place.q - 1];
    var idx := WithoutBracesIs(base);
    assert s[place.m + 1..place.q] == arg + ")";
    LogText(s[place.p..place.m], base, arg);
  }

  lemma CallsAreReplaced(s: string) returns (places: seq<Place>, pieces: seq<string>)
    ensures |pieces| == |places| && Replaced(s, 0, places, pieces, FixFlatLogarithms(s), 0)
    ensures forall k :: 0 <= k < |places| ==> IsCall(s, places[k]) && WrittenBy(s, places[k], pieces[k], Log)
    ensures forall place :: IsCall(s, place) ==> Covers(places, place.p)
  {
    places := Calls(s, 0);
    CallsInOrder(s, 0);
    pieces := SplicePieces(s, places, Log, FixFlatLogarithms(s));
    AllCallsCovered(s, places);
    RewrittenAreCalls(s, places);
  }

  lemma RewrittenAreCalls(s: string, places: seq<Place>)
    requires places == Calls(s, 0)
    ensures forall k :: 0 <= k < |places| ==> IsCall(s, places[k])
  {
    forall k: nat | k < |places|
      ensures IsCall(s, places[k])
    {
      assert places[k] in places;
      OnlyCallsAreRewritten(s, 0, places[k]);
    }
  }

  lemma LogarithmsAreWritten(s: string) returns (places: seq<Place>, pieces: seq<string>)
    ensures LogarithmsWritten(s, FixFlatLogarithms(s), places, pieces)
  {
    places, pieces := CallsAreReplaced(s);
    forall k: nat | k < |places|
      ensures IsLogarithm(s, places[k], pieces[k])
    {
      WritesLogarithm(s, places[k], pieces[k]);
    }
  }

  lemma AllCallsCovered(s: string, places: seq<Place>)
    requires places == Calls(s, 0)
    ensures forall place :: IsCall(s, place) ==> Covers(places, place.p)
  {
    forall place | IsCall(s, place)
      ensures Covers(places, place.p)
    {
      EveryCallIsCovered(s, 0, place);
    }
  }

  /** Rewriting twice is rewriting once exactly when the output contains no call. */
  lemma IdempotentIff(s: string)
    ensures var out := FixFlatLogarithms(s);
            FixFlatLogarithms(out) == out <==> forall place :: !IsCall(out, place)
  {
    UnchangedIffNoCall(FixFlatLogarithms(s));
  }

  lemma {:induction false} WithoutBracesHasNone(s: string)
    ensures NoneOf(WithoutBraces(s), 0, |WithoutBraces(s)|, '{', '}')
    decreases |s|
  {
    if s != [] {
      WithoutBracesHasNone(s[1..]);
    }
  }

  lemma BasePart(base: string, arg: string)
    requires base != [] && NoneOf(base, 0, |base|, '{', '}') && NoneOf(arg, 0, |arg|, '(', ')')
    ensures var text := OPEN + base + MIDDLE + (arg + ")") + CLOSE;
            && |text| == |base| + |arg| + 11 && text[1] == '\\' && text[2] == 'l' && text[3] == 'o' && text[4] == 'g'
            && text[5] == '_' && text[6] == '{' && text[|base| + 7] == '}' && text[|base| + 8] == '('
            && text[|base| + |arg| + 9] == ')'
            && NoneOf(text, 7, |base| + 7, '}', '}') && NoneOf(text, |base| + 9, |base| + |arg| + 9, '(', ')')
  {
    var text := OPEN + base + MIDDLE + (arg + ")") + CLOSE;
    assert forall i :: 0 <= i < |base| ==> text[7 + i] == base[i];
    assert forall i :: 7 <= i < |base| + 7 ==> text[i] == base[i - 7];
    assert forall i :: |base| + 9 <= i < |base| + |arg| + 9 ==> text[i] == arg[i - |base| - 9];
  }

  /** What is written for a call is a call again, unless its base was nothing but braces. */
  lemma WrittenIsCall(out: string, t: nat, base: string, arg: string)
    requires base != [] && NoneOf(base, 0, |base|, '{', '}') && NoneOf(arg, 0, |arg|, '(', ')')
    requires StandsAt(out, OPEN + base + MIDDLE + (arg + ")") + CLOSE, t)
    ensures IsCall(out, Place(t + 2, t + |base| + 8, t + |base| + |arg| + 10))
  {
    var text := OPEN + base + MIDDLE + (arg + ")") + CLOSE;
    BasePart(base, arg);
    forall i | t <= i < t + |text|
      ensures out[i] == text[i - t]
    {
      assert out[i] == out[t..t + |text|][i - t];
    }
    assert IsBase(out, t + 6, t + |base| + 8);
  }

  lemma ArgumentOf(s: string, place: Place)
    requires IsCall(s, place)
    ensures var Place(p, m, q) := place;
            s[m + 1..q] == s[m + 1..q - 1] + ")" && NoneOf(s[m + 1..q - 1], 0, q - m - 2, '(', ')')
  {
    var Place(p, m, q) := place;
    var arg := s[m + 1..q - 1];
    forall i | 0 <= i < |arg|
      ensures arg[i] != '(' && arg[i] != ')'
    {
      assert arg[i] == s[m + 1 + i];
    }
  }

  /** The output for a rewritten call with a proper base contains a call. */
  lemma ProperCallStays(s: string, place: Place) returns (again: Place)
    requires place in Calls(s, 0) && IsCall(s, place) && WithoutBraces(BaseOf(s[place.p..place.m])) != []
    ensures IsCall(FixFlatLogarithms(s), again)
  {
    CallsInOrder(s, 0);
    var t := WrittenStands(s, 0, Calls(s, 0), place, Log);
    var out := FixFlatLogarithms(s);
    ArgumentOf(s, place);
    var head, arg := s[place.p..place.m], s[place.m + 1..place.q - 1];
    assert StandsAt(out, Log(head, arg + ")"), t);
    again := LogIsCall(out, t, head, arg);
  }

  lemma LogIsCall(out: string, t: nat, head: string, arg: string) returns (call: Place)
    requires WithoutBraces(BaseOf(head)) != [] && NoneOf(arg, 0, |arg|, '(', ')')
             && StandsAt(out, Log(head, arg + ")"), t)
    ensures IsCall(out, call)
  {
    var base := WithoutBraces(BaseOf(head));
    WithoutBracesHasNone(BaseOf(head));
    WrittenIsCall(out, t, base, arg);
    call := Place(t + 2, t + |base| + 8, t + |base| + |arg| + 10);
  }

  /** So rewriting is not idempotent: it changes its own output whenever it rewrote a call with a proper base. */
  lemma TwiceDiffers(s: string, place: Place)
    requires place in Calls(s, 0) && IsCall(s, place) && WithoutBraces(BaseOf(s[place.p..place.m])) != []
    ensures FixFlatLogarithms(FixFlatLogarithms(s)) != FixFlatLogarithms(s)
  {
    var again := ProperCallStays(s, place);
    IdempotentIff(s);
  }
}

/** The two rewritings outside math and code. */
module FlatMath {
  import FlatFractions
  import FlatLogarithms
  import Rewriting
  import opened ProtectedSpans

  function FixFlatMath(text: string): string {
    FlatFractions.FixFlatFractions(FlatLogarithms.FixFlatLogarithms(text))
  }

  method NormalizeFlatMath(content: string) returns (result: string)
    ensures InOrder(content, 0, Spans(content, 0))
    ensures result == Rebuild(content, 0, Spans(content, 0), FixFlatMath)
  {
    result := TransformOutsideMathAndCode(content, FixFlatMath);
  }

  /** What the rewriting of flat mathematics makes of a text: first the logarithms, then the fractions of the result. */
  ghost predicate MathWritten(s: string, out: string) {
    exists mid: string, calls: seq<Rewriting.Place>, logs: seq<string>, pairs: seq<Rewriting.Place>,
        fracs: seq<string> ::
      FlatLogarithms.LogarithmsWritten(s, mid, calls, logs) && FlatFractions.FractionsWritten(mid, out, pairs, fracs)
  }

  lemma MathIsWritten(s: string)
    ensures MathWritten(s, FixFlatMath(s))
  {
    var mid := FlatLogarithms.FixFlatLogarithms(s);
    var calls, logs := FlatLogarithms.LogarithmsAreWritten(s);
    var pairs, fracs := FlatFractions.FractionsAreWritten(mid);
  }

  /** The whole rewriting of a text: its spans as they are, and between them the mathematics of each gap. */
  lemma NormalizedIs(content: string) returns (gaps: seq<string>)
    ensures InOrder(content, 0, Spans(content, 0))
    ensures GapsReplaced(content, 0, Spans(content, 0), gaps, Rebuild(content, 0, Spans(content, 0), FixFlatMath), 0)
    ensures forall k :: 0 <= k <= |Spans(content, 0)| ==> MathWritten(Gaps(content, 0, Spans(content, 0))[k], gaps[k])
  {
    SpansInOrder(content, 0);
    var spans := Spans(content, 0);
    var out := Rebuild(content, 0, spans, FixFlatMath);
    assert out[0..] == out;
    gaps := RebuildReplacesGaps(content, 0, spans, FixFlatMath, out, 0);
    forall k | 0 <= k <= |spans|
      ensures MathWritten(Gaps(content, 0, spans)[k], gaps[k])
    {
      MathIsWritten(Gaps(content, 0, spans)[k]);
    }
  }

  /** Neither a flat logarithm nor a standalone pair. */
  ghost predicate NothingFlat(text: string) {
    && (forall place :: !FlatLogarithms.IsCall(text, place))
    && (forall p: nat, m: nat, q: nat :: !FlatFractions.StandalonePair(text, p, m, q))
  }

  ghost predicate GapsNotFlat(s: string, p: nat, spans: seq<Span>)
    requires InOrder(s, p, spans)
    decreases |spans|
  {
    if spans == [] then NothingFlat(s[p..])
    else NothingFlat(s[p..spans[0].from]) && GapsNotFlat(s, spans[0].to, spans[1..])
  }

  lemma NothingFlatIsKept(text: string)
    requires NothingFlat(text)
    ensures FixFlatMath(text) == text
  {
    FlatLogarithms.UnchangedIffNoCall(text);
    FlatFractions.UnchangedIffNoPair(text);
  }

  /** A text whose flat notation is all inside math and code spans is left alone. */
  lemma {:induction false} ProtectedNotationIsKept(s: string, p: nat, spans: seq<Span>)
    requires InOrder(s, p, spans) && GapsNotFlat(s, p, spans)
    ensures Rebuild(s, p, spans, FixFlatMath) == s[p..]
    decreases |spans|
  {
    if spans == [] {
      NothingFlatIsKept(s[p..]);
    } else {
      var Span(from, to) := spans[0];
      NothingFlatIsKept(s[p..from]);
      ProtectedNotationIsKept(s, to, spans[1..]);
      assert s[from..] == s[from..to] + s[to..];
      assert s[p..] == s[p..from] + s[from..];
    }
  }
}
