/** Rewriting flat fractions such as 2/3 into LaTeX: the pattern as an explicit scanner. */
module FlatFractions {
  import opened Common
  import opened Rewriting

  /** No pair may start here: a word character, or a digit and a slash, come before. */
  predicate Blocked(s: string, p: nat)
    requires p <= |s|
  {
    (p > 0 && IsWord(s[p - 1])) || (p > 1 && IsDigit(s[p - 2]) && s[p - 1] == '/')
  }

  predicate EndsPair(s: string, q: nat)
    requires q <= |s|
  {
    q < |s| ==> !IsWord(s[q]) && s[q] != '/'
  }

  /** What the pattern matches at position `p`. */
  function MatchAt(s: string, p: nat): (place: Option<Place>)
    requires p <= |s|
    ensures place.Some? ==> p == place.value.p < place.value.m < place.value.q - 1 && place.value.q <= |s|
  {
    var m := DigitsEnd(s, p);
    if Blocked(s, p) || m == p || m == |s| || s[m] != '/' then None
    else
      var q := DigitsEnd(s, m + 1);
      if q == m + 1 || !EndsPair(s, q) then None else Some(Place(p, m, q))
  }

  const OPEN: string := "$\\frac{"
  const MIDDLE: string := "}{"
  const CLOSE: string := "}$"

  function Frac(num: string, den: string): (text: string)
    ensures text != [] && text[0] == '$'
  {
    OPEN + num + MIDDLE + den + CLOSE
  }

  /** Rewrites every match from position `p` on with `f`. */
  function FixFrom(s: string, p: nat, f: Rewrite): string
    requires p <= |s|
    decreases |s| - p
  {
    if p == |s| then []
    else
      match MatchAt(s, p)
      case None => [s[p]] + FixFrom(s, p + 1, f)
      case Some(Place(_, m, q)) => f(s[p..m], s[m + 1..q]) + FixFrom(s, q, f)
  }

  function FixFlatFractions(text: string): string {
    FixFrom(text, 0, Frac)
  }

  // ---- Exactly the standalone pairs are rewritten. ----

  /** s[p..m] and s[m + 1..q] are digit groups around a slash, with no word character next to the pair, no
      slash after it, and no digit and slash before it. */
  ghost predicate StandalonePair(s: string, p: nat, m: nat, q: nat) {
    && DigitRun(s, p, m) && DigitRun(s, m + 1, q) && s[m] == '/'
    && (p > 0 ==> !IsWord(s[p - 1])) && (p > 1 ==> !(IsDigit(s[p - 2]) && s[p - 1] == '/'))
    && (q < |s| ==> !IsWord(s[q]) && s[q] != '/')
  }

  /** The pattern matches exactly the standalone pairs. */
  lemma MatchIff(s: string, p: nat, m: nat, q: nat)
    requires p <= |s|
    ensures MatchAt(s, p) == Some(Place(p, m, q)) <==> StandalonePair(s, p, m, q)
  {
    if MatchAt(s, p) == Some(Place(p, m, q)) {
      DigitsEndIs(s, p);
      DigitsEndIs(s, m + 1);
    }
    if StandalonePair(s, p, m, q) {
      DigitsEndAt(s, p, m);
      DigitsEndAt(s, m + 1, q);
    }
  }

  /** The pairs the scanner rewrites from position `at` on. */
  function Found(s: string, at: nat): seq<Place>
    requires at <= |s|
    decreases |s| - at
  {
    if at == |s| then []
    else
      match MatchAt(s, at)
      case None => Found(s, at + 1)
      case Some(place) => [place] + Found(s, place.q)
  }

  lemma {:induction false} FoundArePairs(s: string, at: nat, place: Place)
    requires at <= |s| && place in Found(s, at)
    ensures StandalonePair(s, place.p, place.m, place.q)
    decreases |s| - at
  {
    match MatchAt(s, at)
    case None => FoundArePairs(s, at + 1, place);
    case Some(first) =>
      if place == first {
        MatchIff(s, at, place.m, place.q);
      } else {
        FoundArePairs(s, first.q, place);
      }
  }

  lemma {:induction false} FixIsSplice(s: string, at: nat, f: Rewrite)
    requires at <= |s|
    ensures InOrder(s, at, Found(s, at)) && FixFrom(s, at, f) == Splice(s, at, Found(s, at), f)
    decreases |s| - at
  {
    if at < |s| {
      match MatchAt(s, at)
      case None =>
        FixIsSplice(s, at + 1, f);
        SpliceLater(s, at, Found(s, at + 1), f);
      case Some(place) =>
        FixIsSplice(s, place.q, f);
        SpliceHere(s, place, Found(s, place.q), f);
    }
  }

  /** Standalone pairs never overlap, so the scanner's jumps skip none. */
  lemma PairsDisjoint(s: string, p: nat, m: nat, q: nat, p': nat, m': nat, q': nat)
    requires StandalonePair(s, p, m, q) && StandalonePair(s, p', m', q') && p < p'
    ensures q <= p'
  {
  }

  lemma {:induction false} FindsEveryPair(s: string, at: nat, p: nat, m: nat, q: nat)
    requires at <= p && StandalonePair(s, p, m, q)
    ensures Place(p, m, q) in Found(s, at)
    decreases |s| - at
  {
    if p == at {
      MatchIff(s, p, m, q);
    } else {
      match MatchAt(s, at)
      case None => FindsEveryPair(s, at + 1, p, m, q);
      case Some(place) =>
        MatchIff(s, at, place.m, place.q);
        PairsDisjoint(s, at, place.m, place.q, p, m, q);
        FindsEveryPair(s, place.q, p, m, q);
    }
  }

  /** `FixFlatFractions` replaces exactly the standalone pairs of a text and keeps everything else. */
  lemma RewritesExactlyThePairs(s: string)
    ensures var found := Found(s, 0);
            && InOrder(s, 0, found)
            && (forall p: nat, m: nat, q: nat :: StandalonePair(s, p, m, q) <==> Place(p, m, q) in found)
            && FixFlatFractions(s) == Splice(s, 0, found, Frac)
  {
    FixIsSplice(s, 0, Frac);
    forall p: nat, m: nat, q: nat | StandalonePair(s, p, m, q)
      ensures Place(p, m, q) in Found(s, 0)
    {
      FindsEveryPair(s, 0, p, m, q);
    }
    forall p: nat, m: nat, q: nat | Place(p, m, q) in Found(s, 0)
      ensures StandalonePair(s, p, m, q)
    {
      FoundArePairs(s, 0, Place(p, m, q));
    }
  }

  /** `out` is `s` with every standalone pair written as a LaTeX fraction, and nothing else changed: `places` are all of
      the pairs, in the order of the text. */
  ghost predicate FractionsWritten(s: string, out: string, places: seq<Place>, pieces: seq<string>) {
    && (forall p: nat, m: nat, q: nat :: StandalonePair(s, p, m, q) <==> Place(p, m, q) in places)
    && |pieces| == |places|
    && (forall k :: 0 <= k < |places| ==>
          var Place(p, m, q) := places[k];
          p < m < q <= |s| && pieces[k] == "$\\frac{" + s[p..m] + "}{" + s[m + 1..q] + "}$")
    && Replaced(s, 0, places, pieces, out, 0)
  }

  lemma FractionsAreWritten(s: string) returns (places: seq<Place>, pieces: seq<string>)
    ensures FractionsWritten(s, FixFlatFractions(s), places, pieces)
  {
    places := Found(s, 0);
    RewritesExactlyThePairs(s);
    pieces := SplicePieces(s, places, Frac, FixFlatFractions(s));
    forall k | 0 <= k < |places|
      ensures var Place(p, m, q) := places[k];
              p < m < q <= |s| && pieces[k] == "$\\frac{" + s[p..m] + "}{" + s[m + 1..q] + "}$"
    {
      assert WrittenBy(s, places[k], pieces[k], Frac);
    }
  }

  /** A text stays as it is exactly when it contains no standalone pair. */
  lemma UnchangedIffNoPair(s: string)
    ensures FixFlatFractions(s) == s <==> forall p: nat, m: nat, q: nat :: !StandalonePair(s, p, m, q)
  {
    RewritesExactlyThePairs(s);
    var found := Found(s, 0);
    if found != [] {
      var Place(p, m, q) := found[0];
      assert found[0] in found && StandalonePair(s, p, m, q);
      var out := FixFlatFractions(s);
      assert out == s[0..p] + SpliceHead(s, found[0], found[1..], Frac);
      assert out[p] == SpliceHead(s, found[0], found[1..], Frac)[0] == '$';
    }
  }

  /** Three digit groups with slashes between them. */
  ghost predicate Chain(s: string, a: nat, b: nat, c: nat, d: nat) {
    DigitRun(s, a, b) && DigitRun(s, b + 1, c) && DigitRun(s, c + 1, d) && s[b] == '/' && s[c] == '/'
  }

  /** No rewritten pair touches a chain of three digit groups, such as a full date: longer chains consist of
      overlapping ones. */
  lemma ChainsStayUntouched(s: string, a: nat, b: nat, c: nat, d: nat, p: nat, m: nat, q: nat)
    requires Chain(s, a, b, c, d) && StandalonePair(s, p, m, q)
    ensures q <= a || d <= p
  {
  }

  // ---- Idempotence. ----

  /** Behind a digit, or behind a digit and a slash. */
  predicate Inside(s: string, p: nat) {
    0 < p <= |s| && (IsDigit(s[p - 1]) || (p > 1 && IsDigit(s[p - 2]) && s[p - 1] == '/'))
  }

  /** `out` from `t` on is what the scanner makes of `s` from `p` on. */
  ghost predicate Continues(s: string, p: nat, out: string, t: nat, f: Rewrite) {
    p <= |s| && t <= |out| && out[t..] == FixFrom(s, p, f)
  }

  lemma CopyStep(s: string, p: nat, out: string, t: nat, f: Rewrite)
    requires Continues(s, p, out, t, f) && p < |s| && MatchAt(s, p).None?
    ensures t < |out| && out[t] == s[p] && Continues(s, p + 1, out, t + 1, f)
  {
    assert out[t] == out[t..][0];
    assert out[t + 1..] == out[t..][1..];
  }

  lemma SliceHead(s: string, a: nat, b: nat)
    requires a < b <= |s|
    ensures s[a..b] == [s[a]] + s[a + 1..b]
  {
  }

  /** Behind a digit, or a digit and a slash, the scanner copies, and so goes on copying as long as the output shows
      the same behind. */
  lemma {:induction false} CopiesOn(s: string, p: nat, out: string, t: nat, n: nat, f: Rewrite)
    requires Continues(s, p, out, t, f) && p > 0 && t > 0 && s[p - 1] == out[t - 1] && Inside(s, p)
    requires t + n <= |out| && forall j :: t < j <= t + n ==> Inside(out, j)
    ensures p + n <= |s| && s[p..p + n] == out[t..t + n]
    ensures p + n == |s| || (t + n < |out| && s[p + n] == out[t + n])
    decreases n
  {
    if p < |s| {
      CopyStep(s, p, out, t, f);
      if n > 0 {
        assert Inside(out, t + 1);
        CopiesOn(s, p + 1, out, t + 1, n - 1, f);
        SliceHead(s, p, p + n);
        SliceHead(out, t, t + n);
      }
    }
  }

  /** What is before position `t` of the output cannot make a difference to what is before `p` in the input. */
  ghost predicate Agree(s: string, p: nat, out: string, t: nat)
    requires p <= |s| && t <= |out|
  {
    || EndsPair(s, p)
    || (Blocked(s, p) == Blocked(out, t) && (p > 0 && IsDigit(s[p - 1]) <==> t > 0 && IsDigit(out[t - 1])))
  }

  lemma PairIsInside(out: string, t: nat, m: nat, q: nat)
    requires StandalonePair(out, t, m, q)
    ensures forall j :: t < j <= q ==> Inside(out, j)
  {
  }

  lemma NoPairHere(s: string, p: nat, out: string, t: nat, f: Rewrite)
    requires p < |s| && MatchAt(s, p).None? && Continues(s, p, out, t, f) && Agree(s, p, out, t)
    ensures MatchAt(out, t).None?
  {
    if MatchAt(out, t).Some? {
      var Place(_, m, q) := MatchAt(out, t).value;
      MatchIff(out, t, m, q);
      CopyStep(s, p, out, t, f);
      PairIsInside(out, t, m, q);
      CopiesOn(s, p + 1, out, t + 1, q - t - 1, f);
      SamePair(s, p, out, t, m, q);
      MatchIff(s, p, m - t + p, q - t + p);
    }
  }

  lemma SamePair(s: string, p: nat, out: string, t: nat, m: nat, q: nat)
    requires StandalonePair(out, t, m, q) && p + (q - t) <= |s| && Agree(s, p, out, t)
    requires s[p] == out[t] && s[p + 1..p + (q - t)] == out[t + 1..q]
    requires p + (q - t) == |s| || (q < |out| && s[p + (q - t)] == out[q])
    ensures StandalonePair(s, p, m - t + p, q - t + p)
  {
    forall j | p <= j < q - t + p
      ensures s[j] == out[j - p + t]
    {
      if j > p {
        assert s[j] == s[p + 1..p + (q - t)][j - p - 1] == out[t + 1..q][j - p - 1];
      }
    }
  }

  /** Text up to a character that is neither digit nor slash, and without a slash, is copied. */
  ghost predicate Plain(s: string, p: nat, e: nat) {
    p < e <= |s| && !IsDigit(s[e - 1]) && forall k :: p <= k < e ==> s[k] != '/'
  }

  lemma NoMatchInPlain(s: string, p: nat, e: nat)
    requires Plain(s, p, e)
    ensures MatchAt(s, p).None?
  {
    DigitsEndIs(s, p);
    assert DigitsEnd(s, p) < e;
  }

  lemma {:induction false} CopiesPlain(s: string, p: nat, e: nat, f: Rewrite)
    requires Plain(s, p, e)
    ensures FixFrom(s, p, f) == s[p..e] + FixFrom(s, e, f)
    decreases e - p
  {
    NoMatchInPlain(s, p, e);
    if p + 1 < e {
      CopiesPlain(s, p + 1, e, f);
      assert s[p..e] == [s[p]] + s[p + 1..e];
      Associative([s[p]], s[p + 1..e], FixFrom(s, e, f));
    } else {
      assert s[p..e] == [s[p]];
    }
  }

  /** A rewriting whose result ends in a dollar sign and contains no slash. */
  ghost predicate Marks(f: Rewrite) {
    forall num, den ::
      (forall i :: 0 <= i < |num| ==> IsDigit(num[i])) && (forall i :: 0 <= i < |den| ==> IsDigit(den[i])) ==>
      var t := f(num, den); t != [] && t[|t| - 1] == '$' && forall i :: 0 <= i < |t| ==> t[i] != '/'
  }

  lemma FracMarks()
    ensures Marks(Frac)
  {
    assert forall i :: 0 <= i < |OPEN| ==> OPEN[i] != '/';
  }

  lemma MarkIsPlain(s: string, p: nat, m: nat, q: nat, f: Rewrite)
    requires Marks(f) && StandalonePair(s, p, m, q)
    ensures var t := f(s[p..m], s[m + 1..q]); t != [] && t[|t| - 1] == '$' && forall i :: 0 <= i < |t| ==> t[i] != '/'
  {
    var num, den := s[p..m], s[m + 1..q];
    assert forall i :: 0 <= i < |num| ==> num[i] == s[p + i];
    assert forall i :: 0 <= i < |den| ==> den[i] == s[m + 1 + i];
  }

  lemma MarkStands(out: string, t: nat, mark: string, rest: string)
    requires t <= |out| && out[t..] == mark + rest
    requires mark != [] && mark[|mark| - 1] == '$' && forall i :: 0 <= i < |mark| ==> mark[i] != '/'
    ensures var e := t + |mark|;
            e <= |out| && out[e..] == rest && out[e - 1] == '$' && out[t..e] == mark && Plain(out, t, e)
  {
    var e := t + |mark|;
    assert out[t..e] == out[t..][..|mark|] == mark;
    assert out[e..] == out[t..][|mark|..];
    forall k | t <= k < e
      ensures out[k] == mark[k - t]
    {
      assert out[k] == out[t..e][k - t];
    }
  }

  lemma BehindMark(s: string, p: nat, m: nat, q: nat, out: string, t: nat, f: Rewrite)
    requires Marks(f) && Continues(s, p, out, t, f) && MatchAt(s, p) == Some(Place(p, m, q))
    ensures var e := t + |f(s[p..m], s[m + 1..q])|;
            && e <= |out| && Continues(s, q, out, e, f) && Agree(s, q, out, e)
            && Plain(out, t, e)
  {
    MatchIff(s, p, m, q);
    MarkIsPlain(s, p, m, q, f);
    MarkStands(out, t, f(s[p..m], s[m + 1..q]), FixFrom(s, q, f));
  }

  lemma SplitAt(s: string, t: nat, e: nat)
    requires t <= e <= |s|
    ensures s[t..] == s[t..e] + s[e..]
  {
  }

  lemma {:induction false} FixAgain(s: string, p: nat, out: string, t: nat, f: Rewrite)
    requires Marks(f) && Continues(s, p, out, t, f) && Agree(s, p, out, t)
    ensures FixFrom(out, t, f) == out[t..]
    decreases |s| - p
  {
    if p < |s| {
      match MatchAt(s, p)
      case None =>
        NoPairHere(s, p, out, t, f);
        CopyStep(s, p, out, t, f);
        FixAgain(s, p + 1, out, t + 1, f);
      case Some(Place(_, m, q)) =>
        BehindMark(s, p, m, q, out, t, f);
        var e := t + |f(s[p..m], s[m + 1..q])|;
        FixAgain(s, q, out, e, f);
        FixBehindPlain(out, t, e, f);
    }
  }

  lemma FixBehindPlain(out: string, t: nat, e: nat, f: Rewrite)
    requires t <= e <= |out| && Plain(out, t, e) && FixFrom(out, e, f) == out[e..]
    ensures FixFrom(out, t, f) == out[t..]
  {
    CopiesPlain(out, t, e, f);
    SplitAt(out, t, e);
  }

  /** Rewriting twice changes nothing more. */
  lemma FixIdempotent(text: string)
    ensures FixFlatFractions(FixFlatFractions(text)) == FixFlatFractions(text)
  {
    var out := FixFlatFractions(text);
    assert out[0..] == out;
    FracMarks();
    FixAgain(text, 0, out, 0, Frac);
  }
}
