/** What the text rewritings have in common: characters, places in a text, and replacing the text at given places. */
module Rewriting {

  predicate IsDigit(c: char) {
    '0' <= c <= '9'
  }

  predicate IsWord(c: char) {
    IsDigit(c) || 'a' <= c <= 'z' || 'A' <= c <= 'Z' || c == '_'
  }

  /** Where the run of digits at `i` ends. */
  function DigitsEnd(s: string, i: nat): (e: nat)
    requires i <= |s|
    ensures i <= e <= |s|
    decreases |s| - i
  {
    if i < |s| && IsDigit(s[i]) then DigitsEnd(s, i + 1) else i
  }

  ghost predicate DigitRun(s: string, a: nat, b: nat) {
    a < b <= |s| && forall i :: a <= i < b ==> IsDigit(s[i])
  }

  lemma {:induction false} DigitsEndIs(s: string, i: nat)
    requires i <= |s|
    ensures var e := DigitsEnd(s, i);
            (forall k :: i <= k < e ==> IsDigit(s[k])) && (e < |s| ==> !IsDigit(s[e]))
    decreases |s| - i
  {
    if i < |s| && IsDigit(s[i]) {
      DigitsEndIs(s, i + 1);
    }
  }

  lemma {:induction false} DigitsEndAt(s: string, i: nat, e: nat)
    requires i <= e <= |s| && (forall k :: i <= k < e ==> IsDigit(s[k])) && (e < |s| ==> !IsDigit(s[e]))
    ensures DigitsEnd(s, i) == e
    decreases e - i
  {
    if i < e {
      DigitsEndAt(s, i + 1, e);
    }
  }

  /** A match s[p..q], with a separator at `m`. */
  datatype Place = Place(p: nat, m: nat, q: nat)

  /** What is written instead of a match, given what is before and after its separator. */
  type Rewrite = (string, string) -> string

  predicate Fits(s: string, place: Place) {
    place.p < place.m < place.q <= |s|
  }

  /** Places from position `at` on, one after the other. */
  ghost predicate InOrder(s: string, at: nat, places: seq<Place>)
    decreases |places|
  {
    if places == [] then at <= |s|
    else at <= places[0].p && Fits(s, places[0]) && InOrder(s, places[0].q, places[1..])
  }

  /** `s` from `at` on, with the given places replaced. */
  function Splice(s: string, at: nat, places: seq<Place>, f: Rewrite): string
    requires InOrder(s, at, places)
    decreases |places|, 1
  {
    if places == [] then s[at..] else s[at..places[0].p] + SpliceHead(s, places[0], places[1..], f)
  }

  function SpliceHead(s: string, first: Place, others: seq<Place>, f: Rewrite): string
    requires Fits(s, first) && InOrder(s, first.q, others)
    decreases |others|, 2
  {
    f(s[first.p..first.m], s[first.m + 1..first.q]) + Splice(s, first.q, others, f)
  }

  lemma Associative(a: string, b: string, c: string)
    ensures a + b + c == a + (b + c)
  {
  }

  lemma SpliceLater(s: string, at: nat, places: seq<Place>, f: Rewrite)
    requires at < |s| && InOrder(s, at + 1, places)
    ensures InOrder(s, at, places) && Splice(s, at, places, f) == [s[at]] + Splice(s, at + 1, places, f)
  {
    if places == [] {
      assert s[at..] == [s[at]] + s[at + 1..];
    } else {
      var p := places[0].p;
      assert s[at..p] == [s[at]] + s[at + 1..p];
      Associative([s[at]], s[at + 1..p], SpliceHead(s, places[0], places[1..], f));
    }
  }

  lemma SpliceHere(s: string, place: Place, others: seq<Place>, f: Rewrite)
    requires Fits(s, place) && InOrder(s, place.q, others)
    ensures InOrder(s, place.p, [place] + others)
    ensures Splice(s, place.p, [place] + others, f) == SpliceHead(s, place, others, f)
  {
    assert ([place] + others)[1..] == others;
    assert s[place.p..place.p] + SpliceHead(s, place, others, f) == SpliceHead(s, place, others, f);
  }

  /** `part` stands in `s` at `t`. */
  ghost predicate StandsAt(s: string, part: string, t: nat) {
    t + |part| <= |s| && s[t..t + |part|] == part
  }

  lemma StandsFirst(before: string, part: string, rest: string)
    ensures StandsAt(before + (part + rest), part, |before|)
  {
  }

  lemma StandsLater(before: string, rest: string, part: string, t: nat)
    requires StandsAt(rest, part, t)
    ensures StandsAt(before + rest, part, |before| + t)
  {
    assert (before + rest)[|before| + t..|before| + t + |part|] == rest[t..t + |part|];
  }

  /** What is written for a place stands in the output. */
  lemma {:induction false} WrittenStands(s: string, at: nat, places: seq<Place>, place: Place,
                                         f: Rewrite) returns (t: nat)
    requires InOrder(s, at, places) && place in places
    ensures Fits(s, place) && StandsAt(Splice(s, at, places, f), f(s[place.p..place.m], s[place.m + 1..place.q]), t)
    decreases |places|
  {
    var first := places[0];
    var head, gap := f(s[first.p..first.m], s[first.m + 1..first.q]), s[at..first.p];
    var rest := Splice(s, first.q, places[1..], f);
    if place == first {
      t := |gap|;
      StandsFirst(gap, head, rest);
    } else {
      var later := WrittenStands(s, first.q, places[1..], place, f);
      t := |gap| + (|head| + later);
      var part := f(s[place.p..place.m], s[place.m + 1..place.q]);
      StandsLater(head, rest, part, later);
      StandsLater(gap, head + rest, part, |head| + later);
    }
  }

  /** `out` from `t` on is `s` from `at` on with a piece in the place of each match: between the matches the text of
      `s`, and the pieces in the order of the matches. */
  ghost predicate Replaced(s: string, at: nat, places: seq<Place>, pieces: seq<string>, out: string, t: nat)
    decreases |places|
  {
    && |pieces| == |places| && at <= |s| && t <= |out|
    && if places == [] then out[t..] == s[at..]
       else
         var p, q := places[0].p, places[0].q;
         && at <= p <= q <= |s|
         && var u := t + (p - at);
            && u + |pieces[0]| <= |out| && out[t..u] == s[at..p] && out[u..u + |pieces[0]|] == pieces[0]
            && Replaced(s, q, places[1..], pieces[1..], out, u + |pieces[0]|)
  }

  function PiecesOf(s: string, places: seq<Place>, f: Rewrite): (pieces: seq<string>)
    requires forall k :: 0 <= k < |places| ==> places[k].p < places[k].m < places[k].q <= |s|
    ensures |pieces| == |places|
    ensures forall k :: 0 <= k < |places| ==>
              pieces[k] == f(s[places[k].p..places[k].m], s[places[k].m + 1..places[k].q])
  {
    if places == [] then []
    else [f(s[places[0].p..places[0].m], s[places[0].m + 1..places[0].q])] + PiecesOf(s, places[1..], f)
  }

  lemma {:induction false} AllFit(s: string, at: nat, places: seq<Place>)
    requires InOrder(s, at, places)
    ensures forall k :: 0 <= k < |places| ==> places[k].p < places[k].m < places[k].q <= |s|
    decreases |places|
  {
    if places != [] {
      AllFit(s, places[0].q, places[1..]);
    }
  }

  /** Three parts of a text, one after the other. */
  lemma PartsStand(out: string, t: nat, gap: string, piece: string, rest: string)
    requires t <= |out| && out[t..] == gap + (piece + rest)
    ensures var u := t + |gap|;
            && u + |piece| <= |out| && out[t..u] == gap && out[u..u + |piece|] == piece && out[u + |piece|..] == rest
  {
    var all := gap + (piece + rest);
    assert all[..|gap|] == gap && all[|gap|..] == piece + rest;
    assert out[t..t + |gap|] == all[..|gap|];
    assert out[t + |gap|..] == all[|gap|..];
    var later := out[t + |gap|..];
    assert later[..|piece|] == piece && later[|piece|..] == rest;
  }

  lemma {:induction false} SpliceReplaces(s: string, at: nat, places: seq<Place>, f: Rewrite, out: string, t: nat)
    requires InOrder(s, at, places) && t <= |out| && out[t..] == Splice(s, at, places, f)
    ensures forall k :: 0 <= k < |places| ==> places[k].p < places[k].m < places[k].q <= |s|
    ensures Replaced(s, at, places, PiecesOf(s, places, f), out, t)
    decreases |places|
  {
    AllFit(s, at, places);
    if places != [] {
      var first := places[0];
      var piece := f(s[first.p..first.m], s[first.m + 1..first.q]);
      PartsStand(out, t, s[at..first.p], piece, Splice(s, first.q, places[1..], f));
      SpliceReplaces(s, first.q, places[1..], f, out, t + (first.p - at) + |piece|);
      assert PiecesOf(s, places, f)[1..] == PiecesOf(s, places[1..], f);
    }
  }

  ghost predicate WrittenBy(s: string, place: Place, piece: string, f: Rewrite) {
    place.p < place.m < place.q <= |s| && piece == f(s[place.p..place.m], s[place.m + 1..place.q])
  }

  /** A text with the given places replaced holds one piece for each of them. */
  lemma SplicePieces(s: string, places: seq<Place>, f: Rewrite, out: string) returns (pieces: seq<string>)
    requires InOrder(s, 0, places) && out == Splice(s, 0, places, f)
    ensures |pieces| == |places| && Replaced(s, 0, places, pieces, out, 0)
    ensures forall k :: 0 <= k < |places| ==> WrittenBy(s, places[k], pieces[k], f)
  {
    assert out[0..] == out;
    SpliceReplaces(s, 0, places, f, out, 0);
    pieces := PiecesOf(s, places, f);
  }
}
