/** Putting the delimiters of multi-line display math on lines of their own. */
module DisplayMath {
  import opened Common
  import opened Text
  import opened Sse

  predicate DollarsAt(s: string, i: nat) {
    i + 1 < |s| && s[i] == '$' && s[i + 1] == '$'
  }

  /** The first double dollar sign. */
  function Opening(s: string): (r: Option<nat>)
    ensures r.Some? ==> DollarsAt(s, r.value)
  {
    if |s| < 2 then None
    else if s[0] == '$' && s[1] == '$' then Some(0)
    else
      var r := Opening(s[1..]);
      if r.None? then None else Some(r.value + 1)
  }

  /** A text as the pattern sees it: blocks between double dollar signs, each after a gap, and what is left. */
  datatype Doc = Tail(text: string) | Block(gap: string, inner: string, rest: Doc)

  function Parse(s: string): Doc
    decreases |s|
  {
    var i := Opening(s);
    if i.None? then Tail(s)
    else
      var after := s[i.value + 2..];
      var j := Opening(after);
      if j.None? then Tail(s) else Block(s[..i.value], after[..j.value], Parse(after[j.value + 2..]))
  }

  const DOLLARS: string := ['$', '$']

  function Print(d: Doc): string {
    match d
    case Tail(text) => text
    case Block(gap, inner, rest) => gap + DOLLARS + (inner + DOLLARS + Print(rest))
  }

  /** What becomes of the text of one block. */
  function Tidy(inner: string): string {
    if '\n' in inner then ['\n'] + Strip(inner, JsSpace) + ['\n'] else inner
  }

  function TidyAll(d: Doc): Doc {
    match d
    case Tail(text) => d
    case Block(gap, inner, rest) => Block(gap, Tidy(inner), TidyAll(rest))
  }

  function NormalizeDisplayMath(content: string): string {
    Print(TidyAll(Parse(content)))
  }

  // ---- Parsing and printing undo each other. ----

  lemma {:induction false} OpeningIsFirst(s: string)
    ensures var r := Opening(s);
            && (r.None? ==> forall k: nat :: !DollarsAt(s, k))
            && (r.Some? ==> forall k: nat :: k < r.value ==> !DollarsAt(s, k))
    decreases |s|
  {
    if |s| >= 2 && !DollarsAt(s, 0) {
      OpeningIsFirst(s[1..]);
      assert forall k: nat :: k > 0 ==> (DollarsAt(s, k) <==> DollarsAt(s[1..], k - 1));
    }
  }

  lemma {:induction false} OpeningAt(s: string, i: nat)
    requires DollarsAt(s, i) && forall k: nat :: k < i ==> !DollarsAt(s, k)
    ensures Opening(s) == Some(i)
    decreases i
  {
    if i > 0 {
      assert !DollarsAt(s, 0);
      assert forall k: nat :: k < i - 1 ==> (DollarsAt(s[1..], k) <==> DollarsAt(s, k + 1));
      OpeningAt(s[1..], i - 1);
    }
  }

  /** No double dollar sign inside, and none made by the one that follows. */
  ghost predicate Clean(s: string) {
    (forall k: nat :: !DollarsAt(s, k)) && (s != [] ==> s[|s| - 1] != '$')
  }

  ghost predicate WellFormed(d: Doc) {
    match d
    case Tail(text) => Parse(text) == d
    case Block(gap, inner, rest) => Clean(gap) && Clean(inner) && WellFormed(rest)
  }

  lemma BeforeOpeningIsClean(s: string)
    requires Opening(s).Some?
    ensures Clean(s[..Opening(s).value])
  {
    var i := Opening(s).value;
    OpeningIsFirst(s);
    assert forall k: nat :: DollarsAt(s[..i], k) ==> DollarsAt(s, k);
    if i > 0 && s[i - 1] == '$' {
      assert DollarsAt(s, i - 1);
    }
  }

  lemma OpeningAfterClean(s: string, more: string)
    requires Clean(s)
    ensures Opening(s + DOLLARS + more) == Some(|s|)
    ensures (s + DOLLARS + more)[..|s|] == s && (s + DOLLARS + more)[|s| + 2..] == more
  {
    var all := s + DOLLARS + more;
    forall k: nat | k < |s|
      ensures !DollarsAt(all, k)
    {
      assert !DollarsAt(s, k);
    }
    OpeningAt(all, |s|);
  }

  lemma SplitAtDollars(s: string, i: nat)
    requires DollarsAt(s, i)
    ensures s == s[..i] + DOLLARS + s[i + 2..]
  {
  }

  lemma {:induction false} PrintOfParse(s: string)
    ensures Print(Parse(s)) == s && WellFormed(Parse(s))
    decreases |s|
  {
    if Parse(s).Block? {
      var i := Opening(s).value;
      var after := s[i + 2..];
      var j := Opening(after).value;
      PrintOfParse(after[j + 2..]);
      BeforeOpeningIsClean(s);
      BeforeOpeningIsClean(after);
      SplitAtDollars(s, i);
      SplitAtDollars(after, j);
    }
  }

  lemma {:induction false} ParseOfPrint(d: Doc)
    requires WellFormed(d)
    ensures Parse(Print(d)) == d
    decreases d
  {
    if d.Block? {
      ParseOfPrint(d.rest);
      OpeningAfterClean(d.inner, Print(d.rest));
      OpeningAfterClean(d.gap, d.inner + DOLLARS + Print(d.rest));
    }
  }

  // ---- Tidying. ----

  lemma PartHasNoDollars(s: string, a: nat, b: nat)
    requires a <= b <= |s| && forall k: nat :: !DollarsAt(s, k)
    ensures forall k: nat :: !DollarsAt(s[a..b], k)
  {
    forall k: nat
      ensures !DollarsAt(s[a..b], k)
    {
      assert !DollarsAt(s, a + k);
    }
  }

  lemma WrappedIsClean(t: string)
    requires forall k: nat :: !DollarsAt(t, k)
    ensures Clean(['\n'] + t + ['\n'])
  {
    var s := ['\n'] + t + ['\n'];
    forall k: nat
      ensures !DollarsAt(s, k)
    {
      if 0 < k <= |t| {
        assert !DollarsAt(t, k - 1);
        assert s[k] == t[k - 1];
      }
    }
  }

  lemma TidyIsClean(inner: string)
    requires Clean(inner)
    ensures Clean(Tidy(inner))
  {
    var a, b := StripPlaces(inner, JsSpace);
    PartHasNoDollars(inner, a, b);
    WrappedIsClean(inner[a..b]);
  }

  lemma TidyTwice(inner: string)
    ensures Tidy(Tidy(inner)) == Tidy(inner)
  {
    if '\n' in inner {
      StripWrapped(Strip(inner, JsSpace), '\n', JsSpace);
    }
  }

  /** Whitespace put around a stripped text is stripped again. */
  lemma StripWrapped(t: string, c: char, space: char -> bool)
    requires space(c) && (t != [] ==> !space(t[0]) && !space(t[|t| - 1]))
    ensures Strip([c] + t + [c], space) == t
  {
    var s, u := [c] + t + [c], t + [c];
    assert s[0] == c && s[1..] == u;
    StripOneEnd(t, c, space);
  }

  lemma StripOneEnd(t: string, c: char, space: char -> bool)
    requires space(c) && (t != [] ==> !space(t[0]) && !space(t[|t| - 1]))
    ensures Strip(t + [c], space) == t
  {
    var u := t + [c];
    if t != [] {
      assert u[0] == t[0] && u[|u| - 1] == c && u[..|u| - 1] == t;
    } else {
      assert u[0] == c && u[1..] == [];
    }
  }

  lemma {:induction false} TidyAllTwice(d: Doc)
    requires WellFormed(d)
    ensures WellFormed(TidyAll(d)) && TidyAll(TidyAll(d)) == TidyAll(d)
    decreases d
  {
    if d.Block? {
      TidyAllTwice(d.rest);
      TidyIsClean(d.inner);
      TidyTwice(d.inner);
    }
  }

  /** The output has the same gaps and blocks as the input, every multi-line block tidied: what follows the opening
      and what precedes the closing dollar signs is a line break. */
  lemma BlocksAreTidied(content: string)
    ensures Parse(NormalizeDisplayMath(content)) == TidyAll(Parse(content))
  {
    PrintOfParse(content);
    TidyAllTwice(Parse(content));
    ParseOfPrint(TidyAll(Parse(content)));
  }

  /** What becomes of one block: without a line break it stays; with one, its text goes on lines of its own, without the
      whitespace around it. */
  ghost predicate TidiedTo(inner: string, tidy: string) {
    if forall i :: 0 <= i < |inner| ==> inner[i] != '\n' then tidy == inner
    else
      exists before: string, core: string, after: string ::
        && inner == before + core + after && AllSpace(before, JsSpace) && AllSpace(after, JsSpace)
        && (core != [] ==> !JsSpace(core[0]) && !JsSpace(core[|core| - 1]))
        && tidy == ['\n'] + core + ['\n']
  }

  /** The same gaps and the same rest, and every block tidied. */
  ghost predicate DocTidied(d: Doc, d': Doc) {
    match d
    case Tail(text) => d' == Tail(text)
    case Block(gap, inner, rest) =>
      d'.Block? && d'.gap == gap && TidiedTo(inner, d'.inner) && DocTidied(rest, d'.rest)
  }

  lemma TidyIs(inner: string)
    ensures TidiedTo(inner, Tidy(inner))
  {
    if '\n' in inner {
      var before, after := StripCutsEnds(inner, JsSpace);
      var core := Strip(inner, JsSpace);
      assert inner == before + core + after;
      assert Tidy(inner) == ['\n'] + core + ['\n'];
      var i :| 0 <= i < |inner| && inner[i] == '\n';
    }
  }

  lemma {:induction false} TidyAllIs(d: Doc)
    ensures DocTidied(d, TidyAll(d))
    decreases d
  {
    if d.Block? {
      TidyIs(d.inner);
      TidyAllIs(d.rest);
    }
  }

  /** In the output exactly the blocks with a line break are put on lines of their own. */
  lemma BlocksBecome(content: string)
    ensures DocTidied(Parse(content), Parse(NormalizeDisplayMath(content)))
    ensures Print(Parse(content)) == content
  {
    BlocksAreTidied(content);
    PrintOfParse(content);
    TidyAllIs(Parse(content));
  }

  /** Normalising twice changes nothing more. */
  lemma NormalizeIdempotent(content: string)
    ensures NormalizeDisplayMath(NormalizeDisplayMath(content)) == NormalizeDisplayMath(content)
  {
    BlocksAreTidied(content);
    PrintOfParse(content);
    TidyAllTwice(Parse(content));
  }

  /** The characters that are not whitespace, in order. */
  function InkBy(s: string, space: char -> bool): string {
    if s == [] then [] else (if space(s[0]) then [] else [s[0]]) + InkBy(s[1..], space)
  }

  function Ink(s: string): string {
    InkBy(s, JsSpace)
  }

  lemma {:induction false} InkByAppend(a: string, b: string, space: char -> bool)
    ensures InkBy(a + b, space) == InkBy(a, space) + InkBy(b, space)
    decreases |a|
  {
    if a == [] {
      assert a + b == b;
    } else {
      assert (a + b)[1..] == a[1..] + b;
      InkByAppend(a[1..], b, space);
    }
  }

  lemma InkAppend(a: string, b: string)
    ensures Ink(a + b) == Ink(a) + Ink(b)
  {
    InkByAppend(a, b, JsSpace);
  }

  lemma {:induction false} InkOfStrip(s: string, space: char -> bool)
    ensures InkBy(Strip(s, space), space) == InkBy(s, space)
    decreases |s|
  {
    if s == [] {
    } else if space(s[0]) {
      InkOfStrip(s[1..], space);
    } else if space(s[|s| - 1]) {
      var front, last := s[..|s| - 1], [s[|s| - 1]];
      InkOfStrip(front, space);
      assert s == front + last;
      InkByAppend(front, last, space);
      assert last[1..] == [];
    }
  }

  lemma InkOfTidy(inner: string)
    ensures Ink(Tidy(inner)) == Ink(inner)
  {
    var t := Strip(inner, JsSpace);
    InkOfStrip(inner, JsSpace);
    InkAppend(['\n'], t);
    InkAppend(['\n'] + t, ['\n']);
  }

  lemma {:induction false} InkOfTidyAll(d: Doc)
    ensures Ink(Print(TidyAll(d))) == Ink(Print(d))
    decreases d
  {
    if d.Block? {
      InkOfTidyAll(d.rest);
      InkOfTidy(d.inner);
      InkOfBlock(d.gap, d.inner, Print(d.rest));
      InkOfBlock(d.gap, Tidy(d.inner), Print(TidyAll(d.rest)));
    }
  }

  lemma InkOfBlock(gap: string, inner: string, rest: string)
    ensures Ink(gap + DOLLARS + (inner + DOLLARS + rest))
            == Ink(gap) + Ink(DOLLARS) + (Ink(inner) + Ink(DOLLARS) + Ink(rest))
  {
    InkAppend(gap + DOLLARS, inner + DOLLARS + rest);
    InkAppend(gap, DOLLARS);
    InkAppend(inner + DOLLARS, rest);
    InkAppend(inner, DOLLARS);
  }

  /** Only whitespace is added or removed. */
  lemma NormalizeKeepsInk(content: string)
    ensures Ink(NormalizeDisplayMath(content)) == Ink(content)
  {
    PrintOfParse(content);
    InkOfTidyAll(Parse(content));
  }
}
