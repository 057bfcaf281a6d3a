/** Transforming a text outside its math and code spans. */
module ProtectedSpans {
  import opened Common

  /** `mark` stands in `s` at `i`. */
  predicate MarkAt(s: string, i: nat, mark: string) {
    i + |mark| <= |s| && s[i..i + |mark|] == mark
  }

  /** The first place from `i` on where `mark` stands. */
  function Find(s: string, i: nat, mark: string): (r: Option<nat>)
    ensures r.Some? ==> i <= r.value && MarkAt(s, r.value, mark)
    decreases |s| - i
  {
    if MarkAt(s, i, mark) then Some(i) else if i < |s| then Find(s, i + 1, mark) else None
  }

  /** The first `mark` from `i` on, unless a line break comes before it. */
  function FindInLine(s: string, i: nat, mark: char): (r: Option<nat>)
    ensures r.Some? ==> i <= r.value < |s| && s[r.value] == mark
    decreases |s| - i
  {
    if i >= |s| || s[i] == '\n' then None
    else if s[i] == mark then Some(i)
    else FindInLine(s, i + 1, mark)
  }

  const DISPLAY: string := ['$', '$']
  const FENCE: string := ['`', '`', '`']

  /** A span between two equal marks, the first of which stands at `p`: where it ends. */
  function Between(s: string, p: nat, mark: string): (e: Option<nat>)
    ensures e.Some? ==> p + 2 * |mark| <= e.value <= |s|
  {
    if !MarkAt(s, p, mark) then None
    else
      var close := Find(s, p + |mark|, mark);
      if close.None? then None else Some(close.value + |mark|)
  }

  function InLine(s: string, p: nat, mark: char): (e: Option<nat>)
    ensures e.Some? ==> p + 2 <= e.value <= |s|
  {
    if p >= |s| || s[p] != mark then None
    else
      var close := FindInLine(s, p + 1, mark);
      if close.None? then None else Some(close.value + 1)
  }

  /** The end of the protected span that starts at `p`: display math, inline math, fenced code, inline code, the first
      of these that fits. */
  function SpanEnd(s: string, p: nat): (e: Option<nat>)
    ensures e.Some? ==> p + 2 <= e.value <= |s|
  {
    var display, inline, fenced, code := Between(s, p, DISPLAY), InLine(s, p, '$'), Between(s, p, FENCE),
        InLine(s, p, '`');
    if display.Some? then display else if inline.Some? then inline else if fenced.Some? then fenced else code
  }

  lemma {:induction false} FindIsFirst(s: string, i: nat, mark: string)
    ensures forall k :: i <= k < (if Find(s, i, mark).Some? then Find(s, i, mark).value else |s| + 1) ==>
              !MarkAt(s, k, mark)
    decreases |s| - i
  {
    if !MarkAt(s, i, mark) && i < |s| {
      FindIsFirst(s, i + 1, mark);
    }
  }

  /** A lazy span between two marks: it ends at the first mark after the opening one. */
  lemma BetweenIff(s: string, p: nat, mark: string, e: nat)
    requires mark != []
    ensures Between(s, p, mark) == Some(e) <==>
            && p + 2 * |mark| <= e && MarkAt(s, p, mark) && MarkAt(s, e - |mark|, mark)
            && forall k :: p + |mark| <= k < e - |mark| ==> !MarkAt(s, k, mark)
  {
    FindIsFirst(s, p + |mark|, mark);
  }

  lemma {:induction false} FindInLineIs(s: string, i: nat, mark: char)
    requires mark != '\n'
    ensures var r := FindInLine(s, i, mark);
            && (r.Some? ==> forall k :: i <= k < r.value ==> s[k] != mark && s[k] != '\n')
            && (r.None? ==> forall e :: i <= e < |s| && s[e] == mark ==> exists k :: i <= k < e && s[k] == '\n')
    decreases |s| - i
  {
    if i < |s| && s[i] != '\n' && s[i] != mark {
      FindInLineIs(s, i + 1, mark);
    }
  }

  /** An inline span: from one mark to the next, on one line. */
  lemma InLineIff(s: string, p: nat, mark: char, e: nat)
    requires mark != '\n'
    ensures InLine(s, p, mark) == Some(e) <==>
            && p + 2 <= e <= |s| && s[p] == mark && s[e - 1] == mark
            && forall k :: p + 1 <= k < e - 1 ==> s[k] != mark && s[k] != '\n'
  {
    FindInLineIs(s, p + 1, mark);
  }

  /** A span from one mark to the next, over any text. */
  ghost predicate LazySpan(s: string, p: nat, e: nat, mark: string) {
    && p + 2 * |mark| <= e && MarkAt(s, p, mark) && MarkAt(s, e - |mark|, mark)
    && forall k :: p + |mark| <= k < e - |mark| ==> !MarkAt(s, k, mark)
  }

  /** A span from one mark to the next, on one line. */
  ghost predicate LineSpan(s: string, p: nat, e: nat, mark: char) {
    && p + 2 <= e <= |s| && s[p] == mark && s[e - 1] == mark
    && forall k :: p + 1 <= k < e - 1 ==> s[k] != mark && s[k] != '\n'
  }

  /** What the pattern matches at a place: display math; if there is none, inline math; if there is neither, fenced
      code; and inline code last. */
  lemma SpanEndIff(s: string, p: nat, e: nat)
    ensures SpanEnd(s, p) == Some(e) <==>
            || LazySpan(s, p, e, "$$")
            || ((forall x: nat :: !LazySpan(s, p, x, "$$")) && LineSpan(s, p, e, '$'))
            || ((forall x: nat :: !LazySpan(s, p, x, "$$") && !LineSpan(s, p, x, '$')) && LazySpan(s, p, e, "```"))
            || ((forall x: nat :: !LazySpan(s, p, x, "$$") && !LineSpan(s, p, x, '$') && !LazySpan(s, p, x, "```"))
                && LineSpan(s, p, e, '`'))
  {
    SpanKinds(s, p);
  }

  lemma SpanKinds(s: string, p: nat)
    ensures forall x: nat :: Between(s, p, DISPLAY) == Some(x) <==> LazySpan(s, p, x, "$$")
    ensures forall x: nat :: Between(s, p, FENCE) == Some(x) <==> LazySpan(s, p, x, "```")
    ensures forall x: nat :: InLine(s, p, '$') == Some(x) <==> LineSpan(s, p, x, '$')
    ensures forall x: nat :: InLine(s, p, '`') == Some(x) <==> LineSpan(s, p, x, '`')
  {
    assert DISPLAY == "$$" && FENCE == "```";
    BetweenIsLazy(s, p, DISPLAY);
    BetweenIsLazy(s, p, FENCE);
    InLineIsLine(s, p, '$');
    InLineIsLine(s, p, '`');
  }

  lemma BetweenIsLazy(s: string, p: nat, mark: string)
    requires mark != []
    ensures forall x: nat :: Between(s, p, mark) == Some(x) <==> LazySpan(s, p, x, mark)
  {
    forall x: nat
      ensures Between(s, p, mark) == Some(x) <==> LazySpan(s, p, x, mark)
    {
      BetweenIff(s, p, mark, x);
    }
  }

  lemma InLineIsLine(s: string, p: nat, mark: char)
    requires mark != '\n'
    ensures forall x: nat :: InLine(s, p, mark) == Some(x) <==> LineSpan(s, p, x, mark)
  {
    forall x: nat
      ensures InLine(s, p, mark) == Some(x) <==> LineSpan(s, p, x, mark)
    {
      InLineIff(s, p, mark, x);
    }
  }

  datatype Span = Span(from: nat, to: nat)

  /** The next match of the pattern from `p` on. */
  function NextSpan(s: string, p: nat): (r: Option<Span>)
    requires p <= |s|
    ensures r.Some? ==> p <= r.value.from < r.value.to <= |s|
    decreases |s| - p
  {
    if p == |s| then None
    else if SpanEnd(s, p).Some? then Some(Span(p, SpanEnd(s, p).value))
    else NextSpan(s, p + 1)
  }

  lemma {:induction false} NextSpanIsFirst(s: string, p: nat, k: nat)
    requires p <= k < |s| && SpanEnd(s, k).Some?
    ensures var next := NextSpan(s, p);
            next.Some? && next.value.from <= k && SpanEnd(s, next.value.from) == Some(next.value.to)
    decreases k - p
  {
    if SpanEnd(s, p).None? {
      NextSpanIsFirst(s, p + 1, k);
    }
  }

  lemma {:induction false} NextSpanMatches(s: string, p: nat)
    requires p <= |s| && NextSpan(s, p).Some?
    ensures SpanEnd(s, NextSpan(s, p).value.from) == Some(NextSpan(s, p).value.to)
    decreases |s| - p
  {
    if SpanEnd(s, p).None? {
      NextSpanMatches(s, p + 1);
    }
  }

  function Spans(s: string, p: nat): seq<Span>
    requires p <= |s|
    decreases |s| - p
  {
    var next := NextSpan(s, p);
    if next.None? then [] else [next.value] + Spans(s, next.value.to)
  }

  /** Spans one after the other, from `p` on. */
  ghost predicate InOrder(s: string, p: nat, spans: seq<Span>)
    decreases |spans|
  {
    if spans == [] then p <= |s|
    else p <= spans[0].from < spans[0].to <= |s| && InOrder(s, spans[0].to, spans[1..])
  }

  /** The text from `p` on, with everything outside the spans transformed. */
  function Rebuild(s: string, p: nat, spans: seq<Span>, transform: string -> string): string
    requires InOrder(s, p, spans)
    decreases |spans|
  {
    if spans == [] then transform(s[p..])
    else
      var Span(from, to) := spans[0];
      transform(s[p..from]) + (s[from..to] + Rebuild(s, to, spans[1..], transform))
  }

  /** `out` from `t` on is the text from `p` on with what lies between the spans replaced by `gaps`, one after the
      other, and the spans as they are. */
  ghost predicate GapsReplaced(s: string, p: nat, spans: seq<Span>, gaps: seq<string>, out: string, t: nat)
    decreases |spans|
  {
    && |gaps| == |spans| + 1 && t + |gaps[0]| <= |out| && out[t..t + |gaps[0]|] == gaps[0]
    && var u := t + |gaps[0]|;
       if spans == [] then u == |out|
       else
         var Span(from, to) := spans[0];
         && p <= from <= to <= |s| && u + (to - from) <= |out| && out[u..u + (to - from)] == s[from..to]
         && GapsReplaced(s, to, spans[1..], gaps[1..], out, u + (to - from))
  }

  /** What lies between the spans: before the first, between two, behind the last. */
  function Gaps(s: string, p: nat, spans: seq<Span>): (gaps: seq<string>)
    requires InOrder(s, p, spans)
    ensures |gaps| == |spans| + 1
    ensures forall k :: 0 <= k <= |spans| ==>
              var from, to := if k == 0 then p else spans[k - 1].to, if k == |spans| then |s| else spans[k].from;
              from <= to <= |s| && gaps[k] == s[from..to]
    decreases |spans|
  {
    if spans == [] then [s[p..]] else [s[p..spans[0].from]] + Gaps(s, spans[0].to, spans[1..])
  }

  lemma {:induction false} RebuildReplacesGaps(s: string, p: nat, spans: seq<Span>, transform: string -> string,
                                               out: string,
                                               t: nat) returns (gaps: seq<string>)
    requires InOrder(s, p, spans) && t <= |out| && out[t..] == Rebuild(s, p, spans, transform)
    ensures GapsReplaced(s, p, spans, gaps, out, t)
    ensures forall k :: 0 <= k <= |spans| ==> gaps[k] == transform(Gaps(s, p, spans)[k])
    decreases |spans|
  {
    if spans == [] {
      gaps := [transform(s[p..])];
      assert out[t..] == out[t..|out|];
    } else {
      var Span(from, to) := spans[0];
      var gap, rest := transform(s[p..from]), Rebuild(s, to, spans[1..], transform);
      GapThenSpan(out, t, gap, s[from..to], rest);
      var later := RebuildReplacesGaps(s, to, spans[1..], transform, out, t + |gap| + (to - from));
      gaps := [gap] + later;
      assert gaps[1..] == later;
    }
  }

  lemma GapThenSpan(out: string, t: nat, gap: string, span: string, rest: string)
    requires t <= |out| && out[t..] == gap + (span + rest)
    ensures var u := t + |gap|;
            && u + |span| <= |out| && out[t..u] == gap && out[u..u + |span|] == span && out[u + |span|..] == rest
  {
    var all := gap + (span + rest);
    assert all[..|gap|] == gap && all[|gap|..] == span + rest;
    assert out[t..t + |gap|] == all[..|gap|] && out[t + |gap|..] == all[|gap|..];
    var later := out[t + |gap|..];
    assert later[..|span|] == span && later[|span|..] == rest;
  }

  lemma {:induction false} SpansInOrder(s: string, p: nat)
    requires p <= |s|
    ensures InOrder(s, p, Spans(s, p))
    decreases |s| - p
  {
    var next := NextSpan(s, p);
    if next.Some? {
      SpansInOrder(s, next.value.to);
      assert Spans(s, p)[1..] == Spans(s, next.value.to);
    }
  }

  /** Every listed span is a match of the pattern. */
  lemma {:induction false} SpansAreMatches(s: string, p: nat, span: Span)
    requires p <= |s| && span in Spans(s, p)
    ensures SpanEnd(s, span.from) == Some(span.to)
    decreases |s| - p
  {
    var next := NextSpan(s, p).value;
    NextSpanMatches(s, p);
    if span != next {
      SpansAreMatches(s, next.to, span);
    }
  }

  ghost predicate Covered(spans: seq<Span>, k: nat) {
    exists i :: 0 <= i < |spans| && spans[i].from <= k < spans[i].to
  }

  /** No place where a span can start is left outside the listed ones. */
  lemma {:induction false} EveryMatchIsCovered(s: string, p: nat, k: nat)
    requires p <= k < |s| && SpanEnd(s, k).Some?
    ensures Covered(Spans(s, p), k)
    decreases |s| - p
  {
    NextSpanIsFirst(s, p, k);
    var next := NextSpan(s, p).value;
    var spans := Spans(s, p);
    if k < next.to {
      assert spans[0] == next;
    } else {
      EveryMatchIsCovered(s, next.to, k);
      var later := Spans(s, next.to);
      var i :| 0 <= i < |later| && later[i].from <= k < later[i].to;
      assert spans[i + 1] == later[i];
    }
  }

  /** The walk: what is between the matches goes through `transform`, the matches are copied. */
  method TransformOutsideMathAndCode(content: string, transform: string -> string) returns (result: string)
    ensures InOrder(content, 0, Spans(content, 0))
    ensures result == Rebuild(content, 0, Spans(content, 0), transform)
  {
    SpansInOrder(content, 0);
    result := "";
    var lastIndex := 0;
    var next := NextSpan(content, 0);
    while next.Some?
      invariant lastIndex <= |content| && next == NextSpan(content, lastIndex)
      invariant InOrder(content, lastIndex, Spans(content, lastIndex))
      invariant result + Rebuild(content, lastIndex, Spans(content, lastIndex), transform)
             == Rebuild(content, 0, Spans(content, 0), transform)
      decreases |content| - lastIndex
    {
      var Span(from, to) := next.value;
      RebuildStep(content, lastIndex, transform, result);
      result := result + transform(content[lastIndex..from]);
      result := result + content[from..to];
      lastIndex := to;
      next := NextSpan(content, lastIndex);
    }
    result := result + transform(content[lastIndex..]);
  }

  lemma Regroup(a: string, b: string, c: string, d: string)
    ensures a + (b + (c + d)) == a + b + c + d
  {
  }

  lemma RebuildStep(s: string, p: nat, transform: string -> string, done: string)
    requires p <= |s| && NextSpan(s, p).Some?
    ensures var Span(from, to) := NextSpan(s, p).value;
            && InOrder(s, p, Spans(s, p)) && InOrder(s, to, Spans(s, to))
            && done + Rebuild(s, p, Spans(s, p), transform) ==
               done + transform(s[p..from]) + s[from..to] + Rebuild(s, to, Spans(s, to), transform)
  {
    var Span(from, to) := NextSpan(s, p).value;
    SpansInOrder(s, p);
    SpansInOrder(s, to);
    assert Spans(s, p)[1..] == Spans(s, to);
    Regroup(done, transform(s[p..from]), s[from..to], Rebuild(s, to, Spans(s, to), transform));
  }

  /** With the identity transform the walk returns its input. */
  lemma {:induction false} IdentityIsLossless(s: string, p: nat, spans: seq<Span>, transform: string -> string)
    requires InOrder(s, p, spans) && forall t :: transform(t) == t
    ensures Rebuild(s, p, spans, transform) == s[p..]
    decreases |spans|
  {
    if spans != [] {
      var Span(from, to) := spans[0];
      IdentityIsLossless(s, to, spans[1..], transform);
      assert s[from..] == s[from..to] + s[to..];
      assert s[p..] == s[p..from] + s[from..];
    }
  }

  /** Where in the output the spans land, `at` being how much output comes before. */
  function Landings(s: string, p: nat, spans: seq<Span>, transform: string -> string, at: nat): (places: seq<nat>)
    requires InOrder(s, p, spans)
    ensures |places| == |spans|
    decreases |spans|
  {
    if spans == [] then []
    else
      var Span(from, to) := spans[0];
      var here := at + |transform(s[p..from])|;
      [here] + Landings(s, to, spans[1..], transform, here + (to - from))
  }

  /** `out` shows the span's text at `place`. */
  ghost predicate Verbatim(s: string, span: Span, out: string, place: nat) {
    span.from <= span.to <= |s| && place + (span.to - span.from) <= |out|
    && out[place..place + (span.to - span.from)] == s[span.from..span.to]
  }

  /** The spans stand verbatim in `out` at `places`, in order, without overlaps, from `at` on. */
  ghost predicate StandInOrder(s: string, spans: seq<Span>, out: string, places: seq<nat>, at: nat)
    requires |places| == |spans|
    decreases |spans|
  {
    spans != [] ==>
      && at <= places[0] && Verbatim(s, spans[0], out, places[0])
      && StandInOrder(s, spans[1..], out, places[1..], places[0] + (spans[0].to - spans[0].from))
  }

  /** Whatever the transform does, every span stands verbatim in the output, in the order of the input, without
      overlaps. */
  lemma {:induction false} SpansSurvive(s: string, p: nat, spans: seq<Span>, transform: string -> string,
                                        before: string)
    requires InOrder(s, p, spans)
    ensures StandInOrder(s, spans, before + Rebuild(s, p, spans, transform),
                         Landings(s, p, spans, transform, |before|), |before|)
    decreases |spans|
  {
    if spans != [] {
      var Span(from, to) := spans[0];
      var gap, span, rest := transform(s[p..from]), s[from..to], Rebuild(s, to, spans[1..], transform);
      var before' := before + gap + span;
      SpansSurvive(s, to, spans[1..], transform, before');
      Regroup(before, gap, span, rest);
      var here := |before| + |gap|;
      assert (before' + rest)[here..here + |span|] == span;
      var later := Landings(s, to, spans[1..], transform, |before'|);
      assert ([here] + later)[1..] == later;
    }
  }
}
