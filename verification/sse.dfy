/** Server-sent events between the chat service and the browser: the event stream format of the
    WHATWG HTML Living Standard, sections 9.2.5 and 9.2.6, as far as the two ends use it. */
module Sse {
  import opened Common
  import opened Text
  import opened JsonText

  /** What JavaScript's `trim` removes. */
  predicate JsSpace(c: char) {
    || '\t' <= c <= '\r' || c == ' ' || c == '\U{00A0}' || c == '\U{1680}' || '\U{2000}' <= c <= '\U{200A}'
    || c == '\U{2028}' || c == '\U{2029}' || c == '\U{202F}' || c == '\U{205F}' || c == '\U{3000}' || c == '\U{FEFF}'
  }

  /** `s.split("\n")`. */
  function Lines(s: string): (lines: seq<string>)
    ensures |lines| >= 1
    decreases |s|
  {
    if s == [] then [[]]
    else
      var more := Lines(s[1..]);
      if s[0] == '\n' then [[]] + more else [[s[0]] + more[0]] + more[1..]
  }

  function JoinLines(lines: seq<string>): string {
    if lines == [] then [] else if |lines| == 1 then lines[0] else lines[0] + ['\n'] + JoinLines(lines[1..])
  }

  const EVENT: string := "event:"
  const DATA: string := "data:"

  function Field(line: string, prefix: string): string
    requires prefix <= line
  {
    Strip(line[|prefix|..], JsSpace)
  }

  /** The value of the last `event:` line. */
  function EventName(lines: seq<string>): string {
    if lines == [] then []
    else if EVENT <= lines[|lines| - 1] then Field(lines[|lines| - 1], EVENT)
    else EventName(lines[..|lines| - 1])
  }

  /** The values of the `data:` lines, in order. */
  function DataLines(lines: seq<string>): seq<string> {
    if lines == [] then []
    else
      var last := lines[|lines| - 1];
      DataLines(lines[..|lines| - 1]) + (if !(EVENT <= last) && DATA <= last then [Field(last, DATA)] else [])
  }

  /** A frame yields an event, is skipped, or makes `JSON.parse` throw. */
  datatype Frame<D> = Event(name: string, data: D) | Skipped | Throws

  function FrameOf<D>(frame: string, parse: string -> Option<D>): Frame<D> {
    var lines := Lines(frame);
    var name, data := EventName(lines), DataLines(lines);
    if name == [] || data == [] then Skipped
    else
      var value := parse(JoinLines(data));
      if value.None? then Throws else Event(name, value.value)
  }

  method ParseFrame<D>(frame: string, parse: string -> Option<D>) returns (parsed: Frame<D>)
    ensures parsed == FrameOf(frame, parse)
  {
    var lines := Lines(frame);
    var event: string := [];
    var dataLines: seq<string> := [];
    for i := 0 to |lines|
      invariant event == EventName(lines[..i]) && dataLines == DataLines(lines[..i])
    {
      var line := lines[i];
      assert lines[..i + 1][..i] == lines[..i];
      if EVENT <= line {
        event := Field(line, EVENT);
      } else if DATA <= line {
        dataLines := dataLines + [Field(line, DATA)];
      }
    }
    assert lines[..|lines|] == lines;
    if event == [] || dataLines == [] {
      return Skipped;
    }
    var value := parse(JoinLines(dataLines));
    parsed := if value.None? then Throws else Event(event, value.value);
  }

  // ---- What a frame says, line by line. ----

  /** `value` is `text` without the whitespace around it. */
  ghost predicate Trimmed(text: string, value: string) {
    && (exists before: string, after: string ::
          text == before + value + after && AllSpace(before, JsSpace) && AllSpace(after, JsSpace))
    && (value != [] ==> !JsSpace(value[0]) && !JsSpace(value[|value| - 1]))
  }

  /** The line begins with `prefix`, and `value` is what follows, trimmed. */
  ghost predicate Says(line: string, prefix: string, value: string) {
    |line| >= |prefix| && line[..|prefix|] == prefix && Trimmed(line[|prefix|..], value)
  }

  /** The parts with a line break between each two. */
  ghost predicate IsJoin(text: string, parts: seq<string>)
    decreases |parts|
  {
    if parts == [] then text == []
    else if |parts| == 1 then text == parts[0]
    else
      && |text| > |parts[0]| && text[..|parts[0]|] == parts[0] && text[|parts[0]|] == '\n'
      && IsJoin(text[|parts[0]| + 1..], parts[1..])
  }

  /** `values` are the values of the `data:` lines, in order; `idx` are these lines. */
  ghost predicate DataIs(lines: seq<string>, idx: seq<nat>, values: seq<string>) {
    && |idx| == |values| && (forall j, k :: 0 <= j < k < |idx| ==> idx[j] < idx[k])
    && (forall k :: 0 <= k < |idx| ==> idx[k] < |lines| && Says(lines[idx[k]], "data:", values[k]))
    && (forall i: nat :: i < |lines| && DATA <= lines[i] ==> i in idx)
  }

  /** `name` is the value of the last `event:` line, empty when there is none. */
  ghost predicate NameIs(lines: seq<string>, name: string) {
    || (name == [] && forall i: nat :: i < |lines| ==> !(EVENT <= lines[i]))
    || exists i: nat ::
         && i < |lines| && Says(lines[i], "event:", name)
         && forall j: nat :: i < j < |lines| ==> !(EVENT <= lines[j])
  }

  lemma FieldSays(line: string, prefix: string)
    requires prefix <= line
    ensures Says(line, prefix, Field(line, prefix))
  {
    var before, after := StripCutsEnds(line[|prefix|..], JsSpace);
  }

  lemma {:induction false} NameOfLines(lines: seq<string>)
    ensures NameIs(lines, EventName(lines))
    decreases |lines|
  {
    if lines != [] {
      var last := |lines| - 1;
      if EVENT <= lines[last] {
        FieldSays(lines[last], EVENT);
        assert Says(lines[last], "event:", EventName(lines));
      } else {
        NameOfLines(lines[..last]);
        NameGoesOn(lines, EventName(lines));
      }
    }
  }

  lemma NameGoesOn(lines: seq<string>, name: string)
    requires lines != [] && !(EVENT <= lines[|lines| - 1]) && NameIs(lines[..|lines| - 1], name)
    ensures NameIs(lines, name)
  {
    var before := lines[..|lines| - 1];
    if i: nat :| i < |before| && Says(before[i], "event:", name)
                 && forall j: nat :: i < j < |before| ==> !(EVENT <= before[j]) {
      forall j: nat | i < j < |lines|
        ensures !(EVENT <= lines[j])
      {
        assert j < |before| ==> before[j] == lines[j];
      }
      assert Says(lines[i], "event:", name);
    } else {
      forall i: nat | i < |lines|
        ensures !(EVENT <= lines[i])
      {
        assert i < |before| ==> before[i] == lines[i];
      }
    }
  }

  lemma {:induction false} DataOfLines(lines: seq<string>) returns (idx: seq<nat>)
    ensures DataIs(lines, idx, DataLines(lines))
    decreases |lines|
  {
    if lines == [] {
      idx := [];
    } else {
      var last := |lines| - 1;
      var before := DataOfLines(lines[..last]);
      idx := before + if DATA <= lines[last] then [last] else [];
      DataGoesOn(lines, before, DataLines(lines[..last]));
    }
  }

  lemma DataGoesOn(lines: seq<string>, before: seq<nat>, values: seq<string>)
    requires lines != [] && DataIs(lines[..|lines| - 1], before, values)
    ensures var last := |lines| - 1;
            DataIs(lines, before + (if DATA <= lines[last] then [last] else []),
                   values + (if !(EVENT <= lines[last]) && DATA <= lines[last] then [Field(lines[last], DATA)] else []))
  {
    var last := |lines| - 1;
    if DATA <= lines[last] {
      FieldSays(lines[last], DATA);
      assert lines[last][0] == 'd';
    }
    var idx := before + if DATA <= lines[last] then [last] else [];
    forall i: nat | i < |lines| && DATA <= lines[i]
      ensures i in idx
    {
      if i == last {
        assert idx[|before|] == last;
      } else {
        assert lines[..last][i] == lines[i];
      }
    }
  }

  lemma {:induction false} JoinLinesJoins(parts: seq<string>)
    ensures IsJoin(JoinLines(parts), parts)
    decreases |parts|
  {
    if |parts| > 1 {
      JoinLinesJoins(parts[1..]);
      var text := JoinLines(parts);
      assert text[|parts[0]| + 1..] == JoinLines(parts[1..]);
    }
  }

  /** A frame is skipped when it has no name or no data, and else it is an event of the last name and the JSON value of
      the data lines joined by line breaks, or throws when that is no JSON. */
  lemma FrameSays<D(!new)>(frame: string, parse: string -> Option<D>) returns (name: string, idx: seq<nat>,
                                                                               data: seq<string>)
    ensures IsJoin(frame, Lines(frame)) && NameIs(Lines(frame), name) && DataIs(Lines(frame), idx, data)
    ensures FrameOf(frame, parse).Skipped? <==> name == [] || data == []
    ensures name != [] && data != [] ==>
              exists text: string :: IsJoin(text, data) &&
                FrameOf(frame, parse) == if parse(text).Some? then Event(name, parse(text).value) else Throws
  {
    var lines := Lines(frame);
    LinesJoin(frame);
    NameOfLines(lines);
    name, data := EventName(lines), DataLines(lines);
    idx := DataOfLines(lines);
    JoinLinesJoins(data);
  }

  lemma {:induction false} LinesJoin(s: string)
    ensures IsJoin(s, Lines(s)) && forall i :: 0 <= i < |Lines(s)| ==> '\n' !in Lines(s)[i]
    decreases |s|
  {
    if s != [] {
      LinesJoin(s[1..]);
      var more := Lines(s[1..]);
      if s[0] == '\n' {
        assert Lines(s) == [[]] + more && ([[]] + more)[1..] == more;
      } else {
        var lines := [[s[0]] + more[0]] + more[1..];
        assert Lines(s) == lines && lines[1..] == more[1..];
        LongerFirst(s, more, lines);
      }
    }
  }

  lemma OneFurther(s: string, n: nat)
    requires n + 1 < |s|
    ensures s[..n + 1] == [s[0]] + s[1..][..n] && s[1..][n] == s[n + 1] && s[1..][n + 1..] == s[n + 2..]
  {
  }

  lemma LongerFirst(s: string, more: seq<string>, lines: seq<string>)
    requires s != [] && more != [] && IsJoin(s[1..], more) && |lines| == |more|
    requires lines[0] == [s[0]] + more[0] && lines[1..] == more[1..]
    ensures IsJoin(s, lines)
  {
    if |more| == 1 {
      assert s == [s[0]] + s[1..];
    } else {
      OneFurther(s, |more[0]|);
    }
  }

  predicate BlankLineAt(s: string, i: nat) {
    i + 1 < |s| && s[i] == '\n' && s[i + 1] == '\n'
  }

  /** `buffer.indexOf("\n\n")`. */
  function BlankLine(s: string): (r: Option<nat>)
    ensures r.Some? ==> BlankLineAt(s, r.value) && forall k: nat :: k < r.value ==> !BlankLineAt(s, k)
    ensures r.None? ==> forall k: nat :: !BlankLineAt(s, k)
    decreases |s|
  {
    if |s| < 2 then None
    else if s[0] == '\n' && s[1] == '\n' then Some(0)
    else
      var r := BlankLine(s[1..]);
      assert forall k: nat :: k + 1 < |s| && k > 0 ==> (BlankLineAt(s, k) <==> BlankLineAt(s[1..], k - 1));
      if r.None? then None else Some(r.value + 1)
  }

  /** The complete frames at the front of `s`, and what is left of it. */
  function Drain(s: string): Pair<seq<string>, string>
    decreases |s|
  {
    var at := BlankLine(s);
    if at.None? then Pair([], s)
    else
      var Pair(frames, rest) := Drain(s[at.value + 2..]);
      Pair([s[..at.value]] + frames, rest)
  }

  function ParseAll<D>(frames: seq<string>, parse: string -> Option<D>): seq<Frame<D>> {
    seq(|frames|, i requires 0 <= i < |frames| => FrameOf(frames[i], parse))
  }

  /** The events among `parsed` up to the first frame that throws, and whether one did. */
  function Deliver<D>(parsed: seq<Frame<D>>): Pair<seq<Frame<D>>, bool> {
    if parsed == [] then Pair([], false)
    else if parsed[0].Throws? then Pair([], true)
    else
      var Pair(events, threw) := Deliver(parsed[1..]);
      Pair((if parsed[0].Event? then [parsed[0]] else []) + events, threw)
  }

  function Concat(chunks: seq<string>): string {
    if chunks == [] then [] else Concat(chunks[..|chunks| - 1]) + chunks[|chunks| - 1]
  }

  lemma BlankLineStays(s: string, more: string)
    requires BlankLine(s).Some?
    ensures var i := BlankLine(s).value;
            BlankLine(s + more) == Some(i) && (s + more)[..i] == s[..i] && (s + more)[i + 2..] == s[i + 2..] + more
  {
    var i := BlankLine(s).value;
    assert forall k: nat :: k <= i ==> (BlankLineAt(s + more, k) <==> BlankLineAt(s, k));
  }

  lemma FramesRegroup(first: string, a: seq<string>, b: seq<string>)
    ensures [first] + (a + b) == [first] + a + b
  {
  }

  /** Draining in two goes: what the first go leaves is drained together with what arrives next. */
  lemma {:induction false} DrainAppend(s: string, more: string)
    ensures var Pair(frames, rest) := Drain(s);
            var Pair(frames', rest') := Drain(rest + more);
            Drain(s + more) == Pair(frames + frames', rest')
    decreases |s|
  {
    var at := BlankLine(s);
    if at.None? {
      assert [] + Drain(s + more).fst == Drain(s + more).fst;
    } else {
      var i := at.value;
      BlankLineStays(s, more);
      DrainAppend(s[i + 2..], more);
      var frames := Drain(s[i + 2..]).fst;
      FramesRegroup(s[..i], frames, Drain(Drain(s[i + 2..]).snd + more).fst);
    }
  }

  lemma {:induction false} DeliverAppend<D>(a: seq<Frame<D>>, b: seq<Frame<D>>)
    ensures Deliver(a + b) ==
            if Deliver(a).snd then Deliver(a) else Pair(Deliver(a).fst + Deliver(b).fst, Deliver(b).snd)
    decreases |a|
  {
    if a == [] {
      assert a + b == b;
      assert [] + Deliver(b).fst == Deliver(b).fst;
    } else {
      assert (a + b)[1..] == a[1..] + b;
      DeliverAppend(a[1..], b);
      var first := if a[0].Event? then [a[0]] else [];
      assert first + (Deliver(a[1..]).fst + Deliver(b).fst) == first + Deliver(a[1..]).fst + Deliver(b).fst;
    }
  }

  lemma DeliverOne<D>(a: seq<Frame<D>>, f: Frame<D>)
    requires !Deliver(a).snd
    ensures Deliver(a + [f]) ==
            if f.Throws? then Pair(Deliver(a).fst, true)
            else Pair(if f.Event? then Deliver(a).fst + [f] else Deliver(a).fst, false)
  {
    var one := [f];
    DeliverAppend(a, one);
    assert one[1..] == [];
    assert Deliver(one[1..]) == Pair([], false);
    assert Deliver(a).fst + [] == Deliver(a).fst && one + [] == one;
    assert Deliver(one) == if f.Throws? then Pair([], true) else Pair(if f.Event? then one else [], false);
  }

  lemma ParseAllAppend<D>(a: seq<string>, b: seq<string>, parse: string -> Option<D>)
    ensures ParseAll(a + b, parse) == ParseAll(a, parse) + ParseAll(b, parse)
  {
  }

  /** One round of the inner loop: `buffer` holds a complete frame, the frames `done` are behind it. */
  lemma FrameTaken<D>(done: seq<string>, buffer: string, i: nat, parse: string -> Option<D>, events: seq<Frame<D>>)
    requires BlankLine(buffer) == Some(i) && Deliver(ParseAll(done, parse)) == Pair(events, false)
    ensures var frame, rest := buffer[..i], buffer[i + 2..];
            && Drain(buffer).snd == Drain(rest).snd
            && done + Drain(buffer).fst == done + [frame] + Drain(rest).fst
            && Deliver(ParseAll(done + [frame], parse)) ==
               var f := FrameOf(frame, parse);
               if f.Throws? then Pair(events, true) else Pair(if f.Event? then events + [f] else events, false)
  {
    var frame, rest := buffer[..i], buffer[i + 2..];
    assert done + ([frame] + Drain(rest).fst) == done + [frame] + Drain(rest).fst;
    ParseAllAppend(done, [frame], parse);
    assert ParseAll([frame], parse) == [FrameOf(frame, parse)];
    DeliverOne(ParseAll(done, parse), FrameOf(frame, parse));
  }

  /** The reader of `streamChatAnswer`. `chunks` is what the connection delivers, decoded. */
  method StreamChatAnswer<D>(chunks: seq<string>, parse: string -> Option<D>)
    returns (events: seq<Frame<D>>, threw: bool)
    ensures Pair(events, threw) == Deliver(ParseAll(Drain(Concat(chunks)).fst, parse))
  {
    events, threw := [], false;
    var buffer: string := [];
    ghost var done: seq<string> := [];
    for i := 0 to |chunks|
      invariant Drain(Concat(chunks[..i])) == Pair(done, buffer)
      invariant Deliver(ParseAll(done, parse)) == Pair(events, false)
    {
      ghost var all := Drain(Concat(chunks[..i + 1]));
      assert all == Pair(done + Drain(buffer + chunks[i]).fst, Drain(buffer + chunks[i]).snd) by {
        assert chunks[..i + 1][..i] == chunks[..i];
        DrainAppend(Concat(chunks[..i]), chunks[i]);
      }
      buffer := buffer + chunks[i];
      var at := BlankLine(buffer);
      while at.Some?
        invariant at == BlankLine(buffer)
        invariant all == Pair(done + Drain(buffer).fst, Drain(buffer).snd)
        invariant Deliver(ParseAll(done, parse)) == Pair(events, false)
        decreases |buffer|
      {
        FrameTaken(done, buffer, at.value, parse, events);
        var frame := buffer[..at.value];
        buffer := buffer[at.value + 2..];
        done := done + [frame];
        var parsed := ParseFrame(frame, parse);
        if parsed.Throws? {
          threw := true;
          ghost var later := LaterFrames(chunks, i + 1);
          FirstThrowDecides(Drain(Concat(chunks)).fst, done, Drain(buffer).fst, later, parse);
          return;
        }
        if parsed.Event? {
          events := events + [parsed];
        }
        at := BlankLine(buffer);
      }
      assert done + [] == done;
    }
    assert chunks[..|chunks|] == chunks;
  }

  /** Chunks still to come only add frames. */
  lemma LaterFrames(chunks: seq<string>, n: nat) returns (later: seq<string>)
    requires n <= |chunks|
    ensures Drain(Concat(chunks)).fst == Drain(Concat(chunks[..n])).fst + later
  {
    ConcatSplits(chunks, n);
    DrainAppend(Concat(chunks[..n]), Concat(chunks[n..]));
    later := Drain(Drain(Concat(chunks[..n])).snd + Concat(chunks[n..])).fst;
  }

  /** Once a frame has thrown, the rest of the stream does not matter. */
  lemma FirstThrowDecides<D>(frames: seq<string>, seen: seq<string>, unseen: seq<string>, later: seq<string>,
                             parse: string -> Option<D>)
    requires frames == seen + unseen + later && Deliver(ParseAll(seen, parse)).snd
    ensures Deliver(ParseAll(frames, parse)) == Deliver(ParseAll(seen, parse))
  {
    assert frames == seen + (unseen + later);
    ParseAllAppend(seen, unseen + later, parse);
    DeliverAppend(ParseAll(seen, parse), ParseAll(unseen + later, parse));
  }

  lemma {:induction false} ConcatSplits(chunks: seq<string>, n: nat)
    requires n <= |chunks|
    ensures Concat(chunks) == Concat(chunks[..n]) + Concat(chunks[n..])
    decreases |chunks|
  {
    if n == |chunks| {
      assert chunks[..n] == chunks;
    } else {
      var last := |chunks| - 1;
      ConcatSplits(chunks[..last], n);
      assert chunks[..last][..n] == chunks[..n];
      assert chunks[..last][n..] == chunks[n..][..last - n];
    }
  }

  // ---- The server's side, and the round trip. ----

  datatype ServerEvent = ServerEvent(name: string, data: Json<CodePoint>)

  /** `_sse`. */
  function Format(e: ServerEvent): string {
    "event: " + e.name + "\ndata: " + Dumps(e.data) + "\n\n"
  }

  function FormatAll(events: seq<ServerEvent>): string {
    if events == [] then [] else Format(events[0]) + FormatAll(events[1..])
  }

  /** What the browser should see of a server event. */
  function Received(e: ServerEvent): Frame<Json<Unit>> {
    Event(e.name, InBrowser(e.data))
  }

  function ReceivedAll(events: seq<ServerEvent>): (r: seq<Frame<Json<Unit>>>)
    ensures |r| == |events| && forall k :: 0 <= k < |events| ==> r[k] == Received(events[k])
  {
    if events == [] then [] else [Received(events[0])] + ReceivedAll(events[1..])
  }

  /** Every event the chat service sends: a name without whitespace, a JSON object as data. */
  ghost predicate Sendable(e: ServerEvent) {
    e.name != [] && NoSpace(e.name, JsSpace) && e.data.Obj?
  }

  predicate Printable(c: char) {
    ' ' <= c <= '~'
  }

  ghost predicate AllPrintable(s: string) {
    forall i :: 0 <= i < |s| ==> Printable(s[i])
  }

  ghost predicate SameEnd(s: string, rest: string) {
    rest != [] ==> s != [] && s[|s| - 1] == rest[|rest| - 1]
  }

  /** Printing adds printable ASCII characters in front and leaves the end alone. */
  lemma {:induction false} CharsPrint(s: seq<CodePoint>, rest: string)
    ensures AllPrintable(rest) ==> AllPrintable(PrintChars(s, rest))
    ensures SameEnd(PrintChars(s, rest), rest)
    decreases |s|
  {
    if s != [] {
      CharsPrint(s[1..], rest);
      CharPrints(s[0], PrintChars(s[1..], rest));
    }
  }

  lemma CharPrints(c: CodePoint, rest: string)
    ensures AllPrintable(rest) ==> AllPrintable(PrintChar(c, rest))
    ensures SameEnd(PrintChar(c, rest), rest)
  {
    if !(c == 0x22 || c == 0x5C || c == 0x0A || c == 0x0D || c == 0x09 || c == 0x0C || c == 0x08 || 0x20 <= c <= 0x7E) {
      var units := Utf16Of(c);
      UnitsPrint(units, rest);
    }
  }

  lemma {:induction false} UnitsPrint(units: seq<Unit>, rest: string)
    ensures AllPrintable(rest) ==> AllPrintable(PrintUnits(units, rest))
    ensures SameEnd(PrintUnits(units, rest), rest)
    decreases |units|
  {
    if units != [] {
      UnitsPrint(units[1..], rest);
      assert forall d :: 0 <= d < 16 ==> Printable(HexDigit(d));
    }
  }

  lemma StringPrints(s: seq<CodePoint>, rest: string)
    ensures AllPrintable(rest) ==> AllPrintable(PrintString(s, rest))
    ensures SameEnd(PrintString(s, rest), rest)
  {
    CharsPrint(s, ['"'] + rest);
  }

  lemma {:induction false} NatPrints(n: nat, rest: string)
    ensures AllPrintable(rest) ==> AllPrintable(PrintNat(n, rest))
    ensures SameEnd(PrintNat(n, rest), rest)
    decreases n
  {
    assert forall d :: 0 <= d < 10 ==> Printable(DigitChar(d));
    if n >= 10 {
      NatPrints(n / 10, [DigitChar(n % 10)] + rest);
    }
  }

  lemma {:induction false} ValuePrints(j: Json<CodePoint>, rest: string)
    ensures AllPrintable(rest) ==> AllPrintable(Print(j, rest))
    ensures SameEnd(Print(j, rest), rest)
    decreases j
  {
    match j
    case Num(n) => NatPrints(if n < 0 then -n else n, rest);
    case Str(s) => StringPrints(s, rest);
    case Arr(Item(head, tail)) =>
      ItemsPrint(tail, rest);
      ValuePrints(head, PrintItems(tail, rest));
    case Obj(Member(key, first, others)) => MembersPrint(Member(key, first, others), rest);
    case _ =>
  }

  lemma {:induction false} ItemsPrint(items: Items<CodePoint>, rest: string)
    ensures AllPrintable(rest) ==> AllPrintable(PrintItems(items, rest))
    ensures SameEnd(PrintItems(items, rest), rest) && PrintItems(items, rest) != []
    decreases items
  {
    if items.Item? {
      ItemsPrint(items.tail, rest);
      ValuePrints(items.head, PrintItems(items.tail, rest));
    }
  }

  lemma {:induction false} MembersPrint(members: Members<CodePoint>, rest: string)
    requires members.Member?
    ensures var s := PrintMember(members, rest);
            && (AllPrintable(rest) ==> AllPrintable(s))
            && s != [] && s[|s| - 1] == if rest == [] then '}' else rest[|rest| - 1]
    decreases members
  {
    var after := PrintMembers(members.others, rest);
    if members.others.Member? {
      MembersPrint(members.others, rest);
      SeparatorPrints(PrintMember(members.others, rest), rest);
    }
    ValuePrints(members.first, after);
    MemberPrints(members.key, Print(members.first, after), after);
  }

  lemma SeparatorPrints(more: string, rest: string)
    requires more != []
    ensures var s := [',', ' '] + more;
            (AllPrintable(more) ==> AllPrintable(s)) && s[|s| - 1] == more[|more| - 1]
  {
  }

  lemma MemberPrints(key: seq<CodePoint>, value: string, after: string)
    requires after != [] && (AllPrintable(after) ==> AllPrintable(value)) && SameEnd(value, after)
    ensures var s := PrintString(key, [':', ' '] + value);
            (AllPrintable(after) ==> AllPrintable(s)) && s != [] && s[|s| - 1] == after[|after| - 1]
  {
    StringPrints(key, [':', ' '] + value);
  }

  /** The text of an object is one line of printable ASCII between braces. */
  lemma ObjectIsOneLine(j: Json<CodePoint>)
    requires j.Obj?
    ensures var s := Dumps(j);
            AllPrintable(s) && |s| >= 2 && s[0] == '{' && s[|s| - 1] == '}'
  {
    if j.members.Member? {
      MembersPrint(j.members, "");
      assert Dumps(j) == ['{'] + PrintMember(j.members, "");
    }
  }

  lemma {:induction false} StripClean(s: string, space: char -> bool)
    requires s != [] && !space(s[0]) && !space(s[|s| - 1])
    ensures Strip(s, space) == s
  {
  }

  /** A text without line breaks, followed by a line break and more. */
  lemma {:induction false} LinesStep(line: string, more: string)
    requires forall i :: 0 <= i < |line| ==> line[i] != '\n'
    ensures Lines(line) == [line]
    ensures Lines(line + ['\n'] + more) == [line] + Lines(more)
    decreases |line|
  {
    if line == [] {
      assert line + ['\n'] + more == ['\n'] + more;
      assert (['\n'] + more)[1..] == more;
    } else {
      LinesStep(line[1..], more);
      assert (line + ['\n'] + more)[1..] == line[1..] + ['\n'] + more;
      assert [line[0]] + line[1..] == line;
    }
  }

  lemma TwoLines(first: string, second: string)
    requires EVENT <= first && !(EVENT <= second) && DATA <= second
    ensures EventName([first, second]) == Field(first, EVENT)
    ensures DataLines([first, second]) == [Field(second, DATA)]
  {
    assert [first, second][..1] == [first] && [first][..0] == [];
    assert EventName([first]) == Field(first, EVENT);
    assert DataLines([first]) == [];
  }

  lemma NameField(name: string)
    requires name != [] && NoSpace(name, JsSpace)
    ensures EVENT <= "event: " + name && Field("event: " + name, EVENT) == name
  {
    assert ("event: " + name)[6..] == [' '] + name;
    StripBlank(name, JsSpace);
  }

  lemma DataField(data: Json<CodePoint>)
    requires data.Obj?
    ensures DATA <= "data: " + Dumps(data) && Field("data: " + Dumps(data), DATA) == Dumps(data)
  {
    ObjectIsOneLine(data);
    assert ("data: " + Dumps(data))[5..] == [' '] + Dumps(data);
    StripBlank(Dumps(data), JsSpace);
  }

  /** `parseFrame` undoes `_sse`: the data is a single line because JSON text has no raw newline. */
  lemma FrameRoundTrip(e: ServerEvent)
    requires Sendable(e)
    ensures FrameOf("event: " + e.name + "\ndata: " + Dumps(e.data), Loads) == Received(e)
  {
    var text := Dumps(e.data);
    var first, second := "event: " + e.name, "data: " + text;
    assert Lines("event: " + e.name + "\ndata: " + text) == [first, second] by {
      ObjectIsOneLine(e.data);
      LinesStep(first, second);
      LinesStep(second, []);
      assert "event: " + e.name + "\ndata: " + text == first + ['\n'] + second;
    }
    TwoLines(first, second);
    NameField(e.name);
    DataField(e.data);
    JsonRoundTrip(e.data);
  }

  lemma StripBlank(s: string, space: char -> bool)
    requires s != [] && space(' ') && !space(s[0]) && !space(s[|s| - 1])
    ensures Strip([' '] + s, space) == s
  {
    assert ([' '] + s)[1..] == s;
    StripClean(s, space);
  }

  lemma DrainFormat(e: ServerEvent, more: string)
    requires Sendable(e)
    ensures Drain(Format(e) + more) ==
            Pair(["event: " + e.name + "\ndata: " + Dumps(e.data)] + Drain(more).fst, Drain(more).snd)
  {
    var frame := "event: " + e.name + "\ndata: " + Dumps(e.data);
    var s := Format(e) + more;
    ObjectIsOneLine(e.data);
    assert s == frame + ['\n', '\n'] + more;
    var k := 7 + |e.name|;
    assert forall i :: 0 <= i < |frame| && i != k ==> frame[i] != '\n';
    assert frame[k] == '\n' && frame[k + 1] == 'd';
    assert BlankLineAt(s, |frame|) && forall i: nat :: i < |frame| ==> !BlankLineAt(s, i);
    assert BlankLine(s) == Some(|frame|);
    assert s[..|frame|] == frame && s[|frame| + 2..] == more;
  }

  lemma {:induction false} DeliverFormatted(events: seq<ServerEvent>)
    requires forall k :: 0 <= k < |events| ==> Sendable(events[k])
    ensures Drain(FormatAll(events)).snd == []
    ensures Deliver(ParseAll(Drain(FormatAll(events)).fst, Loads)) ==
            Pair(ReceivedAll(events), false)
    decreases |events|
  {
    if events != [] {
      var rest := FormatAll(events[1..]);
      DrainFormat(events[0], rest);
      FrameRoundTrip(events[0]);
      DeliverFormatted(events[1..]);
      var frame := "event: " + events[0].name + "\ndata: " + Dumps(events[0].data);
      ParseAllAppend([frame], Drain(rest).fst, Loads);
      assert ParseAll([frame], Loads) == [Received(events[0])];
      DeliverOne([], Received(events[0]));
      assert [] + [Received(events[0])] == [Received(events[0])];
      DeliverAppend([Received(events[0])], ParseAll(Drain(rest).fst, Loads));
    }
  }

  /** Whatever way the connection cuts the printed stream into chunks, the reader yields exactly the
      events the server sent, in order. */
  lemma StreamRoundTrip(events: seq<ServerEvent>, chunks: seq<string>)
    requires forall k :: 0 <= k < |events| ==> Sendable(events[k])
    requires Concat(chunks) == FormatAll(events)
    ensures Deliver(ParseAll(Drain(Concat(chunks)).fst, Loads)) ==
            Pair(ReceivedAll(events), false)
  {
    DeliverFormatted(events);
  }

  /** The wire carries ASCII only, so decoding it chunk by chunk never splits a character. */
  lemma {:induction false} WireIsAscii(events: seq<ServerEvent>)
    requires forall k :: 0 <= k < |events| ==> Sendable(events[k]) && AllPrintable(events[k].name)
    ensures forall i :: 0 <= i < |FormatAll(events)| ==> FormatAll(events)[i] < '\U{80}'
    decreases |events|
  {
    if events != [] {
      ObjectIsOneLine(events[0].data);
      WireIsAscii(events[1..]);
    }
  }
}
