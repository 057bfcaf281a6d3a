/** Reading a streamed completion: what one attempt delivers and how it ends. */
module CompletionStream {
  import opened Common
  import opened Text
  import opened JsonText

  type Value = Json<Unit>
  type Parser = string -> Option<Value>

  const DATA: string := "data:"
  const DONE: string := "[DONE]"

  datatype UsageInfo = UsageInfo(prompt: Value, completion: Value, total: Value)

  /** What `json.loads` and the member accesses make of one data line. */
  datatype Chunk = Malformed | Chunk(usage: Option<Value>, token: Option<Value>)

  /** A connection attempt: the lines that arrive, and whether an HTTP error (a refused connection or an
      error status included) comes after them. */
  datatype Attempt = Attempt(lines: seq<string>, lost: bool)

  datatype Stop = SawDone | SawMalformed | ReadAll

  datatype Reading = Reading(tokens: seq<Value>, usage: Option<Value>, stop: Stop)

  datatype Ending = Success(usage: UsageInfo) | HttpFailure | OtherFailure

  /** Python's truth value. */
  predicate Truthy(j: Value) {
    match j
    case Null => false
    case Bool(b) => b
    case Num(n) => n != 0
    case Str(s) => s != []
    case Arr(items) => items.Item?
    case Obj(members) => members.Member?
  }

  const USAGE: string := "usage"
  const CHOICES: string := "choices"
  const DELTA: string := "delta"
  const CONTENT: string := "content"

  /** `chunk["choices"][0]["delta"]["content"]` with the source's defaults; None when an access raises. */
  function TokenOf(chunk: Members<Unit>): Option<Option<Value>> {
    var choices := Lookup(chunk, Units(CHOICES));
    if choices.None? || !Truthy(choices.value) then Some(None)
    else if !choices.value.Arr? || !choices.value.items.head.Obj? then None
    else
      var delta := Lookup(choices.value.items.head.members, Units(DELTA));
      if delta.None? then Some(None)
      else if !delta.value.Obj? then None
      else
        var content := Lookup(delta.value.members, Units(CONTENT));
        Some(if content.Some? && Truthy(content.value) then content else None)
  }

  function ChunkOf(data: string, parse: Parser): Chunk {
    var chunk := parse(data);
    if chunk.None? || !chunk.value.Obj? then Malformed
    else
      var usage := Lookup(chunk.value.members, Units(USAGE));
      var token := TokenOf(chunk.value.members);
      if token.None? then Malformed
      else Chunk(if usage.Some? && Truthy(usage.value) then usage else None, token.value)
  }

  function Payload(line: string): string
    requires DATA <= line
  {
    Strip(line[|DATA|..], PySpace)
  }

  /** Reads on from `sofar`. */
  function Read(lines: seq<string>, parse: Parser, sofar: Reading): Reading
    decreases |lines|
  {
    if lines == [] then sofar
    else if !(DATA <= lines[0]) then Read(lines[1..], parse, sofar)
    else
      var data := Payload(lines[0]);
      if data == DONE then sofar.(stop := SawDone)
      else
        var chunk := ChunkOf(data, parse);
        if chunk.Malformed? then sofar.(stop := SawMalformed)
        else
          var tokens := if chunk.token.Some? then sofar.tokens + [chunk.token.value] else sofar.tokens;
          Read(lines[1..], parse, Reading(tokens, if chunk.usage.Some? then chunk.usage else sofar.usage, ReadAll))
  }

  const START: Reading := Reading([], None, ReadAll)

  function CountAt(members: Members<Unit>, name: string): Value {
    var value := Lookup(members, Units(name));
    if value.Some? then value.value else Num(0)
  }

  const PROMPT: string := "prompt_tokens"
  const COMPLETION: string := "completion_tokens"
  const TOTAL: string := "total_tokens"

  function UsageOf(usage: Option<Value>): Option<UsageInfo> {
    if usage.None? then Some(UsageInfo(Num(0), Num(0), Num(0)))
    else if !usage.value.Obj? then None
    else
      var u := usage.value.members;
      Some(UsageInfo(CountAt(u, PROMPT), CountAt(u, COMPLETION), CountAt(u, TOTAL)))
  }

  function EndingOf(r: Reading, lost: bool): Ending {
    if r.stop.SawMalformed? then OtherFailure
    else if r.stop.ReadAll? && lost then HttpFailure
    else if UsageOf(r.usage).None? then OtherFailure
    else Success(UsageOf(r.usage).value)
  }

  function TokensOf(a: Attempt, parse: Parser): seq<Value> {
    Read(a.lines, parse, START).tokens
  }

  function Ended(a: Attempt, parse: Parser): Ending {
    EndingOf(Read(a.lines, parse, START), a.lost)
  }

  /** Reading continues where it left off. */
  lemma {:induction false} ReadAppend(a: seq<string>, b: seq<string>, parse: Parser, sofar: Reading)
    requires sofar.stop == ReadAll
    ensures var r := Read(a, parse, sofar);
            Read(a + b, parse, sofar) == if r.stop == ReadAll then Read(b, parse, r) else r
    decreases |a|
  {
    if a == [] {
      assert a + b == b;
    } else {
      assert (a + b)[1..] == a[1..] + b;
      if !(DATA <= a[0]) {
        ReadAppend(a[1..], b, parse, sofar);
      } else if Payload(a[0]) != DONE && ChunkOf(Payload(a[0]), parse).Chunk? {
        var chunk := ChunkOf(Payload(a[0]), parse);
        var tokens := if chunk.token.Some? then sofar.tokens + [chunk.token.value] else sofar.tokens;
        ReadAppend(a[1..], b, parse, Reading(tokens, if chunk.usage.Some? then chunk.usage else sofar.usage, ReadAll));
      }
    }
  }
}

/** What a stream of lines delivers, line by line. */
module StreamedTokens {
  import opened Common
  import opened Text
  import opened JsonText
  import opened CompletionStream

  /** The values Python takes for false. */
  ghost predicate Falsy(j: Value) {
    j == Null || j == Bool(false) || j == Num(0) || j == Str([]) || j == Arr(NoItems) || j == Obj(NoMembers)
  }

  /** `value` is the member `name` of the object `j`. */
  ghost predicate MemberIs(j: Value, name: string, value: Value) {
    j.Obj? && Lookup(j.members, Units(name)) == Some(value)
  }

  /** The first of the chunk's choices is `first`. */
  ghost predicate FirstChoice(chunk: Value, first: Value) {
    exists choices: Value :: MemberIs(chunk, "choices", choices) && choices.Arr? && choices.items.Item?
                             && choices.items.head == first
  }

  /** `choices[0].delta.content` of the chunk is `content`, and not empty. */
  ghost predicate HasContent(chunk: Value, content: Value) {
    exists first: Value, delta: Value ::
      && FirstChoice(chunk, first) && MemberIs(first, "delta", delta) && MemberIs(delta, "content", content)
      && !Falsy(content)
  }

  ghost predicate HasUsage(chunk: Value, usage: Value) {
    MemberIs(chunk, "usage", usage) && !Falsy(usage)
  }

  /** Nothing on the way to the content raises an exception: choices that are there and not empty are a list, its first
      entry is an object, and so is a delta. */
  ghost predicate Readable(chunk: Value) {
    && chunk.Obj?
    && (forall choices: Value :: MemberIs(chunk, "choices", choices) && !Falsy(choices) ==>
          choices.Arr? && choices.items.head.Obj?)
    && (forall first: Value, delta: Value :: FirstChoice(chunk, first) && MemberIs(first, "delta", delta) ==>
          delta.Obj?)
  }

  /** The line carries data; `data` is what stands behind "data:", without whitespace around it. */
  ghost predicate Carries(line: string, data: string) {
    |line| >= 5 && line[..5] == "data:" && data == Strip(line[5..], PySpace)
  }

  /** The line carries the chunk `chunk`. */
  ghost predicate CarriesChunk(line: string, parse: Parser, chunk: Value) {
    exists data: string :: Carries(line, data) && data != "[DONE]" && parse(data) == Some(chunk)
  }

  /** The line ends the reading: it says so, or it carries something that cannot be read. */
  ghost predicate SaysDone(line: string) {
    Carries(line, "[DONE]")
  }

  ghost predicate Unreadable(line: string, parse: Parser) {
    exists data: string ::
      Carries(line, data) && data != "[DONE]" && (parse(data).None? || !Readable(parse(data).value))
  }

  ghost predicate LineHasContent(line: string, parse: Parser, content: Value) {
    exists chunk: Value :: CarriesChunk(line, parse, chunk) && HasContent(chunk, content)
  }

  ghost predicate LineHasUsage(line: string, parse: Parser, usage: Value) {
    exists chunk: Value :: CarriesChunk(line, parse, chunk) && HasUsage(chunk, usage)
  }

  lemma FalsyIff(j: Value)
    ensures Falsy(j) <==> !Truthy(j)
  {
  }

  lemma NoChoice(chunk: Value, first: Value)
    requires chunk.Obj?
    requires var choices := Lookup(chunk.members, Units("choices"));
             choices.None? || !choices.value.Arr? || choices.value.items.NoItems?
    ensures !FirstChoice(chunk, first)
  {
  }

  lemma FirstChoiceIs(chunk: Value, choices: Value, first: Value)
    requires MemberIs(chunk, "choices", choices) && choices.Arr? && choices.items.Item?
    ensures FirstChoice(chunk, first) <==> first == choices.items.head
  {
  }

  lemma TokenOfIs(chunk: Value)
    requires chunk.Obj?
    ensures TokenOf(chunk.members).None? <==> !Readable(chunk)
    ensures TokenOf(chunk.members).Some? ==>
              forall v: Value :: HasContent(chunk, v) <==> TokenOf(chunk.members).value == Some(v)
  {
    var choices := Lookup(chunk.members, Units("choices"));
    if choices.None? || !Truthy(choices.value) || !choices.value.Arr? {
      forall first: Value
        ensures !FirstChoice(chunk, first)
      {
        NoChoice(chunk, first);
      }
      assert choices.Some? ==> MemberIs(chunk, "choices", choices.value);
    } else {
      assert MemberIs(chunk, "choices", choices.value);
      var head := choices.value.items.head;
      forall first: Value
        ensures FirstChoice(chunk, first) <==> first == head
      {
        FirstChoiceIs(chunk, choices.value, first);
      }
      if head.Obj? {
        ContentOfIs(chunk, head);
      }
    }
  }

  lemma ContentOfIs(chunk: Value, head: Value)
    requires head.Obj? && (forall first: Value :: FirstChoice(chunk, first) <==> first == head)
    requires chunk.Obj? && (forall choices: Value :: MemberIs(chunk, "choices", choices) ==>
                              choices.Arr? && choices.items.Item? && choices.items.head == head)
    requires Lookup(chunk.members, Units("choices")).Some?
    ensures TokenOf(chunk.members).None? <==> !Readable(chunk)
    ensures TokenOf(chunk.members).Some? ==>
              forall v: Value :: HasContent(chunk, v) <==> TokenOf(chunk.members).value == Some(v)
  {
    assert MemberIs(chunk, "choices", Lookup(chunk.members, Units("choices")).value);
    var delta := Lookup(head.members, Units("delta"));
    if delta.Some? {
      assert MemberIs(head, "delta", delta.value);
      if delta.value.Obj? {
        var content := Lookup(delta.value.members, Units("content"));
        assert content.Some? ==> MemberIs(delta.value, "content", content.value);
      }
    }
  }

  /** What one parsed line gives. */
  lemma ChunkOfIs(data: string, parse: Parser)
    ensures var chunk, parsed := ChunkOf(data, parse), parse(data);
            && (chunk.Malformed? <==> parsed.None? || !Readable(parsed.value))
            && (chunk.Chunk? ==>
                  && (forall v: Value :: HasContent(parsed.value, v) <==> chunk.token == Some(v))
                  && (forall v: Value :: HasUsage(parsed.value, v) <==> chunk.usage == Some(v)))
  {
    var parsed := parse(data);
    if parsed.Some? && parsed.value.Obj? {
      TokenOfIs(parsed.value);
    }
  }

  lemma CarriesIff(line: string, data: string)
    ensures Carries(line, data) <==> DATA <= line && data == Payload(line)
  {
    if |line| >= 5 && line[..5] == "data:" {
      assert DATA <= line;
    }
  }

  /** What a line gives, in terms of what the client makes of it. */
  lemma LineIs(line: string, parse: Parser)
    ensures !(DATA <= line) ==> !SaysDone(line) && !Unreadable(line, parse)
    ensures DATA <= line ==> (SaysDone(line) <==> Payload(line) == DONE)
    ensures DATA <= line && Payload(line) != DONE ==>
              (Unreadable(line, parse) <==> ChunkOf(Payload(line), parse).Malformed?)
  {
    CarriesIff(line, DONE);
    if DATA <= line {
      var data := Payload(line);
      forall d: string
        ensures Carries(line, d) <==> d == data
      {
        CarriesIff(line, d);
      }
      ChunkOfIs(data, parse);
    } else {
      forall d: string
        ensures !Carries(line, d)
      {
        CarriesIff(line, d);
      }
    }
  }

  lemma LineGives(line: string, parse: Parser, v: Value)
    requires DATA <= line && Payload(line) != DONE && ChunkOf(Payload(line), parse).Chunk?
    ensures LineHasContent(line, parse, v) <==> ChunkOf(Payload(line), parse).token == Some(v)
    ensures LineHasUsage(line, parse, v) <==> ChunkOf(Payload(line), parse).usage == Some(v)
  {
    var data := Payload(line);
    CarriesIff(line, data);
    ChunkOfIs(data, parse);
    var chunk := parse(data).value;
    assert CarriesChunk(line, parse, chunk);
    forall other: Value | CarriesChunk(line, parse, other)
      ensures other == chunk
    {
      var d: string :| Carries(line, d) && d != "[DONE]" && parse(d) == Some(other);
      CarriesIff(line, d);
    }
  }

  lemma OtherLinesGiveNothing(line: string, parse: Parser, v: Value)
    requires !(DATA <= line)
    ensures !LineHasContent(line, parse, v) && !LineHasUsage(line, parse, v)
  {
    forall data: string
      ensures !Carries(line, data)
    {
      CarriesIff(line, data);
    }
  }

  ghost predicate Increasing(idx: seq<nat>) {
    forall j, k :: 0 <= j < k < |idx| ==> idx[j] < idx[k]
  }

  ghost predicate PickAt(lines: seq<string>, n: nat, parse: Parser, i: nat, token: Value) {
    i < n <= |lines| && LineHasContent(lines[i], parse, token)
  }

  /** `tokens` are contents of lines among the first `n`, in the order of the lines; `idx` are these lines. */
  ghost predicate Picks(lines: seq<string>, n: nat, parse: Parser, idx: seq<nat>, tokens: seq<Value>) {
    && n <= |lines| && |idx| == |tokens| && Increasing(idx)
    && forall k :: 0 <= k < |idx| ==> PickAt(lines, n, parse, idx[k], tokens[k])
  }

  /** Every line with content is picked. */
  ghost predicate PicksAll(lines: seq<string>, n: nat, parse: Parser, idx: seq<nat>) {
    forall i: nat, v: Value :: i < n <= |lines| && LineHasContent(lines[i], parse, v) ==> i in idx
  }

  /** The tokens are the contents of the first `n` lines, in their order. */
  ghost predicate TokensAre(lines: seq<string>, n: nat, parse: Parser, idx: seq<nat>, tokens: seq<Value>) {
    Picks(lines, n, parse, idx, tokens) && PicksAll(lines, n, parse, idx)
  }

  ghost predicate NoUsage(lines: seq<string>, from: nat, n: nat, parse: Parser) {
    forall i: nat, v: Value :: from <= i < n <= |lines| ==> !LineHasUsage(lines[i], parse, v)
  }

  /** The usage is the last one on the first `n` lines, if there is any. */
  ghost predicate UsageIs(lines: seq<string>, n: nat, parse: Parser, usage: Option<Value>) {
    match usage
    case None => NoUsage(lines, 0, n, parse)
    case Some(u) =>
      exists i: nat :: i < n <= |lines| && LineHasUsage(lines[i], parse, u) && NoUsage(lines, i + 1, n, parse)
  }

  /** What reading on over one line does. */
  lemma ReadOne(lines: seq<string>, n: nat, parse: Parser, r: Reading)
    requires n < |lines| && r == Read(lines[..n], parse, START) && r.stop == ReadAll
    ensures Read(lines[..n + 1], parse, START) == Read([lines[n]], parse, r)
  {
    var before, line := lines[..n], [lines[n]];
    assert lines[..n + 1] == before + line;
    ReadAppend(before, line, parse, START);
  }

  lemma OneLine(line: string, parse: Parser, r: Reading)
    requires r.stop == ReadAll
    ensures var r' := Read([line], parse, r);
            if !(DATA <= line) then r' == r
            else if Payload(line) == DONE then r' == r.(stop := SawDone)
            else
              var chunk := ChunkOf(Payload(line), parse);
              if chunk.Malformed? then r' == r.(stop := SawMalformed)
              else
                && r'.stop == ReadAll
                && r'.tokens == r.tokens + (if chunk.token.Some? then [chunk.token.value] else [])
                && r'.usage == if chunk.usage.Some? then chunk.usage else r.usage
  {
    assert [line][1..] == [];
  }

  lemma PickStays(lines: seq<string>, n: nat, parse: Parser, i: nat, token: Value)
    requires n < |lines| && PickAt(lines, n, parse, i, token)
    ensures PickAt(lines, n + 1, parse, i, token) && i < n
  {
  }

  lemma PicksOne(lines: seq<string>, n: nat, parse: Parser, idx: seq<nat>, tokens: seq<Value>, token: Value)
    requires n < |lines| && Picks(lines, n, parse, idx, tokens) && PickAt(lines, n + 1, parse, n, token)
    ensures Picks(lines, n + 1, parse, idx + [n], tokens + [token])
  {
    forall k: nat | k < |idx|
      ensures PickAt(lines, n + 1, parse, idx[k], tokens[k]) && idx[k] < n
    {
      PickStays(lines, n, parse, idx[k], tokens[k]);
    }
  }

  lemma PicksStay(lines: seq<string>, n: nat, parse: Parser, idx: seq<nat>, tokens: seq<Value>)
    requires n < |lines| && Picks(lines, n, parse, idx, tokens)
    ensures Picks(lines, n + 1, parse, idx, tokens)
  {
    forall k: nat | k < |idx|
      ensures PickAt(lines, n + 1, parse, idx[k], tokens[k])
    {
      PickStays(lines, n, parse, idx[k], tokens[k]);
    }
  }

  lemma AllPicked(lines: seq<string>, n: nat, parse: Parser, idx: seq<nat>, more: seq<nat>)
    requires n < |lines| && PicksAll(lines, n, parse, idx) && idx <= more
    requires n in more || forall v: Value :: !LineHasContent(lines[n], parse, v)
    ensures PicksAll(lines, n + 1, parse, more)
  {
    forall i: nat, v: Value | i < n + 1 && LineHasContent(lines[i], parse, v)
      ensures i in more
    {
      if i < n {
        assert i in idx;
        var k :| 0 <= k < |idx| && idx[k] == i;
        assert more[k] == i;
      }
    }
  }

  lemma TokensGoOn(lines: seq<string>, n: nat, parse: Parser, idx: seq<nat>, tokens: seq<Value>, token: Option<Value>)
    returns (more: seq<nat>)
    requires n < |lines| && TokensAre(lines, n, parse, idx, tokens)
    requires forall v: Value :: LineHasContent(lines[n], parse, v) <==> token == Some(v)
    ensures TokensAre(lines, n + 1, parse, more, tokens + (if token.Some? then [token.value] else []))
  {
    if token.Some? {
      more := idx + [n];
      assert more[|idx|] == n;
      PicksOne(lines, n, parse, idx, tokens, token.value);
    } else {
      more := idx;
      assert tokens + [] == tokens;
      PicksStay(lines, n, parse, idx, tokens);
    }
    AllPicked(lines, n, parse, idx, more);
  }

  lemma NoUsageGoesOn(lines: seq<string>, from: nat, n: nat, parse: Parser)
    requires n < |lines| && NoUsage(lines, from, n, parse) && forall v: Value :: !LineHasUsage(lines[n], parse, v)
    ensures NoUsage(lines, from, n + 1, parse)
  {
  }

  lemma UsageGoesOn(lines: seq<string>, n: nat, parse: Parser, usage: Option<Value>, next: Option<Value>)
    requires n < |lines| && UsageIs(lines, n, parse, usage)
    requires forall v: Value :: LineHasUsage(lines[n], parse, v) <==> next == Some(v)
    ensures UsageIs(lines, n + 1, parse, if next.Some? then next else usage)
  {
    if next.Some? {
      assert LineHasUsage(lines[n], parse, next.value) && NoUsage(lines, n + 1, n + 1, parse);
    } else if usage.None? {
      NoUsageGoesOn(lines, 0, n, parse);
    } else {
      var i: nat :| i < n <= |lines| && LineHasUsage(lines[i], parse, usage.value) && NoUsage(lines, i + 1, n, parse);
      NoUsageGoesOn(lines, i + 1, n, parse);
    }
  }

  lemma {:induction false} LinesDeliver(lines: seq<string>, n: nat, parse: Parser) returns (idx: seq<nat>)
    requires n <= |lines| && forall i :: 0 <= i < n ==> !SaysDone(lines[i]) && !Unreadable(lines[i], parse)
    ensures var r := Read(lines[..n], parse, START);
            r.stop == ReadAll && TokensAre(lines, n, parse, idx, r.tokens) && UsageIs(lines, n, parse, r.usage)
    decreases n
  {
    if n == 0 {
      idx := [];
    } else {
      var before := LinesDeliver(lines, n - 1, parse);
      var r := Read(lines[..n - 1], parse, START);
      var line := lines[n - 1];
      ReadOne(lines, n - 1, parse, r);
      OneLine(line, parse, r);
      LineIs(line, parse);
      var token, usage := GivenBy(line, parse);
      idx := TokensGoOn(lines, n - 1, parse, before, r.tokens, token);
      UsageGoesOn(lines, n - 1, parse, r.usage, usage);
    }
  }

  lemma GivenBy(line: string, parse: Parser) returns (token: Option<Value>, usage: Option<Value>)
    requires !SaysDone(line) && !Unreadable(line, parse)
    ensures forall v: Value :: LineHasContent(line, parse, v) <==> token == Some(v)
    ensures forall v: Value :: LineHasUsage(line, parse, v) <==> usage == Some(v)
    ensures DATA <= line ==> ChunkOf(Payload(line), parse) == Chunk(usage, token)
    ensures !(DATA <= line) ==> token.None? && usage.None?
  {
    LineIs(line, parse);
    token, usage := None, None;
    if DATA <= line {
      var chunk := ChunkOf(Payload(line), parse);
      token, usage := chunk.token, chunk.usage;
      forall v: Value
        ensures LineHasContent(line, parse, v) <==> token == Some(v)
        ensures LineHasUsage(line, parse, v) <==> usage == Some(v)
      {
        LineGives(line, parse, v);
      }
    } else {
      forall v: Value
        ensures !LineHasContent(line, parse, v) && !LineHasUsage(line, parse, v)
      {
        OtherLinesGiveNothing(line, parse, v);
      }
    }
  }

  /** The lines up to `stop` are read, and `stop` is the first that ends the reading, or the number of lines. */
  lemma {:induction false} FirstStop(lines: seq<string>, parse: Parser, from: nat) returns (stop: nat)
    requires from <= |lines|
    ensures from <= stop <= |lines|
    ensures forall i :: from <= i < stop ==> !SaysDone(lines[i]) && !Unreadable(lines[i], parse)
    ensures stop < |lines| ==> SaysDone(lines[stop]) || Unreadable(lines[stop], parse)
    decreases |lines| - from
  {
    if from == |lines| || SaysDone(lines[from]) || Unreadable(lines[from], parse) {
      stop := from;
    } else {
      stop := FirstStop(lines, parse, from + 1);
    }
  }

  /** Reading delivers the contents of the lines before the first `[DONE]` or unreadable line, in their order, and the
      last usage among them; and it knows why it stopped. */
  lemma ReadDelivers(lines: seq<string>, parse: Parser) returns (stop: nat, idx: seq<nat>)
    ensures stop <= |lines| && forall i :: 0 <= i < stop ==> !SaysDone(lines[i]) && !Unreadable(lines[i], parse)
    ensures stop < |lines| ==> SaysDone(lines[stop]) || Unreadable(lines[stop], parse)
    ensures var r := Read(lines, parse, START);
            && TokensAre(lines, stop, parse, idx, r.tokens) && UsageIs(lines, stop, parse, r.usage)
            && (r.stop == ReadAll <==> stop == |lines|)
            && (r.stop == SawDone <==> stop < |lines| && SaysDone(lines[stop]))
  {
    stop := FirstStop(lines, parse, 0);
    idx := LinesDeliver(lines, stop, parse);
    var r := Read(lines[..stop], parse, START);
    if stop == |lines| {
      assert lines[..stop] == lines;
    } else {
      var rest := lines[stop..];
      assert lines == lines[..stop] + rest;
      ReadAppend(lines[..stop], rest, parse, START);
      LineIs(lines[stop], parse);
      StopsAtOnce(rest, parse, r);
    }
  }

  lemma StopsAtOnce(lines: seq<string>, parse: Parser, r: Reading)
    requires lines != [] && r.stop == ReadAll && DATA <= lines[0]
    requires Payload(lines[0]) == DONE || ChunkOf(Payload(lines[0]), parse).Malformed?
    ensures Read(lines, parse, r) == r.(stop := if Payload(lines[0]) == DONE then SawDone else SawMalformed)
  {
  }

  /** A count of the reported usage: the member of that name, 0 when there is none. */
  ghost predicate CountIs(usage: Value, name: string, count: Value) {
    MemberIs(usage, name, count) || (count == Num(0) && forall v: Value :: !MemberIs(usage, name, v))
  }

  lemma CountAtIs(usage: Value, name: string)
    requires usage.Obj?
    ensures CountIs(usage, name, CountAt(usage.members, name))
  {
    if Lookup(usage.members, Units(name)).Some? {
      assert MemberIs(usage, name, Lookup(usage.members, Units(name)).value);
    }
  }

  /** How an attempt ends: in an HTTP error exactly when the connection is lost and nothing ended the reading before;
      well when it is not lost or said it was done, with the counts of the last usage reported, or none. */
  lemma AttemptEnds(a: Attempt, parse: Parser) returns (stop: nat, idx: seq<nat>)
    ensures stop <= |a.lines| && TokensAre(a.lines, stop, parse, idx, TokensOf(a, parse))
    ensures forall i :: 0 <= i < stop ==> !SaysDone(a.lines[i]) && !Unreadable(a.lines[i], parse)
    ensures Ended(a, parse).HttpFailure? <==> stop == |a.lines| && a.lost
    ensures Ended(a, parse).Success? ==>
              if stop < |a.lines| then SaysDone(a.lines[stop]) else !a.lost
    ensures stop < |a.lines| ==>
              SaysDone(a.lines[stop]) || (Unreadable(a.lines[stop], parse) && Ended(a, parse).OtherFailure?)
    ensures Ended(a, parse).Success? ==>
              var counts := Ended(a, parse).usage;
              || (counts == UsageInfo(Num(0), Num(0), Num(0)) && NoUsage(a.lines, 0, stop, parse))
              || exists usage: Value ::
                   && UsageIs(a.lines, stop, parse, Some(usage)) && CountIs(usage, "prompt_tokens", counts.prompt)
                   && CountIs(usage, "completion_tokens", counts.completion)
                   && CountIs(usage, "total_tokens", counts.total)
  {
    stop, idx := ReadDelivers(a.lines, parse);
    var r := Read(a.lines, parse, START);
    if Ended(a, parse).Success? && r.usage.Some? {
      var usage := r.usage.value;
      CountAtIs(usage, "prompt_tokens");
      CountAtIs(usage, "completion_tokens");
      CountAtIs(usage, "total_tokens");
      assert UsageIs(a.lines, stop, parse, Some(usage));
    }
  }
}

/** The streaming client: up to three attempts behind the shared breaker. */
module StreamingClient {
  import opened Breaker
  import opened Resilience
  import opened CompletionStream

  datatype Result = Completed(usage: UsageInfo) | LlmError | Crashed

  const ATTEMPTS: nat := 3

  method ReadLines(lines: seq<string>, parse: Parser) returns (reading: Reading)
    ensures reading == Read(lines, parse, START)
  {
    reading := START;
    for i := 0 to |lines|
      invariant reading.stop == ReadAll
      invariant Read(lines, parse, START) == Read(lines[i..], parse, reading)
    {
      assert lines[i..][1..] == lines[i + 1..];
      var line := lines[i];
      if DATA <= line {
        var data := Payload(line);
        if data == DONE {
          return reading.(stop := SawDone);
        }
        var chunk := ChunkOf(data, parse);
        if chunk.Malformed? {
          return reading.(stop := SawMalformed);
        }
        if chunk.usage.Some? {
          reading := reading.(usage := chunk.usage);
        }
        if chunk.token.Some? {
          reading := reading.(tokens := reading.tokens + [chunk.token.value]);
        }
      }
    }
  }

  function ResultOf(e: Ending): Result {
    match e
    case Success(usage) => Completed(usage)
    case HttpFailure => LlmError
    case OtherFailure => Crashed
  }

  /** What the breaker is told: one outcome, or nothing after an error that is not an HTTP error. */
  function RecordOf(e: Ending, finish: int): seq<Outcome> {
    match e
    case Success(_) => [Succeeded]
    case HttpFailure => [FailedAt(finish)]
    case OtherFailure => []
  }

  /** Nothing of this attempt reached the caller, and it ended in an HTTP error. */
  predicate Retryable(a: Attempt, parse: Parser) {
    TokensOf(a, parse) == [] && Ended(a, parse).HttpFailure?
  }

  /** The attempt the call ends with: the first that is not retryable, or the last one allowed. */
  function LastTried(attempts: nat -> Attempt, parse: Parser, i: nat): (last: nat)
    requires i < ATTEMPTS
    ensures i <= last < ATTEMPTS
    decreases ATTEMPTS - i
  {
    if i == ATTEMPTS - 1 || !Retryable(attempts(i), parse) then i else LastTried(attempts, parse, i + 1)
  }

  /** Every attempt before the last delivered nothing and ended in an HTTP error; the last is not such a one unless no
      more are allowed. */
  lemma {:induction false} LastTriedIs(attempts: nat -> Attempt, parse: Parser, i: nat)
    requires i < ATTEMPTS
    ensures var last := LastTried(attempts, parse, i);
            && (forall k: nat :: i <= k < last ==> Retryable(attempts(k), parse))
            && (last < ATTEMPTS - 1 ==> !Retryable(attempts(last), parse))
    decreases ATTEMPTS - i
  {
    if i < ATTEMPTS - 1 && Retryable(attempts(i), parse) {
      LastTriedIs(attempts, parse, i + 1);
    }
  }

  /** `attempts(i)` is what attempt `i` would meet; the call starts at `start` and ends at `finish`.
      The tokens come from the last attempt alone, every earlier one delivered none, and a call the breaker
      lets through records exactly one outcome unless it ends in an error that is not an HTTP error. */
  method StreamComplete(breaker: CircuitBreaker, attempts: nat -> Attempt, parse: Parser, start: int, finish: int)
    returns (tokens: seq<Value>, result: Result, made: nat)
    requires breaker.Valid()
    modifies breaker
    ensures breaker.Valid()
    ensures old(breaker.FailsFast(start)) ==>
              tokens == [] && result == LlmError && made == 0 && breaker.trace == old(breaker.trace)
    ensures !old(breaker.FailsFast(start)) ==>
              && made == LastTried(attempts, parse, 0) + 1
              && tokens == TokensOf(attempts(made - 1), parse)
              && result == ResultOf(Ended(attempts(made - 1), parse))
              && breaker.trace == old(breaker.trace) + RecordOf(Ended(attempts(made - 1), parse), finish)
    ensures !old(breaker.FailsFast(start)) ==>
              match result
              case Completed(_) => breaker.trace == old(breaker.trace) + [Succeeded]
              case LlmError => breaker.trace == old(breaker.trace) + [FailedAt(finish)]
              case Crashed => breaker.trace == old(breaker.trace)
  {
    var open := breaker.CheckOpen(start);
    if open {
      return [], LlmError, 0;
    }
    var ending;
    tokens, ending, made := TryUpToThree(attempts, parse);
    result := ResultOf(ending);
    match ending
    case Success(_) => breaker.RecordSuccess();
    case HttpFailure => breaker.RecordFailure(finish);
    case OtherFailure =>
  }

  /** The attempt loop: tries again only after an HTTP error that came before the first token. */
  method TryUpToThree(attempts: nat -> Attempt, parse: Parser) returns (tokens: seq<Value>, ending: Ending, made: nat)
    ensures made == LastTried(attempts, parse, 0) + 1
    ensures tokens == TokensOf(attempts(made - 1), parse) && ending == Ended(attempts(made - 1), parse)
  {
    made := 0;
    for attempt := 0 to ATTEMPTS
      invariant made == attempt && attempt < ATTEMPTS
      invariant LastTried(attempts, parse, 0) == LastTried(attempts, parse, attempt)
    {
      made := made + 1;
      var reading := ReadLines(attempts(attempt).lines, parse);
      tokens, ending := reading.tokens, EndingOf(reading, attempts(attempt).lost);
      if !ending.HttpFailure? || tokens != [] || attempt == ATTEMPTS - 1 {
        return;
      }
    }
  }
}

/** The relay in front of the model providers. */
module Relay {
  import opened Common
  import opened JsonText

  datatype Upstream = HuggingFace | Groq

  /** How a provider answers: not at all, with an error status (whose body may fail to arrive), or with a
      stream that may break off. */
  datatype Response =
    | Unreachable
    | Refused(status: nat, bodyLost: bool)
    | Serving(chunks: seq<string>, lost: bool)

  /** Hugging Face comes first when it has a key; Groq is always the last resort. */
  function Upstreams(hfKey: string): (upstreams: seq<Upstream>)
    ensures 1 <= |upstreams| <= 2 && upstreams[|upstreams| - 1] == Groq
    ensures upstreams[0] == HuggingFace <==> hfKey != []
  {
    if hfKey != [] then [HuggingFace, Groq] else [Groq]
  }

  const ERROR: string := "error"
  const MESSAGE: string := "message"

  function ErrorObject(detail: string): Json<CodePoint> {
    Obj(Member(Codes(ERROR), Obj(Member(Codes(MESSAGE), Str(Codes(detail)), NoMembers)), NoMembers))
  }

  function ErrorFrame(detail: string): string {
    "data: " + Dumps(ErrorObject(detail)) + "\n\n"
  }

  const DONE_LINE: string := "data: [DONE]"
  const DONE_FRAME: string := DONE_LINE + "\n\n"
  const CONNECTION_LOST: string := "upstream connection lost"

  function StatusOf(r: Response): Option<nat> {
    if r.Refused? && !r.bodyLost then Some(r.status) else None
  }

  /** The message when no provider served; `last` is the answer of the last one tried. */
  function Detail(last: Response): string {
    if StatusOf(last).Some? then "upstream error " + PrintNat(StatusOf(last).value, "")
    else "upstream LLM provider unreachable"
  }

  /** The relay's loop. `ask` is how each provider would answer; `tried` are the ones contacted.
      The output holds bytes of one provider at most, and no provider after it is contacted. */
  method RelayStream(hfKey: string, ask: Upstream -> Response) returns (output: seq<string>, tried: seq<Upstream>)
    requires forall u :: ask(u).Refused? ==> ask(u).status >= 400
    ensures tried <= Upstreams(hfKey) && tried != []
    ensures forall i :: 0 <= i < |tried| - 1 ==> !ask(tried[i]).Serving?
    ensures match ask(tried[|tried| - 1])
            case Serving(chunks, lost) =>
              output == chunks + if lost then [ErrorFrame(CONNECTION_LOST), DONE_FRAME] else []
            case Refused(status, false) =>
              && tried == Upstreams(hfKey)
              && output == [ErrorFrame("upstream error " + PrintNat(status, "")), DONE_FRAME]
            case _ =>
              && tried == Upstreams(hfKey)
              && output == [ErrorFrame("upstream LLM provider unreachable"), DONE_FRAME]
  {
    var upstreams := Upstreams(hfKey);
    var lastStatus: Option<nat> := None;
    output, tried := [], [];
    for i := 0 to |upstreams|
      invariant tried == upstreams[..i] && output == []
      invariant forall j :: 0 <= j < i ==> !ask(upstreams[j]).Serving?
      invariant i > 0 ==> lastStatus == StatusOf(ask(upstreams[i - 1]))
    {
      tried := tried + [upstreams[i]];
      assert tried == upstreams[..i + 1];
      match ask(upstreams[i])
      case Unreachable =>
        lastStatus := None;
      case Refused(status, bodyLost) =>
        lastStatus := if bodyLost then None else Some(status);
      case Serving(chunks, lost) =>
        for k := 0 to |chunks|
          invariant output == chunks[..k]
        {
          output := output + [chunks[k]];
        }
        assert chunks[..|chunks|] == chunks;
        output := output + (if lost then [ErrorFrame(CONNECTION_LOST), DONE_FRAME] else []);
        return;
    }
    var detail := if lastStatus.Some? then "upstream error " + PrintNat(lastStatus.value, "")
                  else "upstream LLM provider unreachable";
    output := [ErrorFrame(detail), DONE_FRAME];
  }

  /** How a provider answers a request that is not streamed. */
  datatype Reply = NoReply | Reply(status: nat, body: string)

  predicate Failed(r: Reply) {
    r.NoReply? || r.status >= 400
  }

  const UNREACHABLE: nat := 503

  /** The branch that does not stream: the first reply without an error status, else the last provider's error
      reply, else 503. */
  method ChatCompletions(hfKey: string, ask: Upstream -> Reply) returns (status: nat, body: string,
                                                                         tried: seq<Upstream>)
    ensures tried <= Upstreams(hfKey) && tried != []
    ensures forall i :: 0 <= i < |tried| - 1 ==> ask(tried[i]).NoReply? || ask(tried[i]).status >= 400
    ensures var last := ask(tried[|tried| - 1]);
            && (last.Reply? ==> status == last.status && body == last.body)
            && (last.NoReply? ==> status == 503)
            && (last.NoReply? || last.status >= 400 ==> tried == Upstreams(hfKey))
  {
    var upstreams := Upstreams(hfKey);
    var lastReply := NoReply;
    tried := [];
    for i := 0 to |upstreams|
      invariant tried == upstreams[..i] && (i > 0 ==> lastReply == ask(upstreams[i - 1]))
      invariant forall j :: 0 <= j < i ==> Failed(ask(upstreams[j]))
    {
      tried := tried + [upstreams[i]];
      assert tried == upstreams[..i + 1];
      lastReply := ask(upstreams[i]);
      if !Failed(lastReply) {
        return lastReply.status, lastReply.body, tried;
      }
    }
    if lastReply.Reply? {
      return lastReply.status, lastReply.body, tried;
    }
    status, body := UNREACHABLE, "upstream LLM provider unreachable";
  }
}

/** Relay and client together: how the relay's way of reporting a failure looks to the client. */
module RelayedCompletion {
  import opened Common
  import opened Text
  import opened JsonText
  import opened Sse
  import opened Relay
  import opened JsonCut
  import C = CompletionStream

  /** What the relay appends when a provider breaks off or none serves. */
  function Tail(detail: string): string {
    ErrorFrame(detail) + DONE_FRAME
  }

  function ErrorLine(detail: string): string {
    "data: " + Dumps(ErrorObject(detail))
  }

  lemma UnitsHead(s: string)
    requires s != [] && s[0] < '\U{80}'
    ensures Units(s) != [] && Units(s)[0] == s[0] as int
  {
    assert Codes(s)[0] == s[0] as int;
    assert Utf16(Codes(s)) == Utf16Of(Codes(s)[0]) + Utf16(Codes(s)[1..]);
  }

  /** An object with a sole member that is neither "usage" nor "choices" carries no token and no usage. */
  lemma SoleOtherMember(key: string, value: Json<CodePoint>)
    requires key != [] && key[0] < '\U{80}' && key[0] != 'u' && key[0] != 'c'
    ensures var j := InBrowser(Obj(Member(Codes(key), value, NoMembers)));
            && j.Obj? && C.TokenOf(j.members) == Some(None)
            && Lookup(j.members, Units(C.USAGE)) == None
  {
    var members := MembersInBrowser(Member(Codes(key), value, NoMembers));
    assert MembersInBrowser(NoMembers) == NoMembers;
    assert members == Member(Units(key), InBrowser(value), NoMembers);
    KeysDiffer(key, C.USAGE);
    KeysDiffer(key, C.CHOICES);
    LookupOther(Units(key), InBrowser(value), Units(C.USAGE));
    LookupOther(Units(key), InBrowser(value), Units(C.CHOICES));
  }

  lemma KeysDiffer(a: string, b: string)
    requires a != [] && b != [] && a[0] < '\U{80}' && b[0] < '\U{80}' && a[0] != b[0]
    ensures Units(a) != Units(b)
  {
    UnitsHead(a);
    UnitsHead(b);
  }

  lemma LookupOther(key: seq<Unit>, value: Json<Unit>, other: seq<Unit>)
    requires key != other
    ensures Lookup(Member(key, value, NoMembers), other) == None
  {
    assert Lookup(NoMembers, other) == None;
  }

  /** The error frame reads as a chunk without token or usage. */
  lemma ErrorLineIsEmptyChunk(detail: string, parse: C.Parser)
    requires parse(Dumps(ErrorObject(detail))) == Loads(Dumps(ErrorObject(detail)))
    ensures C.DATA <= ErrorLine(detail) && C.Payload(ErrorLine(detail)) == Dumps(ErrorObject(detail))
    ensures C.Payload(ErrorLine(detail)) != C.DONE
    ensures C.ChunkOf(C.Payload(ErrorLine(detail)), parse) == C.Chunk(None, None)
  {
    var text := Dumps(ErrorObject(detail));
    ObjectIsOneLine(ErrorObject(detail));
    assert ErrorLine(detail)[5..] == [' '] + text;
    StripBlank(text, PySpace);
    assert C.DONE[0] == '[';
    JsonRoundTrip(ErrorObject(detail));
    assert ERROR[0] == 'e';
    SoleOtherMember(ERROR, Obj(Member(Codes(MESSAGE), Str(Codes(detail)), NoMembers)));
  }

  /** Two texts, each followed by a blank line. */
  lemma TwoFrames(first: string, second: string)
    requires forall i :: 0 <= i < |first| ==> first[i] != '\n'
    requires forall i :: 0 <= i < |second| ==> second[i] != '\n'
    ensures Lines(first + ['\n', '\n'] + (second + ['\n', '\n'])) == [first, [], second, [], []]
  {
    LinesStep(first, ['\n'] + (second + ['\n', '\n']));
    assert first + ['\n', '\n'] + (second + ['\n', '\n']) == first + ['\n'] + (['\n'] + (second + ['\n', '\n']));
    LinesStep([], second + ['\n', '\n']);
    assert [] + ['\n'] + (second + ['\n', '\n']) == ['\n'] + (second + ['\n', '\n']);
    LinesStep(second, ['\n']);
    assert second + ['\n', '\n'] == second + ['\n'] + ['\n'];
    LinesStep([], []);
    assert [] + ['\n'] + [] == ['\n'];
  }

  lemma DoneLine()
    ensures C.DATA <= DONE_LINE && C.Payload(DONE_LINE) == C.DONE
    ensures forall i :: 0 <= i < |DONE_LINE| ==> DONE_LINE[i] != '\n'
  {
    var done := C.DONE;
    assert DONE_LINE[5..] == [' '] + done;
    assert done != [] && done[0] == '[' && done[|done| - 1] == ']';
    StripBlank(done, PySpace);
  }

  lemma ReadTwoFrames(first: string, second: string, parse: C.Parser, sofar: C.Reading)
    requires C.DATA <= first && C.Payload(first) != C.DONE && C.ChunkOf(C.Payload(first), parse) == C.Chunk(None, None)
    requires C.DATA <= second && C.Payload(second) == C.DONE && sofar.stop == C.ReadAll
    ensures C.Read([first, [], second, [], []], parse, sofar) == sofar.(stop := C.SawDone)
  {
    var lines := [first, [], second, [], []];
    assert lines[1..] == [[], second, [], []] && lines[1..][1..] == [second, [], []];
    assert C.Read(lines[1..][1..], parse, sofar) == sofar.(stop := C.SawDone);
  }

  /** The complete lines of a body, and what comes after its last line break. */
  function Front(body: string): seq<string> {
    Lines(body)[..|Lines(body)| - 1]
  }

  function LastLine(body: string): string {
    Lines(body)[|Lines(body)| - 1]
  }

  /** The lines of a text and of what is appended to it, put together at the joint. */
  function Joined(lines: seq<string>, more: seq<string>): seq<string>
    requires lines != [] && more != []
  {
    lines[..|lines| - 1] + [lines[|lines| - 1] + more[0]] + more[1..]
  }

  /** What is appended goes on with the last line. */
  lemma {:induction false} LinesAppend(a: string, b: string)
    ensures Lines(a + b) == Joined(Lines(a), Lines(b))
    decreases |a|
  {
    if a == [] {
      assert a + b == b;
      var more := Lines(b);
      assert [] + more[0] == more[0] && more == [more[0]] + more[1..];
      assert Lines(a) == [[]] && [[]][..0] + [more[0]] + more[1..] == more;
    } else {
      assert (a + b)[1..] == a[1..] + b;
      LinesAppend(a[1..], b);
      if a[0] == '\n' {
        JoinedBlank(Lines(a[1..]), Lines(b));
      } else {
        JoinedChar(a[0], Lines(a[1..]), Lines(b));
      }
    }
  }

  lemma JoinedBlank(lines: seq<string>, more: seq<string>)
    requires lines != [] && more != []
    ensures Joined([[]] + lines, more) == [[]] + Joined(lines, more)
  {
    assert ([[]] + lines)[..|lines|] == [[]] + lines[..|lines| - 1];
  }

  lemma JoinedChar(c: char, lines: seq<string>, more: seq<string>)
    requires lines != [] && more != []
    ensures var all := Joined(lines, more);
            Joined([[c] + lines[0]] + lines[1..], more) == [[c] + all[0]] + all[1..]
  {
    var n, longer := |lines| - 1, [[c] + lines[0]] + lines[1..];
    var all := Joined(lines, more);
    if n == 0 {
      assert [c] + lines[0] + more[0] == [c] + (lines[0] + more[0]);
    } else {
      assert longer[..n] == [longer[0]] + lines[1..n];
      assert all[1..] == lines[1..n] + [lines[n] + more[0]] + more[1..];
    }
  }

  lemma ErrorLineIsForeign(detail: string) returns (z: string)
    ensures Foreign(ErrorLine(detail), z)
  {
    var y := ErrorLine(detail);
    ErrorText(detail);
    z := y[8..];
    assert y == y[..8] + z;
  }

  /** The error object begins with its key. */
  lemma ErrorText(detail: string)
    ensures var text := Dumps(ErrorObject(detail));
            |text| > 2 && text[0] == '{' && text[1] == '"' && text[2] == 'e'
  {
    ObjectIsOneLine(ErrorObject(detail));
    var members := Member(Codes(ERROR), Obj(Member(Codes(MESSAGE), Str(Codes(detail)), NoMembers)), NoMembers);
    assert Codes(ERROR)[0] == 0x65;
    assert Dumps(ErrorObject(detail)) == ['{'] + PrintMember(members, "");
  }

  lemma {:induction false} StripKeepsEnd(s: string, y: string, space: char -> bool)
    requires EndsIn(s, y) && y != [] && !space(y[0]) && !space(y[|y| - 1])
    ensures EndsIn(Strip(s, space), y)
    decreases |s|
  {
    assert s[|s| - 1] == s[|s| - |y|..][|y| - 1];
    if space(s[0]) {
      assert s != y;
      Later(s, y, 1);
      StripKeepsEnd(s[1..], y, space);
    }
  }

  /** A data line that broke off, glued to the error line, is no JSON. */
  lemma GluedIsRejected(line: string, detail: string)
    requires C.DATA <= line
    ensures C.DATA <= line + ErrorLine(detail)
    ensures Loads(C.Payload(line + ErrorLine(detail))) == None && C.Payload(line + ErrorLine(detail)) != C.DONE
  {
    var y := ErrorLine(detail);
    var z := ErrorLineIsForeign(detail);
    var glued := line + y;
    assert glued[|line|..] == y;
    Later(glued, y, 5);
    ForeignEnd(detail);
    StripKeepsEnd(glued[5..], y, PySpace);
    CutIsRejected(C.Payload(glued), y, z);
    assert |C.DONE| == 6;
  }

  lemma ForeignEnd(detail: string)
    ensures var y := ErrorLine(detail);
            |y| > 8 && !PySpace(y[0]) && !PySpace(y[|y| - 1])
  {
    ErrorText(detail);
    ObjectIsOneLine(ErrorObject(detail));
  }

  /** `parse` agrees with the JSON parser on the two texts that matter here: the error object, and a data line that
      broke off glued to the error line. */
  ghost predicate ReadsErrors(parse: C.Parser, body: string, detail: string) {
    && parse(Dumps(ErrorObject(detail))) == Loads(Dumps(ErrorObject(detail)))
    && (C.DATA <= LastLine(body) ==>
          var text := C.Payload(LastLine(body) + ErrorLine(detail)); parse(text) == Loads(text))
  }

  /** The lines the relay adds after the joint. */
  lemma TailAfterJoint(line: string, detail: string, parse: C.Parser, sofar: C.Reading)
    requires parse(Dumps(ErrorObject(detail))) == Loads(Dumps(ErrorObject(detail)))
    requires C.DATA <= line ==> var text := C.Payload(line + ErrorLine(detail)); parse(text) == Loads(text)
    requires sofar.stop == C.ReadAll
    ensures C.Read([line + ErrorLine(detail), [], DONE_LINE, [], []], parse, sofar) ==
            sofar.(stop := if C.DATA <= line then C.SawMalformed else C.SawDone)
  {
    DoneLine();
    ErrorLineIsEmptyChunk(detail, parse);
    var joint := line + ErrorLine(detail);
    var lines := [joint, [], DONE_LINE, [], []];
    if C.DATA <= line {
      GluedIsRejected(line, detail);
    } else if line == [] {
      assert joint == ErrorLine(detail);
      ReadTwoFrames(joint, DONE_LINE, parse, sofar);
    } else {
      NotData(line, detail);
      assert lines[1..] == [[], DONE_LINE, [], []] && lines[1..][1..] == [DONE_LINE, [], []];
      assert C.Read(lines[1..][1..], parse, sofar) == sofar.(stop := C.SawDone);
    }
  }

  /** A shorter beginning of a line does not become a data line. */
  lemma NotData(line: string, detail: string)
    requires line != [] && !(C.DATA <= line)
    ensures !(C.DATA <= line + ErrorLine(detail))
  {
    var joint := line + ErrorLine(detail);
    assert C.DATA == ['d', 'a', 't', 'a', ':'];
    assert joint[|line|] == 'd' && forall i :: 0 <= i < |line| ==> joint[i] == line[i];
  }

  /** What the client makes of a provider that breaks off anywhere, followed by the relay's error frame: the tokens of
      the complete lines; and, unless those ended the reading already, a crash when the last line is a data line, the
      ending of a complete stream otherwise. The lost connection as such is never noticed. */
  lemma BrokenStreamEnds(body: string, detail: string, parse: C.Parser)
    requires ReadsErrors(parse, body, detail)
    ensures var whole, broken := C.Attempt(Front(body), false), C.Attempt(Lines(body + Tail(detail)), false);
            && C.TokensOf(broken, parse) == C.TokensOf(whole, parse)
            && C.Ended(broken, parse) ==
               if C.Read(Front(body), parse, C.START).stop == C.ReadAll && C.DATA <= LastLine(body) then C.OtherFailure
               else C.Ended(whole, parse)
  {
    var front, line := Front(body), LastLine(body);
    BrokenLines(body, detail);
    C.ReadAppend(front, [line + ErrorLine(detail), [], DONE_LINE, [], []], parse, C.START);
    var sofar := C.Read(front, parse, C.START);
    if sofar.stop == C.ReadAll {
      TailAfterJoint(line, detail, parse, sofar);
    }
  }

  lemma BrokenLines(body: string, detail: string)
    ensures Lines(body + Tail(detail)) == Front(body) + [LastLine(body) + ErrorLine(detail), [], DONE_LINE, [], []]
  {
    LinesAppend(body, Tail(detail));
    TailLines(detail);
  }

  lemma TailLines(detail: string)
    ensures Lines(Tail(detail)) == [ErrorLine(detail), [], DONE_LINE, [], []]
  {
    ObjectIsOneLine(ErrorObject(detail));
    DoneLine();
    assert Tail(detail) == ErrorLine(detail) + ['\n', '\n'] + (DONE_LINE + ['\n', '\n']);
    TwoFrames(ErrorLine(detail), DONE_LINE);
  }

  /** When the complete lines would have been a success, the truncated answer passes for a complete one if and only if
      `[DONE]` was among them or the provider did not break off inside a data line. */
  lemma LossUnnoticedIff(body: string, detail: string, parse: C.Parser)
    requires ReadsErrors(parse, body, detail) && C.Ended(C.Attempt(Front(body), false), parse).Success?
    ensures C.Ended(C.Attempt(Lines(body + Tail(detail)), false), parse).Success?
       <==> C.Read(Front(body), parse, C.START).stop == C.SawDone || !(C.DATA <= LastLine(body))
  {
    BrokenStreamEnds(body, detail, parse);
  }

  lemma ConcatTwo(a: string, b: string)
    ensures Concat([a, b]) == a + b
  {
    assert [a, b][..1] == [a] && [a][..0] == [];
    assert Concat([a]) == [] + a;
  }

  /** When no provider answers at all, the client sees a success without tokens and without usage. */
  lemma OutageReadsAsSuccess(detail: string, parse: C.Parser)
    requires parse(Dumps(ErrorObject(detail))) == Loads(Dumps(ErrorObject(detail)))
    ensures var outage := C.Attempt(Lines(Concat([ErrorFrame(detail), DONE_FRAME])), false);
            C.TokensOf(outage, parse) == [] && C.Ended(outage, parse) == C.Success(C.UsageInfo(Num(0), Num(0), Num(0)))
  {
    ConcatTwo(ErrorFrame(detail), DONE_FRAME);
    assert [] + Tail(detail) == Tail(detail);
    BrokenStreamEnds([], detail, parse);
  }
}
