/** A Tutor turn on the server: what is stored, charged and sent for one question. */
module ChatTurn {
  import opened Common
  import opened JsonText
  import opened Sse
  import opened AnswerCache

  type PyText = seq<CodePoint>

  datatype SourceRef = SourceRef(documentId: PyText, filename: PyText)

  datatype Usage = Usage(prompt: nat, completion: nat, total: nat)

  datatype Answer = Answer(content: PyText, sources: seq<SourceRef>, usage: Usage)

  datatype Message = Asked(question: string) | Answered(answer: Answer)

  datatype Session = Session(subject: string, title: Option<string>, messages: seq<Message>)

  /** `used` is today's token count per user. */
  datatype World = World(sessions: map<string, Session>, used: map<string, nat>, redis: Redis<Answer>)

  /** How retrieval and generation end. A service reported as unavailable is told to the student; any other exception,
      in retrieval or in the middle of the answer, breaks the connection. */
  datatype Ending = Complete | Unavailable | Broken

  /** What the model answers: the deltas it streams, how that ends, the usage it reports. */
  datatype Generation = Generation(deltas: seq<PyText>, ending: Ending, usage: Option<Usage>)

  /** One question. `key` is its normal form, `sources` name the retrieved chunks' documents. */
  datatype Request = Request(session: string, user: string, question: string, key: string,
                             messageId: PyText, sources: seq<SourceRef>, generation: Generation)

  /** `broken`: the connection breaks after these events. */
  datatype Reply = QuotaExceeded | Stream(events: seq<ServerEvent>, broken: bool)

  const TITLE_MAX: nat := 80
  const UNAVAILABLE: string := "the Tutor is temporarily unavailable, please try again"

  // ---- Event payloads. ----

  const CONTENT: string := "content"
  const DOCUMENT_ID: string := "document_id"
  const SOURCE_FILENAME: string := "source_filename"
  const PROMPT_TOKENS: string := "prompt_tokens"
  const COMPLETION_TOKENS: string := "completion_tokens"
  const TOTAL_TOKENS: string := "total_tokens"
  const MESSAGE_ID: string := "message_id"
  const SOURCES: string := "sources"
  const USAGE: string := "usage"
  const CACHED: string := "cached"
  const DETAIL: string := "detail"

  function Entry(key: string, value: Json<CodePoint>, others: Members<CodePoint>): Members<CodePoint> {
    Member(Codes(key), value, others)
  }

  function TokenEvent(content: PyText): ServerEvent {
    ServerEvent("token", Obj(Entry(CONTENT, Str(content), NoMembers)))
  }

  function TokenEvents(deltas: seq<PyText>): (events: seq<ServerEvent>)
    ensures |events| == |deltas| && forall i :: 0 <= i < |deltas| ==> events[i] == TokenEvent(deltas[i])
  {
    if deltas == [] then [] else TokenEvents(deltas[..|deltas| - 1]) + [TokenEvent(deltas[|deltas| - 1])]
  }

  function SourceItems(sources: seq<SourceRef>): Items<CodePoint> {
    if sources == [] then NoItems
    else
      Item(Obj(Entry(DOCUMENT_ID, Str(sources[0].documentId),
                     Entry(SOURCE_FILENAME, Str(sources[0].filename), NoMembers))),
           SourceItems(sources[1..]))
  }

  function UsageObject(u: Usage): Json<CodePoint> {
    Obj(Entry(PROMPT_TOKENS, Num(u.prompt), Entry(COMPLETION_TOKENS, Num(u.completion),
        Entry(TOTAL_TOKENS, Num(u.total), NoMembers))))
  }

  function DoneData(messageId: PyText, answer: Answer, cached: bool): Json<CodePoint> {
    Obj(Entry(MESSAGE_ID, Str(messageId), Entry(SOURCES, Arr(SourceItems(answer.sources)),
        Entry(USAGE, UsageObject(answer.usage), Entry(CACHED, Bool(cached), NoMembers)))))
  }

  function DoneEvent(messageId: PyText, answer: Answer, cached: bool): ServerEvent {
    ServerEvent("done", DoneData(messageId, answer, cached))
  }

  function ErrorEvent(detail: string): ServerEvent {
    ServerEvent("error", Obj(Entry(DETAIL, Str(Codes(detail)), NoMembers)))
  }

  // ---- The turn as a function. ----

  function Joined(deltas: seq<PyText>): PyText {
    if deltas == [] then [] else Joined(deltas[..|deltas| - 1]) + deltas[|deltas| - 1]
  }

  /** Joining keeps the order: the deltas of two parts one after the other. */
  lemma {:induction false} JoinedInOrder(a: seq<PyText>, b: seq<PyText>)
    ensures Joined(a + b) == Joined(a) + Joined(b)
    ensures forall delta: PyText :: Joined([delta]) == delta
    decreases |b|
  {
    forall delta: PyText
      ensures Joined([delta]) == delta
    {
      assert [delta][..0] == [];
    }
    if b == [] {
      assert a + b == a;
    } else {
      assert (a + b)[..|a + b| - 1] == a + b[..|b| - 1];
      JoinedInOrder(a, b[..|b| - 1]);
    }
  }

  ghost predicate FirstOfDocument(chunks: seq<SourceRef>, i: nat) {
    i < |chunks| && forall j :: 0 <= j < i ==> chunks[j].documentId != chunks[i].documentId
  }

  ghost predicate Cites(sources: seq<SourceRef>, documentId: PyText) {
    exists i :: 0 <= i < |sources| && sources[i].documentId == documentId
  }

  /** One source per document: the first chunk of each, in retrieval order. */
  ghost function Unique(chunks: seq<SourceRef>): seq<SourceRef> {
    if chunks == [] then []
    else
      var last := |chunks| - 1;
      Unique(chunks[..last]) + (if FirstOfDocument(chunks, last) then [chunks[last]] else [])
  }

  lemma {:induction false} UniqueCites(chunks: seq<SourceRef>, d: PyText)
    ensures Cites(Unique(chunks), d) <==> Cites(chunks, d)
    decreases |chunks|
  {
    if chunks != [] {
      var last := |chunks| - 1;
      var init := chunks[..last];
      UniqueCites(init, d);
      assert Cites(chunks, d) <==> Cites(init, d) || chunks[last].documentId == d;
      if Cites(Unique(init), d) {
        var i :| 0 <= i < |Unique(init)| && Unique(init)[i].documentId == d;
        assert Unique(chunks)[i].documentId == d;
      }
      if FirstOfDocument(chunks, last) {
        assert Unique(chunks)[|Unique(init)|] == chunks[last];
      }
    }
  }

  /** Every document is cited exactly once... */
  lemma {:induction false} UniqueIsDistinct(chunks: seq<SourceRef>)
    ensures forall i, j :: 0 <= i < j < |Unique(chunks)| ==>
              Unique(chunks)[i].documentId != Unique(chunks)[j].documentId
    decreases |chunks|
  {
    if chunks != [] {
      var last := |chunks| - 1;
      UniqueIsDistinct(chunks[..last]);
      UniqueCites(chunks[..last], chunks[last].documentId);
      if FirstOfDocument(chunks, last) {
        assert !Cites(Unique(chunks[..last]), chunks[last].documentId);
      }
    }
  }

  /** ... by its best-ranked chunk, and documents come in the order of those chunks. */
  lemma {:induction false} UniqueIsInOrder(chunks: seq<SourceRef>, i: nat)
    requires FirstOfDocument(chunks, i)
    ensures |Unique(chunks[..i])| < |Unique(chunks)| && Unique(chunks)[|Unique(chunks[..i])|] == chunks[i]
    decreases |chunks|
  {
    var last := |chunks| - 1;
    if i < last {
      var init := chunks[..last];
      assert init[..i] == chunks[..i];
      assert FirstOfDocument(init, i);
      UniqueIsInOrder(init, i);
    }
  }

  function UsageOf(g: Generation): Usage {
    if g.usage.Some? then g.usage.value else Usage(0, 0, 0)
  }

  /** The first question, cut to the maximal length, names a session that has no title. */
  function Title(current: Option<string>, question: string): Option<string> {
    if current.Some? then current else Some(if |question| <= TITLE_MAX then question else question[..TITLE_MAX])
  }

  function UsedBy(w: World, user: string): nat {
    if user in w.used then w.used[user] else 0
  }

  function Say(w: World, session: string, m: Message): World
    requires session in w.sessions
  {
    var s := w.sessions[session];
    w.(sessions := w.sessions[session := s.(messages := s.messages + [m])])
  }

  function Opened(w: World, r: Request): World
    requires r.session in w.sessions
  {
    var s := w.sessions[r.session];
    Say(w.(sessions := w.sessions[r.session := s.(title := Title(s.title, r.question))]), r.session, Asked(r.question))
  }

  ghost function Generated(r: Request): Answer {
    Answer(Joined(r.generation.deltas), Unique(r.sources), UsageOf(r.generation))
  }

  /** What is sent, given the cached answer if there is one. */
  ghost function Sent(r: Request, cached: Option<Answer>): seq<ServerEvent> {
    if cached.Some? then [TokenEvent(cached.value.content), DoneEvent(r.messageId, cached.value, true)]
    else TokenEvents(r.generation.deltas) +
         match r.generation.ending
         case Complete => [DoneEvent(r.messageId, Generated(r), false)]
         case Unavailable => [ErrorEvent(UNAVAILABLE)]
         case Broken => []
  }

  predicate Breaks(r: Request, cached: Option<Answer>) {
    cached.None? && r.generation.ending.Broken?
  }

  function Charge(w: World, user: string, tokens: nat): World {
    w.(used := w.used[user := UsedBy(w, user) + tokens])
  }

  function Keep(w: World, subject: string, key: string, a: Answer): World {
    w.(redis := Apply(w.redis, Set(subject, key, a)))
  }

  /** What is stored, given the cached answer if there is one. */
  ghost function Stored(w: World, r: Request, cached: Option<Answer>, cacheable: bool): World
    requires r.session in w.sessions
  {
    var begun := Opened(w, r);
    if cached.Some? then Say(begun, r.session, Answered(cached.value))
    else if !r.generation.ending.Complete? then begun
    else
      var a := Generated(r);
      var said := Say(Charge(begun, r.user, a.usage.total), r.session, Answered(a));
      if cacheable then Keep(said, w.sessions[r.session].subject, r.key, a) else said
  }

  /** Only the first question of a session may be answered from the cache. */
  predicate Cacheable(w: World, r: Request)
    requires r.session in w.sessions
  {
    w.sessions[r.session].messages == []
  }

  function Cached(w: World, r: Request): Option<Answer>
    requires r.session in w.sessions
  {
    if Cacheable(w, r) then Get(w.redis, w.sessions[r.session].subject, r.key) else None
  }

  ghost function Turn(w: World, r: Request, maxQuota: nat): Pair<World, Reply>
    requires r.session in w.sessions
  {
    var cached := Cached(w, r);
    if cached.None? && UsedBy(w, r.user) >= maxQuota then Pair(w, QuotaExceeded)
    else
      Pair(Stored(w, r, cached, Cacheable(w, r)), Stream(Sent(r, cached), Breaks(r, cached)))
  }
}

/** The browser's side of a turn, and what the two sides agree on. */
module ChatAgreement {
  import opened Text
  import opened Common
  import opened JsonText
  import opened Sse
  import opened AnswerCache
  import opened ChatTurn

  datatype ChatEvent = Token(content: seq<Unit>) | Done(done: Json<Unit>) | Error(detail: seq<Unit>)

  datatype ChatState =
    | Idle
    | Streaming(content: seq<Unit>)
    | Shown(content: seq<Unit>, done: Json<Unit>)
    | Failed(content: seq<Unit>, error: seq<Unit>)

  function TextAt(data: Json<Unit>, key: string): Option<seq<Unit>> {
    if !data.Obj? then None
    else
      var value := Lookup(data.members, Units(key));
      if value.Some? && value.value.Str? then Some(value.value.text) else None
  }

  /** The typed event behind a frame, when it has the declared type. */
  function Typed(f: Frame<Json<Unit>>): Option<ChatEvent> {
    if !f.Event? then None
    else if f.name == "done" then Some(Done(f.data))
    else if f.name == "token" then
      var text := TextAt(f.data, CONTENT);
      if text.Some? then Some(Token(text.value)) else None
    else if f.name == "error" then
      var text := TextAt(f.data, DETAIL);
      if text.Some? then Some(Error(text.value)) else None
    else None
  }

  /** How many tokens precede the first terminal event. */
  function TokenCount(events: seq<ChatEvent>): (n: nat)
    ensures n <= |events| && (forall i :: 0 <= i < n ==> events[i].Token?) && (n < |events| ==> !events[n].Token?)
  {
    if events != [] && events[0].Token? then 1 + TokenCount(events[1..]) else 0
  }

  function Contents(tokens: seq<ChatEvent>): seq<Unit>
    requires forall i :: 0 <= i < |tokens| ==> tokens[i].Token?
  {
    if tokens == [] then [] else Contents(tokens[..|tokens| - 1]) + tokens[|tokens| - 1].content
  }

  /** The state a turn ends in: the first terminal event decides, and its tokens are the content. */
  function EndState(events: seq<ChatEvent>, threw: bool, message: seq<Unit>): ChatState {
    var n := TokenCount(events);
    var content := Contents(events[..n]);
    if n == |events| then (if threw then Failed([], message) else Streaming(content))
    else if events[n].Done? then Shown(content, events[n].done)
    else Failed(content, events[n].detail)
  }

  /** `ask`: runs over the events as they arrive; `threw` tells whether reading them ended with an
      exception whose message is `message`. */
  method Ask(events: seq<ChatEvent>, threw: bool, message: seq<Unit>) returns (state: ChatState)
    ensures state == EndState(events, threw, message)
  {
    state := Streaming([]);
    for i := 0 to |events|
      invariant TokenCount(events) >= i
      invariant forall j :: 0 <= j < i ==> events[j].Token?
      invariant state == Streaming(Contents(events[..i]))
    {
      match events[i]
      case Token(content) =>
        assert events[..i + 1][..i] == events[..i];
        state := Streaming(state.content + content);
        TokenCountAtLeast(events, i + 1);
      case Done(done) =>
        return Shown(state.content, done);
      case Error(detail) =>
        return Failed(state.content, detail);
    }
    if threw {
      state := Failed([], message);
    }
  }

  lemma {:induction false} TokenCountAtLeast(events: seq<ChatEvent>, n: nat)
    requires n <= |events| && forall i :: 0 <= i < n ==> events[i].Token?
    ensures TokenCount(events) >= n
    decreases n
  {
    if n > 0 {
      TokenCountAtLeast(events[1..], n - 1);
    }
  }

  ghost predicate Readable(frames: seq<Frame<Json<Unit>>>) {
    forall i :: 0 <= i < |frames| ==> Typed(frames[i]).Some?
  }

  function TypedAll(frames: seq<Frame<Json<Unit>>>): (events: seq<ChatEvent>)
    requires Readable(frames)
    ensures |events| == |frames| && forall i :: 0 <= i < |frames| ==> Typed(frames[i]) == Some(events[i])
  {
    if frames == [] then [] else [Typed(frames[0]).value] + TypedAll(frames[1..])
  }

  lemma SoleEntry(key: string, text: PyText)
    ensures var data := InBrowser(Obj(Entry(key, Str(text), NoMembers)));
            data.Obj? && TextAt(data, key) == Some(Utf16(text))
  {
    assert MembersInBrowser(Entry(key, Str(text), NoMembers)) == Member(Units(key), Str(Utf16(text)), NoMembers);
    assert Lookup(NoMembers, Units(key)) == None;
  }

  lemma TokenArrives(content: PyText)
    ensures Typed(Received(TokenEvent(content))) == Some(Token(Utf16(content)))
  {
    SoleEntry(CONTENT, content);
  }

  lemma ErrorArrives(detail: string)
    ensures Typed(Received(ErrorEvent(detail))) == Some(Error(Units(detail)))
  {
    SoleEntry(DETAIL, Codes(detail));
    assert "error"[0] == 'e' && "token"[0] == 't';
  }

  lemma {:induction false} Utf16Append(a: PyText, b: PyText)
    ensures Utf16(a + b) == Utf16(a) + Utf16(b)
    decreases |a|
  {
    if a == [] {
      assert a + b == b;
    } else {
      assert (a + b)[1..] == a[1..] + b;
      Utf16Append(a[1..], b);
    }
  }

  lemma {:induction false} ContentsOfDeltas(tokens: seq<ChatEvent>, deltas: seq<PyText>)
    requires |tokens| == |deltas| && forall i :: 0 <= i < |deltas| ==> tokens[i] == Token(Utf16(deltas[i]))
    ensures Contents(tokens) == Utf16(Joined(deltas))
    decreases |deltas|
  {
    if deltas != [] {
      var last := |deltas| - 1;
      ContentsOfDeltas(tokens[..last], deltas[..last]);
      Utf16Append(Joined(deltas[..last]), deltas[last]);
    }
  }

  /** What the service sends in one turn: tokens, then exactly one terminal event. */
  ghost predicate TurnShape(events: seq<ServerEvent>, deltas: seq<PyText>, last: ServerEvent) {
    events == TokenEvents(deltas) + [last] && last.data.Obj? && last.name in {"done", "error"}
    && Typed(Received(last)).Some? && !Typed(Received(last)).value.Token?
  }

  /** What the browser ends up showing of the chunks that arrive; a broken connection throws after them. */
  ghost function OnScreen(chunks: seq<string>, broken: bool, message: seq<Unit>): Option<ChatState> {
    var Pair(frames, threw) := Deliver(ParseAll(Drain(Concat(chunks)).fst, Loads));
    if Readable(frames) then Some(EndState(TypedAll(frames), threw || broken, message)) else None
  }

  /** `chunks` is what a browser may receive of a reply: everything, or a first part when the connection breaks. */
  ghost predicate Arrives(reply: Reply, chunks: seq<string>) {
    && reply.Stream?
    && if reply.broken then Concat(chunks) <= FormatAll(reply.events) else Concat(chunks) == FormatAll(reply.events)
  }

  lemma ShapeIsSendable(events: seq<ServerEvent>, deltas: seq<PyText>, last: ServerEvent)
    requires TurnShape(events, deltas, last)
    ensures forall k :: 0 <= k < |events| ==> Sendable(events[k])
  {
    assert NoSpace("token", JsSpace) && NoSpace("done", JsSpace) && NoSpace("error", JsSpace);
  }

  lemma ShapeIsReadable(events: seq<ServerEvent>, deltas: seq<PyText>, last: ServerEvent)
    requires TurnShape(events, deltas, last)
    ensures var frames, n := ReceivedAll(events), |deltas|;
            && |frames| == n + 1
            && (forall k :: 0 <= k < n ==> Typed(frames[k]) == Some(Token(Utf16(deltas[k]))))
            && Typed(frames[n]) == Typed(Received(last))
  {
    forall k | 0 <= k < |deltas|
      ensures Typed(ReceivedAll(events)[k]) == Some(Token(Utf16(deltas[k])))
    {
      TokenArrives(deltas[k]);
    }
  }

  lemma TokensThenTerminal(seen: seq<ChatEvent>, deltas: seq<PyText>, threw: bool, message: seq<Unit>)
    requires |seen| == |deltas| + 1 && !seen[|deltas|].Token?
    requires forall k :: 0 <= k < |deltas| ==> seen[k] == Token(Utf16(deltas[k]))
    ensures EndState(seen, threw, message) ==
            if seen[|deltas|].Done? then Shown(Utf16(Joined(deltas)), seen[|deltas|].done)
            else Failed(Utf16(Joined(deltas)), seen[|deltas|].detail)
  {
    var n := |deltas|;
    assert TokenCount(seen) == n by {
      TokenCountAtLeast(seen, n);
    }
    var tokens := seen[..n];
    assert Contents(tokens) == Utf16(Joined(deltas)) by {
      ContentsOfDeltas(tokens, deltas);
    }
  }

  /** The browser shows the concatenated tokens and the terminal event, however the stream is cut. */
  lemma BrowserShows(events: seq<ServerEvent>, deltas: seq<PyText>, last: ServerEvent, chunks: seq<string>,
                     message: seq<Unit>)
    requires TurnShape(events, deltas, last) && Concat(chunks) == FormatAll(events)
    ensures var terminal := Typed(Received(last)).value;
            OnScreen(chunks, false, message) ==
            Some(if terminal.Done? then Shown(Utf16(Joined(deltas)), terminal.done)
                 else Failed(Utf16(Joined(deltas)), terminal.detail))
  {
    ShapeIsSendable(events, deltas, last);
    StreamRoundTrip(events, chunks);
    var frames := ReceivedAll(events);
    ShapeEnds(events, deltas, last, message);
    assert OnScreen(chunks, false, message) == Some(EndState(TypedAll(frames), false, message));
  }

  lemma ShapeEnds(events: seq<ServerEvent>, deltas: seq<PyText>, last: ServerEvent, message: seq<Unit>)
    requires TurnShape(events, deltas, last)
    ensures Readable(ReceivedAll(events))
    ensures var terminal := Typed(Received(last)).value;
            EndState(TypedAll(ReceivedAll(events)), false, message) ==
            if terminal.Done? then Shown(Utf16(Joined(deltas)), terminal.done)
            else Failed(Utf16(Joined(deltas)), terminal.detail)
  {
    ShapeIsReadable(events, deltas, last);
    TokensThenTerminal(TypedAll(ReceivedAll(events)), deltas, false, message);
  }

  lemma JoinedOne(content: PyText)
    ensures Joined([content]) == content && TokenEvents([content]) == [TokenEvent(content)]
  {
    assert [content][..0] == [];
    assert [] + content == content;
  }

  lemma SentShape(r: Request, cached: Option<Answer>)
    ensures var events := Sent(r, cached);
            if cached.Some? then TurnShape(events, [cached.value.content], DoneEvent(r.messageId, cached.value, true))
            else match r.generation.ending
              case Complete => TurnShape(events, r.generation.deltas, DoneEvent(r.messageId, Generated(r), false))
              case Unavailable => TurnShape(events, r.generation.deltas, ErrorEvent(UNAVAILABLE))
              case Broken => events == TokenEvents(r.generation.deltas)
  {
    ErrorArrives(UNAVAILABLE);
    if cached.Some? {
      JoinedOne(cached.value.content);
    }
  }

  function MessagesOf(w: World, session: string): seq<Message>
    requires session in w.sessions
  {
    w.sessions[session].messages
  }

  /** What a turn stores. An answered turn adds question and answer to the transcript, charges a generated
      answer only and leaves the answer to a first question in the cache; a failed turn adds the
      question and nothing else. No other session changes. */
  lemma StoreAfterTurn(w: World, r: Request, maxQuota: nat)
    requires r.session in w.sessions && Turn(w, r, maxQuota).snd.Stream?
    ensures var w' := Turn(w, r, maxQuota).fst;
            && w'.sessions.Keys == w.sessions.Keys
            && (forall id :: id in w.sessions && id != r.session ==> w'.sessions[id] == w.sessions[id])
            && w'.sessions[r.session].subject == w.sessions[r.session].subject
            && w'.sessions[r.session].title == Title(w.sessions[r.session].title, r.question)
    ensures var w', before, cached := Turn(w, r, maxQuota).fst, MessagesOf(w, r.session), Cached(w, r);
            if cached.None? && !r.generation.ending.Complete? then
              MessagesOf(w', r.session) == before + [Asked(r.question)] && w'.used == w.used && w'.redis == w.redis
            else
              var a := if cached.Some? then cached.value else Generated(r);
              && MessagesOf(w', r.session) == before + [Asked(r.question), Answered(a)]
              && (w'.used == if cached.Some? then w.used else w.used[r.user := UsedBy(w, r.user) + a.usage.total])
              && (cached.None? ==>
                    && a.content == Joined(r.generation.deltas) && a.sources == Unique(r.sources)
                    && a.usage == match r.generation.usage case Some(usage) => usage case None => Usage(0, 0, 0))
              && (before == [] ==> Get(w'.redis, w.sessions[r.session].subject, r.key) == Some(a))
              && (before != [] || cached.Some? ==> w'.redis == w.redis)
              && (before == [] && cached.None? ==>
                    w'.redis == Apply(w.redis, Set(w.sessions[r.session].subject, r.key, a)))
  {
    var cached, before := Cached(w, r), MessagesOf(w, r.session);
    var begun := Opened(w, r);
    assert MessagesOf(begun, r.session) == before + [Asked(r.question)] && begun.used == w.used
           && begun.redis == w.redis;
    if cached.Some? || r.generation.ending.Complete? {
      var a := if cached.Some? then cached.value else Generated(r);
      assert before + [Asked(r.question)] + [Answered(a)] == before + [Asked(r.question), Answered(a)];
    }
  }

  lemma {:induction false} DeliveredPart<D>(parsed: seq<Frame<D>>, part: seq<Frame<D>>)
    requires part <= parsed && !Deliver(parsed).snd
    ensures !Deliver(part).snd && Deliver(part).fst <= Deliver(parsed).fst
    decreases |part|
  {
    if part != [] {
      assert part[1..] <= parsed[1..];
      DeliveredPart(parsed[1..], part[1..]);
    }
  }

  /** Of a stream that breaks off somewhere the browser reads the first events. */
  lemma PartIsRead(events: seq<ServerEvent>, part: string)
    requires part <= FormatAll(events) && forall k :: 0 <= k < |events| ==> Sendable(events[k])
    ensures var Pair(frames, threw) := Deliver(ParseAll(Drain(part).fst, Loads));
            !threw && frames <= ReceivedAll(events)
  {
    var all := FormatAll(events);
    DeliverFormatted(events);
    var more := all[|part|..];
    assert part + more == all;
    DrainAppend(part, more);
    DeliveredPart(ParseAll(Drain(all).fst, Loads), ParseAll(Drain(part).fst, Loads));
  }

  /** Of tokens and a connection that breaks the browser keeps nothing, wherever it breaks. */
  lemma BrokenShows(deltas: seq<PyText>, chunks: seq<string>, message: seq<Unit>)
    requires Concat(chunks) <= FormatAll(TokenEvents(deltas))
    ensures OnScreen(chunks, true, message) == Some(Failed([], message))
  {
    TokensAreSendable(deltas);
    PartIsRead(TokenEvents(deltas), Concat(chunks));
    TokensOnly(deltas, Deliver(ParseAll(Drain(Concat(chunks)).fst, Loads)).fst, message);
  }

  lemma TokensAreSendable(deltas: seq<PyText>)
    ensures forall k :: 0 <= k < |deltas| ==> Sendable(TokenEvents(deltas)[k])
  {
    assert NoSpace("token", JsSpace);
  }

  lemma TokensOnly(deltas: seq<PyText>, frames: seq<Frame<Json<Unit>>>, message: seq<Unit>)
    requires frames <= ReceivedAll(TokenEvents(deltas))
    ensures Readable(frames) && EndState(TypedAll(frames), true, message) == Failed([], message)
  {
    forall k | 0 <= k < |frames|
      ensures Typed(frames[k]) == Some(Token(Utf16(deltas[k])))
    {
      assert frames[k] == ReceivedAll(TokenEvents(deltas))[k];
      TokenArrives(deltas[k]);
    }
    TokenCountAtLeast(TypedAll(frames), |frames|);
  }

  /** Without a terminal event and without an error the browser goes on showing a running answer. */
  lemma UnfinishedShows(deltas: seq<PyText>, chunks: seq<string>, message: seq<Unit>)
    requires Concat(chunks) == FormatAll(TokenEvents(deltas))
    ensures OnScreen(chunks, false, message) == Some(Streaming(Utf16(Joined(deltas))))
  {
    TokensAreSendable(deltas);
    StreamRoundTrip(TokenEvents(deltas), chunks);
    var frames := ReceivedAll(TokenEvents(deltas));
    TokensOnly(deltas, frames, message);
    forall k | 0 <= k < |frames|
      ensures TypedAll(frames)[k] == Token(Utf16(deltas[k]))
    {
      TokenArrives(deltas[k]);
    }
    OnlyTokens(TypedAll(frames), deltas, message);
  }

  lemma OnlyTokens(events: seq<ChatEvent>, deltas: seq<PyText>, message: seq<Unit>)
    requires |events| == |deltas| && forall k :: 0 <= k < |deltas| ==> events[k] == Token(Utf16(deltas[k]))
    ensures EndState(events, false, message) == Streaming(Utf16(Joined(deltas)))
  {
    TokenCountAtLeast(events, |events|);
    assert events[..|events|] == events;
    ContentsOfDeltas(events, deltas);
  }

  // ---- What the payloads say, member by member. ----

  /** The member `name` of a received object is `value`. */
  ghost predicate FieldIs(data: Json<Unit>, name: string, value: Json<Unit>) {
    data.Obj? && Lookup(data.members, Units(name)) == Some(value)
  }

  ghost predicate SourcesAre(items: Items<Unit>, sources: seq<SourceRef>)
    decreases |sources|
  {
    if sources == [] then items == NoItems
    else
      && items.Item? && FieldIs(items.head, "document_id", Str(Utf16(sources[0].documentId)))
      && FieldIs(items.head, "source_filename", Str(Utf16(sources[0].filename))) && SourcesAre(items.tail, sources[1..])
  }

  ghost predicate UsageSays(data: Json<Unit>, u: Usage) {
    && FieldIs(data, "prompt_tokens", Num(u.prompt)) && FieldIs(data, "completion_tokens", Num(u.completion))
    && FieldIs(data, "total_tokens", Num(u.total))
  }

  /** The payload of `done`: the message's id, its sources in order, its usage and whether it was cached. */
  ghost predicate DoneSays(data: Json<Unit>, messageId: PyText, a: Answer, cached: bool) {
    && FieldIs(data, "message_id", Str(Utf16(messageId))) && FieldIs(data, "cached", Bool(cached))
    && (exists items: Items<Unit> :: FieldIs(data, "sources", Arr(items)) && SourcesAre(items, a.sources))
    && exists usage: Json<Unit> :: FieldIs(data, "usage", usage) && UsageSays(usage, a.usage)
  }

  lemma {:induction false} SourceItemsAre(sources: seq<SourceRef>)
    ensures SourcesAre(ItemsInBrowser(SourceItems(sources)), sources)
    decreases |sources|
  {
    if sources != [] {
      SourceIs(sources[0]);
      SourceItemsAre(sources[1..]);
    }
  }

  /** Names with different first letters are different in the browser. */
  lemma FirstUnit(name: string, first: char)
    requires name != [] && name[0] == first && first < '\U{80}'
    ensures Units(name) != [] && Units(name)[0] == first as int
  {
    assert Codes(name)[0] == first as int;
  }

  lemma FirstField(key: string, value: Json<CodePoint>, others: Members<CodePoint>, name: string)
    ensures var later := Lookup(MembersInBrowser(others), Units(name));
            Lookup(MembersInBrowser(Entry(key, value, others)), Units(name))
            == if later.Some? then later else if Units(key) == Units(name) then Some(InBrowser(value)) else None
  {
  }

  lemma TwoFields(a: string, va: Json<CodePoint>, b: string, vb: Json<CodePoint>)
    requires Units(a) != Units(b)
    ensures var data := InBrowser(Obj(Entry(a, va, Entry(b, vb, NoMembers))));
            FieldIs(data, a, InBrowser(va)) && FieldIs(data, b, InBrowser(vb))
  {
    var rest := Entry(b, vb, NoMembers);
    FirstField(a, va, rest, a);
    FirstField(a, va, rest, b);
    FirstField(b, vb, NoMembers, a);
    FirstField(b, vb, NoMembers, b);
  }

  /** A first member in front of others, all of different names. */
  lemma OneMoreField(key: string, value: Json<CodePoint>, others: Members<CodePoint>, name: string, v: Json<Unit>)
    requires Units(key) != Units(name) && FieldIs(InBrowser(Obj(others)), name, v)
    ensures FieldIs(InBrowser(Obj(Entry(key, value, others))), name, v)
  {
    FirstField(key, value, others, name);
  }

  lemma NewField(key: string, value: Json<CodePoint>, others: Members<CodePoint>)
    requires Lookup(MembersInBrowser(others), Units(key)).None?
    ensures FieldIs(InBrowser(Obj(Entry(key, value, others))), key, InBrowser(value))
  {
    FirstField(key, value, others, key);
  }

  lemma NoField(key: string, value: Json<CodePoint>, others: Members<CodePoint>, name: string)
    requires Units(key) != Units(name) && Lookup(MembersInBrowser(others), Units(name)).None?
    ensures Lookup(MembersInBrowser(Entry(key, value, others)), Units(name)).None?
  {
    FirstField(key, value, others, name);
  }

  lemma NoFields(name: string)
    ensures Lookup(MembersInBrowser(NoMembers), Units(name)).None?
  {
  }

  lemma SourceIs(source: SourceRef)
    ensures var item := InBrowser(Obj(Entry(DOCUMENT_ID, Str(source.documentId),
                                            Entry(SOURCE_FILENAME, Str(source.filename), NoMembers))));
            && FieldIs(item, "document_id", Str(Utf16(source.documentId)))
            && FieldIs(item, "source_filename", Str(Utf16(source.filename)))
  {
    FirstUnit(DOCUMENT_ID, 'd');
    FirstUnit(SOURCE_FILENAME, 's');
    TwoFields(DOCUMENT_ID, Str(source.documentId), SOURCE_FILENAME, Str(source.filename));
  }

  lemma ThreeFields(a: string, va: Json<CodePoint>, b: string, vb: Json<CodePoint>, c: string, vc: Json<CodePoint>)
    requires Units(a) != Units(b) && Units(a) != Units(c) && Units(b) != Units(c)
    ensures var data := InBrowser(Obj(Entry(a, va, Entry(b, vb, Entry(c, vc, NoMembers)))));
            FieldIs(data, a, InBrowser(va)) && FieldIs(data, b, InBrowser(vb)) && FieldIs(data, c, InBrowser(vc))
  {
    var rest := Entry(b, vb, Entry(c, vc, NoMembers));
    TwoFields(b, vb, c, vc);
    OneMoreField(a, va, rest, b, InBrowser(vb));
    OneMoreField(a, va, rest, c, InBrowser(vc));
    NoFields(a);
    NoField(c, vc, NoMembers, a);
    NoField(b, vb, Entry(c, vc, NoMembers), a);
    NewField(a, va, rest);
  }

  lemma FourFields(a: string, va: Json<CodePoint>, b: string, vb: Json<CodePoint>, c: string, vc: Json<CodePoint>,
                   d: string, vd: Json<CodePoint>)
    requires Units(a) != Units(b) && Units(a) != Units(c) && Units(a) != Units(d)
    requires Units(b) != Units(c) && Units(b) != Units(d) && Units(c) != Units(d)
    ensures var data := InBrowser(Obj(Entry(a, va, Entry(b, vb, Entry(c, vc, Entry(d, vd, NoMembers))))));
            && FieldIs(data, a, InBrowser(va)) && FieldIs(data, b, InBrowser(vb))
            && FieldIs(data, c, InBrowser(vc)) && FieldIs(data, d, InBrowser(vd))
  {
    var rest := Entry(b, vb, Entry(c, vc, Entry(d, vd, NoMembers)));
    ThreeFields(b, vb, c, vc, d, vd);
    OneMoreField(a, va, rest, b, InBrowser(vb));
    OneMoreField(a, va, rest, c, InBrowser(vc));
    OneMoreField(a, va, rest, d, InBrowser(vd));
    NoFields(a);
    NoField(d, vd, NoMembers, a);
    NoField(c, vc, Entry(d, vd, NoMembers), a);
    NoField(b, vb, Entry(c, vc, Entry(d, vd, NoMembers)), a);
    NewField(a, va, rest);
  }

  lemma UsageNamesDiffer()
    ensures Units(PROMPT_TOKENS) != Units(COMPLETION_TOKENS) && Units(PROMPT_TOKENS) != Units(TOTAL_TOKENS)
    ensures Units(COMPLETION_TOKENS) != Units(TOTAL_TOKENS)
  {
    FirstUnit(PROMPT_TOKENS, 'p');
    FirstUnit(COMPLETION_TOKENS, 'c');
    FirstUnit(TOTAL_TOKENS, 't');
  }

  lemma UsageObjectSays(u: Usage)
    ensures UsageSays(InBrowser(UsageObject(u)), u)
  {
    UsageNamesDiffer();
    ThreeFields(PROMPT_TOKENS, Num(u.prompt), COMPLETION_TOKENS, Num(u.completion), TOTAL_TOKENS, Num(u.total));
  }

  lemma DoneNamesDiffer()
    ensures Units(MESSAGE_ID) != Units(SOURCES) && Units(MESSAGE_ID) != Units(USAGE)
            && Units(MESSAGE_ID) != Units(CACHED)
    ensures Units(SOURCES) != Units(USAGE) && Units(SOURCES) != Units(CACHED) && Units(USAGE) != Units(CACHED)
  {
    FirstUnit(MESSAGE_ID, 'm');
    FirstUnit(SOURCES, 's');
    FirstUnit(USAGE, 'u');
    FirstUnit(CACHED, 'c');
  }

  lemma DoneDataSays(messageId: PyText, a: Answer, cached: bool)
    ensures DoneSays(InBrowser(DoneData(messageId, a, cached)), messageId, a, cached)
  {
    DoneNamesDiffer();
    SourceItemsAre(a.sources);
    UsageObjectSays(a.usage);
    FourFields(MESSAGE_ID, Str(messageId), SOURCES, Arr(SourceItems(a.sources)), USAGE, UsageObject(a.usage),
               CACHED, Bool(cached));
    assert FieldIs(InBrowser(DoneData(messageId, a, cached)), SOURCES, Arr(ItemsInBrowser(SourceItems(a.sources))));
  }

  /** The screen shows the answer's content and a `done` that describes it. */
  ghost predicate ShownAs(state: Option<ChatState>, messageId: PyText, a: Answer, cached: bool) {
    && state.Some? && state.value.Shown? && state.value.content == Utf16(a.content)
    && DoneSays(state.value.done, messageId, a, cached)
  }

  /** A turn is refused exactly when the student is over the quota and the question is not a first one that is cached; a
      refused turn leaves everything as it is. */
  lemma RefusedIff(w: World, r: Request, maxQuota: nat)
    requires r.session in w.sessions
    ensures var s := w.sessions[r.session];
            Turn(w, r, maxQuota).snd.QuotaExceeded? <==>
            && (if r.user in w.used then w.used[r.user] else 0) >= maxQuota
            && (s.messages != [] || Get(w.redis, s.subject, r.key).None?)
    ensures Turn(w, r, maxQuota).snd.QuotaExceeded? ==> Turn(w, r, maxQuota).fst == w
  {
  }

  /** What the screen shows of a turn, given the cached answer if there is one. */
  lemma ScreenOf(r: Request, cached: Option<Answer>, chunks: seq<string>, message: seq<Unit>)
    requires Arrives(Stream(Sent(r, cached), Breaks(r, cached)), chunks)
    ensures var state := OnScreen(chunks, Breaks(r, cached), message);
            if cached.Some? then ShownAs(state, r.messageId, cached.value, true)
            else
              match r.generation.ending
              case Complete => ShownAs(state, r.messageId, Generated(r), false)
              case Unavailable => state == Some(Failed(Utf16(Joined(r.generation.deltas)), Units(UNAVAILABLE)))
              case Broken => state == Some(Failed([], message))
  {
    SentShape(r, cached);
    if cached.Some? {
      JoinedOne(cached.value.content);
      DoneShows(r, cached, [cached.value.content], cached.value, true, chunks, message);
    } else {
      match r.generation.ending
      case Complete => DoneShows(r, cached, r.generation.deltas, Generated(r), false, chunks, message);
      case Unavailable =>
        ErrorArrives(UNAVAILABLE);
        BrowserShows(Sent(r, cached), r.generation.deltas, ErrorEvent(UNAVAILABLE), chunks, message);
      case Broken => BrokenShows(r.generation.deltas, chunks, message);
    }
  }

  lemma DoneShows(r: Request, cached: Option<Answer>, deltas: seq<PyText>, a: Answer, fromCache: bool,
                  chunks: seq<string>,
                  message: seq<Unit>)
    requires TurnShape(Sent(r, cached), deltas, DoneEvent(r.messageId, a, fromCache))
    requires Concat(chunks) == FormatAll(Sent(r, cached)) && a.content == Joined(deltas)
    ensures ShownAs(OnScreen(chunks, false, message), r.messageId, a, fromCache)
  {
    DoneDataSays(r.messageId, a, fromCache);
    BrowserShows(Sent(r, cached), deltas, DoneEvent(r.messageId, a, fromCache), chunks, message);
  }

  /** The screen and the transcript agree: `done` shows the stored answer, `error` what arrived, and a connection that
      breaks shows the browser's own message. */
  lemma ScreenAndStoreAgree(w: World, r: Request, maxQuota: nat, chunks: seq<string>, message: seq<Unit>)
    requires r.session in w.sessions && Arrives(Turn(w, r, maxQuota).snd, chunks)
    ensures var after := MessagesOf(Turn(w, r, maxQuota).fst, r.session);
            var state := OnScreen(chunks, Turn(w, r, maxQuota).snd.broken, message);
            var cached := Cached(w, r);
            if cached.Some? || r.generation.ending.Complete? then
              after[|after| - 1].Answered? && ShownAs(state, r.messageId, after[|after| - 1].answer, cached.Some?)
            else
              && after[|after| - 1].Asked?
              && state == Some(if r.generation.ending.Broken? then Failed([], message)
                               else Failed(Utf16(Joined(r.generation.deltas)), Units(UNAVAILABLE)))
  {
    StoreAfterTurn(w, r, maxQuota);
    ScreenOf(r, Cached(w, r), chunks, message);
  }

  /** A stream that ends without an error and without a token (how the relay reports an outage) leaves an
      empty answer in the transcript and, for a first question, in the cache. */
  lemma EmptyAnswerIsKept(w: World, r: Request, maxQuota: nat)
    requires r.session in w.sessions && Cached(w, r).None? && UsedBy(w, r.user) < maxQuota
    requires r.generation.deltas == [] && r.generation.ending.Complete?
    ensures var w' := Turn(w, r, maxQuota).fst;
            exists a: Answer :: a.content == []
                && MessagesOf(w', r.session) == MessagesOf(w, r.session) + [Asked(r.question), Answered(a)]
              && (MessagesOf(w, r.session) == [] ==> Get(w'.redis, w.sessions[r.session].subject, r.key) == Some(a))
  {
    StoreAfterTurn(w, r, maxQuota);
    assert Generated(r).content == [];
  }

  /** The answer to a first question is on screen and in the cache; it is the cached one if there was one. */
  lemma AnsweredOnScreen(w: World, r: Request, maxQuota: nat, chunks: seq<string>,
                         message: seq<Unit>) returns (a: Answer)
    requires r.session in w.sessions && Cacheable(w, r) && (Cached(w, r).Some? || r.generation.ending.Complete?)
    requires Arrives(Turn(w, r, maxQuota).snd, chunks)
    ensures Get(Turn(w, r, maxQuota).fst.redis, w.sessions[r.session].subject, r.key) == Some(a)
    ensures !Turn(w, r, maxQuota).snd.broken
            && ShownAs(OnScreen(chunks, false, message), r.messageId, a, Cached(w, r).Some?)
    ensures Cached(w, r).Some? ==> a == Cached(w, r).value
  {
    a := if Cached(w, r).Some? then Cached(w, r).value else Generated(r);
    StoreAfterTurn(w, r, maxQuota);
    ScreenAndStoreAgree(w, r, maxQuota, chunks, message);
  }

  // ---- Runs of whole turns: no turn begins before the last one has ended, and no session is deleted. ----

  datatype Event = Open(session: string, of: string) | Question(request: Request) | Update(subject: string)

  ghost function Next(w: World, e: Event, maxQuota: nat): World {
    match e
    case Open(id, subject) =>
      if id in w.sessions then w else w.(sessions := w.sessions[id := Session(subject, None, [])])
    case Question(r) => if r.session in w.sessions then Turn(w, r, maxQuota).fst else w
    case Update(subject) => w.(redis := Apply(w.redis, Bump(subject)))
  }

  ghost function Run(w: World, events: seq<Event>, maxQuota: nat): World
    decreases |events|
  {
    if events == [] then w else Next(Run(w, events[..|events| - 1], maxQuota), events[|events| - 1], maxQuota)
  }

  /** `a` is stored as the answer to the first question of some session of the subject. */
  ghost predicate IsFirstAnswer(w: World, subject: string, a: Answer) {
    exists id :: id in w.sessions && w.sessions[id].subject == subject && |w.sessions[id].messages| >= 2
                 && w.sessions[id].messages[0].Asked? && w.sessions[id].messages[1] == Answered(a)
  }

  /** Every cached answer stands in a transcript, every answer directly follows a question, and sessions are named
      after their first question. */
  ghost predicate Sound(w: World) {
    && (forall key :: key in w.redis.answers ==> IsFirstAnswer(w, key.subject, w.redis.answers[key]))
    && (forall id :: id in w.sessions ==> Alternates(w.sessions[id].messages) && Titled(w.sessions[id]))
  }

  /** A session is named after the beginning of its first question. */
  ghost predicate Titled(s: Session) {
    if s.messages == [] then s.title == None
    else
      && s.messages[0].Asked? && s.title.Some? && s.title.value <= s.messages[0].question
      && (|s.title.value| == 80 || (|s.title.value| < 80 && s.title.value == s.messages[0].question))
  }

  ghost predicate Alternates(messages: seq<Message>) {
    forall i :: 0 <= i < |messages| && messages[i].Answered? ==> i > 0 && messages[i - 1].Asked?
  }

  /** Transcripts only grow. */
  ghost predicate Extends(w': World, w: World) {
    forall id :: id in w.sessions ==>
      && id in w'.sessions && w'.sessions[id].subject == w.sessions[id].subject
      && w.sessions[id].messages <= w'.sessions[id].messages
      && (w.sessions[id].title.Some? ==> w'.sessions[id].title == w.sessions[id].title)
  }

  lemma FirstAnswerStays(w: World, w': World, subject: string, a: Answer)
    requires Extends(w', w) && IsFirstAnswer(w, subject, a)
    ensures IsFirstAnswer(w', subject, a)
  {
    var id :| id in w.sessions && w.sessions[id].subject == subject && |w.sessions[id].messages| >= 2
              && w.sessions[id].messages[0].Asked? && w.sessions[id].messages[1] == Answered(a);
    assert w.sessions[id].messages <= w'.sessions[id].messages;
  }

  /** What a turn does to its own session. */
  lemma TurnKeepsSession(w: World, r: Request, maxQuota: nat)
    requires r.session in w.sessions && Turn(w, r, maxQuota).snd.Stream?
    requires Alternates(w.sessions[r.session].messages) && Titled(w.sessions[r.session])
    ensures var s, s' := w.sessions[r.session], Turn(w, r, maxQuota).fst.sessions[r.session];
            && s.messages <= s'.messages && Alternates(s'.messages) && Titled(s')
            && (s.title.Some? ==> s'.title == s.title)
  {
    StoreAfterTurn(w, r, maxQuota);
    var s, s' := w.sessions[r.session], Turn(w, r, maxQuota).fst.sessions[r.session];
    LongerTranscript(s, s', s'.messages[|s.messages|..], r.question);
  }

  lemma LongerTranscript(s: Session, s': Session, more: seq<Message>, question: string)
    requires Alternates(s.messages) && Titled(s) && s'.messages == s.messages + more
             && s'.title == Title(s.title, question)
    requires more != [] && more[0] == Asked(question) && |more| <= 2 && (|more| == 2 ==> more[1].Answered?)
    ensures s.messages <= s'.messages && Alternates(s'.messages) && Titled(s')
    ensures s.title.Some? ==> s'.title == s.title
  {
    assert s'.messages[|s.messages|] == more[0];
  }

  lemma TurnKeepsSound(w: World, r: Request, maxQuota: nat)
    requires Sound(w) && r.session in w.sessions && Turn(w, r, maxQuota).snd.Stream?
    ensures Sound(Turn(w, r, maxQuota).fst) && Extends(Turn(w, r, maxQuota).fst, w)
  {
    var w' := Turn(w, r, maxQuota).fst;
    StoreAfterTurn(w, r, maxQuota);
    TurnKeepsSession(w, r, maxQuota);
    assert Extends(w', w);
    forall key | key in w'.redis.answers
      ensures IsFirstAnswer(w', key.subject, w'.redis.answers[key])
    {
      CachedIsFirstAnswer(w, r, maxQuota, key);
    }
  }

  lemma CachedIsFirstAnswer(w: World, r: Request, maxQuota: nat, key: AnswerKey)
    requires Sound(w) && r.session in w.sessions && Turn(w, r, maxQuota).snd.Stream?
    requires Extends(Turn(w, r, maxQuota).fst, w) && key in Turn(w, r, maxQuota).fst.redis.answers
    ensures var w' := Turn(w, r, maxQuota).fst; IsFirstAnswer(w', key.subject, w'.redis.answers[key])
  {
    var w' := Turn(w, r, maxQuota).fst;
    StoreAfterTurn(w, r, maxQuota);
    if key in w.redis.answers && w.redis.answers[key] == w'.redis.answers[key] {
      FirstAnswerStays(w, w', key.subject, w.redis.answers[key]);
    } else {
      var messages := MessagesOf(w', r.session);
      assert key.subject == w'.sessions[r.session].subject && w'.redis.answers[key] == Generated(r);
      assert messages == [Asked(r.question), Answered(Generated(r))];
    }
  }

  /** While turns do not overlap and no session is deleted, the cache only ever holds answers that are the first answer
      of some session of that subject, no transcript loses or changes a message and no title changes. */
  lemma {:induction false} RunKeepsSound(w: World, events: seq<Event>, maxQuota: nat)
    requires Sound(w)
    ensures Sound(Run(w, events, maxQuota)) && Extends(Run(w, events, maxQuota), w)
    decreases |events|
  {
    if events != [] {
      var before := Run(w, events[..|events| - 1], maxQuota);
      RunKeepsSound(w, events[..|events| - 1], maxQuota);
      var e := events[|events| - 1];
      var after := Next(before, e, maxQuota);
      match e
      case Open(id, subject) =>
        assert Extends(after, before);
        forall key | key in after.redis.answers
          ensures IsFirstAnswer(after, key.subject, after.redis.answers[key])
        {
          FirstAnswerStays(before, after, key.subject, before.redis.answers[key]);
        }
      case Question(r) =>
        if r.session in before.sessions && Turn(before, r, maxQuota).snd.Stream? {
          TurnKeepsSound(before, r, maxQuota);
        }
      case Update(subject) =>
        forall key | key in after.redis.answers
          ensures IsFirstAnswer(after, key.subject, after.redis.answers[key])
        {
          FirstAnswerStays(before, after, key.subject, before.redis.answers[key]);
        }
    }
  }

  /** A whole turn never replaces a cached answer: a first question finds it, and later questions are not cached. */
  lemma TurnKeepsCached(w: World, r: Request, maxQuota: nat, subject: string, key: string, a: Answer)
    requires r.session in w.sessions && Get(w.redis, subject, key) == Some(a)
    ensures Get(Turn(w, r, maxQuota).fst.redis, subject, key) == Some(a)
  {
    if Turn(w, r, maxQuota).snd.Stream? {
      StoreAfterTurn(w, r, maxQuota);
    }
  }

  lemma {:induction false} RunKeepsCached(w: World, events: seq<Event>, maxQuota: nat, subject: string, key: string,
                                          a: Answer)
    requires Get(w.redis, subject, key) == Some(a) && Update(subject) !in events
    ensures Get(Run(w, events, maxQuota).redis, subject, key) == Some(a)
    decreases |events|
  {
    if events != [] {
      var before := events[..|events| - 1];
      RunKeepsCached(w, before, maxQuota, subject, key, a);
      match events[|events| - 1]
      case Question(r) =>
        if r.session in Run(w, before, maxQuota).sessions {
          TurnKeepsCached(Run(w, before, maxQuota), r, maxQuota, subject, key, a);
        }
      case _ =>
    }
  }

  /** After any run of sessions, whole turns and updates of other subjects, a first question with the same normal form
      replays the same content to anyone, over quota or not, and charges nothing. */
  lemma ReplayShowsTheSame(w: World, r: Request, events: seq<Event>, r': Request, maxQuota: nat,
                           chunks: seq<string>, chunks': seq<string>, message: seq<Unit>)
    requires r.session in w.sessions && Cacheable(w, r) && (Cached(w, r).Some? || r.generation.ending.Complete?)
    requires Arrives(Turn(w, r, maxQuota).snd, chunks)
    requires Update(w.sessions[r.session].subject) !in events
    requires var w' := Run(Turn(w, r, maxQuota).fst, events, maxQuota);
             && r'.session in w'.sessions && Cacheable(w', r') && r'.key == r.key
             && w'.sessions[r'.session].subject == w.sessions[r.session].subject
             && (Turn(w', r', maxQuota).snd.Stream? ==> Arrives(Turn(w', r', maxQuota).snd, chunks'))
    ensures var w' := Run(Turn(w, r, maxQuota).fst, events, maxQuota);
            && Turn(w', r', maxQuota).snd.Stream? && Turn(w', r', maxQuota).fst.used == w'.used
            && SameContent(OnScreen(chunks, false, message), OnScreen(chunks', false, message))
  {
    var w1 := Turn(w, r, maxQuota).fst;
    var w' := Run(w1, events, maxQuota);
    var a := AnsweredOnScreen(w, r, maxQuota, chunks, message);
    RunKeepsCached(w1, events, maxQuota, w.sessions[r.session].subject, r.key, a);
    assert Cached(w', r') == Some(a);
    StoreAfterTurn(w', r', maxQuota);
    var a' := AnsweredOnScreen(w', r', maxQuota, chunks', message);
  }

  /** Both screens show an answer, and the same one. */
  ghost predicate SameContent(first: Option<ChatState>, second: Option<ChatState>) {
    first.Some? && second.Some? && first.value.Shown? && second.value.Shown?
        && second.value.content == first.value.content
  }
}

/** The service that serves turns, step by step. */
module ChatService {
  import opened Common
  import opened Sse
  import opened QuestionKey
  import opened AnswerCacheService
  import opened ChatTurn

  class Tutor {
    const redis: RedisClient<Answer>
    const maxQuota: nat
    var sessions: map<string, Session>
    var used: map<string, nat>

    constructor (redis: RedisClient<Answer>, maxQuota: nat)
      ensures this.redis == redis && this.maxQuota == maxQuota && sessions == map[] && used == map[]
    {
      this.redis, this.maxQuota, sessions, used := redis, maxQuota, map[], map[];
    }

    function Value(): World
      reads this, redis
    {
      World(sessions, used, redis.Value())
    }

    function Key(question: string): string {
      Normalize(question, redis.lower, redis.space)
    }

    method UniqueSources(chunks: seq<SourceRef>) returns (sources: seq<SourceRef>)
      ensures sources == Unique(chunks)
    {
      sources := [];
      var seen: set<PyText> := {};
      for i := 0 to |chunks|
        invariant sources == Unique(chunks[..i])
        invariant forall d :: d in seen <==> exists j :: 0 <= j < i && chunks[j].documentId == d
      {
        var chunk := chunks[i];
        assert chunks[..i + 1][..i] == chunks[..i];
        assert FirstOfDocument(chunks[..i + 1], i) <==> chunk.documentId !in seen;
        if chunk.documentId !in seen {
          seen := seen + {chunk.documentId};
          sources := sources + [chunk];
        }
      }
      assert chunks[..|chunks|] == chunks;
    }

    method Insert(session: string, m: Message)
      requires session in sessions
      modifies this`sessions
      ensures Value() == Say(old(Value()), session, m)
    {
      var s := sessions[session];
      sessions := sessions[session := s.(messages := s.messages + [m])];
    }

    method RecordUsage(user: string, tokens: nat)
      modifies this`used
      ensures Value() == Charge(old(Value()), user, tokens)
    {
      used := used[user := (if user in used then used[user] else 0) + tokens];
    }

    /** The question is stored, and names a session that has no title yet. */
    method Begin(r: Request)
      requires r.session in sessions
      modifies this`sessions
      ensures Value() == Opened(old(Value()), r)
    {
      var s := sessions[r.session];
      if s.title.None? {
        var title := if |r.question| <= TITLE_MAX then r.question else r.question[..TITLE_MAX];
        sessions := sessions[r.session := s.(title := Some(title))];
      }
      assert sessions == old(sessions)[r.session := s.(title := Title(s.title, r.question))];
      Insert(r.session, Asked(r.question));
    }

    method SendTokens(deltas: seq<PyText>) returns (content: PyText, events: seq<ServerEvent>)
      ensures content == Joined(deltas) && events == TokenEvents(deltas)
    {
      content, events := [], [];
      for i := 0 to |deltas|
        invariant content == Joined(deltas[..i]) && events == TokenEvents(deltas[..i])
      {
        assert deltas[..i + 1][..i] == deltas[..i];
        content := content + deltas[i];
        events := events + [TokenEvent(deltas[i])];
      }
      assert deltas[..|deltas|] == deltas;
    }

    method StreamAnswerEvents(r: Request, cached: Option<Answer>, cacheable: bool)
      returns (events: seq<ServerEvent>, broken: bool)
      requires r.session in sessions && r.key == Key(r.question)
      modifies this`sessions, this`used, redis`answers
      ensures Value() == Stored(old(Value()), r, cached, cacheable)
      ensures events == Sent(r, cached) && broken == Breaks(r, cached)
    {
      broken := false;
      Begin(r);
      if cached.Some? {
        events := [TokenEvent(cached.value.content)];
        Insert(r.session, Answered(cached.value));
        events := events + [DoneEvent(r.messageId, cached.value, true)];
        return;
      }
      var sources := UniqueSources(r.sources);
      var content, tokens := SendTokens(r.generation.deltas);
      match r.generation.ending {
        case Broken => return tokens, true;
        case Unavailable => return tokens + [ErrorEvent(UNAVAILABLE)], false;
        case Complete =>
      }
      var usage := UsageOf(r.generation);
      RecordUsage(r.user, usage.total);
      var answer := Answer(content, sources, usage);
      Insert(r.session, Answered(answer));
      if cacheable {
        redis.SetCachedAnswer(sessions[r.session].subject, r.question, answer);
      }
      events := tokens + [DoneEvent(r.messageId, answer, false)];
    }

    /** The whole turn: decide on the cache, check the quota, stream. */
    method AnswerStream(r: Request) returns (reply: Reply)
      requires r.session in sessions && r.key == Key(r.question)
      modifies this`sessions, this`used, redis`answers
      ensures Pair(Value(), reply) == Turn(old(Value()), r, maxQuota)
    {
      var cacheable := sessions[r.session].messages == [];
      var cached: Option<Answer> := None;
      if cacheable {
        cached := redis.GetCachedAnswer(sessions[r.session].subject, r.question);
      }
      if cached.None? && (if r.user in used then used[r.user] else 0) >= maxQuota {
        return QuotaExceeded;
      }
      var events, broken := StreamAnswerEvents(r, cached, cacheable);
      reply := Stream(events, broken);
    }
  }
}
