/** How a question is normalised before it becomes part of an answer's cache key. */
module QuestionKey {
  import opened Text

  function LowerAll(s: string, lower: char -> string): string {
    if s == [] then [] else lower(s[0]) + LowerAll(s[1..], lower)
  }

  /** Lower-case text is its own lower case, and so is a blank. */
  ghost predicate LowerOk(lower: char -> string) {
    lower(' ') == " " && forall c, d :: d in lower(c) ==> lower(d) == [d]
  }

  /** `" ".join(question.strip().lower().split())`. */
  function Normalize(question: string, lower: char -> string, space: char -> bool): string {
    Join(Words(LowerAll(Strip(question, space), lower), space))
  }

  ghost predicate All(s: string, p: char -> bool) {
    forall i :: 0 <= i < |s| ==> p(s[i])
  }

  lemma {:induction false} StripKeepsAll(s: string, space: char -> bool, p: char -> bool)
    requires All(s, p)
    ensures All(Strip(s, space), p)
    decreases |s|
  {
    if s != [] {
      StripKeepsAll(s[1..], space, p);
      StripKeepsAll(s[..|s| - 1], space, p);
    }
  }

  lemma {:induction false} ScanKeepsAll(s: string, word: string, space: char -> bool, p: char -> bool)
    requires All(s, p) && All(word, p)
    ensures forall k :: 0 <= k < |Scan(s, word, space)| ==> All(Scan(s, word, space)[k], p)
    decreases |s|
  {
    if s != [] {
      ScanKeepsAll(s[1..], if space(s[0]) then [] else word + [s[0]], space, p);
    }
  }

  lemma {:induction false} JoinKeepsAll(ws: seq<string>, p: char -> bool)
    requires p(' ') && forall k :: 0 <= k < |ws| ==> All(ws[k], p)
    ensures All(Join(ws), p)
    decreases |ws|
  {
    if |ws| > 1 {
      JoinKeepsAll(ws[1..], p);
    }
  }

  lemma {:induction false} LowerOfLower(s: string, lower: char -> string)
    requires LowerOk(lower)
    ensures All(LowerAll(s, lower), d => lower(d) == [d])
    decreases |s|
  {
    if s != [] {
      LowerOfLower(s[1..], lower);
    }
  }

  lemma {:induction false} LowerOfFixed(s: string, lower: char -> string)
    requires All(s, d => lower(d) == [d])
    ensures LowerAll(s, lower) == s
    decreases |s|
  {
    if s != [] {
      LowerOfFixed(s[1..], lower);
      assert s == [s[0]] + s[1..];
    }
  }

  lemma NormalizeIdempotent(question: string, lower: char -> string, space: char -> bool)
    requires LowerOk(lower) && space(' ')
    ensures var n := Normalize(question, lower, space); Normalize(n, lower, space) == n
  {
    var fixed := (d: char) => lower(d) == [d];
    var lowered := LowerAll(Strip(question, space), lower);
    LowerOfLower(Strip(question, space), lower);
    ScanKeepsAll(lowered, [], space, fixed);
    ScanGivesWords(lowered, [], space);
    var n := Join(Words(lowered, space));
    JoinKeepsAll(Words(lowered, space), fixed);
    StripKeepsAll(n, space, fixed);
    LowerOfFixed(Strip(n, space), lower);
    WordsOfStrip(n, space);
    WordsOfJoin(Words(lowered, space), space);
  }

  /** Two questions share a cache entry exactly when they have the same lower-case words. */
  lemma SameKeyIffSameWords(a: string, b: string, lower: char -> string, space: char -> bool)
    requires space(' ')
    ensures Normalize(a, lower, space) == Normalize(b, lower, space)
       <==> Words(LowerAll(Strip(a, space), lower), space) == Words(LowerAll(Strip(b, space), lower), space)
  {
    var wa := Words(LowerAll(Strip(a, space), lower), space);
    var wb := Words(LowerAll(Strip(b, space), lower), space);
    ScanGivesWords(LowerAll(Strip(a, space), lower), [], space);
    ScanGivesWords(LowerAll(Strip(b, space), lower), [], space);
    WordsOfJoin(wa, space);
    WordsOfJoin(wb, space);
  }

  /** ASCII lower case and whitespace, an instance of the two parameters. */
  function AsciiLower(c: char): string {
    if 'A' <= c <= 'Z' then [(c as int + 32) as char] else [c]
  }

  predicate AsciiSpace(c: char) {
    c == ' ' || '\t' <= c <= '\r' || '\U{1c}' <= c <= '\U{1f}'
  }

  lemma AsciiNormalizeIdempotent(question: string)
    ensures var n := Normalize(question, AsciiLower, AsciiSpace); Normalize(n, AsciiLower, AsciiSpace) == n
  {
    NormalizeIdempotent(question, AsciiLower, AsciiSpace);
  }
}

/** The versioned-key answer cache of the Tutor, for one Redis instance and many subjects. */
module AnswerCache {
  import opened Common
  import CV = ContentVersion

  /** Key ingredients of a stored answer; a question is identified by its normal form. */
  datatype AnswerKey = AnswerKey(subject: string, version: nat, question: string)

  /** What INCR leaves behind: a counter that exists is at least 1. */
  type Count = n: nat | n > 0 witness 1

  datatype Redis<A> = Redis(counters: map<string, Count>, answers: map<AnswerKey, A>)

  datatype Op<A> = Set(subject: string, question: string, answer: A) | Bump(subject: string)

  function Raw<A>(r: Redis<A>, subject: string): nat {
    if subject in r.counters then r.counters[subject] else 0
  }

  function VersionOf<A>(r: Redis<A>, subject: string): nat {
    CV.Version(Raw(r, subject))
  }

  function Get<A>(r: Redis<A>, subject: string, question: string): Option<A> {
    var key := AnswerKey(subject, VersionOf(r, subject), question);
    if key in r.answers then Some(r.answers[key]) else None
  }

  function Apply<A>(r: Redis<A>, op: Op<A>): Redis<A> {
    match op
    case Set(subject, question, answer) =>
      r.(answers := r.answers[AnswerKey(subject, VersionOf(r, subject), question) := answer])
    case Bump(subject) => r.(counters := r.counters[subject := Raw(r, subject) + 1])
  }

  function ApplyAll<A>(r: Redis<A>, ops: seq<Op<A>>): Redis<A>
    decreases |ops|
  {
    if ops == [] then r else Apply(ApplyAll(r, ops[..|ops| - 1]), ops[|ops| - 1])
  }

  /** How often `subject` was bumped in `ops`. */
  function Bumps<A>(ops: seq<Op<A>>, subject: string): nat {
    if ops == [] then 0
    else Bumps(ops[..|ops| - 1], subject) + (if ops[|ops| - 1] == Bump(subject) then 1 else 0)
  }

  /** The simple cache: a map from questions to answers for one subject that a bump empties. Only the
      very first bump of a subject does not, because it leaves the version at 1. */
  function Plain<A>(ops: seq<Op<A>>, subject: string): map<string, A> {
    if ops == [] then map[]
    else
      var before := Plain(ops[..|ops| - 1], subject);
      match ops[|ops| - 1]
      case Set(s, question, answer) => if s == subject then before[question := answer] else before
      case Bump(s) => if s == subject && Bumps(ops[..|ops| - 1], subject) >= 1 then map[] else before
  }

  ghost predicate Agrees<A(!new)>(r: Redis<A>, ops: seq<Op<A>>, subject: string) {
    && Raw(r, subject) == Bumps(ops, subject)
    && (forall key :: key in r.answers && key.subject == subject ==> key.version <= VersionOf(r, subject))
    && (forall q :: Get(r, subject, q) == if q in Plain(ops, subject) then Some(Plain(ops, subject)[q]) else None)
  }

  /** After any history of sets and bumps, a lookup answers exactly like the simple map. */
  lemma {:induction false} CacheIsPlainMap<A(!new)>(ops: seq<Op<A>>, subject: string)
    ensures Agrees(ApplyAll(Redis(map[], map[]), ops), ops, subject)
    decreases |ops|
  {
    if ops != [] {
      var before := ops[..|ops| - 1];
      CacheIsPlainMap(before, subject);
      var r := ApplyAll(Redis(map[], map[]), before);
      var op := ops[|ops| - 1];
      var r' := Apply(r, op);
      if op == Bump(subject) {
        assert VersionOf(r', subject) == if Raw(r, subject) == 0 then 1 else VersionOf(r, subject) + 1;
      }
      forall q
        ensures Get(r', subject, q) == if q in Plain(ops, subject) then Some(Plain(ops, subject)[q]) else None
      {
        assert Get(r, subject, q) == if q in Plain(before, subject) then Some(Plain(before, subject)[q]) else None;
      }
    }
  }

  ghost predicate AllMiss<A(!new)>(r: Redis<A>, subject: string) {
    forall q :: Get(r, subject, q).None?
  }

  /** A bump makes every lookup of its subject miss if and only if the subject had been bumped before
      or had nothing cached. */
  lemma BumpEmptiesIff<A(!new)>(ops: seq<Op<A>>, subject: string)
    ensures AllMiss(ApplyAll(Redis(map[], map[]), ops + [Bump(subject)]), subject)
       <==> Bumps(ops, subject) >= 1 || Plain(ops, subject) == map[]
  {
    var more := ops + [Bump(subject)];
    assert more[..|more| - 1] == ops;
    CacheIsPlainMap(more, subject);
    var r := ApplyAll(Redis(map[], map[]), more);
    if Bumps(ops, subject) >= 1 || Plain(ops, subject) == map[] {
      assert Plain(more, subject) == map[];
    } else {
      assert Plain(more, subject) == Plain(ops, subject);
      var q :| q in Plain(ops, subject);
      assert Get(r, subject, q) == Some(Plain(ops, subject)[q]);
    }
  }
}

/** Questions answered from the cache or by generation, while the subject's material changes. */
module AnswerFreshness {
  import opened AnswerCache

  /** An atomic event on one subject. An answer is represented by the material it was generated from. */
  datatype Event<M> = Ask(question: string) | Update(material: M)

  datatype Tutor<M> = Tutor(redis: Redis<M>, material: M)

  const S: string := "subject"

  /** The answer a question gets: the cached one if there is one, else one from the present material. */
  function Answer<M>(t: Tutor<M>, question: string): M {
    var cached := Get(t.redis, S, question);
    if cached.Some? then cached.value else t.material
  }

  function Next<M>(t: Tutor<M>, e: Event<M>): Tutor<M> {
    match e
    case Ask(question) =>
      if Get(t.redis, S, question).Some? then t
      else t.(redis := Apply(t.redis, Set(S, question, t.material)))
    case Update(material) => Tutor(Apply(t.redis, Bump(S)), material)
  }

  function Run<M>(t: Tutor<M>, events: seq<Event<M>>): Tutor<M>
    decreases |events|
  {
    if events == [] then t else Next(Run(t, events[..|events| - 1]), events[|events| - 1])
  }

  /** A subject nothing has been cached for or ingested into. */
  function NewTutor<M>(empty: M): Tutor<M> {
    Tutor(Redis(map[], map[]), empty)
  }

  function Updates<M>(events: seq<Event<M>>): nat {
    if events == [] then 0
    else Updates(events[..|events| - 1]) + (if events[|events| - 1].Update? then 1 else 0)
  }

  /** The question was asked before the first update. */
  predicate AskedFirst<M>(events: seq<Event<M>>, question: string) {
    events != [] &&
    var before, last := events[..|events| - 1], events[|events| - 1];
    AskedFirst(before, question) || (last.Ask? && last.question == question && Updates(before) == 0)
  }

  ghost predicate NoLaterKeys<M(!new)>(t: Tutor<M>) {
    forall key :: key in t.redis.answers && key.subject == S ==> key.version <= VersionOf(t.redis, S)
  }

  /** What the cache holds for a question after `events`. */
  ghost predicate CacheHolds<M>(t: Tutor<M>, empty: M, events: seq<Event<M>>, question: string) {
    var cached := Get(t.redis, S, question);
    && (cached.Some? ==>
          cached.value == if Updates(events) == 1 && AskedFirst(events, question) then empty else t.material)
    && (AskedFirst(events, question) && Updates(events) <= 1 ==> cached.Some?)
    && (cached.Some? && Updates(events) == 0 ==> AskedFirst(events, question))
  }

  lemma {:induction false} HistoryDecides<M(!new)>(empty: M, events: seq<Event<M>>)
    ensures var t := Run(NewTutor(empty), events);
            && Raw(t.redis, S) == Updates(events) && NoLaterKeys(t)
            && (Updates(events) == 0 ==> t.material == empty)
            && forall q :: CacheHolds(t, empty, events, q)
    decreases |events|
  {
    if events != [] {
      var before := events[..|events| - 1];
      HistoryDecides(empty, before);
      var t := Run(NewTutor(empty), before);
      forall q
        ensures CacheHolds(Run(NewTutor(empty), events), empty, events, q)
      {
        assert CacheHolds(t, empty, before, q);
        if events[|events| - 1].Update? && Updates(before) >= 1 {
          assert Get(Run(NewTutor(empty), events).redis, S, q).None?;
        }
      }
    }
  }

  /** After any run of whole asks and updates on a new subject, a question is answered from the present material unless
      there has been exactly one update, the question was asked before it, and it changed the material. */
  lemma AnswersAreCurrentIff<M(!new)>(empty: M, events: seq<Event<M>>, question: string)
    ensures var t := Run(NewTutor(empty), events);
            Answer(t, question) == t.material
            <==> Updates(events) != 1 || !AskedFirst(events, question) || t.material == empty
  {
    HistoryDecides(empty, events);
    assert CacheHolds(Run(NewTutor(empty), events), empty, events, question);
  }

  /** Every cached answer that can still be served comes from the present material. */
  ghost predicate FreshTutor<M(!new)>(t: Tutor<M>) {
    (forall q :: Get(t.redis, S, q).Some? ==> Get(t.redis, S, q).value == t.material) && NoLaterKeys(t)
  }

  /** Every bump but the first makes the cache fresh, whatever it held before... */
  lemma LaterUpdateRefreshes<M(!new)>(t: Tutor<M>, material: M)
    requires Raw(t.redis, S) >= 1 && NoLaterKeys(t)
    ensures FreshTutor(Next(t, Update(material)))
  {
    var t' := Next(t, Update(material));
    assert VersionOf(t'.redis, S) == VersionOf(t.redis, S) + 1;
    forall q
      ensures Get(t'.redis, S, q).None?
    {
    }
  }

  /** ... and from then on it stays fresh. */
  lemma {:induction false} AtomicAsksStayFresh<M(!new)>(t: Tutor<M>, events: seq<Event<M>>)
    requires FreshTutor(t) && Raw(t.redis, S) >= 1
    ensures FreshTutor(Run(t, events)) && Raw(Run(t, events).redis, S) >= 1
    decreases |events|
  {
    if events != [] {
      var before := events[..|events| - 1];
      AtomicAsksStayFresh(t, before);
      var t1 := Run(t, before);
      match events[|events| - 1]
      case Update(material) => LaterUpdateRefreshes(t1, material);
      case Ask(_) =>
        var t2 := Run(t, events);
        forall q | Get(t2.redis, S, q).Some?
          ensures Get(t2.redis, S, q).value == t2.material
        {
          assert Get(t1.redis, S, q).Some? ==> Get(t1.redis, S, q).value == t1.material;
        }
    }
  }

  /** The exception occurs: a question asked of an empty subject and asked again after the first ingest is answered from
      the empty subject's material. */
  lemma FirstIngestServesStale<M(!new)>(empty: M, first: M, question: string)
    requires empty != first
    ensures Answer(Run(NewTutor(empty), [Ask(question), Update(first)]), question) != first
  {
    var asked: seq<Event<M>> := [Ask(question)];
    var events := [Ask(question), Update(first)];
    assert events[..1] == asked && asked[..0] == [];
    assert Updates(asked) == 0 && AskedFirst(asked, question);
    AnswersAreCurrentIff(empty, events, question);
  }
}

/** Asks that take three steps (look up, generate, store), interleaved with updates that take two (change the material,
    bump the version). */
module AnswerInterleaving {
  import opened Common
  import opened AnswerCache
  import opened AnswerFreshness

  /** A cached answer with its history: how often the material had changed when it was generated and when it was
      stored. */
  datatype Served<M> = Served(material: M, generated: nat, stored: nat)

  datatype Pending<M> =
    | LookingUp(question: string)
    | Generating(question: string)
    | Storing(question: string, material: M, generated: nat)
    | Answered

  /** `materials` lists the subject's material from the start, the present one last. */
  datatype State<M> = State(redis: Redis<Served<M>>, materials: seq<M>, asks: seq<Pending<M>>)

  /** Every change of the material is followed by a bump, not necessarily at once. */
  datatype Action<M> = StartAsk(question: string) | StepAsk(i: nat) | Change(material: M) | BumpVersion

  function Now<M>(s: State<M>): nat
    requires s.materials != []
  {
    |s.materials| - 1
  }

  /** No change waits for its bump. */
  predicate Settled<M>(s: State<M>)
    requires s.materials != []
  {
    Raw(s.redis, S) == Now(s)
  }

  function Cached<M>(s: State<M>, question: string): Option<Served<M>> {
    Get(s.redis, S, question)
  }

  function Advance<M>(s: State<M>, ask: Pending<M>): Pair<State<M>, Pending<M>>
    requires s.materials != []
  {
    match ask
    case LookingUp(question) => Pair(s, if Cached(s, question).Some? then Answered else Generating(question))
    case Generating(question) => Pair(s, Storing(question, s.materials[Now(s)], Now(s)))
    case Storing(question, material, generated) =>
      Pair(s.(redis := Apply(s.redis, Set(S, question, Served(material, generated, Now(s))))), Answered)
    case Answered => Pair(s, Answered)
  }

  function Step<M>(s: State<M>, a: Action<M>): (s': State<M>)
    requires s.materials != []
    ensures s'.materials != []
  {
    match a
    case StartAsk(question) => s.(asks := s.asks + [LookingUp(question)])
    case StepAsk(i) =>
      if i < |s.asks| then
        var Pair(s', ask) := Advance(s, s.asks[i]);
        s'.(asks := s.asks[i := ask])
      else s
    case Change(material) => s.(materials := s.materials + [material])
    case BumpVersion => if Raw(s.redis, S) < Now(s) then s.(redis := Apply(s.redis, Bump(S))) else s
  }

  function Steps<M>(empty: M, actions: seq<Action<M>>): (s: State<M>)
    ensures s.materials != []
    decreases |actions|
  {
    if actions == [] then State(Redis(map[], map[]), [empty], [])
    else Step(Steps(empty, actions[..|actions| - 1]), actions[|actions| - 1])
  }

  ghost predicate TrueRecord<M>(s: State<M>, material: M, generated: nat)
    requires s.materials != []
  {
    generated <= Now(s) && s.materials[generated] == material
  }

  /** A cached answer says truly where it comes from, and was stored since the last change that has been bumped; only
      the very first bump leaves older answers in place. */
  ghost predicate CachedOk<M>(s: State<M>, question: string)
    requires s.materials != []
  {
    var cached := Cached(s, question);
    cached.Some? ==>
      var a := cached.value;
      && TrueRecord(s, a.material, a.generated) && a.generated <= a.stored <= Now(s)
      && (a.stored >= Raw(s.redis, S) || Raw(s.redis, S) == 1)
  }

  ghost predicate Inv<M(!new)>(s: State<M>) {
    && s.materials != [] && Raw(s.redis, S) <= Now(s)
    && (forall key :: key in s.redis.answers && key.subject == S ==> key.version <= VersionOf(s.redis, S))
    && (forall i :: 0 <= i < |s.asks| && s.asks[i].Storing? ==> TrueRecord(s, s.asks[i].material, s.asks[i].generated))
    && (forall q :: CachedOk(s, q))
  }

  lemma StepKeeps<M(!new)>(s: State<M>, a: Action<M>)
    requires Inv(s)
    ensures Inv(Step(s, a))
  {
    var s' := Step(s, a);
    forall q
      ensures CachedOk(s', q)
    {
      assert CachedOk(s, q);
      if a.BumpVersion? && 1 <= Raw(s.redis, S) < Now(s) {
        assert VersionOf(s'.redis, S) == VersionOf(s.redis, S) + 1;
        assert Cached(s', q).None?;
      }
    }
  }

  lemma {:induction false} StepsKeep<M(!new)>(empty: M, actions: seq<Action<M>>)
    ensures Inv(Steps(empty, actions))
    decreases |actions|
  {
    if actions != [] {
      StepsKeep(empty, actions[..|actions| - 1]);
      StepKeeps(Steps(empty, actions[..|actions| - 1]), actions[|actions| - 1]);
    }
  }

  /** In any interleaving, and once every change has been bumped, the answer the cache would serve was generated from
      the present material if and only if the material did not change between its generation and its store, and it was
      not stored before the only change there has been. While a change waits for its bump, it must also be no older than
      that change. */
  lemma ServedIsCurrentIff<M(!new)>(empty: M, actions: seq<Action<M>>, question: string)
    requires Cached(Steps(empty, actions), question).Some?
    ensures var s := Steps(empty, actions);
            var a := Cached(s, question).value;
            && a.generated <= Now(s) && a.material == s.materials[a.generated]
            && (Settled(s) ==>
                  (a.generated == Now(s) <==> a.generated == a.stored && !(Now(s) == 1 && a.stored == 0)))
            && (a.generated == Now(s) <==> a.generated == a.stored && a.stored == Now(s))
  {
    StepsKeep(empty, actions);
    assert CachedOk(Steps(empty, actions), question);
  }

  lemma StepsSnoc<M(!new)>(empty: M, actions: seq<Action<M>>, a: Action<M>)
    ensures Steps(empty, actions + [a]) == Step(Steps(empty, actions), a)
  {
    assert (actions + [a])[..|actions|] == actions;
  }

  /** An ask that has generated and is overtaken by a whole update stores its stale answer as a current one: the version
      is read again at write time. */
  lemma SlowAskIsServed<M(!new)>(empty: M, material: M, question: string)
    ensures var actions := [StartAsk(question), StepAsk(0), StepAsk(0), Change(material), BumpVersion, StepAsk(0)];
            var s := Steps(empty, actions);
            Settled(s) && Cached(s, question) == Some(Served(empty, 0, 1))
  {
    var a: seq<Action<M>> := [];
    var a1 := a + [StartAsk(question)];
    var a2 := a1 + [StepAsk(0)];
    var a3 := a2 + [StepAsk(0)];
    var a4 := a3 + [Change(material)];
    var a5 := a4 + [BumpVersion];
    StepsSnoc(empty, a, StartAsk(question));
    StepsSnoc(empty, a1, StepAsk(0));
    StepsSnoc(empty, a2, StepAsk(0));
    StepsSnoc(empty, a3, Change(material));
    StepsSnoc(empty, a4, BumpVersion);
    StepsSnoc(empty, a5, StepAsk(0));
    assert Steps(empty, a1).asks == [LookingUp(question)];
    assert Steps(empty, a2).asks == [Generating(question)];
    assert Steps(empty, a3).asks == [Storing(question, empty, 0)];
    assert Steps(empty, a5).asks == [Storing(question, empty, 0)] && Now(Steps(empty, a5)) == 1;
    assert a5 + [StepAsk(0)] == [StartAsk(question), StepAsk(0), StepAsk(0), Change(material), BumpVersion, StepAsk(0)];
  }

  /** An ask that generates after the change and stores after its bump is current: only the change counts. */
  lemma AskAcrossBumpIsCurrent<M(!new)>(empty: M, material: M, question: string)
    ensures var actions := [StartAsk(question), StepAsk(0), Change(material), StepAsk(0), BumpVersion, StepAsk(0)];
            var s := Steps(empty, actions);
            Settled(s) && Cached(s, question) == Some(Served(material, 1, 1)) && Now(s) == 1
  {
    var a: seq<Action<M>> := [];
    var a1 := a + [StartAsk(question)];
    var a2 := a1 + [StepAsk(0)];
    var a3 := a2 + [Change(material)];
    var a4 := a3 + [StepAsk(0)];
    var a5 := a4 + [BumpVersion];
    StepsSnoc(empty, a, StartAsk(question));
    StepsSnoc(empty, a1, StepAsk(0));
    StepsSnoc(empty, a2, Change(material));
    StepsSnoc(empty, a3, StepAsk(0));
    StepsSnoc(empty, a4, BumpVersion);
    StepsSnoc(empty, a5, StepAsk(0));
    assert Steps(empty, a1).asks == [LookingUp(question)];
    assert Steps(empty, a3).asks == [Generating(question)] && Now(Steps(empty, a3)) == 1;
    assert Steps(empty, a4).asks == [Storing(question, material, 1)];
    assert a5 + [StepAsk(0)] == [StartAsk(question), StepAsk(0), Change(material), StepAsk(0), BumpVersion, StepAsk(0)];
  }
}

module AnswerCacheService {
  import opened Common
  import opened QuestionKey
  import opened AnswerCache

  class RedisClient<A> {
    var counters: map<string, Count>
    var answers: map<AnswerKey, A>
    const lower: char -> string
    const space: char -> bool

    constructor (lower: char -> string, space: char -> bool)
      ensures Value() == Redis(map[], map[]) && this.lower == lower && this.space == space
    {
      counters, answers := map[], map[];
      this.lower, this.space := lower, space;
    }

    function Value(): Redis<A>
      reads this
    {
      Redis(counters, answers)
    }

    method Incr(key: string)
      modifies this`counters
      ensures counters == old(counters)[key := (if key in old(counters) then old(counters)[key] else 0) + 1]
    {
      counters := counters[key := (if key in counters then counters[key] else 0) + 1];
    }

    method GetContentVersion(subject: string) returns (version: nat)
      ensures version == VersionOf(Value(), subject)
    {
      version := if subject in counters then counters[subject] else 1;
    }

    method BumpSubjectVersion(subject: string)
      modifies this`counters
      ensures Value() == Apply(old(Value()), Bump(subject))
    {
      Incr(subject);
    }

    method GetCachedAnswer(subject: string, question: string) returns (answer: Option<A>)
      ensures answer == Get(Value(), subject, Normalize(question, lower, space))
    {
      var version := GetContentVersion(subject);
      var key := AnswerKey(subject, version, Normalize(question, lower, space));
      answer := if key in answers then Some(answers[key]) else None;
    }

    method SetCachedAnswer(subject: string, question: string, answer: A)
      modifies this`answers
      ensures Value() == Apply(old(Value()), Set(subject, Normalize(question, lower, space), answer))
    {
      var version := GetContentVersion(subject);
      answers := answers[AnswerKey(subject, version, Normalize(question, lower, space)) := answer];
    }
  }
}
