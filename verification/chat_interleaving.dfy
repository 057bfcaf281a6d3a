/** Turns in flight: any number of turns take their steps in any order, while sessions are opened and deleted and the
    material of subjects is updated. */
module ChatSteps {
  import opened Common
  import opened AnswerCache
  import opened ChatTurn

  datatype Row = Row(subject: string, title: Option<string>)

  /** A stored message and a cached answer; `turn` is the turn that stored it. */
  datatype Line = Line(turn: nat, message: Message)
  datatype Kept = Kept(turn: nat, answer: Answer)

  /** What a turn does next, or how it ended. */
  datatype Phase =
    | Counting | LookingUp | Checking | Asking | Naming | Generating | Charging | Answering | Saving | Caching
    | Refused | GaveUp | Done
  {
    function Rank(): nat {
      match this
      case Counting => 10
      case LookingUp => 9
      case Checking => 8
      case Asking => 7
      case Naming => 6
      case Generating => 5
      case Charging => 4
      case Answering => 3
      case Saving => 2
      case Caching => 1
      case _ => 0
    }
  }

  /** A turn. `subject` and `title` are its snapshot of the session's row. */
  datatype Flight = Flight(r: Request, subject: string, title: Option<string>, cacheable: bool, cached: Option<Kept>,
                           phase: Phase)

  /** `lines` are the messages of each session, in the order they were stored. */
  datatype Chat = Chat(rows: map<string, Row>, lines: map<string, seq<Line>>, used: map<string, nat>,
                       redis: Redis<Kept>, flights: seq<Flight>)

  /** Deleting a session deletes its messages and then its row; turns take steps in between. */
  datatype Action =
    | Open(session: string, subject: string)
    | Begin(r: Request)
    | Step(i: nat)
    | DeleteMessages(session: string)
    | DeleteRow(session: string)
    | Update(subject: string)

  const NOTHING: Chat := Chat(map[], map[], map[], Redis(map[], map[]), [])

  function Transcript(s: Chat, session: string): seq<Line> {
    if session in s.lines then s.lines[session] else []
  }

  function UsedIn(s: Chat, user: string): nat {
    if user in s.used then s.used[user] else 0
  }

  ghost function AnswerOf(f: Flight): Answer {
    if f.cached.Some? then f.cached.value.answer else Generated(f.r)
  }

  function Said(s: Chat, session: string, line: Line): Chat {
    s.(lines := s.lines[session := Transcript(s, session) + [line]])
  }

  function Charged(s: Chat, user: string, tokens: nat): Chat {
    s.(used := s.used[user := UsedIn(s, user) + tokens])
  }

  /** Saves the snapshot, whether or not the row is still there. */
  function Saved(s: Chat, f: Flight): Chat {
    s.(rows := s.rows[f.r.session := Row(f.subject, f.title)])
  }

  /** What a turn knows and does next after its next step. */
  ghost function Moved(s: Chat, f: Flight, maxQuota: nat): Flight {
    match f.phase
    case Counting =>
      var first := Transcript(s, f.r.session) == [];
      f.(cacheable := first, phase := if first then LookingUp else Checking)
    case LookingUp =>
      var cached := Get(s.redis, f.subject, f.r.key);
      f.(cached := cached, phase := if cached.Some? then Asking else Checking)
    case Checking => f.(phase := if UsedIn(s, f.r.user) >= maxQuota then Refused else Asking)
    case Asking => f.(phase := Naming)
    case Naming => f.(title := Title(f.title, f.r.question), phase := if f.cached.Some? then Answering else Generating)
    case Generating => f.(phase := if f.r.generation.ending.Complete? then Charging else GaveUp)
    case Charging => f.(phase := Answering)
    case Answering => f.(phase := Saving)
    case Saving => f.(phase := if f.cacheable && f.cached.None? then Caching else Done)
    case Caching => f.(phase := Done)
    case _ => f
  }

  /** What the next step of turn `i`, which is `f`, stores. */
  ghost function Effect(s: Chat, i: nat, f: Flight): Chat {
    match f.phase
    case Asking => Said(s, f.r.session, Line(i, Asked(f.r.question)))
    case Naming => Saved(s, f.(title := Title(f.title, f.r.question)))
    case Charging => Charged(s, f.r.user, UsageOf(f.r.generation).total)
    case Answering => Said(s, f.r.session, Line(i, Answered(AnswerOf(f))))
    case Saving => Saved(s, f)
    case Caching => s.(redis := Apply(s.redis, Set(f.subject, f.r.key, Kept(i, Generated(f.r)))))
    case _ => s
  }

  /** One step of a turn. */
  ghost function Advance(s: Chat, i: nat, maxQuota: nat): Chat
    requires i < |s.flights|
  {
    var f := s.flights[i];
    Effect(s, i, f).(flights := s.flights[i := Moved(s, f, maxQuota)])
  }

  /** One action. An action that is not possible leaves everything as it is. */
  ghost function Next(s: Chat, a: Action, maxQuota: nat): Chat {
    match a
    case Open(session, subject) =>
      if session in s.rows then s else s.(rows := s.rows[session := Row(subject, None)])
    case Begin(r) =>
      if r.session in s.rows then
        var row := s.rows[r.session];
        s.(flights := s.flights + [Flight(r, row.subject, row.title, false, None, Counting)])
      else s
    case Step(i) => if i < |s.flights| then Advance(s, i, maxQuota) else s
    case DeleteMessages(session) => s.(lines := s.lines - {session})
    case DeleteRow(session) => s.(rows := s.rows - {session})
    case Update(subject) => s.(redis := Apply(s.redis, Bump(subject)))
  }

  ghost function Run(actions: seq<Action>, maxQuota: nat): Chat
    decreases |actions|
  {
    if actions == [] then NOTHING else Next(Run(actions[..|actions| - 1], maxQuota), actions[|actions| - 1], maxQuota)
  }

  lemma RunSnoc(actions: seq<Action>, a: Action, maxQuota: nat)
    ensures Run(actions + [a], maxQuota) == Next(Run(actions, maxQuota), a, maxQuota)
  {
    assert (actions + [a])[..|actions|] == actions;
  }
}

/** What becomes of cached answers when turns overlap. */
module ChatCacheSafety {
  import opened Common
  import opened AnswerCache
  import opened ChatTurn
  import opened ChatSteps

  /** A cached answer was generated by a turn that asked this question first in its session, and that has ended. */
  ghost predicate Genuine(s: Chat, key: AnswerKey, kept: Kept) {
    kept.turn < |s.flights| &&
    var f := s.flights[kept.turn];
    && f.phase.Done? && f.cacheable && f.cached.None? && f.subject == key.subject && f.r.key == key.question
    && f.r.generation.ending.Complete? && kept.answer == Generated(f.r)
  }

  ghost predicate CacheIsGenuine(s: Chat) {
    && (forall key :: key in s.redis.answers ==> Genuine(s, key, s.redis.answers[key]))
    && forall i :: 0 <= i < |s.flights| ==> FlightOk(s.flights[i])
  }

  ghost predicate FlightOk(f: Flight) {
    && (f.phase.Caching? ==> f.cacheable && f.cached.None?)
    && ((f.phase.Charging? || f.phase.Answering? || f.phase.Saving? || f.phase.Caching? || f.phase.Done?) ==>
          f.cached.Some? || f.r.generation.ending.Complete?)
    && (f.cached.Some? ==> f.cacheable)
    && (f.phase.Counting? ==> !f.cacheable)
    && (f.phase.Counting? || f.phase.LookingUp? ==> f.cached.None?)
    && (f.phase.LookingUp? ==> f.cacheable)
  }

  /** The same turn, perhaps later. */
  predicate SameTurn(f: Flight, f': Flight) {
    && f'.r == f.r && f'.subject == f.subject
    && (PastLookup(f.phase) ==> PastLookup(f'.phase) && f'.cacheable == f.cacheable && f'.cached == f.cached)
    && (f.phase.Rank() == 0 ==> f'.phase == f.phase)
  }

  predicate PastLookup(phase: Phase) {
    !phase.Counting? && !phase.LookingUp?
  }

  lemma MovedIsSame(s: Chat, f: Flight, maxQuota: nat)
    ensures SameTurn(f, Moved(s, f, maxQuota)) && (FlightOk(f) ==> FlightOk(Moved(s, f, maxQuota)))
  {
  }

  lemma OnlyCachingCaches(s: Chat, i: nat, f: Flight)
    ensures !f.phase.Caching? ==> Effect(s, i, f).redis == s.redis
  {
  }

  lemma GenuineStays(s: Chat, s': Chat, key: AnswerKey, kept: Kept)
    requires Genuine(s, key, kept) && |s.flights| <= |s'.flights|
             && SameTurn(s.flights[kept.turn], s'.flights[kept.turn])
    ensures Genuine(s', key, kept)
  {
  }

  /** Where an answer comes from that is cached after a step of turn `i`. */
  lemma CachedBy(s: Chat, i: nat, f: Flight, key: AnswerKey)
    ensures var answers := Effect(s, i, f).redis.answers;
            key in answers ==>
              || (key in s.redis.answers && answers[key] == s.redis.answers[key])
              || (f.phase.Caching? && key.subject == f.subject && key.question == f.r.key
                  && answers[key] == Kept(i, Generated(f.r)))
  {
  }

  lemma AdvanceKeepsGenuine(s: Chat, i: nat, maxQuota: nat)
    requires CacheIsGenuine(s) && i < |s.flights|
    ensures CacheIsGenuine(Advance(s, i, maxQuota))
  {
    var s' := Advance(s, i, maxQuota);
    var f := s.flights[i];
    MovedIsSame(s, f, maxQuota);
    forall key | key in s'.redis.answers
      ensures Genuine(s', key, s'.redis.answers[key])
    {
      CachedBy(s, i, f, key);
      if key in s.redis.answers && s'.redis.answers[key] == s.redis.answers[key] {
        GenuineStays(s, s', key, s.redis.answers[key]);
      } else {
        assert s'.flights[i] == f.(phase := Done);
      }
    }
  }

  lemma OthersKeepGenuine(s: Chat, a: Action, maxQuota: nat)
    requires CacheIsGenuine(s) && !a.Step?
    ensures CacheIsGenuine(Next(s, a, maxQuota))
  {
    var s' := Next(s, a, maxQuota);
    forall key | key in s'.redis.answers
      ensures Genuine(s', key, s'.redis.answers[key])
    {
      GenuineStays(s, s', key, s.redis.answers[key]);
    }
  }

  /** Whatever overlaps, every cached answer was generated for this subject and this question by a turn that stored it
      in its own session before. */
  lemma {:induction false} RunKeepsGenuine(actions: seq<Action>, maxQuota: nat)
    ensures CacheIsGenuine(Run(actions, maxQuota))
    decreases |actions|
  {
    if actions != [] {
      var before, a := actions[..|actions| - 1], actions[|actions| - 1];
      RunKeepsGenuine(before, maxQuota);
      var s := Run(before, maxQuota);
      if a.Step? && a.i < |s.flights| {
        AdvanceKeepsGenuine(s, a.i, maxQuota);
      } else if !a.Step? {
        OthersKeepGenuine(s, a, maxQuota);
      }
    }
  }

  /** Turn `i` has looked the question up without finding it, and may still store an answer to it. */
  predicate Missed(s: Chat, i: nat, subject: string, key: string) {
    i < |s.flights| &&
    var f := s.flights[i];
    && f.subject == subject && f.r.key == key && f.cacheable && f.cached.None?
    && PastLookup(f.phase) && f.phase.Rank() > 0
  }

  /** Turn `i` missed the question in `s` and has stored its answer by `s'`. */
  predicate Overtook(s: Chat, s': Chat, i: nat, subject: string, key: string) {
    Missed(s, i, subject, key) && i < |s'.flights| && s'.flights[i].phase.Done?
  }

  ghost predicate SomeOvertook(s: Chat, s': Chat, subject: string, key: string) {
    exists i: nat :: Overtook(s, s', i, subject, key)
  }

  /** The answer is the one cached in `s`, or was stored since by a turn that had missed it. */
  ghost predicate From(s: Chat, s': Chat, subject: string, key: string, first: Kept, kept: Kept) {
    kept == first || Overtook(s, s', kept.turn, subject, key)
  }

  /** Turn `i` had not looked the question up in `s` and has done so in `s'`. */
  predicate LooksUpLater(s: Chat, s': Chat, i: nat, subject: string, key: string) {
    && i < |s'.flights| && (i < |s.flights| ==> !PastLookup(s.flights[i].phase))
    && s'.flights[i].subject == subject && s'.flights[i].r.key == key
    && s'.flights[i].cacheable && PastLookup(s'.flights[i].phase)
  }

  /** `s'` is later than `s`: every turn is still there, new ones have come. */
  ghost predicate Later(s: Chat, s': Chat) {
    |s.flights| <= |s'.flights| && forall i :: 0 <= i < |s.flights| ==> SameTurn(s.flights[i], s'.flights[i])
  }

  /** A turn that looks the question up later finds an answer. */
  ghost predicate LaterFinds(s: Chat, s': Chat, i: nat, subject: string, key: string, first: Kept) {
    LooksUpLater(s, s', i, subject, key) ==>
      s'.flights[i].cached.Some? && From(s, s', subject, key, first, s'.flights[i].cached.value)
  }

  /** What holds in `s'`, reached from `s` without an update of the subject, when `first` is cached in `s`. */
  ghost predicate Since(s: Chat, s': Chat, subject: string, key: string, first: Kept) {
    && Later(s, s')
    && (forall i: nat :: Missed(s', i, subject, key) ==> Missed(s, i, subject, key))
    && (forall i: nat :: LaterFinds(s, s', i, subject, key, first))
    && var kept := Get(s'.redis, subject, key);
       && kept.Some? && From(s, s', subject, key, first, kept.value)
       && (SomeOvertook(s, s', subject, key) ==> kept.value != first)
  }

  /** What one action does to the turns and to the cached answer, when there is one. */
  ghost predicate OneStep(s: Chat, s': Chat, subject: string, key: string) {
    && Later(s, s') && Get(s'.redis, subject, key).Some?
    && (forall i: nat :: Missed(s', i, subject, key) ==> Missed(s, i, subject, key))
    && (forall i: nat :: Finds(s, s', i, subject, key))
    && (forall i: nat :: Overtook(s, s', i, subject, key) ==> Get(s'.redis, subject, key).value.turn == i)
    && (Get(s'.redis, subject, key) == Get(s.redis, subject, key)
        || Overtook(s, s', Get(s'.redis, subject, key).value.turn, subject, key))
  }

  ghost predicate Finds(s: Chat, s': Chat, i: nat, subject: string, key: string) {
    LooksUpLater(s, s', i, subject, key) ==> s'.flights[i].cached == Get(s.redis, subject, key)
  }

  /** What one step makes of one turn. */
  lemma MovedFinds(s: Chat, f: Flight, maxQuota: nat)
    requires FlightOk(f)
    ensures var f' := Moved(s, f, maxQuota);
            && (f'.phase.Rank() > 0 && f'.cacheable && f'.cached.None? && PastLookup(f'.phase)
                && !PastLookup(f.phase) ==>
                  Get(s.redis, f.subject, f.r.key).None?)
            && (f'.phase.Rank() > 0 ==> f.phase.Rank() > 0)
            && (f'.cacheable && PastLookup(f'.phase) && !PastLookup(f.phase) ==>
                  f'.cached == Get(s.redis, f.subject, f.r.key))
            && (f.cacheable && f.cached.None? && PastLookup(f.phase) && f.phase.Rank() > 0 && f'.phase.Done? ==>
                  f.phase.Caching?)
  {
  }

  lemma AdvanceIsOneStep(s: Chat, k: nat, maxQuota: nat, subject: string, key: string)
    requires CacheIsGenuine(s) && k < |s.flights| && Get(s.redis, subject, key).Some?
    ensures OneStep(s, Advance(s, k, maxQuota), subject, key)
  {
    var f := s.flights[k];
    var f' := Moved(s, f, maxQuota);
    MovedIsSame(s, f, maxQuota);
    MovedFinds(s, f, maxQuota);
    if f.phase.Caching? {
      CachingIsOneStep(s, Effect(s, k, f).(flights := s.flights[k := f']), k, subject, key);
    } else {
      OnlyCachingCaches(s, k, f);
      OthersAreOneStep(s, Effect(s, k, f).(flights := s.flights[k := f']), k, subject, key);
    }
  }

  lemma CachingIsOneStep(s: Chat, s': Chat, k: nat, subject: string, key: string)
    requires k < |s.flights| && s.flights[k].phase.Caching? && FlightOk(s.flights[k])
             && Get(s.redis, subject, key).Some?
    requires s'.flights == s.flights[k := s.flights[k].(phase := Done)]
    requires var f := s.flights[k]; s'.redis == Apply(s.redis, Set(f.subject, f.r.key, Kept(k, Generated(f.r))))
    ensures OneStep(s, s', subject, key)
  {
  }

  lemma OthersAreOneStep(s: Chat, s': Chat, k: nat, subject: string, key: string)
    requires k < |s.flights| && Get(s.redis, subject, key).Some? && s'.redis == s.redis
    requires |s'.flights| == |s.flights| && SameTurn(s.flights[k], s'.flights[k])
    requires forall i :: 0 <= i < |s.flights| && i != k ==> s'.flights[i] == s.flights[i]
    requires Missed(s', k, subject, key) ==> Missed(s, k, subject, key)
    requires Finds(s, s', k, subject, key) && !Overtook(s, s', k, subject, key)
    ensures OneStep(s, s', subject, key)
  {
  }

  lemma NewcomersAreOneStep(s: Chat, s': Chat, subject: string, key: string)
    requires Get(s.redis, subject, key).Some? && Get(s'.redis, subject, key) == Get(s.redis, subject, key)
    requires |s.flights| <= |s'.flights| && s'.flights[..|s.flights|] == s.flights
    requires forall i :: |s.flights| <= i < |s'.flights| ==> s'.flights[i].phase.Counting?
    ensures OneStep(s, s', subject, key)
  {
    assert forall i :: 0 <= i < |s.flights| ==> s'.flights[i] == s'.flights[..|s.flights|][i];
  }

  lemma ActionIsOneStep(s: Chat, a: Action, maxQuota: nat, subject: string, key: string)
    requires CacheIsGenuine(s) && a != Update(subject) && Get(s.redis, subject, key).Some?
    ensures OneStep(s, Next(s, a, maxQuota), subject, key)
  {
    if a.Step? && a.i < |s.flights| {
      AdvanceIsOneStep(s, a.i, maxQuota, subject, key);
    } else {
      NewcomersAreOneStep(s, Next(s, a, maxQuota), subject, key);
    }
  }

  lemma StepKeepsSince(s: Chat, s': Chat, s2: Chat, subject: string, key: string, first: Kept)
    requires Since(s, s', subject, key, first) && OneStep(s', s2, subject, key)
    requires first.turn < |s.flights| && s.flights[first.turn].phase.Done?
    ensures Since(s, s2, subject, key, first)
  {
    forall i: nat
      ensures LaterFinds(s, s2, i, subject, key, first)
    {
      assert LaterFinds(s, s', i, subject, key, first) && Finds(s', s2, i, subject, key);
    }
    if SomeOvertook(s, s2, subject, key) {
      var i: nat :| Overtook(s, s2, i, subject, key);
      if Overtook(s, s', i, subject, key) {
        assert SomeOvertook(s, s', subject, key);
      } else {
        assert Overtook(s', s2, i, subject, key);
      }
    }
  }

  lemma SinceStep(s: Chat, s': Chat, a: Action, maxQuota: nat, subject: string, key: string, first: Kept)
    requires Since(s, s', subject, key, first) && CacheIsGenuine(s') && a != Update(subject)
    requires first.turn < |s.flights| && s.flights[first.turn].phase.Done?
    ensures Since(s, Next(s', a, maxQuota), subject, key, first)
  {
    ActionIsOneStep(s', a, maxQuota, subject, key);
    StepKeepsSince(s, s', Next(s', a, maxQuota), subject, key, first);
  }

  lemma SinceStart(s: Chat, subject: string, key: string)
    requires CacheIsGenuine(s) && Get(s.redis, subject, key).Some?
    ensures var first := Get(s.redis, subject, key).value;
            && Since(s, s, subject, key, first)
            && first.turn < |s.flights| && s.flights[first.turn].phase.Done?
  {
  }

  lemma {:induction false} RunSince(before: seq<Action>, after: seq<Action>, maxQuota: nat, subject: string,
                                    key: string)
    requires Get(Run(before, maxQuota).redis, subject, key).Some? && Update(subject) !in after
    ensures var s := Run(before, maxQuota);
            Since(s, Run(before + after, maxQuota), subject, key, Get(s.redis, subject, key).value)
    decreases |after|
  {
    var s := Run(before, maxQuota);
    RunKeepsGenuine(before, maxQuota);
    SinceStart(s, subject, key);
    if after == [] {
      assert before + after == before;
    } else {
      var most, a := after[..|after| - 1], after[|after| - 1];
      RunSince(before, most, maxQuota, subject, key);
      RunKeepsGenuine(before + most, maxQuota);
      assert before + after == before + most + [a];
      RunSnoc(before + most, a, maxQuota);
      SinceStep(s, Run(before + most, maxQuota), a, maxQuota, subject, key, Get(s.redis, subject, key).value);
    }
  }

  /** Until the subject is updated, a cached answer stays the one it is if and only if no turn that had missed it before
      it was stored stores its own; and it is only ever replaced by such a turn's. */
  lemma CachedStaysIff(before: seq<Action>, after: seq<Action>, maxQuota: nat, subject: string, key: string)
    requires Get(Run(before, maxQuota).redis, subject, key).Some? && Update(subject) !in after
    ensures var s, s' := Run(before, maxQuota), Run(before + after, maxQuota);
            var first, kept := Get(s.redis, subject, key).value, Get(s'.redis, subject, key);
            && kept.Some? && (kept.value == first <==> forall i: nat :: !Overtook(s, s', i, subject, key))
            && (kept.value != first ==> Overtook(s, s', kept.value.turn, subject, key))
  {
    RunSince(before, after, maxQuota, subject, key);
  }

  /** A first question that looks the cache up while the answer is there is answered from the cache: with the answer
      that was there, or with one stored since by a turn that had missed it. */
  lemma LaterAsksReplay(before: seq<Action>, after: seq<Action>, maxQuota: nat, subject: string, key: string, i: nat)
    requires Get(Run(before, maxQuota).redis, subject, key).Some? && Update(subject) !in after
    requires LooksUpLater(Run(before, maxQuota), Run(before + after, maxQuota), i, subject, key)
    ensures var s, s' := Run(before, maxQuota), Run(before + after, maxQuota);
            var first, cached := Get(s.redis, subject, key).value, s'.flights[i].cached;
            && cached.Some? && AnswerOf(s'.flights[i]) == cached.value.answer
            && (cached.value == first || Overtook(s, s', cached.value.turn, subject, key))
  {
    RunSince(before, after, maxQuota, subject, key);
    assert LaterFinds(Run(before, maxQuota), Run(before + after, maxQuota), i, subject, key,
                      Get(Run(before, maxQuota).redis, subject, key).value);
  }
}

/** What becomes of transcripts when turns overlap and sessions are deleted. */
module ChatTranscripts {
  import opened Common
  import opened AnswerCache
  import opened ChatTurn
  import opened ChatSteps
  import opened ChatCacheSafety

  // ---- What happens to a turn. ----

  /** The turn's question is stored and its answer is not, yet. */
  predicate Awaiting(f: Flight) {
    f.phase.Naming? || f.phase.Generating? || f.phase.Charging? || f.phase.Answering?
  }

  predicate HasAnswered(f: Flight) {
    f.phase.Saving? || f.phase.Caching? || f.phase.Done?
  }

  predicate NotAsked(f: Flight) {
    f.phase.Rank() >= Asking.Rank() || f.phase.Refused?
  }

  /** The action stores a message of another turn in the session of turn `i`, or deletes the session's messages. */
  predicate Interferes(s: Chat, i: nat, a: Action)
    requires i < |s.flights|
  {
    var session := s.flights[i].r.session;
    match a
    case Step(k) =>
      k != i && k < |s.flights| && s.flights[k].r.session == session
      && (s.flights[k].phase.Asking? || s.flights[k].phase.Answering?)
    case DeleteMessages(deleted) => deleted == session
    case _ => false
  }

  /** The last action interferes with turn `i` between its question and its answer. */
  ghost predicate DisturbedLast(s: Chat, i: nat, a: Action) {
    i < |s.flights| && Awaiting(s.flights[i]) && Interferes(s, i, a)
  }

  /** Between question and answer of turn `i`, another turn stored a message in the session or the session was
      deleted. */
  ghost predicate Disturbed(actions: seq<Action>, i: nat, maxQuota: nat)
    decreases |actions|
  {
    actions != [] &&
    var before := actions[..|actions| - 1];
    Disturbed(before, i, maxQuota) || DisturbedLast(Run(before, maxQuota), i, actions[|actions| - 1])
  }

  predicate PrecededLast(s: Chat, i: nat, a: Action) {
    i < |s.flights| && s.flights[i].phase.Asking? && a == Step(i) && Transcript(s, s.flights[i].r.session) != []
  }

  /** There was a message in the session when turn `i` stored its question. */
  ghost predicate Preceded(actions: seq<Action>, i: nat, maxQuota: nat)
    decreases |actions|
  {
    actions != [] &&
    var before := actions[..|actions| - 1];
    Preceded(before, i, maxQuota) || PrecededLast(Run(before, maxQuota), i, actions[|actions| - 1])
  }

  predicate DeletedLast(s: Chat, i: nat, a: Action) {
    i < |s.flights| && HasAnswered(s.flights[i]) && a == DeleteMessages(s.flights[i].r.session)
  }

  /** The session was deleted after turn `i` had stored its answer. */
  ghost predicate Deleted(actions: seq<Action>, i: nat, maxQuota: nat)
    decreases |actions|
  {
    actions != [] &&
    var before := actions[..|actions| - 1];
    Deleted(before, i, maxQuota) || DeletedLast(Run(before, maxQuota), i, actions[|actions| - 1])
  }

  // ---- What the transcript shows of a turn. ----

  predicate IsQuestion(line: Line, i: nat) {
    line.turn == i && line.message.Asked?
  }

  predicate IsAnswer(line: Line, i: nat) {
    line.turn == i && line.message.Answered?
  }

  ghost predicate NoLines(lines: seq<Line>, i: nat) {
    forall p :: 0 <= p < |lines| ==> lines[p].turn != i
  }

  ghost predicate NoAnswers(lines: seq<Line>, i: nat) {
    forall p :: 0 <= p < |lines| ==> !IsAnswer(lines[p], i)
  }

  /** The line is an answer that stands directly behind the question of its own turn. */
  predicate Follows(lines: seq<Line>, p: nat)
    requires p < |lines|
  {
    p > 0 && IsQuestion(lines[p - 1], lines[p].turn)
  }

  predicate EndsWithQuestion(lines: seq<Line>, i: nat) {
    lines != [] && IsQuestion(lines[|lines| - 1], i)
  }

  /** The transcript begins with the question and the answer of turn `i`. */
  predicate BeginsWith(lines: seq<Line>, i: nat) {
    |lines| >= 2 && IsQuestion(lines[0], i) && IsAnswer(lines[1], i)
  }

  /** Where the session's lines stand with turn `i`, given what has happened to it. */
  ghost predicate TurnOk(lines: seq<Line>, i: nat, f: Flight, preceded: bool, disturbed: bool, deleted: bool) {
    && (NotAsked(f) ==> !preceded && !disturbed && !deleted && NoLines(lines, i))
    && (!HasAnswered(f) ==> !deleted && NoAnswers(lines, i))
    && (Awaiting(f) ==> (EndsWithQuestion(lines, i) <==> !disturbed) && (!preceded && !disturbed ==> |lines| == 1))
    && (preceded && lines != [] ==> !IsQuestion(lines[0], i))
    && (forall p :: 0 <= p < |lines| && IsAnswer(lines[p], i) ==> (Follows(lines, p) <==> !disturbed))
    && (deleted ==> NoLines(lines, i))
    && (HasAnswered(f) && !preceded && !disturbed && !deleted ==> BeginsWith(lines, i))
  }

  lemma QuestionStored(lines: seq<Line>, i: nat, f: Flight, f': Flight, m: Message)
    requires TurnOk(lines, i, f, false, false, false) && f.phase.Asking? && f' == f.(phase := Naming) && m.Asked?
    ensures TurnOk(lines + [Line(i, m)], i, f', lines != [], false, false)
  {
  }

  lemma AnswerStored(lines: seq<Line>, i: nat, f: Flight, f': Flight, m: Message, preceded: bool, disturbed: bool)
    requires TurnOk(lines, i, f, preceded, disturbed, false) && f.phase.Answering? && f' == f.(phase := Saving)
             && m.Answered?
    ensures TurnOk(lines + [Line(i, m)], i, f', preceded, disturbed, false)
  {
  }

  lemma OtherStored(lines: seq<Line>, i: nat, f: Flight, more: seq<Line>, preceded: bool, disturbed: bool,
                    deleted: bool)
    requires TurnOk(lines, i, f, preceded, disturbed, deleted)
    requires |more| == 1 && more[0].turn != i
    ensures TurnOk(lines + more, i, f, preceded, disturbed || Awaiting(f), deleted)
  {
  }

  lemma AllDeleted(lines: seq<Line>, i: nat, f: Flight, preceded: bool, disturbed: bool, deleted: bool)
    requires TurnOk(lines, i, f, preceded, disturbed, deleted)
    ensures TurnOk([], i, f, preceded, disturbed || Awaiting(f), deleted || HasAnswered(f))
  {
  }

  lemma NothingStored(lines: seq<Line>, i: nat, f: Flight, f': Flight, preceded: bool, disturbed: bool, deleted: bool)
    requires TurnOk(lines, i, f, preceded, disturbed, deleted)
    requires !f.phase.Asking? && !f.phase.Answering?
    requires (NotAsked(f') == NotAsked(f) && Awaiting(f') == Awaiting(f) && HasAnswered(f') == HasAnswered(f))
             || (f.phase.Generating? && f'.phase.GaveUp?)
    ensures TurnOk(lines, i, f', preceded, disturbed, deleted)
  {
  }

  /** What the next step of turn `k`, which is `f`, adds to its session's transcript. */
  ghost function NewLines(k: nat, f: Flight): seq<Line> {
    match f.phase
    case Asking => [Line(k, Asked(f.r.question))]
    case Answering => [Line(k, Answered(AnswerOf(f)))]
    case _ => []
  }

  lemma AdvanceTells(s: Chat, k: nat, maxQuota: nat, session: string)
    requires k < |s.flights|
    ensures var f := s.flights[k];
            Transcript(Advance(s, k, maxQuota), session)
            == if session == f.r.session then Transcript(s, session) + NewLines(k, f) else Transcript(s, session)
  {
    var f := s.flights[k];
    if f.phase.Asking? || f.phase.Answering? {
      assert Effect(s, k, f) == Said(s, f.r.session, NewLines(k, f)[0]);
    } else {
      assert Effect(s, k, f).lines == s.lines;
      assert Transcript(s, session) + [] == Transcript(s, session);
    }
  }

  /** One action, as turn `i` sees it. */
  lemma TurnSees(s: Chat, a: Action, maxQuota: nat, i: nat, preceded: bool, disturbed: bool, deleted: bool)
    requires i < |s.flights|
    requires TurnOk(Transcript(s, s.flights[i].r.session), i, s.flights[i], preceded, disturbed, deleted)
    ensures var s' := Next(s, a, maxQuota);
            && i < |s'.flights| && s'.flights[i].r == s.flights[i].r
            && TurnOk(Transcript(s', s.flights[i].r.session), i, s'.flights[i], preceded || PrecededLast(s, i, a),
                      disturbed || DisturbedLast(s, i, a), deleted || DeletedLast(s, i, a))
  {
    if a == Step(i) {
      OwnStep(s, i, maxQuota, preceded, disturbed, deleted);
    } else if a.Step? && a.i < |s.flights| {
      OtherStep(s, a.i, maxQuota, i, preceded, disturbed, deleted);
    } else {
      NoStep(s, a, maxQuota, i, preceded, disturbed, deleted);
    }
  }

  lemma NoStep(s: Chat, a: Action, maxQuota: nat, i: nat, preceded: bool, disturbed: bool, deleted: bool)
    requires i < |s.flights| && (a.Step? ==> a.i >= |s.flights|)
    requires TurnOk(Transcript(s, s.flights[i].r.session), i, s.flights[i], preceded, disturbed, deleted)
    ensures var s' := Next(s, a, maxQuota);
            && i < |s'.flights| && s'.flights[i] == s.flights[i]
            && TurnOk(Transcript(s', s.flights[i].r.session), i, s'.flights[i], preceded,
                      disturbed || DisturbedLast(s, i, a), deleted || DeletedLast(s, i, a))
  {
    var f := s.flights[i];
    if a == DeleteMessages(f.r.session) {
      AllDeleted(Transcript(s, f.r.session), i, f, preceded, disturbed, deleted);
    }
  }

  lemma QuietMoves(s: Chat, f: Flight, maxQuota: nat)
    requires !f.phase.Asking? && !f.phase.Answering?
    ensures var f' := Moved(s, f, maxQuota);
            || (NotAsked(f') == NotAsked(f) && Awaiting(f') == Awaiting(f) && HasAnswered(f') == HasAnswered(f))
            || (f.phase.Generating? && f'.phase.GaveUp?)
  {
  }

  lemma OwnStep(s: Chat, i: nat, maxQuota: nat, preceded: bool, disturbed: bool, deleted: bool)
    requires i < |s.flights|
    requires TurnOk(Transcript(s, s.flights[i].r.session), i, s.flights[i], preceded, disturbed, deleted)
    ensures var s' := Advance(s, i, maxQuota);
            && s'.flights[i].r == s.flights[i].r
            && TurnOk(Transcript(s', s.flights[i].r.session), i, s'.flights[i],
                      preceded || PrecededLast(s, i, Step(i)), disturbed, deleted)
  {
    var f := s.flights[i];
    var f' := Moved(s, f, maxQuota);
    var lines := Transcript(s, f.r.session);
    AdvanceTells(s, i, maxQuota, f.r.session);
    assert Advance(s, i, maxQuota).flights[i] == f';
    match f.phase
    case Asking => QuestionStored(lines, i, f, f', Asked(f.r.question));
    case Answering => AnswerStored(lines, i, f, f', Answered(AnswerOf(f)), preceded, disturbed);
    case _ =>
      QuietMoves(s, f, maxQuota);
      NothingStored(lines, i, f, f', preceded, disturbed, deleted);
  }

  lemma OtherStep(s: Chat, k: nat, maxQuota: nat, i: nat, preceded: bool, disturbed: bool, deleted: bool)
    requires i < |s.flights| && k < |s.flights| && k != i
    requires TurnOk(Transcript(s, s.flights[i].r.session), i, s.flights[i], preceded, disturbed, deleted)
    ensures var s' := Advance(s, k, maxQuota);
            TurnOk(Transcript(s', s.flights[i].r.session), i, s.flights[i],
                   preceded, disturbed || DisturbedLast(s, i, Step(k)), deleted)
  {
    var f, g := s.flights[i], s.flights[k];
    var lines := Transcript(s, f.r.session);
    AdvanceTells(s, k, maxQuota, f.r.session);
    if g.r.session == f.r.session && NewLines(k, g) != [] {
      OtherStored(lines, i, f, NewLines(k, g), preceded, disturbed, deleted);
    }
  }

  /** A stored line is the question or the answer of a turn of that session that has stored it. */
  ghost predicate LineOk(s: Chat, session: string, line: Line) {
    line.turn < |s.flights| &&
    var f := s.flights[line.turn];
    && f.r.session == session
    && match line.message
       case Asked(question) => question == f.r.question && !NotAsked(f)
       case Answered(answer) => answer == AnswerOf(f) && HasAnswered(f)
  }

  ghost predicate LinesOk(s: Chat) {
    forall session, p :: 0 <= p < |Transcript(s, session)| ==> LineOk(s, session, Transcript(s, session)[p])
  }

  lemma LineStays(s: Chat, s': Chat, session: string, line: Line)
    requires LineOk(s, session, line) && |s.flights| <= |s'.flights| && s'.flights[line.turn] == s.flights[line.turn]
    ensures LineOk(s', session, line)
  {
  }

  lemma StagesGoOn(s: Chat, f: Flight, maxQuota: nat)
    ensures var f' := Moved(s, f, maxQuota);
            && f'.r == f.r && (PastLookup(f.phase) ==> f'.cached == f.cached)
            && (HasAnswered(f) || f.phase.Answering? ==> HasAnswered(f'))
            && (!NotAsked(f) || f.phase.Asking? ==> !NotAsked(f'))
  {
  }

  lemma OwnLineMoves(s: Chat, k: nat, maxQuota: nat, line: Line)
    requires k < |s.flights| && line.turn == k
    requires var f := s.flights[k]; LineOk(s, f.r.session, line) || line in NewLines(k, f)
    ensures LineOk(Advance(s, k, maxQuota), s.flights[k].r.session, line)
  {
    var f := s.flights[k];
    StagesGoOn(s, f, maxQuota);
    var f' := Moved(s, f, maxQuota);
    assert Advance(s, k, maxQuota).flights[k] == f';
    assert PastLookup(f.phase) ==> AnswerOf(f') == AnswerOf(f);
  }

  lemma LineMoves(s: Chat, k: nat, maxQuota: nat, session: string, line: Line)
    requires k < |s.flights| && (LineOk(s, session, line)
                                 || (session == s.flights[k].r.session && line in NewLines(k, s.flights[k])))
    ensures LineOk(Advance(s, k, maxQuota), session, line)
  {
    if line.turn == k {
      OwnLineMoves(s, k, maxQuota, line);
    } else {
      LineStays(s, Advance(s, k, maxQuota), session, line);
    }
  }

  lemma AdvanceKeepsLines(s: Chat, k: nat, maxQuota: nat)
    requires LinesOk(s) && k < |s.flights|
    ensures LinesOk(Advance(s, k, maxQuota))
  {
    var s' := Advance(s, k, maxQuota);
    forall session, p | 0 <= p < |Transcript(s', session)|
      ensures LineOk(s', session, Transcript(s', session)[p])
    {
      AdvanceTells(s, k, maxQuota, session);
      assert p < |Transcript(s, session)| ==> LineOk(s, session, Transcript(s, session)[p]);
      LineMoves(s, k, maxQuota, session, Transcript(s', session)[p]);
    }
  }

  lemma ActionKeepsLines(s: Chat, a: Action, maxQuota: nat)
    requires LinesOk(s)
    ensures LinesOk(Next(s, a, maxQuota))
  {
    var s' := Next(s, a, maxQuota);
    if a.Step? {
      if a.i < |s.flights| {
        AdvanceKeepsLines(s, a.i, maxQuota);
      }
    } else {
      forall session, p | 0 <= p < |Transcript(s', session)|
        ensures LineOk(s', session, Transcript(s', session)[p])
      {
        LineStays(s, s', session, Transcript(s, session)[p]);
      }
    }
  }

  /** What a history makes of turn `i`. */
  ghost predicate HistoryOk(actions: seq<Action>, i: nat, maxQuota: nat) {
    var s := Run(actions, maxQuota);
    if i < |s.flights| then
      TurnOk(Transcript(s, s.flights[i].r.session), i, s.flights[i], Preceded(actions, i, maxQuota),
             Disturbed(actions, i, maxQuota), Deleted(actions, i, maxQuota))
    else !Preceded(actions, i, maxQuota) && !Disturbed(actions, i, maxQuota) && !Deleted(actions, i, maxQuota)
  }

  lemma {:induction false} RunKeepsLines(actions: seq<Action>, maxQuota: nat)
    ensures LinesOk(Run(actions, maxQuota))
    decreases |actions|
  {
    if actions != [] {
      RunKeepsLines(actions[..|actions| - 1], maxQuota);
      ActionKeepsLines(Run(actions[..|actions| - 1], maxQuota), actions[|actions| - 1], maxQuota);
    }
  }

  lemma {:induction false} HistoryKeeps(actions: seq<Action>, i: nat, maxQuota: nat)
    ensures HistoryOk(actions, i, maxQuota)
    decreases |actions|
  {
    if actions != [] {
      var before, a := actions[..|actions| - 1], actions[|actions| - 1];
      HistoryKeeps(before, i, maxQuota);
      var s := Run(before, maxQuota);
      if i < |s.flights| {
        TurnSees(s, a, maxQuota, i, Preceded(before, i, maxQuota), Disturbed(before, i, maxQuota),
                 Deleted(before, i, maxQuota));
      } else if i < |Next(s, a, maxQuota).flights| {
        RunKeepsLines(before, maxQuota);
        NewcomerHasNoLines(s, a, maxQuota, i);
      }
    }
  }

  lemma NewcomerHasNoLines(s: Chat, a: Action, maxQuota: nat, i: nat)
    requires LinesOk(s) && |s.flights| <= i < |Next(s, a, maxQuota).flights|
    ensures var s' := Next(s, a, maxQuota);
            TurnOk(Transcript(s', s'.flights[i].r.session), i, s'.flights[i], false, false, false)
  {
    var s' := Next(s, a, maxQuota);
    var session := s'.flights[i].r.session;
    assert a.Begin? && Transcript(s', session) == Transcript(s, session);
    forall p | 0 <= p < |Transcript(s, session)|
      ensures Transcript(s, session)[p].turn != i
    {
      assert LineOk(s, session, Transcript(s, session)[p]);
    }
  }

  /** Every answer in a transcript is its own turn's, and stands directly behind that turn's question if and only if no
      other turn stored a message in the session between the two and the session was not deleted in between. */
  lemma AnswerFollowsItsQuestionIff(actions: seq<Action>, maxQuota: nat, session: string, p: nat)
    requires p < |Transcript(Run(actions, maxQuota), session)|
             && Transcript(Run(actions, maxQuota), session)[p].message.Answered?
    ensures var s := Run(actions, maxQuota);
            var lines := Transcript(s, session);
            var i := lines[p].turn;
            && i < |s.flights| && s.flights[i].r.session == session && lines[p].message.answer == AnswerOf(s.flights[i])
            && (Follows(lines, p) <==> !Disturbed(actions, i, maxQuota))
  {
    RunKeepsLines(actions, maxQuota);
    var lines := Transcript(Run(actions, maxQuota), session);
    assert LineOk(Run(actions, maxQuota), session, lines[p]);
    HistoryKeeps(actions, lines[p].turn, maxQuota);
    assert IsAnswer(lines[p], lines[p].turn);
  }

  /** A cached answer is the first answer in its session's transcript, behind the first question, if and only if the
      session was empty when that question was stored, the turn was not disturbed, and the session has not been deleted
      since. */
  lemma CachedIsFirstAnswerIff(actions: seq<Action>, maxQuota: nat, key: AnswerKey)
    requires key in Run(actions, maxQuota).redis.answers
    ensures var s := Run(actions, maxQuota);
            var kept := s.redis.answers[key];
            && Genuine(s, key, kept)
            && var lines := Transcript(s, s.flights[kept.turn].r.session);
            && (BeginsWith(lines, kept.turn)
                <==> !Preceded(actions, kept.turn, maxQuota) && !Disturbed(actions, kept.turn, maxQuota)
                     && !Deleted(actions, kept.turn, maxQuota))
            && (BeginsWith(lines, kept.turn) ==> lines[1].message == Answered(kept.answer))
  {
    RunKeepsGenuine(actions, maxQuota);
    var s := Run(actions, maxQuota);
    var i := s.redis.answers[key].turn;
    assert Genuine(s, key, s.redis.answers[key]);
    HistoryKeeps(actions, i, maxQuota);
    var lines := Transcript(s, s.flights[i].r.session);
    if BeginsWith(lines, i) {
      assert IsAnswer(lines[1], i) && Follows(lines, 1);
      RunKeepsLines(actions, maxQuota);
      assert LineOk(s, s.flights[i].r.session, lines[1]);
    }
  }

  /** Every answer stands directly behind its own question. */
  ghost predicate Alternates(lines: seq<Line>) {
    forall p :: 0 <= p < |lines| && lines[p].message.Answered? ==> Follows(lines, p)
  }

  // ---- One turn at a time in a session. ----

  predicate InFlight(s: Chat, i: nat, session: string) {
    i < |s.flights| && s.flights[i].r.session == session && s.flights[i].phase.Rank() > 0
  }

  ghost predicate Busy(s: Chat, session: string) {
    exists i: nat :: InFlight(s, i, session)
  }

  /** No turn begins in the session, and its messages are not deleted, while another turn of it is in flight. */
  ghost predicate OneTurnAtATime(actions: seq<Action>, session: string, maxQuota: nat)
    decreases |actions|
  {
    actions == [] ||
    var before, a := actions[..|actions| - 1], actions[|actions| - 1];
    && OneTurnAtATime(before, session, maxQuota)
    && (Busy(Run(before, maxQuota), session) ==> a != DeleteMessages(session) && !(a.Begin? && a.r.session == session))
  }

  ghost predicate Solo(s: Chat, session: string) {
    && (forall i: nat, j: nat :: InFlight(s, i, session) && InFlight(s, j, session) ==> i == j)
    && forall i: nat :: InFlight(s, i, session) ==> FirstIsFirst(s, i)
  }

  /** A turn that has found its session empty, and has not asked yet, still finds it empty. */
  ghost predicate FirstIsFirst(s: Chat, i: nat)
    requires i < |s.flights|
  {
    var f := s.flights[i];
    f.cacheable && NotAsked(f) ==> Transcript(s, f.r.session) == []
  }

  lemma SoloStep(s: Chat, k: nat, maxQuota: nat, session: string)
    requires CacheIsGenuine(s) && Solo(s, session) && k < |s.flights|
    ensures Solo(Advance(s, k, maxQuota), session)
  {
    var s' := Advance(s, k, maxQuota);
    MovedIsSame(s, s.flights[k], maxQuota);
    AdvanceTells(s, k, maxQuota, session);
    forall i: nat | InFlight(s', i, session)
      ensures InFlight(s, i, session)
    {
    }
    forall i: nat | InFlight(s', i, session)
      ensures FirstIsFirst(s', i)
    {
      assert InFlight(s, i, session) && FirstIsFirst(s, i);
      if i != k && s.flights[k].r.session == session && NewLines(k, s.flights[k]) != [] {
        assert InFlight(s, k, session);
      }
    }
  }

  lemma SoloAction(s: Chat, a: Action, maxQuota: nat, session: string)
    requires CacheIsGenuine(s) && Solo(s, session)
    requires Busy(s, session) ==> a != DeleteMessages(session) && !(a.Begin? && a.r.session == session)
    ensures Solo(Next(s, a, maxQuota), session)
  {
    var s' := Next(s, a, maxQuota);
    if a.Step? {
      if a.i < |s.flights| {
        SoloStep(s, a.i, maxQuota, session);
      }
    } else {
      forall i: nat | InFlight(s', i, session)
        ensures InFlight(s, i, session)
                || (a.Begin? && a.r.session == session && i == |s.flights| && !s'.flights[i].cacheable)
      {
      }
    }
  }

  lemma {:induction false} SoloRun(actions: seq<Action>, maxQuota: nat, session: string)
    requires OneTurnAtATime(actions, session, maxQuota)
    ensures Solo(Run(actions, maxQuota), session)
    decreases |actions|
  {
    if actions != [] {
      var before := actions[..|actions| - 1];
      SoloRun(before, maxQuota, session);
      RunKeepsGenuine(before, maxQuota);
      SoloAction(Run(before, maxQuota), actions[|actions| - 1], maxQuota, session);
    }
  }

  lemma SoloLast(s: Chat, a: Action, session: string, i: nat)
    requires Solo(s, session) && i < |s.flights| && s.flights[i].r.session == session
    requires Busy(s, session) ==> a != DeleteMessages(session)
    ensures !DisturbedLast(s, i, a) && (s.flights[i].cacheable ==> !PrecededLast(s, i, a))
  {
    if DisturbedLast(s, i, a) || PrecededLast(s, i, a) {
      assert InFlight(s, i, session) && FirstIsFirst(s, i);
      assert a.Step? ==> InFlight(s, a.i, session);
    }
  }

  /** No turn of such a session is disturbed, and a turn that found the session empty asks its first question. */
  lemma {:induction false} SoloTurnIsUndisturbed(actions: seq<Action>, maxQuota: nat, session: string, i: nat)
    requires OneTurnAtATime(actions, session, maxQuota)
    requires i < |Run(actions, maxQuota).flights| && Run(actions, maxQuota).flights[i].r.session == session
    ensures !Disturbed(actions, i, maxQuota)
    ensures Run(actions, maxQuota).flights[i].cacheable ==> !Preceded(actions, i, maxQuota)
    decreases |actions|
  {
    var before, a := actions[..|actions| - 1], actions[|actions| - 1];
    var s := Run(before, maxQuota);
    HistoryKeeps(before, i, maxQuota);
    if i < |s.flights| {
      SameFlight(s, a, maxQuota, i);
      SoloTurnIsUndisturbed(before, maxQuota, session, i);
      SoloRun(before, maxQuota, session);
      SoloLast(s, a, session, i);
    }
  }

  lemma SameFlight(s: Chat, a: Action, maxQuota: nat, i: nat)
    requires i < |s.flights|
    ensures var s' := Next(s, a, maxQuota);
            && i < |s'.flights| && s'.flights[i].r == s.flights[i].r
            && (s'.flights[i].cacheable != s.flights[i].cacheable ==>
                  s.flights[i].phase.Counting? && !s'.flights[i].phase.Counting?)
  {
    MovedIsSame(s, s.flights[i], maxQuota);
  }

  /** In a session that serves one turn at a time every answer stands behind its question, and a cached answer from it
      is its first answer unless it has been deleted since. */
  lemma OneTurnAtATimeSuffices(actions: seq<Action>, maxQuota: nat, session: string)
    requires OneTurnAtATime(actions, session, maxQuota)
    ensures Alternates(Transcript(Run(actions, maxQuota), session))
    ensures forall key :: key in Run(actions, maxQuota).redis.answers ==>
              var s := Run(actions, maxQuota);
              var i := s.redis.answers[key].turn;
              && i < |s.flights|
              && (s.flights[i].r.session == session && !Deleted(actions, i, maxQuota) ==>
                    BeginsWith(Transcript(s, session), i))
  {
    var s := Run(actions, maxQuota);
    var lines := Transcript(s, session);
    forall p | 0 <= p < |lines| && lines[p].message.Answered?
      ensures Follows(lines, p)
    {
      AnswerFollowsItsQuestionIff(actions, maxQuota, session, p);
      SoloTurnIsUndisturbed(actions, maxQuota, session, lines[p].turn);
    }
    forall key | key in s.redis.answers
      ensures var i := s.redis.answers[key].turn;
              && i < |s.flights|
              && (s.flights[i].r.session == session && !Deleted(actions, i, maxQuota) ==> BeginsWith(lines, i))
    {
      CachedIsFirstAnswerIff(actions, maxQuota, key);
      if s.flights[s.redis.answers[key].turn].r.session == session {
        SoloTurnIsUndisturbed(actions, maxQuota, session, s.redis.answers[key].turn);
      }
    }
  }
}

/** A turn that nothing overlaps is the whole turn of `ChatTurn`, and runs in which overlaps do damage. */
module ChatOverlap {
  import opened Common
  import opened AnswerCache
  import opened ChatTurn
  import opened ChatSteps
  import opened ChatCacheSafety
  import opened ChatTranscripts

  lemma AdvanceRanks(s: Chat, i: nat, maxQuota: nat)
    requires i < |s.flights| && s.flights[i].phase.Rank() > 0
    ensures var s' := Advance(s, i, maxQuota);
            |s'.flights| == |s.flights| && s'.flights[i].phase.Rank() < s.flights[i].phase.Rank()
  {
    assert Advance(s, i, maxQuota).flights[i] == Moved(s, s.flights[i], maxQuota);
  }

  /** Turn `i` run to its end with nothing else happening. */
  ghost function Finish(s: Chat, i: nat, maxQuota: nat): Chat
    requires i < |s.flights|
    decreases s.flights[i].phase.Rank()
  {
    if s.flights[i].phase.Rank() == 0 then s
    else
      AdvanceRanks(s, i, maxQuota);
      Finish(Advance(s, i, maxQuota), i, maxQuota)
  }

  ghost function AfterAnswer(s: Chat, i: nat, f: Flight): Chat
    requires i < |s.flights|
  {
    var told := Said(Saved(s, f), f.r.session, Line(i, Answered(AnswerOf(f))));
    told.(redis := if f.cacheable && f.cached.None? then
                     Apply(s.redis, Set(f.subject, f.r.key, Kept(i, Generated(f.r))))
                   else s.redis,
          flights := s.flights[i := f.(phase := Done)])
  }

  ghost function AfterGeneration(s: Chat, i: nat, f: Flight): Chat
    requires i < |s.flights|
  {
    if f.r.generation.ending.Complete? then
      AfterAnswer(Charged(s, f.r.user, UsageOf(f.r.generation).total), i, f)
    else s.(flights := s.flights[i := f.(phase := GaveUp)])
  }

  /** How a turn ends that has stored its question. */
  ghost function AfterQuestion(s: Chat, i: nat, f: Flight): Chat
    requires i < |s.flights|
  {
    var named := f.(title := Title(f.title, f.r.question));
    if f.cached.Some? then AfterAnswer(Saved(s, named), i, named) else AfterGeneration(Saved(s, named), i, named)
  }

  lemma AnsweringFinishes(s: Chat, i: nat, maxQuota: nat)
    requires i < |s.flights| && s.flights[i].phase.Answering?
    ensures Finish(s, i, maxQuota) == AfterAnswer(s, i, s.flights[i])
  {
    var f := s.flights[i];
    var s1 := Advance(s, i, maxQuota);
    var s2 := Advance(s1, i, maxQuota);
    assert Finish(s, i, maxQuota) == Finish(s1, i, maxQuota) == Finish(s2, i, maxQuota);
    if s2.flights[i].phase.Caching? {
      var s3 := Advance(s2, i, maxQuota);
      assert Finish(s2, i, maxQuota) == s3;
      assert s3.flights == s.flights[i := f.(phase := Done)];
    } else {
      assert s2.flights == s.flights[i := f.(phase := Done)];
    }
  }

  lemma SetTwice(flights: seq<Flight>, i: nat, f: Flight, g: Flight)
    requires i < |flights|
    ensures flights[i := f][i := g] == flights[i := g]
  {
  }

  lemma GeneratingFinishes(s: Chat, i: nat, maxQuota: nat)
    requires i < |s.flights| && s.flights[i].phase.Generating?
    ensures Finish(s, i, maxQuota) == AfterGeneration(s, i, s.flights[i])
  {
    var f := s.flights[i];
    var s1 := Advance(s, i, maxQuota);
    assert Finish(s, i, maxQuota) == Finish(s1, i, maxQuota);
    if f.r.generation.ending.Complete? {
      var s2 := Advance(s1, i, maxQuota);
      assert Finish(s1, i, maxQuota) == Finish(s2, i, maxQuota);
      AnsweringFinishes(s2, i, maxQuota);
      SetTwice(s.flights, i, s1.flights[i], s2.flights[i]);
      SetTwice(s.flights, i, s2.flights[i], f.(phase := Done));
    }
  }

  lemma NamingFinishes(s: Chat, i: nat, maxQuota: nat)
    requires i < |s.flights| && s.flights[i].phase.Naming?
    ensures Finish(s, i, maxQuota) == AfterQuestion(s, i, s.flights[i])
  {
    var s1 := Advance(s, i, maxQuota);
    assert Finish(s, i, maxQuota) == Finish(s1, i, maxQuota);
    SetTwice(s.flights, i, s1.flights[i], s1.flights[i].(phase := Done));
    SetTwice(s.flights, i, s1.flights[i], s1.flights[i].(phase := GaveUp));
    if s.flights[i].cached.Some? {
      AnsweringFinishes(s1, i, maxQuota);
    } else {
      GeneratingFinishes(s1, i, maxQuota);
    }
  }

  // ---- A turn alone. ----

  function Messages(lines: seq<Line>): seq<Message> {
    seq(|lines|, p requires 0 <= p < |lines| => lines[p].message)
  }

  /** The chat without its turns, and without who stored what. */
  function View(s: Chat): World {
    World(map id | id in s.rows :: Session(s.rows[id].subject, s.rows[id].title, Messages(Transcript(s, id))), s.used,
          Redis(s.redis.counters, map key | key in s.redis.answers :: s.redis.answers[key].answer))
  }

  lemma ViewGet(s: Chat, subject: string, key: string)
    ensures var kept := Get(s.redis, subject, key);
            Get(View(s).redis, subject, key) == if kept.Some? then Some(kept.value.answer) else None
  {
  }

  lemma ViewSaid(s: Chat, session: string, line: Line)
    requires session in s.rows
    ensures View(Said(s, session, line)) == Say(View(s), session, line.message)
  {
    var lines := Transcript(s, session);
    assert Messages(lines + [line]) == Messages(lines) + [line.message];
    assert View(Said(s, session, line)).sessions == Say(View(s), session, line.message).sessions;
  }

  lemma ViewSaved(s: Chat, f: Flight)
    requires f.r.session in s.rows && s.rows[f.r.session].subject == f.subject
    ensures var w := View(s);
            View(Saved(s, f)) == w.(sessions := w.sessions[f.r.session := w.sessions[f.r.session].(title := f.title)])
  {
    var w := View(s);
    assert View(Saved(s, f)).sessions == w.sessions[f.r.session := w.sessions[f.r.session].(title := f.title)];
  }

  lemma ViewKept(s: Chat, subject: string, key: string, kept: Kept)
    ensures View(s.(redis := Apply(s.redis, Set(subject, key, kept)))) == Keep(View(s), subject, key, kept.answer)
  {
    var s' := s.(redis := Apply(s.redis, Set(subject, key, kept)));
    assert View(s').redis.answers == Keep(View(s), subject, key, kept.answer).redis.answers;
    assert View(s').sessions == View(s).sessions;
  }

  lemma ViewCharged(s: Chat, user: string, tokens: nat)
    ensures View(Charged(s, user, tokens)) == Charge(View(s), user, tokens)
  {
    assert View(Charged(s, user, tokens)).sessions == View(s).sessions;
  }

  lemma ViewIgnoresTurns(s: Chat, flights: seq<Flight>)
    ensures View(s.(flights := flights)) == View(s)
  {
    assert View(s.(flights := flights)).sessions == View(s).sessions;
  }

  lemma ViewAnswered(s: Chat, i: nat, f: Flight)
    requires i < |s.flights| && s.rows.Keys >= {f.r.session} && s.rows[f.r.session] == Row(f.subject, f.title)
    ensures var said := Say(View(s), f.r.session, Answered(AnswerOf(f)));
            View(AfterAnswer(s, i, f))
            == if f.cacheable && f.cached.None? then Keep(said, f.subject, f.r.key, Generated(f.r)) else said
  {
    var line := Line(i, Answered(AnswerOf(f)));
    assert Saved(s, f) == s by {
      assert s.rows[f.r.session := Row(f.subject, f.title)] == s.rows;
    }
    var told := Said(s, f.r.session, line);
    ViewSaid(s, f.r.session, line);
    if f.cacheable && f.cached.None? {
      var kept := Kept(i, Generated(f.r));
      ViewKept(told, f.subject, f.r.key, kept);
      ViewIgnoresTurns(told.(redis := Apply(s.redis, Set(f.subject, f.r.key, kept))),
                       s.flights[i := f.(phase := Done)]);
    } else {
      ViewIgnoresTurns(told, s.flights[i := f.(phase := Done)]);
    }
  }

  lemma ViewGenerated(s: Chat, i: nat, f: Flight)
    requires i < |s.flights| && f.r.session in s.rows && s.rows[f.r.session] == Row(f.subject, f.title)
    requires f.cached.None?
    ensures var w, a := View(s), Generated(f.r);
            var said := Say(Charge(w, f.r.user, a.usage.total), f.r.session, Answered(a));
            View(AfterGeneration(s, i, f))
            == if !f.r.generation.ending.Complete? then w
               else if f.cacheable then Keep(said, f.subject, f.r.key, a) else said
  {
    if f.r.generation.ending.Complete? {
      ViewCharged(s, f.r.user, UsageOf(f.r.generation).total);
      ViewAnswered(Charged(s, f.r.user, UsageOf(f.r.generation).total), i, f);
    } else {
      ViewIgnoresTurns(s, s.flights[i := f.(phase := GaveUp)]);
    }
  }

  /** A turn that is about to ask, left alone. */
  lemma AskingStores(s: Chat, i: nat, maxQuota: nat)
    requires i < |s.flights| && s.flights[i].phase.Asking?
    requires var f := s.flights[i];
             f.r.session in s.rows && s.rows[f.r.session] == Row(f.subject, f.title)
    ensures var f := s.flights[i];
            var answer := if f.cached.Some? then Some(f.cached.value.answer) else None;
            View(Finish(s, i, maxQuota)) == Stored(View(s), f.r, answer, f.cacheable && f.cached.None?)
  {
    var f := s.flights[i];
    var s1 := Advance(s, i, maxQuota);
    var named := f.(title := Title(f.title, f.r.question), phase := Naming);
    assert Finish(s, i, maxQuota) == Finish(s1, i, maxQuota);
    NamingFinishes(s1, i, maxQuota);
    OpenedInSteps(s, i, s1, named);
    var begun := Saved(s1, named);
    if f.cached.Some? {
      ViewAnswered(begun, i, named);
    } else {
      ViewGenerated(begun, i, named);
    }
  }

  lemma OpenedInSteps(s: Chat, i: nat, s1: Chat, named: Flight)
    requires i < |s.flights|
    requires var f := s.flights[i];
             && f.r.session in s.rows && s.rows[f.r.session] == Row(f.subject, f.title)
             && s1 == Said(s, f.r.session,
                           Line(i, Asked(f.r.question))).(flights := s.flights[i := f.(phase := Naming)])
             && named == f.(title := Title(f.title, f.r.question), phase := Naming)
    ensures View(Saved(s1, named)) == Opened(View(s), named.r)
  {
    var f := s.flights[i];
    var line := Line(i, Asked(f.r.question));
    var said := Said(s, f.r.session, line);
    ViewSaid(s, f.r.session, line);
    ViewIgnoresTurns(said, s1.flights);
    ViewSaved(s1, named);
    assert View(Saved(s1, named)).sessions == Opened(View(s), f.r).sessions;
  }

  /** A turn that nothing overlaps does what `Turn` says. */
  lemma TurnAlone(s: Chat, r: Request, maxQuota: nat)
    requires r.session in s.rows
    ensures var i := |s.flights|;
            var s' := Finish(Next(s, Begin(r), maxQuota), i, maxQuota);
            var Pair(w', reply) := Turn(View(s), r, maxQuota);
            View(s') == w' && (i < |s'.flights| && s'.flights[i].phase.Refused? <==> reply.QuotaExceeded?)
  {
    var i := |s.flights|;
    var row := s.rows[r.session];
    var s0 := Next(s, Begin(r), maxQuota);
    var s1 := Advance(s0, i, maxQuota);
    assert Finish(s0, i, maxQuota) == Finish(s1, i, maxQuota);
    var w := View(s);
    assert Cacheable(w, r) <==> Transcript(s, r.session) == [];
    ViewGet(s, row.subject, r.key);
    ViewIgnoresTurns(s, s1.flights);
    if Cacheable(w, r) {
      var s2 := Advance(s1, i, maxQuota);
      assert Finish(s1, i, maxQuota) == Finish(s2, i, maxQuota);
      ViewIgnoresTurns(s, s2.flights);
      if s2.flights[i].cached.Some? {
        AskingEnds(s2, i, maxQuota);
        AskingStores(s2, i, maxQuota);
      } else {
        CheckingFinishes(s2, i, maxQuota);
      }
    } else {
      CheckingFinishes(s1, i, maxQuota);
    }
  }

  lemma CheckingFinishes(s: Chat, i: nat, maxQuota: nat)
    requires i < |s.flights| && s.flights[i].phase.Checking? && s.flights[i].cached.None?
    requires var f := s.flights[i];
             f.r.session in s.rows && s.rows[f.r.session] == Row(f.subject, f.title)
    ensures var f, s', w := s.flights[i], Finish(s, i, maxQuota), View(s);
            && |s'.flights| == |s.flights| && (s'.flights[i].phase.Refused? <==> UsedBy(w, f.r.user) >= maxQuota)
            && View(s') == if UsedBy(w, f.r.user) >= maxQuota then w else Stored(w, f.r, None, f.cacheable)
  {
    var s1 := Advance(s, i, maxQuota);
    assert Finish(s, i, maxQuota) == Finish(s1, i, maxQuota);
    ViewIgnoresTurns(s, s1.flights);
    if UsedIn(s, s.flights[i].r.user) < maxQuota {
      AskingEnds(s1, i, maxQuota);
      AskingStores(s1, i, maxQuota);
    }
  }

  lemma AskingEnds(s: Chat, i: nat, maxQuota: nat)
    requires i < |s.flights| && s.flights[i].phase.Asking?
    ensures var s' := Finish(s, i, maxQuota);
            |s'.flights| == |s.flights| && (s'.flights[i].phase.Done? || s'.flights[i].phase.GaveUp?)
  {
    var s1 := Advance(s, i, maxQuota);
    assert Finish(s, i, maxQuota) == Finish(s1, i, maxQuota);
    NamingFinishes(s1, i, maxQuota);
  }

  // ---- Overlaps that do damage. ----

  lemma {:induction false} FinishIsRun(actions: seq<Action>, i: nat, maxQuota: nat) returns (steps: seq<Action>)
    requires i < |Run(actions, maxQuota).flights|
    ensures Run(actions + steps, maxQuota) == Finish(Run(actions, maxQuota), i, maxQuota)
    ensures forall k :: 0 <= k < |steps| ==> steps[k] == Step(i)
    decreases Run(actions, maxQuota).flights[i].phase.Rank()
  {
    var s := Run(actions, maxQuota);
    if s.flights[i].phase.Rank() == 0 {
      steps := [];
      assert actions + steps == actions;
    } else {
      RunSnoc(actions, Step(i), maxQuota);
      AdvanceRanks(s, i, maxQuota);
      var rest := FinishIsRun(actions + [Step(i)], i, maxQuota);
      steps := [Step(i)] + rest;
      assert actions + steps == actions + [Step(i)] + rest;
    }
  }

  /** Two turns have missed the same question and are about to ask it. */
  ghost predicate BothAsking(s: Chat, r: Request, r2: Request, subject: string) {
    && s.flights == [Flight(r, subject, None, true, None, Asking), Flight(r2, subject, None, true, None, Asking)]
    && r.session in s.rows && r2.session in s.rows && s.lines == map[] && s.redis == Redis(map[], map[])
  }

  lemma BothBeginIsReachable(r: Request, r2: Request, subject: string, maxQuota: nat) returns (actions: seq<Action>)
    ensures var s := Run(actions, maxQuota);
            && s.flights == [Flight(r, subject, None, false, None, Counting),
                             Flight(r2, subject, None, false, None, Counting)]
            && r.session in s.rows && r2.session in s.rows && s.lines == map[] && s.used == map[]
            && s.redis == Redis(map[], map[])
  {
    actions := Do([], Open(r.session, subject), maxQuota);
    actions := Do(actions, Open(r2.session, subject), maxQuota);
    actions := Do(actions, Begin(r), maxQuota);
    actions := Do(actions, Begin(r2), maxQuota);
  }

  /** Two first questions asked at the same time, in one session or in two of the same subject. */
  lemma BothAskingIsReachable(r: Request, r2: Request, subject: string, maxQuota: nat) returns (actions: seq<Action>)
    requires maxQuota > 0
    ensures BothAsking(Run(actions, maxQuota), r, r2, subject)
  {
    actions := BothBeginIsReachable(r, r2, subject, maxQuota);
    actions := MissesAndAsks(actions, 0, maxQuota);
    actions := MissesAndAsks(actions, 1, maxQuota);
  }

  lemma MissesAndAsks(actions: seq<Action>, i: nat, maxQuota: nat) returns (more: seq<Action>)
    requires var s := Run(actions, maxQuota);
             && i < |s.flights| && s.flights[i].phase.Counting? && s.flights[i].cached.None? && maxQuota > 0
             && s.lines == map[] && s.used == map[] && s.redis == Redis(map[], map[])
    ensures var s := Run(actions, maxQuota);
            Run(more, maxQuota) == s.(flights := s.flights[i := s.flights[i].(cacheable := true, phase := Asking)])
  {
    more := Do(actions, Step(i), maxQuota);
    more := Do(more, Step(i), maxQuota);
    more := Do(more, Step(i), maxQuota);
  }

  lemma Do(actions: seq<Action>, a: Action, maxQuota: nat) returns (more: seq<Action>)
    ensures more == actions + [a] && Run(more, maxQuota) == Next(Run(actions, maxQuota), a, maxQuota)
  {
    more := actions + [a];
    RunSnoc(actions, a, maxQuota);
  }

  lemma AskingFinishes(s: Chat, i: nat, maxQuota: nat)
    requires i < |s.flights| && s.flights[i].phase.Asking?
    ensures var s1 := Advance(s, i, maxQuota);
            s1.flights[i] == s.flights[i].(phase := Naming)
                && Finish(s, i, maxQuota) == AfterQuestion(s1, i, s1.flights[i])
  {
    NamingFinishes(Advance(s, i, maxQuota), i, maxQuota);
  }

  /** What a first question leaves that was missed, is asked and is answered with nothing in between. */
  lemma MissedThenCached(s: Chat, i: nat, maxQuota: nat)
    requires i < |s.flights| && s.flights[i].phase.Asking?
    requires var f := s.flights[i]; f.cacheable && f.cached.None? && f.r.generation.ending.Complete?
    ensures var f, s' := s.flights[i], Finish(s, i, maxQuota);
            && Get(s'.redis, f.subject, f.r.key) == Some(Kept(i, Generated(f.r)))
            && s'.rows.Keys == s.rows.Keys + {f.r.session}
            && s'.redis.counters == s.redis.counters
            && |s'.flights| == |s.flights| && forall j :: 0 <= j < |s.flights| && j != i ==>
                  s'.flights[j] == s.flights[j]
  {
    AskingFinishes(s, i, maxQuota);
  }

  /** Without any update in between, the answer of one turn replaces the cached answer of another. */
  lemma OverlapReplacesCached(r: Request, r2: Request, subject: string, maxQuota: nat)
    returns (before: seq<Action>, after: seq<Action>)
    requires maxQuota > 0 && r.key == r2.key && r.generation.ending.Complete? && r2.generation.ending.Complete?
    ensures Get(Run(before, maxQuota).redis, subject, r.key) == Some(Kept(0, Generated(r)))
    ensures Get(Run(before + after, maxQuota).redis, subject, r.key) == Some(Kept(1, Generated(r2)))
    ensures Update(subject) !in after
  {
    var actions := BothAskingIsReachable(r, r2, subject, maxQuota);
    var steps := FinishIsRun(actions, 0, maxQuota);
    MissedThenCached(Run(actions, maxQuota), 0, maxQuota);
    before := actions + steps;
    after := FinishIsRun(before, 1, maxQuota);
    MissedThenCached(Run(before, maxQuota), 1, maxQuota);
  }

  lemma BothAskedIsReachable(r: Request, r2: Request, subject: string, maxQuota: nat) returns (actions: seq<Action>)
    requires maxQuota > 0 && r.session == r2.session
    ensures var s := Run(actions, maxQuota);
            && s.flights == [Flight(r, subject, None, true, None, Naming),
                             Flight(r2, subject, None, true, None, Naming)]
            && Transcript(s, r.session) == [Line(0, Asked(r.question)), Line(1, Asked(r2.question))]
  {
    actions := BothAskingIsReachable(r, r2, subject, maxQuota);
    actions := Do(actions, Step(0), maxQuota);
    actions := Do(actions, Step(1), maxQuota);
  }

  /** Two first questions of one session at the same time: two questions, then two answers, and the first answer is the
      third message. */
  lemma OverlapMixesTranscript(r: Request, r2: Request, subject: string, maxQuota: nat) returns (actions: seq<Action>)
    requires maxQuota > 0 && r.session == r2.session
    requires r.generation.ending.Complete? && r2.generation.ending.Complete?
    ensures Transcript(Run(actions, maxQuota), r.session) ==
            [Line(0, Asked(r.question)), Line(1, Asked(r2.question)), Line(0, Answered(Generated(r))),
             Line(1, Answered(Generated(r2)))]
    ensures !Alternates(Transcript(Run(actions, maxQuota), r.session))
  {
    actions := BothAskedIsReachable(r, r2, subject, maxQuota);
    var s := Run(actions, maxQuota);
    var first := FinishIsRun(actions, 0, maxQuota);
    NamingTells(s, 0, maxQuota);
    actions := actions + first;
    var second := FinishIsRun(actions, 1, maxQuota);
    NamingTells(Run(actions, maxQuota), 1, maxQuota);
    actions := actions + second;
    var lines := Transcript(Run(actions, maxQuota), r.session);
    assert lines[3].message.Answered? && !Follows(lines, 3);
  }

  lemma NamingTells(s: Chat, i: nat, maxQuota: nat)
    requires i < |s.flights| && s.flights[i].phase.Naming? && s.flights[i].cached.None?
    requires s.flights[i].r.generation.ending.Complete?
    ensures var f, s' := s.flights[i], Finish(s, i, maxQuota);
            && Transcript(s', f.r.session) == Transcript(s, f.r.session) + [Line(i, Answered(Generated(f.r)))]
            && |s'.flights| == |s.flights| && forall j :: 0 <= j < |s.flights| && j != i ==>
                  s'.flights[j] == s.flights[j]
  {
    NamingFinishes(s, i, maxQuota);
  }

  /** A cached answer that no transcript shows any more: its session has been deleted. */
  lemma DeletionLeavesCached(r: Request, r2: Request, subject: string, maxQuota: nat) returns (actions: seq<Action>)
    requires maxQuota > 0 && r.generation.ending.Complete?
    ensures var s := Run(actions, maxQuota);
            && Get(s.redis, subject, r.key) == Some(Kept(0, Generated(r)))
            && r.session !in s.rows && Transcript(s, r.session) == []
  {
    actions := BothAskingIsReachable(r, r2, subject, maxQuota);
    var steps := FinishIsRun(actions, 0, maxQuota);
    MissedThenCached(Run(actions, maxQuota), 0, maxQuota);
    actions := actions + steps;
    actions := Do(actions, DeleteMessages(r.session), maxQuota);
    actions := Do(actions, DeleteRow(r.session), maxQuota);
  }
}
