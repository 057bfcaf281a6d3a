/** The daily token quota of one user: checked before a call, charged after it, not reserved in between. */
module Quota {

  /** `pending` calls have passed the check and not reported their usage yet. */
  datatype State = State(used: nat, pending: nat)

  /** A check that passes or not, a call that reports its usage, a call that fails without usage. */
  datatype Event = Check | Record(tokens: nat) | Fail

  const FRESH: State := State(0, 0)

  function Next(s: State, e: Event, max: nat): State {
    match e
    case Check => if s.used >= max then s else s.(pending := s.pending + 1)
    case Record(tokens) => if s.pending == 0 then s else State(s.used + tokens, s.pending - 1)
    case Fail => if s.pending == 0 then s else s.(pending := s.pending - 1)
  }

  function Run(s: State, events: seq<Event>, max: nat): State
    decreases |events|
  {
    if events == [] then s else Next(Run(s, events[..|events| - 1], max), events[|events| - 1], max)
  }

  /** At no time more than `calls` pending, never more than `most` tokens a call. */
  ghost predicate Within(events: seq<Event>, max: nat, calls: nat, most: nat)
    decreases |events|
  {
    events != [] ==>
      && Within(events[..|events| - 1], max, calls, most)
      && Run(FRESH, events, max).pending <= calls
      && (events[|events| - 1].Record? ==> events[|events| - 1].tokens <= most)
  }

  ghost predicate Bounded(s: State, max: nat, calls: nat, most: nat) {
    if max == 0 then s == FRESH else s.used + s.pending * most <= max - 1 + calls * most
  }

  lemma MorePending(pending: nat, calls: nat, most: nat)
    requires pending <= calls
    ensures pending * most <= calls * most
  {
    assert (calls - pending) * most >= 0;
  }

  lemma StepKeepsBound(s: State, e: Event, max: nat, calls: nat, most: nat)
    requires Bounded(s, max, calls, most) && Next(s, e, max).pending <= calls && (e.Record? ==> e.tokens <= most)
    ensures Bounded(Next(s, e, max), max, calls, most)
  {
    var s' := Next(s, e, max);
    match e
    case Check => MorePending(s'.pending, calls, most);
    case _ =>
      if s.pending > 0 {
        assert s.pending * most == s'.pending * most + most;
      }
  }

  lemma {:induction false} UsageInvariant(events: seq<Event>, max: nat, calls: nat, most: nat)
    requires Within(events, max, calls, most)
    ensures Bounded(Run(FRESH, events, max), max, calls, most)
    decreases |events|
  {
    if events == [] {
      MorePending(0, calls, most);
    } else {
      var before := events[..|events| - 1];
      UsageInvariant(before, max, calls, most);
      StepKeepsBound(Run(FRESH, before, max), events[|events| - 1], max, calls, most);
    }
  }

  /** With at most `calls` calls between check and record at any time, each using at most `most` tokens, recorded usage
      never exceeds max - 1 + calls * most; with a limit of zero it stays zero. */
  lemma UsageBounded(events: seq<Event>, max: nat, calls: nat, most: nat)
    requires Within(events, max, calls, most)
    ensures Run(FRESH, events, max).used <= if max == 0 then 0 else max - 1 + calls * most
  {
    UsageInvariant(events, max, calls, most);
    MorePending(0, Run(FRESH, events, max).pending, most);
  }

  // ---- The bound is reached. ----

  /** `k` calls, one after the other, that use one token each. */
  function OneByOne(k: nat): seq<Event> {
    if k == 0 then [] else OneByOne(k - 1) + [Check] + [Record(1)]
  }

  function Repeat(before: seq<Event>, e: Event, n: nat): seq<Event> {
    if n == 0 then before else Repeat(before, e, n - 1) + [e]
  }

  lemma Snoc(before: seq<Event>, e: Event, max: nat, calls: nat, most: nat)
    requires Within(before, max, calls, most) && (e.Record? ==> e.tokens <= most)
    requires Next(Run(FRESH, before, max), e, max).pending <= calls
    ensures Within(before + [e], max, calls, most)
            && Run(FRESH, before + [e], max) == Next(Run(FRESH, before, max), e, max)
  {
    assert (before + [e])[..|before|] == before;
  }

  /** One more call that uses one token. */
  lemma OneCall(before: seq<Event>, used: nat, max: nat, calls: nat, most: nat)
    requires Within(before, max, calls, most) && Run(FRESH, before, max) == State(used, 0)
    requires used < max && calls > 0 && most > 0
    ensures Within(before + [Check] + [Record(1)], max, calls, most)
    ensures Run(FRESH, before + [Check] + [Record(1)], max) == State(used + 1, 0)
  {
    var checked := before + [Check];
    assert Next(State(used, 0), Check, max) == State(used, 1);
    Snoc(before, Check, max, calls, most);
    assert Next(State(used, 1), Record(1), max) == State(used + 1, 0);
    Snoc(checked, Record(1), max, calls, most);
  }

  lemma {:induction false} OneByOneRuns(k: nat, max: nat, calls: nat, most: nat)
    requires k < max && calls > 0 && most > 0
    ensures Within(OneByOne(k), max, calls, most) && Run(FRESH, OneByOne(k), max) == State(k, 0)
    decreases k
  {
    if k > 0 {
      OneByOneRuns(k - 1, max, calls, most);
      OneCall(OneByOne(k - 1), k - 1, max, calls, most);
    }
  }

  lemma {:induction false} ChecksRun(before: seq<Event>, n: nat, max: nat, calls: nat, most: nat)
    requires Within(before, max, calls, most) && Run(FRESH, before, max).used < max
             && Run(FRESH, before, max).pending + n <= calls
    ensures Within(Repeat(before, Check, n), max, calls, most)
    ensures var s := Run(FRESH, before, max);
            Run(FRESH, Repeat(before, Check, n), max) == State(s.used, s.pending + n)
    decreases n
  {
    if n > 0 {
      ChecksRun(before, n - 1, max, calls, most);
      Snoc(Repeat(before, Check, n - 1), Check, max, calls, most);
    }
  }

  lemma {:induction false} RecordsRun(before: seq<Event>, n: nat, max: nat, calls: nat, most: nat)
    requires Within(before, max, calls, most) && n <= Run(FRESH, before, max).pending <= calls
    ensures Within(Repeat(before, Record(most), n), max, calls, most)
    ensures var s := Run(FRESH, before, max);
            Run(FRESH, Repeat(before, Record(most), n), max) == State(s.used + n * most, s.pending - n)
    decreases n
  {
    if n > 0 {
      RecordsRun(before, n - 1, max, calls, most);
      Snoc(Repeat(before, Record(most), n - 1), Record(most), max, calls, most);
      assert n * most == (n - 1) * most + most;
    }
  }

  /** The bound cannot be lowered: some run within the assumptions ends with exactly that usage. */
  lemma BoundIsReached(max: nat, calls: nat, most: nat) returns (events: seq<Event>)
    requires max > 0 && calls > 0 && most > 0
    ensures Within(events, max, calls, most) && Run(FRESH, events, max).used == max - 1 + calls * most
  {
    OneByOneRuns(max - 1, max, calls, most);
    var checked := Repeat(OneByOne(max - 1), Check, calls);
    ChecksRun(OneByOne(max - 1), calls, max, calls, most);
    events := Repeat(checked, Record(most), calls);
    RecordsRun(checked, calls, max, calls, most);
  }
}

/** The stored counters. */
module QuotaService {
  import Quota

  datatype Verdict = Allowed | Exceeded(used: nat, limit: nat)

  class QuotaStore {
    const maxQuota: nat
    var totals: map<string, nat>

    constructor (maxQuota: nat)
      ensures this.maxQuota == maxQuota && totals == map[]
    {
      this.maxQuota, totals := maxQuota, map[];
    }

    function Used(user: string): nat
      reads this
    {
      if user in totals then totals[user] else 0
    }

    method CheckQuota(user: string) returns (verdict: Verdict)
      ensures verdict == if Used(user) >= maxQuota then Exceeded(Used(user), maxQuota) else Allowed
      ensures forall pending: nat ::
                Quota.Next(Quota.State(Used(user), pending), Quota.Check, maxQuota).pending ==
                if verdict.Allowed? then pending + 1 else pending
    {
      var used := if user in totals then totals[user] else 0;
      if used >= maxQuota {
        return Exceeded(used, maxQuota);
      }
      verdict := Allowed;
    }

    method RecordUsage(user: string, tokens: nat) returns (newTotal: nat)
      modifies this
      ensures newTotal == old(Used(user)) + tokens && Used(user) == newTotal
      ensures forall other :: other != user ==> Used(other) == old(Used(other))
      ensures forall pending: nat :: pending > 0 ==>
                Quota.Next(Quota.State(old(Used(user)), pending), Quota.Record(tokens), maxQuota) ==
                Quota.State(Used(user), pending - 1)
    {
      newTotal := (if user in totals then totals[user] else 0) + tokens;
      totals := totals[user := newTotal];
    }
  }
}
