/** Reciprocal rank fusion: the score of an id, and why two mediocre ranks beat one excellent rank. */
module Fusion {
  import opened StableSort

  type Id = string

  const POOL: nat := 20
  const RRF_K: nat := 60

  /** What position `rank` of a candidate list is worth. */
  function Worth(rank: nat, k: nat): real
    requires k > 0
  {
    1.0 / ((rank + k) as real)
  }

  /** What the first `n` entries of `ranked` contribute to the score of `id`. */
  function Contribution(ranked: seq<Id>, n: nat, id: Id, k: nat): real
    requires n <= |ranked| && k > 0
  {
    if n == 0 then 0.0
    else Contribution(ranked, n - 1, id, k) + (if ranked[n - 1] == id then Worth(n - 1, k) else 0.0)
  }

  function Score(lists: seq<seq<Id>>, id: Id, k: nat): real
    requires k > 0
  {
    if lists == [] then 0.0
    else
      var last := lists[|lists| - 1];
      Score(lists[..|lists| - 1], id, k) + Contribution(last, |last|, id, k)
  }

  /** The entries of `s` in the order of their first occurrence: the key order of a Python dict that
      is filled from `s`. */
  function FirstSeen(s: seq<Id>): seq<Id> {
    if s == [] then []
    else
      var before := FirstSeen(s[..|s| - 1]);
      if s[|s| - 1] in before then before else before + [s[|s| - 1]]
  }

  function Flatten(lists: seq<seq<Id>>): seq<Id> {
    if lists == [] then [] else Flatten(lists[..|lists| - 1]) + lists[|lists| - 1]
  }

  lemma {:induction false} FirstSeenIsSet(s: seq<Id>)
    ensures Distinct(FirstSeen(s)) && forall id :: id in FirstSeen(s) <==> id in s
    decreases |s|
  {
    if s != [] {
      FirstSeenIsSet(s[..|s| - 1]);
      assert s == s[..|s| - 1] + [s[|s| - 1]];
    }
  }

  lemma {:induction false} ContributionWithout(ranked: seq<Id>, n: nat, id: Id, k: nat)
    requires n <= |ranked| && k > 0 && forall r :: 0 <= r < n ==> ranked[r] != id
    ensures Contribution(ranked, n, id, k) == 0.0
    decreases n
  {
    if n > 0 {
      ContributionWithout(ranked, n - 1, id, k);
    }
  }

  /** In a list of distinct ids, the entry at `rank` is worth exactly 1/(rank + k). */
  lemma {:induction false} ContributionAt(ranked: seq<Id>, n: nat, rank: nat, k: nat)
    requires rank < n <= |ranked| && k > 0 && Distinct(ranked)
    ensures Contribution(ranked, n, ranked[rank], k) == Worth(rank, k)
    decreases n
  {
    if rank == n - 1 {
      ContributionWithout(ranked, n - 1, ranked[rank], k);
    } else {
      ContributionAt(ranked, n - 1, rank, k);
    }
  }

  lemma ScoreSplits(dense: seq<Id>, sparse: seq<Id>, id: Id, k: nat)
    requires k > 0
    ensures Score([dense, sparse], id, k) ==
            Contribution(dense, |dense|, id, k) + Contribution(sparse, |sparse|, id, k)
  {
    assert [dense, sparse][..1] == [dense];
    assert [dense][..0] == [];
    assert Score([dense], id, k) == Contribution(dense, |dense|, id, k);
  }

  /** The score of an id over the dense and the sparse list, given its rank in each (if any). */
  lemma ScoreOfTwo(dense: seq<Id>, sparse: seq<Id>, id: Id, k: nat)
    requires Distinct(dense) && Distinct(sparse) && k > 0
    ensures Score([dense, sparse], id, k) ==
            Contribution(dense, |dense|, id, k) + Contribution(sparse, |sparse|, id, k)
    ensures forall list <- [dense, sparse] ::
              if id in list then
                exists rank: nat ::
                  rank < |list| && list[rank] == id && Contribution(list, |list|, id, k) == Worth(rank, k)
              else Contribution(list, |list|, id, k) == 0.0
  {
    ScoreSplits(dense, sparse, id, k);
    forall list | list in [dense, sparse]
      ensures if id in list then
                exists rank: nat ::
                  rank < |list| && list[rank] == id && Contribution(list, |list|, id, k) == Worth(rank, k)
              else Contribution(list, |list|, id, k) == 0.0
    {
      if id in list {
        var rank: nat :| rank < |list| && list[rank] == id;
        ContributionAt(list, |list|, rank, k);
      } else {
        ContributionWithout(list, |list|, id, k);
      }
    }
  }

  lemma WorthBounds(rank: nat, pool: nat, k: nat)
    requires k > 0 && rank < pool
    ensures Worth(pool - 1, k) <= Worth(rank, k) <= Worth(0, k)
  {
    Reciprocal((rank + k) as real, (pool - 1 + k) as real);
    Reciprocal(k as real, (rank + k) as real);
  }

  lemma Reciprocal(a: real, b: real)
    requires 0.0 < a <= b
    ensures 1.0 / b <= 1.0 / a
    ensures a < b ==> 1.0 / b < 1.0 / a
  {
    assert (1.0 / a) * a == 1.0 && (1.0 / b) * b == 1.0;
  }

  lemma CrossMultiply(p: real, q: real, m: real, n: real)
    requires m > 0.0 && n > 0.0 && p * m == 2.0 && q * n == 1.0
    ensures p > q <==> 2.0 * n > m
  {
    var z := m * n;
    assert p * z == (p * m) * n == 2.0 * n;
    assert q * z == (q * n) * m == m;
    if p > q {
      assert (p - q) * z > 0.0;
    } else {
      assert (q - p) * z >= 0.0;
    }
  }

  /** Twice the least worth against the greatest worth. */
  lemma TwiceLeastVersusBest(pool: nat, k: nat)
    requires pool > 0 && k > 0
    ensures Worth(pool - 1, k) + Worth(pool - 1, k) > Worth(0, k) <==> k > pool - 1
  {
    var m, n := (pool - 1 + k) as real, k as real;
    CrossMultiply(2.0 / m, 1.0 / n, m, n);
    assert 2.0 / m == 1.0 / m + 1.0 / m;
  }

  ghost predicate Candidates(list: seq<Id>, pool: nat) {
    Distinct(list) && |list| <= pool
  }

  /** `both` is on both lists and `single` on exactly one. */
  ghost predicate AgreedAndSingle(dense: seq<Id>, sparse: seq<Id>, both: Id, single: Id) {
    both in dense && both in sparse && (single in dense <==> single !in sparse)
  }

  /** An id both searches found outscores every id only one found, when the constant exceeds pool - 1. */
  lemma AgreementWins(dense: seq<Id>, sparse: seq<Id>, pool: nat, k: nat, both: Id, single: Id)
    requires Candidates(dense, pool) && Candidates(sparse, pool) && k > 0 && k > pool - 1
    requires AgreedAndSingle(dense, sparse, both, single)
    ensures Score([dense, sparse], both, k) > Score([dense, sparse], single, k)
  {
    ScoreOfTwo(dense, sparse, both, k);
    ScoreOfTwo(dense, sparse, single, k);
    assert dense in [dense, sparse] && sparse in [dense, sparse];
    TwiceLeastVersusBest(pool, k);
    forall rank: nat | rank < pool
      ensures Worth(pool - 1, k) <= Worth(rank, k) <= Worth(0, k)
    {
      WorthBounds(rank, pool, k);
    }
  }

  /** The bound is exact: agreement wins on all candidate lists of a pool of at least two exactly when
      the constant exceeds pool - 1. */
  lemma AgreementWinsIff(pool: nat, k: nat)
    requires pool >= 2 && k > 0
    ensures k > pool - 1 <==>
            forall dense, sparse, both, single ::
              Candidates(dense, pool) && Candidates(sparse, pool) && AgreedAndSingle(dense, sparse, both, single) ==>
              Score([dense, sparse], both, k) > Score([dense, sparse], single, k)
  {
    if k > pool - 1 {
      forall dense, sparse, both, single |
        Candidates(dense, pool) && Candidates(sparse, pool) && AgreedAndSingle(dense, sparse, both, single)
        ensures Score([dense, sparse], both, k) > Score([dense, sparse], single, k)
      {
        AgreementWins(dense, sparse, pool, k, both, single);
      }
    } else {
      var dense, sparse, both, single := AgreementCanLose(pool, k);
    }
  }

  /** A candidate list of `pool` ids that ends in "b" and otherwise holds 1, 2, ... copies of `tag`. */
  function Witness(tag: char, pool: nat): (list: seq<Id>)
    requires pool >= 1
    ensures |list| == pool && list[pool - 1] == "b"
    ensures forall i :: 0 <= i < pool - 1 ==> |list[i]| == i + 1 && list[i][0] == tag
  {
    seq(pool - 1, i requires 0 <= i => seq(i + 1, _ => tag)) + ["b"]
  }

  lemma WitnessDistinct(tag: char, pool: nat)
    requires pool >= 1 && tag != 'b'
    ensures Distinct(Witness(tag, pool))
  {
    var list := Witness(tag, pool);
    forall i, j | 0 <= i < j < pool
      ensures list[i] != list[j]
    {
      if j < pool - 1 {
        assert |list[i]| != |list[j]|;
      } else {
        assert list[i][0] != list[j][0];
      }
    }
  }

  lemma AgreementCanLose(pool: nat, k: nat) returns (dense: seq<Id>, sparse: seq<Id>, both: Id, single: Id)
    requires pool >= 2 && 0 < k <= pool - 1
    ensures Candidates(dense, pool) && Candidates(sparse, pool) && AgreedAndSingle(dense, sparse, both, single)
    ensures Score([dense, sparse], both, k) <= Score([dense, sparse], single, k)
  {
    dense, sparse := Witness('d', pool), Witness('s', pool);
    WitnessDistinct('d', pool);
    WitnessDistinct('s', pool);
    both, single := dense[pool - 1], dense[0];
    assert sparse[pool - 1] == both;
    assert single !in sparse by {
      assert single[0] == 'd' && forall i :: 0 <= i < pool ==> sparse[i][0] != 'd';
    }
    ScoreSplits(dense, sparse, both, k);
    ScoreSplits(dense, sparse, single, k);
    ContributionAt(dense, pool, pool - 1, k);
    ContributionAt(sparse, pool, pool - 1, k);
    ContributionAt(dense, pool, 0, k);
    ContributionWithout(sparse, pool, single, k);
    TwiceLeastVersusBest(pool, k);
  }
}

/** Hybrid retrieval over one subject's corpus. */
module Retriever {
  import opened Common
  import opened StableSort
  import opened Fusion
  import CV = ContentVersion

  datatype Stored = Stored(id: Id, chunk: CV.Chunk)

  datatype RetrievedChunk = RetrievedChunk(id: Id, text: string, documentId: string, sourceFilename: string)

  function Min(a: nat, b: nat): nat {
    if a < b then a else b
  }

  function Take<T>(s: seq<T>, n: nat): seq<T> {
    s[..Min(n, |s|)]
  }

  function Ids(corpus: seq<Stored>): (ids: seq<Id>)
    ensures |ids| == |corpus| && forall i :: 0 <= i < |corpus| ==> ids[i] == corpus[i].id
  {
    seq(|corpus|, i requires 0 <= i < |corpus| => corpus[i].id)
  }

  /** Pairs every chunk's id with its score. */
  function Scored(ids: seq<Id>, bm25: seq<real>): (scored: seq<Pair<Id, real>>)
    requires |bm25| == |ids|
    ensures |scored| == |ids| && forall i :: 0 <= i < |ids| ==> scored[i].fst == ids[i] && scored[i].snd == bm25[i]
  {
    seq(|ids|, i requires 0 <= i < |ids| => Pair(ids[i], bm25[i]))
  }

  function Firsts(scored: seq<Pair<Id, real>>): (ids: seq<Id>)
    ensures |ids| == |scored| && forall i :: 0 <= i < |scored| ==> ids[i] == scored[i].fst
  {
    seq(|scored|, i requires 0 <= i < |scored| => scored[i].fst)
  }

  /** The sparse side: every chunk with its BM25 score, best first, ties in corpus order. */
  function SparseRanked(corpus: seq<Stored>, bm25: seq<real>): seq<Id>
    requires |bm25| == |corpus|
  {
    Take(Firsts(SortDesc(Scored(Ids(corpus), bm25), (p: Pair<Id, real>) => p.snd)), POOL)
  }

  /** All candidates in their final order. */
  function FusedOrder(dense: seq<Id>, sparse: seq<Id>): seq<Id> {
    SortDesc(FirstSeen(dense + sparse), id => Score([dense, sparse], id, RRF_K))
  }

  function ById(corpus: seq<Stored>): map<Id, CV.Chunk> {
    if corpus == [] then map[]
    else ById(corpus[..|corpus| - 1])[corpus[|corpus| - 1].id := corpus[|corpus| - 1].chunk]
  }

  /** The chunks of `ids`, in that order, without the ids the corpus does not have. */
  function Results(byId: map<Id, CV.Chunk>, ids: seq<Id>): seq<RetrievedChunk> {
    if ids == [] then []
    else
      var chunk := if ids[0] in byId then
                     [RetrievedChunk(ids[0], byId[ids[0]].text, byId[ids[0]].documentId, byId[ids[0]].filename)]
                   else [];
      chunk + Results(byId, ids[1..])
  }

  /** The dict after whole lists: its keys in the order of first occurrence, each with its score. */
  ghost predicate Fused(order: seq<Id>, scores: map<Id, real>, lists: seq<seq<Id>>) {
    && order == FirstSeen(Flatten(lists))
    && (forall id :: id in scores <==> id in order)
    && (forall id :: id in scores ==> scores[id] == Score(lists, id, RRF_K))
  }

  /** The dict after `lists` and the first `rank` entries of `ranked`. */
  ghost predicate Fusing(order: seq<Id>, scores: map<Id, real>, lists: seq<seq<Id>>, ranked: seq<Id>, rank: nat) {
    && rank <= |ranked|
    && order == FirstSeen(Flatten(lists) + ranked[..rank])
    && (forall id :: id in scores <==> id in order)
    && (forall id ::
          Score(lists, id, RRF_K) + Contribution(ranked, rank, id, RRF_K) == if id in scores then scores[id] else 0.0)
  }

  lemma FusingStarts(order: seq<Id>, scores: map<Id, real>, lists: seq<seq<Id>>, ranked: seq<Id>)
    requires Fused(order, scores, lists)
    ensures Fusing(order, scores, lists, ranked, 0)
  {
    assert Flatten(lists) + ranked[..0] == Flatten(lists);
    UnseenScoreZero(lists);
  }

  lemma FusingGoesOn(order: seq<Id>, scores: map<Id, real>, lists: seq<seq<Id>>, ranked: seq<Id>, rank: nat)
    requires Fusing(order, scores, lists, ranked, rank) && rank < |ranked|
    ensures var id := ranked[rank];
            Fusing(if id in scores then order else order + [id],
                   scores[id := (if id in scores then scores[id] else 0.0) + 1.0 / ((rank + RRF_K) as real)],
                   lists, ranked, rank + 1)
  {
    FirstSeenNext(Flatten(lists), ranked, rank);
  }

  lemma FusingEnds(order: seq<Id>, scores: map<Id, real>, lists: seq<seq<Id>>, l: nat)
    requires l < |lists| && Fusing(order, scores, lists[..l], lists[l], |lists[l]|)
    ensures Fused(order, scores, lists[..l + 1])
  {
    assert lists[l][..|lists[l]|] == lists[l];
    assert lists[..l + 1][..l] == lists[..l];
  }

  /** The fusion loop: fills a dict of scores, list by list and rank by rank. `order` is the order in
      which the dict's keys were inserted. */
  method Fuse(lists: seq<seq<Id>>) returns (order: seq<Id>, scores: map<Id, real>)
    ensures order == FirstSeen(Flatten(lists))
    ensures forall id :: id in scores <==> id in order
    ensures forall id :: id in scores ==> scores[id] == Score(lists, id, RRF_K)
  {
    order, scores := [], map[];
    for l := 0 to |lists|
      invariant Fused(order, scores, lists[..l])
    {
      var ranked := lists[l];
      FusingStarts(order, scores, lists[..l], ranked);
      for rank := 0 to |ranked|
        invariant Fusing(order, scores, lists[..l], ranked, rank)
      {
        FusingGoesOn(order, scores, lists[..l], ranked, rank);
        var id := ranked[rank];
        if id !in scores {
          order := order + [id];
        }
        scores := scores[id := (if id in scores then scores[id] else 0.0) + 1.0 / ((rank + RRF_K) as real)];
      }
      FusingEnds(order, scores, lists, l);
    }
    assert lists[..|lists|] == lists;
  }

  lemma FirstSeenNext(before: seq<Id>, ranked: seq<Id>, rank: nat)
    requires rank < |ranked|
    ensures var order := FirstSeen(before + ranked[..rank]);
            FirstSeen(before + ranked[..rank + 1]) == if ranked[rank] in order then order else order + [ranked[rank]]
  {
    var seen := before + ranked[..rank + 1];
    assert seen[..|seen| - 1] == before + ranked[..rank] && seen[|seen| - 1] == ranked[rank];
  }

  lemma UnseenScoreZero(lists: seq<seq<Id>>)
    ensures forall id :: id !in FirstSeen(Flatten(lists)) ==> Score(lists, id, RRF_K) == 0.0
  {
    FirstSeenIsSet(Flatten(lists));
    forall id | id !in Flatten(lists)
      ensures Score(lists, id, RRF_K) == 0.0
    {
      UnseenScoresZero(lists, id);
    }
  }

  lemma {:induction false} UnseenScoresZero(lists: seq<seq<Id>>, id: Id)
    requires id !in Flatten(lists)
    ensures Score(lists, id, RRF_K) == 0.0
    decreases |lists|
  {
    if lists != [] {
      var last := lists[|lists| - 1];
      UnseenScoresZero(lists[..|lists| - 1], id);
      ContributionWithout(last, |last|, id, RRF_K);
    }
  }

  lemma {:induction false} SortSameKeys<T(!new)>(s: seq<T>, key: T -> real, key': T -> real)
    requires forall x :: x in s ==> key(x) == key'(x)
    ensures SortDesc(s, key) == SortDesc(s, key')
    decreases |s|
  {
    if s != [] {
      SortSameKeys(s[1..], key, key');
      InsertSameKeys(s[0], SortDesc(s[1..], key), key, key');
    }
  }

  lemma {:induction false} InsertSameKeys<T(!new)>(x: T, s: seq<T>, key: T -> real, key': T -> real)
    requires key(x) == key'(x) && forall y :: y in s ==> key(y) == key'(y)
    ensures Insert(x, s, key) == Insert(x, s, key')
    decreases |s|
  {
    if s != [] {
      InsertSameKeys(x, s[1..], key, key');
    }
  }

  /** Ranks, fuses and cuts. `bm25` and `dense` are what the two indexes answer for the query. */
  method Retrieve(corpus: seq<Stored>, bm25: seq<real>, dense: seq<Id>, k: nat) returns (chunks: seq<RetrievedChunk>)
    requires |bm25| == |corpus|
    ensures chunks == Results(ById(corpus), Take(FusedOrder(dense, SparseRanked(corpus, bm25)), k))
  {
    var sparse := SparseRanked(corpus, bm25);
    var order, scores := Fuse([dense, sparse]);
    var ranked := SortDesc(order, id => if id in scores then scores[id] else 0.0);
    FlattenTwo(dense, sparse);
    SortSameKeys(order, id => if id in scores then scores[id] else 0.0, id => Score([dense, sparse], id, RRF_K));
    chunks := Results(ById(corpus), Take(ranked, k));
  }

  lemma FlattenTwo(dense: seq<Id>, sparse: seq<Id>)
    ensures Flatten([dense, sparse]) == dense + sparse
  {
    assert [dense, sparse][..1] == [dense];
    assert [dense][..0] == [];
    assert Flatten([dense]) == dense;
  }

  /** The order of any two candidates: by score, equal scores in first-seen order, dense list first. */
  lemma FusedBeforeIff(dense: seq<Id>, sparse: seq<Id>, a: Id, b: Id)
    requires a in dense + sparse && b in dense + sparse && a != b
    ensures Distinct(FusedOrder(dense, sparse))
    ensures forall id :: id in FusedOrder(dense, sparse) <==> id in dense || id in sparse
    ensures var lists := [dense, sparse];
            Before(FusedOrder(dense, sparse), a, b) <==>
            || Score(lists, a, RRF_K) > Score(lists, b, RRF_K)
            || (Score(lists, a, RRF_K) == Score(lists, b, RRF_K) && Before(FirstSeen(dense + sparse), a, b))
  {
    FirstSeenIsSet(dense + sparse);
    SortKeepsDistinct(FirstSeen(dense + sparse), id => Score([dense, sparse], id, RRF_K));
    SortedBeforeIff(FirstSeen(dense + sparse), id => Score([dense, sparse], id, RRF_K), a, b);
  }

  /** The first k of the order: distinct, best first, and nothing left out scores above anything kept. */
  lemma TopIsBest(dense: seq<Id>, sparse: seq<Id>, k: nat)
    ensures var top := Take(FusedOrder(dense, sparse), k);
            && Distinct(top)
            && Descending(top, id => Score([dense, sparse], id, RRF_K))
            && forall kept, omitted :: kept in top && omitted in dense + sparse && omitted !in top ==>
                 Score([dense, sparse], kept, RRF_K) >= Score([dense, sparse], omitted, RRF_K)
  {
    var key := id => Score([dense, sparse], id, RRF_K);
    var order := FusedOrder(dense, sparse);
    FirstSeenIsSet(dense + sparse);
    SortKeepsDistinct(FirstSeen(dense + sparse), key);
    SortDescending(FirstSeen(dense + sparse), key);
    forall kept, omitted | kept in Take(order, k) && omitted in dense + sparse && omitted !in Take(order, k)
      ensures key(kept) >= key(omitted)
    {
      assert omitted in order;
      var j :| 0 <= j < |order| && order[j] == omitted;
      assert forall m :: 0 <= m < |Take(order, k)| ==> order[m] == Take(order, k)[m] && order[m] != omitted;
      assert j >= |Take(order, k)|;
    }
  }

  /** With at most 20 candidates a side, what both sides found precedes what only one found. */
  lemma AgreedComesFirst(dense: seq<Id>, sparse: seq<Id>, both: Id, single: Id)
    requires Candidates(dense, POOL) && Candidates(sparse, POOL) && AgreedAndSingle(dense, sparse, both, single)
    ensures Before(FusedOrder(dense, sparse), both, single)
  {
    AgreementWins(dense, sparse, POOL, RRF_K, both, single);
    FusedBeforeIff(dense, sparse, both, single);
  }

  lemma {:induction false} ByIdFinds(corpus: seq<Stored>, i: nat)
    requires i < |corpus| && Distinct(Ids(corpus))
    ensures corpus[i].id in ById(corpus) && ById(corpus)[corpus[i].id] == corpus[i].chunk
    ensures forall id :: id in ById(corpus) <==> id in Ids(corpus)
    decreases |corpus|
  {
    var last := |corpus| - 1;
    var init := corpus[..last];
    assert Ids(corpus) == Ids(init) + [corpus[last].id];
    if last > 0 {
      assert Distinct(Ids(init)) by {
        assert forall j :: 0 <= j < last ==> Ids(init)[j] == Ids(corpus)[j];
      }
      ByIdFinds(init, if i < last then i else 0);
      if i < last {
        assert Ids(corpus)[i] != Ids(corpus)[last];
      }
    }
  }

  lemma {:induction false} ResultsKeepOrder(byId: map<Id, CV.Chunk>, ids: seq<Id>)
    requires forall id :: id in ids ==> id in byId
    ensures var r := Results(byId, ids);
            && |r| == |ids|
            && forall i :: 0 <= i < |ids| ==>
                 r[i] == RetrievedChunk(ids[i], byId[ids[i]].text, byId[ids[i]].documentId, byId[ids[i]].filename)
    decreases |ids|
  {
    if ids != [] {
      ResultsKeepOrder(byId, ids[1..]);
    }
  }

  /** Distinct ids all drawn from `t` are no more than `t`. */
  lemma {:induction false} DistinctSubsetSize(s: seq<Id>, t: seq<Id>)
    requires Distinct(s) && forall x :: x in s ==> x in t
    ensures |s| <= |t|
    decreases |s|
  {
    if s != [] {
      var last := s[|s| - 1];
      assert last in s && last in t;
      var j :| 0 <= j < |t| && t[j] == last;
      var t' := t[..j] + t[j + 1..];
      forall x | x in s[..|s| - 1]
        ensures x in t'
      {
        assert x in t && x != last;
        var m :| 0 <= m < |t| && t[m] == x;
        assert m != j;
        assert t'[if m < j then m else m - 1] == x;
      }
      DistinctSubsetSize(s[..|s| - 1], t');
    }
  }

  lemma SparseIsCandidates(corpus: seq<Stored>, bm25: seq<real>)
    requires |bm25| == |corpus| && Distinct(Ids(corpus))
    ensures var sparse := SparseRanked(corpus, bm25);
            && Distinct(sparse) && |sparse| == Min(POOL, |corpus|)
            && forall id :: id in sparse ==> id in Ids(corpus)
  {
    var scored := Scored(Ids(corpus), bm25);
    var ranked := SortDesc(scored, (p: Pair<Id, real>) => p.snd);
    forall i, j | 0 <= i < j < |scored|
      ensures scored[i] != scored[j]
    {
      assert Ids(corpus)[i] != Ids(corpus)[j];
    }
    SortKeepsDistinct(scored, (p: Pair<Id, real>) => p.snd);
    forall i | 0 <= i < |ranked|
      ensures exists m :: 0 <= m < |corpus| && scored[m] == ranked[i] && Ids(corpus)[m] == ranked[i].fst
    {
      assert ranked[i] in scored;
    }
    forall i, j | 0 <= i < j < |ranked|
      ensures ranked[i].fst != ranked[j].fst
    {
      var m :| 0 <= m < |corpus| && scored[m] == ranked[i] && Ids(corpus)[m] == ranked[i].fst;
      var n :| 0 <= n < |corpus| && scored[n] == ranked[j] && Ids(corpus)[n] == ranked[j].fst;
      assert m != n;
    }
  }

  /** The chunk at place `i` of the corpus goes before the one at place `j`. */
  predicate Outranks(bm25: seq<real>, i: nat, j: nat)
    requires i < |bm25| && j < |bm25|
  {
    bm25[i] > bm25[j] || (bm25[i] == bm25[j] && i < j)
  }

  /** The whole sparse ranking before it is cut to the pool: `at[i]` is the place of the chunk `i` in it. */
  lemma SparseOrder(corpus: seq<Stored>, bm25: seq<real>) returns (ranked: seq<Id>, at: seq<nat>)
    requires |bm25| == |corpus| && Distinct(Ids(corpus))
    ensures |at| == |corpus| == |ranked| && Distinct(ranked)
            && SparseRanked(corpus, bm25) == ranked[..Min(20, |corpus|)]
    ensures forall i :: 0 <= i < |corpus| ==> at[i] < |ranked| && ranked[at[i]] == corpus[i].id
    ensures forall i, j :: 0 <= i < |corpus| && 0 <= j < |corpus| && i != j ==>
              (at[i] < at[j] <==> Outranks(bm25, i, j))
  {
    var key := (p: Pair<Id, real>) => p.snd;
    var scored := Scored(Ids(corpus), bm25);
    var sorted := SortDesc(scored, key);
    ranked := Firsts(sorted);
    ScoredDistinct(corpus, bm25);
    SortKeepsDistinct(scored, key);
    at := PlacesOf(scored, sorted);
    forall i, j | 0 <= i < |corpus| && 0 <= j < |corpus| && i != j
      ensures at[i] < at[j] <==> Outranks(bm25, i, j)
    {
      SortedBeforeIff(scored, key, scored[i], scored[j]);
      BeforeIsOrder(scored, i, j);
      BeforeIsOrder(sorted, at[i], at[j]);
    }
    FirstsDistinct(corpus, scored, sorted);
  }

  lemma ScoredDistinct(corpus: seq<Stored>, bm25: seq<real>)
    requires |bm25| == |corpus| && Distinct(Ids(corpus))
    ensures Distinct(Scored(Ids(corpus), bm25))
  {
    var ids, scored := Ids(corpus), Scored(Ids(corpus), bm25);
    forall i, j | 0 <= i < j < |scored|
      ensures scored[i] != scored[j]
    {
      assert ids[i] != ids[j];
    }
  }

  /** Where the elements of `s` stand in `t`, which has the same ones. */
  lemma PlacesOf<T(!new)>(s: seq<T>, t: seq<T>) returns (at: seq<nat>)
    requires forall x :: x in s ==> x in t
    ensures |at| == |s| && forall i :: 0 <= i < |s| ==> at[i] < |t| && t[at[i]] == s[i]
  {
    at := [];
    for i := 0 to |s|
      invariant |at| == i && forall k :: 0 <= k < i ==> at[k] < |t| && t[at[k]] == s[k]
    {
      assert s[i] in t;
      var k: nat :| k < |t| && t[k] == s[i];
      at := at + [k];
    }
  }

  lemma FirstsDistinct(corpus: seq<Stored>, scored: seq<Pair<Id, real>>, sorted: seq<Pair<Id, real>>)
    requires Distinct(Ids(corpus)) && |scored| == |corpus| && Distinct(sorted)
    requires forall x :: x in sorted ==> x in scored
    requires forall i :: 0 <= i < |scored| ==> scored[i].fst == Ids(corpus)[i]
    ensures Distinct(Firsts(sorted))
  {
    var at := PlacesOf(sorted, scored);
    forall i, j | 0 <= i < j < |sorted|
      ensures sorted[i].fst != sorted[j].fst
    {
      assert scored[at[i]] == sorted[i] && scored[at[j]] == sorted[j];
      assert at[i] != at[j];
      var a, b := if at[i] < at[j] then at[i] else at[j], if at[i] < at[j] then at[j] else at[i];
      assert Ids(corpus)[a] != Ids(corpus)[b];
    }
  }

  lemma InPrefix(ranked: seq<Id>, n: nat, k: nat)
    requires n <= |ranked| && k < |ranked|
    ensures k < n ==> ranked[k] in ranked[..n]
  {
    if k < n {
      assert ranked[..n][k] == ranked[k];
    }
  }

  /** The sparse list in terms of the BM25 scores: two kept chunks stand in the order of their scores, equal scores in
      corpus order, and no omitted chunk should have come before a kept one. */
  lemma SparseBeforeIff(corpus: seq<Stored>, bm25: seq<real>, i: nat, j: nat)
    requires |bm25| == |corpus| && Distinct(Ids(corpus)) && i < |corpus| && j < |corpus| && i != j
    ensures var sparse := SparseRanked(corpus, bm25);
            && (forall x, y ::
                  0 <= x < |sparse| && 0 <= y < |sparse| && sparse[x] == corpus[i].id && sparse[y] == corpus[j].id ==>
                  (x < y <==> bm25[i] > bm25[j] || (bm25[i] == bm25[j] && i < j)))
            && (corpus[i].id in sparse && corpus[j].id !in sparse ==>
                  bm25[i] > bm25[j] || (bm25[i] == bm25[j] && i < j))
  {
    var ranked, at := SparseOrder(corpus, bm25);
    var sparse := SparseRanked(corpus, bm25);
    forall x | 0 <= x < |sparse| && (sparse[x] == corpus[i].id || sparse[x] == corpus[j].id)
      ensures x == if sparse[x] == corpus[i].id then at[i] else at[j]
    {
      assert ranked[x] == sparse[x];
    }
    if corpus[i].id in sparse && corpus[j].id !in sparse {
      var x :| 0 <= x < |sparse| && sparse[x] == corpus[i].id;
      InPrefix(ranked, |sparse|, at[j]);
    }
  }

  /** The score a candidate gets: from each list that has it, 1 / (rank + 60), ranks counted from 0. */
  lemma FusedScoreIs(dense: seq<Id>, sparse: seq<Id>, id: Id)
    requires Distinct(dense) && Distinct(sparse)
    ensures exists a: real, b: real ::
              Score([dense, sparse], id, RRF_K) == a + b && GivenBy(dense, id, a) && GivenBy(sparse, id, b)
  {
    ScoreSplits(dense, sparse, id, RRF_K);
    ListGives(dense, id);
    ListGives(sparse, id);
  }

  /** What a list adds to the score of a candidate. */
  ghost predicate GivenBy(list: seq<Id>, id: Id, given: real) {
    if id !in list then given == 0.0
    else exists rank: nat :: rank < |list| && list[rank] == id && given == 1.0 / (rank + 60) as real
  }

  lemma ListGives(list: seq<Id>, id: Id)
    requires Distinct(list)
    ensures GivenBy(list, id, Contribution(list, |list|, id, RRF_K))
  {
    if id in list {
      var rank: nat :| rank < |list| && list[rank] == id;
      ContributionAt(list, |list|, rank, RRF_K);
      assert 1.0 / (rank + 60) as real == Worth(rank, RRF_K);
    } else {
      ContributionWithout(list, |list|, id, RRF_K);
    }
  }

  lemma TopCount(ids: seq<Id>, dense: seq<Id>, sparse: seq<Id>, k: nat)
    requires Distinct(ids) && Distinct(dense) && Distinct(sparse) && |sparse| == Min(POOL, |ids|) && k <= POOL
    requires forall id :: id in dense || id in sparse ==> id in ids
    ensures |Take(FusedOrder(dense, sparse), k)| == Min(k, |ids|)
    ensures forall id :: id in Take(FusedOrder(dense, sparse), k) ==> id in ids
  {
    FirstSeenIsSet(dense + sparse);
    var order := FusedOrder(dense, sparse);
    SortKeepsDistinct(FirstSeen(dense + sparse), id => Score([dense, sparse], id, RRF_K));
    assert forall id :: id in order <==> id in dense || id in sparse;
    DistinctSubsetSize(sparse, order);
    DistinctSubsetSize(order, ids);
  }

  /** `r` is the chunk `stored`, id, text and source alike. */
  predicate IsResultOf(r: RetrievedChunk, stored: Stored) {
    r == RetrievedChunk(stored.id, stored.chunk.text, stored.chunk.documentId, stored.chunk.filename)
  }

  lemma ResultsAreChunks(corpus: seq<Stored>, top: seq<Id>)
    requires Distinct(Ids(corpus)) && forall id :: id in top ==> id in Ids(corpus)
    ensures var chunks := Results(ById(corpus), top);
            && |chunks| == |top|
            && forall i :: 0 <= i < |top| ==>
                 chunks[i].id == top[i] && exists m :: 0 <= m < |corpus| && IsResultOf(chunks[i], corpus[m])
  {
    forall id | id in top
      ensures exists m ::
                0 <= m < |corpus| && corpus[m].id == id && id in ById(corpus) && ById(corpus)[id] == corpus[m].chunk
    {
      var m :| 0 <= m < |corpus| && Ids(corpus)[m] == id;
      ByIdFinds(corpus, m);
    }
    ResultsKeepOrder(ById(corpus), top);
    var chunks := Results(ById(corpus), top);
    forall i | 0 <= i < |top|
      ensures exists m :: 0 <= m < |corpus| && IsResultOf(chunks[i], corpus[m])
    {
      var m :| 0 <= m < |corpus| && corpus[m].id == top[i] && ById(corpus)[top[i]] == corpus[m].chunk;
      assert IsResultOf(chunks[i], corpus[m]);
    }
  }

  /** For k up to the pool size, exactly min(k, corpus size) chunks come back: the best candidates in
      order, each with its own text. */
  lemma RetrieveReturnsTop(corpus: seq<Stored>, bm25: seq<real>, dense: seq<Id>, k: nat)
    requires |bm25| == |corpus| && Distinct(Ids(corpus)) && k <= POOL
    requires Distinct(dense) && forall id :: id in dense ==> id in Ids(corpus)
    ensures var top := Take(FusedOrder(dense, SparseRanked(corpus, bm25)), k);
            var chunks := Results(ById(corpus), top);
            && |chunks| == Min(k, |corpus|) == |top|
            && forall i :: 0 <= i < |top| ==>
                 chunks[i].id == top[i] && exists m :: 0 <= m < |corpus| && IsResultOf(chunks[i], corpus[m])
  {
    SparseIsCandidates(corpus, bm25);
    TopCount(Ids(corpus), dense, SparseRanked(corpus, bm25), k);
    ResultsAreChunks(corpus, Take(FusedOrder(dense, SparseRanked(corpus, bm25)), k));
  }

  datatype Cached = Cached(version: nat, corpus: seq<Stored>)

  lemma ByIdEmptyIff(corpus: seq<Stored>)
    ensures ById(corpus) == map[] <==> corpus == []
  {
    if corpus != [] {
      assert corpus[|corpus| - 1].id in ById(corpus);
    }
  }

  /** One reader from start to answer with nothing else running. */
  function ReadAlone(s: CV.State, process: nat): Pair<CV.State, Option<CV.Corpus>> {
    var read := CV.StepOfReader(s, CV.Starting(process));
    var looked := CV.StepOfReader(read.fst, read.snd);
    if looked.snd.Answered? then Pair(looked.fst, looked.snd.answer)
    else
      var fetched := CV.StepOfReader(looked.fst, looked.snd);
      var stored := CV.StepOfReader(fetched.fst, fetched.snd);
      Pair(stored.fst, if stored.snd.Answered? then stored.snd.answer else None)
  }

  /** The per-process corpus cache, keyed by subject. */
  class CorpusCache {
    var entries: map<string, Cached>

    constructor ()
      ensures Valid() && entries == map[]
    {
      entries := map[];
    }

    /** Empty corpora are never cached. */
    ghost predicate Valid()
      reads this
    {
      forall subject :: subject in entries ==> entries[subject].corpus != []
    }

    /** `s`, a state of the subject's store and its caches, has for `process` what this cache has for the subject. */
    ghost predicate Shows(subject: string, s: CV.State, process: nat)
      reads this
    {
      && (process in s.caches <==> subject in entries)
      && (subject in entries ==> s.caches[process] == CV.Entry(entries[subject].version, ById(entries[subject].corpus)))
    }

    /** Between reading the version and asking the store: the reader's hit-or-fetch step. */
    method LookUp(subject: string, version: nat, ghost s: CV.State, ghost process: nat, ghost since: nat,
                  ghost quiet: bool)
      returns (corpus: Option<seq<Stored>>)
      requires Valid() && Shows(subject, s, process)
      ensures CV.StepOfReader(s, CV.VersionRead(process, version, since, quiet)) ==
              Pair(s, if corpus.Some? then CV.Answered(Some(ById(corpus.value))) else CV.Fetching(process, version))
      ensures corpus.Some? ==> corpus.value != []
    {
      if subject in entries && entries[subject].version == version {
        return Some(entries[subject].corpus);
      }
      corpus := None;
    }

    /** After the store has answered: the reader's last step. Other subjects' entries stay as they are. */
    method Keep(subject: string, version: nat, stored: seq<Stored>, ghost s: CV.State, ghost process: nat)
      returns (corpus: Option<seq<Stored>>)
      requires Valid() && Shows(subject, s, process)
      modifies this
      ensures Valid() && corpus == (if stored == [] then None else Some(stored))
      ensures var Pair(s', r) := CV.StepOfReader(s, CV.Fetched(process, version, ById(stored)));
              Shows(subject, s', process) && r == CV.Answered(if stored == [] then None else Some(ById(stored)))
      ensures entries - {subject} == old(entries) - {subject}
    {
      ByIdEmptyIff(stored);
      if stored == [] {
        entries := entries - {subject};
        return None;
      }
      entries := entries[subject := Cached(version, stored)];
      corpus := Some(stored);
    }

    /** The whole function, with nothing else running: `version` is the subject's content version, `stored` what its
        store holds. It answers and leaves the cache as a reader run alone does. */
    method GetCorpus(subject: string, version: nat, stored: seq<Stored>, ghost s: CV.State, ghost process: nat)
      returns (corpus: Option<seq<Stored>>)
      requires Valid() && Shows(subject, s, process) && version == CV.Version(s.raw) && ById(stored) == s.corpus
      modifies this
      ensures Valid() && Shows(subject, ReadAlone(s, process).fst, process)
      ensures match ReadAlone(s, process).snd
              case None => corpus.None?
              case Some(chunks) => corpus.Some? && corpus.value != [] && ById(corpus.value) == chunks
      ensures entries - {subject} == old(entries) - {subject}
    {
      ghost var r := CV.StepOfReader(s, CV.Starting(process)).snd;
      corpus := LookUp(subject, version, s, process, r.since, r.quiet);
      if corpus.None? {
        corpus := Keep(subject, version, stored, s, process);
      }
    }
  }
}
