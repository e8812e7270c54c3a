/**
 The hybrid vector search profile: approximate candidates, reranked by exact score, compared with exact top-k search.
 Scores are real numbers.
 */
module VectorThresholds {
  import opened Results
  import opened Sequences
  import opened Sorting

  /** A memory and its exact similarity to the query. */
  datatype Scored = Scored(id: string, score: real)

  /** A candidate with its exact score and its rank in the approximate search. */
  datatype Ranked = Ranked(id: string, rank: nat, score: real)

  /** Higher scores first. */
  predicate ByScore(a: Scored, b: Scored) {
    a.score >= b.score
  }

  /** Higher scores first, and the better approximate rank among equal scores. */
  predicate ByScoreThenRank(a: Ranked, b: Ranked) {
    a.score > b.score || (a.score == b.score && a.rank <= b.rank)
  }

  function Take<T>(xs: seq<T>, k: nat): seq<T> {
    if k <= |xs| then xs[..k] else xs
  }

  function ScoredIds(xs: seq<Scored>): (ids: seq<string>)
    ensures |ids| == |xs| && forall i | 0 <= i < |xs| :: ids[i] == xs[i].id
  {
    seq(|xs|, i requires 0 <= i < |xs| => xs[i].id)
  }

  function RankedIds(xs: seq<Ranked>): (ids: seq<string>)
    ensures |ids| == |xs| && forall i | 0 <= i < |xs| :: ids[i] == xs[i].id
  {
    seq(|xs|, i requires 0 <= i < |xs| => xs[i].id)
  }

  function Members(ids: seq<string>): set<string> {
    set id | id in ids
  }

  /** Exact search: the best `limit` of the whole corpus, at least one. */
  function ExactIds(corpus: seq<Scored>, limit: nat): seq<string> {
    Take(ScoredIds(Sort(ByScore, corpus)), if limit > 1 then limit else 1)
  }

  /** The candidates whose vector is loaded, with their exact scores. */
  function Rescored(scores: map<string, real>, candidates: seq<string>): seq<Ranked> {
    if candidates == [] then []
    else
      var n := |candidates|;
      Rescored(scores, candidates[..n - 1])
      + if candidates[n - 1] in scores then [Ranked(candidates[n - 1], n, scores[candidates[n - 1]])] else []
  }

  function RerankedIds(scores: map<string, real>, candidates: seq<string>): seq<string> {
    RankedIds(Sort(ByScoreThenRank, Rescored(scores, candidates)))
  }

  /** Hybrid search: the best `limit` of the reranked candidates. */
  function HybridIds(scores: map<string, real>, candidates: seq<string>, limit: nat): seq<string> {
    Take(RerankedIds(scores, candidates), limit)
  }

  function Ratio(numerator: nat, denominator: nat): real {
    if denominator == 0 then 0.0 else numerator as real / denominator as real
  }

  function Clamp(n: nat, low: nat, high: nat): nat {
    if n < low then low else if n > high then high else n
  }

  /** `queryVector` holds nothing in place of an entry that is no number. */
  datatype Options = Options(
    model: Option<string>,
    queryVector: Option<seq<Option<real>>>,
    dimensions: Option<nat>,
    topK: Option<nat>,
    poolSize: Option<nat>,
    minRecall: Option<real>,
    minHitRate: Option<real>,
    requireTop1: Option<bool>,
    latencyPassed: bool)

  datatype Profile = Profile(
    recall: real,
    hitRate: real,
    top1Preserved: bool,
    exactIds: seq<string>,
    hybridIds: seq<string>,
    candidateIds: seq<string>,
    passed: bool)

  datatype ProfileError =
    | ModelRequired
    | QueryRequired
    | QueryEmpty
    | QueryNotNumeric
    | DimensionMismatch
    | StoreFailed(reason: string)
    | TooFewEmbeddings
    | QuantizerFailed(reason: string)

  /** What is wrong with the parameters, in the order in which it is found out. */
  function OptionsFault(options: Options): Option<ProfileError> {
    if options.model.None? then Some(ModelRequired)
    else if options.queryVector.None? then Some(QueryRequired)
    else if options.queryVector.value == [] then Some(QueryEmpty)
    else if None in options.queryVector.value then Some(QueryNotNumeric)
    else if options.dimensions.Some? && options.dimensions.value != |options.queryVector.value| then Some(DimensionMismatch)
    else None
  }

  function TopK(options: Options): nat {
    Clamp(if options.topK.Some? then options.topK.value else 10, 1, 100)
  }

  function PoolSize(options: Options): nat {
    Clamp(if options.poolSize.Some? then options.poolSize.value else 50, TopK(options), 1000)
  }

  /** A wanted minimum, 0.95 when nothing is said. */
  function Limits(minimum: Option<real>): real {
    var wanted := if minimum.Some? then minimum.value else 0.95;
    if wanted < 0.0 then 0.0 else if wanted > 1.0 then 1.0 else wanted
  }

  /** The best memory has to be preserved unless that is switched off. */
  function WantsTop1(options: Options): bool {
    options.requireTop1 == None || options.requireTop1.value
  }

  /** What keeps a profile from being made, in the order in which it is found out. */
  function ProfileFault(corpus: Result<seq<Scored>, string>, loaded: Result<map<string, real>, string>,
                        search: nat -> Result<seq<string>, string>, options: Options): Option<ProfileError>
  {
    if OptionsFault(options).Some? then OptionsFault(options)
    else if corpus.Err? then Some(StoreFailed(corpus.error))
    else if loaded.Err? then Some(StoreFailed(loaded.error))
    else if |loaded.value| < 2 then Some(TooFewEmbeddings)
    else
      match search(PoolSize(options))
      case Err(reason) => Some(QuantizerFailed(reason))
      case Ok(_) => None
  }

  /**
   `corpus` holds the exact scores of all stored vectors, `loaded` those of the vectors that could be loaded, and `search`
   is the approximate search over the loaded ones, by pool size; each of them may fail.
   */
  method ProfileThresholds(corpus: Result<seq<Scored>, string>, loaded: Result<map<string, real>, string>,
                           search: nat -> Result<seq<string>, string>, options: Options)
    returns (r: Result<Profile, ProfileError>)
    ensures r.Err? <==> ProfileFault(corpus, loaded, search, options).Some?
    ensures r.Err? ==> r.error == ProfileFault(corpus, loaded, search, options).value
    ensures r.Ok? ==>
      var p, k := r.value, TopK(options);
      && p.exactIds == ExactIds(corpus.value, k)
      && p.candidateIds == search(PoolSize(options)).value
      && p.hybridIds == HybridIds(loaded.value, p.candidateIds, k)
      && p.recall == Ratio(|Members(p.exactIds) * Members(p.hybridIds)|, |p.exactIds|)
      && p.hitRate == Ratio(|Members(p.exactIds) * Members(p.candidateIds)|, |p.exactIds|)
      && (p.top1Preserved <==> p.exactIds != [] && p.hybridIds != [] && p.exactIds[0] == p.hybridIds[0])
      && (p.passed <==> p.recall >= Limits(options.minRecall) && p.hitRate >= Limits(options.minHitRate)
                        && (WantsTop1(options) ==> p.top1Preserved) && options.latencyPassed)
    ensures r.Ok? && Consistent(corpus.value, loaded.value, r.value.candidateIds) ==>
      var p, k := r.value, TopK(options);
      && p.recall <= p.hitRate
      && (RoomForTop(corpus.value, loaded.value, k) ==> p.recall == p.hitRate)
      && (RoomForTop(corpus.value, loaded.value, 1) ==>
            (p.top1Preserved <==> p.exactIds != [] && p.exactIds[0] in p.candidateIds))
  {
    if OptionsFault(options).Some? {
      return Err(OptionsFault(options).value);
    }
    var k := TopK(options);
    if corpus.Err? {
      return Err(StoreFailed(corpus.error));
    }
    var exactIds := ExactIds(corpus.value, k);
    if loaded.Err? {
      return Err(StoreFailed(loaded.error));
    }
    var scores := loaded.value;
    if |scores| < 2 {
      return Err(TooFewEmbeddings);
    }
    var found := search(PoolSize(options));
    if found.Err? {
      return Err(QuantizerFailed(found.error));
    }
    var candidates := found.value;
    var reranked: seq<Ranked> := [];
    for idx := 0 to |candidates|
      invariant reranked == Rescored(scores, candidates[..idx])
    {
      assert candidates[..idx + 1][..idx] == candidates[..idx];
      if candidates[idx] in scores {
        reranked := reranked + [Ranked(candidates[idx], idx + 1, scores[candidates[idx]])];
      }
    }
    TakeAll(candidates);
    reranked := Sort(ByScoreThenRank, reranked);
    var hybridIds := Take(RankedIds(reranked), k);
    var exactSet, hybridSet, candidateSet := Members(exactIds), Members(hybridIds), Members(candidates);
    var recall := Ratio(|exactSet * hybridSet|, |exactIds|);
    var hitRate := Ratio(|exactSet * candidateSet|, |exactIds|);
    var top1Preserved := exactIds != [] && hybridIds != [] && exactIds[0] == hybridIds[0];
    var passed := recall >= Limits(options.minRecall) && hitRate >= Limits(options.minHitRate)
                  && (!WantsTop1(options) || top1Preserved) && options.latencyPassed;
    ProfileMeaning(corpus.value, scores, candidates, k);
    return Ok(Profile(recall, hitRate, top1Preserved, exactIds, hybridIds, candidates, passed));
  }

  // ---------- hypotheses ----------

  ghost predicate DistinctIds(xs: seq<Scored>) {
    forall i, j | 0 <= i < j < |xs| :: xs[i].id != xs[j].id
  }

  /** The corpus holds each id once, and the loaded vectors are vectors of the corpus. */
  ghost predicate Loads(corpus: seq<Scored>, scores: map<string, real>) {
    DistinctIds(corpus) && forall id | id in scores :: Scored(id, scores[id]) in corpus
  }

  /** The approximate search lists loaded ids without repetition. */
  ghost predicate Consistent(corpus: seq<Scored>, scores: map<string, real>, candidates: seq<string>) {
    Loads(corpus, scores) && Distinct(candidates) && forall id | id in candidates :: id in scores
  }

  /** No two memories are exactly as similar to the query. */
  ghost predicate DistinctScores(corpus: seq<Scored>) {
    forall i, j | 0 <= i < j < |corpus| :: corpus[i].score != corpus[j].score
  }

  // ---------- reranking keeps the candidates ----------

  lemma {:induction false} RescoredMembers(scores: map<string, real>, candidates: seq<string>)
    ensures forall x | x in Rescored(scores, candidates) ::
              x.id in candidates && x.id in scores && x.score == scores[x.id] && 1 <= x.rank <= |candidates|
              && candidates[x.rank - 1] == x.id
    ensures forall i | 0 <= i < |candidates| && candidates[i] in scores ::
              Ranked(candidates[i], i + 1, scores[candidates[i]]) in Rescored(scores, candidates)
  {
    if candidates != [] {
      var n := |candidates|;
      RescoredMembers(scores, candidates[..n - 1]);
      assert candidates == candidates[..n - 1] + [candidates[n - 1]];
    }
  }

  lemma RerankedMembers(scores: map<string, real>, candidates: seq<string>, id: string)
    requires forall id | id in candidates :: id in scores
    ensures id in RerankedIds(scores, candidates) <==> id in candidates
  {
    var rescored := Rescored(scores, candidates);
    var sorted := Sort(ByScoreThenRank, rescored);
    RescoredMembers(scores, candidates);
    if id in candidates {
      var i :| 0 <= i < |candidates| && candidates[i] == id;
      var x := Ranked(id, i + 1, scores[id]);
      SortMember(ByScoreThenRank, rescored, x);
      var j :| 0 <= j < |sorted| && sorted[j] == x;
      assert RankedIds(sorted)[j] == id;
    }
    if id in RankedIds(sorted) {
      var j :| 0 <= j < |sorted| && RankedIds(sorted)[j] == id;
      SortMember(ByScoreThenRank, rescored, sorted[j]);
    }
  }

  /**
   Whatever the scores, ties included: what exact and hybrid search share the candidate pool contains, so recall never
   exceeds the pool hit rate.
   */
  lemma {:induction false} RecallAtMostHitRate(corpus: seq<Scored>, scores: map<string, real>, candidates: seq<string>, k: nat)
    requires Consistent(corpus, scores, candidates)
    ensures var exact, hybrid := ExactIds(corpus, k), HybridIds(scores, candidates, k);
            && Members(exact) * Members(hybrid) <= Members(exact) * Members(candidates)
            && Ratio(|Members(exact) * Members(hybrid)|, |exact|) <= Ratio(|Members(exact) * Members(candidates)|, |exact|)
  {
    var exact, hybrid := ExactIds(corpus, k), HybridIds(scores, candidates, k);
    forall id | id in hybrid ensures id in candidates {
      RerankedMembers(scores, candidates, id);
    }
    SubsetSize(Members(exact) * Members(hybrid), Members(exact) * Members(candidates));
    RatioMonotone(|Members(exact) * Members(hybrid)|, |Members(exact) * Members(candidates)|, |exact|);
  }

  lemma {:induction false} SubsetSize<T>(a: set<T>, b: set<T>)
    requires a <= b
    ensures |a| <= |b|
  {
    if a != {} {
      var x :| x in a;
      SubsetSize(a - {x}, b - {x});
    }
  }

  lemma RatioMonotone(a: nat, b: nat, d: nat)
    requires a <= b
    ensures Ratio(a, d) <= Ratio(b, d)
  {
    if d > 0 {
      assert (b as real - a as real) / d as real >= 0.0;
    }
  }

  ghost predicate Descending(xs: seq<Scored>) {
    forall i, j | 0 <= i < j < |xs| :: xs[i].score > xs[j].score
  }

  lemma {:induction false} DistinctSize(ids: seq<string>)
    requires Distinct(ids)
    ensures |Members(ids)| == |ids|
  {
    if ids != [] {
      DistinctSize(ids[1..]);
      assert Members(ids) == {ids[0]} + Members(ids[1..]);
    }
  }

  // ---------- the two sorted lists ----------

  function AsScored(ys: seq<Ranked>): (xs: seq<Scored>)
    ensures |xs| == |ys| && forall i | 0 <= i < |ys| :: xs[i] == Scored(ys[i].id, ys[i].score)
  {
    seq(|ys|, i requires 0 <= i < |ys| => Scored(ys[i].id, ys[i].score))
  }

  lemma ExactDescends(corpus: seq<Scored>)
    requires DistinctScores(corpus) && DistinctIds(corpus)
    ensures var xs := Sort(ByScore, corpus); Descending(xs) && DistinctIds(xs)
  {
    var xs := Sort(ByScore, corpus);
    SortSorts(ByScore, corpus);
    SortPermutes(ByScore, corpus);
    DistinctPreserved(corpus, xs);
    forall i, j | 0 <= i < j < |xs| ensures xs[i].score > xs[j].score && xs[i].id != xs[j].id {
      SortMember(ByScore, corpus, xs[i]);
      SortMember(ByScore, corpus, xs[j]);
      assert xs[i] != xs[j] && ByScore(xs[i], xs[j]);
    }
  }

  lemma {:induction false} RescoredDistinct(scores: map<string, real>, candidates: seq<string>)
    ensures Distinct(Rescored(scores, candidates))
  {
    if candidates != [] {
      var n := |candidates|;
      RescoredDistinct(scores, candidates[..n - 1]);
      RescoredMembers(scores, candidates[..n - 1]);
    }
  }

  /** The reranked list is sorted, lists each candidate of the corpus once, and knows its place among the candidates. */
  lemma RerankedFacts(corpus: seq<Scored>, scores: map<string, real>, candidates: seq<string>)
    requires Consistent(corpus, scores, candidates)
    ensures var sorted := Sort(ByScoreThenRank, Rescored(scores, candidates));
            && Sorted(ByScoreThenRank, sorted)
            && (forall i, j | 0 <= i < j < |sorted| :: sorted[i].id != sorted[j].id)
            && (forall i | 0 <= i < |sorted| ::
                  && Scored(sorted[i].id, sorted[i].score) in corpus && sorted[i].id in scores
                  && 1 <= sorted[i].rank <= |candidates| && candidates[sorted[i].rank - 1] == sorted[i].id)
  {
    var rescored := Rescored(scores, candidates);
    var sorted := Sort(ByScoreThenRank, rescored);
    RescoredMembers(scores, candidates);
    RescoredDistinct(scores, candidates);
    SortSorts(ByScoreThenRank, rescored);
    SortPermutes(ByScoreThenRank, rescored);
    DistinctPreserved(rescored, sorted);
    forall i | 0 <= i < |sorted| ensures sorted[i] in rescored {
      SortMember(ByScoreThenRank, rescored, sorted[i]);
    }
    forall i, j | 0 <= i < j < |sorted| ensures sorted[i].id != sorted[j].id {
      SameIdSameEntry(scores, candidates, sorted[i], sorted[j]);
    }
  }

  lemma SameIdSameEntry(scores: map<string, real>, candidates: seq<string>, x: Ranked, y: Ranked)
    requires Distinct(candidates) && x in Rescored(scores, candidates) && y in Rescored(scores, candidates)
    ensures x.id == y.id ==> x == y
  {
    RescoredMembers(scores, candidates);
  }

  /** Where a candidate of the corpus stands in the reranked list. */
  lemma RerankedPlace(corpus: seq<Scored>, scores: map<string, real>, candidates: seq<string>, x: Scored) returns (q: nat)
    requires Consistent(corpus, scores, candidates) && x in corpus && x.id in candidates
    ensures q < |RerankedIds(scores, candidates)|
    ensures AsScored(Sort(ByScoreThenRank, Rescored(scores, candidates)))[q] == x
  {
    var rescored := Rescored(scores, candidates);
    var sorted := Sort(ByScoreThenRank, rescored);
    RescoredMembers(scores, candidates);
    var i :| 0 <= i < |candidates| && candidates[i] == x.id;
    assert Scored(x.id, scores[x.id]) == x;
    var entry := Ranked(x.id, i + 1, scores[x.id]);
    SortMember(ByScoreThenRank, rescored, entry);
    q :| 0 <= q < |sorted| && sorted[q] == entry;
  }

  // ---------- how many can stand before a memory ----------

  /** The loaded memories with at least this score. */
  function AtLeast(corpus: seq<Scored>, scores: map<string, real>, score: real): set<string> {
    set x | x in corpus && x.id in scores && x.score >= score :: x.id
  }

  /** How many loaded memories score at least as much as the one that exact search places at `p`, itself included. */
  function Crowd(corpus: seq<Scored>, scores: map<string, real>, p: nat): nat
    requires p < |corpus|
  {
    |AtLeast(corpus, scores, Sort(ByScore, corpus)[p].score)|
  }

  lemma ExactSorted(corpus: seq<Scored>)
    requires DistinctIds(corpus)
    ensures var xs := Sort(ByScore, corpus);
            && DistinctIds(xs) && (forall x :: x in xs <==> x in corpus)
            && (forall i, j | 0 <= i <= j < |xs| :: xs[i].score >= xs[j].score)
  {
    var xs := Sort(ByScore, corpus);
    SortSorts(ByScore, corpus);
    SortPermutes(ByScore, corpus);
    DistinctPreserved(corpus, xs);
    forall x ensures x in xs <==> x in corpus {
      SortMember(ByScore, corpus, x);
    }
    forall i, j | 0 <= i < j < |xs| ensures xs[i].score >= xs[j].score && xs[i].id != xs[j].id {
      assert ByScore(xs[i], xs[j]) && xs[i] != xs[j] && xs[i] in xs && xs[j] in xs;
    }
  }

  /** The ids of the first `m` of exact search. */
  function FirstIds(corpus: seq<Scored>, m: nat): set<string>
    requires m <= |corpus|
  {
    Members(ScoredIds(Sort(ByScore, corpus))[..m])
  }

  lemma FirstIdsCount(corpus: seq<Scored>, m: nat)
    requires DistinctIds(corpus) && m <= |corpus|
    ensures |FirstIds(corpus, m)| == m
  {
    ExactSorted(corpus);
    DistinctSize(ScoredIds(Sort(ByScore, corpus))[..m]);
  }

  lemma CrowdInFirst(corpus: seq<Scored>, scores: map<string, real>, p: nat, m: nat)
    requires DistinctIds(corpus) && p < m <= |corpus|
    requires var xs := Sort(ByScore, corpus); m == |xs| || xs[m].score < xs[p].score
    ensures AtLeast(corpus, scores, Sort(ByScore, corpus)[p].score) <= FirstIds(corpus, m)
  {
    var xs := Sort(ByScore, corpus);
    ExactSorted(corpus);
    forall x | x in corpus && x.score >= xs[p].score ensures x.id in FirstIds(corpus, m) {
      var j :| 0 <= j < |xs| && xs[j] == x;
      assert j < m && ScoredIds(xs)[..m][j] == x.id;
    }
  }

  /** Where the score falls behind place `m - 1`, no more than `m` score as much as a memory before it. */
  lemma CrowdAtMost(corpus: seq<Scored>, scores: map<string, real>, p: nat, m: nat)
    requires DistinctIds(corpus) && p < m <= |corpus|
    requires var xs := Sort(ByScore, corpus); m == |xs| || xs[m].score < xs[p].score
    ensures Crowd(corpus, scores, p) <= m
  {
    CrowdInFirst(corpus, scores, p, m);
    FirstIdsCount(corpus, m);
    SubsetSize(AtLeast(corpus, scores, Sort(ByScore, corpus)[p].score), FirstIds(corpus, m));
  }

  ghost predicate AllLoaded(corpus: seq<Scored>, scores: map<string, real>) {
    forall x | x in corpus :: x.id in scores
  }

  lemma FirstInCrowd(corpus: seq<Scored>, scores: map<string, real>, p: nat, m: nat)
    requires DistinctIds(corpus) && p < m <= |corpus| && AllLoaded(corpus, scores)
    requires Sort(ByScore, corpus)[m - 1].score >= Sort(ByScore, corpus)[p].score
    ensures FirstIds(corpus, m) <= AtLeast(corpus, scores, Sort(ByScore, corpus)[p].score)
  {
    var xs := Sort(ByScore, corpus);
    ExactSorted(corpus);
    forall j | 0 <= j < m ensures xs[j].id in AtLeast(corpus, scores, xs[p].score) {
      assert xs[j] in xs;
    }
  }

  /** Where all are loaded and the score does not fall before place `m`, at least `m` score as much. */
  lemma CrowdAtLeast(corpus: seq<Scored>, scores: map<string, real>, p: nat, m: nat)
    requires DistinctIds(corpus) && p < m <= |corpus| && AllLoaded(corpus, scores)
    requires Sort(ByScore, corpus)[m - 1].score >= Sort(ByScore, corpus)[p].score
    ensures Crowd(corpus, scores, p) >= m
  {
    FirstInCrowd(corpus, scores, p, m);
    FirstIdsCount(corpus, m);
    SubsetSize(FirstIds(corpus, m), AtLeast(corpus, scores, Sort(ByScore, corpus)[p].score));
  }

  /** Whatever the candidates, fewer than its crowd stand before a memory in the reranked list. */
  lemma PlaceWithinCrowd(corpus: seq<Scored>, scores: map<string, real>, candidates: seq<string>, p: nat) returns (q: nat)
    requires Consistent(corpus, scores, candidates)
    requires p < |corpus| && Sort(ByScore, corpus)[p].id in candidates
    ensures q < Crowd(corpus, scores, p) && q < |RerankedIds(scores, candidates)|
    ensures RerankedIds(scores, candidates)[q] == Sort(ByScore, corpus)[p].id
  {
    var x := Sort(ByScore, corpus)[p];
    var sorted := Sort(ByScoreThenRank, Rescored(scores, candidates));
    SortMember(ByScore, corpus, x);
    q := RerankedPlace(corpus, scores, candidates, x);
    RerankedFacts(corpus, scores, candidates);
    var ids := RankedIds(sorted)[..q + 1];
    forall id | id in Members(ids) ensures id in AtLeast(corpus, scores, x.score) {
      var j :| 0 <= j <= q && ids[j] == id;
      assert AsScored(sorted)[q] == x;
      assert j < q ==> ByScoreThenRank(sorted[j], sorted[q]);
    }
    DistinctSize(ids);
    SubsetSize(Members(ids), AtLeast(corpus, scores, x.score));
  }

  lemma {:induction false} ListOf(ids: set<string>) returns (list: seq<string>)
    ensures Distinct(list) && Members(list) == ids
  {
    if ids == {} {
      list := [];
      assert Members(list) == {};
    } else {
      var id :| id in ids;
      var others := ListOf(ids - {id});
      list := [id] + others;
      assert forall i | 0 <= i < |others| :: others[i] in Members(others);
      assert Members(list) == {id} + Members(others);
    }
  }

  /** All loaded memories, the one that exact search places at `p` last. */
  lemma LastCandidate(corpus: seq<Scored>, scores: map<string, real>, p: nat) returns (candidates: seq<string>)
    requires Loads(corpus, scores) && p < |corpus| && Sort(ByScore, corpus)[p].id in scores
    ensures Consistent(corpus, scores, candidates) && Members(candidates) == scores.Keys
    ensures candidates != [] && candidates[|candidates| - 1] == Sort(ByScore, corpus)[p].id
  {
    var id := Sort(ByScore, corpus)[p].id;
    var others := ListOf(scores.Keys - {id});
    candidates := others + [id];
    assert forall i | 0 <= i < |others| :: others[i] in Members(others);
    assert id in Members(candidates);
    assert Members(candidates) == Members(others) + {id};
    assert forall c | c in candidates :: c in Members(candidates);
  }

  /** Listed last of all that are loaded, a memory has its whole crowd before it. */
  lemma LastStandsBehind(corpus: seq<Scored>, scores: map<string, real>, candidates: seq<string>, x: Scored, q: nat, y: Scored)
    requires Consistent(corpus, scores, candidates) && x in corpus && y in corpus && y.id in candidates
    requires candidates != [] && candidates[|candidates| - 1] == x.id && y.score >= x.score
    requires q < |RerankedIds(scores, candidates)| && RerankedIds(scores, candidates)[q] == x.id
    ensures y.id in Members(RerankedIds(scores, candidates)[..q + 1])
  {
    var sorted := Sort(ByScoreThenRank, Rescored(scores, candidates));
    RerankedFacts(corpus, scores, candidates);
    SameScore(corpus, Scored(sorted[q].id, sorted[q].score), x);
    assert candidates[sorted[q].rank - 1] == candidates[|candidates| - 1];
    var j := RerankedPlace(corpus, scores, candidates, y);
    assert AsScored(sorted)[j] == y;
    assert j <= q;
    assert RankedIds(sorted)[..q + 1][j] == y.id;
  }

  /** Listed last of all that are loaded, a memory has its whole crowd before it. */
  lemma LastStandsBehindCrowd(corpus: seq<Scored>, scores: map<string, real>, candidates: seq<string>, p: nat, q: nat)
    requires Consistent(corpus, scores, candidates) && Members(candidates) == scores.Keys
    requires p < |corpus| && candidates != [] && candidates[|candidates| - 1] == Sort(ByScore, corpus)[p].id
    requires q < |RerankedIds(scores, candidates)| && RerankedIds(scores, candidates)[q] == Sort(ByScore, corpus)[p].id
    ensures q + 1 >= Crowd(corpus, scores, p)
  {
    var x, ids := Sort(ByScore, corpus)[p], RerankedIds(scores, candidates)[..q + 1];
    SortMember(ByScore, corpus, x);
    forall y | y in corpus && y.id in scores && y.score >= x.score ensures y.id in Members(ids) {
      assert y.id in Members(candidates);
      LastStandsBehind(corpus, scores, candidates, x, q, y);
    }
    RerankedLength(corpus, scores, candidates);
    DistinctSize(ids);
    SubsetSize(AtLeast(corpus, scores, x.score), Members(ids));
  }

  lemma SameScore(corpus: seq<Scored>, x: Scored, y: Scored)
    requires DistinctIds(corpus) && x in corpus && y in corpus && x.id == y.id
    ensures x == y
  {
  }

  // ---------- the metrics ----------

  function Recall(corpus: seq<Scored>, scores: map<string, real>, candidates: seq<string>, k: nat): real {
    var exact := ExactIds(corpus, k);
    Ratio(|Members(exact) * Members(HybridIds(scores, candidates, k))|, |exact|)
  }

  function HitRate(corpus: seq<Scored>, candidates: seq<string>, k: nat): real {
    var exact := ExactIds(corpus, k);
    Ratio(|Members(exact) * Members(candidates)|, |exact|)
  }

  predicate Top1(corpus: seq<Scored>, scores: map<string, real>, candidates: seq<string>, k: nat) {
    var exact, hybrid := ExactIds(corpus, k), HybridIds(scores, candidates, k);
    exact != [] && hybrid != [] && exact[0] == hybrid[0]
  }

  predicate PoolHasBest(corpus: seq<Scored>, candidates: seq<string>, k: nat) {
    var exact := ExactIds(corpus, k);
    exact != [] && exact[0] in candidates
  }

  /** What exact and hybrid search share is exactly what the pool contains of the exact top k. */
  ghost predicate SharesPool(corpus: seq<Scored>, scores: map<string, real>, candidates: seq<string>, k: nat) {
    var exact := ExactIds(corpus, k);
    Members(exact) * Members(HybridIds(scores, candidates, k)) == Members(exact) * Members(candidates)
  }

  lemma {:induction false} EqualSizes<T>(a: set<T>, b: set<T>)
    requires a <= b && |a| == |b|
    ensures a == b
  {
    if a != {} {
      var x :| x in a;
      EqualSizes(a - {x}, b - {x});
    }
  }

  lemma RecallEqualIff(corpus: seq<Scored>, scores: map<string, real>, candidates: seq<string>, k: nat)
    requires Consistent(corpus, scores, candidates)
    ensures Recall(corpus, scores, candidates, k) == HitRate(corpus, candidates, k) <==> SharesPool(corpus, scores, candidates, k)
  {
    var exact, hybrid := ExactIds(corpus, k), HybridIds(scores, candidates, k);
    var a, b := Members(exact) * Members(hybrid), Members(exact) * Members(candidates);
    RecallAtMostHitRate(corpus, scores, candidates, k);
    if exact == [] {
      assert a == {} && b == {};
    } else if Ratio(|a|, |exact|) == Ratio(|b|, |exact|) {
      RatioInjective(|a|, |b|, |exact|);
      EqualSizes(a, b);
    }
  }

  lemma RatioInjective(a: nat, b: nat, d: nat)
    requires d > 0 && Ratio(a, d) == Ratio(b, d)
    ensures a == b
  {
    assert a as real == Ratio(a, d) * d as real && b as real == Ratio(b, d) * d as real;
  }

  /** No loaded memory of the exact top k can be crowded out of k places. */
  ghost predicate RoomForTop(corpus: seq<Scored>, scores: map<string, real>, k: nat) {
    forall p | 0 <= p < k && p < |corpus| && Sort(ByScore, corpus)[p].id in scores :: Crowd(corpus, scores, p) <= k
  }

  lemma RoomGivesRecall(corpus: seq<Scored>, scores: map<string, real>, candidates: seq<string>, k: nat)
    requires Consistent(corpus, scores, candidates) && k >= 1 && RoomForTop(corpus, scores, k)
    ensures SharesPool(corpus, scores, candidates, k)
  {
    var exact, hybrid := ExactIds(corpus, k), HybridIds(scores, candidates, k);
    RecallAtMostHitRate(corpus, scores, candidates, k);
    forall id | id in Members(exact) * Members(candidates) ensures id in Members(hybrid) {
      var p :| 0 <= p < |exact| && exact[p] == id;
      var q := PlaceWithinCrowd(corpus, scores, candidates, p);
      assert q < |hybrid| && hybrid[q] == id;
    }
  }

  lemma NoRoomLosesRecall(corpus: seq<Scored>, scores: map<string, real>, k: nat, p: nat) returns (candidates: seq<string>)
    requires Loads(corpus, scores) && k >= 1 && p < k && p < |corpus|
    requires Sort(ByScore, corpus)[p].id in scores && Crowd(corpus, scores, p) > k
    ensures Consistent(corpus, scores, candidates) && !SharesPool(corpus, scores, candidates, k)
  {
    candidates := LastCandidate(corpus, scores, p);
    var exact, hybrid := ExactIds(corpus, k), HybridIds(scores, candidates, k);
    var id := Sort(ByScore, corpus)[p].id;
    assert exact[p] == id && id in Members(exact) * Members(candidates);
    if id in Members(hybrid) {
      var q :| 0 <= q < |hybrid| && hybrid[q] == id;
      LastStandsBehindCrowd(corpus, scores, candidates, p, q);
      assert false;
    }
  }

  /**
   Recall equals the pool hit rate for every candidate list exactly when no loaded memory of the exact top k can be
   crowded out by others that score at least as much.
   */
  lemma RecallBoundary(corpus: seq<Scored>, scores: map<string, real>, k: nat)
    requires Loads(corpus, scores) && k >= 1
    ensures RoomForTop(corpus, scores, k)
            <==> forall candidates | Consistent(corpus, scores, candidates) ::
                   Recall(corpus, scores, candidates, k) == HitRate(corpus, candidates, k)
  {
    forall candidates | Consistent(corpus, scores, candidates)
      ensures RoomForTop(corpus, scores, k) ==> Recall(corpus, scores, candidates, k) == HitRate(corpus, candidates, k)
    {
      RecallEqualIff(corpus, scores, candidates, k);
      if RoomForTop(corpus, scores, k) {
        RoomGivesRecall(corpus, scores, candidates, k);
      }
    }
    if !RoomForTop(corpus, scores, k) {
      var p :| 0 <= p < k && p < |corpus| && Sort(ByScore, corpus)[p].id in scores && Crowd(corpus, scores, p) > k;
      var candidates := NoRoomLosesRecall(corpus, scores, k, p);
      RecallEqualIff(corpus, scores, candidates, k);
    }
  }

  /** The last of the first `k` scores more than the next. */
  predicate NoTieAcross(corpus: seq<Scored>, k: nat)
    requires k >= 1
  {
    var xs := Sort(ByScore, corpus);
    |xs| <= k || xs[k - 1].score > xs[k].score
  }

  /** With the whole corpus loaded there is room exactly when no tie straddles place k; it is enough in any case. */
  lemma RoomIffNoTieAcross(corpus: seq<Scored>, scores: map<string, real>, k: nat)
    requires Loads(corpus, scores) && k >= 1
    ensures NoTieAcross(corpus, k) ==> RoomForTop(corpus, scores, k)
    ensures AllLoaded(corpus, scores) ==> (RoomForTop(corpus, scores, k) <==> NoTieAcross(corpus, k))
  {
    var xs := Sort(ByScore, corpus);
    ExactSorted(corpus);
    if NoTieAcross(corpus, k) {
      forall p | 0 <= p < k && p < |corpus| ensures Crowd(corpus, scores, p) <= k {
        CrowdAtMost(corpus, scores, p, if |xs| <= k then |xs| else k);
      }
    } else if AllLoaded(corpus, scores) {
      CrowdAtLeast(corpus, scores, k - 1, k + 1);
      assert xs[k - 1] in xs;
    }
  }

  /**
   With the whole corpus loaded, recall equals the pool hit rate for every candidate list exactly when no tie straddles
   place k; ties elsewhere do no harm.
   */
  lemma RecallIsHitRateIff(corpus: seq<Scored>, scores: map<string, real>, k: nat)
    requires Loads(corpus, scores) && k >= 1 && AllLoaded(corpus, scores)
    ensures NoTieAcross(corpus, k)
            <==> forall candidates | Consistent(corpus, scores, candidates) ::
                   Recall(corpus, scores, candidates, k) == HitRate(corpus, candidates, k)
  {
    RoomIffNoTieAcross(corpus, scores, k);
    RecallBoundary(corpus, scores, k);
  }

  /** With a tie across place k and the whole corpus loaded, some candidate list has a recall below its hit rate. */
  lemma TiesCanLowerRecall(corpus: seq<Scored>, scores: map<string, real>, k: nat) returns (candidates: seq<string>)
    requires Loads(corpus, scores) && AllLoaded(corpus, scores) && k >= 1 && !NoTieAcross(corpus, k)
    ensures Consistent(corpus, scores, candidates)
    ensures Recall(corpus, scores, candidates, k) < HitRate(corpus, candidates, k)
  {
    var p := k - 1;
    ExactSorted(corpus);
    CrowdAtLeast(corpus, scores, p, k + 1);
    assert Sort(ByScore, corpus)[p] in Sort(ByScore, corpus);
    candidates := NoRoomLosesRecall(corpus, scores, k, p);
    RecallEqualIff(corpus, scores, candidates, k);
    RecallAtMostHitRate(corpus, scores, candidates, k);
  }

  lemma NoTiesAtAll(corpus: seq<Scored>, k: nat)
    requires DistinctIds(corpus) && DistinctScores(corpus) && k >= 1
    ensures NoTieAcross(corpus, k)
  {
    ExactDescends(corpus);
  }

  /**
   With distinct scores exact and hybrid search share exactly those of the exact top k that the pool contains, so recall
   equals the pool hit rate.
   */
  lemma RecallIsHitRate(corpus: seq<Scored>, scores: map<string, real>, candidates: seq<string>, k: nat)
    requires Consistent(corpus, scores, candidates) && DistinctScores(corpus) && k >= 1
    ensures SharesPool(corpus, scores, candidates, k)
    ensures Recall(corpus, scores, candidates, k) == HitRate(corpus, candidates, k)
  {
    NoTiesAtAll(corpus, k);
    RoomIffNoTieAcross(corpus, scores, k);
    RoomGivesRecall(corpus, scores, candidates, k);
    RecallEqualIff(corpus, scores, candidates, k);
  }

  /** The best memory is preserved exactly if the first places share what the pool contains of it. */
  lemma Top1IsFirstPlace(corpus: seq<Scored>, scores: map<string, real>, candidates: seq<string>, k: nat)
    requires Consistent(corpus, scores, candidates) && k >= 1
    ensures (Top1(corpus, scores, candidates, k) <==> PoolHasBest(corpus, candidates, k))
            <==> SharesPool(corpus, scores, candidates, 1)
  {
    var exact, hybrid := ExactIds(corpus, 1), HybridIds(scores, candidates, 1);
    if exact == [] {
      assert Members(exact) == {};
    } else {
      assert Members(exact) == {exact[0]} && exact[0] == ExactIds(corpus, k)[0];
      assert hybrid != [] ==> Members(hybrid) == {hybrid[0]} && hybrid[0] == HybridIds(scores, candidates, k)[0];
      assert exact[0] in Members(exact) * Members(candidates) <==> exact[0] in candidates;
      assert exact[0] in Members(exact) * Members(hybrid) <==> hybrid != [] && hybrid[0] == exact[0];
    }
  }

  /**
   The best memory is preserved exactly when the pool contains it, for every candidate list, exactly when no other loaded
   memory scores as much; with the whole corpus loaded that is when no tie straddles the first place.
   */
  lemma Top1Boundary(corpus: seq<Scored>, scores: map<string, real>, k: nat)
    requires Loads(corpus, scores) && k >= 1
    ensures RoomForTop(corpus, scores, 1)
            <==> forall candidates | Consistent(corpus, scores, candidates) ::
                   Top1(corpus, scores, candidates, k) <==> PoolHasBest(corpus, candidates, k)
    ensures AllLoaded(corpus, scores) ==> (RoomForTop(corpus, scores, 1) <==> NoTieAcross(corpus, 1))
  {
    RecallBoundary(corpus, scores, 1);
    RoomIffNoTieAcross(corpus, scores, 1);
    forall candidates | Consistent(corpus, scores, candidates)
      ensures (Top1(corpus, scores, candidates, k) <==> PoolHasBest(corpus, candidates, k))
              <==> Recall(corpus, scores, candidates, 1) == HitRate(corpus, candidates, 1)
    {
      Top1IsFirstPlace(corpus, scores, candidates, k);
      RecallEqualIff(corpus, scores, candidates, 1);
    }
  }

  /** With distinct scores the best memory is preserved exactly when the pool contains it. */
  lemma Top1PreservedIff(corpus: seq<Scored>, scores: map<string, real>, candidates: seq<string>, k: nat)
    requires Consistent(corpus, scores, candidates) && DistinctScores(corpus) && k >= 1
    ensures Top1(corpus, scores, candidates, k) <==> PoolHasBest(corpus, candidates, k)
  {
    NoTiesAtAll(corpus, 1);
    RoomIffNoTieAcross(corpus, scores, 1);
    RoomGivesRecall(corpus, scores, candidates, 1);
    Top1IsFirstPlace(corpus, scores, candidates, k);
  }

  /** What a profile of consistent searches says. */
  lemma ProfileMeaning(corpus: seq<Scored>, scores: map<string, real>, candidates: seq<string>, k: nat)
    requires k >= 1
    ensures Consistent(corpus, scores, candidates) ==>
      && Recall(corpus, scores, candidates, k) <= HitRate(corpus, candidates, k)
      && (RoomForTop(corpus, scores, k) ==> Recall(corpus, scores, candidates, k) == HitRate(corpus, candidates, k))
      && (RoomForTop(corpus, scores, 1) ==>
            (Top1(corpus, scores, candidates, k) <==> PoolHasBest(corpus, candidates, k)))
  {
    if Consistent(corpus, scores, candidates) {
      RecallAtMostHitRate(corpus, scores, candidates, k);
      RecallBoundary(corpus, scores, k);
      Top1Boundary(corpus, scores, k);
    }
  }

  // ---------- the whole list ----------

  /** The reranked list is no longer than the corpus and lists each id once. */
  lemma RerankedLength(corpus: seq<Scored>, scores: map<string, real>, candidates: seq<string>)
    requires Consistent(corpus, scores, candidates)
    ensures Distinct(RerankedIds(scores, candidates)) && |RerankedIds(scores, candidates)| <= |corpus|
  {
    var ids := RerankedIds(scores, candidates);
    var sorted := Sort(ByScoreThenRank, Rescored(scores, candidates));
    RerankedFacts(corpus, scores, candidates);
    DistinctSize(ids);
    DistinctSize(ScoredIds(corpus));
    forall id | id in Members(ids) ensures id in Members(ScoredIds(corpus)) {
      var i :| 0 <= i < |ids| && ids[i] == id;
      var a :| 0 <= a < |corpus| && corpus[a] == Scored(sorted[i].id, sorted[i].score);
      assert ScoredIds(corpus)[a] == id;
    }
    SubsetSize(Members(ids), Members(ScoredIds(corpus)));
  }

  /** Each of the first `n` of exact search scores more than all other loaded memories behind it. */
  ghost predicate Strict(corpus: seq<Scored>, scores: map<string, real>, k: nat) {
    forall p | 0 <= p < k && p < |corpus| :: Crowd(corpus, scores, p) <= p + 1
  }

  predicate TopLoaded(corpus: seq<Scored>, scores: map<string, real>, k: nat) {
    forall p | 0 <= p < k && p < |corpus| :: Sort(ByScore, corpus)[p].id in scores
  }

  predicate Covers(corpus: seq<Scored>, candidates: seq<string>, k: nat) {
    Members(ExactIds(corpus, k)) <= Members(candidates)
  }

  /**
   Where the scores of the first p + 1 fall strictly, the candidate that exact search places at `p` stands no lower in the
   reranked list, and in the same place when all better memories are candidates too.
   */
  lemma {:induction false} PlacesAgree(corpus: seq<Scored>, scores: map<string, real>, candidates: seq<string>, p: nat) returns (q: nat)
    requires Consistent(corpus, scores, candidates) && Strict(corpus, scores, p + 1)
    requires p < |corpus| && Sort(ByScore, corpus)[p].id in candidates
    ensures q <= p && q < |RerankedIds(scores, candidates)|
    ensures RerankedIds(scores, candidates)[q] == Sort(ByScore, corpus)[p].id
    ensures (forall i | 0 <= i < p :: Sort(ByScore, corpus)[i].id in candidates) ==> q == p
    decreases p
  {
    q := PlaceWithinCrowd(corpus, scores, candidates, p);
    if q < p && forall i | 0 <= i < p :: Sort(ByScore, corpus)[i].id in candidates {
      var r := PlacesAgree(corpus, scores, candidates, q);
      ExactSorted(corpus);
      assert false;
    }
  }

  /** Where the pool covers the exact list the hybrid list has the same memory in the same place. */
  lemma CoveredPlace(corpus: seq<Scored>, scores: map<string, real>, candidates: seq<string>, k: nat, p: nat)
    requires Consistent(corpus, scores, candidates) && Strict(corpus, scores, k) && k >= 1
    requires Covers(corpus, candidates, k) && p < |ExactIds(corpus, k)|
    ensures p < |HybridIds(scores, candidates, k)| && HybridIds(scores, candidates, k)[p] == ExactIds(corpus, k)[p]
  {
    var exact := ExactIds(corpus, k);
    forall i | 0 <= i <= p ensures Sort(ByScore, corpus)[i].id in candidates {
      assert exact[i] in Members(exact);
    }
    var q := PlacesAgree(corpus, scores, candidates, p);
  }

  lemma CoveredIsExact(corpus: seq<Scored>, scores: map<string, real>, candidates: seq<string>, k: nat)
    requires Consistent(corpus, scores, candidates) && Strict(corpus, scores, k) && k >= 1
    requires Covers(corpus, candidates, k)
    ensures HybridIds(scores, candidates, k) == ExactIds(corpus, k)
  {
    var exact, hybrid := ExactIds(corpus, k), HybridIds(scores, candidates, k);
    forall p | 0 <= p < |exact| ensures p < |hybrid| && hybrid[p] == exact[p] {
      CoveredPlace(corpus, scores, candidates, k, p);
    }
    RerankedLength(corpus, scores, candidates);
    if exact != [] {
      CoveredPlace(corpus, scores, candidates, k, |exact| - 1);
    }
    assert hybrid == exact;
  }

  lemma ExactIsCovered(corpus: seq<Scored>, scores: map<string, real>, candidates: seq<string>, k: nat)
    requires Consistent(corpus, scores, candidates) && HybridIds(scores, candidates, k) == ExactIds(corpus, k)
    ensures Covers(corpus, candidates, k)
  {
    forall id | id in HybridIds(scores, candidates, k) ensures id in candidates {
      RerankedMembers(scores, candidates, id);
    }
  }

  /**
   The hybrid list is the exact one, in order, exactly when the pool covers the exact top k, for every candidate list,
   exactly when part of the top k is not loaded at all or none of it ties with a loaded memory behind it.
   */
  lemma CoverBoundary(corpus: seq<Scored>, scores: map<string, real>, k: nat)
    requires Loads(corpus, scores) && k >= 1
    ensures (TopLoaded(corpus, scores, k) ==> Strict(corpus, scores, k))
            <==> forall candidates | Consistent(corpus, scores, candidates) ::
                   HybridIds(scores, candidates, k) == ExactIds(corpus, k) <==> Covers(corpus, candidates, k)
  {
    forall candidates | Consistent(corpus, scores, candidates)
      ensures HybridIds(scores, candidates, k) == ExactIds(corpus, k) ==> Covers(corpus, candidates, k)
      ensures Strict(corpus, scores, k) && Covers(corpus, candidates, k) ==>
                HybridIds(scores, candidates, k) == ExactIds(corpus, k)
      ensures Covers(corpus, candidates, k) ==> TopLoaded(corpus, scores, k)
    {
      if HybridIds(scores, candidates, k) == ExactIds(corpus, k) {
        ExactIsCovered(corpus, scores, candidates, k);
      }
      if Strict(corpus, scores, k) && Covers(corpus, candidates, k) {
        CoveredIsExact(corpus, scores, candidates, k);
      }
      if Covers(corpus, candidates, k) {
        forall p | 0 <= p < k && p < |corpus| ensures Sort(ByScore, corpus)[p].id in scores {
          assert ExactIds(corpus, k)[p] in Members(ExactIds(corpus, k));
        }
      }
    }
    if TopLoaded(corpus, scores, k) && !Strict(corpus, scores, k) {
      var p :| 0 <= p < k && p < |corpus| && Crowd(corpus, scores, p) > p + 1;
      var candidates := NotStrictLosesOrder(corpus, scores, k, p);
    }
  }

  lemma NotStrictLosesOrder(corpus: seq<Scored>, scores: map<string, real>, k: nat, p: nat) returns (candidates: seq<string>)
    requires Loads(corpus, scores) && TopLoaded(corpus, scores, k) && p < k && p < |corpus|
    requires Crowd(corpus, scores, p) > p + 1
    ensures Consistent(corpus, scores, candidates) && Covers(corpus, candidates, k)
    ensures HybridIds(scores, candidates, k) != ExactIds(corpus, k)
  {
    candidates := LastCandidate(corpus, scores, p);
    var exact, hybrid := ExactIds(corpus, k), HybridIds(scores, candidates, k);
    forall id | id in Members(exact) ensures id in Members(candidates) {
      var i :| 0 <= i < |exact| && exact[i] == id;
      assert Sort(ByScore, corpus)[i].id in scores;
    }
    if hybrid == exact {
      assert hybrid[p] == exact[p] == Sort(ByScore, corpus)[p].id;
      LastStandsBehindCrowd(corpus, scores, candidates, p, p);
      assert false;
    }
  }

  /** The memory that exact search places at `p` is the last or scores more than the next. */
  predicate FallsAfter(corpus: seq<Scored>, p: nat)
    requires p < |corpus|
  {
    var xs := Sort(ByScore, corpus);
    p + 1 == |xs| || xs[p].score > xs[p + 1].score
  }

  lemma CrowdIffFalling(corpus: seq<Scored>, scores: map<string, real>, p: nat)
    requires Loads(corpus, scores) && AllLoaded(corpus, scores) && p < |corpus|
    ensures Crowd(corpus, scores, p) <= p + 1 <==> FallsAfter(corpus, p)
  {
    ExactSorted(corpus);
    if FallsAfter(corpus, p) {
      CrowdAtMost(corpus, scores, p, p + 1);
    } else {
      CrowdAtLeast(corpus, scores, p, p + 2);
    }
  }

  /** With the whole corpus loaded the order is safe exactly when the scores fall strictly through the first k places. */
  lemma StrictIffFalling(corpus: seq<Scored>, scores: map<string, real>, k: nat)
    requires Loads(corpus, scores) && AllLoaded(corpus, scores)
    ensures Strict(corpus, scores, k) <==> forall p | 0 <= p < k && p < |corpus| :: FallsAfter(corpus, p)
  {
    forall p | 0 <= p < k && p < |corpus|
      ensures Crowd(corpus, scores, p) <= p + 1 <==> FallsAfter(corpus, p)
    {
      CrowdIffFalling(corpus, scores, p);
    }
  }

  lemma DistinctIsStrict(corpus: seq<Scored>, scores: map<string, real>, k: nat)
    requires Loads(corpus, scores) && DistinctScores(corpus)
    ensures Strict(corpus, scores, k)
  {
    ExactDescends(corpus);
    forall p | 0 <= p < k && p < |corpus| ensures Crowd(corpus, scores, p) <= p + 1 {
      CrowdAtMost(corpus, scores, p, p + 1);
    }
  }

  /** With distinct scores the hybrid list is the exact one, in order, exactly when the pool covers the exact top k. */
  lemma CoveringPoolIsExact(corpus: seq<Scored>, scores: map<string, real>, candidates: seq<string>, k: nat)
    requires Consistent(corpus, scores, candidates) && DistinctScores(corpus) && k >= 1
    ensures HybridIds(scores, candidates, k) == ExactIds(corpus, k) <==> Covers(corpus, candidates, k)
  {
    DistinctIsStrict(corpus, scores, k);
    CoverBoundary(corpus, scores, k);
  }

  // ---------- options and ratios, spelled out ----------

  /** A ratio is what times its denominator gives its numerator; nothing out of nothing is 0. */
  lemma RatioIs(n: nat, d: nat)
    ensures Ratio(n, 0) == 0.0
    ensures d > 0 ==> Ratio(n, d) * d as real == n as real && Ratio(d, d) == 1.0 && Ratio(0, d) == 0.0
    ensures d > 0 && n <= d ==> 0.0 <= Ratio(n, d) <= 1.0
  {
    if d > 0 && n <= d {
      RatioMonotone(0, n, d);
      RatioMonotone(n, d, d);
    }
  }

  /** Recall is full exactly when hybrid search finds all of a top k that is not empty. */
  lemma FullRecallIff(corpus: seq<Scored>, scores: map<string, real>, candidates: seq<string>, k: nat)
    requires DistinctIds(corpus) && k >= 1
    ensures Recall(corpus, scores, candidates, k) == 1.0
            <==> corpus != [] && Members(ExactIds(corpus, k)) <= Members(HybridIds(scores, candidates, k))
  {
    var exact, hybrid := ExactIds(corpus, k), HybridIds(scores, candidates, k);
    var both := Members(exact) * Members(hybrid);
    ExactSorted(corpus);
    DistinctSize(exact);
    assert exact == [] <==> corpus == [];
    if exact != [] {
      RatioIs(|exact|, |exact|);
      if Ratio(|both|, |exact|) == 1.0 {
        RatioInjective(|both|, |exact|, |exact|);
        EqualSizes(both, Members(exact));
      }
      if Members(exact) <= Members(hybrid) {
        assert both == Members(exact);
      }
    }
  }

  /** Top k is 10 unless said otherwise and from 1 to 100; the pool is 50 unless said otherwise, from top k to 1000. */
  lemma SizesAre(options: Options)
    ensures var k, pool := TopK(options), PoolSize(options);
            var wantedK, wantedPool := if options.topK == None then 10 else options.topK.value,
                                       if options.poolSize == None then 50 else options.poolSize.value;
            && 1 <= k <= 100 && (1 <= wantedK <= 100 ==> k == wantedK) && (wantedK < 1 ==> k == 1) && (wantedK > 100 ==> k == 100)
            && k <= pool <= 1000 && (k <= wantedPool <= 1000 ==> pool == wantedPool)
            && (wantedPool < k ==> pool == k) && (wantedPool > 1000 ==> pool == 1000)
  {
  }

  /** Minima are 0.95 unless said otherwise and from 0 to 1; top 1 is required unless switched off. */
  lemma MinimaAre(options: Options, minimum: Option<real>)
    ensures minimum == None ==> Limits(minimum) == 0.95
    ensures minimum.Some? && 0.0 <= minimum.value <= 1.0 ==> Limits(minimum) == minimum.value
    ensures minimum.Some? && minimum.value < 0.0 ==> Limits(minimum) == 0.0
    ensures minimum.Some? && minimum.value > 1.0 ==> Limits(minimum) == 1.0
    ensures options.requireTop1 == None ==> WantsTop1(options)
    ensures options.requireTop1.Some? ==> WantsTop1(options) == options.requireTop1.value
  {
  }

  /** What is wrong with the parameters of a profile. */
  lemma OptionsFaultIs(options: Options)
    ensures var fault, query := OptionsFault(options), options.queryVector;
            && (fault == Some(ModelRequired) <==> options.model == None)
            && (fault == Some(QueryRequired) <==> options.model != None && query == None)
            && (fault == Some(QueryEmpty) <==> options.model != None && query == Some([]))
            && (fault == Some(QueryNotNumeric) <==> options.model != None && query.Some? && None in query.value)
            && (fault == Some(DimensionMismatch) <==>
                  && options.model != None && query.Some? && query.value != [] && None !in query.value
                  && options.dimensions.Some? && options.dimensions.value != |query.value|)
            && (fault.Some? ==> fault.value in {ModelRequired, QueryRequired, QueryEmpty, QueryNotNumeric, DimensionMismatch})
  {
  }

  /** Past the parameters, a profile fails over the store, fewer than two loaded memories or the search, in this order. */
  lemma ProfileFaultIs(corpus: Result<seq<Scored>, string>, loaded: Result<map<string, real>, string>,
                       search: nat -> Result<seq<string>, string>, options: Options)
    requires OptionsFault(options) == None
    ensures var fault, read := ProfileFault(corpus, loaded, search, options), corpus.Ok? && loaded.Ok?;
            && (corpus.Err? ==> fault == Some(StoreFailed(corpus.error)))
            && (corpus.Ok? && loaded.Err? ==> fault == Some(StoreFailed(loaded.error)))
            && (fault == Some(TooFewEmbeddings) <==> read && |loaded.value| <= 1)
            && (read && |loaded.value| >= 2 && search(PoolSize(options)).Err? ==>
                  fault == Some(QuantizerFailed(search(PoolSize(options)).error)))
            && (fault == None <==> read && |loaded.value| >= 2 && search(PoolSize(options)).Ok?)
  {
  }
}
