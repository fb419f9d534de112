/** Greedy diversification: `_mmr_rerank` of memem/retrieve.py. Embeddings and their inner
    product are arbitrary. */
module Diversify {
  import opened Wrappers

  datatype Hit = Hit(id: string, score: real)

  /** The embedding of an id, if the table has one, and the inner product of embeddings. */
  datatype Space<!V> = Space(vec: string -> Option<V>, dot: (V, V) -> real)

  // ---------------------------------------------------------------------------
  // Relevance against redundancy
  // ---------------------------------------------------------------------------

  function Vectors<V>(space: Space<V>, picked: seq<Hit>): seq<V> {
    if picked == [] then []
    else
      var front := Vectors(space, picked[..|picked| - 1]);
      match space.vec(picked[|picked| - 1].id)
      case None => front
      case Some(v) => front + [v]
  }

  function Largest(s: seq<real>): real
    requires s != []
  {
    if |s| == 1 || s[|s| - 1] > Largest(s[..|s| - 1]) then s[|s| - 1] else Largest(s[..|s| - 1])
  }

  function Similarity<V>(space: Space<V>, hit: Hit, vectors: seq<V>): real {
    match space.vec(hit.id)
    case None => 0.0
    case Some(v) =>
      if vectors == [] then 0.0
      else Largest(seq(|vectors|, i requires 0 <= i < |vectors| => space.dot(v, vectors[i])))
  }

  function Mmr<V>(space: Space<V>, hit: Hit, vectors: seq<V>): real {
    0.7 * hit.score - 0.3 * Similarity(space, hit, vectors)
  }

  // ---------------------------------------------------------------------------
  // The greedy choice
  // ---------------------------------------------------------------------------

  /** The first of the hits with the largest margin. */
  function Best<V>(space: Space<V>, hits: seq<Hit>, vectors: seq<V>): (b: nat)
    requires hits != []
    ensures b < |hits|
  {
    if |hits| == 1 then 0
    else
      var b := Best(space, hits[..|hits| - 1], vectors);
      if Mmr(space, hits[|hits| - 1], vectors) > Mmr(space, hits[b], vectors) then |hits| - 1 else b
  }

  function Drop<T>(s: seq<T>, i: nat): seq<T>
    requires i < |s|
  {
    s[..i] + s[i + 1..]
  }

  function Picks<V>(space: Space<V>, left: seq<Hit>, picked: seq<Hit>, n: nat): seq<Hit> {
    if n == 0 || left == [] then picked
    else
      var b := Best(space, left, Vectors(space, picked));
      Picks(space, Drop(left, b), picked + [left[b]], n - 1)
  }

  function Reranked<V>(space: Space<V>, candidates: seq<Hit>, k: nat): seq<Hit> {
    if |candidates| <= k then candidates else Picks(space, candidates, [], k)
  }

  method MaxSimilarity<V>(space: Space<V>, hit: Hit, vectors: seq<V>) returns (s: real)
    ensures s == Similarity(space, hit, vectors)
  {
    var found := space.vec(hit.id);
    if found.None? || vectors == [] {
      return 0.0;
    }
    var v := found.value;
    ghost var sims := seq(|vectors|, i requires 0 <= i < |vectors| => space.dot(v, vectors[i]));
    s := space.dot(v, vectors[0]);
    assert sims[..1] == [sims[0]];
    for i := 1 to |vectors|
      invariant s == Largest(sims[..i])
    {
      assert sims[..i + 1][..i] == sims[..i];
      var sim := space.dot(v, vectors[i]);
      s := if sim > s then sim else s;
    }
    assert sims[..|vectors|] == sims;
  }

  method FindBest<V>(space: Space<V>, hits: seq<Hit>, vectors: seq<V>) returns (best: nat)
    requires hits != []
    ensures best == Best(space, hits, vectors)
  {
    best := 0;
    var sim := MaxSimilarity(space, hits[0], vectors);
    var bestMmr := 0.7 * hits[0].score - 0.3 * sim;
    for i := 1 to |hits|
      invariant best == Best(space, hits[..i], vectors) && bestMmr == Mmr(space, hits[best], vectors)
    {
      assert hits[..i + 1][..i] == hits[..i];
      sim := MaxSimilarity(space, hits[i], vectors);
      var mmr := 0.7 * hits[i].score - 0.3 * sim;
      if mmr > bestMmr {
        best, bestMmr := i, mmr;
      }
    }
    assert hits[..|hits|] == hits;
  }

  method MmrRerank<V>(space: Space<V>, candidates: seq<Hit>, k: nat) returns (selected: seq<Hit>)
    ensures selected == Reranked(space, candidates, k)
  {
    if |candidates| <= k {
      return candidates;
    }
    selected := [];
    var vectors: seq<V> := [];
    var remaining := candidates;
    while |selected| < k && remaining != []
      invariant |selected| <= k && vectors == Vectors(space, selected)
      invariant Picks(space, remaining, selected, k - |selected|) == Picks(space, candidates, [], k)
      decreases k - |selected|
    {
      var best := FindBest(space, remaining, vectors);
      var winner := remaining[best];
      remaining := Drop(remaining, best);
      assert (selected + [winner])[..|selected|] == selected;
      selected := selected + [winner];
      match space.vec(winner.id)
      case None =>
      case Some(v) => vectors := vectors + [v];
    }
  }

  // ---------------------------------------------------------------------------
  // What is chosen
  // ---------------------------------------------------------------------------

  lemma {:induction false} BestFacts<V>(space: Space<V>, hits: seq<Hit>, vectors: seq<V>)
    requires hits != []
    ensures var b := Best(space, hits, vectors);
            && (forall i :: 0 <= i < |hits| ==> Mmr(space, hits[i], vectors) <= Mmr(space, hits[b], vectors))
            && (forall i :: 0 <= i < b ==> Mmr(space, hits[i], vectors) < Mmr(space, hits[b], vectors))
  {
    if |hits| > 1 {
      var front := hits[..|hits| - 1];
      BestFacts(space, front, vectors);
      assert forall i :: 0 <= i < |front| ==> hits[i] == front[i];
    }
  }

  /** Similar to the degree `r` to what is picked: the largest inner product with a pick that has
      an embedding, and nothing when there is none or the hit has no embedding. */
  ghost predicate Redundant<V>(space: Space<V>, hit: Hit, picked: seq<Hit>, r: real) {
    match space.vec(hit.id)
    case None => r == 0.0
    case Some(v) =>
      && (forall p :: p in picked && space.vec(p.id).Some? ==> space.dot(v, space.vec(p.id).value) <= r)
      && (|| (r == 0.0 && forall p :: p in picked ==> space.vec(p.id).None?)
          || exists p :: p in picked && space.vec(p.id).Some? && space.dot(v, space.vec(p.id).value) == r)
  }

  lemma {:induction false} LargestFacts(s: seq<real>)
    requires s != []
    ensures Largest(s) in s && forall i :: 0 <= i < |s| ==> s[i] <= Largest(s)
  {
    if |s| > 1 {
      var front := s[..|s| - 1];
      LargestFacts(front);
      assert forall i :: 0 <= i < |front| ==> s[i] == front[i];
    }
  }

  lemma {:induction false} PickedVector<V>(space: Space<V>, picked: seq<Hit>, p: Hit)
    requires p in picked && space.vec(p.id).Some?
    ensures space.vec(p.id).value in Vectors(space, picked)
  {
    var front, last := picked[..|picked| - 1], picked[|picked| - 1];
    assert picked == front + [last];
    if p in front {
      PickedVector(space, front, p);
    } else {
      assert Vectors(space, picked) == Vectors(space, front) + [space.vec(p.id).value];
    }
  }

  lemma {:induction false} VectorPicked<V>(space: Space<V>, picked: seq<Hit>, v: V) returns (p: Hit)
    requires v in Vectors(space, picked)
    ensures p in picked && space.vec(p.id) == Some(v)
  {
    var front, last := picked[..|picked| - 1], picked[|picked| - 1];
    assert picked == front + [last];
    if v in Vectors(space, front) {
      p := VectorPicked(space, front, v);
    } else {
      p := last;
    }
  }

  lemma {:induction false} SimilarityMeaning<V>(space: Space<V>, hit: Hit, picked: seq<Hit>)
    ensures Redundant(space, hit, picked, Similarity(space, hit, Vectors(space, picked)))
  {
    var vectors := Vectors(space, picked);
    if space.vec(hit.id).Some? {
      var v := space.vec(hit.id).value;
      var r := Similarity(space, hit, vectors);
      if vectors == [] {
        forall p | p in picked ensures space.vec(p.id).None? {
          if space.vec(p.id).Some? {
            PickedVector(space, picked, p);
          }
        }
      } else {
        var sims := seq(|vectors|, i requires 0 <= i < |vectors| => space.dot(v, vectors[i]));
        LargestFacts(sims);
        var k :| 0 <= k < |sims| && sims[k] == r;
        var nearest := VectorPicked(space, picked, vectors[k]);
        forall p | p in picked && space.vec(p.id).Some? ensures space.dot(v, space.vec(p.id).value) <= r {
          PickedVector(space, picked, p);
          var j :| 0 <= j < |vectors| && vectors[j] == space.vec(p.id).value;
          assert sims[j] <= r;
        }
      }
    }
  }

  lemma RedundantOnce<V>(space: Space<V>, hit: Hit, picked: seq<Hit>, a: real, b: real)
    requires Redundant(space, hit, picked, a) && Redundant(space, hit, picked, b)
    ensures a == b
  {
  }

  lemma DropOne<T>(s: seq<T>, i: nat)
    requires i < |s|
    ensures multiset(s) == multiset(Drop(s, i)) + multiset{s[i]}
  {
    assert s == s[..i] + [s[i]] + s[i + 1..];
  }

  lemma {:induction false} PicksExtend<V>(space: Space<V>, left: seq<Hit>, picked: seq<Hit>, n: nat)
    ensures picked <= Picks(space, left, picked, n)
    ensures |Picks(space, left, picked, n)| == |picked| + if n <= |left| then n else |left|
    decreases n
  {
    if n > 0 && left != [] {
      var b := Best(space, left, Vectors(space, picked));
      PicksExtend(space, Drop(left, b), picked + [left[b]], n - 1);
    }
  }

  lemma {:induction false} PicksConserve<V>(space: Space<V>, left: seq<Hit>, picked: seq<Hit>, n: nat)
    ensures multiset(Picks(space, left, picked, n)) <= multiset(left) + multiset(picked)
    decreases n
  {
    if n > 0 && left != [] {
      var b := Best(space, left, Vectors(space, picked));
      PicksConserve(space, Drop(left, b), picked + [left[b]], n - 1);
      PickMoves(left, picked, b);
    }
  }

  lemma PickMoves(left: seq<Hit>, picked: seq<Hit>, b: nat)
    requires b < |left|
    ensures multiset(Drop(left, b)) + multiset(picked + [left[b]]) == multiset(left) + multiset(picked)
  {
    DropOne(left, b);
    assert multiset(picked + [left[b]]) == multiset(picked) + multiset{left[b]};
  }

  /** A hit that is at least as good as every other hit still left: 0.7 times the score less 0.3
      times the redundancy. */
  ghost predicate Greedy<V>(space: Space<V>, all: multiset<Hit>, result: seq<Hit>, n: nat)
    requires n < |result|
  {
    var before, x := result[..n], result[n];
    && x in all - multiset(before)
    && forall h :: h in all - multiset(before) ==> NoBetter(space, before, h, x)
  }

  /** The margin of `h` over the earlier picks is no larger than that of `x`. */
  ghost predicate NoBetter<V>(space: Space<V>, before: seq<Hit>, h: Hit, x: Hit) {
    forall r, s :: Redundant(space, h, before, r) && Redundant(space, x, before, s) ==>
      0.7 * h.score - 0.3 * r <= 0.7 * x.score - 0.3 * s
  }

  lemma MarginIsMmr<V>(space: Space<V>, before: seq<Hit>, h: Hit, x: Hit)
    requires Mmr(space, h, Vectors(space, before)) <= Mmr(space, x, Vectors(space, before))
    ensures NoBetter(space, before, h, x)
  {
    forall r, s | Redundant(space, h, before, r) && Redundant(space, x, before, s)
      ensures 0.7 * h.score - 0.3 * r <= 0.7 * x.score - 0.3 * s
    {
      SimilarityMeaning(space, h, before);
      SimilarityMeaning(space, x, before);
      RedundantOnce(space, h, before, r, Similarity(space, h, Vectors(space, before)));
      RedundantOnce(space, x, before, s, Similarity(space, x, Vectors(space, before)));
    }
  }

  lemma PickIsGreedy<V>(space: Space<V>, all: multiset<Hit>, left: seq<Hit>, picked: seq<Hit>, result: seq<Hit>)
    requires left != [] && multiset(left) + multiset(picked) == all
    requires picked + [left[Best(space, left, Vectors(space, picked))]] <= result
    ensures Greedy(space, all, result, |picked|)
  {
    var vectors := Vectors(space, picked);
    var more := picked + [left[Best(space, left, vectors)]];
    assert result[..|picked|] == more[..|picked|] == picked;
    assert result[|picked|] == more[|picked|];
    assert all - multiset(picked) == multiset(left);
    BestFacts(space, left, vectors);
    forall h | h in multiset(left) ensures NoBetter(space, picked, h, result[|picked|]) {
      MarginIsMmr(space, picked, h, result[|picked|]);
    }
  }

  lemma PickIsKept<V>(space: Space<V>, left: seq<Hit>, picked: seq<Hit>, n: nat)
    requires n > 0 && left != []
    ensures picked + [left[Best(space, left, Vectors(space, picked))]] <= Picks(space, left, picked, n)
  {
    var b := Best(space, left, Vectors(space, picked));
    PicksExtend(space, Drop(left, b), picked + [left[b]], n - 1);
  }

  lemma {:induction false} EveryPickIsGreedy<V>(space: Space<V>, all: multiset<Hit>, left: seq<Hit>,
                                                picked: seq<Hit>, n: nat, m: nat)
    requires multiset(left) + multiset(picked) == all
    requires |picked| <= m < |Picks(space, left, picked, n)|
    ensures Greedy(space, all, Picks(space, left, picked, n), m)
    decreases n
  {
    assert n > 0 && left != [];
    var b := Best(space, left, Vectors(space, picked));
    if m == |picked| {
      PickIsKept(space, left, picked, n);
      PickIsGreedy(space, all, left, picked, Picks(space, left, picked, n));
    } else {
      PickMoves(left, picked, b);
      EveryPickIsGreedy(space, all, Drop(left, b), picked + [left[b]], n - 1, m);
    }
  }

  /** With more than k candidates exactly k of them are returned, no candidate more often than
      it was given, and each pick has the largest margin over the earlier picks among all the
      candidates then left. */
  lemma RerankIsGreedy<V>(space: Space<V>, candidates: seq<Hit>, k: nat)
    requires |candidates| > k
    ensures var r := Reranked(space, candidates, k);
            && |r| == k && multiset(r) <= multiset(candidates)
            && forall n: nat :: n < k ==> Greedy(space, multiset(candidates), r, n)
  {
    PicksExtend(space, candidates, [], k);
    PicksConserve(space, candidates, [], k);
    forall n: nat | n < k ensures Greedy(space, multiset(candidates), Reranked(space, candidates, k), n) {
      EveryPickIsGreedy(space, multiset(candidates), candidates, [], k, n);
    }
  }

  /** The first pick has the largest score, and distinct candidates stay distinct. */
  lemma FirstIsMostRelevant<V>(space: Space<V>, candidates: seq<Hit>, k: nat)
    requires |candidates| > k > 0
    ensures var r := Reranked(space, candidates, k);
            && |r| > 0 && forall i :: 0 <= i < |candidates| ==> candidates[i].score <= r[0].score
  {
    RerankIsGreedy(space, candidates, k);
    var r := Reranked(space, candidates, k);
    assert Greedy(space, multiset(candidates), r, 0) && r[..0] == [];
    forall i | 0 <= i < |candidates| ensures candidates[i].score <= r[0].score {
      assert candidates[i] in multiset(candidates);
      assert NoBetter(space, [], candidates[i], r[0]);
      assert Redundant(space, candidates[i], [], 0.0) && Redundant(space, r[0], [], 0.0);
    }
  }

  lemma DistinctStay<V>(space: Space<V>, candidates: seq<Hit>, k: nat)
    requires forall i, j :: 0 <= i < j < |candidates| ==> candidates[i] != candidates[j]
    ensures var r := Reranked(space, candidates, k); forall i, j :: 0 <= i < j < |r| ==> r[i] != r[j]
  {
    if |candidates| > k {
      RerankIsGreedy(space, candidates, k);
      var r := Reranked(space, candidates, k);
      forall i, j | 0 <= i < j < |r| ensures r[i] != r[j] {
        OnceEach(candidates, r[i]);
        TwiceCounts(r, i, j);
      }
    }
  }

  lemma TwiceCounts(s: seq<Hit>, i: nat, j: nat)
    requires i < j < |s|
    ensures s[i] == s[j] ==> multiset(s)[s[i]] >= 2
  {
    assert s == s[..j] + s[j..];
    assert s[..j][i] == s[i] && s[j..][0] == s[j];
  }

  lemma {:induction false} OnceEach(s: seq<Hit>, x: Hit)
    requires forall i, j :: 0 <= i < j < |s| ==> s[i] != s[j]
    ensures multiset(s)[x] <= 1
  {
    if s != [] {
      OnceEach(s[1..], x);
      assert s == [s[0]] + s[1..];
    }
  }

  lemma {:induction false} MorePicksExtend<V>(space: Space<V>, left: seq<Hit>, picked: seq<Hit>, n: nat)
    ensures Picks(space, left, picked, n) <= Picks(space, left, picked, n + 1)
    decreases n
  {
    if n > 0 && left != [] {
      var b := Best(space, left, Vectors(space, picked));
      MorePicksExtend(space, Drop(left, b), picked + [left[b]], n - 1);
    } else {
      PicksExtend(space, left, picked, n + 1);
    }
  }

  /** Asking for one result more only adds a result, as long as there are more candidates. */
  lemma SmallerRequestIsPrefix<V>(space: Space<V>, candidates: seq<Hit>, k: nat)
    requires |candidates| > k + 1
    ensures Reranked(space, candidates, k) <= Reranked(space, candidates, k + 1)
  {
    MorePicksExtend(space, candidates, [], k);
  }

  /** The candidates come back as they are if and only if there are no more than k of them. */
  lemma ShortListKeepsItsOrder<V>(space: Space<V>, candidates: seq<Hit>, k: nat)
    ensures Reranked(space, candidates, k) == candidates <==> |candidates| <= k
  {
    if |candidates| > k {
      RerankIsGreedy(space, candidates, k);
    }
  }

  /** So a short list is not sorted, and asking for fewer results can put another one first. */
  lemma ShortListIsNotSorted<V>(space: Space<V>, low: Hit, high: Hit)
    requires low.score < high.score
    ensures Reranked(space, [low, high], 2) == [low, high]
    ensures Reranked(space, [low, high], 1) == [high]
  {
    FirstIsMostRelevant(space, [low, high], 1);
    RerankIsGreedy(space, [low, high], 1);
    var r := Reranked(space, [low, high], 1);
    assert [low, high][1] == high && r[0] in multiset(r) && r[0] in multiset([low, high]);
  }
}
