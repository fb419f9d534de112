/** Reciprocal rank fusion and min-max normalisation of memem/retrieve.py. Scores are reals,
    and those of the channels are arbitrary. */
module RankFusion {
  type Id = string

  /** An item of a channel, with its place in the channel's dictionary. */
  datatype Item = Item(id: Id, score: real, place: nat)

  /** A channel's items in the order of its dictionary. */
  predicate Channel(c: seq<Item>) {
    forall i :: 0 <= i < |c| ==> c[i].place == i && forall j :: 0 <= j < i ==> c[j].id != c[i].id
  }

  // ---------------------------------------------------------------------------
  // Ranks
  // ---------------------------------------------------------------------------

  /** Descending score; the sort is stable, so ties keep the order of the dictionary. */
  predicate Before(x: Item, y: Item) { x.score > y.score || (x.score == y.score && x.place < y.place) }

  predicate Ranked(s: seq<Item>) { forall i, j :: 0 <= i < j < |s| ==> Before(s[i], s[j]) }

  function Insert(s: seq<Item>, x: Item): seq<Item> {
    if s == [] || Before(x, s[0]) then [x] + s else [s[0]] + Insert(s[1..], x)
  }

  function Sorted(c: seq<Item>): seq<Item> {
    if c == [] then [] else Insert(Sorted(c[..|c| - 1]), c[|c| - 1])
  }

  lemma {:induction false} InsertFacts(s: seq<Item>, x: Item)
    requires Ranked(s) && forall i :: 0 <= i < |s| ==> s[i].place != x.place
    ensures Ranked(Insert(s, x)) && |Insert(s, x)| == |s| + 1
    ensures forall y :: y in Insert(s, x) <==> y == x || y in s
  {
    if !(s == [] || Before(x, s[0])) {
      var rest := Insert(s[1..], x);
      InsertFacts(s[1..], x);
      forall i | 0 <= i < |rest| ensures Before(s[0], rest[i]) {
        assert rest[i] in rest;
        if rest[i] != x {
          var j :| 0 <= j < |s[1..]| && s[1..][j] == rest[i];
          assert Before(s[0], s[j + 1]);
        }
      }
    }
  }

  lemma {:induction false} SortedFacts(c: seq<Item>)
    requires Channel(c)
    ensures Ranked(Sorted(c)) && |Sorted(c)| == |c|
    ensures forall y :: y in Sorted(c) <==> y in c
  {
    if c != [] {
      var front, x := c[..|c| - 1], c[|c| - 1];
      SortedFacts(front);
      forall i | 0 <= i < |Sorted(front)| ensures Sorted(front)[i].place != x.place {
        assert Sorted(front)[i] in front;
      }
      InsertFacts(Sorted(front), x);
      assert c == front + [x];
    }
  }

  predicate Present(c: seq<Item>, id: Id) { exists i :: 0 <= i < |c| && c[i].id == id }

  /** One more than the number of items before an id; an absent id comes after all. */
  function Rank(s: seq<Item>, id: Id): nat {
    if s == [] || s[0].id == id then 1 else 1 + Rank(s[1..], id)
  }

  function RankIn(c: seq<Item>, id: Id): nat { Rank(Sorted(c), id) }

  lemma {:induction false} RankIsPlace(s: seq<Item>, i: nat)
    requires i < |s| && forall j :: 0 <= j < i ==> s[j].id != s[i].id
    ensures Rank(s, s[i].id) == i + 1
  {
    if i > 0 {
      assert s[1..][i - 1] == s[i];
      RankIsPlace(s[1..], i - 1);
    }
  }

  lemma {:induction false} RankOfAbsent(s: seq<Item>, id: Id)
    requires !Present(s, id)
    ensures Rank(s, id) == |s| + 1
  {
    if s != [] {
      assert s[0].id != id;
      forall i | 0 <= i < |s[1..]| ensures s[1..][i].id != id {
        assert s[1..][i] == s[i + 1];
      }
      RankOfAbsent(s[1..], id);
    }
  }

  lemma SortedIdsDiffer(c: seq<Item>, i: nat, j: nat)
    requires Channel(c) && i < j < |Sorted(c)|
    ensures Sorted(c)[i].id != Sorted(c)[j].id
  {
    SortedFacts(c);
    var s := Sorted(c);
    assert Before(s[i], s[j]) && s[i] in c && s[j] in c;
    var p: int :| 0 <= p < |c| && c[p] == s[i];
    var q: int :| 0 <= q < |c| && c[q] == s[j];
    assert p != q;
    assert p < q || q < p;
  }

  /** Place r in the sorted channel is held by exactly one id, and that id has rank r. */
  lemma RankAtPlace(c: seq<Item>, i: nat)
    requires Channel(c) && i < |c|
    ensures |Sorted(c)| == |c| && RankIn(c, Sorted(c)[i].id) == i + 1
  {
    SortedFacts(c);
    forall j: nat | 0 <= j < i ensures Sorted(c)[j].id != Sorted(c)[i].id {
      SortedIdsDiffer(c, j, i);
    }
    RankIsPlace(Sorted(c), i);
  }

  lemma PlaceOf(c: seq<Item>, x: Item) returns (i: nat)
    requires Channel(c) && x in c
    ensures |Sorted(c)| == |c| && i < |c| && Sorted(c)[i] == x && RankIn(c, x.id) == i + 1
  {
    SortedFacts(c);
    i :| 0 <= i < |Sorted(c)| && Sorted(c)[i] == x;
    RankAtPlace(c, i);
  }

  predicate Taken(c: seq<Item>, r: nat) { exists x :: x in c && RankIn(c, x.id) == r }

  /** The ranks of a channel are a bijection onto 1..n. */
  lemma RanksAreBijection(c: seq<Item>)
    requires Channel(c)
    ensures forall x :: x in c ==> 1 <= RankIn(c, x.id) <= |c|
    ensures forall x, y :: x in c && y in c && RankIn(c, x.id) == RankIn(c, y.id) ==> x == y
    ensures forall r: nat :: 1 <= r <= |c| ==> Taken(c, r)
  {
    forall x | x in c ensures 1 <= RankIn(c, x.id) <= |c| {
      var i := PlaceOf(c, x);
    }
    forall x, y | x in c && y in c && RankIn(c, x.id) == RankIn(c, y.id) ensures x == y {
      var i := PlaceOf(c, x);
      var j := PlaceOf(c, y);
    }
    forall r: nat | 1 <= r <= |c| ensures Taken(c, r) {
      RankAtPlace(c, r - 1);
      SortedFacts(c);
      assert Sorted(c)[r - 1] in c;
    }
  }

  /** Better rank means higher score, or the same score and an earlier place; an absent id
      ranks below every present one. */
  lemma RankMeaning(c: seq<Item>, x: Item, y: Item)
    requires Channel(c) && x in c && y in c
    ensures RankIn(c, x.id) < RankIn(c, y.id) <==> Before(x, y)
  {
    var i := PlaceOf(c, x);
    var j := PlaceOf(c, y);
    SortedFacts(c);
  }

  lemma AbsentRanksLast(c: seq<Item>, id: Id, x: Item)
    requires Channel(c) && x in c && !Present(c, id)
    ensures RankIn(c, id) == |c| + 1 && RankIn(c, x.id) < RankIn(c, id)
  {
    SortedFacts(c);
    forall i | 0 <= i < |Sorted(c)| ensures Sorted(c)[i].id != id {
      assert Sorted(c)[i] in c;
    }
    RankOfAbsent(Sorted(c), id);
    RanksAreBijection(c);
  }

  // ---------------------------------------------------------------------------
  // Fusion
  // ---------------------------------------------------------------------------

  const K := 60

  function Share(rank: nat): real { 1.0 / (K + rank) as real }

  /** The full-text channel counts only when it is not empty. */
  function Score(cosine: seq<Item>, bm25: seq<Item>, fts: seq<Item>, id: Id): real {
    Share(RankIn(cosine, id)) + Share(RankIn(bm25, id)) + if fts == [] then 0.0 else Share(RankIn(fts, id))
  }

  function Ids(c: seq<Item>): set<Id> { set x | x in c :: x.id }

  function Fused(cosine: seq<Item>, bm25: seq<Item>, fts: seq<Item>): map<Id, real> {
    map id | id in Ids(cosine) + Ids(bm25) + Ids(fts) :: Score(cosine, bm25, fts, id)
  }

  ghost predicate RankTable(c: seq<Item>, ranks: map<Id, nat>) {
    && (forall x :: x in c ==> x.id in ranks)
    && forall id :: id in ranks ==> Present(c, id) && ranks[id] == RankIn(c, id)
  }

  method RanksOf(c: seq<Item>) returns (ranks: map<Id, nat>)
    requires Channel(c)
    ensures RankTable(c, ranks)
  {
    ranks := map[];
    var s := Sorted(c);
    SortedFacts(c);
    for i := 0 to |s|
      invariant forall j :: 0 <= j < i ==> s[j].id in ranks
      invariant forall id :: id in ranks ==> Present(c, id) && ranks[id] == RankIn(c, id)
    {
      RankAtPlace(c, i);
      assert s[i] in c;
      ranks := ranks[s[i].id := i + 1];
    }
    forall x | x in c ensures x.id in ranks {
      assert x in s;
    }
  }

  lemma LookUp(c: seq<Item>, ranks: map<Id, nat>, id: Id)
    requires Channel(c) && RankTable(c, ranks)
    ensures id in ranks <==> id in Ids(c)
    ensures (if id in ranks then ranks[id] else |c| + 1) == RankIn(c, id)
  {
    MissingRank(c, id);
  }

  lemma KeysAreIds(c: seq<Item>, ranks: map<Id, nat>)
    requires RankTable(c, ranks)
    ensures ranks.Keys == Ids(c) && (ranks.Keys == {} <==> c == [])
  {
    if c != [] {
      assert c[0].id in ranks.Keys;
    }
  }

  method FuseOne(cosine: seq<Item>, bm25: seq<Item>, fts: seq<Item>, id: Id,
                 cosineRanks: map<Id, nat>, bm25Ranks: map<Id, nat>, ftsRanks: map<Id, nat>)
    returns (score: real)
    requires Channel(cosine) && Channel(bm25) && Channel(fts)
    requires RankTable(cosine, cosineRanks) && RankTable(bm25, bm25Ranks) && RankTable(fts, ftsRanks)
    requires ftsRanks.Keys == {} <==> fts == []
    ensures score == Score(cosine, bm25, fts, id)
  {
    LookUp(cosine, cosineRanks, id);
    LookUp(bm25, bm25Ranks, id);
    LookUp(fts, ftsRanks, id);
    var c := if id in cosineRanks then cosineRanks[id] else |cosine| + 1;
    var b := if id in bm25Ranks then bm25Ranks[id] else |bm25| + 1;
    score := Share(c) + Share(b);
    if ftsRanks.Keys != {} {
      var f := if id in ftsRanks then ftsRanks[id] else |fts| + 1;
      score := score + Share(f);
    }
  }

  method RrfFusion(cosine: seq<Item>, bm25: seq<Item>, fts: seq<Item>) returns (out: map<Id, real>)
    requires Channel(cosine) && Channel(bm25) && Channel(fts)
    ensures out == Fused(cosine, bm25, fts)
  {
    var cosineRanks := RanksOf(cosine);
    var bm25Ranks := RanksOf(bm25);
    var ftsRanks := RanksOf(fts);
    var allIds := cosineRanks.Keys + bm25Ranks.Keys + ftsRanks.Keys;
    KeysAreIds(cosine, cosineRanks);
    KeysAreIds(bm25, bm25Ranks);
    KeysAreIds(fts, ftsRanks);
    out := FuseAll(cosine, bm25, fts, allIds, cosineRanks, bm25Ranks, ftsRanks);
    FusedIs(cosine, bm25, fts, out);
  }

  method FuseAll(cosine: seq<Item>, bm25: seq<Item>, fts: seq<Item>, allIds: set<Id>,
                 cosineRanks: map<Id, nat>, bm25Ranks: map<Id, nat>, ftsRanks: map<Id, nat>)
    returns (out: map<Id, real>)
    requires Channel(cosine) && Channel(bm25) && Channel(fts)
    requires RankTable(cosine, cosineRanks) && RankTable(bm25, bm25Ranks) && RankTable(fts, ftsRanks)
    requires ftsRanks.Keys == {} <==> fts == []
    ensures out.Keys == allIds
    ensures forall id :: id in out ==> out[id] == Score(cosine, bm25, fts, id)
  {
    out := map[];
    var left := allIds;
    while left != {}
      invariant left <= allIds && out.Keys == allIds - left
      invariant forall id :: id in out ==> out[id] == Score(cosine, bm25, fts, id)
      decreases left
    {
      var id :| id in left;
      var score := FuseOne(cosine, bm25, fts, id, cosineRanks, bm25Ranks, ftsRanks);
      out := out[id := score];
      left := left - {id};
    }
  }

  lemma FusedIs(cosine: seq<Item>, bm25: seq<Item>, fts: seq<Item>, out: map<Id, real>)
    requires out.Keys == Ids(cosine) + Ids(bm25) + Ids(fts)
    requires forall id :: id in out ==> out[id] == Score(cosine, bm25, fts, id)
    ensures out == Fused(cosine, bm25, fts)
  {
  }

  lemma MissingRank(c: seq<Item>, id: Id)
    requires Channel(c)
    ensures id !in Ids(c) ==> RankIn(c, id) == |c| + 1
    ensures RankIn(c, id) >= 1
  {
    SortedFacts(c);
    if id !in Ids(c) {
      forall i | 0 <= i < |Sorted(c)| ensures Sorted(c)[i].id != id {
        assert Sorted(c)[i] in c;
      }
      RankOfAbsent(Sorted(c), id);
    }
  }

  lemma MulOrder(p: real, q: real, d: real)
    requires d > 0.0
    ensures p < q <==> p * d < q * d
  {
    if p < q {
      assert (q - p) * d > 0.0;
    } else {
      assert (p - q) * d >= 0.0;
    }
  }

  lemma Reciprocals(p: real, q: real, x: real, y: real)
    requires 0.0 < x < y && p * x == 1.0 && q * y == 1.0
    ensures p > q
  {
    MulOrder(0.0, q, y);
    MulOrder(x, y, q);
    MulOrder(q, p, x);
    assert q * x < q * y;
  }

  lemma ShareFalls(a: nat, b: nat)
    requires a < b
    ensures Share(a) > Share(b)
  {
    var x, y := (K + a) as real, (K + b) as real;
    Reciprocals(Share(a), Share(b), x, y);
  }

  lemma ShareBound(a: nat)
    requires a >= 1
    ensures 0.0 < Share(a) <= 1.0 / 61.0
  {
    if a > 1 {
      ShareFalls(1, a);
    }
  }

  /** Ranked no worse in every channel that counts, and better in one. */
  predicate Dominates(cosine: seq<Item>, bm25: seq<Item>, fts: seq<Item>, a: Id, b: Id) {
    && RankIn(cosine, a) <= RankIn(cosine, b)
    && RankIn(bm25, a) <= RankIn(bm25, b)
    && (fts != [] ==> RankIn(fts, a) <= RankIn(fts, b))
    && (|| RankIn(cosine, a) < RankIn(cosine, b)
        || RankIn(bm25, a) < RankIn(bm25, b)
        || (fts != [] && RankIn(fts, a) < RankIn(fts, b)))
  }

  lemma FusionRespectsDominance(cosine: seq<Item>, bm25: seq<Item>, fts: seq<Item>, a: Id, b: Id)
    requires Dominates(cosine, bm25, fts, a, b)
    ensures Score(cosine, bm25, fts, a) > Score(cosine, bm25, fts, b)
  {
    if RankIn(cosine, a) < RankIn(cosine, b) {
      ShareFalls(RankIn(cosine, a), RankIn(cosine, b));
    }
    if RankIn(bm25, a) < RankIn(bm25, b) {
      ShareFalls(RankIn(bm25, a), RankIn(bm25, b));
    }
    if RankIn(fts, a) < RankIn(fts, b) {
      ShareFalls(RankIn(fts, a), RankIn(fts, b));
    }
  }

  lemma {:induction false} FusedScoresAreBounded(cosine: seq<Item>, bm25: seq<Item>, fts: seq<Item>, id: Id)
    requires Channel(cosine) && Channel(bm25) && Channel(fts)
    ensures 0.0 < Score(cosine, bm25, fts, id) <= if fts == [] then 2.0 / 61.0 else 3.0 / 61.0
  {
    MissingRank(cosine, id);
    MissingRank(bm25, id);
    MissingRank(fts, id);
    ShareBound(RankIn(cosine, id));
    ShareBound(RankIn(bm25, id));
    ShareBound(RankIn(fts, id));
  }

  /** Before every other item of its channel. */
  predicate First(c: seq<Item>, id: Id) {
    exists i :: 0 <= i < |c| && c[i].id == id && forall j :: 0 <= j < |c| && j != i ==> Before(c[i], c[j])
  }

  lemma FirstRanksFirst(c: seq<Item>, id: Id)
    requires Channel(c) && First(c, id)
    ensures RankIn(c, id) == 1
  {
    var i :| 0 <= i < |c| && c[i].id == id && forall j :: 0 <= j < |c| && j != i ==> Before(c[i], c[j]);
    var top := Sorted(c)[0];
    RankAtPlace(c, 0);
    SortedFacts(c);
    assert top in c && c[i] in c;
    var j: int :| 0 <= j < |c| && c[j] == top;
    RankMeaning(c, top, c[i]);
  }

  lemma RankOneIsFirst(c: seq<Item>, id: Id)
    requires Channel(c) && Present(c, id) && RankIn(c, id) == 1
    ensures First(c, id)
  {
    var i :| 0 <= i < |c| && c[i].id == id;
    RanksAreBijection(c);
    forall j | 0 <= j < |c| && j != i ensures Before(c[i], c[j]) {
      assert c[i] in c && c[j] in c;
      RankMeaning(c, c[i], c[j]);
    }
  }

  lemma FirstHasRankOne(c: seq<Item>, id: Id)
    requires Channel(c)
    ensures RankIn(c, id) == 1 <==> c == [] || First(c, id)
  {
    MissingRank(c, id);
    if First(c, id) {
      FirstRanksFirst(c, id);
    } else if Present(c, id) && RankIn(c, id) == 1 {
      RankOneIsFirst(c, id);
    }
    PresentIds(c, id);
  }

  /** Fused are the ids of some channel, each as the sum of 1 / (60 + rank) over the channels that
      count, and the score is the highest possible one exactly for an id that is before all
      others in each channel that has items. */
  lemma {:induction false} FusedExactly(cosine: seq<Item>, bm25: seq<Item>, fts: seq<Item>, id: Id)
    requires Channel(cosine) && Channel(bm25) && Channel(fts)
    ensures var fused, c, b, f := Fused(cosine, bm25, fts), RankIn(cosine, id), RankIn(bm25, id), RankIn(fts, id);
            && (id in fused <==> Present(cosine, id) || Present(bm25, id) || Present(fts, id))
            && (id in fused ==>
                  && (fts == [] ==> fused[id] == 1.0 / (60 + c) as real + 1.0 / (60 + b) as real)
                  && (fts != [] ==>
                        fused[id] == 1.0 / (60 + c) as real + 1.0 / (60 + b) as real + 1.0 / (60 + f) as real)
                  && (fused[id] == (if fts == [] then 2.0 / 61.0 else 3.0 / 61.0) <==>
                      && (cosine == [] || First(cosine, id)) && (bm25 == [] || First(bm25, id))
                      && (fts == [] || First(fts, id))))
  {
    FirstHasRankOne(cosine, id);
    FirstHasRankOne(bm25, id);
    FirstHasRankOne(fts, id);
    ShareOfFirst(cosine, id);
    ShareOfFirst(bm25, id);
    ShareOfFirst(fts, id);
    PresentIds(cosine, id);
    PresentIds(bm25, id);
    PresentIds(fts, id);
  }

  lemma PresentIds(c: seq<Item>, id: Id)
    ensures Present(c, id) <==> id in Ids(c)
  {
    if Present(c, id) {
      var i :| 0 <= i < |c| && c[i].id == id;
      assert c[i] in c;
    }
  }

  lemma ShareOfFirst(c: seq<Item>, id: Id)
    requires Channel(c)
    ensures Share(RankIn(c, id)) <= 1.0 / 61.0
    ensures Share(RankIn(c, id)) == 1.0 / 61.0 <==> RankIn(c, id) == 1
  {
    MissingRank(c, id);
    if RankIn(c, id) > 1 {
      ShareFalls(1, RankIn(c, id));
    }
  }

  // ---------------------------------------------------------------------------
  // Normalisation
  // ---------------------------------------------------------------------------

  function Min(s: seq<real>): real
    requires s != []
  {
    if |s| == 1 || s[|s| - 1] < Min(s[..|s| - 1]) then s[|s| - 1] else Min(s[..|s| - 1])
  }

  function Max(s: seq<real>): real
    requires s != []
  {
    if |s| == 1 || s[|s| - 1] > Max(s[..|s| - 1]) then s[|s| - 1] else Max(s[..|s| - 1])
  }

  lemma {:induction false} MinMaxFacts(s: seq<real>)
    requires s != []
    ensures Min(s) in s && Max(s) in s && forall i :: 0 <= i < |s| ==> Min(s) <= s[i] <= Max(s)
  {
    if |s| > 1 {
      var front := s[..|s| - 1];
      MinMaxFacts(front);
      assert forall i :: 0 <= i < |front| ==> s[i] == front[i];
    }
  }

  function Normal(x: real, low: real, high: real): real {
    if high > low then (x - low) / (high - low) else 1.0
  }

  function Normalized(s: seq<real>): (r: seq<real>)
    ensures |r| == |s|
  {
    if s == [] then [] else seq(|s|, i requires 0 <= i < |s| => Normal(s[i], Min(s), Max(s)))
  }

  method Normalize(scores: array<real>)
    modifies scores
    ensures scores[..] == Normalized(old(scores[..]))
  {
    if scores.Length == 0 {
      return;
    }
    ghost var was := scores[..];
    var low, high := scores[0], scores[0];
    assert was[..1] == [was[0]];
    for i := 1 to scores.Length
      invariant scores[..] == was && low == Min(was[..i]) && high == Max(was[..i])
    {
      assert was[..i + 1][..i] == was[..i];
      low := if scores[i] < low then scores[i] else low;
      high := if scores[i] > high then scores[i] else high;
    }
    assert was[..|was|] == was;
    for i := 0 to scores.Length
      invariant forall j :: 0 <= j < scores.Length ==> scores[j] == if j < i then Normal(was[j], low, high) else was[j]
    {
      scores[i] := if high > low then (scores[i] - low) / (high - low) else 1.0;
    }
  }

  lemma QuotientOrder(a: real, b: real, d: real)
    requires d > 0.0
    ensures a < b <==> a / d < b / d
  {
    var p, q := a / d, b / d;
    assert p * d == a && q * d == b;
    MulOrder(p, q, d);
  }

  lemma RatioRange(a: real, d: real)
    requires 0.0 <= a <= d && d > 0.0
    ensures 0.0 <= a / d <= 1.0 && d / d == 1.0 && 0.0 / d == 0.0
  {
    var p := a / d;
    assert p * d == a;
    MulOrder(p, 0.0, d);
    MulOrder(1.0, p, d);
  }

  lemma NormalFacts(x: real, y: real, low: real, high: real)
    requires low <= x <= high && low <= y <= high
    ensures 0.0 <= Normal(x, low, high) <= 1.0
    ensures x < y <==> Normal(x, low, high) < Normal(y, low, high)
    ensures Normal(high, low, high) == 1.0 && (low < high ==> Normal(low, low, high) == 0.0)
  {
    if high > low {
      RatioRange(x - low, high - low);
      QuotientOrder(x - low, y - low, high - low);
    }
  }

  /** Normalisation maps the pool into [0, 1], keeps the strict order both ways and takes the
      top to 1 and the bottom to 0; only a pool of equal scores becomes all 1. */
  lemma NormalizedFacts(s: seq<real>, i: nat, j: nat)
    requires i < |s| && j < |s|
    ensures 0.0 <= Normalized(s)[i] <= 1.0
    ensures s[i] < s[j] <==> Normalized(s)[i] < Normalized(s)[j]
    ensures s[i] == Max(s) ==> Normalized(s)[i] == 1.0
    ensures s[i] == Min(s) && Min(s) < Max(s) ==> Normalized(s)[i] == 0.0
  {
    MinMaxFacts(s);
    NormalFacts(s[i], s[j], Min(s), Max(s));
  }

  /** Dominance survives fusion and normalisation of any pool. */
  lemma {:induction false} DominanceSurvives(
      cosine: seq<Item>, bm25: seq<Item>, fts: seq<Item>, pool: seq<Id>, i: nat, j: nat)
    requires i < |pool| && j < |pool| && Dominates(cosine, bm25, fts, pool[i], pool[j])
    ensures var s := seq(|pool|, n requires 0 <= n < |pool| => Score(cosine, bm25, fts, pool[n]));
            Normalized(s)[i] > Normalized(s)[j]
  {
    var s := seq(|pool|, n requires 0 <= n < |pool| => Score(cosine, bm25, fts, pool[n]));
    FusionRespectsDominance(cosine, bm25, fts, pool[i], pool[j]);
    NormalizedFacts(s, j, i);
  }
}
