/** The two greedy clustering loops of memem/dreamer.py: `find_cluster_summaries` marks what it
    has tried, `find_cluster_merge_proposals` what it has assigned. Similarity is arbitrary. */
module DreamClusters {
  // ---------------------------------------------------------------------------
  // The greedy clusters
  // ---------------------------------------------------------------------------

  /** The free indices from `j` on that are similar to the seed, in order. */
  function Followers(similar: (nat, nat) -> bool, n: nat, seed: nat, j: nat, taken: set<nat>): seq<nat>
    decreases n - j
  {
    if j >= n then []
    else if j !in taken && similar(seed, j) then [j] + Followers(similar, n, seed, j + 1, taken)
    else Followers(similar, n, seed, j + 1, taken)
  }

  function ClusterOf(similar: (nat, nat) -> bool, n: nat, i: nat, taken: set<nat>): seq<nat> {
    [i] + Followers(similar, n, i, i + 1, taken)
  }

  function Members(c: seq<nat>): set<nat> { set j | j in c }

  function Greedy(similar: (nat, nat) -> bool, n: nat, min: nat, i: nat, taken: set<nat>): seq<seq<nat>>
    decreases n - i
  {
    if i >= n then []
    else if i in taken then Greedy(similar, n, min, i + 1, taken)
    else
      var c := ClusterOf(similar, n, i, taken);
      if |c| < min then Greedy(similar, n, min, i + 1, taken)
      else [c] + Greedy(similar, n, min, i + 1, taken + Members(c))
  }

  lemma {:induction false} FollowersMeaning(
      similar: (nat, nat) -> bool, n: nat, seed: nat, j: nat, taken: set<nat>, x: nat)
    ensures x in Followers(similar, n, seed, j, taken) <==> j <= x < n && x !in taken && similar(seed, x)
    decreases n - j
  {
    if j < n {
      FollowersMeaning(similar, n, seed, j + 1, taken, x);
    }
  }

  lemma GreedyStep(similar: (nat, nat) -> bool, n: nat, min: nat, i: nat, taken: set<nat>, clusters: seq<seq<nat>>)
    requires i < n
    ensures var c := ClusterOf(similar, n, i, taken);
            clusters + Greedy(similar, n, min, i, taken) ==
              if i in taken || |c| < min then clusters + Greedy(similar, n, min, i + 1, taken)
              else clusters + [c] + Greedy(similar, n, min, i + 1, taken + Members(c))
  {
    var c := ClusterOf(similar, n, i, taken);
    var rest := Greedy(similar, n, min, i + 1, taken + Members(c));
    assert clusters + ([c] + rest) == clusters + [c] + rest;
  }

  method MergeCluster(similar: (nat, nat) -> bool, inCluster: array<bool>, i: nat, ghost taken: set<nat>)
    returns (cluster: seq<nat>)
    requires i < inCluster.Length
    requires forall k :: 0 <= k < inCluster.Length ==> (inCluster[k] <==> k in taken)
    ensures cluster == ClusterOf(similar, inCluster.Length, i, taken)
  {
    var n := inCluster.Length;
    cluster := [i];
    for j := i + 1 to n
      invariant cluster + Followers(similar, n, i, j, taken) == ClusterOf(similar, n, i, taken)
    {
      if !inCluster[j] && similar(i, j) {
        cluster := cluster + [j];
      }
    }
  }

  method MergeClusters(similar: (nat, nat) -> bool, n: nat, min: nat) returns (clusters: seq<seq<nat>>)
    ensures clusters == Greedy(similar, n, min, 0, {})
  {
    clusters := [];
    var inCluster := new bool[n](_ => false);
    ghost var taken: set<nat> := {};
    for i := 0 to n
      invariant forall k :: 0 <= k < n ==> (inCluster[k] <==> k in taken)
      invariant clusters + Greedy(similar, n, min, i, taken) == Greedy(similar, n, min, 0, {})
    {
      GreedyStep(similar, n, min, i, taken, clusters);
      if !inCluster[i] {
        var cluster := MergeCluster(similar, inCluster, i, taken);
        if |cluster| >= min {
          ClusterBounds(similar, n, i, taken);
          MarkAll(inCluster, cluster);
          taken := taken + Members(cluster);
          clusters := clusters + [cluster];
        }
      }
    }
  }

  method SummaryCluster(similar: (nat, nat) -> bool, tried: array<bool>, i: nat, ghost taken: set<nat>)
    returns (cluster: seq<nat>)
    requires i < tried.Length
    requires forall k :: 0 <= k < tried.Length ==> (tried[k] <==> k in taken || k <= i)
    ensures cluster == ClusterOf(similar, tried.Length, i, taken)
  {
    var n := tried.Length;
    cluster := [i];
    for j := 0 to n
      invariant cluster + Followers(similar, n, i, if j <= i then i + 1 else j, taken)
             == ClusterOf(similar, n, i, taken)
    {
      if j != i && !tried[j] && similar(i, j) {
        cluster := cluster + [j];
      }
    }
  }

  method SummaryClusters(similar: (nat, nat) -> bool, n: nat, min: nat) returns (clusters: seq<seq<nat>>)
    ensures clusters == Greedy(similar, n, min, 0, {})
  {
    clusters := [];
    var tried := new bool[n](_ => false);
    ghost var taken: set<nat> := {};
    for i := 0 to n
      invariant forall k :: 0 <= k < n ==> (tried[k] <==> k in taken || k < i)
      invariant clusters + Greedy(similar, n, min, i, taken) == Greedy(similar, n, min, 0, {})
    {
      GreedyStep(similar, n, min, i, taken, clusters);
      if !tried[i] {
        tried[i] := true;
        var cluster := SummaryCluster(similar, tried, i, taken);
        if |cluster| >= min {
          ClusterBounds(similar, n, i, taken);
          MarkAll(tried, cluster);
          taken := taken + Members(cluster);
          clusters := clusters + [cluster];
        }
      }
    }
  }

  lemma ClusterBounds(similar: (nat, nat) -> bool, n: nat, i: nat, taken: set<nat>)
    requires i < n
    ensures var c := ClusterOf(similar, n, i, taken); forall m :: 0 <= m < |c| ==> c[m] < n
  {
    var c := ClusterOf(similar, n, i, taken);
    forall m | 0 <= m < |c| ensures c[m] < n {
      if m > 0 {
        assert c[m] in Followers(similar, n, i, i + 1, taken);
        FollowersMeaning(similar, n, i, i + 1, taken, c[m]);
      }
    }
  }

  method MarkAll(flags: array<bool>, cluster: seq<nat>)
    requires forall m :: 0 <= m < |cluster| ==> cluster[m] < flags.Length
    modifies flags
    ensures forall k: nat :: k < flags.Length ==> (flags[k] <==> old(flags[k]) || k in cluster)
  {
    for m := 0 to |cluster|
      invariant forall k: nat :: k < flags.Length ==> (flags[k] <==> old(flags[k]) || k in cluster[..m])
    {
      flags[cluster[m]] := true;
      assert cluster[..m + 1] == cluster[..m] + [cluster[m]];
    }
    assert cluster[..|cluster|] == cluster;
  }

  // ---------------------------------------------------------------------------
  // What the clusters are
  // ---------------------------------------------------------------------------

  predicate Earlier(cs: seq<seq<nat>>, k: nat, x: nat)
    requires k <= |cs|
  {
    exists m :: 0 <= m < k && x in cs[m]
  }

  predicate Ascending(c: seq<nat>) { forall a, b :: 0 <= a < b < |c| ==> c[a] < c[b] }

  lemma ConsAscends(x: nat, c: seq<nat>)
    requires Ascending(c) && forall a :: 0 <= a < |c| ==> x < c[a]
    ensures Ascending([x] + c)
  {
  }

  lemma {:induction false} FollowersAscend(similar: (nat, nat) -> bool, n: nat, seed: nat, j: nat, taken: set<nat>)
    ensures var f := Followers(similar, n, seed, j, taken);
            Ascending(f) && forall a :: 0 <= a < |f| ==> j <= f[a]
    decreases n - j
  {
    if j < n {
      FollowersAscend(similar, n, seed, j + 1, taken);
      ConsAscends(j, Followers(similar, n, seed, j + 1, taken));
    }
  }

  /** Cluster k consists of its seed and of exactly the later indices similar to the seed that
      were still free, in ascending order. */
  ghost predicate ClusterIs(similar: (nat, nat) -> bool, n: nat, min: nat, from: nat, taken: set<nat>,
                            cs: seq<seq<nat>>, k: nat)
    requires k < |cs|
  {
    && cs[k] != [] && |cs[k]| >= min && Ascending(cs[k])
    && from <= cs[k][0] < n && cs[k][0] !in taken && !Earlier(cs, k, cs[k][0])
    && forall x: nat :: x in cs[k] <==>
         x == cs[k][0] || (cs[k][0] < x < n && similar(cs[k][0], x) && x !in taken && !Earlier(cs, k, x))
  }

  lemma EarlierCons(c: seq<nat>, rest: seq<seq<nat>>, k: nat, x: nat)
    requires 0 < k <= |rest| + 1
    ensures Earlier([c] + rest, k, x) <==> x in c || Earlier(rest, k - 1, x)
  {
    var cs := [c] + rest;
    if m: int :| 0 <= m < k && x in cs[m] {
      assert m > 0 ==> x in rest[m - 1];
    }
    if m: int :| 0 <= m < k - 1 && x in rest[m] {
      assert x in cs[m + 1];
    }
    if x in c {
      assert x in cs[0];
    }
  }

  lemma {:induction false} GreedyMeaning(similar: (nat, nat) -> bool, n: nat, min: nat, i: nat, taken: set<nat>, k: nat)
    requires k < |Greedy(similar, n, min, i, taken)|
    ensures ClusterIs(similar, n, min, i, taken, Greedy(similar, n, min, i, taken), k)
    decreases n - i
  {
    var c := ClusterOf(similar, n, i, taken);
    if i in taken || |c| < min {
      GreedyMeaning(similar, n, min, i + 1, taken, k);
    } else {
      var rest := Greedy(similar, n, min, i + 1, taken + Members(c));
      var cs := [c] + rest;
      if k == 0 {
        FollowersAscend(similar, n, i, i + 1, taken);
        ConsAscends(i, Followers(similar, n, i, i + 1, taken));
        forall x: nat ensures x in c <==> x == i || (i < x < n && similar(i, x) && x !in taken) {
          FollowersMeaning(similar, n, i, i + 1, taken, x);
        }
      } else {
        GreedyMeaning(similar, n, min, i + 1, taken + Members(c), k - 1);
        assert cs[k] == rest[k - 1];
        forall x ensures Earlier(cs, k, x) <==> x in c || Earlier(rest, k - 1, x) {
          EarlierCons(c, rest, k, x);
        }
      }
    }
  }

  /** The free indices after x that are similar to it, once the first k clusters are taken. */
  function Company(similar: (nat, nat) -> bool, n: nat, taken: set<nat>, cs: seq<seq<nat>>, k: nat, x: nat): set<nat>
    requires k <= |cs|
  {
    set y: nat | x < y < n && similar(x, y) && y !in taken && !Earlier(cs, k, y)
  }

  /** The first k clusters have seeds before x, and the others after it. */
  predicate SplitAt(cs: seq<seq<nat>>, k: nat, x: nat) {
    k <= |cs| && forall m :: 0 <= m < |cs| ==> cs[m] != [] && if m < k then cs[m][0] < x else cs[m][0] > x
  }

  lemma SplitCons(c: seq<nat>, rest: seq<seq<nat>>, j: nat, x: nat)
    requires c != [] && c[0] < x && SplitAt(rest, j, x)
    ensures SplitAt([c] + rest, j + 1, x)
  {
  }

  lemma SeedIsTaken(similar: (nat, nat) -> bool, n: nat, min: nat, i: nat, taken: set<nat>)
    requires i < n && i !in taken && |ClusterOf(similar, n, i, taken)| >= min
    ensures var cs := Greedy(similar, n, min, i, taken); Earlier(cs, |cs|, i)
  {
    assert i in Greedy(similar, n, min, i, taken)[0];
  }

  /** An index that is left over was tried after the clusters with smaller seeds and before the
      others, and had too little company. */
  lemma {:induction false} LeftOver(similar: (nat, nat) -> bool, n: nat, min: nat, i: nat, taken: set<nat>, x: nat)
    returns (k: nat)
    requires i <= x < n && x !in taken
    requires var cs := Greedy(similar, n, min, i, taken); !Earlier(cs, |cs|, x)
    ensures var cs := Greedy(similar, n, min, i, taken);
            SplitAt(cs, k, x) && |Company(similar, n, taken, cs, k, x)| + 1 < min
    decreases n - i
  {
    var c := ClusterOf(similar, n, i, taken);
    var cs := Greedy(similar, n, min, i, taken);
    if x == i {
      k := 0;
      if |c| >= min {
        SeedIsTaken(similar, n, min, i, taken);
      }
      assert cs == Greedy(similar, n, min, i + 1, taken);
      LaterSeeds(similar, n, min, i + 1, taken, x);
      CompanyIsFollowers(similar, n, i, taken, cs);
    } else if i in taken || |c| < min {
      assert cs == Greedy(similar, n, min, i + 1, taken);
      k := LeftOver(similar, n, min, i + 1, taken, x);
    } else {
      var rest := Greedy(similar, n, min, i + 1, taken + Members(c));
      assert cs == [c] + rest;
      EarlierCons(c, rest, |cs|, x);
      var j := LeftOver(similar, n, min, i + 1, taken + Members(c), x);
      k := j + 1;
      SplitCons(c, rest, j, x);
      SameCompany(similar, n, taken, c, rest, j, x);
    }
  }

  lemma SameCompany(similar: (nat, nat) -> bool, n: nat, taken: set<nat>, c: seq<nat>, rest: seq<seq<nat>>, j: nat,
                    x: nat)
    requires j <= |rest|
    ensures Company(similar, n, taken, [c] + rest, j + 1, x) == Company(similar, n, taken + Members(c), rest, j, x)
  {
    forall y: nat ensures Earlier([c] + rest, j + 1, y) <==> y in c || Earlier(rest, j, y) {
      EarlierCons(c, rest, j + 1, y);
    }
  }

  lemma LaterSeeds(similar: (nat, nat) -> bool, n: nat, min: nat, i: nat, taken: set<nat>, x: nat)
    requires x < i
    ensures SplitAt(Greedy(similar, n, min, i, taken), 0, x)
  {
    var cs := Greedy(similar, n, min, i, taken);
    forall m | 0 <= m < |cs| ensures cs[m] != [] && x < cs[m][0] {
      GreedyMeaning(similar, n, min, i, taken, m);
    }
  }

  lemma CompanyIsFollowers(similar: (nat, nat) -> bool, n: nat, x: nat, taken: set<nat>, cs: seq<seq<nat>>)
    ensures |Company(similar, n, taken, cs, 0, x)| <= |Followers(similar, n, x, x + 1, taken)|
  {
    var f := Followers(similar, n, x, x + 1, taken);
    forall y ensures y in Company(similar, n, taken, cs, 0, x) <==> y in Members(f) {
      if y >= 0 {
        FollowersMeaning(similar, n, x, x + 1, taken, y);
      }
    }
    assert Company(similar, n, taken, cs, 0, x) == Members(f);
    MembersBound(f);
  }

  lemma {:induction false} MembersBound(c: seq<nat>)
    ensures |Members(c)| <= |c|
  {
    if c != [] {
      MembersBound(c[1..]);
      assert Members(c) == {c[0]} + Members(c[1..]);
    }
  }

  /** No index is in two clusters. */
  lemma ClustersAreDisjoint(similar: (nat, nat) -> bool, n: nat, min: nat, k: nat, m: nat, x: nat)
    requires k < m < |Greedy(similar, n, min, 0, {})| && x in Greedy(similar, n, min, 0, {})[m]
    ensures x !in Greedy(similar, n, min, 0, {})[k]
  {
    GreedyMeaning(similar, n, min, 0, {}, m);
  }
}
