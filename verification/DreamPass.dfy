/** The dream pass of memem/dreamer.py: finders over a vault snapshot, and `apply_diff`. The
    replies, the similarity of memories, their strength and their citations are arbitrary. */
module DreamPass {
  import opened Memories
  import opened PyStrings
  import opened Wrappers
  import opened DreamClusters
  import opened StoredText

  // ---------------------------------------------------------------------------
  // The diff
  // ---------------------------------------------------------------------------

  datatype Demotion = Demotion(id: Id, layer: int)

  datatype Pair = Pair(a: Id, b: Id)

  datatype Verdict = Verdict(winner: Id, loser: Id)

  datatype Summary = Summary(ids: seq<Id>, pattern: string)

  datatype Merge = Merge(ids: seq<Id>, supporting: seq<string>, canonical: string)

  datatype Rewrite = Rewrite(id: Id, oldHash: int, essence: string)

  datatype Diff = Diff(
    demotions: seq<Demotion>,
    pairs: seq<Pair>,
    summaries: seq<Summary>,
    merges: seq<Merge>,
    insights: seq<string>,
    rewrites: seq<Rewrite>)

  /** An item of the rewrite reply that asks for a rewrite. */
  datatype RewriteItem = RewriteItem(index: int, essence: string)

  /** What the pass reads from outside. */
  datatype Env = Env(
    newId: set<Id> -> Id,
    makeable: string -> bool,
    threat: string -> bool,
    links: Linker,
    hash: string -> int,
    weak: Id -> bool,
    cited: Id -> bool,
    contradicts: Id -> seq<Id>,
    project: Id -> string,
    embedded: Id -> bool,
    consolidated: Id -> bool,
    similar: (Id, Id) -> bool,
    nearDuplicate: (Id, Id) -> bool,
    summarize: seq<Id> -> Option<string>,
    merge: seq<Id> -> Option<Merge>,
    judge: Pair -> Option<Verdict>,
    insights: seq<string>,
    rewritable: Id -> bool,
    rewriteItems: seq<RewriteItem>)

  // ---------------------------------------------------------------------------
  // Finders
  // ---------------------------------------------------------------------------

  predicate Snapshot(v: Vault, ids: seq<Id>) {
    (forall i :: 0 <= i < |ids| ==> ids[i] in v) && forall i, j :: 0 <= i < j < |ids| ==> ids[i] != ids[j]
  }

  predicate ShouldDemote(env: Env, id: Id, m: Mem) {
    !Protected(m) && env.weak(id) && m.layer < 3 && !env.cited(id)
  }

  method FindDemotions(env: Env, v: Vault, ids: seq<Id>) returns (found: seq<Demotion>)
    requires Snapshot(v, ids)
    ensures forall d :: d in found <==> d.id in ids && ShouldDemote(env, d.id, v[d.id]) && d.layer == v[d.id].layer + 1
  {
    found := [];
    for n := 0 to |ids|
      invariant forall d :: d in found <==>
                  d.id in ids[..n] && ShouldDemote(env, d.id, v[d.id]) && d.layer == v[d.id].layer + 1
    {
      assert ids[..n + 1] == ids[..n] + [ids[n]];
      var m := v[ids[n]];
      if !Protected(m) {
        if env.weak(ids[n]) && m.layer < 3 {
          if !env.cited(ids[n]) {
            found := found + [Demotion(ids[n], m.layer + 1)];
          }
        }
      }
    }
    assert ids[..|ids|] == ids;
  }

  predicate Unresolved(v: Vault, ids: seq<Id>, id: Id) { id in ids && id in v && !Protected(v[id]) && !v[id].invalid }

  method FindContradictions(env: Env, v: Vault, ids: seq<Id>) returns (found: seq<Pair>)
    requires Snapshot(v, ids)
    ensures forall p :: p in found <==>
              Unresolved(v, ids, p.a) && Unresolved(v, ids, p.b) && p.b in env.contradicts(p.a)
  {
    found := [];
    for n := 0 to |ids|
      invariant forall p :: p in found <==>
                  p.a in ids[..n] && Unresolved(v, ids, p.a) && Unresolved(v, ids, p.b) && p.b in env.contradicts(p.a)
    {
      assert ids[..n + 1] == ids[..n] + [ids[n]];
      ghost var before := found;
      var a := ids[n];
      if !Protected(v[a]) && !v[a].invalid {
        var others := env.contradicts(a);
        for m := 0 to |others|
          invariant forall p :: p in found <==>
                      p in before || (p.a == a && Unresolved(v, ids, p.b) && p.b in others[..m])
        {
          assert others[..m + 1] == others[..m] + [others[m]];
          var b := others[m];
          if b in ids && !Protected(v[b]) && !v[b].invalid {
            found := found + [Pair(a, b)];
          }
        }
        assert others[..|others|] == others;
      }
    }
    assert ids[..|ids|] == ids;
  }

  /** The members of one project that a clustering loop looks at. */
  function Group(env: Env, v: Vault, ids: seq<Id>, project: string, merging: bool): (g: seq<Id>)
    requires Snapshot(v, ids)
  {
    if ids == [] then []
    else
      var rest := Group(env, v, ids[1..], project, merging);
      if Grouped(env, v, ids[0], project, merging) then [ids[0]] + rest else rest
  }

  predicate Grouped(env: Env, v: Vault, id: Id, project: string, merging: bool)
    requires id in v
  {
    && !Protected(v[id]) && env.project(id) == project
    && if merging then !env.consolidated(id) && !v[id].invalid else env.embedded(id)
  }

  const CLUSTER_MIN_SIZE := 5
  const CLUSTER_MERGE_MIN_SIZE := 2

  function At(g: seq<Id>, i: nat): Id { if i < |g| then g[i] else "" }

  function Pick(g: seq<Id>, c: seq<nat>): (ids: seq<Id>)
    ensures |ids| == |c|
  {
    seq(|c|, i requires 0 <= i < |c| => At(g, c[i]))
  }

  function PickAll(g: seq<Id>, cs: seq<seq<nat>>): (cls: seq<seq<Id>>)
    ensures |cls| == |cs|
  {
    seq(|cs|, i requires 0 <= i < |cs| => Pick(g, cs[i]))
  }

  function Clusters(env: Env, v: Vault, ids: seq<Id>, projects: seq<string>, merging: bool): seq<seq<Id>>
    requires Snapshot(v, ids)
  {
    if projects == [] then []
    else ProjectClusters(env, v, ids, projects[0], merging) + Clusters(env, v, ids, projects[1..], merging)
  }

  lemma {:induction false} GroupMeaning(env: Env, v: Vault, ids: seq<Id>, project: string, merging: bool, x: Id)
    requires Snapshot(v, ids)
    ensures x in Group(env, v, ids, project, merging) <==> x in ids && Grouped(env, v, x, project, merging)
  {
    if ids != [] {
      var tail := ids[1..];
      assert x in ids <==> x == ids[0] || x in tail;
      GroupMeaning(env, v, tail, project, merging, x);
    }
  }

  lemma {:induction false} GroupDistinct(
      env: Env, v: Vault, ids: seq<Id>, project: string, merging: bool, i: nat, j: nat)
    requires Snapshot(v, ids) && i < j < |Group(env, v, ids, project, merging)|
    ensures Group(env, v, ids, project, merging)[i] != Group(env, v, ids, project, merging)[j]
  {
    var tail, g := ids[1..], Group(env, v, ids, project, merging);
    var rest := Group(env, v, tail, project, merging);
    if g == rest {
      GroupDistinct(env, v, tail, project, merging, i, j);
    } else if i > 0 {
      GroupDistinct(env, v, tail, project, merging, i - 1, j - 1);
    } else {
      assert rest[j - 1] in rest;
      GroupMeaning(env, v, tail, project, merging, rest[j - 1]);
      var k: int :| 0 <= k < |tail| && tail[k] == rest[j - 1];
      assert ids[k + 1] != ids[0];
    }
  }

  function Closeness(env: Env, g: seq<Id>, merging: bool): (nat, nat) -> bool {
    (i: nat, j: nat) => if merging then env.nearDuplicate(At(g, i), At(g, j)) else env.similar(At(g, i), At(g, j))
  }

  function MinSize(merging: bool): nat { if merging then CLUSTER_MERGE_MIN_SIZE else CLUSTER_MIN_SIZE }

  function IndexClusters(env: Env, g: seq<Id>, merging: bool): seq<seq<nat>> {
    Greedy(Closeness(env, g, merging), |g|, MinSize(merging), 0, {})
  }

  function ProjectClusters(env: Env, v: Vault, ids: seq<Id>, project: string, merging: bool): seq<seq<Id>>
    requires Snapshot(v, ids)
  {
    var g := Group(env, v, ids, project, merging);
    PickAll(g, IndexClusters(env, g, merging))
  }

  /** The place in its group of a memory of a cluster. */
  lemma PlaceInGroup(env: Env, g: seq<Id>, merging: bool, k: nat, x: Id) returns (i: nat)
    requires k < |IndexClusters(env, g, merging)| && x in PickAll(g, IndexClusters(env, g, merging))[k]
    ensures i in IndexClusters(env, g, merging)[k] && i < |g| && x == g[i]
  {
    var raw := IndexClusters(env, g, merging);
    GreedyMeaning(Closeness(env, g, merging), |g|, MinSize(merging), 0, {}, k);
    var m: int :| 0 <= m < |Pick(g, raw[k])| && Pick(g, raw[k])[m] == x;
    i := raw[k][m];
    assert i in raw[k];
  }

  lemma ProjectClusterFacts(env: Env, v: Vault, ids: seq<Id>, project: string, merging: bool, k: nat, x: Id)
    requires Snapshot(v, ids) && k < |ProjectClusters(env, v, ids, project, merging)|
    requires x in ProjectClusters(env, v, ids, project, merging)[k]
    ensures x in ids && Grouped(env, v, x, project, merging)
    ensures forall m: nat :: m < k ==> x !in ProjectClusters(env, v, ids, project, merging)[m]
  {
    var g := Group(env, v, ids, project, merging);
    var cs := ProjectClusters(env, v, ids, project, merging);
    var i := PlaceInGroup(env, g, merging, k, x);
    assert x in g;
    GroupMeaning(env, v, ids, project, merging, x);
    forall m: nat | m < k ensures x !in cs[m] {
      if x in cs[m] {
        var j := PlaceInGroup(env, g, merging, m, x);
        if i < j {
          GroupDistinct(env, v, ids, project, merging, i, j);
        } else if j < i {
          GroupDistinct(env, v, ids, project, merging, j, i);
        }
        ClustersAreDisjoint(Closeness(env, g, merging), |g|, MinSize(merging), m, k, i);
      }
    }
  }

  /** The clusters of a pass consist of unprotected memories and are pairwise disjoint. */
  lemma {:induction false} ClustersDisjoint(env: Env, v: Vault, ids: seq<Id>, projects: seq<string>, merging: bool,
                                            k: nat, x: Id)
    requires Snapshot(v, ids) && k < |Clusters(env, v, ids, projects, merging)|
    requires forall i, j :: 0 <= i < j < |projects| ==> projects[i] != projects[j]
    requires x in Clusters(env, v, ids, projects, merging)[k]
    ensures x in ids && env.project(x) in projects && Grouped(env, v, x, env.project(x), merging)
    ensures forall m: nat :: m < k ==> x !in Clusters(env, v, ids, projects, merging)[m]
    decreases |projects|
  {
    var here := ProjectClusters(env, v, ids, projects[0], merging);
    var rest := Clusters(env, v, ids, projects[1..], merging);
    var cs := Clusters(env, v, ids, projects, merging);
    assert cs == here + rest;
    if k < |here| {
      ProjectClusterFacts(env, v, ids, projects[0], merging, k, x);
    } else {
      ClustersDisjoint(env, v, ids, projects[1..], merging, k - |here|, x);
      var i: int :| 0 <= i < |projects[1..]| && projects[1..][i] == env.project(x);
      assert projects[i + 1] != projects[0];
      forall m: nat | m < k ensures x !in cs[m] {
        if m < |here| && x in cs[m] {
          ProjectClusterFacts(env, v, ids, projects[0], merging, m, x);
        }
      }
    }
  }

  lemma ClustersStep(
      env: Env, v: Vault, ids: seq<Id>, projects: seq<string>, merging: bool, n: nat, found: seq<seq<Id>>)
    requires Snapshot(v, ids) && n < |projects|
    ensures found + Clusters(env, v, ids, projects[n..], merging)
            == found + ProjectClusters(env, v, ids, projects[n], merging)
               + Clusters(env, v, ids, projects[n + 1..], merging)
  {
    assert projects[n..][1..] == projects[n + 1..];
  }

  method FindClusters(env: Env, v: Vault, ids: seq<Id>, projects: seq<string>, merging: bool)
    returns (found: seq<seq<Id>>)
    requires Snapshot(v, ids)
    ensures found == Clusters(env, v, ids, projects, merging)
  {
    found := [];
    for n := 0 to |projects|
      invariant found + Clusters(env, v, ids, projects[n..], merging) == Clusters(env, v, ids, projects, merging)
    {
      ClustersStep(env, v, ids, projects, merging, n, found);
      var group := Group(env, v, ids, projects[n], merging);
      var clusters: seq<seq<nat>>;
      if merging {
        clusters := MergeClusters(Closeness(env, group, true), |group|, CLUSTER_MERGE_MIN_SIZE);
      } else {
        clusters := SummaryClusters(Closeness(env, group, false), |group|, CLUSTER_MIN_SIZE);
      }
      found := found + PickAll(group, clusters);
    }
  }

  /** Clusters for which a pattern came back. */
  function Summaries(env: Env, cs: seq<seq<Id>>): seq<Summary> {
    if cs == [] then []
    else match env.summarize(cs[0])
      case None => Summaries(env, cs[1..])
      case Some(text) => [Summary(cs[0], text)] + Summaries(env, cs[1..])
  }

  /** Clusters for which a merge came back; the ids of its members stay those of the cluster. */
  function Merges(env: Env, cs: seq<seq<Id>>): seq<Merge> {
    if cs == [] then []
    else match env.merge(cs[0])
      case None => Merges(env, cs[1..])
      case Some(m) => [m.(ids := cs[0])] + Merges(env, cs[1..])
  }

  const TENSE_REWRITE_CAP := 10

  /** The memories a rewrite is asked for, at most ten. */
  function RewriteCandidates(env: Env, v: Vault, ids: seq<Id>, cap: nat): seq<Id>
    requires Snapshot(v, ids)
  {
    if ids == [] || cap == 0 then []
    else if Protected(v[ids[0]]) || v[ids[0]].invalid || !env.rewritable(ids[0]) then
      RewriteCandidates(env, v, ids[1..], cap)
    else [ids[0]] + RewriteCandidates(env, v, ids[1..], cap - 1)
  }

  function Rewrites(env: Env, v: Vault, candidates: seq<Id>, items: seq<RewriteItem>): seq<Rewrite>
    requires forall i :: 0 <= i < |candidates| ==> candidates[i] in v
  {
    if items == [] then []
    else
      var rest, item := Rewrites(env, v, candidates, items[1..]), items[0];
      var text := Strip(item.essence);
      if !(0 <= item.index < |candidates|) || text == "" then rest
      else
        var id := candidates[item.index];
        if 2 * |text| < |v[id].essence| then rest
        else [Rewrite(id, env.hash(v[id].essence), text)] + rest
  }

  lemma {:induction false} CandidatesKnown(env: Env, v: Vault, ids: seq<Id>, cap: nat)
    requires Snapshot(v, ids)
    ensures var c := RewriteCandidates(env, v, ids, cap);
            |c| <= cap && forall i :: 0 <= i < |c| ==> c[i] in v && !Protected(v[c[i]])
  {
    if ids != [] && cap > 0 {
      CandidatesKnown(env, v, ids[1..], cap);
      CandidatesKnown(env, v, ids[1..], cap - 1);
    }
  }

  /** The diff of a pass over a snapshot. */
  ghost predicate BuiltOn(env: Env, v: Vault, ids: seq<Id>, projects: seq<string>, d: Diff)
    requires Snapshot(v, ids)
  {
    CandidatesKnown(env, v, ids, TENSE_REWRITE_CAP);
    && (forall x :: x in d.demotions <==>
          x.id in ids && ShouldDemote(env, x.id, v[x.id]) && x.layer == v[x.id].layer + 1)
    && (forall p :: p in d.pairs <==> Unresolved(v, ids, p.a) && Unresolved(v, ids, p.b) && p.b in env.contradicts(p.a))
    && d.summaries == Summaries(env, Clusters(env, v, ids, projects, false))
    && d.merges == Merges(env, Clusters(env, v, ids, projects, true))
    && d.insights == env.insights
    && d.rewrites == Rewrites(env, v, RewriteCandidates(env, v, ids, TENSE_REWRITE_CAP), env.rewriteItems)
  }

  method BuildDiff(env: Env, v: Vault, ids: seq<Id>, projects: seq<string>) returns (d: Diff)
    requires Snapshot(v, ids)
    ensures BuiltOn(env, v, ids, projects, d)
  {
    CandidatesKnown(env, v, ids, TENSE_REWRITE_CAP);
    var demotions := FindDemotions(env, v, ids);
    var pairs := FindContradictions(env, v, ids);
    var summaries := FindClusters(env, v, ids, projects, false);
    var merges := FindClusters(env, v, ids, projects, true);
    d := Diff(demotions, pairs, Summaries(env, summaries), Merges(env, merges), env.insights,
              Rewrites(env, v, RewriteCandidates(env, v, ids, TENSE_REWRITE_CAP), env.rewriteItems));
  }

  // ---------------------------------------------------------------------------
  // What the finders find
  // ---------------------------------------------------------------------------

  predicate Precedes(ids: seq<Id>, a: Id, b: Id) { exists i, j :: 0 <= i < j < |ids| && ids[i] == a && ids[j] == b }

  /** A memory that the loop over a project looks at: unprotected, of the project, and for merges
      valid and not yet consolidated, for summaries with an embedding. */
  predicate LookedAt(env: Env, v: Vault, ids: seq<Id>, project: string, merging: bool, id: Id) {
    && id in ids && id in v && v[id].layer != 0 && !v[id].decayImmune && env.project(id) == project
    && (merging ==> !env.consolidated(id) && !v[id].invalid)
    && (!merging ==> env.embedded(id))
  }

  predicate Alike(env: Env, merging: bool, a: Id, b: Id) {
    (merging && env.nearDuplicate(a, b)) || (!merging && env.similar(a, b))
  }

  lemma PrecedesLater(id: Id, ids: seq<Id>, a: Id, b: Id)
    requires Precedes(ids, a, b)
    ensures Precedes([id] + ids, a, b)
  {
    var i, j :| 0 <= i < j < |ids| && ids[i] == a && ids[j] == b;
    assert ([id] + ids)[i + 1] == a && ([id] + ids)[j + 1] == b;
  }

  lemma FirstPrecedes(id: Id, ids: seq<Id>, b: Id)
    requires b in ids
    ensures Precedes([id] + ids, id, b)
  {
    var j :| 0 <= j < |ids| && ids[j] == b;
    assert ([id] + ids)[0] == id && ([id] + ids)[j + 1] == b;
  }

  lemma {:induction false} GroupOrder(
      env: Env, v: Vault, ids: seq<Id>, project: string, merging: bool, i: nat, j: nat)
    requires Snapshot(v, ids) && i < j < |Group(env, v, ids, project, merging)|
    ensures var g := Group(env, v, ids, project, merging); Precedes(ids, g[i], g[j])
  {
    var tail, g := ids[1..], Group(env, v, ids, project, merging);
    var rest := Group(env, v, tail, project, merging);
    assert ids == [ids[0]] + tail;
    if g == rest {
      GroupOrder(env, v, tail, project, merging, i, j);
      PrecedesLater(ids[0], tail, g[i], g[j]);
    } else if i > 0 {
      GroupOrder(env, v, tail, project, merging, i - 1, j - 1);
      PrecedesLater(ids[0], tail, g[i], g[j]);
    } else {
      assert rest[j - 1] in rest;
      GroupMeaning(env, v, tail, project, merging, rest[j - 1]);
      FirstPrecedes(ids[0], tail, g[j]);
    }
  }

  lemma PrecedesOnce(v: Vault, ids: seq<Id>, a: Id, b: Id)
    requires Snapshot(v, ids) && Precedes(ids, a, b)
    ensures a != b && !Precedes(ids, b, a)
  {
  }

  /** In a group the order of the places is that of the snapshot. */
  lemma PlacesAreOrder(env: Env, v: Vault, ids: seq<Id>, project: string, merging: bool, i: nat, j: nat)
    requires Snapshot(v, ids)
    requires var g := Group(env, v, ids, project, merging); i < |g| && j < |g|
    ensures var g := Group(env, v, ids, project, merging);
            (i < j <==> Precedes(ids, g[i], g[j])) && (i == j <==> g[i] == g[j])
  {
    var g := Group(env, v, ids, project, merging);
    if i < j {
      GroupOrder(env, v, ids, project, merging, i, j);
      PrecedesOnce(v, ids, g[i], g[j]);
    } else if j < i {
      GroupOrder(env, v, ids, project, merging, j, i);
      PrecedesOnce(v, ids, g[j], g[i]);
    } else if Precedes(ids, g[i], g[i]) {
      PrecedesOnce(v, ids, g[i], g[i]);
    }
  }

  predicate InEarlier(cs: seq<seq<Id>>, k: nat, x: Id)
    requires k <= |cs|
  {
    exists m :: 0 <= m < k && x in cs[m]
  }

  lemma PickedPlace(env: Env, v: Vault, ids: seq<Id>, project: string, merging: bool, k: nat, i: nat)
    requires Snapshot(v, ids) && k < |ProjectClusters(env, v, ids, project, merging)|
    requires i < |Group(env, v, ids, project, merging)|
    ensures var g := Group(env, v, ids, project, merging);
            g[i] in ProjectClusters(env, v, ids, project, merging)[k] <==> i in IndexClusters(env, g, merging)[k]
  {
    var g := Group(env, v, ids, project, merging);
    var raw := IndexClusters(env, g, merging);
    if g[i] in Pick(g, raw[k]) {
      var j := PlaceInGroup(env, g, merging, k, g[i]);
      PlacesAreOrder(env, v, ids, project, merging, i, j);
    }
    if i in raw[k] {
      var m: int :| 0 <= m < |raw[k]| && raw[k][m] == i;
      assert Pick(g, raw[k])[m] == g[i];
    }
  }

  lemma EarlierPicked(env: Env, v: Vault, ids: seq<Id>, project: string, merging: bool, k: nat, i: nat)
    requires Snapshot(v, ids) && k <= |ProjectClusters(env, v, ids, project, merging)|
    requires i < |Group(env, v, ids, project, merging)|
    ensures var g := Group(env, v, ids, project, merging);
            InEarlier(ProjectClusters(env, v, ids, project, merging), k, g[i])
            <==> Earlier(IndexClusters(env, g, merging), k, i)
  {
    forall m: nat | m < k
      ensures var g := Group(env, v, ids, project, merging);
              g[i] in ProjectClusters(env, v, ids, project, merging)[m] <==> i in IndexClusters(env, g, merging)[m]
    {
      PickedPlace(env, v, ids, project, merging, m, i);
    }
  }

  lemma LookedAtIs(env: Env, v: Vault, ids: seq<Id>, project: string, merging: bool, x: Id)
    requires Snapshot(v, ids)
    ensures x in Group(env, v, ids, project, merging) <==> LookedAt(env, v, ids, project, merging, x)
  {
    GroupMeaning(env, v, ids, project, merging, x);
  }

  lemma ClosenessIs(env: Env, g: seq<Id>, merging: bool, i: nat, j: nat)
    requires i < |g| && j < |g|
    ensures Closeness(env, g, merging)(i, j) == Alike(env, merging, g[i], g[j])
  {
    assert At(g, i) == g[i] && At(g, j) == g[j];
  }

  lemma IndexMember(env: Env, g: seq<Id>, merging: bool, k: nat, i: nat)
    requires k < |IndexClusters(env, g, merging)| && i < |g|
    ensures var raw := IndexClusters(env, g, merging);
            && |raw[k]| >= (if merging then 2 else 5) && raw[k] != [] && raw[k][0] < |g| && !Earlier(raw, k, raw[k][0])
            && (i in raw[k] <==>
                i == raw[k][0] || (raw[k][0] < i && Alike(env, merging, g[raw[k][0]], g[i]) && !Earlier(raw, k, i)))
  {
    GreedyMeaning(Closeness(env, g, merging), |g|, MinSize(merging), 0, {}, k);
    ClosenessIs(env, g, merging, IndexClusters(env, g, merging)[k][0], i);
  }

  lemma CompanyIndex(env: Env, g: seq<Id>, merging: bool, k: nat, i: nat, j: nat)
    requires k <= |IndexClusters(env, g, merging)| && i < |g|
    ensures var raw := IndexClusters(env, g, merging);
            j in Company(Closeness(env, g, merging), |g|, {}, raw, k, i) <==>
            i < j < |g| && Alike(env, merging, g[i], g[j]) && !Earlier(raw, k, j)
  {
    if j < |g| {
      ClosenessIs(env, g, merging, i, j);
    }
  }

  /** A cluster has at least five memories, or two for merging, and consists of its first one and of
      exactly the later ones of the project that are like it and in no earlier cluster. */
  lemma ProjectClusterMeaning(
      env: Env, v: Vault, ids: seq<Id>, project: string, merging: bool, k: nat, x: Id)
    requires Snapshot(v, ids) && k < |ProjectClusters(env, v, ids, project, merging)|
    ensures var cs := ProjectClusters(env, v, ids, project, merging);
            var c := cs[k];
            && |c| >= (if merging then 2 else 5)
            && LookedAt(env, v, ids, project, merging, c[0]) && !InEarlier(cs, k, c[0])
            && (x in c <==>
                || x == c[0]
                || (&& LookedAt(env, v, ids, project, merging, x) && Precedes(ids, c[0], x)
                    && Alike(env, merging, c[0], x) && !InEarlier(cs, k, x)))
  {
    var g := Group(env, v, ids, project, merging);
    var raw := IndexClusters(env, g, merging);
    GreedyMeaning(Closeness(env, g, merging), |g|, MinSize(merging), 0, {}, k);
    var seed := raw[k][0];
    IndexMember(env, g, merging, k, seed);
    assert seed in raw[k] && ProjectClusters(env, v, ids, project, merging)[k][0] == g[seed] && g[seed] in g;
    LookedAtIs(env, v, ids, project, merging, g[seed]);
    LookedAtIs(env, v, ids, project, merging, x);
    EarlierPicked(env, v, ids, project, merging, k, seed);
    if x in g {
      var i: int :| 0 <= i < |g| && g[i] == x;
      PickedPlace(env, v, ids, project, merging, k, i);
      IndexMember(env, g, merging, k, i);
      PlacesAreOrder(env, v, ids, project, merging, seed, i);
      EarlierPicked(env, v, ids, project, merging, k, i);
    } else if x in Pick(g, raw[k]) {
      var i := PlaceInGroup(env, g, merging, k, x);
    }
  }

  /** The memories of a cluster are in the order of the snapshot. */
  lemma ClusterInOrder(env: Env, v: Vault, ids: seq<Id>, project: string, merging: bool, k: nat, i: nat, j: nat)
    requires Snapshot(v, ids) && k < |ProjectClusters(env, v, ids, project, merging)|
    requires i < j < |ProjectClusters(env, v, ids, project, merging)[k]|
    ensures var c := ProjectClusters(env, v, ids, project, merging)[k]; Precedes(ids, c[i], c[j])
  {
    var g := Group(env, v, ids, project, merging);
    var raw := IndexClusters(env, g, merging);
    GreedyMeaning(Closeness(env, g, merging), |g|, MinSize(merging), 0, {}, k);
    assert raw[k][i] in raw[k] && raw[k][j] in raw[k];
    PlacesAreOrder(env, v, ids, project, merging, raw[k][i], raw[k][j]);
  }

  /** A memory of the project in none of its clusters would have started one that is too small: fewer
      than five, or two, with it and the later ones like it that no cluster before it has taken. */
  lemma UnclusteredIsLonely(env: Env, v: Vault, ids: seq<Id>, project: string, merging: bool, x: Id)
    returns (k: nat, company: set<Id>)
    requires Snapshot(v, ids) && LookedAt(env, v, ids, project, merging, x)
    requires var cs := ProjectClusters(env, v, ids, project, merging); !InEarlier(cs, |cs|, x)
    ensures var cs := ProjectClusters(env, v, ids, project, merging);
            && k <= |cs| && (forall m :: 0 <= m < k ==> cs[m] != [] && Precedes(ids, cs[m][0], x))
            && (forall y :: y in company <==>
                  && LookedAt(env, v, ids, project, merging, y) && Precedes(ids, x, y)
                  && Alike(env, merging, x, y) && !InEarlier(cs, k, y))
            && |company| + 1 < (if merging then 2 else 5)
  {
    var g := Group(env, v, ids, project, merging);
    var raw := IndexClusters(env, g, merging);
    LookedAtIs(env, v, ids, project, merging, x);
    var i: int :| 0 <= i < |g| && g[i] == x;
    EarlierPicked(env, v, ids, project, merging, |raw|, i);
    var close := Closeness(env, g, merging);
    k := LeftOver(close, |g|, MinSize(merging), 0, {}, i);
    var few := Company(close, |g|, {}, raw, k, i);
    company := set j | j in few :: At(g, j);
    FewerImages(g, few);
    forall m: nat | m < k
      ensures var cs := ProjectClusters(env, v, ids, project, merging); cs[m] != [] && Precedes(ids, cs[m][0], x)
    {
      GreedyMeaning(close, |g|, MinSize(merging), 0, {}, m);
      PlacesAreOrder(env, v, ids, project, merging, raw[m][0], i);
    }
    forall y
      ensures y in company <==>
              && LookedAt(env, v, ids, project, merging, y) && Precedes(ids, x, y)
              && Alike(env, merging, x, y) && !InEarlier(ProjectClusters(env, v, ids, project, merging), k, y)
    {
      LookedAtIs(env, v, ids, project, merging, y);
      CompanyMember(env, v, ids, project, merging, k, i, y);
    }
  }

  lemma {:induction false} FewerImages(g: seq<Id>, few: set<nat>)
    ensures |set j | j in few :: At(g, j)| <= |few|
  {
    if few != {} {
      var j :| j in few;
      FewerImages(g, few - {j});
      assert (set m | m in few :: At(g, m)) == {At(g, j)} + set m | m in few - {j} :: At(g, m);
    }
  }

  lemma CompanyMember(env: Env, v: Vault, ids: seq<Id>, project: string, merging: bool, k: nat, i: nat, y: Id)
    requires Snapshot(v, ids) && i < |Group(env, v, ids, project, merging)|
    requires k <= |ProjectClusters(env, v, ids, project, merging)|
    ensures var g := Group(env, v, ids, project, merging);
            var few := Company(Closeness(env, g, merging), |g|, {}, IndexClusters(env, g, merging), k, i);
            (exists j :: j in few && At(g, j) == y) <==>
            && y in g && Precedes(ids, g[i], y) && Alike(env, merging, g[i], y)
            && !InEarlier(ProjectClusters(env, v, ids, project, merging), k, y)
  {
    var g := Group(env, v, ids, project, merging);
    var few := Company(Closeness(env, g, merging), |g|, {}, IndexClusters(env, g, merging), k, i);
    forall m | m in few && At(g, m) == y ensures m < |g| && g[m] == y {
      CompanyIndex(env, g, merging, k, i, m);
    }
    forall m: nat, j: nat | m < |g| && j < |g| && g[m] == y && g[j] == y ensures m == j {
      PlacesAreOrder(env, v, ids, project, merging, m, j);
    }
    if y in g {
      var j: int :| 0 <= j < |g| && g[j] == y;
      PlacesAreOrder(env, v, ids, project, merging, i, j);
      EarlierPicked(env, v, ids, project, merging, k, j);
      CompanyIndex(env, g, merging, k, i, j);
      assert At(g, j) == y;
    }
  }

  /** The clusters of a pass are those of its projects. */
  lemma {:induction false} ClustersAreByProject(
      env: Env, v: Vault, ids: seq<Id>, projects: seq<string>, merging: bool, c: seq<Id>)
    requires Snapshot(v, ids)
    ensures c in Clusters(env, v, ids, projects, merging) <==>
            exists i :: 0 <= i < |projects| && c in ProjectClusters(env, v, ids, projects[i], merging)
  {
    if projects != [] {
      ClustersAreByProject(env, v, ids, projects[1..], merging, c);
      assert forall i :: 0 < i < |projects| ==> projects[i] == projects[1..][i - 1];
      if i :| 0 <= i < |projects[1..]| && c in ProjectClusters(env, v, ids, projects[1..][i], merging) {
        assert c in ProjectClusters(env, v, ids, projects[i + 1], merging);
      }
    }
  }

  /** A summary is proposed exactly for the clusters for which a pattern came back. */
  lemma {:induction false} SummariesExactly(env: Env, cs: seq<seq<Id>>, s: Summary)
    ensures s in Summaries(env, cs) <==> s.ids in cs && env.summarize(s.ids) == Some(s.pattern)
  {
    if cs != [] {
      SummariesExactly(env, cs[1..], s);
      assert s.ids in cs <==> s.ids == cs[0] || s.ids in cs[1..];
    }
  }

  /** A merge is proposed exactly for the clusters for which one came back, with their members. */
  lemma {:induction false} MergesExactly(env: Env, cs: seq<seq<Id>>, m: Merge)
    ensures m in Merges(env, cs) <==>
            && m.ids in cs && env.merge(m.ids).Some?
            && env.merge(m.ids).value.supporting == m.supporting && env.merge(m.ids).value.canonical == m.canonical
  {
    if cs != [] {
      MergesExactly(env, cs[1..], m);
      assert m.ids in cs <==> m.ids == cs[0] || m.ids in cs[1..];
    }
  }

  /** Asked about are the first `cap` of the unprotected, valid memories that may be rewritten. */
  lemma {:induction false} CandidatesExactly(env: Env, v: Vault, ids: seq<Id>, cap: nat, x: Id)
    requires Snapshot(v, ids)
    ensures var all := RewriteCandidates(env, v, ids, |ids|);
            && RewriteCandidates(env, v, ids, cap) == all[..if cap <= |all| then cap else |all|]
            && |all| <= |ids|
            && (x in all <==> x in ids && x in v && !Protected(v[x]) && !v[x].invalid && env.rewritable(x))
  {
    if ids != [] {
      var tail := ids[1..];
      assert x in ids <==> x == ids[0] || x in tail;
      CandidatesExactly(env, v, tail, cap, x);
      CandidatesExactly(env, v, tail, |ids|, x);
      if cap > 0 {
        CandidatesExactly(env, v, tail, cap - 1, x);
      }
    }
  }

  /** A rewrite is proposed exactly for a reply that names a candidate by its number and whose trimmed
      text is not empty and at least half as long as the essence. */
  lemma {:induction false} RewritesExactly(
      env: Env, v: Vault, candidates: seq<Id>, items: seq<RewriteItem>, r: Rewrite)
    requires forall i :: 0 <= i < |candidates| ==> candidates[i] in v
    ensures r in Rewrites(env, v, candidates, items) <==>
            exists n :: 0 <= n < |items| && Proposes(env, v, candidates, items[n], r)
  {
    if items != [] {
      RewritesExactly(env, v, candidates, items[1..], r);
      assert forall n :: 0 < n < |items| ==> items[n] == items[1..][n - 1];
      if n :| 0 <= n < |items[1..]| && Proposes(env, v, candidates, items[1..][n], r) {
        assert Proposes(env, v, candidates, items[n + 1], r);
      }
    }
  }

  predicate Proposes(env: Env, v: Vault, candidates: seq<Id>, item: RewriteItem, r: Rewrite) {
    && 0 <= item.index < |candidates| && r.id == candidates[item.index] && r.id in v
    && r.essence == Strip(item.essence) && r.essence != "" && 2 * |r.essence| >= |v[r.id].essence|
    && r.oldHash == env.hash(v[r.id].essence)
  }

  // ---------------------------------------------------------------------------
  // Applying a diff
  // ---------------------------------------------------------------------------

  function Fold<T>(f: (Vault, T) -> Vault, v: Vault, ts: seq<T>): Vault {
    if ts == [] then v else f(Fold(f, v, ts[..|ts| - 1]), ts[|ts| - 1])
  }

  function Demoted(env: Env): (Vault, Demotion) -> Vault {
    (v: Vault, d: Demotion) =>
      if d.id in v && !Protected(v[d.id]) then v[d.id := Resaved(env.links, v, d.id, v[d.id].(layer := d.layer))] else v
  }

  /** A verdict counts only when it names members of the pair. */
  function Judged(env: Env, p: Pair): Option<Verdict> {
    match env.judge(p)
    case None => None
    case Some(x) => if x.winner in {p.a, p.b} && x.loser in {p.a, p.b} then Some(x) else None
  }

  function Resolved(env: Env): (Vault, Pair) -> Vault {
    (v: Vault, p: Pair) => match Judged(env, p)
                           case None => v
                           case Some(x) => Invalidated(env.links, v, x.loser, x.winner)
  }

  function Marked(env: Env, pattern: Id): (Vault, Id) -> Vault {
    (v: Vault, id: Id) =>
      if id in v then v[id := Resaved(env.links, v, id, v[id].(clusteredInto := Some(pattern)))] else v
  }

  function Created(env: Env, v: Vault, text: string): Vault {
    var id := env.newId(v.Keys);
    v[id := Fresh(Restored(env.links, v, id, text))]
  }

  function Summarized(env: Env): (Vault, Summary) -> Vault {
    (v: Vault, s: Summary) =>
      if env.makeable(s.pattern) then Fold(Marked(env, env.newId(v.Keys)), Created(env, v, s.pattern), s.ids) else v
  }

  predicate Supported(m: Merge, id: Id) { exists i :: 0 <= i < |m.supporting| && Take8(m.supporting[i]) == Take8(id) }

  function PrefixesOf(ids: seq<Id>): set<string> { set i | 0 <= i < |ids| :: Take8(ids[i]) }

  lemma SupportedIs(m: Merge, id: Id)
    ensures Supported(m, id) <==> Take8(id) in PrefixesOf(m.supporting)
  {
  }

  function Absorbed(env: Env, m: Merge, canonical: Id): (Vault, Id) -> Vault {
    (v: Vault, id: Id) =>
      if id == "" || !Supported(m, id) || (id in v && Protected(v[id])) then v
      else Invalidated(env.links, v, id, canonical)
  }

  function Merged(env: Env): (Vault, Merge) -> Vault {
    (v: Vault, m: Merge) =>
      if !env.makeable(m.canonical) then v
      else Fold(Absorbed(env, m, env.newId(v.Keys)), Created(env, v, m.canonical), m.ids)
  }

  function Reflected(env: Env): (Vault, string) -> Vault {
    (v: Vault, text: string) => if env.makeable(text) then Created(env, v, text) else v
  }

  predicate MayRewrite(env: Env, v: Vault, r: Rewrite) {
    && r.id in v && !Protected(v[r.id]) && r.essence != "" && env.hash(v[r.id].essence) == r.oldHash
    && 2 * |r.essence| >= |v[r.id].essence| && !env.threat(r.essence)
  }

  function RewrittenIn(env: Env, v: Vault, r: Rewrite): Vault
    requires r.id in v
  {
    v[r.id := v[r.id].(essence := Restored(env.links, v, r.id, r.essence))]
  }

  function Rewritten(env: Env): (Vault, Rewrite) -> Vault {
    (v: Vault, r: Rewrite) =>
      if MayRewrite(env, v, r) then RewrittenIn(env, v, r) else v
  }

  function Destructive(env: Env, v: Vault, d: Diff): Vault {
    var demoted := Fold(Demoted(env), v, d.demotions);
    var resolved := Fold(Resolved(env), demoted, d.pairs);
    var summarized := Fold(Summarized(env), resolved, d.summaries);
    Fold(Merged(env), summarized, d.merges)
  }

  function Additive(env: Env, v: Vault, d: Diff): Vault {
    Fold(Rewritten(env), Fold(Reflected(env), v, d.insights), d.rewrites)
  }

  function Applied(env: Env, v: Vault, d: Diff, dryRun: bool, safeAuto: bool): Vault {
    if dryRun then v else Additive(env, if safeAuto then v else Destructive(env, v, d), d)
  }

  class Dreamer {
    const env: Env
    var vault: Vault

    constructor (env: Env, vault: Vault)
      ensures this.env == env && this.vault == vault
    {
      this.env, this.vault := env, vault;
    }

    method Demote(ds: seq<Demotion>)
      modifies this
      ensures vault == Fold(Demoted(env), old(vault), ds)
    {
      for i := 0 to |ds|
        invariant vault == Fold(Demoted(env), old(vault), ds[..i])
      {
        assert ds[..i + 1][..i] == ds[..i];
        if ds[i].id in vault {
          if !Protected(vault[ds[i].id]) {
            var m := vault[ds[i].id].(layer := ds[i].layer);
            vault := vault[ds[i].id := Resaved(env.links, vault, ds[i].id, m)];
          }
        }
      }
      assert ds[..|ds|] == ds;
    }

    method Resolve(ps: seq<Pair>)
      modifies this
      ensures vault == Fold(Resolved(env), old(vault), ps)
    {
      for i := 0 to |ps|
        invariant vault == Fold(Resolved(env), old(vault), ps[..i])
      {
        assert ps[..i + 1][..i] == ps[..i];
        var decision := Judged(env, ps[i]);
        if decision.Some? {
          vault := Invalidated(env.links, vault, decision.value.loser, decision.value.winner);
        }
      }
      assert ps[..|ps|] == ps;
    }

    method Mark(ids: seq<Id>, pattern: Id)
      modifies this
      ensures vault == Fold(Marked(env, pattern), old(vault), ids)
    {
      for i := 0 to |ids|
        invariant vault == Fold(Marked(env, pattern), old(vault), ids[..i])
      {
        assert ids[..i + 1][..i] == ids[..i];
        if ids[i] in vault {
          var m := vault[ids[i]].(clusteredInto := Some(pattern));
          vault := vault[ids[i] := Resaved(env.links, vault, ids[i], m)];
        }
      }
      assert ids[..|ids|] == ids;
    }

    method Create(text: string) returns (id: Id)
      modifies this
      ensures id == env.newId(old(vault).Keys) && vault == Created(env, old(vault), text)
    {
      id := env.newId(vault.Keys);
      vault := vault[id := Fresh(Restored(env.links, vault, id, text))];
    }

    method Summarize(ss: seq<Summary>)
      modifies this
      ensures vault == Fold(Summarized(env), old(vault), ss)
    {
      for i := 0 to |ss|
        invariant vault == Fold(Summarized(env), old(vault), ss[..i])
      {
        assert ss[..i + 1][..i] == ss[..i];
        if env.makeable(ss[i].pattern) {
          var pattern := Create(ss[i].pattern);
          Mark(ss[i].ids, pattern);
        }
      }
      assert ss[..|ss|] == ss;
    }

    method Prefixes(ids: seq<Id>) returns (prefixes: set<string>)
      ensures prefixes == PrefixesOf(ids)
    {
      prefixes := {};
      for i := 0 to |ids|
        invariant prefixes == PrefixesOf(ids[..i])
      {
        assert ids[..i + 1] == ids[..i] + [ids[i]];
        prefixes := prefixes + {Take8(ids[i])};
      }
      assert ids[..|ids|] == ids;
    }

    method Absorb(m: Merge, canonical: Id)
      modifies this
      ensures vault == Fold(Absorbed(env, m, canonical), old(vault), m.ids)
    {
      var supporting := Prefixes(m.supporting);
      for i := 0 to |m.ids|
        invariant vault == Fold(Absorbed(env, m, canonical), old(vault), m.ids[..i])
      {
        assert m.ids[..i + 1][..i] == m.ids[..i];
        var id := m.ids[i];
        SupportedIs(m, id);
        if id != "" && Take8(id) in supporting {
          if !(id in vault && Protected(vault[id])) {
            vault := Invalidated(env.links, vault, id, canonical);
          }
        }
      }
      assert m.ids[..|m.ids|] == m.ids;
    }

    method MergeAll(ms: seq<Merge>)
      modifies this
      ensures vault == Fold(Merged(env), old(vault), ms)
    {
      for i := 0 to |ms|
        invariant vault == Fold(Merged(env), old(vault), ms[..i])
      {
        assert ms[..i + 1][..i] == ms[..i];
        if env.makeable(ms[i].canonical) {
          var canonical := Create(ms[i].canonical);
          Absorb(ms[i], canonical);
        }
      }
      assert ms[..|ms|] == ms;
    }

    method Reflect(texts: seq<string>)
      modifies this
      ensures vault == Fold(Reflected(env), old(vault), texts)
    {
      for i := 0 to |texts|
        invariant vault == Fold(Reflected(env), old(vault), texts[..i])
      {
        assert texts[..i + 1][..i] == texts[..i];
        if env.makeable(texts[i]) {
          var _ := Create(texts[i]);
        }
      }
      assert texts[..|texts|] == texts;
    }

    method RewriteAll(rs: seq<Rewrite>)
      modifies this
      ensures vault == Fold(Rewritten(env), old(vault), rs)
    {
      for i := 0 to |rs|
        invariant vault == Fold(Rewritten(env), old(vault), rs[..i])
      {
        assert rs[..i + 1][..i] == rs[..i];
        var r := rs[i];
        ghost var next := Rewritten(env)(vault, r);
        assert next == if MayRewrite(env, vault, r) then RewrittenIn(env, vault, r) else vault;
        if r.id in vault && r.essence != "" {
          if !Protected(vault[r.id]) && env.hash(vault[r.id].essence) == r.oldHash {
            if 2 * |r.essence| >= |vault[r.id].essence| && !env.threat(r.essence) {
              vault := vault[r.id := vault[r.id].(essence := Restored(env.links, vault, r.id, r.essence))];
            }
          }
        }
        assert vault == next;
      }
      assert rs[..|rs|] == rs;
    }

    method ApplyDiff(d: Diff, dryRun: bool, safeAuto: bool)
      modifies this
      ensures vault == Applied(env, old(vault), d, dryRun, safeAuto)
    {
      var destructive := !dryRun && !safeAuto;
      if destructive {
        Demote(d.demotions);
        Resolve(d.pairs);
        Summarize(d.summaries);
        MergeAll(d.merges);
      }
      if !dryRun {
        Reflect(d.insights);
        RewriteAll(d.rewrites);
      }
    }
  }

  // ---------------------------------------------------------------------------
  // What a pass keeps
  // ---------------------------------------------------------------------------

  lemma {:induction false} FoldKeeps<T(!new)>(f: (Vault, T) -> Vault, inv: Vault -> bool, v: Vault, ts: seq<T>)
    requires inv(v) && forall w, t :: inv(w) && t in ts ==> inv(f(w, t))
    ensures inv(Fold(f, v, ts))
    decreases |ts|
  {
    if ts != [] {
      FoldKeeps(f, inv, v, ts[..|ts| - 1]);
      assert ts[|ts| - 1] in ts;
    }
  }

  /** Random ids are new. */
  ghost predicate NewIds(env: Env) { forall taken: set<Id> :: env.newId(taken) !in taken }

  /** Nothing is lost, layers and immunity stay, and what is new is not protected. */
  predicate Extends(a: Vault, b: Vault) {
    && a.Keys <= b.Keys
    && (forall id :: id in a ==> b[id].layer == a[id].layer && b[id].decayImmune == a[id].decayImmune)
    && forall id :: id in b && id !in a ==> !Protected(b[id])
  }

  /** The memories protected at the start are untouched. */
  predicate Guarded(v: Vault, w: Vault) {
    forall id :: id in v && Protected(v[id]) ==> id in w && w[id] == v[id]
  }

  predicate Keeps(start: Vault, base: Vault, w: Vault) { Guarded(start, w) && Extends(base, w) }

  lemma CreatedKeeps(env: Env, start: Vault, base: Vault, w: Vault, text: string)
    requires NewIds(env) && Keeps(start, base, w)
    ensures Keeps(start, base, Created(env, w, text))
  {
    assert env.newId(w.Keys) !in w.Keys;
  }

  lemma ChangeKeeps(start: Vault, base: Vault, w: Vault, id: Id, m: Mem)
    requires Keeps(start, base, w) && id in w && (id in start ==> !Protected(start[id]))
    requires m.layer == w[id].layer && m.decayImmune == w[id].decayImmune
    ensures Keeps(start, base, w[id := m])
  {
  }

  lemma RewriteIs(env: Env, w: Vault, r: Rewrite)
    ensures Rewritten(env)(w, r) == if MayRewrite(env, w, r) then RewrittenIn(env, w, r) else w
  {
  }

  lemma ResolvedKeeps(env: Env, start: Vault, base: Vault, v: Vault, ps: seq<Pair>)
    requires Keeps(start, base, v)
    requires forall p :: p in ps ==> p.a in start && p.b in start && !Protected(start[p.a]) && !Protected(start[p.b])
    ensures Keeps(start, base, Fold(Resolved(env), v, ps))
  {
    var inv := (w: Vault) => Keeps(start, base, w);
    forall w: Vault, p | inv(w) && p in ps ensures inv(Resolved(env)(w, p)) {
      var verdict := Judged(env, p);
      if verdict.Some? && verdict.value.loser in w {
        var next := Invalidated(env.links, w, verdict.value.loser, verdict.value.winner);
        ChangeKeeps(start, base, w, verdict.value.loser, next[verdict.value.loser]);
      }
    }
    FoldKeeps(Resolved(env), inv, v, ps);
  }

  lemma MarkedKeeps(env: Env, start: Vault, base: Vault, v: Vault, ids: seq<Id>, pattern: Id)
    requires Keeps(start, base, v) && forall id :: id in ids ==> id in start && !Protected(start[id])
    ensures Keeps(start, base, Fold(Marked(env, pattern), v, ids))
  {
    var inv := (w: Vault) => Keeps(start, base, w);
    forall w: Vault, id | inv(w) && id in ids ensures inv(Marked(env, pattern)(w, id)) {
      if id in w {
        ChangeKeeps(start, base, w, id, Marked(env, pattern)(w, id)[id]);
      }
    }
    FoldKeeps(Marked(env, pattern), inv, v, ids);
  }

  lemma SummarizedKeeps(env: Env, start: Vault, base: Vault, v: Vault, ss: seq<Summary>)
    requires NewIds(env) && Keeps(start, base, v)
    requires forall s, id :: s in ss && id in s.ids ==> id in start && !Protected(start[id])
    ensures Keeps(start, base, Fold(Summarized(env), v, ss))
  {
    var inv := (w: Vault) => Keeps(start, base, w);
    forall w: Vault, s | inv(w) && s in ss ensures inv(Summarized(env)(w, s)) {
      CreatedKeeps(env, start, base, w, s.pattern);
      MarkedKeeps(env, start, base, Created(env, w, s.pattern), s.ids, env.newId(w.Keys));
    }
    FoldKeeps(Summarized(env), inv, v, ss);
  }

  lemma AbsorbedKeeps(env: Env, start: Vault, base: Vault, v: Vault, m: Merge, canonical: Id)
    requires Keeps(start, base, v)
    ensures Keeps(start, base, Fold(Absorbed(env, m, canonical), v, m.ids))
  {
    var inv := (w: Vault) => Keeps(start, base, w);
    forall w: Vault, id | inv(w) && id in m.ids ensures inv(Absorbed(env, m, canonical)(w, id)) {
      if id in w && !Protected(w[id]) {
        ChangeKeeps(start, base, w, id, Invalidated(env.links, w, id, canonical)[id]);
      }
    }
    FoldKeeps(Absorbed(env, m, canonical), inv, v, m.ids);
  }

  lemma MergedKeeps(env: Env, start: Vault, base: Vault, v: Vault, ms: seq<Merge>)
    requires NewIds(env) && Keeps(start, base, v)
    ensures Keeps(start, base, Fold(Merged(env), v, ms))
  {
    var inv := (w: Vault) => Keeps(start, base, w);
    forall w: Vault, m | inv(w) && m in ms ensures inv(Merged(env)(w, m)) {
      CreatedKeeps(env, start, base, w, m.canonical);
      AbsorbedKeeps(env, start, base, Created(env, w, m.canonical), m, env.newId(w.Keys));
    }
    FoldKeeps(Merged(env), inv, v, ms);
  }

  lemma AdditiveKeeps(env: Env, start: Vault, base: Vault, v: Vault, d: Diff)
    requires NewIds(env) && Keeps(start, base, v)
    ensures Keeps(start, base, Additive(env, v, d))
  {
    var inv := (w: Vault) => Keeps(start, base, w);
    forall w: Vault, t | inv(w) && t in d.insights ensures inv(Reflected(env)(w, t)) {
      CreatedKeeps(env, start, base, w, t);
    }
    FoldKeeps(Reflected(env), inv, v, d.insights);
    forall w: Vault, r | inv(w) && r in d.rewrites ensures inv(Rewritten(env)(w, r)) {
      RewriteIs(env, w, r);
      if MayRewrite(env, w, r) {
        ChangeKeeps(start, base, w, r.id, RewrittenIn(env, w, r)[r.id]);
      }
    }
    FoldKeeps(Rewritten(env), inv, Fold(Reflected(env), v, d.insights), d.rewrites);
  }

  predicate IsDemoted(ds: seq<Demotion>, id: Id) { exists i :: 0 <= i < |ds| && ds[i].id == id }

  predicate DemotionsFit(v: Vault, ds: seq<Demotion>) {
    forall d :: d in ds ==> d.id in v && !Protected(v[d.id]) && d.layer == v[d.id].layer + 1
  }

  lemma IsDemotedSnoc(ds: seq<Demotion>, d: Demotion, id: Id)
    ensures IsDemoted(ds + [d], id) <==> IsDemoted(ds, id) || id == d.id
  {
    var more := ds + [d];
    if i: int :| 0 <= i < |ds| && ds[i].id == id {
      assert more[i].id == id;
    }
    if id == d.id {
      assert more[|ds|].id == id;
    }
  }

  /** A demoted memory is one layer down, and its file was written again; another one is as it was. */
  predicate DemotedTo(before: Mem, after: Mem, demoted: bool) {
    if demoted then IsResaved(before.(layer := before.layer + 1), after) else after == before
  }

  lemma {:induction false} DemotedAt(env: Env, v: Vault, ds: seq<Demotion>, id: Id)
    requires DemotionsFit(v, ds) && id in v
    ensures Fold(Demoted(env), v, ds).Keys == v.Keys
    ensures DemotedTo(v[id], Fold(Demoted(env), v, ds)[id], IsDemoted(ds, id))
    decreases |ds|
  {
    if ds != [] {
      var n := |ds| - 1;
      assert ds == ds[..n] + [ds[n]] && ds[n] in ds;
      DemotedAt(env, v, ds[..n], id);
      IsDemotedSnoc(ds[..n], ds[n], id);
      var front := Fold(Demoted(env), v, ds[..n]);
      if ds[n].id == id {
        ResavedIs(env.links, front, id, front[id].(layer := ds[n].layer));
      }
    }
  }

  lemma {:induction false} DemotedKeys(env: Env, v: Vault, ds: seq<Demotion>)
    ensures Fold(Demoted(env), v, ds).Keys == v.Keys
    decreases |ds|
  {
    if ds != [] {
      DemotedKeys(env, v, ds[..|ds| - 1]);
    }
  }

  /** The demotions move exactly the listed memories, each one layer down. */
  lemma DemotedMeaning(env: Env, v: Vault, ds: seq<Demotion>)
    requires DemotionsFit(v, ds)
    ensures var w := Fold(Demoted(env), v, ds);
            w.Keys == v.Keys && forall id :: id in v ==> DemotedTo(v[id], w[id], IsDemoted(ds, id))
  {
    DemotedKeys(env, v, ds);
    forall id | id in v ensures DemotedTo(v[id], Fold(Demoted(env), v, ds)[id], IsDemoted(ds, id)) {
      DemotedAt(env, v, ds, id);
    }
  }

  lemma {:induction false} SummaryIds(env: Env, cs: seq<seq<Id>>, s: Summary)
    requires s in Summaries(env, cs)
    ensures s.ids in cs
  {
    if env.summarize(cs[0]).None? || s != Summaries(env, cs)[0] {
      SummaryIds(env, cs[1..], s);
    }
  }

  lemma BuiltFits(env: Env, v: Vault, ids: seq<Id>, projects: seq<string>, d: Diff)
    requires Snapshot(v, ids) && BuiltOn(env, v, ids, projects, d)
    requires forall i, j :: 0 <= i < j < |projects| ==> projects[i] != projects[j]
    ensures DemotionsFit(v, d.demotions)
    ensures forall p :: p in d.pairs ==> p.a in v && p.b in v && !Protected(v[p.a]) && !Protected(v[p.b])
    ensures forall s, id :: s in d.summaries && id in s.ids ==> id in v && !Protected(v[id])
  {
    var cs := Clusters(env, v, ids, projects, false);
    forall s, id | s in d.summaries && id in s.ids ensures id in v && !Protected(v[id]) {
      SummaryIds(env, cs, s);
      var k: int :| 0 <= k < |cs| && cs[k] == s.ids;
      ClustersDisjoint(env, v, ids, projects, false, k, id);
    }
  }

  lemma DemotedGuards(env: Env, v: Vault, ds: seq<Demotion>)
    requires DemotionsFit(v, ds)
    ensures Guarded(v, Fold(Demoted(env), v, ds))
  {
    DemotedMeaning(env, v, ds);
    forall id | id in v && IsDemoted(ds, id) ensures !Protected(v[id]) {
      var i: int :| 0 <= i < |ds| && ds[i].id == id;
      assert ds[i] in ds;
    }
  }

  lemma FullPassKeeps(env: Env, v: Vault, ids: seq<Id>, projects: seq<string>, d: Diff)
    requires NewIds(env) && Snapshot(v, ids) && BuiltOn(env, v, ids, projects, d)
    requires forall i, j :: 0 <= i < j < |projects| ==> projects[i] != projects[j]
    ensures Keeps(v, Fold(Demoted(env), v, d.demotions), Additive(env, Destructive(env, v, d), d))
  {
    BuiltFits(env, v, ids, projects, d);
    DemotedGuards(env, v, d.demotions);
    var base := Fold(Demoted(env), v, d.demotions);
    ResolvedKeeps(env, v, base, base, d.pairs);
    var resolved := Fold(Resolved(env), base, d.pairs);
    SummarizedKeeps(env, v, base, resolved, d.summaries);
    var summarized := Fold(Summarized(env), resolved, d.summaries);
    MergedKeeps(env, v, base, summarized, d.merges);
    AdditiveKeeps(env, v, base, Destructive(env, v, d), d);
  }

  /** Whatever the replies, a pass built and applied on the same vault leaves every protected
      memory unchanged and loses none, in every mode. */
  lemma DreamIsSafe(env: Env, v: Vault, ids: seq<Id>, projects: seq<string>, d: Diff, dryRun: bool, safeAuto: bool)
    requires NewIds(env) && Snapshot(v, ids) && BuiltOn(env, v, ids, projects, d)
    requires forall i, j :: 0 <= i < j < |projects| ==> projects[i] != projects[j]
    ensures var w := Applied(env, v, d, dryRun, safeAuto);
            && v.Keys <= w.Keys && Guarded(v, w)
            && (forall id :: id in v ==> w[id].decayImmune == v[id].decayImmune)
            && (forall id :: id in w && id !in v ==> !Protected(w[id]))
            && forall id :: id in v ==>
                 w[id].layer == v[id].layer + if !dryRun && !safeAuto && IsDemoted(d.demotions, id) then 1 else 0
  {
    BuiltFits(env, v, ids, projects, d);
    if !dryRun && safeAuto {
      AdditiveKeeps(env, v, v, v, d);
    } else if !dryRun {
      DemotedMeaning(env, v, d.demotions);
      FullPassKeeps(env, v, ids, projects, d);
    }
  }

  /** A full pass changes which memories are protected if and only if it demotes a memory whose
      layer is -1: the next layer is the protected one. */
  lemma ProtectionChangesExactly(env: Env, v: Vault, ids: seq<Id>, projects: seq<string>, d: Diff)
    requires NewIds(env) && Snapshot(v, ids) && BuiltOn(env, v, ids, projects, d)
    requires forall i, j :: 0 <= i < j < |projects| ==> projects[i] != projects[j]
    ensures var w := Applied(env, v, d, false, false);
            && v.Keys <= w.Keys
            && ((forall id :: id in v ==> (Protected(w[id]) <==> Protected(v[id]))) <==>
                !exists id :: id in ids && ShouldDemote(env, id, v[id]) && v[id].layer == -1)
  {
    DreamIsSafe(env, v, ids, projects, d, false, false);
    var w := Applied(env, v, d, false, false);
    forall id | id in v
      ensures IsDemoted(d.demotions, id) <==> id in ids && ShouldDemote(env, id, v[id])
    {
      if i: int :| 0 <= i < |d.demotions| && d.demotions[i].id == id {
        assert d.demotions[i] in d.demotions;
      }
      if id in ids && ShouldDemote(env, id, v[id]) {
        assert Demotion(id, v[id].layer + 1) in d.demotions;
      }
    }
    forall id | id in v
      ensures Protected(w[id]) != Protected(v[id]) <==> IsDemoted(d.demotions, id) && v[id].layer == -1
    {
    }
    if id :| id in ids && ShouldDemote(env, id, v[id]) && v[id].layer == -1 {
      assert Protected(w[id]) != Protected(v[id]);
    }
  }

  predicate OnlyEssence(v: Vault, w: Vault, id: Id)
    requires id in v
  {
    id in w && w[id] == v[id].(essence := w[id].essence) && (w[id] != v[id] ==> !Protected(v[id]))
  }

  /** A dry run changes nothing. Safe mode changes only essences of unprotected memories and
      adds memories, whatever the diff. */
  lemma SafeModeIsAdditive(env: Env, v: Vault, d: Diff, id: Id)
    requires NewIds(env) && id in v
    ensures Applied(env, v, d, true, false) == v && Applied(env, v, d, true, true) == v
    ensures var w := Applied(env, v, d, false, true);
            && id in w && w[id] == v[id].(essence := w[id].essence)
            && (w[id] != v[id] ==> !Protected(v[id]))
  {
    assert OnlyEssence(v, v, id);
    var inv := (w: Vault) => OnlyEssence(v, w, id);
    forall w: Vault, t | inv(w) && t in d.insights ensures inv(Reflected(env)(w, t)) {
      assert env.newId(w.Keys) !in w.Keys;
    }
    FoldKeeps(Reflected(env), inv, v, d.insights);
    forall w: Vault, r | inv(w) && r in d.rewrites ensures inv(Rewritten(env)(w, r)) {
      RewriteIs(env, w, r);
    }
    FoldKeeps(Rewritten(env), inv, Fold(Reflected(env), v, d.insights), d.rewrites);
  }

  lemma {:induction false} RewritesFit(env: Env, v: Vault, candidates: seq<Id>, items: seq<RewriteItem>, r: Rewrite)
    requires forall i :: 0 <= i < |candidates| ==> candidates[i] in v
    requires r in Rewrites(env, v, candidates, items)
    ensures r.id in candidates && r.id in v && r.oldHash == env.hash(v[r.id].essence)
    ensures r.essence != "" && Strip(r.essence) == r.essence && 2 * |r.essence| >= |v[r.id].essence|
  {
    StripFacts(items[0].essence);
    StripFacts(Strip(items[0].essence));
    var rest := Rewrites(env, v, candidates, items[1..]);
    if r in rest {
      RewritesFit(env, v, candidates, items[1..], r);
    }
  }

  predicate HalfKept(before: string, after: string) { after == before || 2 * |after| >= |before| }

  /** Safe mode keeps half of every essence whose rewrites are kept in full, when the digests of
      different texts differ: after one rewrite the digest no longer fits. */
  lemma SafeModeKeepsHalf(env: Env, v: Vault, ids: seq<Id>, projects: seq<string>, d: Diff, id: Id)
    requires NewIds(env) && Snapshot(v, ids) && BuiltOn(env, v, ids, projects, d) && id in v
    requires forall r :: r in d.rewrites && r.id == id ==> KeptInFull(r.essence)
    requires forall s, t :: env.hash(s) == env.hash(t) ==> s == t
    ensures var w := Applied(env, v, d, false, true); id in w && HalfKept(v[id].essence, w[id].essence)
  {
    CandidatesKnown(env, v, ids, TENSE_REWRITE_CAP);
    forall r | r in d.rewrites && r.id == id
      ensures r.oldHash == env.hash(v[id].essence) && r.essence != "" && Strip(r.essence) == r.essence
    {
      RewritesFit(env, v, RewriteCandidates(env, v, ids, TENSE_REWRITE_CAP), env.rewriteItems, r);
    }
    var inv := (w: Vault) => id in w && HalfKept(v[id].essence, w[id].essence);
    forall w: Vault, t | inv(w) && t in d.insights ensures inv(Reflected(env)(w, t)) {
      assert env.newId(w.Keys) !in w.Keys;
    }
    FoldKeeps(Reflected(env), inv, v, d.insights);
    forall w: Vault, r | inv(w) && r in d.rewrites ensures inv(Rewritten(env)(w, r)) {
      RewriteIs(env, w, r);
      if MayRewrite(env, w, r) && r.id == id {
        KeptSettles(r.essence, env.links(w, id, r.essence));
      }
    }
    FoldKeeps(Rewritten(env), inv, Fold(Reflected(env), v, d.insights), d.rewrites);
  }

  predicate Admits(text: string, before: string) { 2 * |text| >= |before| }

  /** The rewrite guard keeps half of whatever essence it admits a text for, whatever the links
      of the moment, if and only if the text is kept in full. */
  lemma RewriteGuardExactly(text: string)
    requires text != "" && Strip(text) == text
    ensures KeptInFull(text) <==>
            forall links, before :: Admits(text, before) ==> 2 * |Stored(text, links)| >= |before|
  {
    KeptInFullExactly(text);
    var longest: string := seq(2 * |text|, _ => 'x');
    assert Admits(text, longest);
    if forall links, before :: Admits(text, before) ==> 2 * |Stored(text, links)| >= |before| {
      forall links ensures |Stored(text, links)| >= |Strip(text)| {
        assert 2 * |Stored(text, links)| >= |longest|;
      }
    }
  }

  /** The rewrite guard too measures the text before it is stored: generated links at its end
      count, and are stripped. */
  lemma StoredRewriteIsShorter(env: Env, v: Vault, r: Rewrite, text: string, links: seq<Stem>)
    requires Settled(text) && links != [] && r.essence == text + (HEADER + LinkText(links))
    requires MayRewrite(env, v, r) && env.links(v, r.id, r.essence) == []
    ensures var w := Applied(env, v, Diff([], [], [], [], [], [r]), false, true);
            r.id in w && w[r.id].essence == text
  {
    LinksStrippedFromEnd(text, links);
    RewriteIs(env, v, r);
    OneFold(Rewritten(env), v, r);
  }

  lemma OneFold<T>(f: (Vault, T) -> Vault, v: Vault, t: T)
    ensures Fold(f, v, [t]) == f(v, t) && Fold(f, v, []) == v
  {
    assert [t][..0] == [];
  }

  // ---------------------------------------------------------------------------
  // Merges
  // ---------------------------------------------------------------------------

  lemma {:induction false} AbsorbedMeaning(env: Env, v: Vault, m: Merge, canonical: Id, ids: seq<Id>, id: Id)
    requires id in v
    ensures var w := Fold(Absorbed(env, m, canonical), v, ids);
            && w.Keys == v.Keys
            && if id in ids && id != "" && Supported(m, id) && !Protected(v[id]) then PointsTo(v[id], w[id], canonical)
               else w[id] == v[id]
    decreases |ids|
  {
    if ids != [] {
      var n := |ids| - 1;
      AbsorbedMeaning(env, v, m, canonical, ids[..n], id);
      assert ids == ids[..n] + [ids[n]];
      AbsorbOne(env, Fold(Absorbed(env, m, canonical), v, ids[..n]), m, canonical, ids[n], id);
    }
  }

  /** One member: an unprotected supported one is invalidated, and once more if listed twice. */
  lemma AbsorbOne(env: Env, v: Vault, m: Merge, canonical: Id, member: Id, id: Id)
    requires id in v
    ensures var w := Absorbed(env, m, canonical)(v, member);
            && w.Keys == v.Keys
            && if id == member && id != "" && Supported(m, id) && !Protected(v[id])
               then PointsTo(v[id], w[id], canonical)
               else w[id] == v[id]
  {
    InvalidatedPointsTo(env.links, v, id, canonical);
  }

  /** One merge: once the canonical memory is in the vault, exactly the unprotected members
      that the reply supports are invalidated, and they point to it; nothing else changes. */
  lemma MergeMeaning(env: Env, v: Vault, m: Merge, id: Id)
    requires NewIds(env) && id in v
    ensures var w := Merged(env)(v, m);
            var canonical := env.newId(v.Keys);
            && id in w
            && (canonical in w <==> env.makeable(m.canonical))
            && if canonical in w && id in m.ids && id != "" && Supported(m, id) && !Protected(v[id])
               then PointsTo(v[id], w[id], canonical)
               else w[id] == v[id]
  {
    var canonical := env.newId(v.Keys);
    assert canonical !in v.Keys;
    if env.makeable(m.canonical) {
      var created := Created(env, v, m.canonical);
      AbsorbedMeaning(env, created, m, canonical, m.ids, id);
      AbsorbedMeaning(env, created, m, canonical, m.ids, canonical);
    }
  }

  /** Why a memory may differ after all merges. */
  ghost predicate MergedAway(v: Vault, ms: seq<Merge>, w: Vault, id: Id)
    requires id in v
  {
    && id in w && !Protected(v[id]) && w[id].invalid
    && w[id].replacedBy.Some? && w[id].replacedBy.value in w && w[id].replacedBy.value !in v
    && exists m :: m in ms && id in m.ids && Supported(m, id)
  }

  /** Every memory that the merges invalidate was a supported member of one of them and points
      to a canonical memory that is in the vault. */
  lemma MergesInvalidateSupported(env: Env, v: Vault, ms: seq<Merge>, id: Id)
    requires NewIds(env) && id in v
    ensures var w := Fold(Merged(env), v, ms);
            id in w && (w[id] == v[id] || MergedAway(v, ms, w, id))
  {
    var inv := (w: Vault) => v.Keys <= w.Keys && (w[id] == v[id] || MergedAway(v, ms, w, id));
    forall w: Vault, m | inv(w) && m in ms ensures inv(Merged(env)(w, m)) {
      var next := Merged(env)(w, m);
      MergeMeaning(env, w, m, id);
      assert env.newId(w.Keys) !in w.Keys;
      forall k | k in w ensures k in next {
        MergeMeaning(env, w, m, k);
      }
    }
    FoldKeeps(Merged(env), inv, v, ms);
  }

  lemma {:induction false} MergeOfCluster(env: Env, cs: seq<seq<Id>>, i: nat, j: nat) returns (k: nat, l: nat)
    requires i < j < |Merges(env, cs)|
    ensures k < l < |cs| && Merges(env, cs)[i].ids == cs[k] && Merges(env, cs)[j].ids == cs[l]
  {
    if env.merge(cs[0]).None? {
      k, l := MergeOfCluster(env, cs[1..], i, j);
      k, l := k + 1, l + 1;
    } else if i > 0 {
      k, l := MergeOfCluster(env, cs[1..], i - 1, j - 1);
      k, l := k + 1, l + 1;
    } else {
      l := ClusterOfMerge(env, cs[1..], j - 1);
      k, l := 0, l + 1;
    }
  }

  lemma {:induction false} ClusterOfMerge(env: Env, cs: seq<seq<Id>>, i: nat) returns (k: nat)
    requires i < |Merges(env, cs)|
    ensures k < |cs| && Merges(env, cs)[i].ids == cs[k]
  {
    if env.merge(cs[0]).None? {
      k := ClusterOfMerge(env, cs[1..], i);
      k := k + 1;
    } else if i > 0 {
      k := ClusterOfMerge(env, cs[1..], i - 1);
      k := k + 1;
    } else {
      k := 0;
    }
  }

  /** No memory belongs to two merges of a pass, and none of their members is protected. */
  lemma MergesAreDisjoint(env: Env, v: Vault, ids: seq<Id>, projects: seq<string>, d: Diff, i: nat, j: nat, x: Id)
    requires Snapshot(v, ids) && BuiltOn(env, v, ids, projects, d)
    requires forall a, b :: 0 <= a < b < |projects| ==> projects[a] != projects[b]
    requires i < j < |d.merges| && x in d.merges[j].ids
    ensures x !in d.merges[i].ids && x in v && !Protected(v[x]) && !v[x].invalid
  {
    var cs := Clusters(env, v, ids, projects, true);
    var k, l := MergeOfCluster(env, cs, i, j);
    ClustersDisjoint(env, v, ids, projects, true, l, x);
  }

  // ---------------------------------------------------------------------------
  // Contradictions
  // ---------------------------------------------------------------------------

  /** The judgment of a pair names `winner` and, as the loser, `id`, both members of the pair. */
  predicate Loses(env: Env, p: Pair, id: Id, winner: Id) {
    env.judge(p) == Some(Verdict(winner, id)) && winner in {p.a, p.b} && id in {p.a, p.b}
  }

  /** One pair: the loser of a usable judgment is invalidated in favour of the winner, and
      nothing else changes. */
  lemma ResolvedMeaning(env: Env, v: Vault, p: Pair, id: Id)
    requires id in v
    ensures var w := Resolved(env)(v, p);
            && w.Keys == v.Keys
            && (forall winner :: Loses(env, p, id, winner) ==> PointsTo(v[id], w[id], winner))
            && ((forall winner :: !Loses(env, p, id, winner)) ==> w[id] == v[id])
  {
    if env.judge(p).Some? {
      var x := env.judge(p).value;
      if Loses(env, p, x.loser, x.winner) && x.loser in v {
        InvalidatedPointsTo(env.links, v, x.loser, x.winner);
      }
    }
  }

  /** What resolving pairs may change of a memory. */
  predicate SameButInvalidated(a: Mem, b: Mem) {
    b == a.(essence := b.essence, invalid := b.invalid, replacedBy := b.replacedBy)
  }

  lemma {:induction false} ResolutionsKeep(env: Env, v: Vault, ps: seq<Pair>, id: Id)
    requires id in v
    ensures var w := Fold(Resolved(env), v, ps); w.Keys == v.Keys && SameButInvalidated(v[id], w[id])
    decreases |ps|
  {
    if ps != [] {
      var n := |ps| - 1;
      ResolutionsKeep(env, v, ps[..n], id);
      var front := Fold(Resolved(env), v, ps[..n]);
      ResolvedMeaning(env, front, ps[n], id);
      if winner :| Loses(env, ps[n], id, winner) {
        assert PointsTo(front[id], Resolved(env)(front, ps[n])[id], winner);
      }
    }
  }

  /** After all pairs a memory that lost no judgment is as it was. */
  lemma {:induction false} WinnersStay(env: Env, v: Vault, ps: seq<Pair>, id: Id)
    requires id in v && forall i, winner :: 0 <= i < |ps| ==> !Loses(env, ps[i], id, winner)
    ensures id in Fold(Resolved(env), v, ps) && Fold(Resolved(env), v, ps)[id] == v[id]
    decreases |ps|
  {
    if ps != [] {
      var n := |ps| - 1;
      WinnersStay(env, v, ps[..n], id);
      ResolvedMeaning(env, Fold(Resolved(env), v, ps[..n]), ps[n], id);
    }
  }

  /** A memory that lost one is invalid and points to the winner of the last judgment it lost. */
  lemma {:induction false} LastLossDecides(env: Env, v: Vault, ps: seq<Pair>, id: Id, i: nat, winner: Id)
    requires id in v && i < |ps| && Loses(env, ps[i], id, winner)
    requires forall j, other :: i < j < |ps| ==> !Loses(env, ps[j], id, other)
    ensures var w := Fold(Resolved(env), v, ps);
            id in w && w[id] == v[id].(essence := w[id].essence, invalid := true, replacedBy := Some(winner))
    decreases |ps|
  {
    var n := |ps| - 1;
    ResolutionsKeep(env, v, ps[..n], id);
    var front := Fold(Resolved(env), v, ps[..n]);
    ResolvedMeaning(env, front, ps[n], id);
    if i < n {
      LastLossDecides(env, v, ps[..n], id, i, winner);
    } else {
      assert PointsTo(front[id], Resolved(env)(front, ps[n])[id], winner);
    }
  }

  /** A judgment may name one member of the pair both as winner and as loser; that memory is then
      invalid in favour of itself. It happens exactly when the last judgment it lost is such a one. */
  lemma SelfReplacedExactly(env: Env, v: Vault, ps: seq<Pair>, id: Id, i: nat, winner: Id)
    requires id in v && i < |ps| && Loses(env, ps[i], id, winner)
    requires forall j, other :: i < j < |ps| ==> !Loses(env, ps[j], id, other)
    ensures var w := Fold(Resolved(env), v, ps);
            && id in w && w[id].invalid
            && (w[id].replacedBy == Some(id) <==> env.judge(ps[i]) == Some(Verdict(id, id)))
  {
    LastLossDecides(env, v, ps, id, i, winner);
  }

  // ---------------------------------------------------------------------------
  // Summaries, insights and rewrites
  // ---------------------------------------------------------------------------

  lemma {:induction false} MarkedMeaning(env: Env, v: Vault, ids: seq<Id>, pattern: Id, id: Id)
    requires id in v
    ensures var w := Fold(Marked(env, pattern), v, ids);
            && w.Keys == v.Keys
            && if id in ids then IsResaved(v[id].(clusteredInto := Some(pattern)), w[id]) else w[id] == v[id]
    decreases |ids|
  {
    if ids != [] {
      var n := |ids| - 1;
      MarkedMeaning(env, v, ids[..n], pattern, id);
      assert ids == ids[..n] + [ids[n]];
      var front := Fold(Marked(env, pattern), v, ids[..n]);
      if ids[n] == id {
        ResavedIs(env.links, front, id, front[id].(clusteredInto := Some(pattern)));
      }
    }
  }

  /** One summary: a new memory holds the pattern and exactly the members point to it; without a
      usable pattern nothing changes. */
  lemma SummaryMeaning(env: Env, v: Vault, s: Summary, id: Id)
    requires NewIds(env) && id in v
    ensures var w, pattern := Summarized(env)(v, s), env.newId(v.Keys);
            && w.Keys == v.Keys + (if env.makeable(s.pattern) then {pattern} else {})
            && (if env.makeable(s.pattern) && id in s.ids
                then IsResaved(v[id].(clusteredInto := Some(pattern)), w[id]) else w[id] == v[id])
            && (env.makeable(s.pattern) && pattern !in s.ids ==> MadeFrom(w[pattern], s.pattern))
  {
    var pattern := env.newId(v.Keys);
    assert pattern !in v.Keys;
    if env.makeable(s.pattern) {
      var created := Created(env, v, s.pattern);
      FreshIsMade(env.links, v, pattern, s.pattern);
      MarkedMeaning(env, created, s.ids, pattern, id);
      MarkedMeaning(env, created, s.ids, pattern, pattern);
    }
  }

  /** One insight: a new memory holds it, and nothing else changes. */
  lemma InsightMeaning(env: Env, v: Vault, text: string)
    requires NewIds(env)
    ensures var w, id := Reflected(env)(v, text), env.newId(v.Keys);
            if env.makeable(text) then id !in v && id in w && w == v[id := w[id]] && MadeFrom(w[id], text) else w == v
  {
    var id := env.newId(v.Keys);
    assert id !in v.Keys;
    FreshIsMade(env.links, v, id, text);
  }

  /** One rewrite: it is carried out exactly when its memory is there, not protected and as it was
      when the rewrite was asked for, and the text has half its length and passes the scan. */
  lemma RewriteMeaning(env: Env, v: Vault, r: Rewrite)
    ensures var w := Rewritten(env)(v, r);
            if && r.id in v && v[r.id].layer != 0 && !v[r.id].decayImmune && r.essence != ""
               && env.hash(v[r.id].essence) == r.oldHash && 2 * |r.essence| >= |v[r.id].essence|
               && !env.threat(r.essence)
            then && r.id in w && w == v[r.id := v[r.id].(essence := w[r.id].essence)]
                 && exists links :: w[r.id].essence == Stored(r.essence, links)
            else w == v
  {
  }

  // ---------------------------------------------------------------------------
  // What the additive part does
  // ---------------------------------------------------------------------------

  /** The rewrite fits the memory as it is. */
  predicate Carried(env: Env, m: Mem, r: Rewrite) {
    && m.layer != 0 && !m.decayImmune && r.essence != "" && env.hash(m.essence) == r.oldHash
    && 2 * |r.essence| >= |m.essence| && !env.threat(r.essence)
  }

  lemma OneRewrite(env: Env, v: Vault, r: Rewrite, id: Id)
    requires id in v
    ensures var w := Rewritten(env)(v, r);
            && id in w
            && (r.id == id && Carried(env, v[id], r) ==>
                  && w[id] == v[id].(essence := w[id].essence)
                  && exists links :: w[id].essence == Stored(r.essence, links))
            && (!(r.id == id && Carried(env, v[id], r)) ==> w[id] == v[id])
  {
    RewriteMeaning(env, v, r);
  }

  /** A memory that no rewrite fits stays as it is. */
  lemma {:induction false} NoneCarried(env: Env, v: Vault, rs: seq<Rewrite>, id: Id)
    requires id in v && forall i :: 0 <= i < |rs| && rs[i].id == id ==> !Carried(env, v[id], rs[i])
    ensures id in Fold(Rewritten(env), v, rs) && Fold(Rewritten(env), v, rs)[id] == v[id]
    decreases |rs|
  {
    if rs != [] {
      var n := |rs| - 1;
      NoneCarried(env, v, rs[..n], id);
      OneRewrite(env, Fold(Rewritten(env), v, rs[..n]), rs[n], id);
    }
  }

  /** The first rewrite that fits a memory is carried out, and stays unless a later one names it. */
  lemma {:induction false} FirstCarried(env: Env, v: Vault, rs: seq<Rewrite>, id: Id, i: nat)
    requires id in v && i < |rs| && rs[i].id == id && Carried(env, v[id], rs[i])
    requires forall j :: 0 <= j < i && rs[j].id == id ==> !Carried(env, v[id], rs[j])
    requires forall j :: i < j < |rs| ==> rs[j].id != id
    ensures var w := Fold(Rewritten(env), v, rs);
            && id in w && w[id] == v[id].(essence := w[id].essence)
            && exists links :: w[id].essence == Stored(rs[i].essence, links)
    decreases |rs|
  {
    var n := |rs| - 1;
    if i == n {
      NoneCarried(env, v, rs[..n], id);
    } else {
      FirstCarried(env, v, rs[..n], id, i);
    }
    OneRewrite(env, Fold(Rewritten(env), v, rs[..n]), rs[n], id);
  }

  /** The insights from which a memory can be made. */
  function UsableInsights(env: Env, texts: seq<string>): set<nat> {
    set k: nat | k < |texts| && env.makeable(texts[k])
  }

  /** Insights leave the memories that are there alone and add one for each usable text. */
  lemma {:induction false} InsightsAdd(env: Env, v: Vault, texts: seq<string>)
    requires NewIds(env)
    ensures var w := Fold(Reflected(env), v, texts);
            && (forall id :: id in v ==> id in w && w[id] == v[id])
            && |w.Keys| == |v.Keys| + |UsableInsights(env, texts)|
    decreases |texts|
  {
    if texts == [] {
      assert UsableInsights(env, texts) == {};
    } else {
      var n := |texts| - 1;
      var front := Fold(Reflected(env), v, texts[..n]);
      InsightsAdd(env, v, texts[..n]);
      OneInsight(env, front, texts[n]);
      UsableSnoc(env, texts);
    }
  }

  lemma UsableSnoc(env: Env, texts: seq<string>)
    requires texts != []
    ensures var n := |texts| - 1;
            |UsableInsights(env, texts)| == |UsableInsights(env, texts[..n])| + if env.makeable(texts[n]) then 1 else 0
  {
    var n := |texts| - 1;
    var before := UsableInsights(env, texts[..n]);
    assert UsableInsights(env, texts) == if env.makeable(texts[n]) then before + {n} else before;
  }

  lemma OneInsight(env: Env, v: Vault, text: string)
    requires NewIds(env)
    ensures var w := Reflected(env)(v, text);
            && (forall id :: id in v ==> id in w && w[id] == v[id])
            && |w.Keys| == |v.Keys| + if env.makeable(text) then 1 else 0
  {
    var id := env.newId(v.Keys);
    if env.makeable(text) {
      OneMore(v, id, Fresh(Restored(env.links, v, id, text)));
    }
  }

  lemma OneMore(v: Vault, id: Id, m: Mem)
    requires id !in v.Keys
    ensures var w := v[id := m]; (forall x :: x in v ==> x in w && w[x] == v[x]) && |w.Keys| == |v.Keys| + 1
  {
    assert v[id := m].Keys == v.Keys + {id};
  }

  lemma {:induction false} InsightStored(env: Env, v: Vault, texts: seq<string>, k: nat) returns (id: Id)
    requires NewIds(env) && k < |texts| && env.makeable(texts[k])
    ensures var w := Fold(Reflected(env), v, texts); id !in v && id in w && MadeFrom(w[id], texts[k])
    decreases |texts|
  {
    var n := |texts| - 1;
    var front := Fold(Reflected(env), v, texts[..n]);
    InsightsAdd(env, v, texts[..n]);
    InsightMeaning(env, front, texts[n]);
    if k == n {
      id := env.newId(front.Keys);
    } else {
      id := InsightStored(env, v, texts[..n], k);
    }
  }

  lemma RewritesNameOld(env: Env, v: Vault, ids: seq<Id>, projects: seq<string>, d: Diff, r: Rewrite)
    requires Snapshot(v, ids) && BuiltOn(env, v, ids, projects, d) && r in d.rewrites
    ensures r.id in v && r.oldHash == env.hash(v[r.id].essence)
  {
    CandidatesKnown(env, v, ids, TENSE_REWRITE_CAP);
    RewritesFit(env, v, RewriteCandidates(env, v, ids, TENSE_REWRITE_CAP), env.rewriteItems, r);
  }

  /** Safe mode stores every usable insight as a memory of its own. */
  lemma SafeInsight(env: Env, v: Vault, ids: seq<Id>, projects: seq<string>, d: Diff, k: nat) returns (id: Id)
    requires NewIds(env) && Snapshot(v, ids) && BuiltOn(env, v, ids, projects, d)
    requires k < |env.insights| && env.makeable(env.insights[k])
    ensures var w := Applied(env, v, d, false, true); id !in v && id in w && MadeFrom(w[id], env.insights[k])
  {
    id := InsightStored(env, v, d.insights, k);
    forall i | 0 <= i < |d.rewrites| ensures d.rewrites[i].id != id {
      RewritesNameOld(env, v, ids, projects, d, d.rewrites[i]);
    }
    NoneCarried(env, Fold(Reflected(env), v, d.insights), d.rewrites, id);
  }

  /** Safe mode rewrites a memory exactly when some rewrite of the diff fits it, and with the first that
      does, when no later one names it; otherwise it leaves the memory alone. */
  lemma SafeRewrite(env: Env, v: Vault, d: Diff, id: Id, i: nat)
    requires NewIds(env) && id in v && i <= |d.rewrites|
    requires forall j :: 0 <= j < i && d.rewrites[j].id == id ==> !Carried(env, v[id], d.rewrites[j])
    requires i < |d.rewrites| ==> d.rewrites[i].id == id && Carried(env, v[id], d.rewrites[i])
    requires forall j :: i < j < |d.rewrites| ==> d.rewrites[j].id != id
    ensures var w := Applied(env, v, d, false, true);
            && id in w && w[id] == v[id].(essence := w[id].essence)
            && (if i == |d.rewrites| then w[id] == v[id]
                else exists links :: w[id].essence == Stored(d.rewrites[i].essence, links))
  {
    var front := Fold(Reflected(env), v, d.insights);
    InsightsAdd(env, v, d.insights);
    if i == |d.rewrites| {
      NoneCarried(env, front, d.rewrites, id);
    } else {
      FirstCarried(env, front, d.rewrites, id, i);
    }
  }

  // ---------------------------------------------------------------------------
  // What a full pass does to a memory
  // ---------------------------------------------------------------------------

  /** When each step raises a flag exactly if its item is a hit, the flag is up in the end exactly
      if it was at the start or some item is one. */
  lemma {:induction false} FoldOr<T(!new)>(
      f: (Vault, T) -> Vault, inv: Vault -> bool, flag: Vault -> bool, hit: T -> bool, v: Vault, ts: seq<T>)
    requires inv(v)
    requires forall w, t :: inv(w) ==> inv(f(w, t)) && (flag(f(w, t)) <==> flag(w) || hit(t))
    ensures inv(Fold(f, v, ts))
    ensures flag(Fold(f, v, ts)) <==> flag(v) || exists t :: t in ts && hit(t)
    decreases |ts|
  {
    if ts != [] {
      var n := |ts| - 1;
      FoldOr(f, inv, flag, hit, v, ts[..n]);
      assert forall t :: t in ts <==> t in ts[..n] || t == ts[n];
    }
  }

  /** The memory is there with the layer and the immunity of `m`. */
  predicate Stands(w: Vault, id: Id, m: Mem) { id in w && w[id].layer == m.layer && w[id].decayImmune == m.decayImmune }

  ghost predicate LosesOne(env: Env, p: Pair, id: Id) { exists winner :: Loses(env, p, id, winner) }

  predicate Summarizes(env: Env, s: Summary, id: Id) { env.makeable(s.pattern) && id in s.ids }

  /** The merge comes about and the reply supports the member by its first eight characters. */
  predicate Absorbs(env: Env, m: Merge, id: Id) {
    && env.makeable(m.canonical) && id in m.ids && id != ""
    && exists i :: 0 <= i < |m.supporting| && Take8(m.supporting[i]) == Take8(id)
  }

  lemma ResolveStage(env: Env, v: Vault, ps: seq<Pair>, id: Id)
    requires id in v
    ensures var w := Fold(Resolved(env), v, ps);
            && Stands(w, id, v[id]) && w[id].clusteredInto == v[id].clusteredInto
            && (w[id].invalid <==> v[id].invalid || exists p :: p in ps && LosesOne(env, p, id))
  {
    var inv := (w: Vault) => id in w;
    var flag := (w: Vault) => id in w && w[id].invalid;
    var hit := (p: Pair) => env.judge(p).Some? && Loses(env, p, id, env.judge(p).value.winner);
    forall w, p | inv(w) ensures inv(Resolved(env)(w, p)) && (flag(Resolved(env)(w, p)) <==> flag(w) || hit(p)) {
      ResolvedMeaning(env, w, p, id);
      if hit(p) {
        assert PointsTo(w[id], Resolved(env)(w, p)[id], env.judge(p).value.winner);
      }
    }
    FoldOr(Resolved(env), inv, flag, hit, v, ps);
    ResolutionsKeep(env, v, ps, id);
    forall p ensures hit(p) <==> LosesOne(env, p, id) {
      if hit(p) {
        assert Loses(env, p, id, env.judge(p).value.winner);
      }
    }
  }

  lemma SummaryStage(env: Env, v: Vault, ss: seq<Summary>, id: Id)
    requires NewIds(env) && id in v
    ensures var w := Fold(Summarized(env), v, ss);
            && Stands(w, id, v[id]) && w[id].invalid == v[id].invalid
            && (w[id].clusteredInto.Some? <==>
                  v[id].clusteredInto.Some? || exists s :: s in ss && Summarizes(env, s, id))
  {
    var inv := (w: Vault) => Stands(w, id, v[id]) && w[id].invalid == v[id].invalid;
    var flag := (w: Vault) => id in w && w[id].clusteredInto.Some?;
    var hit := (s: Summary) => Summarizes(env, s, id);
    forall w, s | inv(w) ensures inv(Summarized(env)(w, s)) && (flag(Summarized(env)(w, s)) <==> flag(w) || hit(s)) {
      SummaryMeaning(env, w, s, id);
    }
    FoldOr(Summarized(env), inv, flag, hit, v, ss);
  }

  lemma MergeStage(env: Env, v: Vault, ms: seq<Merge>, id: Id)
    requires NewIds(env) && id in v
    ensures var w := Fold(Merged(env), v, ms);
            && Stands(w, id, v[id]) && w[id].clusteredInto == v[id].clusteredInto
            && (w[id].invalid <==>
                  || v[id].invalid
                  || (v[id].layer != 0 && !v[id].decayImmune && exists m :: m in ms && Absorbs(env, m, id)))
  {
    var inv := (w: Vault) => Stands(w, id, v[id]) && w[id].clusteredInto == v[id].clusteredInto;
    var flag := (w: Vault) => id in w && w[id].invalid;
    var hit := (m: Merge) => v[id].layer != 0 && !v[id].decayImmune && Absorbs(env, m, id);
    forall w, m | inv(w) ensures inv(Merged(env)(w, m)) && (flag(Merged(env)(w, m)) <==> flag(w) || hit(m)) {
      MergeMeaning(env, w, m, id);
    }
    FoldOr(Merged(env), inv, flag, hit, v, ms);
  }

  /** Insights and rewrites change nothing but essences. */
  lemma AdditiveStage(env: Env, v: Vault, d: Diff, id: Id)
    requires NewIds(env) && id in v
    ensures var w := Additive(env, v, d); id in w && w[id] == v[id].(essence := w[id].essence)
  {
    SafeModeIsAdditive(env, v, d, id);
  }

  /** After a full pass a memory is invalid exactly if it was, if it lost a judgment, or if a merge
      that came about absorbed it unprotected; it belongs to a summary exactly if it did, or if it
      is a member of one that came about. */
  lemma FullPassExactly(env: Env, v: Vault, d: Diff, id: Id)
    requires NewIds(env) && id in v && DemotionsFit(v, d.demotions)
    ensures var w := Applied(env, v, d, false, false);
            && id in w
            && (w[id].invalid <==>
                  || v[id].invalid
                  || (exists p :: p in d.pairs && LosesOne(env, p, id))
                  || (w[id].layer != 0 && !w[id].decayImmune && exists m :: m in d.merges && Absorbs(env, m, id)))
            && (w[id].clusteredInto.Some? <==>
                  v[id].clusteredInto.Some? || exists s :: s in d.summaries && Summarizes(env, s, id))
            && w[id].layer == v[id].layer + if IsDemoted(d.demotions, id) then 1 else 0
  {
    DemotedMeaning(env, v, d.demotions);
    var demoted := Fold(Demoted(env), v, d.demotions);
    ResolveStage(env, demoted, d.pairs, id);
    var resolved := Fold(Resolved(env), demoted, d.pairs);
    SummaryStage(env, resolved, d.summaries, id);
    var summarized := Fold(Summarized(env), resolved, d.summaries);
    MergeStage(env, summarized, d.merges, id);
    AdditiveStage(env, Fold(Merged(env), summarized, d.merges), d, id);
  }
}
