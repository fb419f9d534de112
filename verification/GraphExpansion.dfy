/** Graph expansion of recall: `_expand_related_frontmatter`, `_expand_graph_index`,
    `_expand_graph` and `_linked_memories` of memem/recall.py. */
module GraphExpansion {
  import opened PyStrings
  import opened Wrappers

  type Key = string

  datatype Mem = Mem(id: string, active: bool)

  /** Where links lead: the keys a memory links to at each hop, the memory of a key, and what
      the check for duplicates compares, the key itself or a part of it. */
  datatype Net = Net(links: (nat, Mem) -> seq<Key>, find: Key -> Option<Mem>, tag: Key -> Key)

  predicate Live(net: Net, k: Key) { net.find(k).Some? && net.find(k).value.active }

  function MemOf(net: Net, k: Key): Mem {
    match net.find(k)
    case Some(m) => m
    case None => Mem(k, false)
  }

  function MemsOf(net: Net, ks: seq<Key>): (ms: seq<Mem>)
    ensures |ms| == |ks|
  {
    seq(|ks|, i requires 0 <= i < |ks| => MemOf(net, ks[i]))
  }

  function SeedKeys(seeds: seq<Mem>): set<Key> { set m | m in seeds :: Take8(m.id) }

  // ---------------------------------------------------------------------------
  // Level by level
  // ---------------------------------------------------------------------------

  /** The live keys of a list that were not seen before, each once. */
  function Scan(net: Net, ks: seq<Key>, seen: set<Key>): seq<Key> {
    if ks == [] then []
    else if net.tag(ks[0]) in seen || !Live(net, ks[0]) then Scan(net, ks[1..], seen)
    else [ks[0]] + Scan(net, ks[1..], seen + {net.tag(ks[0])})
  }

  function LinksOf(net: Net, hop: nat, frontier: seq<Mem>): seq<Key> {
    if frontier == [] then [] else net.links(hop, frontier[0]) + LinksOf(net, hop, frontier[1..])
  }

  function Tags(net: Net, ks: seq<Key>): set<Key> { set k | k in ks :: net.tag(k) }

  function Levels(net: Net, hop: nat, frontier: seq<Mem>, seen: set<Key>, hops: nat): seq<Key>
    decreases hops
  {
    if hops == 0 then []
    else
      var next := Scan(net, LinksOf(net, hop, frontier), seen);
      next + Levels(net, hop + 1, MemsOf(net, next), seen + Tags(net, next), hops - 1)
  }

  function Capped<T>(s: seq<T>, cap: nat): seq<T> { if |s| <= cap then s else s[..cap] }

  function Unbounded(net: Net, seeds: seq<Mem>, hops: nat): seq<Mem> {
    seeds + MemsOf(net, Levels(net, 0, seeds, SeedKeys(seeds), hops))
  }

  function Expand(net: Net, seeds: seq<Mem>, cap: nat, hops: nat): seq<Mem> {
    Capped(Unbounded(net, seeds, hops), cap)
  }

  lemma {:induction false} LevelsOfNothing(net: Net, hop: nat, seen: set<Key>, hops: nat)
    ensures Levels(net, hop, [], seen, hops) == []
    decreases hops
  {
    if hops > 0 {
      LevelsOfNothing(net, hop + 1, seen + Tags(net, []), hops - 1);
    }
  }

  // ---------------------------------------------------------------------------
  // The two loops
  // ---------------------------------------------------------------------------

  lemma HopStep(net: Net, hop: nat, frontier: seq<Mem>, seen: set<Key>, hops: nat,
                results: seq<Mem>, next: seq<Mem>, full: seq<Mem>)
    requires hops > 0 && results + MemsOf(net, Levels(net, hop, frontier, seen, hops)) == full
    requires next <= MemsOf(net, Scan(net, LinksOf(net, hop, frontier), seen))
    ensures results + next <= full
    ensures var found := Scan(net, LinksOf(net, hop, frontier), seen);
            next == MemsOf(net, found) ==>
              results + next + MemsOf(net, Levels(net, hop + 1, next, seen + Tags(net, found), hops - 1)) == full
  {
    var found := Scan(net, LinksOf(net, hop, frontier), seen);
    var later := Levels(net, hop + 1, MemsOf(net, found), seen + Tags(net, found), hops - 1);
    assert MemsOf(net, found + later) == MemsOf(net, found) + MemsOf(net, later);
    assert full == results + MemsOf(net, found) + MemsOf(net, later);
  }

  /** One more link of a memory. */
  lemma ScanLink(net: Net, got: seq<Key>, links: seq<Key>, j: nat, later: seq<Key>, seen: set<Key>)
    requires j < |links|
    ensures var k := links[j];
            got + Scan(net, links[j..] + later, seen) ==
              if net.tag(k) in seen || !Live(net, k) then got + Scan(net, links[j + 1..] + later, seen)
              else got + [k] + Scan(net, links[j + 1..] + later, seen + {net.tag(k)})
  {
    var all := links[j..] + later;
    assert all[0] == links[j] && all[1..] == links[j + 1..] + later;
    if !(net.tag(links[j]) in seen || !Live(net, links[j])) {
      var rest := Scan(net, links[j + 1..] + later, seen + {net.tag(links[j])});
      assert got + ([links[j]] + rest) == got + [links[j]] + rest;
    }
  }

  /** The duplicate check compares whole keys. */
  ghost predicate ByKey(net: Net) { forall k :: net.tag(k) == k }

  lemma {:induction false} ScanDead(net: Net, ks: seq<Key>, seen: set<Key>, dead: set<Key>)
    requires ByKey(net) && forall k :: k in dead ==> !Live(net, k)
    ensures Scan(net, ks, seen + dead) == Scan(net, ks, seen)
  {
    if ks != [] {
      if ks[0] in seen || !Live(net, ks[0]) {
        ScanDead(net, ks[1..], seen, dead);
      } else {
        ScanDead(net, ks[1..], seen + {ks[0]}, dead);
        assert seen + dead + {ks[0]} == seen + {ks[0]} + dead;
      }
    }
  }

  lemma {:induction false} LevelsDead(net: Net, hop: nat, frontier: seq<Mem>, seen: set<Key>, dead: set<Key>, hops: nat)
    requires ByKey(net) && forall k :: k in dead ==> !Live(net, k)
    ensures Levels(net, hop, frontier, seen + dead, hops) == Levels(net, hop, frontier, seen, hops)
    decreases hops
  {
    if hops > 0 {
      var next := Scan(net, LinksOf(net, hop, frontier), seen);
      ScanDead(net, LinksOf(net, hop, frontier), seen, dead);
      assert seen + dead + Tags(net, next) == seen + Tags(net, next) + dead;
      LevelsDead(net, hop + 1, MemsOf(net, next), seen + Tags(net, next), dead, hops - 1);
    }
  }

  /** What one hop finds: up to the cap, what the scan of all links finds; `dead` are keys that
      it marked as seen although they lead nowhere. */
  ghost predicate Hopped(net: Net, hop: nat, frontier: seq<Mem>, seen: set<Key>, seen': set<Key>, dead: set<Key>,
                         before: nat, next: seq<Mem>, cap: nat) {
    var found := Scan(net, LinksOf(net, hop, frontier), seen);
    && next <= MemsOf(net, found) && (forall k :: k in dead ==> !Live(net, k))
    && (before + |next| < cap ==> next == MemsOf(net, found) && seen' == seen + Tags(net, found) + dead)
  }

  /** One hop of the front-matter search; keys that lead nowhere are marked as seen too. */
  method RelatedHop(net: Net, hop: nat, frontier: seq<Mem>, seen: set<Key>, results: seq<Mem>, cap: nat)
    returns (next: seq<Mem>, seen': set<Key>, ghost dead: set<Key>)
    requires ByKey(net) && |results| < cap
    ensures Hopped(net, hop, frontier, seen, seen', dead, |results|, next, cap)
  {
    next, seen', dead := [], seen, {};
    ghost var found := Scan(net, LinksOf(net, hop, frontier), seen);
    ghost var got: seq<Key> := [];
    for i := 0 to |frontier|
      invariant next == MemsOf(net, got) && |results| + |next| < cap
      invariant seen' == seen + Tags(net, got) + dead && forall k :: k in dead ==> !Live(net, k)
      invariant got + Scan(net, LinksOf(net, hop, frontier[i..]), seen') == found
    {
      var related := net.links(hop, frontier[i]);
      ghost var later := LinksOf(net, hop, frontier[i + 1..]);
      assert frontier[i..][1..] == frontier[i + 1..];
      for j := 0 to |related|
        invariant next == MemsOf(net, got) && |results| + |next| < cap
        invariant seen' == seen + Tags(net, got) + dead && forall k :: k in dead ==> !Live(net, k)
        invariant got + Scan(net, related[j..] + later, seen') == found
      {
        var k := related[j];
        ScanLink(net, got, related, j, later, seen');
        if k !in seen' {
          if net.find(k).Some? && net.find(k).value.active {
            got := got + [k];
            next := next + [net.find(k).value];
            if |results| + |next| >= cap {
              assert got <= found;
              return;
            }
          } else {
            dead := dead + {k};
            ScanDead(net, related[j + 1..] + later, seen', {k});
          }
          seen' := seen' + {k};
        }
      }
      assert related[|related|..] + later == later;
    }
    assert frontier[|frontier|..] == [];
  }

  /** Until the cap is reached, the results and what is still to be found are all there is. */
  ghost predicate Ahead(net: Net, hop: nat, frontier: seq<Mem>, seen: set<Key>, hops: nat,
                        results: seq<Mem>, full: seq<Mem>, cap: nat) {
    && results <= full
    && (|results| < cap ==> results + MemsOf(net, Levels(net, hop, frontier, seen, hops)) == full)
  }

  lemma AllAhead(net: Net, seeds: seq<Mem>, cap: nat, hops: nat) returns (full: seq<Mem>)
    ensures Ahead(net, 0, seeds, SeedKeys(seeds), hops, seeds, full, cap)
    ensures Expand(net, seeds, cap, hops) == Capped(full, cap) && (seeds == [] ==> Capped(full, cap) == [])
  {
    full := Unbounded(net, seeds, hops);
    if seeds == [] {
      LevelsOfNothing(net, 0, SeedKeys(seeds), hops);
    }
  }

  /** Where the loop over the hops stops. */
  lemma NothingAhead(net: Net, hop: nat, frontier: seq<Mem>, seen: set<Key>, hops: nat,
                     results: seq<Mem>, full: seq<Mem>, cap: nat)
    requires Ahead(net, hop, frontier, seen, hops, results, full, cap)
    requires hops == 0 || |results| >= cap || frontier == []
    ensures Capped(results, cap) == Capped(full, cap)
  {
    if |results| < cap {
      if frontier == [] {
        LevelsOfNothing(net, hop, seen, hops);
      }
      assert Levels(net, hop, frontier, seen, hops) == [];
    }
  }

  lemma SameLater(net: Net, hop: nat, next: seq<Mem>, seen: set<Key>, dead: set<Key>, hops: nat)
    requires (dead == {} || ByKey(net)) && forall k :: k in dead ==> !Live(net, k)
    ensures Levels(net, hop, next, seen + dead, hops) == Levels(net, hop, next, seen, hops)
  {
    if dead == {} {
      assert seen + dead == seen;
    } else {
      LevelsDead(net, hop, next, seen, dead, hops);
    }
  }

  /** What one hop leaves for the next. */
  lemma HopDone(net: Net, hop: nat, frontier: seq<Mem>, seen: set<Key>, seen': set<Key>, dead: set<Key>, hops: nat,
                results: seq<Mem>, next: seq<Mem>, full: seq<Mem>, cap: nat)
    requires hops > 0 && |results| < cap && Ahead(net, hop, frontier, seen, hops, results, full, cap)
    requires Hopped(net, hop, frontier, seen, seen', dead, |results|, next, cap) && (dead == {} || ByKey(net))
    ensures Ahead(net, hop + 1, next, seen', hops - 1, results + next, full, cap)
  {
    HopStep(net, hop, frontier, seen, hops, results, next, full);
    SameLater(net, hop + 1, next, seen + Tags(net, Scan(net, LinksOf(net, hop, frontier), seen)), dead, hops - 1);
  }

  method RelatedStep(net: Net, hop: nat, frontier: seq<Mem>, seen: set<Key>, results: seq<Mem>, cap: nat,
                     ghost hops: nat, ghost full: seq<Mem>)
    returns (results': seq<Mem>, next: seq<Mem>, seen': set<Key>)
    requires ByKey(net) && hops > 0 && |results| < cap
    requires Ahead(net, hop, frontier, seen, hops, results, full, cap)
    ensures Ahead(net, hop + 1, next, seen', hops - 1, results', full, cap)
  {
    ghost var dead;
    next, seen', dead := RelatedHop(net, hop, frontier, seen, results, cap);
    HopDone(net, hop, frontier, seen, seen', dead, hops, results, next, full, cap);
    results' := results + next;
  }

  method ExpandRelated(net: Net, seeds: seq<Mem>, cap: nat, hops: nat) returns (results: seq<Mem>)
    requires ByKey(net)
    ensures results == Expand(net, seeds, cap, hops)
  {
    ghost var full := AllAhead(net, seeds, cap, hops);
    if seeds == [] {
      return [];
    }
    var seen := SeedKeys(seeds);
    results := seeds;
    var frontier := seeds;
    var hop := 0;
    while hop < hops && |results| < cap && frontier != []
      invariant hop <= hops && Ahead(net, hop, frontier, seen, hops - hop, results, full, cap)
      decreases hops - hop
    {
      results, frontier, seen := RelatedStep(net, hop, frontier, seen, results, cap, hops - hop, full);
      hop := hop + 1;
    }
    NothingAhead(net, hop, frontier, seen, hops - hop, results, full, cap);
    results := Capped(results, cap);
  }

  /** The lookup finds nothing for the empty key. */
  predicate NoEmptyKey(net: Net) { net.find("").None? }

  /** One hop over the graph database: only live keys are marked as seen. */
  method IndexHop(net: Net, hop: nat, frontier: seq<Mem>, seen: set<Key>, results: seq<Mem>, cap: nat)
    returns (next: seq<Mem>, seen': set<Key>)
    requires |results| < cap && NoEmptyKey(net)
    ensures Hopped(net, hop, frontier, seen, seen', {}, |results|, next, cap)
  {
    next, seen' := [], seen;
    ghost var found := Scan(net, LinksOf(net, hop, frontier), seen);
    ghost var got: seq<Key> := [];
    for i := 0 to |frontier|
      invariant next == MemsOf(net, got) && |results| + |next| < cap && seen' == seen + Tags(net, got)
      invariant got + Scan(net, LinksOf(net, hop, frontier[i..]), seen') == found
    {
      var neighbors := net.links(hop, frontier[i]);
      ghost var later := LinksOf(net, hop, frontier[i + 1..]);
      assert frontier[i..][1..] == frontier[i + 1..];
      for j := 0 to |neighbors|
        invariant next == MemsOf(net, got) && |results| + |next| < cap && seen' == seen + Tags(net, got)
        invariant got + Scan(net, neighbors[j..] + later, seen') == found
      {
        var k := neighbors[j];
        ScanLink(net, got, neighbors, j, later, seen');
        if k != "" && net.tag(k) !in seen' && net.find(k).Some? && net.find(k).value.active {
          got := got + [k];
          seen' := seen' + {net.tag(k)};
          next := next + [net.find(k).value];
          if |results| + |next| >= cap {
            assert got <= found;
            return;
          }
        }
      }
      assert neighbors[|neighbors|..] + later == later;
    }
    assert frontier[|frontier|..] == [];
  }

  method IndexStep(net: Net, hop: nat, frontier: seq<Mem>, seen: set<Key>, results: seq<Mem>, cap: nat,
                   ghost hops: nat, ghost full: seq<Mem>)
    returns (results': seq<Mem>, next: seq<Mem>, seen': set<Key>)
    requires NoEmptyKey(net) && hops > 0 && |results| < cap
    requires Ahead(net, hop, frontier, seen, hops, results, full, cap)
    ensures Ahead(net, hop + 1, next, seen', hops - 1, results', full, cap)
  {
    next, seen' := IndexHop(net, hop, frontier, seen, results, cap);
    HopDone(net, hop, frontier, seen, seen', {}, hops, results, next, full, cap);
    results' := results + next;
  }

  method ExpandIndex(net: Net, seeds: seq<Mem>, cap: nat, hops: nat) returns (results: seq<Mem>)
    requires NoEmptyKey(net)
    ensures results == Expand(net, seeds, cap, hops)
  {
    ghost var full := AllAhead(net, seeds, cap, hops);
    if seeds == [] {
      return [];
    }
    var seen := SeedKeys(seeds);
    results := seeds;
    var frontier := seeds;
    var hop := 0;
    while hop < hops && |results| < cap && frontier != []
      invariant hop <= hops && Ahead(net, hop, frontier, seen, hops - hop, results, full, cap)
      decreases hops - hop
    {
      results, frontier, seen := IndexStep(net, hop, frontier, seen, results, cap, hops - hop, full);
      hop := hop + 1;
    }
    NothingAhead(net, hop, frontier, seen, hops - hop, results, full, cap);
    results := Capped(results, cap);
  }

  // ---------------------------------------------------------------------------
  // What is found
  // ---------------------------------------------------------------------------

  predicate Distinct(net: Net, ks: seq<Key>) {
    forall i, j :: 0 <= i < j < |ks| ==> net.tag(ks[i]) != net.tag(ks[j])
  }

  lemma {:induction false} ScanFacts(net: Net, ks: seq<Key>, seen: set<Key>)
    ensures var found := Scan(net, ks, seen);
            && Distinct(net, found)
            && (forall k :: k in found ==> k in ks && net.tag(k) !in seen && Live(net, k))
            && forall k :: k in ks && net.tag(k) !in seen && Live(net, k) ==> net.tag(k) in Tags(net, found)
  {
    if ks != [] {
      var next := if net.tag(ks[0]) in seen || !Live(net, ks[0]) then seen else seen + {net.tag(ks[0])};
      ScanFacts(net, ks[1..], next);
      assert forall k :: k in ks <==> k == ks[0] || k in ks[1..];
    }
  }

  lemma DistinctConcat(net: Net, a: seq<Key>, b: seq<Key>)
    requires Distinct(net, a) && Distinct(net, b) && forall k :: k in b ==> net.tag(k) !in Tags(net, a)
    ensures Distinct(net, a + b)
  {
    forall i, j | 0 <= i < j < |a + b| ensures net.tag((a + b)[i]) != net.tag((a + b)[j]) {
      if i < |a| <= j {
        assert a[i] in a && b[j - |a|] in b;
      }
    }
  }

  /** Nothing is found twice, nothing already seen or inactive is found. */
  lemma {:induction false} LevelsDistinct(net: Net, hop: nat, frontier: seq<Mem>, seen: set<Key>, hops: nat)
    ensures var found := Levels(net, hop, frontier, seen, hops);
            && Distinct(net, found)
            && forall k :: k in found ==> net.tag(k) !in seen && net.find(k).Some? && net.find(k).value.active
    decreases hops
  {
    if hops > 0 {
      var next := Scan(net, LinksOf(net, hop, frontier), seen);
      ScanFacts(net, LinksOf(net, hop, frontier), seen);
      LevelsDistinct(net, hop + 1, MemsOf(net, next), seen + Tags(net, next), hops - 1);
      DistinctConcat(net, next, Levels(net, hop + 1, MemsOf(net, next), seen + Tags(net, next), hops - 1));
    }
  }

  lemma {:induction false} LinkOfFrontier(net: Net, hop: nat, frontier: seq<Mem>, k: Key)
    ensures k in LinksOf(net, hop, frontier) <==> exists m :: m in frontier && k in net.links(hop, m)
  {
    if frontier != [] {
      LinkOfFrontier(net, hop, frontier[1..], k);
      assert forall m :: m in frontier <==> m == frontier[0] || m in frontier[1..];
    }
  }

  // ---------------------------------------------------------------------------
  // Reachability by paths
  // ---------------------------------------------------------------------------

  /** A path of live keys outside `seen`, the first linked from a given memory. */
  predicate Path(net: Net, hop: nat, from: Mem, path: seq<Key>, seen: set<Key>)
    decreases |path|
  {
    path != [] ==>
      && path[0] in net.links(hop, from) && net.tag(path[0]) !in seen
      && net.find(path[0]).Some? && net.find(path[0]).value.active
      && Path(net, hop + 1, MemOf(net, path[0]), path[1..], seen)
  }

  /** `path` leads from the frontier to `k` in at most `hops` steps. */
  predicate Leads(net: Net, hop: nat, frontier: seq<Mem>, seen: set<Key>, hops: nat, path: seq<Key>, k: Key) {
    && 0 < |path| <= hops && path[|path| - 1] == k
    && exists m :: m in frontier && Path(net, hop, m, path, seen)
  }

  /** A later hop offers no link that an earlier one withholds. */
  ghost predicate Narrowing(net: Net) {
    forall h: nat, j: nat, m, k :: h <= j && k in net.links(j, m) ==> k in net.links(h, m)
  }

  /** Live keys that the duplicate check takes for one lead to one memory. */
  ghost predicate Determined(net: Net) {
    forall k, j :: net.tag(k) == net.tag(j) && Live(net, k) && Live(net, j) ==> net.find(k) == net.find(j)
  }

  lemma {:induction false} PathEarlier(net: Net, hop: nat, from: Mem, path: seq<Key>, seen: set<Key>)
    requires Narrowing(net) && Path(net, hop + 1, from, path, seen)
    ensures Path(net, hop, from, path, seen)
    decreases |path|
  {
    if path != [] {
      PathEarlier(net, hop + 1, MemOf(net, path[0]), path[1..], seen);
    }
  }

  lemma {:induction false} PathOutside(net: Net, hop: nat, from: Mem, path: seq<Key>, seen: set<Key>, more: set<Key>)
    requires Path(net, hop, from, path, seen) && forall k :: k in path ==> net.tag(k) !in more
    ensures Path(net, hop, from, path, seen + more)
    decreases |path|
  {
    if path != [] {
      PathOutside(net, hop + 1, MemOf(net, path[0]), path[1..], seen, more);
    }
  }

  lemma {:induction false} PathInside(net: Net, hop: nat, from: Mem, path: seq<Key>, seen: set<Key>, more: set<Key>)
    requires Path(net, hop, from, path, seen + more)
    ensures Path(net, hop, from, path, seen)
    decreases |path|
  {
    if path != [] {
      PathInside(net, hop + 1, MemOf(net, path[0]), path[1..], seen, more);
    }
  }

  /** The stretch of a path after its last key with a tag of `next`. */
  lemma {:induction false} LeaveForGood(net: Net, hop: nat, from: Mem, path: seq<Key>, seen: set<Key>, next: seq<Key>)
    returns (k: Key, rest: seq<Key>)
    requires Narrowing(net) && Determined(net) && Path(net, hop, from, path, seen)
    requires forall j :: j in next ==> Live(net, j)
    requires exists i :: 0 <= i < |path| && net.tag(path[i]) in Tags(net, next)
    ensures k in next && |rest| < |path| && Path(net, hop + 1, MemOf(net, k), rest, seen + Tags(net, next))
    ensures net.tag(path[|path| - 1]) == net.tag(if rest == [] then k else rest[|rest| - 1])
    decreases |path|
  {
    var tail := path[1..];
    if i :| 0 <= i < |tail| && net.tag(tail[i]) in Tags(net, next) {
      k, rest := LeaveForGood(net, hop + 1, MemOf(net, path[0]), tail, seen, next);
      PathEarlier(net, hop + 1, MemOf(net, k), rest, seen + Tags(net, next));
    } else {
      k :| k in next && net.tag(k) == net.tag(path[0]);
      rest := tail;
      PathOutside(net, hop + 1, MemOf(net, path[0]), tail, seen, Tags(net, next));
    }
  }

  lemma LinkOfFound(net: Net, hop: nat, frontier: seq<Mem>, seen: set<Key>, k: Key) returns (m: Mem)
    requires k in Scan(net, LinksOf(net, hop, frontier), seen)
    ensures m in frontier && k in net.links(hop, m) && net.tag(k) !in seen && Live(net, k)
  {
    ScanFacts(net, LinksOf(net, hop, frontier), seen);
    LinkOfFrontier(net, hop, frontier, k);
    m :| m in frontier && k in net.links(hop, m);
  }

  lemma LongerPath(net: Net, hop: nat, from: Mem, k: Key, rest: seq<Key>, seen: set<Key>)
    requires k in net.links(hop, from) && net.tag(k) !in seen && Live(net, k)
    requires Path(net, hop + 1, MemOf(net, k), rest, seen)
    ensures Path(net, hop, from, [k] + rest, seen)
  {
    assert ([k] + rest)[1..] == rest;
  }

  lemma {:induction false} FoundIsReachable(net: Net, hop: nat, frontier: seq<Mem>, seen: set<Key>, hops: nat, k: Key)
    returns (from: Mem, path: seq<Key>)
    requires k in Levels(net, hop, frontier, seen, hops)
    ensures from in frontier && 0 < |path| <= hops && path[|path| - 1] == k && Path(net, hop, from, path, seen)
    decreases hops
  {
    var next := Scan(net, LinksOf(net, hop, frontier), seen);
    if k in next {
      from := LinkOfFound(net, hop, frontier, seen, k);
      path := [k];
      LongerPath(net, hop, from, k, [], seen);
    } else {
      var m, rest := FoundIsReachable(net, hop + 1, MemsOf(net, next), seen + Tags(net, next), hops - 1, k);
      var i :| 0 <= i < |next| && m == MemOf(net, next[i]);
      from := LinkOfFound(net, hop, frontier, seen, next[i]);
      PathInside(net, hop + 1, m, rest, seen, Tags(net, next));
      LongerPath(net, hop, from, next[i], rest, seen);
      path := [next[i]] + rest;
    }
  }

  lemma FirstKeyIsFound(net: Net, hop: nat, frontier: seq<Mem>, from: Mem, path: seq<Key>, seen: set<Key>)
    requires path != [] && from in frontier && Path(net, hop, from, path, seen)
    ensures var next := Scan(net, LinksOf(net, hop, frontier), seen);
            net.tag(path[0]) in Tags(net, next) && forall k :: k in next ==> Live(net, k)
  {
    ScanFacts(net, LinksOf(net, hop, frontier), seen);
    LinkOfFrontier(net, hop, frontier, path[0]);
  }

  lemma LaterIsFound(net: Net, hop: nat, frontier: seq<Mem>, seen: set<Key>, hops: nat, next: seq<Key>, tag: Key)
    requires hops > 0 && next == Scan(net, LinksOf(net, hop, frontier), seen)
    requires || tag in Tags(net, next)
             || tag in Tags(net, Levels(net, hop + 1, MemsOf(net, next), seen + Tags(net, next), hops - 1))
    ensures tag in Tags(net, Levels(net, hop, frontier, seen, hops))
  {
  }

  lemma MemIn(net: Net, ks: seq<Key>, k: Key)
    requires k in ks
    ensures MemOf(net, k) in MemsOf(net, ks)
  {
    var i :| 0 <= i < |ks| && ks[i] == k;
    assert MemsOf(net, ks)[i] == MemOf(net, k);
  }

  /** One step of the search goes at least as far as one step of the path. */
  lemma Onward(net: Net, hop: nat, frontier: seq<Mem>, seen: set<Key>, from: Mem, path: seq<Key>, next: seq<Key>)
    returns (k: Key, rest: seq<Key>)
    requires Narrowing(net) && Determined(net) && next == Scan(net, LinksOf(net, hop, frontier), seen)
    requires from in frontier && path != [] && Path(net, hop, from, path, seen)
    ensures k in next && MemOf(net, k) in MemsOf(net, next)
    ensures |rest| < |path| && Path(net, hop + 1, MemOf(net, k), rest, seen + Tags(net, next))
    ensures net.tag(path[|path| - 1]) == net.tag(if rest == [] then k else rest[|rest| - 1])
  {
    FirstKeyIsFound(net, hop, frontier, from, path, seen);
    k, rest := LeaveForGood(net, hop, from, path, seen, next);
    MemIn(net, next, k);
  }

  lemma {:induction false} ReachableIsFound(net: Net, hop: nat, frontier: seq<Mem>, seen: set<Key>, hops: nat,
                                            from: Mem, path: seq<Key>)
    requires Narrowing(net) && Determined(net)
    requires from in frontier && 0 < |path| <= hops && Path(net, hop, from, path, seen)
    ensures net.tag(path[|path| - 1]) in Tags(net, Levels(net, hop, frontier, seen, hops))
    decreases hops
  {
    var next := Scan(net, LinksOf(net, hop, frontier), seen);
    var k, rest := Onward(net, hop, frontier, seen, from, path, next);
    if rest != [] {
      ReachableIsFound(net, hop + 1, MemsOf(net, next), seen + Tags(net, next), hops - 1, MemOf(net, k), rest);
    } else {
      assert net.tag(k) in Tags(net, next);
    }
    LaterIsFound(net, hop, frontier, seen, hops, next, net.tag(path[|path| - 1]));
  }

  /** Below the cap the expansion finds exactly what is reachable within `hops` through active
      memories outside the seeds, up to what the duplicate check takes for one. */
  lemma ExpansionIsReachability(net: Net, seeds: seq<Mem>, hops: nat, tag: Key)
    requires Narrowing(net) && Determined(net)
    ensures tag in Tags(net, Levels(net, 0, seeds, SeedKeys(seeds), hops)) <==>
            exists path, k :: net.tag(k) == tag && Leads(net, 0, seeds, SeedKeys(seeds), hops, path, k)
  {
    if tag in Tags(net, Levels(net, 0, seeds, SeedKeys(seeds), hops)) {
      var k :| k in Levels(net, 0, seeds, SeedKeys(seeds), hops) && net.tag(k) == tag;
      var from, path := FoundIsReachable(net, 0, seeds, SeedKeys(seeds), hops, k);
      assert Leads(net, 0, seeds, SeedKeys(seeds), hops, path, k);
    }
    if path, k :| net.tag(k) == tag && Leads(net, 0, seeds, SeedKeys(seeds), hops, path, k) {
      var m :| m in seeds && Path(net, 0, m, path, SeedKeys(seeds));
      ReachableIsFound(net, 0, seeds, SeedKeys(seeds), hops, m, path);
    }
  }

  // ---------------------------------------------------------------------------
  // Caps, hops and the fallback
  // ---------------------------------------------------------------------------

  lemma {:induction false} MoreHopsExtend(net: Net, hop: nat, frontier: seq<Mem>, seen: set<Key>, hops: nat)
    ensures Levels(net, hop, frontier, seen, hops) <= Levels(net, hop, frontier, seen, hops + 1)
    decreases hops
  {
    if hops > 0 {
      var next := Scan(net, LinksOf(net, hop, frontier), seen);
      MoreHopsExtend(net, hop + 1, MemsOf(net, next), seen + Tags(net, next), hops - 1);
    }
  }

  /** Seeds come first, a smaller cap gives a prefix, and so does a smaller number of hops. */
  lemma ExpandIsMonotone(net: Net, seeds: seq<Mem>, cap: nat, wider: nat, hops: nat)
    requires cap <= wider
    ensures |seeds| <= cap ==> seeds <= Expand(net, seeds, cap, hops)
    ensures Expand(net, seeds, cap, hops) <= Expand(net, seeds, wider, hops)
    ensures Expand(net, seeds, cap, hops) <= Expand(net, seeds, cap, hops + 1)
  {
    MoreHopsExtend(net, 0, seeds, SeedKeys(seeds), hops);
    var near, far := Levels(net, 0, seeds, SeedKeys(seeds), hops), Levels(net, 0, seeds, SeedKeys(seeds), hops + 1);
    assert MemsOf(net, near) <= MemsOf(net, far);
  }

  function ExpandGraph(index: Net, related: Net, seeds: seq<Mem>, cap: nat, hops: nat): seq<Mem> {
    var found := Expand(index, seeds, cap, hops);
    if |found| > |seeds| then found else Expand(related, seeds, cap, hops)
  }

  lemma {:induction false} FirstHopDecides(net: Net, seeds: seq<Mem>, seen: set<Key>, hops: nat)
    requires hops > 0
    ensures Levels(net, 0, seeds, seen, 1) == [] ==> Levels(net, 0, seeds, seen, hops) == []
  {
    if Levels(net, 0, seeds, seen, 1) == [] {
      assert Levels(net, 0, seeds, seen, 1) == Scan(net, LinksOf(net, 0, seeds), seen) + [];
      LevelsOfNothing(net, 1, seen + Tags(net, []), hops - 1);
    }
  }

  /** The source that answers. */
  function Chosen(index: Net, related: Net, seeds: seq<Mem>, cap: nat): Net {
    if |Expand(index, seeds, cap, 1)| > |seeds| then index else related
  }

  /** One hop and two hops choose the same source. */
  lemma SameSource(index: Net, related: Net, seeds: seq<Mem>, cap: nat, hops: nat)
    requires 1 <= hops <= 2
    ensures ExpandGraph(index, related, seeds, cap, hops) ==
            Expand(Chosen(index, related, seeds, cap), seeds, cap, hops)
  {
    ExpandIsMonotone(index, seeds, cap, cap, 1);
    FirstHopDecides(index, seeds, SeedKeys(seeds), hops);
  }

  /** So the one-hop answer is a prefix of the two-hop answer, fallback included. */
  lemma {:induction false} OneHopIsPrefix(index: Net, related: Net, seeds: seq<Mem>, cap: nat)
    ensures ExpandGraph(index, related, seeds, cap, 1) <= ExpandGraph(index, related, seeds, cap, 2)
  {
    SameSource(index, related, seeds, cap, 1);
    SameSource(index, related, seeds, cap, 2);
    ExpandIsMonotone(Chosen(index, related, seeds, cap), seeds, cap, cap, 1);
  }

  // What the second hop adds

  function FirstHop(net: Net, seeds: seq<Mem>): seq<Key> { Scan(net, LinksOf(net, 0, seeds), SeedKeys(seeds)) }

  function SecondHop(net: Net, seeds: seq<Mem>): seq<Key> {
    var first := FirstHop(net, seeds);
    Scan(net, LinksOf(net, 1, MemsOf(net, first)), SeedKeys(seeds) + Tags(net, first))
  }

  function Added(net: Net, seeds: seq<Mem>, cap: nat): seq<Mem> {
    var before := |seeds| + |FirstHop(net, seeds)|;
    if before >= cap then [] else Capped(MemsOf(net, SecondHop(net, seeds)), cap - before)
  }

  lemma TwoLevels(net: Net, seeds: seq<Mem>)
    ensures Levels(net, 0, seeds, SeedKeys(seeds), 1) == FirstHop(net, seeds)
    ensures Levels(net, 0, seeds, SeedKeys(seeds), 2) == FirstHop(net, seeds) + SecondHop(net, seeds)
  {
    var first := FirstHop(net, seeds);
    var seen := SeedKeys(seeds) + Tags(net, first);
    assert Levels(net, 1, MemsOf(net, first), seen, 0) == [];
    assert Levels(net, 1, MemsOf(net, first), seen, 1) == SecondHop(net, seeds) + [];
  }

  lemma MemsOfConcat(net: Net, a: seq<Key>, b: seq<Key>)
    ensures MemsOf(net, a + b) == MemsOf(net, a) + MemsOf(net, b)
  {
  }

  lemma CappedConcat<T>(a: seq<T>, b: seq<T>, cap: nat)
    ensures Capped(a + b, cap) == Capped(a, cap) + if |a| >= cap then [] else Capped(b, cap - |a|)
  {
  }

  /** The second hop appends what it finds as far as the cap allows, and nothing if and only if
      the cap is reached or it finds nothing. */
  lemma SecondHopAdds(net: Net, seeds: seq<Mem>, cap: nat)
    ensures Expand(net, seeds, cap, 2) == Expand(net, seeds, cap, 1) + Added(net, seeds, cap)
    ensures Expand(net, seeds, cap, 2) == Expand(net, seeds, cap, 1) <==>
            |seeds| + |FirstHop(net, seeds)| >= cap || SecondHop(net, seeds) == []
  {
    var first, second := FirstHop(net, seeds), SecondHop(net, seeds);
    TwoLevels(net, seeds);
    MemsOfConcat(net, first, second);
    var one := seeds + MemsOf(net, first);
    assert Unbounded(net, seeds, 2) == one + MemsOf(net, second);
    CappedConcat(one, MemsOf(net, second), cap);
    Lengthens(Expand(net, seeds, cap, 1), Added(net, seeds, cap));
  }

  lemma Lengthens<T>(a: seq<T>, b: seq<T>)
    ensures a + b == a <==> b == []
  {
    assert |a + b| == |a| + |b|;
  }

  function NotPrimary(primary: seq<Mem>, ms: seq<Mem>): seq<Mem> {
    if ms == [] then []
    else if ms[0].id != "" && Take8(ms[0].id) in PrimaryIds(primary) then NotPrimary(primary, ms[1..])
    else [ms[0]] + NotPrimary(primary, ms[1..])
  }

  function PrimaryIds(primary: seq<Mem>): set<Key> { set m | m in primary && m.id != "" :: Take8(m.id) }

  function LinkCap(primary: seq<Mem>): nat { if 10 * |primary| > 20 then 10 * |primary| else 20 }

  function LinkedMemories(index: Net, related: Net, primary: seq<Mem>, hops: nat): seq<Mem> {
    NotPrimary(primary, ExpandGraph(index, related, primary, LinkCap(primary), hops))
  }

  lemma {:induction false} NotPrimaryConcat(primary: seq<Mem>, a: seq<Mem>, b: seq<Mem>)
    ensures NotPrimary(primary, a + b) == NotPrimary(primary, a) + NotPrimary(primary, b)
  {
    if a == [] {
      assert a + b == b;
    } else {
      assert (a + b)[1..] == a[1..] + b;
      NotPrimaryConcat(primary, a[1..], b);
    }
  }

  /** Linked memories one hop away come before those two hops away, and none is lost; a second
      hop gives more if and only if it adds a memory that is not primary. */
  lemma NearerFirst(index: Net, related: Net, primary: seq<Mem>)
    ensures var one, two := LinkedMemories(index, related, primary, 1), LinkedMemories(index, related, primary, 2);
            var more := Added(Chosen(index, related, primary, LinkCap(primary)), primary, LinkCap(primary));
            && two == one + NotPrimary(primary, more)
            && (two == one <==> NotPrimary(primary, more) == [])
  {
    var cap := LinkCap(primary);
    var net := Chosen(index, related, primary, cap);
    SameSource(index, related, primary, cap, 1);
    SameSource(index, related, primary, cap, 2);
    SecondHopAdds(net, primary, cap);
    NotPrimaryConcat(primary, Expand(net, primary, cap, 1), Added(net, primary, cap));
    Lengthens(LinkedMemories(index, related, primary, 1), NotPrimary(primary, Added(net, primary, cap)));
  }

  /** The memory has the prefix of a primary one that has an id. */
  ghost predicate SharesPrimary(primary: seq<Mem>, m: Mem) {
    m.id != "" && exists p :: p in primary && p.id != "" && Take8(p.id) == Take8(m.id)
  }

  lemma IsPrimary(primary: seq<Mem>, m: Mem)
    ensures SharesPrimary(primary, m) <==> m.id != "" && Take8(m.id) in PrimaryIds(primary)
  {
  }

  lemma {:induction false} NotPrimaryMeaning(primary: seq<Mem>, ms: seq<Mem>, m: Mem)
    ensures multiset(NotPrimary(primary, ms))[m] == if SharesPrimary(primary, m) then 0 else multiset(ms)[m]
  {
    if ms != [] {
      IsPrimary(primary, ms[0]);
      NotPrimaryMeaning(primary, ms[1..], m);
      assert ms == [ms[0]] + ms[1..];
    }
  }

  /** A place of the expansion that is kept comes after exactly the kept places before it. */
  lemma {:induction false} NotPrimaryOrder(primary: seq<Mem>, ms: seq<Mem>, i: nat)
    requires i < |ms| && !SharesPrimary(primary, ms[i])
    ensures var before := |NotPrimary(primary, ms[..i])|;
            before < |NotPrimary(primary, ms)| && NotPrimary(primary, ms)[before] == ms[i]
  {
    NotPrimaryConcat(primary, ms[..i], ms[i..]);
    assert ms == ms[..i] + ms[i..];
    IsPrimary(primary, ms[i]);
    assert ms[i..][0] == ms[i];
  }

  /** The linked memories are those of the expansion whose prefix is not that of a primary memory,
      as often and in the order in which the expansion has them. */
  lemma LinkedExactly(index: Net, related: Net, primary: seq<Mem>, hops: nat, m: Mem)
    ensures var linked := LinkedMemories(index, related, primary, hops);
            var all := ExpandGraph(index, related, primary, if |primary| > 2 then 10 * |primary| else 20, hops);
            && multiset(linked)[m] == (if SharesPrimary(primary, m) then 0 else multiset(all)[m])
            && (m in linked <==> m in all && !SharesPrimary(primary, m))
            && forall i: nat :: i < |all| && !SharesPrimary(primary, all[i]) ==>
                 var before := |NotPrimary(primary, all[..i])|; before < |linked| && linked[before] == all[i]
  {
    var all := ExpandGraph(index, related, primary, LinkCap(primary), hops);
    NotPrimaryMeaning(primary, all, m);
    assert m in all <==> m in multiset(all);
    assert m in NotPrimary(primary, all) <==> m in multiset(NotPrimary(primary, all));
    forall i: nat | i < |all| && !SharesPrimary(primary, all[i])
      ensures var before := |NotPrimary(primary, all[..i])|;
              before < |NotPrimary(primary, all)| && NotPrimary(primary, all)[before] == all[i]
    {
      NotPrimaryOrder(primary, all, i);
    }
  }

  lemma OneLinkExpanded(index: Net, related: Net, a: Mem, b: Mem, hops: nat)
    requires 1 <= hops <= 2 && index.links(0, a) == [] && related.links(0, a) == [b.id] && ByKey(related)
    requires related.find(b.id) == Some(b) && b.active && Take8(a.id) != b.id
    requires hops == 2 ==> related.links(1, b) == []
    ensures ExpandGraph(index, related, [a], 20, hops) == [a, b]
  {
    var seeds := [a];
    assert LinksOf(index, 0, [a]) == [] by {
      assert [a][1..] == [];
    }
    TwoLevels(index, seeds);
    assert Expand(index, seeds, 20, 1) == seeds;
    OneLink(related, 0, a, SeedKeys(seeds));
    assert FirstHop(related, seeds) == [b.id] && MemsOf(related, [b.id]) == [b];
    TwoLevels(related, seeds);
    if hops == 2 {
      assert [b][1..] == [];
      assert LinksOf(related, 1, [b]) == [];
    }
    assert Expand(related, seeds, 20, hops) == [a, b];
    SameSource(index, related, seeds, 20, hops);
  }

  /** A primary memory with one link to an active memory with another prefix. */
  lemma OneLinkIsFound(index: Net, related: Net, a: Mem, b: Mem, hops: nat)
    requires 1 <= hops <= 2 && index.links(0, a) == [] && related.links(0, a) == [b.id] && ByKey(related)
    requires related.find(b.id) == Some(b) && b.active && Take8(a.id) != Take8(b.id) && Take8(a.id) != b.id
    requires hops == 2 ==> related.links(1, b) == []
    requires a.id != ""
    ensures LinkedMemories(index, related, [a], hops) == [b]
  {
    OneLinkExpanded(index, related, a, b, hops);
    assert [a, b][1..] == [b] && [b][1..] == [];
    assert PrimaryIds([a]) == {Take8(a.id)};
    assert NotPrimary([a], [b]) == [b];
  }

  /** A primary memory with one row in the edge table: that decides, whatever its front matter links to. */
  lemma OneRowIsFound(index: Net, related: Net, a: Mem, b: Mem, k: Key)
    requires index.links(0, a) == [k] && index.find(k) == Some(b) && b.active && index.tag(k) != Take8(a.id)
    requires a.id != "" && Take8(a.id) != Take8(b.id)
    ensures LinkedMemories(index, related, [a], 1) == [b]
  {
    var seeds := [a];
    OneLink(index, 0, a, SeedKeys(seeds));
    assert SeedKeys(seeds) == {Take8(a.id)};
    assert FirstHop(index, seeds) == [k] && MemsOf(index, [k]) == [b];
    TwoLevels(index, seeds);
    assert Expand(index, seeds, 20, 1) == [a, b];
    assert ExpandGraph(index, related, seeds, 20, 1) == [a, b];
    assert [a, b][1..] == [b] && [b][1..] == [];
    assert PrimaryIds([a]) == {Take8(a.id)};
    assert NotPrimary([a], [b]) == [b];
  }

  /** With a memory that links only to one that links only back, the second hop adds nothing. */
  lemma TwoHopsCanAddNothing(index: Net, related: Net, a: Mem, b: Mem)
    requires index.links(0, a) == []
    requires related.links(0, a) == [Take8(b.id)] && related.links(1, b) == [Take8(a.id)] && ByKey(related)
    requires related.find(Take8(b.id)) == Some(b) && b.active && Take8(a.id) != Take8(b.id)
    ensures LinkedMemories(index, related, [a], 2) == LinkedMemories(index, related, [a], 1)
  {
    var seeds, k := [a], Take8(b.id);
    assert LinksOf(index, 0, [a]) == [] by {
      assert [a][1..] == [];
    }
    TwoLevels(index, seeds);
    assert Expand(index, seeds, 20, 1) == seeds;
    OneLink(related, 0, a, SeedKeys(seeds));
    assert SeedKeys(seeds) == {Take8(a.id)};
    assert FirstHop(related, seeds) == [k];
    assert MemsOf(related, [k]) == [b];
    OneLink(related, 1, b, SeedKeys(seeds) + Tags(related, [k]));
    SecondHopAdds(related, seeds, 20);
    NearerFirst(index, related, seeds);
  }

  lemma OneLink(net: Net, hop: nat, m: Mem, seen: set<Key>)
    requires |net.links(hop, m)| == 1
    ensures var k := net.links(hop, m)[0];
            Scan(net, LinksOf(net, hop, [m]), seen) == if net.tag(k) in seen || !Live(net, k) then [] else [k]
  {
    var links := net.links(hop, m);
    assert [m][1..] == [] && links[1..] == [];
    assert LinksOf(net, hop, [m]) == links;
  }

  // ---------------------------------------------------------------------------
  // The two kinds of links
  // ---------------------------------------------------------------------------

  /** A row of the edge table for one memory: the destination and the score. */
  datatype Row = Row(dst: Key, score: real)

  predicate ByScore(rows: seq<Row>) {
    forall i, j :: 0 <= i < j < |rows| ==> rows[i].score >= rows[j].score
  }

  function MinScore(hop: nat): real { if hop == 0 then 0.18 else 0.30 }

  /** The selection of rows by threshold, cut at `limit`. */
  function Neighbors(rows: seq<Row>, minScore: real, limit: nat): seq<Key> {
    if rows == [] || limit == 0 then []
    else if rows[0].score >= minScore then [rows[0].dst] + Neighbors(rows[1..], minScore, limit - 1)
    else Neighbors(rows[1..], minScore, limit)
  }

  function IndexNet(rows: Mem -> seq<Row>, limit: nat, find: Key -> Option<Mem>): Net {
    Net((h: nat, m) => Neighbors(rows(m), MinScore(h), limit), find, (k: Key) => Take8(k))
  }

  function RelatedNet(related: Mem -> seq<Key>, find: Key -> Option<Mem>): Net {
    Net((h: nat, m) => related(m), find, (k: Key) => k)
  }

  lemma {:induction false} NeighborsExactly(rows: seq<Row>, minScore: real, limit: nat, k: Key)
    ensures var all := Neighbors(rows, minScore, |rows|);
            && Neighbors(rows, minScore, limit) == Capped(all, limit) && |all| <= |rows|
            && (k in all <==> exists i :: 0 <= i < |rows| && rows[i].dst == k && rows[i].score >= minScore)
  {
    if rows != [] {
      NeighborsExactly(rows[1..], minScore, |rows|, k);
      NeighborsExactly(rows[1..], minScore, limit, k);
      if limit > 0 {
        NeighborsExactly(rows[1..], minScore, limit - 1, k);
      }
      assert forall i :: 0 < i < |rows| ==> rows[i] == rows[1..][i - 1];
      if i :| 0 <= i < |rows[1..]| && rows[1..][i].dst == k && rows[1..][i].score >= minScore {
        assert rows[i + 1].dst == k && rows[i + 1].score >= minScore;
      }
    }
  }

  /** Over the edge table the links of a memory are the first `limit` of its rows with a score of at
      least 0.18, and on later hops 0.30. */
  lemma IndexLinksExactly(rows: Mem -> seq<Row>, limit: nat, find: Key -> Option<Mem>, hop: nat, m: Mem, k: Key)
    ensures var all := IndexNet(rows, |rows(m)|, find).links(hop, m);
            && IndexNet(rows, limit, find).links(hop, m) == (if |all| <= limit then all else all[..limit])
            && (k in all <==>
                exists i :: 0 <= i < |rows(m)| && rows(m)[i].dst == k
                            && rows(m)[i].score >= if hop == 0 then 0.18 else 0.30)
  {
    NeighborsExactly(rows(m), if hop == 0 then 0.18 else 0.30, limit, k);
  }

  lemma {:induction false} NoneAbove(rows: seq<Row>, minScore: real, limit: nat)
    requires ByScore(rows) && (rows != [] ==> rows[0].score < minScore)
    ensures Neighbors(rows, minScore, limit) == []
  {
    if rows != [] {
      NoneAbove(rows[1..], minScore, limit);
    }
  }

  lemma {:induction false} HigherIsPrefix(rows: seq<Row>, low: real, high: real, limit: nat)
    requires ByScore(rows) && low <= high
    ensures Neighbors(rows, high, limit) <= Neighbors(rows, low, limit)
  {
    if rows != [] && limit > 0 {
      if rows[0].score >= high {
        HigherIsPrefix(rows[1..], low, high, limit - 1);
      } else {
        NoneAbove(rows, high, limit);
      }
    }
  }

  /** A lookup finds the memory with that id or, from eight characters on, one whose id starts
      with the key. */
  ghost predicate Resolves(find: Key -> Option<Mem>) {
    forall k: Key :: find(k).Some? ==> k == find(k).value.id || (|k| >= 8 && k <= find(k).value.id)
  }

  /** Both kinds of links only narrow from hop to hop, and whole keys lead to one memory; prefixes
      do when no two active memories that the lookup finds share one. */
  lemma NetsNarrow(rows: Mem -> seq<Row>, related: Mem -> seq<Key>, limit: nat, find: Key -> Option<Mem>)
    requires Resolves(find) && forall m :: ByScore(rows(m))
    ensures Narrowing(IndexNet(rows, limit, find)) && Narrowing(RelatedNet(related, find))
    ensures Determined(RelatedNet(related, find)) && ByKey(RelatedNet(related, find))
    ensures Determined(IndexNet(rows, limit, find)) <==>
            forall k, j ::
              Live(IndexNet(rows, limit, find), k) && Live(IndexNet(rows, limit, find), j) ==>
              Take8(find(k).value.id) == Take8(find(j).value.id) ==> find(k) == find(j)
  {
    var net := IndexNet(rows, limit, find);
    forall h: nat, j: nat, m, k | h <= j && k in net.links(j, m) ensures k in net.links(h, m) {
      HigherIsPrefix(rows(m), MinScore(h), MinScore(j), limit);
    }
    assert forall k :: Live(net, k) ==> net.tag(k) == Take8(find(k).value.id);
  }

  // ---------------------------------------------------------------------------
  // Memories found twice
  // ---------------------------------------------------------------------------

  /** No two of the found memories have one prefix, and none has that of a seed. */
  predicate NothingTwice(net: Net, seeds: seq<Mem>, hops: nat) {
    var found := MemsOf(net, Levels(net, 0, seeds, SeedKeys(seeds), hops));
    && (forall i, j :: 0 <= i < j < |found| ==> Take8(found[i].id) != Take8(found[j].id))
    && (forall i :: 0 <= i < |found| ==> Take8(found[i].id) !in SeedKeys(seeds))
  }

  lemma TagsTellMemories(net: Net, seeds: seq<Mem>, hops: nat)
    requires forall k :: k in Levels(net, 0, seeds, SeedKeys(seeds), hops) ==> net.tag(k) == Take8(MemOf(net, k).id)
    ensures NothingTwice(net, seeds, hops)
  {
    var keys := Levels(net, 0, seeds, SeedKeys(seeds), hops);
    LevelsDistinct(net, 0, seeds, SeedKeys(seeds), hops);
    var found := MemsOf(net, keys);
    forall i | 0 <= i < |found| ensures Take8(found[i].id) == net.tag(keys[i]) && keys[i] in keys {
      assert keys[i] in keys;
    }
  }

  /** The search over the edge table finds nothing twice: it compares prefixes. */
  lemma IndexNothingTwice(rows: Mem -> seq<Row>, limit: nat, find: Key -> Option<Mem>, seeds: seq<Mem>, hops: nat)
    requires Resolves(find)
    ensures NothingTwice(IndexNet(rows, limit, find), seeds, hops)
  {
    var net := IndexNet(rows, limit, find);
    LevelsDistinct(net, 0, seeds, SeedKeys(seeds), hops);
    TagsTellMemories(net, seeds, hops);
  }

  /** Links that lead to an active memory have at most eight characters. */
  ghost predicate ShortLinks(related: Mem -> seq<Key>, find: Key -> Option<Mem>) {
    forall m, k :: k in related(m) && Live(RelatedNet(related, find), k) ==> |k| <= 8
  }

  lemma {:induction false} LastIsShort(related: Mem -> seq<Key>, find: Key -> Option<Mem>, hop: nat, from: Mem,
                                       path: seq<Key>, seen: set<Key>)
    requires ShortLinks(related, find) && path != [] && Path(RelatedNet(related, find), hop, from, path, seen)
    ensures |path[|path| - 1]| <= 8
    decreases |path|
  {
    if |path| > 1 {
      LastIsShort(related, find, hop + 1, MemOf(RelatedNet(related, find), path[0]), path[1..], seen);
    }
  }

  lemma {:induction false} ShortNothingTwice(related: Mem -> seq<Key>, find: Key -> Option<Mem>, seeds: seq<Mem>,
                                             hops: nat)
    requires Resolves(find) && ShortLinks(related, find)
    ensures NothingTwice(RelatedNet(related, find), seeds, hops)
  {
    var net := RelatedNet(related, find);
    LevelsDistinct(net, 0, seeds, SeedKeys(seeds), hops);
    forall k | k in Levels(net, 0, seeds, SeedKeys(seeds), hops) ensures net.tag(k) == Take8(MemOf(net, k).id) {
      var m, path := FoundIsReachable(net, 0, seeds, SeedKeys(seeds), hops, k);
      LastIsShort(related, find, 0, m, path, SeedKeys(seeds));
    }
    TagsTellMemories(net, seeds, hops);
  }

  /** A longer link is not recognised as one to a seed. */
  lemma LongFindsSeed(related: Mem -> seq<Key>, find: Key -> Option<Mem>, m: Mem, k: Key)
    requires Resolves(find) && k in related(m) && Live(RelatedNet(related, find), k) && |k| > 8
    ensures !NothingTwice(RelatedNet(related, find), [m, find(k).value], 1)
  {
    var net, b := RelatedNet(related, find), find(k).value;
    var seeds := [m, b];
    var keys := FirstHop(net, seeds);
    TwoLevels(net, seeds);
    LinkOfFrontier(net, 0, seeds, k);
    ScanFacts(net, LinksOf(net, 0, seeds), SeedKeys(seeds));
    assert seeds[0] == m && seeds[1] == b && Take8(b.id) in SeedKeys(seeds);
    assert k in keys;
    var i :| 0 <= i < |keys| && keys[i] == k;
    assert MemsOf(net, keys)[i] == b;
  }

  /** The front-matter search never returns a memory twice, nor a seed again, if and only if no
      link to an active memory is longer than the prefix that the duplicate check starts from. */
  lemma NoMemoryTwice(related: Mem -> seq<Key>, find: Key -> Option<Mem>)
    requires Resolves(find)
    ensures (forall seeds: seq<Mem>, hops: nat :: NothingTwice(RelatedNet(related, find), seeds, hops)) <==>
            (forall m, k :: k in related(m) && Live(RelatedNet(related, find), k) ==> |k| <= 8)
  {
    if ShortLinks(related, find) {
      forall seeds: seq<Mem>, hops: nat ensures NothingTwice(RelatedNet(related, find), seeds, hops) {
        ShortNothingTwice(related, find, seeds, hops);
      }
    } else {
      var m, k :| k in related(m) && Live(RelatedNet(related, find), k) && |k| > 8;
      LongFindsSeed(related, find, m, k);
    }
  }

  /** A link longer than the prefix escapes the duplicate check: a memory linked once by its
      prefix and once by its full id is returned twice. */
  lemma LongLinkDuplicates(seed: Mem, b: Mem, related: Mem -> seq<Key>, find: Key -> Option<Mem>)
    requires b.active && |b.id| > 8 && Take8(b.id) != Take8(seed.id) && b.id != Take8(seed.id)
    requires related(seed) == [Take8(b.id), b.id]
    requires find(b.id) == Some(b) && find(Take8(b.id)) == Some(b)
    ensures Expand(RelatedNet(related, find), [seed], 20, 1) == [seed, b, b]
  {
    var net := RelatedNet(related, find);
    var links, seen := related(seed), {Take8(seed.id)};
    assert SeedKeys([seed]) == seen;
    assert LinksOf(net, 0, [seed]) == links by {
      assert [seed][1..] == [];
    }
    var rest := links[1..];
    assert rest[1..] == [];
    assert Scan(net, rest, seen + {links[0]}) == [b.id];
    assert Levels(net, 0, [seed], seen, 1) == links;
  }
}
