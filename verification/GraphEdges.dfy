/** The typed memory graph: candidate edges, upserts, removals, refreshes, rebuilds and the
    audit of memem/graph_index.py. Pair scores and relation types are arbitrary. */
module GraphEdges {
  import opened PyStrings
  import opened Wrappers

  type Id = string

  datatype Relation = SameTopic | Supports | DependsOn | Supersedes | Contradicts | SameSession | SameProject

  datatype Key = Key(src: Id, dst: Id, rel: Relation)

  datatype Edge = Edge(key: Key, score: real)

  type Graph = map<Key, real>

  function Rev(k: Key): Key { Key(k.dst, k.src, k.rel) }

  function Mirror(e: Edge): Edge { Edge(Rev(e.key), e.score) }

  predicate Symmetric(r: Relation) { r == SameTopic || r == SameSession || r == SameProject }

  function Prefix(id: Id): string { Take8(Strip(id)) }

  predicate Matches(column: Id, id: Id) { column == id || Take8(column) == Prefix(id) }

  function Clamp(score: real): real { if score > 1.0 then 1.0 else if score < 0.0 then 0.0 else score }

  // ---------------------------------------------------------------------------
  // Candidates
  // ---------------------------------------------------------------------------

  const MIN_EDGE_SCORE := 0.18

  /** Another memory with the relation and the score of the pair. */
  datatype Scored = Scored(id: Id, active: bool, rel: Relation, score: real)

  function Floor(r: Relation): real {
    match r
    case Contradicts => 0.80
    case Supersedes => 0.80
    case SameProject => 0.30
    case _ => MIN_EDGE_SCORE
  }

  function Admit(src: Id, c: Scored): Option<Edge> {
    if src == "" || c.id == "" || Prefix(src) == Prefix(c.id) || !c.active then None
    else if c.rel == Contradicts || c.rel == Supersedes then
      Some(Edge(Key(src, c.id, c.rel), if c.score > 0.80 then c.score else 0.80))
    else if (c.rel == SameProject && c.score < 0.30) || c.score < MIN_EDGE_SCORE then None
    else Some(Edge(Key(src, c.id, c.rel), c.score))
  }

  /** An edge a candidate list may hold. */
  predicate Admissible(e: Edge) {
    && e.key.src != "" && e.key.dst != "" && Prefix(e.key.src) != Prefix(e.key.dst)
    && Clamp(e.score) >= Floor(e.key.rel)
  }

  /** The floors decide admission, except that a contradiction or a replacement is lifted to
      its floor and never turned away. */
  lemma AdmitMeaning(src: Id, c: Scored)
    ensures Admit(src, c).Some? <==>
            && src != "" && c.id != "" && Take8(Strip(src)) != Take8(Strip(c.id)) && c.active
            && (c.rel in {Contradicts, Supersedes} || (c.score >= 0.18 && (c.rel == SameProject ==> c.score >= 0.30)))
    ensures Admit(src, c).Some? ==>
              var e := Admit(src, c).value;
              && Admissible(e) && e.key == Key(src, c.id, c.rel)
              && e.score == if c.rel in {Contradicts, Supersedes} && c.score < 0.80 then 0.80 else c.score
  {
  }

  /** The place of a relation's name in the alphabet. */
  function NameOrder(r: Relation): nat {
    match r
    case Contradicts => 0
    case DependsOn => 1
    case SameProject => 2
    case SameSession => 3
    case SameTopic => 4
    case Supersedes => 5
    case Supports => 6
  }

  /** The sort key of `a` is smaller than that of `b`. */
  predicate Below(a: Edge, b: Edge) {
    a.score < b.score || (a.score == b.score && NameOrder(a.key.rel) < NameOrder(b.key.rel))
  }

  function NameOf(r: Relation): string {
    match r
    case Contradicts => "contradicts"
    case DependsOn => "depends_on"
    case SameProject => "same_" + "project"
    case SameSession => "same_" + "session"
    case SameTopic => "same_" + "topic"
    case Supersedes => "sup" + "ersedes"
    case Supports => "sup" + "ports"
  }

  /** At the first place where they differ the first name has the smaller letter. */
  predicate NameLess(s: string, t: string) {
    exists k :: 0 <= k < |s| && k < |t| && s[..k] == t[..k] && s[k] < t[k]
  }

  lemma NameLessOneWay(s: string, t: string)
    requires NameLess(s, t)
    ensures !NameLess(t, s)
  {
    var k :| 0 <= k < |s| && k < |t| && s[..k] == t[..k] && s[k] < t[k];
    SameUpTo(s, t, k);
    if j :| 0 <= j < |t| && j < |s| && t[..j] == s[..j] && t[j] < s[j] {
      SameUpTo(t, s, j);
    }
  }

  lemma SameUpTo(s: string, t: string, k: nat)
    requires k <= |s| && k <= |t| && s[..k] == t[..k]
    ensures forall i :: 0 <= i < k ==> s[i] == t[i]
  {
    forall i | 0 <= i < k ensures s[i] == t[i] {
      assert s[..k][i] == t[..k][i];
    }
  }

  lemma NamesInOrder(a: Relation, b: Relation)
    requires NameOrder(a) < NameOrder(b)
    ensures NameLess(NameOf(a), NameOf(b))
  {
    var s, t := NameOf(a), NameOf(b);
    var k := if a in {Contradicts, DependsOn} then 0
             else if a in {SameProject, SameSession, SameTopic} then
               if b in {SameProject, SameSession, SameTopic} then 5 else 1
             else 3;
    assert k < |s| && k < |t| && s[k] < t[k];
    assert s[..k] == t[..k];
  }

  /** The sort compares scores and, when they are equal, the names of the relations. */
  lemma BelowMeans(a: Edge, b: Edge)
    ensures Below(a, b) <==>
            a.score < b.score || (a.score == b.score && NameLess(NameOf(a.key.rel), NameOf(b.key.rel)))
  {
    var p, q := a.key.rel, b.key.rel;
    if NameOrder(p) < NameOrder(q) {
      NamesInOrder(p, q);
    } else if NameOrder(q) < NameOrder(p) {
      NamesInOrder(q, p);
      NameLessOneWay(NameOf(q), NameOf(p));
    } else if NameLess(NameOf(p), NameOf(q)) {
      NameLessOneWay(NameOf(p), NameOf(q));
    }
  }

  function Insert(sorted: seq<Edge>, e: Edge): seq<Edge> {
    if sorted == [] || Below(sorted[0], e) then [e] + sorted else [sorted[0]] + Insert(sorted[1..], e)
  }

  /** The stable sort in descending order. */
  function Sorted(es: seq<Edge>): seq<Edge> {
    if es == [] then [] else Insert(Sorted(es[..|es| - 1]), es[|es| - 1])
  }

  predicate Descending(es: seq<Edge>) { forall i, j :: 0 <= i < j < |es| ==> !Below(es[i], es[j]) }

  /** The edges with the sort key of a given one, in their order. */
  function Ties(es: seq<Edge>, x: Edge): seq<Edge> {
    if es == [] then []
    else (if !Below(es[0], x) && !Below(x, es[0]) then [es[0]] else []) + Ties(es[1..], x)
  }

  lemma {:induction false} TiesSnoc(es: seq<Edge>, e: Edge, x: Edge)
    ensures Ties(es + [e], x) == Ties(es, x) + if !Below(e, x) && !Below(x, e) then [e] else []
  {
    if es == [] {
      assert es + [e] == [e] && [e][1..] == [];
    } else {
      assert (es + [e])[1..] == es[1..] + [e];
      TiesSnoc(es[1..], e, x);
    }
  }

  lemma {:induction false} NoTiesBelow(es: seq<Edge>, x: Edge)
    requires Descending(es) && (es != [] ==> Below(es[0], x))
    ensures Ties(es, x) == []
  {
    if es != [] {
      assert forall i :: 0 < i < |es| ==> !Below(es[0], es[i]);
      NoTiesBelow(es[1..], x);
    }
  }

  lemma {:induction false} InsertKeeps(sorted: seq<Edge>, e: Edge)
    ensures multiset(Insert(sorted, e)) == multiset(sorted) + multiset{e}
  {
    if !(sorted == [] || Below(sorted[0], e)) {
      InsertKeeps(sorted[1..], e);
      assert sorted == [sorted[0]] + sorted[1..];
    }
  }

  lemma {:induction false} InsertDescends(sorted: seq<Edge>, e: Edge)
    requires Descending(sorted)
    ensures Descending(Insert(sorted, e))
  {
    if sorted == [] || Below(sorted[0], e) {
      forall i | 0 <= i < |sorted| ensures !Below(e, sorted[i]) {
        assert i == 0 || !Below(sorted[0], sorted[i]);
      }
    } else {
      var head, tail := sorted[0], sorted[1..];
      InsertDescends(tail, e);
      InsertKeeps(tail, e);
      forall x | x in Insert(tail, e) ensures !Below(head, x) {
        assert x in multiset(Insert(tail, e));
        if x != e {
          var j: int :| 0 <= j < |tail| && tail[j] == x;
          assert sorted[j + 1] == x;
        }
      }
    }
  }

  lemma {:induction false} InsertTies(sorted: seq<Edge>, e: Edge, x: Edge)
    requires Descending(sorted)
    ensures Ties(Insert(sorted, e), x) == Ties(sorted, x) + if !Below(e, x) && !Below(x, e) then [e] else []
  {
    if sorted == [] || Below(sorted[0], e) {
      assert ([e] + sorted)[1..] == sorted;
      if !Below(e, x) && !Below(x, e) {
        NoTiesBelow(sorted, x);
      }
    } else {
      var rest := Insert(sorted[1..], e);
      InsertTies(sorted[1..], e, x);
      assert ([sorted[0]] + rest)[1..] == rest;
    }
  }

  /** Sorting keeps the edges, puts the highest score first and, among equal scores, the last
      relation name first; edges equal in both keep their order. */
  lemma {:induction false} SortedFacts(es: seq<Edge>, x: Edge)
    ensures Descending(Sorted(es)) && multiset(Sorted(es)) == multiset(es) && Ties(Sorted(es), x) == Ties(es, x)
  {
    if es != [] {
      var front, e := es[..|es| - 1], es[|es| - 1];
      SortedFacts(front, x);
      InsertKeeps(Sorted(front), e);
      InsertDescends(Sorted(front), e);
      InsertTies(Sorted(front), e, x);
      assert es == front + [e];
      TiesSnoc(front, e, x);
    }
  }

  function Admitted(src: Id, pool: seq<Scored>): seq<Edge> {
    if pool == [] then []
    else
      var last := Admit(src, pool[|pool| - 1]);
      Admitted(src, pool[..|pool| - 1]) + if last.Some? then [last.value] else []
  }

  function Top(es: seq<Edge>, limit: nat): seq<Edge> { if |es| <= limit then es else es[..limit] }

  method CandidateEdges(src: Id, pool: seq<Scored>, limit: nat) returns (edges: seq<Edge>)
    ensures edges == Top(Sorted(Admitted(src, pool)), limit)
    ensures forall e :: e in edges ==> Admissible(e) && e.key.src == src
  {
    var scored: seq<Edge> := [];
    for n := 0 to |pool|
      invariant scored == Admitted(src, pool[..n])
    {
      assert pool[..n + 1][..n] == pool[..n];
      var found := Admit(src, pool[n]);
      if found.Some? {
        scored := scored + [found.value];
      }
    }
    assert pool[..|pool|] == pool;
    edges := Top(Sorted(scored), limit);
    forall e | e in edges ensures Admissible(e) && e.key.src == src {
      SortedFacts(scored, e);
      assert e in multiset(scored);
      AdmittedFrom(src, pool, e);
    }
  }

  lemma {:induction false} AdmittedFrom(src: Id, pool: seq<Scored>, e: Edge)
    requires e in Admitted(src, pool)
    ensures Admissible(e) && e.key.src == src && exists i :: 0 <= i < |pool| && Admit(src, pool[i]) == Some(e)
  {
    var n := |pool| - 1;
    AdmitMeaning(src, pool[n]);
    if Admit(src, pool[n]) != Some(e) {
      AdmittedFrom(src, pool[..n], e);
      var i :| 0 <= i < n && Admit(src, pool[..n][i]) == Some(e);
      assert Admit(src, pool[i]) == Some(e);
    }
  }

  lemma {:induction false} AdmittedOf(src: Id, pool: seq<Scored>, i: nat)
    requires i < |pool| && Admit(src, pool[i]).Some?
    ensures Admit(src, pool[i]).value in Admitted(src, pool)
  {
    if i < |pool| - 1 {
      AdmittedOf(src, pool[..|pool| - 1], i);
    }
  }

  /** The edges before the cut are exactly the admitted ones. */
  lemma AdmittedFacts(src: Id, pool: seq<Scored>, e: Edge)
    ensures e in Sorted(Admitted(src, pool)) <==> exists i :: 0 <= i < |pool| && Admit(src, pool[i]) == Some(e)
  {
    SortedFacts(Admitted(src, pool), e);
    assert e in Sorted(Admitted(src, pool)) <==> e in multiset(Admitted(src, pool));
    if e in Admitted(src, pool) {
      AdmittedFrom(src, pool, e);
    }
    if i :| 0 <= i < |pool| && Admit(src, pool[i]) == Some(e) {
      AdmittedOf(src, pool, i);
    }
  }

  /** No admitted edge that is left out goes before one that is kept. */
  lemma BestAreKept(src: Id, pool: seq<Scored>, limit: nat, kept: Edge, left: nat)
    requires kept in Top(Sorted(Admitted(src, pool)), limit) && limit <= left < |Sorted(Admitted(src, pool))|
    ensures !Below(kept, Sorted(Admitted(src, pool))[left])
  {
    var all := Sorted(Admitted(src, pool));
    SortedFacts(Admitted(src, pool), kept);
    var i :| 0 <= i < limit && all[i] == kept;
  }

  // ---------------------------------------------------------------------------
  // The table
  // ---------------------------------------------------------------------------

  predicate Skipped(k: Key) { k.src == "" || k.dst == "" || Prefix(k.src) == Prefix(k.dst) }

  function Put(g: Graph, e: Edge): Graph {
    if Skipped(e.key) then g else g[e.key := Clamp(e.score)]
  }

  function PutPair(g: Graph, e: Edge): Graph {
    if Symmetric(e.key.rel) then Put(Put(g, e), Mirror(e)) else Put(g, e)
  }

  function PutAll(g: Graph, es: seq<Edge>): Graph
    decreases |es|
  {
    if es == [] then g else PutAll(PutPair(g, es[0]), es[1..])
  }

  predicate Touches(k: Key, id: Id) { Matches(k.src, id) || Matches(k.dst, id) }

  function Without(g: Graph, id: Id): Graph {
    if id == "" then g else map k | k in g && !Touches(k, id) :: g[k]
  }

  class GraphDb {
    var edges: Graph

    method Upsert(e: Edge)
      modifies this
      ensures edges == Put(old(edges), e)
    {
      if e.key.src == "" || e.key.dst == "" || Prefix(e.key.src) == Prefix(e.key.dst) {
        return;
      }
      edges := edges[e.key := Clamp(e.score)];
    }

    method RemoveFor(id: Id)
      modifies this
      ensures edges == Without(old(edges), id)
    {
      if id != "" {
        edges := map k | k in edges && !Touches(k, id) :: edges[k];
      }
    }

    /** Refreshing one memory; `picked` are the candidate edges chosen for it. */
    method Refresh(id: Id, active: bool, picked: seq<Edge>) returns (count: nat)
      requires forall e :: e in picked ==> Admissible(e)
      modifies this
      ensures edges == if id == "" || !active then Without(old(edges), id) else PutAll(Without(old(edges), id), picked)
      ensures count == if id == "" || !active then 0 else |EdgeByEdge(0, picked)|
      ensures Sound(old(edges)) ==> Sound(edges)
    {
      WithoutSound(edges, id);
      RemoveFor(id);
      count := 0;
      if id != "" && active {
        if Sound(edges) {
          PutAllSound(edges, picked);
        }
        count := WriteAll(picked);
      }
    }

    method Rebuild(picked: seq<Edge>) returns (count: nat)
      requires forall e :: e in picked ==> Admissible(e)
      modifies this
      ensures edges == PutAll(map[], picked) && Sound(edges) && count == |EdgeByEdge(0, picked)|
    {
      edges := map[];
      PutAllSound(map[], picked);
      count := WriteAll(picked);
    }

    method WriteAll(picked: seq<Edge>) returns (count: nat)
      modifies this
      ensures edges == PutAll(old(edges), picked)
      ensures count == |EdgeByEdge(0, picked)|
    {
      count := 0;
      for i := 0 to |picked|
        invariant PutAll(edges, picked[i..]) == PutAll(old(edges), picked)
        invariant count + |EdgeByEdge(0, picked[i..])| == |EdgeByEdge(0, picked)|
      {
        var edge := picked[i];
        assert picked[i..][1..] == picked[i + 1..];
        Upsert(edge);
        count := count + 1;
        if Symmetric(edge.key.rel) {
          Upsert(Mirror(edge));
          count := count + 1;
        }
      }
    }
  }

  /** The last edge of a list that writes a key, in one direction or the other. */
  function LastWrite(es: seq<Edge>, k: Key): Option<real> {
    if es == [] then None
    else
      var e := es[|es| - 1];
      if !Skipped(k) && (e.key == k || (Symmetric(k.rel) && Mirror(e).key == k)) then Some(Clamp(e.score))
      else LastWrite(es[..|es| - 1], k)
  }

  lemma {:induction false} PutAllSnoc(g: Graph, es: seq<Edge>, e: Edge)
    ensures PutAll(g, es + [e]) == PutPair(PutAll(g, es), e)
    decreases |es|
  {
    if es == [] {
      assert es + [e] == [e] && [e][1..] == [];
    } else {
      assert (es + [e])[1..] == es[1..] + [e];
      PutAllSnoc(PutPair(g, es[0]), es[1..], e);
    }
  }

  lemma {:induction false} PutAllKeys(g: Graph, es: seq<Edge>, k: Key)
    ensures k in PutAll(g, es) <==> LastWrite(es, k).Some? || k in g
    ensures k in PutAll(g, es) ==> PutAll(g, es)[k] == if LastWrite(es, k).Some? then LastWrite(es, k).value else g[k]
  {
    if es != [] {
      var front, e := es[..|es| - 1], es[|es| - 1];
      assert es == front + [e];
      PutAllKeys(g, front, k);
      PutAllSnoc(g, front, e);
      assert Rev(Rev(k)) == k;
    }
  }

  /** Two ids that name one memory, or none. */
  predicate Improper(k: Key) { k.src == "" || k.dst == "" || Take8(Strip(k.src)) == Take8(Strip(k.dst)) }

  /** The edge is written to the key: as given, or reversed when its relation is symmetric. */
  predicate WritesTo(e: Edge, k: Key) {
    && !Improper(k)
    && (e.key == k || (k.rel in {SameTopic, SameSession, SameProject} && e.key == Key(k.dst, k.src, k.rel)))
  }

  /** What becomes of a score: it is kept within 0 and 1. */
  predicate StoredAs(score: real, stored: real) {
    && (0.0 <= score <= 1.0 ==> stored == score)
    && (score > 1.0 ==> stored == 1.0) && (score < 0.0 ==> stored == 0.0)
  }

  lemma WritesToIs(e: Edge, k: Key)
    ensures WritesTo(e, k) <==> !Skipped(k) && (e.key == k || (Symmetric(k.rel) && Mirror(e).key == k))
  {
    assert Rev(Rev(k)) == k && Rev(Rev(e.key)) == e.key;
  }

  lemma StoredAsClamped(score: real)
    ensures StoredAs(score, Clamp(score))
  {
  }

  lemma {:induction false} NotWritten(es: seq<Edge>, k: Key)
    requires forall i :: 0 <= i < |es| ==> !WritesTo(es[i], k)
    ensures LastWrite(es, k).None?
  {
    if es != [] {
      NotWritten(es[..|es| - 1], k);
      WritesToIs(es[|es| - 1], k);
    }
  }

  lemma {:induction false} WrittenLast(es: seq<Edge>, k: Key, i: nat)
    requires i < |es| && WritesTo(es[i], k) && forall j :: i < j < |es| ==> !WritesTo(es[j], k)
    ensures LastWrite(es, k).Some? && StoredAs(es[i].score, LastWrite(es, k).value)
  {
    var n := |es| - 1;
    WritesToIs(es[n], k);
    StoredAsClamped(es[n].score);
    if i < n {
      WrittenLast(es[..n], k, i);
    }
  }

  /** After a batch a key holds the score of the last edge that writes to it, kept within 0 and 1. */
  lemma PutAllMeaning(g: Graph, es: seq<Edge>, k: Key, i: nat)
    requires i < |es| && WritesTo(es[i], k) && forall j :: i < j < |es| ==> !WritesTo(es[j], k)
    ensures k in PutAll(g, es) && StoredAs(es[i].score, PutAll(g, es)[k])
  {
    PutAllKeys(g, es, k);
    WrittenLast(es, k, i);
  }

  /** A key that no edge writes to holds what it held before. */
  lemma PutAllLeaves(g: Graph, es: seq<Edge>, k: Key)
    requires forall i :: 0 <= i < |es| ==> !WritesTo(es[i], k)
    ensures (k in PutAll(g, es) <==> k in g) && (k in g ==> PutAll(g, es)[k] == g[k])
  {
    PutAllKeys(g, es, k);
    NotWritten(es, k);
  }

  /** Exactly the edges go that have the memory at an end, by its id or by its first eight
      characters; for an empty id nothing goes. */
  lemma RemovedExactly(g: Graph, id: Id, k: Key)
    ensures var w, prefix := Without(g, id), Take8(Strip(id));
            && (k in w <==>
                  && k in g
                  && (id == "" || (k.src != id && k.dst != id && Take8(k.src) != prefix && Take8(k.dst) != prefix)))
            && (k in w ==> w[k] == g[k])
  {
  }

  /** After a refresh the edges of an active memory are those that the picked edges write; the
      others are what they were unless they touched it. */
  lemma RefreshExactly(g: Graph, id: Id, picked: seq<Edge>, k: Key)
    requires id != "" && forall i :: 0 <= i < |picked| ==> !WritesTo(picked[i], k)
    ensures var w, prefix := PutAll(Without(g, id), picked), Take8(Strip(id));
            && (k in w <==> k in g && k.src != id && k.dst != id && Take8(k.src) != prefix && Take8(k.dst) != prefix)
            && (k in w ==> w[k] == g[k])
  {
    PutAllLeaves(Without(g, id), picked, k);
    RemovedExactly(g, id, k);
  }

  // ---------------------------------------------------------------------------
  // Soundness and the audit
  // ---------------------------------------------------------------------------

  predicate Mirrored(g: Graph, k: Key) { k in g && Rev(k) in g && g[Rev(k)] == g[k] }

  predicate EdgeOk(k: Key, score: real) { !Skipped(k) && Floor(k.rel) <= score <= 1.0 }

  predicate Sound(g: Graph) {
    forall k :: k in g ==> EdgeOk(k, g[k]) && (Symmetric(k.rel) ==> Mirrored(g, k))
  }

  lemma PutPairSound(g: Graph, e: Edge)
    requires Sound(g) && Admissible(e)
    ensures Sound(PutPair(g, e))
  {
    var more := PutPair(g, e);
    forall k | k in more ensures EdgeOk(k, more[k]) && (Symmetric(k.rel) ==> Mirrored(more, k)) {
      if k != e.key && k != Rev(e.key) {
        assert Rev(k) != e.key && Rev(k) != Rev(e.key);
        assert k in g;
      }
    }
  }

  lemma {:induction false} PutAllSound(g: Graph, es: seq<Edge>)
    requires Sound(g) && forall e :: e in es ==> Admissible(e)
    ensures Sound(PutAll(g, es))
    decreases |es|
  {
    if es != [] {
      PutPairSound(g, es[0]);
      PutAllSound(PutPair(g, es[0]), es[1..]);
    }
  }

  lemma WithoutSound(g: Graph, id: Id)
    ensures Sound(g) ==> Sound(Without(g, id))
    ensures id != "" ==> forall k :: k in Without(g, id) <==> k in g && !Touches(k, id)
  {
    if Sound(g) && id != "" {
      var less := Without(g, id);
      forall k | k in less ensures EdgeOk(k, less[k]) && (Symmetric(k.rel) ==> Mirrored(less, k)) {
        assert k in g;
        assert Symmetric(k.rel) ==> Rev(k) in g && !Touches(Rev(k), id);
      }
    }
  }

  function PrefixKey(k: Key): Key { Key(Prefix(k.src), Prefix(k.dst), k.rel) }

  function EdgePairs(g: Graph): set<Key> { set k | k in g :: PrefixKey(k) }

  function OneWayLinks(g: Graph): set<Key> {
    set k | k in EdgePairs(g) && Symmetric(k.rel) && Rev(k) !in EdgePairs(g)
  }

  function LowConfidenceEdges(g: Graph): set<Key> { set k | k in g && g[k] < MIN_EDGE_SCORE }

  /** The audit finds neither a one-way link nor a low-confidence edge in a sound graph. */
  lemma {:induction false} AuditIsClean(g: Graph)
    requires Sound(g)
    ensures OneWayLinks(g) == {} && LowConfidenceEdges(g) == {}
    ensures forall k :: k in g ==>
              && 0.18 <= g[k] <= 1.0 && (k.rel == SameProject ==> g[k] >= 0.30)
              && (k.rel in {Contradicts, Supersedes} ==> g[k] >= 0.80)
  {
    forall k | k in EdgePairs(g) && Symmetric(k.rel) ensures Rev(k) in EdgePairs(g) {
      var full :| full in g && PrefixKey(full) == k;
      assert Mirrored(g, full) && PrefixKey(Rev(full)) == Rev(k);
    }
  }

  // ---------------------------------------------------------------------------
  // Refreshes committed edge by edge
  // ---------------------------------------------------------------------------

  type Pid = nat

  /** One committed statement: the two halves of an edge of a refresh, the deletion for a
      memory, and the two transactions of a rebuild. */
  datatype Event =
    | First(p: Pid, edge: Edge)
    | Second(p: Pid)
    | Remove(p: Pid, id: Id)
    | Clear(p: Pid)
    | Batch(p: Pid, edges: seq<Edge>)

  /** `pending` is the edge whose reverse a process still has to write. `stray` holds the pairs
      of keys that the second half of an edge left unmatched: when it was committed, the first
      half was gone or had another score. Later commits that delete or rewrite both keys settle
      such a pair. */
  datatype State = State(graph: Graph, pending: map<Pid, Edge>, stray: set<Key>)

  predicate Concerns(e: Edge, k: Key) { e.key == k || e.key == Rev(k) }

  predicate HalfWritten(s: State, k: Key) {
    exists q :: q in s.pending && Concerns(s.pending[q], k)
  }

  function Pair(k: Key): set<Key> { {k, Rev(k)} }

  /** The first half of an edge is still in place. */
  predicate InPlace(g: Graph, e: Edge) { e.key in g && g[e.key] == Clamp(e.score) }

  predicate Enabled(s: State, ev: Event) {
    match ev
    case First(p, e) => p !in s.pending && Admissible(e)
    case Second(p) => p in s.pending
    case Remove(p, _) => p !in s.pending
    case Clear(p) => p !in s.pending
    case Batch(p, es) => p !in s.pending && forall e :: e in es ==> Admissible(e)
  }

  function Apply(s: State, ev: Event): State
    requires Enabled(s, ev)
  {
    match ev
    case First(p, e) =>
      State(Put(s.graph, e), if Symmetric(e.key.rel) then s.pending[p := e] else s.pending, s.stray)
    case Second(p) =>
      var e := s.pending[p];
      State(Put(s.graph, Mirror(e)), s.pending - {p},
            if InPlace(s.graph, e) then s.stray - Pair(e.key) else s.stray + Pair(e.key))
    case Remove(p, id) =>
      if id == "" then s
      else State(Without(s.graph, id), s.pending, set k | k in s.stray && !Touches(k, id))
    case Clear(p) => State(map[], s.pending, {})
    case Batch(p, es) =>
      State(PutAll(s.graph, es), s.pending, set k | k in s.stray && LastWrite(es, k).None?)
  }

  predicate Legal(s: State, evs: seq<Event>)
    decreases |evs|
  {
    evs != [] ==> Enabled(s, evs[0]) && Legal(Apply(s, evs[0]), evs[1..])
  }

  function After(s: State, evs: seq<Event>): State
    requires Legal(s, evs)
    decreases |evs|
  {
    if evs == [] then s else After(Apply(s, evs[0]), evs[1..])
  }

  predicate Present(g: Graph, k: Key) { k in g || Rev(k) in g }

  predicate StrayInv(s: State, k: Key) {
    k in s.stray ==> Symmetric(k.rel) && Rev(k) in s.stray && Present(s.graph, k)
  }

  predicate MatchInv(s: State, k: Key) {
    Symmetric(k.rel) && Present(s.graph, k) && !HalfWritten(s, k) ==> (Mirrored(s.graph, k) <==> k !in s.stray)
  }

  predicate KeyInv(s: State, k: Key) {
    (k in s.graph ==> EdgeOk(k, s.graph[k])) && StrayInv(s, k) && MatchInv(s, k)
  }

  predicate PendingInv(s: State, q: Pid) {
    q in s.pending ==> Symmetric(s.pending[q].key.rel) && Admissible(s.pending[q])
  }

  ghost predicate Inv(s: State) { (forall k :: KeyInv(s, k)) && (forall q :: PendingInv(s, q)) }

  lemma FirstKeeps(s: State, ev: Event)
    requires Inv(s) && Enabled(s, ev) && ev.First?
    ensures Inv(Apply(s, ev))
  {
    var s', p, e := Apply(s, ev), ev.p, ev.edge;
    forall k ensures KeyInv(s', k) {
      assert KeyInv(s, k) && KeyInv(s, Rev(k));
      if Concerns(e, k) && Symmetric(k.rel) {
        assert p in s'.pending && Concerns(s'.pending[p], k);
      } else if HalfWritten(s, k) {
        var q :| q in s.pending && Concerns(s.pending[q], k);
        assert q in s'.pending && Concerns(s'.pending[q], k);
      }
    }
    forall q ensures PendingInv(s', q) {
      assert PendingInv(s, q);
    }
  }

  lemma SecondKeeps(s: State, ev: Event)
    requires Inv(s) && Enabled(s, ev) && ev.Second?
    ensures Inv(Apply(s, ev))
  {
    var s', p, e := Apply(s, ev), ev.p, s.pending[ev.p];
    assert PendingInv(s, p);
    forall k ensures KeyInv(s', k) {
      assert KeyInv(s, k) && KeyInv(s, Rev(k));
      if !Concerns(e, k) && HalfWritten(s, k) {
        var q :| q in s.pending && Concerns(s.pending[q], k);
        assert q in s'.pending && Concerns(s'.pending[q], k);
      }
    }
    forall q ensures PendingInv(s', q) {
      assert PendingInv(s, q);
    }
  }

  lemma RemoveKeeps(s: State, ev: Event)
    requires Inv(s) && Enabled(s, ev) && ev.Remove?
    ensures Inv(Apply(s, ev))
  {
    var s', id := Apply(s, ev), ev.id;
    forall k ensures KeyInv(s', k) {
      assert KeyInv(s, k) && KeyInv(s, Rev(k));
      assert Touches(Rev(k), id) <==> Touches(k, id);
      assert HalfWritten(s', k) <==> HalfWritten(s, k);
    }
    forall q ensures PendingInv(s', q) {
      assert PendingInv(s, q);
    }
  }

  lemma ClearKeeps(s: State, ev: Event)
    requires Inv(s) && Enabled(s, ev) && ev.Clear?
    ensures Inv(Apply(s, ev))
  {
    forall q ensures PendingInv(Apply(s, ev), q) {
      assert PendingInv(s, q);
    }
  }

  /** A batch writes both keys of a symmetric pair or neither, and valid scores only. */
  lemma {:induction false} WrittenKey(es: seq<Edge>, k: Key)
    requires forall e :: e in es ==> Admissible(e)
    ensures var w := LastWrite(es, k);
            (w.Some? ==> EdgeOk(k, w.value)) && (Symmetric(k.rel) ==> LastWrite(es, Rev(k)) == w)
  {
    if es != [] {
      WrittenKey(es[..|es| - 1], k);
      var e := es[|es| - 1];
      assert e in es && Admissible(e);
    }
  }

  lemma BatchKeeps(s: State, ev: Event)
    requires Inv(s) && Enabled(s, ev) && ev.Batch?
    ensures Inv(Apply(s, ev))
  {
    var s', es := Apply(s, ev), ev.edges;
    forall k ensures KeyInv(s', k) {
      assert KeyInv(s, k) && KeyInv(s, Rev(k));
      PutAllKeys(s.graph, es, k);
      PutAllKeys(s.graph, es, Rev(k));
      WrittenKey(es, k);
      assert HalfWritten(s', k) <==> HalfWritten(s, k);
    }
    forall q ensures PendingInv(s', q) {
      assert PendingInv(s, q);
    }
  }

  lemma {:induction false} InvKept(s: State, evs: seq<Event>)
    requires Inv(s) && Legal(s, evs)
    ensures Inv(After(s, evs))
    decreases |evs|
  {
    if evs != [] {
      match evs[0] {
        case First(_, _) => FirstKeeps(s, evs[0]);
        case Second(_) => SecondKeeps(s, evs[0]);
        case Remove(_, _) => RemoveKeeps(s, evs[0]);
        case Clear(_) => ClearKeeps(s, evs[0]);
        case Batch(_, _) => BatchKeeps(s, evs[0]);
      }
      InvKept(Apply(s, evs[0]), evs[1..]);
    }
  }

  lemma SoundStarts(g: Graph)
    requires Sound(g)
    ensures Inv(State(g, map[], {}))
  {
    var s := State(g, map[], {});
    forall k ensures KeyInv(s, k) {
      assert Rev(Rev(k)) == k;
      assert Rev(k) in g ==> EdgeOk(Rev(k), g[Rev(k)]);
    }
  }

  /** Whatever the interleaving, scores and end points are right, and a symmetric edge that is
      not half written is unmatched if and only if its pair is stray. */
  lemma RunKeeps(g: Graph, evs: seq<Event>, k: Key)
    requires Sound(g) && Legal(State(g, map[], {}), evs)
    ensures var end := After(State(g, map[], {}), evs);
            && (k in end.graph ==> EdgeOk(k, end.graph[k]))
            && (Symmetric(k.rel) && k in end.graph && !HalfWritten(end, k) ==>
                  (Mirrored(end.graph, k) <==> k !in end.stray))
  {
    SoundStarts(g);
    InvKept(State(g, map[], {}), evs);
    assert KeyInv(After(State(g, map[], {}), evs), k);
  }

  /** Once no reverse edge is outstanding, the graph is sound if and only if no pair is stray. */
  lemma SettledRun(g: Graph, evs: seq<Event>)
    requires Sound(g) && Legal(State(g, map[], {}), evs) && After(State(g, map[], {}), evs).pending == map[]
    ensures var end := After(State(g, map[], {}), evs); Sound(end.graph) <==> end.stray == {}
  {
    SoundStarts(g);
    InvKept(State(g, map[], {}), evs);
    Settled(After(State(g, map[], {}), evs));
  }

  lemma Settled(s: State)
    requires Inv(s) && s.pending == map[]
    ensures Sound(s.graph) <==> s.stray == {}
  {
    if k :| k in s.stray {
      assert KeyInv(s, k) && KeyInv(s, Rev(k));
      assert k in s.graph || Rev(k) in s.graph;
    } else {
      forall k | k in s.graph ensures EdgeOk(k, s.graph[k]) && (Symmetric(k.rel) ==> Mirrored(s.graph, k)) {
        assert KeyInv(s, k);
      }
    }
  }

  // ---------------------------------------------------------------------------
  // One writer, and commits between the two halves
  // ---------------------------------------------------------------------------

  lemma {:induction false} AloneNotStray(s: State, evs: seq<Event>, p: Pid)
    requires Legal(s, evs) && s.stray == {} && s.pending.Keys <= {p}
    requires p in s.pending ==> InPlace(s.graph, s.pending[p])
    requires forall i :: 0 <= i < |evs| ==> evs[i].p == p
    ensures After(s, evs).stray == {} && After(s, evs).pending.Keys <= {p}
    decreases |evs|
  {
    if evs != [] {
      assert evs[0].p == p;
      AloneNotStray(Apply(s, evs[0]), evs[1..], p);
    }
  }

  /** When one process does all the writing, the graph is sound, and its audit clean, at
      every moment at which no reverse edge is outstanding. */
  lemma OneWriterIsSound(g: Graph, evs: seq<Event>, p: Pid)
    requires Sound(g) && Legal(State(g, map[], {}), evs)
    requires forall i :: 0 <= i < |evs| ==> evs[i].p == p
    ensures var end := After(State(g, map[], {}), evs);
            end.stray == {} && (p !in end.pending ==> Sound(end.graph))
  {
    AloneNotStray(State(g, map[], {}), evs, p);
    if p !in After(State(g, map[], {}), evs).pending {
      assert After(State(g, map[], {}), evs).pending == map[];
      SettledRun(g, evs);
    }
  }

  /** Commits of other processes that come between the two halves of an edge of process 0:
      deletions and rebuilds. */
  predicate Between(evs: seq<Event>) {
    forall i :: 0 <= i < |evs| ==>
      && evs[i].p != 0 && !evs[i].First? && !evs[i].Second?
      && (evs[i].Batch? ==> forall e :: e in evs[i].edges ==> Admissible(e))
  }

  /** Whether the first half is in place after one more commit. */
  predicate Spares(inPlace: bool, ev: Event, e: Edge) {
    match ev
    case Remove(_, id) => inPlace && (id == "" || !Touches(e.key, id))
    case Clear(_) => false
    case Batch(_, es) => if LastWrite(es, e.key).Some? then LastWrite(es, e.key).value == Clamp(e.score) else inPlace
    case _ => inPlace
  }

  predicate SparesAll(inPlace: bool, evs: seq<Event>, e: Edge)
    decreases |evs|
  {
    if evs == [] then inPlace else SparesAll(Spares(inPlace, evs[0], e), evs[1..], e)
  }

  lemma {:induction false} SparedMeans(s: State, evs: seq<Event>, e: Edge)
    requires Between(evs) && s.pending == map[0 := e] && s.stray == {}
    ensures Legal(s, evs)
    ensures var end := After(s, evs);
            && end.pending == s.pending && end.stray == {}
            && (InPlace(end.graph, e) <==> SparesAll(InPlace(s.graph, e), evs, e))
    decreases |evs|
  {
    if evs != [] {
      assert evs[0].p != 0;
      if evs[0].Batch? {
        PutAllKeys(s.graph, evs[0].edges, e.key);
      }
      var next := Apply(s, evs[0]);
      assert InPlace(next.graph, e) <==> Spares(InPlace(s.graph, e), evs[0], e);
      SparedMeans(next, evs[1..], e);
    }
  }

  lemma {:induction false} AfterConcat(s: State, a: seq<Event>, b: seq<Event>)
    requires Legal(s, a) && Legal(After(s, a), b)
    ensures Legal(s, a + b) && After(s, a + b) == After(After(s, a), b)
    decreases |a|
  {
    if a == [] {
      assert a + b == b;
    } else {
      assert (a + b)[1..] == a[1..] + b;
      AfterConcat(Apply(s, a[0]), a[1..], b);
    }
  }

  lemma OneStep(s: State, ev: Event)
    requires Enabled(s, ev)
    ensures Legal(s, [ev]) && After(s, [ev]) == Apply(s, ev)
  {
    assert [ev][1..] == [];
    assert Legal(Apply(s, ev), []);
  }

  /** Deletions and rebuilds between the two halves of an edge leave a sound graph sound if and
      only if the first half is in place after them: nothing removed it, or a later batch wrote
      it again, and no batch gave it another score. */
  lemma InterferenceExactly(g: Graph, e: Edge, evs: seq<Event>)
    requires Sound(g) && Admissible(e) && Symmetric(e.key.rel) && Between(evs)
    ensures var start, run := State(g, map[], {}), [First(0, e)] + evs + [Second(0)];
            Legal(start, run) && (Sound(After(start, run).graph) <==> SparesAll(true, evs, e))
  {
    var start := State(g, map[], {});
    var s1 := Apply(start, First(0, e));
    OneStep(start, First(0, e));
    SparedMeans(s1, evs, e);
    AfterConcat(start, [First(0, e)], evs);
    var s2 := After(s1, evs);
    OneStep(s2, Second(0));
    AfterConcat(start, [First(0, e)] + evs, [Second(0)]);
    SettledRun(g, [First(0, e)] + evs + [Second(0)]);
    assert e.key in Pair(e.key);
  }

  function Halves(p: Pid, e: Edge): seq<Event> {
    if Symmetric(e.key.rel) then [First(p, e), Second(p)] else [First(p, e)]
  }

  function EdgeByEdge(p: Pid, es: seq<Edge>): seq<Event> {
    if es == [] then [] else Halves(p, es[0]) + EdgeByEdge(p, es[1..])
  }

  lemma HalvesAlone(s: State, p: Pid, e: Edge)
    requires p !in s.pending && Admissible(e) && s.stray == {}
    ensures Legal(s, Halves(p, e)) && After(s, Halves(p, e)) == State(PutPair(s.graph, e), s.pending, {})
  {
    var s1 := Apply(s, First(p, e));
    OneStep(s, First(p, e));
    if Symmetric(e.key.rel) {
      OneStep(s1, Second(p));
      AfterConcat(s, [First(p, e)], [Second(p)]);
      assert [First(p, e)] + [Second(p)] == Halves(p, e);
      assert s1.pending - {p} == s.pending;
    }
  }

  lemma {:induction false} EdgesAlone(s: State, p: Pid, es: seq<Edge>)
    requires p !in s.pending && s.stray == {} && forall e :: e in es ==> Admissible(e)
    ensures Legal(s, EdgeByEdge(p, es)) && After(s, EdgeByEdge(p, es)) == State(PutAll(s.graph, es), s.pending, {})
    decreases |es|
  {
    if es != [] {
      HalvesAlone(s, p, es[0]);
      var t := After(s, Halves(p, es[0]));
      EdgesAlone(t, p, es[1..]);
      AfterConcat(s, Halves(p, es[0]), EdgeByEdge(p, es[1..]));
    }
  }

  /** A refresh that nobody disturbs: the deletion and then the halves of the picked edges, committed
      one by one, make the same graph as the refresh in one piece. */
  lemma RefreshInSteps(g: Graph, p: Pid, id: Id, picked: seq<Edge>)
    requires forall e :: e in picked ==> Admissible(e)
    ensures var start, run := State(g, map[], {}), [Remove(p, id)] + EdgeByEdge(p, picked);
            Legal(start, run) && After(start, run) == State(PutAll(Without(g, id), picked), map[], {})
  {
    var start := State(g, map[], {});
    OneStep(start, Remove(p, id));
    var s1 := Apply(start, Remove(p, id));
    assert s1 == State(Without(g, id), map[], {});
    EdgesAlone(s1, p, picked);
    AfterConcat(start, [Remove(p, id)], EdgeByEdge(p, picked));
  }

  /** A rebuild commits the deletion and one batch. */
  lemma RebuildInSteps(g: Graph, p: Pid, es: seq<Edge>)
    requires forall e :: e in es ==> Admissible(e)
    ensures var start, run := State(g, map[], {}), [Clear(p)] + [Batch(p, es)];
            Legal(start, run) && After(start, run) == State(PutAll(map[], es), map[], {})
  {
    var start := State(g, map[], {});
    OneStep(start, Clear(p));
    OneStep(Apply(start, Clear(p)), Batch(p, es));
    AfterConcat(start, [Clear(p)], [Batch(p, es)]);
  }

  /** One deletion between the two halves leaves a one-way edge behind. */
  lemma RemovalBetweenHalves(e: Edge)
    requires Admissible(e) && Symmetric(e.key.rel)
    ensures var run := [First(0, e), Remove(1, e.key.src), Second(0)];
            var start := State(map[], map[], {});
            Legal(start, run) && After(start, run).graph == map[Rev(e.key) := Clamp(e.score)]
  {
    var run := [First(0, e), Remove(1, e.key.src), Second(0)];
    var s0 := State(map[], map[], {});
    var s1 := Apply(s0, run[0]);
    assert Enabled(s1, run[1]);
    var s2 := Apply(s1, run[1]);
    assert s2.graph == map[];
    var rest := run[1..];
    var last := rest[1..];
    assert last == [run[2]] && last[1..] == [];
    assert After(s2, last).graph == map[Rev(e.key) := Clamp(e.score)];
    assert After(s1, rest) == After(s2, last);
  }
}
