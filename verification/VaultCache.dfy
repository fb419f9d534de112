/** The in-memory cache over the vault's files: `_sweep_vault_cache`,
    `_cache_refresh_from_disk`, `_cache_evict`, `_load_vault_cache` and
    `_flush_vault_cache` of memem/obsidian_store.py, with the in-place updates that
    precede a write. Parsing a file is left abstract. */
module VaultCache {
  import opened Wrappers

  type Path = string
  type Id = string

  datatype Mem = Mem(id: Id, body: string)

  /** A file of the vault; None is a file that does not parse. */
  datatype File = File(mtime: nat, mem: Option<Mem>)

  datatype Entry = Entry(mtime: nat, id: Id)

  type Files = map<Path, File>
  type Memories = map<Id, Mem>
  type Entries = map<Path, Entry>

  /** The cache proper. `pending` are the memories changed in place since they were last
      read from or written to disk: history, not a variable of the program. */
  datatype Cache = Cache(mems: Memories, entries: Entries, pending: set<Id>)

  const COLD := Cache(map[], map[], {})

  // ---------------------------------------------------------------------------
  // Coherence
  // ---------------------------------------------------------------------------

  /** The memory each path holds, and back. */
  datatype Naming = Naming(idOf: Path -> Id, pathOf: Id -> Path)

  /** Each path always holds the same memory, and no other path does. */
  ghost predicate Fixed(n: Naming) {
    forall p :: n.pathOf(n.idOf(p)) == p
  }

  predicate Filed(n: Naming, entries: Entries, id: Id) {
    n.pathOf(id) in entries && n.idOf(n.pathOf(id)) == id
  }

  predicate FilesOk(n: Naming, files: Files, clock: nat) {
    forall p :: p in files ==> files[p].mtime < clock && (files[p].mem.Some? ==> files[p].mem.value.id == n.idOf(p))
  }

  /** The recorded mtime is the file's, and nothing was changed in place since. */
  predicate Current(n: Naming, files: Files, c: Cache, p: Path) {
    p in files && p in c.entries && c.entries[p].mtime == files[p].mtime && n.idOf(p) !in c.pending
  }

  predicate EntryOk(n: Naming, files: Files, clock: nat, c: Cache, p: Path)
    requires p in c.entries
  {
    && c.entries[p].id == n.idOf(p) && c.entries[p].mtime < clock && n.idOf(p) in c.mems
    && (Current(n, files, c, p) ==> files[p].mem == Some(c.mems[n.idOf(p)]))
  }

  predicate Coherent(n: Naming, files: Files, clock: nat, c: Cache) {
    && (forall p :: p in c.entries ==> EntryOk(n, files, clock, c, p))
    && (forall id :: id in c.mems ==> c.mems[id].id == id && Filed(n, c.entries, id))
  }

  // ---------------------------------------------------------------------------
  // Interleaved steps
  // ---------------------------------------------------------------------------

  /** A refresh or one file of a sweep: stat, then parse, then store. */
  datatype Task = Resting | Statted(path: Path, mtime: nat) | Parsed(path: Path, mtime: nat, mem: Mem)

  /** `clock` is above every mtime ever used; `flushed` is the cache file. */
  datatype State = State(files: Files, clock: nat, cache: Cache, flushed: Option<Cache>, tasks: seq<Task>)

  datatype Event =
    | OutsideWrite(path: Path, mem: Option<Mem>)
    | OutsideDelete(path: Path)
    | Stat(task: nat, path: Path)
    | Parse(task: nat)
    | Store(task: nat)
    | EvictStale(path: Path)
    | EvictId(id: Id)
    | Mutate(id: Id, body: string)
    | WriteBack(path: Path, id: Id, stored: Mem)
    | Flush
    | Load
    | Restart

  predicate Enabled(n: Naming, s: State, e: Event) {
    match e
    case OutsideWrite(p, mem) => mem.Some? ==> mem.value.id == n.idOf(p)
    case OutsideDelete(p) => p in s.files
    case Stat(t, p) => t < |s.tasks| && s.tasks[t].Resting? && p in s.files
    case Parse(t) => t < |s.tasks| && s.tasks[t].Statted?
    case Store(t) => t < |s.tasks| && s.tasks[t].Parsed?
    case EvictStale(p) => p in s.cache.entries
    case EvictId(id) => true
    case Mutate(id, _) => id in s.cache.mems
    case WriteBack(p, id, stored) => id in s.cache.mems && n.idOf(p) == id && stored.id == id
    case Flush => true
    case Load => s.flushed.Some?
    case Restart => true
  }

  function WriteFile(s: State, p: Path, mem: Option<Mem>): State {
    s.(files := s.files[p := File(s.clock, mem)], clock := s.clock + 1)
  }

  function Evict(c: Cache, id: Id): Cache {
    Cache(c.mems - {id}, map p | p in c.entries && c.entries[p].id != id :: c.entries[p], c.pending)
  }

  function Put(c: Cache, p: Path, mtime: nat, mem: Mem): Cache {
    var mems := if p in c.entries && c.entries[p].id != mem.id then c.mems - {c.entries[p].id} else c.mems;
    Cache(mems[mem.id := mem], c.entries[p := Entry(mtime, mem.id)], c.pending - {mem.id})
  }

  function Apply(n: Naming, s: State, e: Event): State
    requires Enabled(n, s, e)
  {
    match e
    case OutsideWrite(p, mem) => WriteFile(s, p, mem)
    case OutsideDelete(p) => s.(files := s.files - {p})
    case Stat(t, p) => s.(tasks := s.tasks[t := Statted(p, s.files[p].mtime)])
    case Parse(t) =>
      var p := s.tasks[t].path;
      s.(tasks := s.tasks[t := if p in s.files && s.files[p].mem.Some?
                               then Parsed(p, s.tasks[t].mtime, s.files[p].mem.value) else Resting])
    case Store(t) =>
      var k := s.tasks[t];
      s.(tasks := s.tasks[t := Resting], cache := Put(s.cache, k.path, k.mtime, k.mem))
    case EvictStale(p) =>
      s.(cache := Cache(s.cache.mems - {s.cache.entries[p].id}, s.cache.entries - {p}, s.cache.pending))
    case EvictId(id) => s.(cache := Evict(s.cache, id))
    case Mutate(id, body) =>
      s.(cache := Cache(s.cache.mems[id := Mem(id, body)], s.cache.entries, s.cache.pending + {id}))
    case WriteBack(p, id, stored) =>
      WriteFile(s, p, Some(stored)).(cache := s.cache.(pending := s.cache.pending - {id}))
    case Flush => s.(flushed := Some(s.cache))
    case Load => s.(cache := s.flushed.value)
    case Restart => s.(cache := COLD, tasks := seq(|s.tasks|, _ => Resting))
  }

  predicate TaskOk(n: Naming, s: State, k: Task) {
    match k
    case Resting => true
    case Statted(_, m) => m < s.clock
    case Parsed(p, m, mem) =>
      m < s.clock && mem.id == n.idOf(p) && (p in s.files && s.files[p].mtime == m ==> s.files[p].mem == Some(mem))
  }

  predicate Inv(n: Naming, s: State) {
    && FilesOk(n, s.files, s.clock)
    && Coherent(n, s.files, s.clock, s.cache)
    && (s.flushed.Some? ==> Coherent(n, s.files, s.clock, s.flushed.value))
    && forall t :: 0 <= t < |s.tasks| ==> TaskOk(n, s, s.tasks[t])
  }

  /** A write takes an mtime no record can have, so it can only make records stale. */
  lemma WriteKeepsCache(n: Naming, files: Files, clock: nat, c: Cache, p: Path, mem: Option<Mem>)
    requires Coherent(n, files, clock, c)
    ensures Coherent(n, files[p := File(clock, mem)], clock + 1, c)
    ensures Coherent(n, files - {p}, clock, c)
  {
    var more, less := files[p := File(clock, mem)], files - {p};
    forall q | q in c.entries ensures EntryOk(n, more, clock + 1, c, q) && EntryOk(n, less, clock, c, q) {
      assert EntryOk(n, files, clock, c, q);
    }
  }

  /** Writing a changed memory back makes its record stale, so it need not be pending. */
  lemma WriteBackKeepsCache(n: Naming, files: Files, clock: nat, c: Cache, p: Path, mem: Mem)
    requires Fixed(n) && Coherent(n, files, clock, c) && mem.id == n.idOf(p)
    ensures Coherent(n, files[p := File(clock, Some(mem))], clock + 1, c.(pending := c.pending - {mem.id}))
  {
    var more, c' := files[p := File(clock, Some(mem))], c.(pending := c.pending - {mem.id});
    forall q | q in c'.entries ensures EntryOk(n, more, clock + 1, c', q) {
      assert EntryOk(n, files, clock, c, q);
    }
    forall id | id in c'.mems ensures Filed(n, c'.entries, id) {
      assert Filed(n, c.entries, id);
    }
  }

  lemma PutKeepsCache(n: Naming, files: Files, clock: nat, c: Cache, p: Path, m: nat, mem: Mem)
    requires Fixed(n) && Coherent(n, files, clock, c)
    requires m < clock && mem.id == n.idOf(p)
    requires p in files && files[p].mtime == m ==> files[p].mem == Some(mem)
    ensures Coherent(n, files, clock, Put(c, p, m, mem))
  {
    var c' := Put(c, p, m, mem);
    assert p in c.entries ==> EntryOk(n, files, clock, c, p);
    forall q | q in c'.entries ensures EntryOk(n, files, clock, c', q) {
      if q != p {
        assert EntryOk(n, files, clock, c, q);
        assert n.idOf(q) != n.idOf(p);
      }
    }
    forall id | id in c'.mems ensures c'.mems[id].id == id && Filed(n, c'.entries, id) {
      if id == mem.id {
        assert p in c'.entries && n.idOf(p) == id;
      } else {
        assert Filed(n, c.entries, id);
        assert n.pathOf(id) in c'.entries;
      }
    }
  }

  lemma DropKeepsCache(n: Naming, files: Files, clock: nat, c: Cache, c': Cache, id: Id)
    requires Fixed(n) && Coherent(n, files, clock, c)
    requires c'.mems == c.mems - {id} && c'.pending == c.pending
    requires forall p :: p in c'.entries <==> p in c.entries && c.entries[p].id != id
    requires forall p :: p in c'.entries ==> c'.entries[p] == c.entries[p]
    ensures Coherent(n, files, clock, c')
  {
    forall q | q in c'.entries ensures EntryOk(n, files, clock, c', q) {
      assert EntryOk(n, files, clock, c, q);
    }
    forall j | j in c'.mems ensures Filed(n, c'.entries, j) {
      assert Filed(n, c.entries, j);
      assert EntryOk(n, files, clock, c, n.pathOf(j));
    }
  }

  lemma MutateKeepsCache(n: Naming, files: Files, clock: nat, c: Cache, id: Id, body: string)
    requires Coherent(n, files, clock, c) && id in c.mems
    ensures Coherent(n, files, clock, Cache(c.mems[id := Mem(id, body)], c.entries, c.pending + {id}))
  {
    var c' := Cache(c.mems[id := Mem(id, body)], c.entries, c.pending + {id});
    forall q | q in c'.entries ensures EntryOk(n, files, clock, c', q) {
      assert EntryOk(n, files, clock, c, q);
    }
    forall j | j in c'.mems ensures Filed(n, c'.entries, j) {
      assert Filed(n, c.entries, j);
    }
  }

  lemma EvictStaleKeeps(n: Naming, s: State, p: Path)
    requires Fixed(n) && Inv(n, s) && p in s.cache.entries
    ensures Inv(n, Apply(n, s, EvictStale(p)))
  {
    var t := Apply(n, s, EvictStale(p));
    assert EntryOk(n, s.files, s.clock, s.cache, p);
    forall q | q in s.cache.entries ensures q in t.cache.entries <==> s.cache.entries[q].id != n.idOf(p) {
      assert EntryOk(n, s.files, s.clock, s.cache, q);
    }
    DropKeepsCache(n, s.files, s.clock, s.cache, t.cache, n.idOf(p));
    TasksStay(n, s, t);
  }

  /** Tasks survive whatever leaves the files alone or gives them fresh mtimes. */
  lemma TasksStay(n: Naming, s: State, t: State)
    requires Inv(n, s) && t.tasks == s.tasks && t.clock >= s.clock
    requires forall p :: p in t.files ==> t.files[p].mtime >= s.clock || (p in s.files && t.files[p] == s.files[p])
    ensures forall i :: 0 <= i < |t.tasks| ==> TaskOk(n, t, t.tasks[i])
  {
    forall i | 0 <= i < |t.tasks| ensures TaskOk(n, t, t.tasks[i]) {
      assert TaskOk(n, s, s.tasks[i]);
    }
  }

  lemma StepKeeps(n: Naming, s: State, e: Event)
    requires Fixed(n) && Inv(n, s) && Enabled(n, s, e)
    ensures Inv(n, Apply(n, s, e))
  {
    var t := Apply(n, s, e);
    match e
    case OutsideWrite(p, mem) =>
      WriteKeepsCache(n, s.files, s.clock, s.cache, p, mem);
      if s.flushed.Some? { WriteKeepsCache(n, s.files, s.clock, s.flushed.value, p, mem); }
      TasksStay(n, s, t);
    case OutsideDelete(p) =>
      WriteKeepsCache(n, s.files, s.clock, s.cache, p, None);
      if s.flushed.Some? { WriteKeepsCache(n, s.files, s.clock, s.flushed.value, p, None); }
      TasksStay(n, s, t);
    case Stat(k, p) => MoveTask(n, s, k, t.tasks[k]);
    case Parse(k) =>
      assert TaskOk(n, s, s.tasks[k]);
      MoveTask(n, s, k, t.tasks[k]);
    case Store(k) =>
      var job := s.tasks[k];
      assert TaskOk(n, s, job);
      PutKeepsCache(n, s.files, s.clock, s.cache, job.path, job.mtime, job.mem);
      MoveTask(n, s, k, Resting);
    case EvictStale(p) => EvictStaleKeeps(n, s, p);
    case EvictId(id) =>
      DropKeepsCache(n, s.files, s.clock, s.cache, t.cache, id);
      TasksStay(n, s, t);
    case Mutate(id, body) =>
      MutateKeepsCache(n, s.files, s.clock, s.cache, id, body);
      TasksStay(n, s, t);
    case WriteBack(p, id, stored) =>
      WriteBackKeepsCache(n, s.files, s.clock, s.cache, p, stored);
      if s.flushed.Some? { WriteKeepsCache(n, s.files, s.clock, s.flushed.value, p, Some(stored)); }
      TasksStay(n, s, t);
    case Flush => TasksStay(n, s, t);
    case Load => TasksStay(n, s, t);
    case Restart =>
  }

  lemma MoveTask(n: Naming, s: State, k: nat, task: Task)
    requires Inv(n, s) && k < |s.tasks| && TaskOk(n, s, task)
    ensures Inv(n, s.(tasks := s.tasks[k := task]))
  {
    var t := s.(tasks := s.tasks[k := task]);
    forall i | 0 <= i < |t.tasks| ensures TaskOk(n, t, t.tasks[i]) {
      assert TaskOk(n, s, t.tasks[i]);
    }
  }

  predicate Legal(n: Naming, s: State, es: seq<Event>)
    decreases |es|
  {
    es == [] || (Enabled(n, s, es[0]) && Legal(n, Apply(n, s, es[0]), es[1..]))
  }

  function After(n: Naming, s: State, es: seq<Event>): State
    requires Legal(n, s, es)
    decreases |es|
  {
    if es == [] then s else After(n, Apply(n, s, es[0]), es[1..])
  }

  lemma {:induction false} RunKeeps(n: Naming, s: State, es: seq<Event>)
    requires Fixed(n) && Inv(n, s) && Legal(n, s, es)
    ensures Inv(n, After(n, s, es))
    decreases |es|
  {
    if es != [] {
      StepKeeps(n, s, es[0]);
      RunKeeps(n, Apply(n, s, es[0]), es[1..]);
    }
  }

  function Start(files: Files, clock: nat, tasks: nat): State {
    State(files, clock, COLD, None, seq(tasks, _ => Resting))
  }

  /** Under every interleaving of reads, stores, evictions, in-place changes, write-backs,
      flushes, loads and outside writes, an entry with the file's own mtime holds exactly
      that file's parse, unless the memory was changed in place and not written back. */
  lemma CacheIsCoherent(n: Naming, files: Files, clock: nat, tasks: nat, es: seq<Event>, p: Path)
    requires Fixed(n) && FilesOk(n, files, clock)
    requires Legal(n, Start(files, clock, tasks), es)
    requires var s := After(n, Start(files, clock, tasks), es);
             && p in s.cache.entries && p in s.files && s.cache.entries[p].mtime == s.files[p].mtime
    ensures var s := After(n, Start(files, clock, tasks), es);
            var id := s.cache.entries[p].id;
            id in s.cache.mems && (id !in s.cache.pending ==> s.files[p].mem == Some(s.cache.mems[id]))
  {
    RunKeeps(n, Start(files, clock, tasks), es);
    var s := After(n, Start(files, clock, tasks), es);
    assert EntryOk(n, s.files, s.clock, s.cache, p);
  }

  // ---------------------------------------------------------------------------
  // What the steps achieve
  // ---------------------------------------------------------------------------

  lemma Then(n: Naming, s: State, e: Event, es: seq<Event>)
    requires Enabled(n, s, e) && Legal(n, Apply(n, s, e), es)
    ensures Legal(n, s, [e] + es) && After(n, s, [e] + es) == After(n, Apply(n, s, e), es)
  {
    assert ([e] + es)[1..] == es;
  }

  lemma ThreeSteps(n: Naming, s: State, a: Event, b: Event, c: Event)
    requires Enabled(n, s, a) && Enabled(n, Apply(n, s, a), b) && Enabled(n, Apply(n, Apply(n, s, a), b), c)
    ensures Legal(n, s, [a, b, c])
    ensures After(n, s, [a, b, c]) == Apply(n, Apply(n, Apply(n, s, a), b), c)
  {
    var t := Apply(n, s, a);
    Then(n, Apply(n, t, b), c, []);
    Then(n, t, b, [c]);
    Then(n, s, a, [b, c]);
    assert [c] + [] == [c] && [b] + [c] == [b, c] && [a] + [b, c] == [a, b, c];
  }

  /** The two caches agree on every path but `p` and on every memory but the one of `p`. */
  ghost predicate SameElsewhere(n: Naming, p: Path, a: Cache, b: Cache) {
    && (forall q :: q != p ==>
          (q in a.entries <==> q in b.entries) && (q in a.entries ==> a.entries[q] == b.entries[q]))
    && (forall id :: id != n.idOf(p) ==>
          (id in a.mems <==> id in b.mems) && (id in a.mems ==> a.mems[id] == b.mems[id]))
  }

  /** A refresh that nobody disturbs puts the file's parse and its mtime into the cache, and touches
      nothing else. */
  lemma RefreshReads(n: Naming, s: State, k: nat, p: Path)
    requires Fixed(n) && Inv(n, s)
    requires k < |s.tasks| && s.tasks[k].Resting? && p in s.files && s.files[p].mem.Some?
    ensures var es := [Stat(k, p), Parse(k), Store(k)];
            && Legal(n, s, es)
            && var t := After(n, s, es);
               && t == s.(cache := t.cache) && SameElsewhere(n, p, s.cache, t.cache)
               && p in t.cache.entries && t.cache.entries[p] == Entry(s.files[p].mtime, n.idOf(p))
               && n.idOf(p) in t.cache.mems && Some(t.cache.mems[n.idOf(p)]) == s.files[p].mem
  {
    ThreeSteps(n, s, Stat(k, p), Parse(k), Store(k));
    assert s.tasks[k := Resting] == s.tasks;
    assert p in s.cache.entries ==> EntryOk(n, s.files, s.clock, s.cache, p);
  }

  /** After a write by this or another program no cache, not even a flushed one, passes the mtime test
      for the file, so a sweep of any of them reads it again. */
  lemma WritesAreNoticed(n: Naming, s: State, e: Event, c: Cache)
    requires Inv(n, s) && Enabled(n, s, e) && (c == s.cache || s.flushed == Some(c))
    requires e.OutsideWrite? || e.WriteBack?
    ensures var t := Apply(n, s, e);
            && t.files == s.files[e.path := t.files[e.path]]
            && t.files[e.path].mem == (if e.OutsideWrite? then e.mem else Some(e.stored))
            && (e.path in c.entries ==> c.entries[e.path].mtime != t.files[e.path].mtime)
            && (t.files[e.path].mem.Some? ==> Unread(t.files, c.entries, e.path))
  {
    if e.path in c.entries {
      assert EntryOk(n, s.files, s.clock, c, e.path);
    }
  }

  /** A deletion leaves an entry without a file, which a sweep drops. */
  lemma DeletesAreNoticed(n: Naming, s: State, p: Path, c: Cache)
    requires Enabled(n, s, OutsideDelete(p)) && p in c.entries
    ensures var t := Apply(n, s, OutsideDelete(p));
            Outdated(t.files, c.entries, p) && forall q :: q != p ==> (q in t.files <==> q in s.files)
  {
  }

  /** Deleting a memory takes it and the entry of its path out of the cache, and nothing else; so
      does the loss of its file. */
  lemma EvictionDrops(n: Naming, s: State, p: Path, e: Event)
    requires Fixed(n) && Inv(n, s) && Enabled(n, s, e) && (e == EvictId(n.idOf(p)) || e == EvictStale(p))
    ensures var t := Apply(n, s, e);
            && t == s.(cache := t.cache) && SameElsewhere(n, p, s.cache, t.cache)
            && p !in t.cache.entries && n.idOf(p) !in t.cache.mems
  {
    forall q | q in s.cache.entries ensures s.cache.entries[q].id == n.idOf(q) && (n.idOf(q) == n.idOf(p) ==> q == p) {
      assert EntryOk(n, s.files, s.clock, s.cache, q);
    }
  }

  /** A flush survives a restart: what a cold start loads is the cache that was flushed. */
  lemma RestartRestores(n: Naming, s: State)
    ensures var es := [Flush, Restart, Load];
            && Legal(n, s, es)
            && After(n, s, es).cache == s.cache && After(n, s, es).files == s.files
            && After(n, s, es).flushed == Some(s.cache)
            && Apply(n, s, Restart).cache == COLD
  {
    ThreeSteps(n, s, Flush, Restart, Load);
  }

  // ---------------------------------------------------------------------------
  // The sweep
  // ---------------------------------------------------------------------------

  /** The sweep keeps an entry whose file has the recorded mtime or no longer parses. */
  predicate Kept(files: Files, entries: Entries, p: Path) {
    p in files && p in entries && (entries[p].mtime == files[p].mtime || files[p].mem.None?)
  }

  /** A file with a memory in it that the cache has no entry for, or one of another mtime. */
  predicate Unread(files: Files, entries: Entries, p: Path) {
    p in files && files[p].mem.Some? && !(p in entries && entries[p].mtime == files[p].mtime)
  }

  /** A path at which the cache has to change. */
  predicate Outdated(files: Files, entries: Entries, p: Path) {
    (p in entries && p !in files) || Unread(files, entries, p)
  }

  ghost predicate SomeUnread(files: Files, entries: Entries, paths: set<Path>) {
    exists p :: p in paths && Unread(files, entries, p)
  }

  lemma MoreUnread(files: Files, entries: Entries, paths: set<Path>, p: Path)
    ensures SomeUnread(files, entries, paths + {p}) <==> SomeUnread(files, entries, paths) || Unread(files, entries, p)
  {
  }

  ghost predicate SweptTo(n: Naming, files: Files, c: Cache, mems: Memories, entries: Entries) {
    && (forall p :: p in entries <==> p in files && (p in c.entries || files[p].mem.Some?))
    && (forall p :: p in entries ==>
          && n.idOf(p) in mems
          && (if Kept(files, c.entries, p)
              then entries[p] == c.entries[p] && n.idOf(p) in c.mems && mems[n.idOf(p)] == c.mems[n.idOf(p)]
              else files[p].mem == Some(mems[n.idOf(p)]) && entries[p] == Entry(files[p].mtime, n.idOf(p))))
    && (forall id :: id in mems ==> Filed(n, entries, id))
  }

  /** `mems` and `entries` are part of the cache `c`, id by id and path by path. */
  ghost predicate PartOf(n: Naming, c: Cache, mems: Memories, entries: Entries) {
    && (forall p :: p in entries ==> p in c.entries && entries[p] == c.entries[p] && entries[p].id == n.idOf(p))
    && (forall p :: p in entries ==> n.idOf(p) in mems && n.idOf(p) in c.mems && mems[n.idOf(p)] == c.mems[n.idOf(p)])
    && (forall id :: id in mems ==> Filed(n, entries, id))
  }

  /** SweptTo, restricted to the files already visited; the others are as in `b`. */
  ghost predicate SweptSoFar(n: Naming, files: Files, b: Cache, mems: Memories, entries: Entries, done: set<Path>) {
    && (forall p :: p in entries <==> p in files && (p in b.entries || (p in done && files[p].mem.Some?)))
    && (forall p :: p in entries ==>
          && n.idOf(p) in mems
          && (if p in done && !Kept(files, b.entries, p)
              then files[p].mem == Some(mems[n.idOf(p)]) && entries[p] == Entry(files[p].mtime, n.idOf(p))
              else && p in b.entries && entries[p] == b.entries[p]
                   && n.idOf(p) in b.mems && mems[n.idOf(p)] == b.mems[n.idOf(p)]))
    && (forall id :: id in mems ==> Filed(n, entries, id))
  }

  class VaultStore {
    var mems: Memories
    var entries: Entries
    var dirty: bool

    /** A sweep with no concurrent write; `changed` asks for a flush. */
    method Sweep(files: Files, ghost n: Naming, ghost clock: nat, ghost pending: set<Id>) returns (changed: bool)
      requires Fixed(n) && FilesOk(n, files, clock)
      requires Coherent(n, files, clock, Cache(mems, entries, pending))
      modifies this
      ensures SweptTo(n, files, old(Cache(mems, entries, pending)), mems, entries)
      ensures !dirty && (!changed ==> mems == old(mems) && entries == old(entries))
      ensures changed <==> old(dirty) || exists p :: Outdated(files, old(entries), p)
    {
      ghost var c := Cache(mems, entries, pending);
      CoherentParts(n, files, clock, c);
      var evicted := EvictDeleted(files, n, c);
      ghost var b := Cache(mems, entries, pending);
      var parsed := ReparseChanged(files, n, clock, b);
      SweptAll(n, files, c, b, mems, entries);
      assert SomeUnread(files, b.entries, files.Keys) <==> exists p :: Unread(files, b.entries, p);
      assert forall p ::
          Outdated(files, c.entries, p) <==> (p in c.entries && p !in files) || Unread(files, b.entries, p);
      changed := dirty || evicted || parsed;
      dirty := false;
    }

    /** Drops the entries of files that are gone. */
    method EvictDeleted(files: Files, ghost n: Naming, ghost c: Cache) returns (changed: bool)
      requires Fixed(n) && mems == c.mems && entries == c.entries && PartOf(n, c, mems, entries)
      modifies this
      ensures dirty == old(dirty) && PartOf(n, c, mems, entries)
      ensures forall p :: p in entries <==> p in c.entries && p in files
      ensures !changed ==> mems == old(mems) && entries == old(entries)
      ensures changed <==> exists p :: p in c.entries && p !in files
    {
      changed := false;
      var stale := set f | f in entries && f !in files;
      while stale != {}
        invariant dirty == old(dirty) && PartOf(n, c, mems, entries)
        invariant forall p :: p in entries <==> p in c.entries && (p in files || p in stale)
        invariant forall p :: p in stale ==> p in c.entries && p !in files
        invariant !changed ==> mems == old(mems) && entries == old(entries)
        invariant changed ==> exists p :: p in c.entries && p !in files
        invariant !changed ==> forall p :: p in c.entries && p !in files ==> p in stale
        decreases stale
      {
        var f :| f in stale;
        DropOne(n, c, mems, entries, f);
        mems := mems - {entries[f].id};
        entries := entries - {f};
        stale := stale - {f};
        changed := true;
      }
    }

    /** Parses one file if its mtime is not the recorded one. */
    method Reparse(files: Files, p: Path) returns (parsed: bool)
      requires p in files
      modifies this
      ensures dirty == old(dirty) && (parsed <==> Unread(files, old(entries), p))
      ensures if parsed then
                var mem := files[p].mem.value;
                mems == old(mems)[mem.id := mem] && entries == old(entries)[p := Entry(files[p].mtime, mem.id)]
              else mems == old(mems) && entries == old(entries)
    {
      if !(p in entries && entries[p].mtime == files[p].mtime) && files[p].mem.Some? {
        var mem := files[p].mem.value;
        // A path never changes its id, so there is no old id to drop here.
        mems := mems[mem.id := mem];
        entries := entries[p := Entry(files[p].mtime, mem.id)];
        parsed := true;
      } else {
        parsed := false;
      }
    }

    /** Parses the files whose mtime is not the recorded one. */
    method ReparseChanged(files: Files, ghost n: Naming, ghost clock: nat, ghost b: Cache) returns (changed: bool)
      requires Fixed(n) && FilesOk(n, files, clock)
      requires mems == b.mems && entries == b.entries && PartOf(n, b, mems, entries)
      requires forall p :: p in entries ==> p in files
      modifies this
      ensures dirty == old(dirty) && SweptSoFar(n, files, b, mems, entries, files.Keys)
      ensures !changed ==> mems == old(mems) && entries == old(entries)
      ensures changed <==> SomeUnread(files, b.entries, files.Keys)
    {
      changed := false;
      var todo := files.Keys;
      ghost var done: set<Path> := {};
      while todo != {}
        invariant dirty == old(dirty) && todo !! done && todo + done == files.Keys
        invariant SweptSoFar(n, files, b, mems, entries, done)
        invariant !changed ==> mems == old(mems) && entries == old(entries)
        invariant changed <==> SomeUnread(files, b.entries, done)
        decreases todo
      {
        var p :| p in todo;
        ghost var mems0, entries0 := mems, entries;
        assert p in entries <==> p in b.entries;
        var parsed := Reparse(files, p);
        changed := changed || parsed;
        MoreUnread(files, b.entries, done, p);
        OneSwept(n, files, clock, b, mems0, entries0, mems, entries, done, p);
        todo := todo - {p};
        done := done + {p};
      }
    }
  }

  lemma CoherentParts(n: Naming, files: Files, clock: nat, c: Cache)
    requires Coherent(n, files, clock, c)
    ensures PartOf(n, c, c.mems, c.entries)
  {
    forall p | p in c.entries ensures c.entries[p].id == n.idOf(p) && n.idOf(p) in c.mems {
      assert EntryOk(n, files, clock, c, p);
    }
    forall id | id in c.mems ensures Filed(n, c.entries, id) {
      assert Filed(n, c.entries, id);
    }
  }

  lemma SweptAll(n: Naming, files: Files, c: Cache, b: Cache, mems: Memories, entries: Entries)
    requires SweptSoFar(n, files, b, mems, entries, files.Keys) && PartOf(n, c, b.mems, b.entries)
    requires forall p :: p in b.entries <==> p in c.entries && p in files
    ensures SweptTo(n, files, c, mems, entries)
  {
    forall p | p in entries ensures Kept(files, b.entries, p) <==> Kept(files, c.entries, p) {
    }
  }

  lemma DropOne(n: Naming, c: Cache, mems: Memories, entries: Entries, f: Path)
    requires Fixed(n) && PartOf(n, c, mems, entries) && f in entries
    ensures PartOf(n, c, mems - {entries[f].id}, entries - {f})
  {
    var mems', entries' := mems - {entries[f].id}, entries - {f};
    forall p | p in entries' ensures n.idOf(p) in mems' {
      assert n.idOf(p) != n.idOf(f);
    }
    forall id | id in mems' ensures Filed(n, entries', id) {
      assert n.pathOf(id) in entries';
    }
  }

  lemma OneSwept(n: Naming, files: Files, clock: nat, b: Cache, mems0: Memories, entries0: Entries,
                 mems: Memories, entries: Entries, done: set<Path>, p: Path)
    requires Fixed(n) && FilesOk(n, files, clock) && p in files && p !in done
    requires SweptSoFar(n, files, b, mems0, entries0, done)
    requires p in entries0 ==> entries0[p].id == n.idOf(p)
    requires if Kept(files, b.entries, p) || files[p].mem.None? then mems == mems0 && entries == entries0
             else && mems == mems0[n.idOf(p) := files[p].mem.value]
                  && entries == entries0[p := Entry(files[p].mtime, n.idOf(p))]
    ensures SweptSoFar(n, files, b, mems, entries, done + {p})
  {
    forall q | q in entries && q != p ensures n.idOf(q) in mems && mems[n.idOf(q)] == mems0[n.idOf(q)] {
      assert n.idOf(q) != n.idOf(p);
    }
    forall id | id in mems ensures Filed(n, entries, id) {
      if id in mems0 {
        assert n.pathOf(id) in entries;
      } else {
        assert p in entries && n.idOf(p) == id;
      }
    }
  }

  // ---------------------------------------------------------------------------
  // What a sweep restores
  // ---------------------------------------------------------------------------

  /** The cache holds the parse of every file of the vault, and nothing else. */
  ghost predicate FullParse(n: Naming, files: Files, mems: Memories) {
    && (forall p :: p in files ==> files[p].mem.Some? && n.idOf(p) in mems && files[p].mem == Some(mems[n.idOf(p)]))
    && (forall id :: id in mems ==> n.pathOf(id) in files && n.idOf(n.pathOf(id)) == id)
  }

  /** A sweep of any coherent cache, also one loaded from an earlier flush, makes it equal
      a full parse if and only if every file parses and no memory changed in place under
      an unchanged mtime differs from its file. */
  lemma {:induction false} SweepRestores(
      n: Naming, files: Files, clock: nat, c: Cache, mems: Memories, entries: Entries)
    requires Fixed(n) && FilesOk(n, files, clock) && Coherent(n, files, clock, c)
    requires SweptTo(n, files, c, mems, entries)
    ensures FullParse(n, files, mems) <==>
            && (forall p :: p in files ==> files[p].mem.Some?)
            && (forall p ::
                  p in files && p in c.entries && c.entries[p].mtime == files[p].mtime && n.idOf(p) in c.pending ==>
                  files[p].mem == Some(c.mems[n.idOf(p)]))
  {
    if forall p :: p in files ==> files[p].mem.Some? {
      forall p | p in files ensures p in entries && n.idOf(p) in mems {
        assert files[p].mem.Some?;
      }
      forall p | p in files && p in c.entries && c.entries[p].mtime == files[p].mtime
        ensures n.idOf(p) in c.mems && mems[n.idOf(p)] == c.mems[n.idOf(p)]
        ensures n.idOf(p) !in c.pending ==> files[p].mem == Some(c.mems[n.idOf(p)])
      {
        assert EntryOk(n, files, clock, c, p);
        assert Kept(files, c.entries, p);
      }
      forall id | id in mems ensures n.pathOf(id) in files && n.idOf(n.pathOf(id)) == id {
        assert n.pathOf(id) in entries;
      }
    }
  }

  /** A change made in place whose write fails stays in the cache: the recorded mtime is
      still the file's, so no sweep looks at the file again. */
  lemma FailedWriteStays(n: Naming, files: Files, clock: nat, p: Path, mem: Mem, body: string) returns (es: seq<Event>)
    requires Fixed(n) && FilesOk(n, files, clock)
    requires p in files && files[p].mem == Some(mem) && body != mem.body
    ensures Legal(n, Start(files, clock, 1), es)
    ensures var s := After(n, Start(files, clock, 1), es);
            && s.files == files && Kept(files, s.cache.entries, p)
            && mem.id in s.cache.mems && s.cache.mems[mem.id].body == body
            && forall mems, entries :: SweptTo(n, files, s.cache, mems, entries) ==> !FullParse(n, files, mems)
  {
    var s0 := Start(files, clock, 1);
    es := [Stat(0, p), Parse(0), Store(0), Mutate(mem.id, body)];
    var s1 := Apply(n, s0, es[0]);
    var s2 := Apply(n, s1, es[1]);
    var s3 := Apply(n, s2, es[2]);
    var s4 := Apply(n, s3, es[3]);
    var none: seq<Event> := [];
    assert es[3..] == [es[3]] + none && es[3..][1..] == none;
    assert es[2..][1..] == es[3..] && es[1..][1..] == es[2..];
    assert Legal(n, s4, none) && After(n, s4, none) == s4;
    assert Legal(n, s3, es[3..]) && After(n, s3, es[3..]) == s4;
    assert Legal(n, s2, es[2..]) && After(n, s2, es[2..]) == s4;
    assert Legal(n, s1, es[1..]) && After(n, s1, es[1..]) == s4;
    RunKeeps(n, s0, es);
    forall mems, entries | SweptTo(n, files, s4.cache, mems, entries) ensures !FullParse(n, files, mems) {
      assert Kept(files, s4.cache.entries, p);
      assert p in entries;
    }
  }
}
