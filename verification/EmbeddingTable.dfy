/** The embedding table on disk, its locked writers and its lock-free readers:
    `_upsert_embedding` in memem/embedding_index.py and `load_embeddings` in
    memem/retrieve.py. Encoding a text is left abstract. */
module EmbeddingTable {
  import opened Wrappers

  type Id = string
  type Row = seq<real>

  /** embedding_ids.json and embeddings.npy; None is a file that does not exist. */
  datatype Files = Files(ids: Option<seq<Id>>, rows: Option<seq<Row>>)

  datatype Table = Table(ids: seq<Id>, rows: seq<Row>)

  const EMPTY := Table([], [])

  predicate Aligned(t: Table) { |t.ids| == |t.rows| }

  function FirstIndex(ids: seq<Id>, id: Id): (i: nat)
    requires id in ids
    ensures i < |ids| && ids[i] == id
    ensures forall j :: 0 <= j < i ==> ids[j] != id
  {
    if ids[0] == id then 0 else 1 + FirstIndex(ids[1..], id)
  }

  function Put(t: Table, id: Id, row: Row): Table
    requires Aligned(t)
  {
    if id in t.ids then t.(rows := t.rows[FirstIndex(t.ids, id) := row])
    else Table(t.ids + [id], t.rows + [row])
  }

  /** What an upsert starts from: the two files, or nothing when one is missing or they
      do not have equally many entries. */
  function Loaded(f: Files): (t: Table)
    ensures Aligned(t)
  {
    if f.ids.Some? && f.rows.Some? && |f.ids.value| == |f.rows.value| then Table(f.ids.value, f.rows.value)
    else EMPTY
  }

  class TableFiles {
    var ids: Option<seq<Id>>
    var rows: Option<seq<Row>>

    /** The body of an upsert between taking and releasing the lock. */
    method Upsert(id: Id, row: Row)
      modifies this
      ensures Files(ids, rows) ==
                var t := Put(Loaded(Files(old(ids), old(rows))), id, row);
                Files(Some(t.ids), Some(t.rows))
    {
      var currentIds, matrix := [], [];
      if rows.Some? && ids.Some? {
        matrix := rows.value;
        currentIds := ids.value;
        if |currentIds| != |matrix| {
          currentIds, matrix := [], [];
        }
      }
      if id in currentIds {
        var idx := FirstIndex(currentIds, id);
        matrix := matrix[idx := row];
      } else {
        matrix := matrix + [row];
        currentIds := currentIds + [id];
      }
      ids := Some(currentIds);
      rows := Some(matrix);
    }
  }

  // ---------------------------------------------------------------------------
  // The table a sequence of upserts amounts to
  // ---------------------------------------------------------------------------

  datatype Commit = Commit(id: Id, row: Row)

  function TableOf(log: seq<Commit>): (t: Table)
    ensures Aligned(t)
  {
    if log == [] then EMPTY
    else Put(TableOf(log[..|log| - 1]), log[|log| - 1].id, log[|log| - 1].row)
  }

  function LastRow(log: seq<Commit>, id: Id): Option<Row> {
    if log == [] then None
    else if log[|log| - 1].id == id then Some(log[|log| - 1].row)
    else LastRow(log[..|log| - 1], id)
  }

  /** Each committed id has one row, and it is the last one committed for it. */
  predicate Holds(t: Table, log: seq<Commit>) {
    && Aligned(t)
    && (forall i, j :: 0 <= i < j < |t.ids| ==> t.ids[i] != t.ids[j])
    && (forall i :: 0 <= i < |t.ids| ==> LastRow(log, t.ids[i]) == Some(t.rows[i]))
    && (forall k :: 0 <= k < |log| ==> log[k].id in t.ids)
  }

  lemma PutHolds(t: Table, log: seq<Commit>, c: Commit)
    requires Holds(t, log)
    ensures Holds(Put(t, c.id, c.row), log + [c])
  {
    var t', more := Put(t, c.id, c.row), log + [c];
    assert more[..|log|] == log;
    assert forall id :: id in t.ids ==> id in t'.ids;
    if c.id !in t.ids {
      assert t'.ids[|t.ids|] == c.id;
    }
    forall k | 0 <= k < |more| ensures more[k].id in t'.ids {
      assert k < |log| ==> more[k] == log[k];
    }
  }

  lemma {:induction false} TableHolds(log: seq<Commit>)
    ensures Holds(TableOf(log), log)
  {
    if log != [] {
      var before := log[..|log| - 1];
      TableHolds(before);
      PutHolds(TableOf(before), before, log[|log| - 1]);
      assert log == before + [log[|log| - 1]];
    }
  }

  /** Ids only grow, at the end. */
  lemma {:induction false} IdsGrow(log: seq<Commit>, k: nat)
    requires k <= |log|
    ensures TableOf(log[..k]).ids <= TableOf(log).ids
    decreases |log|
  {
    if k < |log| {
      assert log[..|log| - 1][..k] == log[..k];
      IdsGrow(log[..|log| - 1], k);
    } else {
      assert log[..k] == log;
    }
  }

  // ---------------------------------------------------------------------------
  // Concurrent writers and readers
  // ---------------------------------------------------------------------------

  /** A writer owns the lock from Locked on. */
  datatype Writer =
    | Away
    | Wants(c: Commit)
    | Locked(c: Commit)
    | ReadRows(c: Commit, rows: Option<seq<Row>>)
    | Ready(c: Commit, next: Table)
    | IdsWritten(c: Commit, next: Table)
    | Unlocking

  predicate InLock(w: Writer) { !w.Away? && !w.Wants? }

  /** What a reader keeps; `version` is the mtime it saw before reading, `at` records how
      many upserts were committed when it read the rows. */
  datatype Cached = Cached(rows: seq<Row>, ids: seq<Id>, version: nat, at: nat)

  datatype Phase = Resting | Statted(version: nat) | HasRows(rows: seq<Row>, version: nat, at: nat)

  datatype Reader = Reader(phase: Phase, cache: Option<Cached>)

  /** `version` is the mtime of embeddings.npy, fresh on every replacement; `log` is the
      history of committed upserts. */
  datatype State = State(
    files: Files,
    version: nat,
    lock: Option<nat>,
    writers: seq<Writer>,
    readers: seq<Reader>,
    log: seq<Commit>)

  datatype Event =
    | Encode(w: nat, c: Commit)
    | Acquire(w: nat)
    | LoadRows(w: nat)
    | LoadIds(w: nat)
    | WriteIds(w: nat)
    | WriteRows(w: nat)
    | Release(w: nat)
    | Crash(w: nat)
    | Stat(r: nat)
    | ReaderRows(r: nat)
    | ReaderIds(r: nat)

  predicate WriterEvent(e: Event) { !e.Stat? && !e.ReaderRows? && !e.ReaderIds? }

  /** The one place where a crash is not allowed for: the ids of a new memory are on disk
      and its row is not. */
  predicate TearsTable(s: State, w: Writer) {
    w.IdsWritten? && w.c.id !in TableOf(s.log).ids
  }

  predicate Enabled(s: State, e: Event) {
    if WriterEvent(e) then
      && e.w < |s.writers|
      && var w := s.writers[e.w];
         match e
         case Encode(_, _) => w.Away?
         case Acquire(_) => w.Wants? && s.lock.None?
         case LoadRows(_) => w.Locked?
         case LoadIds(_) => w.ReadRows?
         case WriteIds(_) => w.Ready?
         case WriteRows(_) => w.IdsWritten?
         case Crash(_) => !TearsTable(s, w)
         case _ => w.Unlocking?
    else
      && e.r < |s.readers|
      && var phase := s.readers[e.r].phase;
         match e
         case Stat(_) => phase.Resting?
         case ReaderRows(_) => phase.Statted? && s.files.rows.Some?
         case _ => phase.HasRows? && s.files.ids.Some?
  }

  function SetWriter(s: State, i: nat, w: Writer): State
    requires i < |s.writers|
  {
    s.(writers := s.writers[i := w])
  }

  function SetReader(s: State, i: nat, r: Reader): State
    requires i < |s.readers|
  {
    s.(readers := s.readers[i := r])
  }

  function Apply(s: State, e: Event): State
    requires Enabled(s, e)
  {
    match e
    case Encode(i, c) => SetWriter(s, i, Wants(c))
    case Acquire(i) => SetWriter(s, i, Locked(s.writers[i].c)).(lock := Some(i))
    case LoadRows(i) => SetWriter(s, i, ReadRows(s.writers[i].c, s.files.rows))
    case LoadIds(i) =>
      var w := s.writers[i];
      SetWriter(s, i, Ready(w.c, Put(Loaded(Files(s.files.ids, w.rows)), w.c.id, w.c.row)))
    case WriteIds(i) =>
      var w := s.writers[i];
      SetWriter(s, i, IdsWritten(w.c, w.next)).(files := s.files.(ids := Some(w.next.ids)))
    case WriteRows(i) =>
      var w := s.writers[i];
      SetWriter(s, i, Unlocking)
      .(files := s.files.(rows := Some(w.next.rows)), version := s.version + 1, log := s.log + [w.c])
    case Release(i) => SetWriter(s, i, Away).(lock := None)
    case Crash(i) =>
      // The kernel drops the lock of a dead process.
      SetWriter(s, i, Away).(lock := if s.lock == Some(i) then None else s.lock)
    case Stat(i) =>
      // A missing file is None to the caller; a cache as new as the file is used as it is.
      var r := s.readers[i];
      if s.files.ids.None? || s.files.rows.None? then s
      else if r.cache.Some? && r.cache.value.version >= s.version then s
      else SetReader(s, i, r.(phase := Statted(s.version)))
    case ReaderRows(i) =>
      var r := s.readers[i];
      SetReader(s, i, r.(phase := HasRows(s.files.rows.value, r.phase.version, |s.log|)))
    case ReaderIds(i) =>
      var r := s.readers[i];
      SetReader(s, i, Reader(Resting, Some(Cached(r.phase.rows, s.files.ids.value, r.phase.version, r.phase.at))))
  }

  function Start(writers: nat, readers: nat): State {
    State(Files(None, None), 0, None, seq(writers, _ => Away), seq(readers, _ => Reader(Resting, None)), [])
  }

  predicate Legal(s: State, es: seq<Event>)
    decreases |es|
  {
    es == [] || (Enabled(s, es[0]) && Legal(Apply(s, es[0]), es[1..]))
  }

  function After(s: State, es: seq<Event>): State
    requires Legal(s, es)
    decreases |es|
  {
    if es == [] then s else After(Apply(s, es[0]), es[1..])
  }

  // ---------------------------------------------------------------------------
  // What every step keeps
  // ---------------------------------------------------------------------------

  function RowsFile(log: seq<Commit>): Option<seq<Row>> {
    if log == [] then None else Some(TableOf(log).rows)
  }

  function IdsFile(log: seq<Commit>): Option<seq<Id>> {
    if log == [] then None else Some(TableOf(log).ids)
  }

  /** The ids file runs one upsert ahead while a writer stands between its two writes. */
  predicate FilesOk(s: State) {
    && s.files.rows == RowsFile(s.log)
    && s.version == |s.log|
    && if s.lock.Some? && s.lock.value < |s.writers| && s.writers[s.lock.value].IdsWritten?
       then s.files.ids == Some(s.writers[s.lock.value].next.ids)
       else s.files.ids == IdsFile(s.log)
  }

  predicate WriterOk(s: State, w: Writer) {
    match w
    case ReadRows(_, rows) => rows == s.files.rows
    case Ready(c, next) => next == TableOf(s.log + [c])
    case IdsWritten(c, next) => next == TableOf(s.log + [c])
    case _ => true
  }

  predicate PhaseOk(log: seq<Commit>, p: Phase) {
    match p
    case Resting => true
    case Statted(version) => version <= |log|
    case HasRows(rows, version, at) => version <= at <= |log| && rows == TableOf(log[..at]).rows
  }

  predicate CacheOk(log: seq<Commit>, c: Cached) {
    && c.version <= c.at <= |log|
    && c.rows == TableOf(log[..c.at]).rows
    && TableOf(log[..c.at]).ids <= c.ids
  }

  predicate ReaderOk(log: seq<Commit>, r: Reader) {
    PhaseOk(log, r.phase) && (r.cache.Some? ==> CacheOk(log, r.cache.value))
  }

  predicate Inv(s: State) {
    && FilesOk(s)
    && (forall i :: 0 <= i < |s.writers| ==> WriterOk(s, s.writers[i]))
    && (forall i :: 0 <= i < |s.writers| ==> (InLock(s.writers[i]) <==> s.lock == Some(i)))
    && (forall i :: 0 <= i < |s.readers| ==> ReaderOk(s.log, s.readers[i]))
  }

  lemma PutIsNext(log: seq<Commit>, c: Commit)
    ensures TableOf(log + [c]) == Put(TableOf(log), c.id, c.row)
    ensures Loaded(Files(IdsFile(log), RowsFile(log))) == TableOf(log)
    ensures TableOf(log).ids <= TableOf(log + [c]).ids
  {
    assert (log + [c])[..|log|] == log;
  }

  lemma LoadIdsKeeps(s: State, i: nat)
    requires Inv(s) && i < |s.writers| && s.writers[i].ReadRows?
    ensures Inv(Apply(s, LoadIds(i)))
  {
    var w := s.writers[i];
    var t := Apply(s, LoadIds(i));
    assert InLock(w) && s.lock == Some(i);
    assert t.writers[i].next == TableOf(s.log + [w.c]) by {
      assert WriterOk(s, w);
      PutIsNext(s.log, w.c);
    }
    forall j | 0 <= j < |t.writers| ensures WriterOk(t, t.writers[j]) {
      if j != i {
        OthersAway(s, i, j);
      }
    }
    assert t.files == s.files;
    assert FilesOk(t);
  }

  /** Writers outside the lock carry nothing that depends on the files. */
  lemma OthersAway(s: State, i: nat, j: nat)
    requires Inv(s) && i < |s.writers| && j < |s.writers| && InLock(s.writers[i]) && i != j
    ensures s.lock == Some(i) && (s.writers[j].Away? || s.writers[j].Wants?)
  {
  }

  lemma WriteIdsKeeps(s: State, i: nat)
    requires Inv(s) && i < |s.writers| && s.writers[i].Ready?
    ensures Inv(Apply(s, WriteIds(i)))
  {
    var w := s.writers[i];
    var t := Apply(s, WriteIds(i));
    assert InLock(w) && s.lock == Some(i);
    assert w.next == TableOf(s.log + [w.c]) by { assert WriterOk(s, w); }
    forall j | 0 <= j < |t.writers| ensures WriterOk(t, t.writers[j]) {
      if j != i {
        OthersAway(s, i, j);
      }
    }
    assert t.files.rows == s.files.rows && t.files.ids == Some(t.writers[i].next.ids);
    assert FilesOk(t);
  }

  lemma WriteRowsKeeps(s: State, i: nat)
    requires Inv(s) && i < |s.writers| && s.writers[i].IdsWritten?
    ensures Inv(Apply(s, WriteRows(i)))
  {
    assert InLock(s.writers[i]) && WriterOk(s, s.writers[i]);
    var t := Apply(s, WriteRows(i));
    forall j | 0 <= j < |t.writers| ensures WriterOk(t, t.writers[j]) {
      assert InLock(s.writers[j]) ==> j == i;
    }
    forall j | 0 <= j < |t.readers| ensures ReaderOk(t.log, t.readers[j]) {
      assert ReaderOk(s.log, s.readers[j]);
      LongerLog(s.log, s.writers[i].c, s.readers[j]);
    }
  }

  lemma LongerLog(log: seq<Commit>, c: Commit, r: Reader)
    requires ReaderOk(log, r)
    ensures ReaderOk(log + [c], r)
  {
    assert forall k :: 0 <= k <= |log| ==> (log + [c])[..k] == log[..k];
  }

  /** Steps of a writer that touch neither file. */
  lemma QuietWriterKeeps(s: State, i: nat, w: Writer, lock: Option<nat>)
    requires Inv(s) && i < |s.writers| && WriterOk(s, w)
    requires !w.IdsWritten? && !s.writers[i].IdsWritten?
    requires if InLock(w) then (s.lock == None || s.lock == Some(i)) && lock == Some(i)
             else if s.lock == Some(i) then lock == None else lock == s.lock
    ensures Inv(SetWriter(s, i, w).(lock := lock))
  {
    var t := SetWriter(s, i, w).(lock := lock);
    forall j | 0 <= j < |t.writers| ensures WriterOk(t, t.writers[j]) {
      assert WriterOk(s, t.writers[j]);
    }
    if s.lock.Some? && s.lock.value < |s.writers| {
      assert InLock(s.writers[s.lock.value]);
    }
  }

  lemma CrashKeeps(s: State, i: nat)
    requires Inv(s) && i < |s.writers| && !TearsTable(s, s.writers[i])
    ensures Inv(Apply(s, Crash(i)))
  {
    if s.writers[i].IdsWritten? {
      HalfWrittenCrashKeeps(s, i);
    } else {
      QuietWriterKeeps(s, i, Away, if s.lock == Some(i) then None else s.lock);
    }
  }

  /** A crash between the two writes is harmless when the id is an old one: the ids file is
      the one that was there before. */
  lemma HalfWrittenCrashKeeps(s: State, i: nat)
    requires Inv(s) && i < |s.writers| && s.writers[i].IdsWritten? && !TearsTable(s, s.writers[i])
    ensures Inv(Apply(s, Crash(i)))
  {
    var w, t := s.writers[i], Apply(s, Crash(i));
    assert InLock(w) && s.lock == Some(i);
    assert FilesOk(t) by {
      assert WriterOk(s, w);
      PutIsNext(s.log, w.c);
      assert w.next.ids == TableOf(s.log).ids;
    }
    forall j | 0 <= j < |t.writers| ensures WriterOk(t, t.writers[j]) && (InLock(t.writers[j]) <==> t.lock == Some(j)) {
      if j != i {
        OthersAway(s, i, j);
      }
    }
  }

  lemma SetReaderKeeps(s: State, i: nat, r: Reader)
    requires Inv(s) && i < |s.readers| && ReaderOk(s.log, r)
    ensures Inv(SetReader(s, i, r))
  {
    var t := SetReader(s, i, r);
    forall j | 0 <= j < |t.writers| ensures WriterOk(t, t.writers[j]) {
      assert WriterOk(s, t.writers[j]);
    }
  }

  /** The ids file never lags behind the committed upserts. */
  lemma IdsAhead(s: State)
    requires Inv(s) && s.files.ids.Some?
    ensures TableOf(s.log).ids <= s.files.ids.value
  {
    if s.lock.Some? && s.lock.value < |s.writers| && s.writers[s.lock.value].IdsWritten? {
      assert WriterOk(s, s.writers[s.lock.value]);
      PutIsNext(s.log, s.writers[s.lock.value].c);
    }
  }

  lemma PrefixTrans<T>(a: seq<T>, b: seq<T>, c: seq<T>)
    requires a <= b <= c
    ensures a <= c
  {
  }

  lemma ReaderIdsKeeps(s: State, i: nat)
    requires Inv(s) && Enabled(s, ReaderIds(i))
    ensures Inv(Apply(s, ReaderIds(i)))
  {
    var r := s.readers[i];
    assert ReaderOk(s.log, r);
    var c := Cached(r.phase.rows, s.files.ids.value, r.phase.version, r.phase.at);
    assert CacheOk(s.log, c) by {
      IdsGrow(s.log, c.at);
      IdsAhead(s);
      PrefixTrans(TableOf(s.log[..c.at]).ids, TableOf(s.log).ids, c.ids);
    }
    SetReaderKeeps(s, i, Reader(Resting, Some(c)));
  }

  lemma StepKeeps(s: State, e: Event)
    requires Inv(s) && Enabled(s, e)
    ensures Inv(Apply(s, e))
  {
    match e
    case Encode(i, c) => QuietWriterKeeps(s, i, Wants(c), s.lock);
    case Acquire(i) => QuietWriterKeeps(s, i, Locked(s.writers[i].c), Some(i));
    case LoadRows(i) =>
      assert InLock(s.writers[i]);
      QuietWriterKeeps(s, i, ReadRows(s.writers[i].c, s.files.rows), Some(i));
    case LoadIds(i) => LoadIdsKeeps(s, i);
    case WriteIds(i) => WriteIdsKeeps(s, i);
    case WriteRows(i) => WriteRowsKeeps(s, i);
    case Release(i) =>
      assert InLock(s.writers[i]);
      QuietWriterKeeps(s, i, Away, None);
    case Crash(i) => CrashKeeps(s, i);
    case Stat(i) =>
      assert ReaderOk(s.log, s.readers[i]);
      SetReaderKeeps(s, i, s.readers[i].(phase := Statted(s.version)));
    case ReaderRows(i) =>
      assert ReaderOk(s.log, s.readers[i]);
      assert s.log[..|s.log|] == s.log;
      SetReaderKeeps(s, i, s.readers[i].(phase := HasRows(s.files.rows.value, s.readers[i].phase.version, |s.log|)));
    case ReaderIds(i) => ReaderIdsKeeps(s, i);
  }

  lemma {:induction false} RunKeeps(s: State, es: seq<Event>)
    requires Inv(s) && Legal(s, es)
    ensures Inv(After(s, es))
    decreases |es|
  {
    if es != [] {
      StepKeeps(s, es[0]);
      RunKeeps(Apply(s, es[0]), es[1..]);
    }
  }

  // ---------------------------------------------------------------------------
  // Safety of every interleaving that does not tear the table
  // ---------------------------------------------------------------------------

  /** No lost update: whenever nobody holds the lock, the two files are a table with one
      row for each id ever committed, the last row committed for it. */
  lemma NoLostUpdate(writers: nat, readers: nat, es: seq<Event>)
    requires Legal(Start(writers, readers), es)
    requires After(Start(writers, readers), es).lock == None
    ensures var s := After(Start(writers, readers), es);
            && Holds(Loaded(s.files), s.log)
            && (s.files.ids.Some? <==> s.files.rows.Some?)
  {
    RunKeeps(Start(writers, readers), es);
    var s := After(Start(writers, readers), es);
    TableHolds(s.log);
    PutIsNext(s.log, Commit("", []));
  }

  /** Every reader pairs each of its rows with the id the row was committed for, whatever
      writes fell between its two reads, and when its cache passes the mtime test the
      rows are the ones on disk. */
  lemma ReadersPairCorrectly(writers: nat, readers: nat, es: seq<Event>, r: nat)
    requires Legal(Start(writers, readers), es)
    requires r < |After(Start(writers, readers), es).readers|
    requires After(Start(writers, readers), es).readers[r].cache.Some?
    ensures var s := After(Start(writers, readers), es);
            var c := s.readers[r].cache.value;
            && c.at <= |s.log| && |c.rows| <= |c.ids|
            && (forall i :: 0 <= i < |c.rows| ==> LastRow(s.log[..c.at], c.ids[i]) == Some(c.rows[i]))
            && (forall i, j :: 0 <= i < j < |c.rows| ==> c.ids[i] != c.ids[j])
            && (c.version >= s.version && s.files.rows.Some? ==> c.rows == s.files.rows.value)
  {
    RunKeeps(Start(writers, readers), es);
    var s := After(Start(writers, readers), es);
    assert ReaderOk(s.log, s.readers[r]);
    var c := s.readers[r].cache.value;
    TableHolds(s.log[..c.at]);
    assert s.log[..|s.log|] == s.log;
  }

  // ---------------------------------------------------------------------------
  // What an undisturbed reader and writer achieve
  // ---------------------------------------------------------------------------

  /** The first look of a reader: with both files there it goes on to read them unless its
      cache is as new as they are, and such a cache has the rows that are on disk. */
  lemma StatIsFresh(writers: nat, readers: nat, es: seq<Event>, r: nat)
    requires Legal(Start(writers, readers), es) && Enabled(After(Start(writers, readers), es), Stat(r))
    ensures var s := After(Start(writers, readers), es);
            var t := Apply(s, Stat(r));
            var kept := s.readers[r].cache;
            if s.files.ids.None? || s.files.rows.None? then t == s
            else if kept.Some? && kept.value.version >= s.version
            then t == s && kept.value.rows == s.files.rows.value
            else t == s.(readers := s.readers[r := Reader(Statted(s.version), kept)])
  {
    var s := After(Start(writers, readers), es);
    if s.readers[r].cache.Some? {
      ReadersPairCorrectly(writers, readers, es, r);
    }
  }

  /** One step in front of a run. */
  lemma Then(s: State, e: Event, es: seq<Event>)
    requires Enabled(s, e) && Legal(Apply(s, e), es)
    ensures Legal(s, [e] + es) && After(s, [e] + es) == After(Apply(s, e), es)
  {
    assert ([e] + es)[1..] == es;
  }

  /** A reader that goes on undisturbed keeps the two files and their version. */
  lemma UndisturbedRead(s: State, r: nat)
    requires r < |s.readers| && s.readers[r].phase.Statted?
    requires s.files.ids.Some? && s.files.rows.Some?
    ensures var es := [ReaderRows(r), ReaderIds(r)];
            var kept := Cached(s.files.rows.value, s.files.ids.value, s.readers[r].phase.version, |s.log|);
            && Legal(s, es)
            && After(s, es) == s.(readers := s.readers[r := Reader(Resting, Some(kept))])
  {
    var t := Apply(s, ReaderRows(r));
    Then(t, ReaderIds(r), []);
    Then(s, ReaderRows(r), [ReaderIds(r)]);
    assert [ReaderIds(r)] == [ReaderIds(r)] + [];
    assert [ReaderRows(r), ReaderIds(r)] == [ReaderRows(r)] + [ReaderIds(r)];
    var kept := Cached(s.files.rows.value, s.files.ids.value, s.readers[r].phase.version, |s.log|);
    assert Apply(t, ReaderIds(r)).readers == s.readers[r := Reader(Resting, Some(kept))];
  }

  /** The row that the two files hold for an id. */
  function RowOn(f: Files, id: Id): Option<Row> {
    var t := Loaded(f);
    if id in t.ids then Some(t.rows[FirstIndex(t.ids, id)]) else None
  }

  lemma {:induction false} LastRowOf(log: seq<Commit>, id: Id)
    ensures LastRow(log, id).Some? <==> exists k :: 0 <= k < |log| && log[k].id == id
  {
    if log != [] {
      LastRowOf(log[..|log| - 1], id);
      if LastRow(log, id).Some? && log[|log| - 1].id != id {
        var k :| 0 <= k < |log| - 1 && log[..|log| - 1][k].id == id;
        assert log[k].id == id;
      }
    }
  }

  /** With whole files the row on disk is the last one committed for the id, if there is one. */
  lemma RowsOnDisk(log: seq<Commit>, id: Id)
    ensures RowOn(Files(IdsFile(log), RowsFile(log)), id) == LastRow(log, id)
  {
    TableHolds(log);
    PutIsNext(log, Commit(id, []));
    LastRowOf(log, id);
    var t := TableOf(log);
    if LastRow(log, id).Some? {
      var k :| 0 <= k < |log| && log[k].id == id;
      assert id in t.ids;
    }
    if id in t.ids {
      assert LastRow(log, t.ids[FirstIndex(t.ids, id)]) == Some(t.rows[FirstIndex(t.ids, id)]);
    }
  }

  lemma {:induction false} AfterConcat(s: State, a: seq<Event>, b: seq<Event>)
    requires Legal(s, a) && Legal(After(s, a), b)
    ensures Legal(s, a + b) && After(s, a + b) == After(After(s, a), b)
    decreases |a|
  {
    if a == [] {
      assert a + b == b;
    } else {
      AfterConcat(Apply(s, a[0]), a[1..], b);
      assert (a + b)[1..] == a[1..] + b;
    }
  }

  /** The steps of an upsert from the lock on. */
  function Reads(w: nat): seq<Event> { [Acquire(w), LoadRows(w), LoadIds(w)] }

  function Writes(w: nat): seq<Event> { [WriteIds(w), WriteRows(w), Release(w)] }

  lemma ThreeSteps(s: State, a: Event, b: Event, c: Event)
    requires Enabled(s, a) && Enabled(Apply(s, a), b) && Enabled(Apply(Apply(s, a), b), c)
    ensures Legal(s, [a, b, c]) && After(s, [a, b, c]) == Apply(Apply(Apply(s, a), b), c)
  {
    var t := Apply(s, a);
    var u := Apply(t, b);
    Then(u, c, []);
    Then(t, b, [c]);
    Then(s, a, [b, c]);
    assert [c] + [] == [c] && [b] + [c] == [b, c] && [a] + [b, c] == [a, b, c];
  }

  lemma ReadsAlone(s: State, w: nat)
    requires w < |s.writers| && s.writers[w].Wants? && s.lock.None?
    ensures var c := s.writers[w].c;
            && Legal(s, Reads(w))
            && After(s, Reads(w))
               == s.(lock := Some(w), writers := s.writers[w := Ready(c, Put(Loaded(s.files), c.id, c.row))])
  {
    ThreeSteps(s, Acquire(w), LoadRows(w), LoadIds(w));
    var c := s.writers[w].c;
    var t := After(s, Reads(w));
    assert s.files == Files(s.files.ids, s.files.rows);
    assert t.writers == s.writers[w := Ready(c, Put(Loaded(s.files), c.id, c.row))];
  }

  lemma WritesAlone(s: State, w: nat)
    requires w < |s.writers| && s.writers[w].Ready?
    ensures var c, next := s.writers[w].c, s.writers[w].next;
            && Legal(s, Writes(w))
            && After(s, Writes(w))
               == State(Files(Some(next.ids), Some(next.rows)), s.version + 1, None,
                        s.writers[w := Away], s.readers, s.log + [c])
  {
    ThreeSteps(s, WriteIds(w), WriteRows(w), Release(w));
    assert After(s, Writes(w)).writers == s.writers[w := Away];
  }

  function WholeUpsert(w: nat, c: Commit): seq<Event> { [Encode(w, c)] + (Reads(w) + Writes(w)) }

  /** A writer that nobody disturbs commits its row: both files are those of the table that was
      there with the row put in, and the file of the rows is newer. */
  lemma UndisturbedUpsert(s: State, w: nat, c: Commit)
    requires w < |s.writers| && s.writers[w].Away? && s.lock.None?
    ensures Legal(s, WholeUpsert(w, c))
    ensures var next := Put(Loaded(s.files), c.id, c.row);
            After(s, WholeUpsert(w, c)) ==
            s.(files := Files(Some(next.ids), Some(next.rows)), version := s.version + 1, log := s.log + [c])
  {
    var s1 := Apply(s, Encode(w, c));
    ReadsAlone(s1, w);
    var t := After(s1, Reads(w));
    WritesAlone(t, w);
    AfterConcat(s1, Reads(w), Writes(w));
    Then(s, Encode(w, c), Reads(w) + Writes(w));
    assert t.writers[w := Away] == s.writers;
  }

  /** A writer that dies before it writes leaves the lock free and both files as they were, so the
      next one commits its row into the same table. */
  lemma CrashIsHarmless(s: State, holder: nat, w: nat, c: Commit)
    requires Inv(s) && s.lock == Some(holder) && holder < |s.writers| && !s.writers[holder].IdsWritten?
    requires w < |s.writers| && s.writers[w].Away?
    ensures Legal(s, [Crash(holder)] + WholeUpsert(w, c))
    ensures var next := Put(Loaded(s.files), c.id, c.row);
            After(s, [Crash(holder)] + WholeUpsert(w, c)) ==
            s.(files := Files(Some(next.ids), Some(next.rows)), version := s.version + 1, log := s.log + [c],
               lock := None, writers := s.writers[holder := Away])
  {
    var t := Apply(s, Crash(holder));
    UndisturbedUpsert(t, w, c);
    Then(s, Crash(holder), WholeUpsert(w, c));
  }

  /** After any history that leaves the lock free, such an upsert makes its row the one on disk for
      its id and leaves the row of every other id as it was. */
  lemma UpsertIsSeen(writers: nat, readers: nat, es: seq<Event>, w: nat, c: Commit, id: Id)
    requires Legal(Start(writers, readers), es)
    requires var s := After(Start(writers, readers), es);
             w < |s.writers| && s.writers[w].Away? && s.lock.None?
    ensures var s := After(Start(writers, readers), es);
            && Legal(s, WholeUpsert(w, c))
            && RowOn(After(s, WholeUpsert(w, c)).files, id) == if id == c.id then Some(c.row) else RowOn(s.files, id)
  {
    RunKeeps(Start(writers, readers), es);
    var s := After(Start(writers, readers), es);
    UndisturbedUpsert(s, w, c);
    PutIsNext(s.log, c);
    RowsOnDisk(s.log, id);
    RowsOnDisk(s.log + [c], id);
    assert (s.log + [c])[..|s.log|] == s.log;
    assert s.files == Files(IdsFile(s.log), RowsFile(s.log));
    var next := TableOf(s.log + [c]);
    assert Files(Some(next.ids), Some(next.rows)) == Files(IdsFile(s.log + [c]), RowsFile(s.log + [c]));
  }

  // ---------------------------------------------------------------------------
  // The crash that was left out
  // ---------------------------------------------------------------------------

  /** A writer that dies between its two writes costs nothing if its id already had a row;
      otherwise the next upsert starts over with its own row alone, and a reader that took
      the old rows before it pairs the first of them with a foreign id. */
  lemma CrashBetweenWrites(t: Table, c: Commit, d: Commit)
    requires Aligned(t)
    ensures var torn := Files(Some(Put(t, c.id, c.row).ids), Some(t.rows));
            var next := Put(Loaded(torn), d.id, d.row);
            && (c.id in t.ids ==> next == Put(t, d.id, d.row))
            && (c.id !in t.ids ==> next == Table([d.id], [d.row]))
            && (c.id !in t.ids && t.ids != [] && d.id != t.ids[0] ==> !(t.ids <= next.ids))
  {
  }
}
