/** Concurrent runs of the incremental miner on one session: `run`, `_read_delta` and the
    offset and empty-streak files of memem/mine_delta.py. */
module MiningRun {
  import opened Wrappers

  // ---------------------------------------------------------------------------
  // Empty-streak backoff
  // ---------------------------------------------------------------------------

  const STREAK_THRESHOLD := 3
  const STREAK_SKIP := 5

  /** The content of the empty-streak file. */
  datatype Streak = Streak(count: nat, skip: nat)

  const RESET := Streak(0, 0)

  predicate BacksOff(s: Streak) { s.count >= STREAK_THRESHOLD && s.skip > 0 }

  /** One invocation that holds the lock; `found` says whether extraction, if it is
      called at all, returns any memory. */
  function Tick(s: Streak, found: bool): Streak {
    if BacksOff(s) then Streak(s.count, s.skip - 1)
    else if found then RESET
    else Streak(s.count + 1, if s.count + 1 >= STREAK_THRESHOLD then STREAK_SKIP else 0)
  }

  function Ticks(s: Streak, ys: seq<bool>): Streak {
    if ys == [] then s else Tick(Ticks(s, ys[..|ys| - 1]), ys[|ys| - 1])
  }

  predicate Sane(s: Streak) {
    s.skip <= STREAK_SKIP && (s.skip > 0 ==> s.count >= STREAK_THRESHOLD)
  }

  lemma {:induction false} TicksSane(ys: seq<bool>)
    ensures Sane(Ticks(RESET, ys))
  {
    if ys != [] {
      TicksSane(ys[..|ys| - 1]);
    }
  }

  /** Extraction is skipped at most five times in a row: if the five invocations from
      position i on skip it, the next one does not. */
  lemma AtMostFiveSkips(ys: seq<bool>, i: nat)
    requires i + 5 <= |ys|
    requires forall k :: i <= k < i + 5 ==> BacksOff(Ticks(RESET, ys[..k]))
    ensures !BacksOff(Ticks(RESET, ys[..i + 5]))
  {
    TicksSane(ys[..i]);
    SkipsLeft(ys, i, i + 1);
    SkipsLeft(ys, i, i + 2);
    SkipsLeft(ys, i, i + 3);
    SkipsLeft(ys, i, i + 4);
    SkipsLeft(ys, i, i + 5);
  }

  lemma {:induction false} SkipsLeft(ys: seq<bool>, i: nat, k: nat)
    requires i <= k <= |ys|
    requires forall j :: i <= j < k ==> BacksOff(Ticks(RESET, ys[..j]))
    ensures Ticks(RESET, ys[..k]).skip == Ticks(RESET, ys[..i]).skip - (k - i)
    decreases k
  {
    if i < k {
      SkipsLeft(ys, i, k - 1);
      assert ys[..k][..k - 1] == ys[..k - 1];
    }
  }

  /** The k-th invocation calls the extractor. */
  predicate Extracts(ys: seq<bool>, k: nat)
    requires k <= |ys|
  {
    !BacksOff(Ticks(RESET, ys[..k]))
  }

  /** Invocation k extracted, and neither it nor a later one that extracted found a memory. */
  predicate EmptySince(ys: seq<bool>, k: nat)
    requires k < |ys|
  {
    Extracts(ys, k) && forall j :: k <= j < |ys| && Extracts(ys, j) ==> !ys[j]
  }

  /** Invocation k was skipped, and so were all later ones. */
  predicate SkippedSince(ys: seq<bool>, k: nat)
    requires k < |ys|
  {
    forall j :: k <= j < |ys| ==> !Extracts(ys, j)
  }

  function EmptyRuns(ys: seq<bool>): set<nat> { set k: nat | k < |ys| && EmptySince(ys, k) }

  function SkippedRuns(ys: seq<bool>): set<nat> { set k: nat | k < |ys| && SkippedSince(ys, k) }

  lemma ExtractsInFront(ys: seq<bool>, k: nat)
    requires ys != [] && k < |ys|
    ensures Extracts(ys[..|ys| - 1], k) == Extracts(ys, k)
  {
    assert ys[..|ys| - 1][..k] == ys[..k];
  }

  lemma EmptyRunsSnoc(ys: seq<bool>)
    requires ys != []
    ensures var n := |ys| - 1;
            EmptyRuns(ys) == if !Extracts(ys, n) then EmptyRuns(ys[..n])
                             else if ys[n] then {} else EmptyRuns(ys[..n]) + {n}
  {
    var n := |ys| - 1;
    forall k: nat | k < n ensures Extracts(ys[..n], k) == Extracts(ys, k) {
      ExtractsInFront(ys, k);
    }
    forall k: nat | k < n
      ensures EmptySince(ys, k) <==> EmptySince(ys[..n], k) && (Extracts(ys, n) ==> !ys[n])
    {
      if EmptySince(ys[..n], k) {
        assert forall j :: k <= j < n ==> ys[..n][j] == ys[j];
      }
    }
  }

  lemma SkippedRunsSnoc(ys: seq<bool>)
    requires ys != []
    ensures var n := |ys| - 1;
            SkippedRuns(ys) == if Extracts(ys, n) then {} else SkippedRuns(ys[..n]) + {n}
  {
    var n := |ys| - 1;
    forall k: nat | k < n ensures Extracts(ys[..n], k) == Extracts(ys, k) {
      ExtractsInFront(ys, k);
    }
  }

  /** What the two numbers mean: the first counts the extractions since the last productive one,
      all of them empty; from three on the second is five less the invocations skipped since the
      last extraction, and before that it is zero. So an invocation is skipped exactly when at least
      three extractions in a row were empty and fewer than five invocations were skipped since. */
  lemma {:induction false} StreakMeans(ys: seq<bool>)
    ensures var s := Ticks(RESET, ys);
            && s.count == |EmptyRuns(ys)|
            && s.skip == (if |EmptyRuns(ys)| >= 3 then 5 - |SkippedRuns(ys)| else 0)
            && (Extracts(ys, |ys|) <==> |EmptyRuns(ys)| < 3 || |SkippedRuns(ys)| == 5)
    ensures |EmptyRuns(ys)| < 3 ==> |SkippedRuns(ys)| == 0
  {
    assert ys[..|ys|] == ys;
    if ys != [] {
      var n := |ys| - 1;
      StreakMeans(ys[..n]);
      EmptyRunsSnoc(ys);
      SkippedRunsSnoc(ys);
      assert ys[..n][..n] == ys[..n];
      assert n !in EmptyRuns(ys[..n]) && n !in SkippedRuns(ys[..n]);
    } else {
      assert EmptyRuns(ys) == {} && SkippedRuns(ys) == {};
    }
  }

  /** A productive extraction resets both numbers. */
  lemma ProductiveResets(ys: seq<bool>)
    requires !BacksOff(Ticks(RESET, ys))
    ensures Ticks(RESET, ys + [true]) == Streak(0, 0)
  {
    var more := ys + [true];
    assert more[..|ys|] == ys;
    StreakMeans(more);
    EmptyRunsSnoc(more);
  }

  /** The two files of a session, as the holder of its lock sees them. */
  class SessionFiles {
    var offset: nat
    var streak: Streak

    /** The part of a run that needs the lock. `found` is what extraction would return. */
    method MineLocked(eof: nat, found: bool) returns (extracted: bool)
      modifies this
      ensures extracted == !(old(streak).count >= 3 && old(streak).skip > 0)
      ensures streak == Tick(old(streak), found) && offset == eof
      ensures extracted && found ==> streak == Streak(0, 0)
    {
      var count, skip := streak.count, streak.skip;
      if count >= STREAK_THRESHOLD && skip > 0 {
        streak := Streak(count, skip - 1);
        offset := eof;
        return false;
      }
      if !found {
        var next := count + 1;
        streak := Streak(next, if next >= STREAK_THRESHOLD then STREAK_SKIP else 0);
      } else {
        streak := RESET;
      }
      offset := eof;
      extracted := true;
    }
  }

  /** Invocations that never find a memory. */
  function Barren(n: nat): seq<bool> { seq(n, _ => false) }

  /** How many of the first n barren invocations call the extractor. */
  function Extractions(n: nat): nat {
    if n == 0 then 0
    else Extractions(n - 1) + (if BacksOff(Ticks(RESET, Barren(n - 1))) then 0 else 1)
  }

  /** After three calls in a row, a session that found nothing costs one call in six. */
  lemma {:induction false} BarrenCost(n: nat)
    requires n >= 3
    ensures Extractions(n) == 3 + (n - 3) / 6
    ensures Ticks(RESET, Barren(n)) == Streak(3 + (n - 3) / 6, 5 - (n - 3) % 6)
  {
    assert Barren(n)[..n - 1] == Barren(n - 1);
    if n == 3 {
      assert Barren(1)[..0] == Barren(0) == [];
      assert Barren(2)[..1] == Barren(1);
      assert Ticks(RESET, Barren(1)) == Streak(1, 0);
      assert Ticks(RESET, Barren(2)) == Streak(2, 0);
      assert Extractions(1) == 1 && Extractions(2) == 2;
    } else {
      BarrenCost(n - 1);
    }
  }

  // ---------------------------------------------------------------------------
  // The processes
  // ---------------------------------------------------------------------------

  /** Bytes lo up to hi of the transcript. */
  datatype Delta = Delta(lo: nat, hi: nat)

  datatype How = Mined | Trivial | NoTurns | BackedOff

  datatype Finished = Finished(delta: Delta, how: How)

  /** Where a process stands. From Holding on it owns the session lock. */
  datatype Proc =
    | Idle
    | KnowsOffset(lo: nat)
    | HasDelta(delta: Delta)
    | Holding(delta: Delta)
    | SawStreak(delta: Delta, seen: Streak)
    | Reconciling(delta: Delta)
    | Advancing(delta: Delta, how: How)
    | Releasing

  predicate InLock(p: Proc) {
    p.Holding? || p.SawStreak? || p.Reconciling? || p.Advancing? || p.Releasing?
  }

  /** `finished` and `ticks` are the history of the session: the deltas whose end was
      written to the offset file, and the lock-holding invocations. */
  datatype State = State(
    length: nat,
    offset: nat,
    lock: Option<nat>,
    streak: Streak,
    procs: seq<Proc>,
    finished: seq<Finished>,
    ticks: seq<bool>)

  datatype Event =
    | Append(bytes: nat)
    | ReadOffset(pid: nat)
    | ReadDelta(pid: nat, eof: nat)
    | SkipUnlocked(pid: nat, how: How)
    | TryLock(pid: nat)
    | ReadStreak(pid: nat)
    | BackOff(pid: nat)
    | Extract(pid: nat, found: bool)
    | FinishMining(pid: nat)
    | WriteOffset(pid: nat)
    | Release(pid: nat)
    | Crash(pid: nat)

  predicate Enabled(s: State, e: Event) {
    if e.Append? then true
    else
      && e.pid < |s.procs|
      && var p := s.procs[e.pid];
         match e
         case ReadOffset(_) => p.Idle?
         case ReadDelta(_, eof) => p.KnowsOffset? && p.lo <= eof <= s.length
         case SkipUnlocked(_, how) => p.HasDelta? && (how == Trivial || how == NoTurns)
         case TryLock(_) => p.HasDelta?
         case ReadStreak(_) => p.Holding?
         case BackOff(_) => p.SawStreak? && BacksOff(p.seen)
         case Extract(_, _) => p.SawStreak? && !BacksOff(p.seen)
         case FinishMining(_) => p.Reconciling?
         case WriteOffset(_) => p.Advancing?
         case Release(_) => p.Releasing?
         case Crash(_) => true
  }

  function SetProc(s: State, pid: nat, p: Proc): State
    requires pid < |s.procs|
  {
    s.(procs := s.procs[pid := p])
  }

  /** The offset file takes the end of the delta, whatever it held before. */
  function Record(s: State, d: Delta, how: How): State {
    s.(offset := d.hi, finished := s.finished + [Finished(d, how)])
  }

  function Unlock(s: State, pid: nat): State {
    if s.lock == Some(pid) then s.(lock := None) else s
  }

  function Apply(s: State, e: Event): State
    requires Enabled(s, e)
  {
    match e
    case Append(bytes) => s.(length := s.length + bytes)
    case ReadOffset(pid) => SetProc(s, pid, KnowsOffset(s.offset))
    case ReadDelta(pid, eof) => SetProc(s, pid, HasDelta(Delta(s.procs[pid].lo, eof)))
    case SkipUnlocked(pid, how) => Record(SetProc(s, pid, Idle), s.procs[pid].delta, how)
    case TryLock(pid) =>
      if s.lock.None? then SetProc(s, pid, Holding(s.procs[pid].delta)).(lock := Some(pid))
      else SetProc(s, pid, Idle)
    case ReadStreak(pid) => SetProc(s, pid, SawStreak(s.procs[pid].delta, s.streak))
    case BackOff(pid) =>
      SetProc(s, pid, Advancing(s.procs[pid].delta, BackedOff))
      .(streak := Streak(s.procs[pid].seen.count, s.procs[pid].seen.skip - 1), ticks := s.ticks + [false])
    case Extract(pid, found) =>
      SetProc(s, pid, Reconciling(s.procs[pid].delta))
      .(streak := Tick(s.procs[pid].seen, found), ticks := s.ticks + [found])
    case FinishMining(pid) => SetProc(s, pid, Advancing(s.procs[pid].delta, Mined))
    case WriteOffset(pid) =>
      Record(SetProc(s, pid, Releasing), s.procs[pid].delta, s.procs[pid].how)
    case Release(pid) => Unlock(SetProc(s, pid, Idle), pid)
    case Crash(pid) => Unlock(SetProc(s, pid, Idle), pid)
  }

  function Start(length: nat, processes: nat): State {
    State(length, 0, None, RESET, seq(processes, _ => Idle), [], [])
  }

  predicate Legal(s: State, es: seq<Event>)
    decreases |es|
  {
    es == [] || (Enabled(s, es[0]) && Legal(Apply(s, es[0]), es[1..]))
  }

  function After(s: State, es: seq<Event>): State
    requires Legal(s, es)
    decreases |es|
  {
    if es == [] then s else After(Apply(s, es[0]), es[1..])
  }

  // ---------------------------------------------------------------------------
  // What every step keeps
  // ---------------------------------------------------------------------------

  predicate CoveredByte(fs: seq<Finished>, b: nat) {
    exists i :: 0 <= i < |fs| && fs[i].delta.lo <= b < fs[i].delta.hi
  }

  ghost predicate Covered(fs: seq<Finished>, n: nat) {
    forall b: nat :: b < n ==> CoveredByte(fs, b)
  }

  ghost predicate ProcOk(s: State, p: Proc) {
    match p
    case Idle => true
    case KnowsOffset(lo) => lo <= s.length && Covered(s.finished, lo)
    case Releasing => true
    case SawStreak(d, seen) => seen == s.streak && d.lo <= d.hi <= s.length && Covered(s.finished, d.lo)
    case _ => p.delta.lo <= p.delta.hi <= s.length && Covered(s.finished, p.delta.lo)
  }

  ghost predicate Inv(s: State) {
    && s.offset <= s.length
    && Covered(s.finished, s.offset)
    && (forall pid :: 0 <= pid < |s.procs| ==> ProcOk(s, s.procs[pid]))
    && (forall pid :: 0 <= pid < |s.procs| ==> (InLock(s.procs[pid]) <==> s.lock == Some(pid)))
    && s.streak == Ticks(RESET, s.ticks)
  }

  lemma CoverMore(fs: seq<Finished>, f: Finished, n: nat)
    requires Covered(fs, n)
    ensures Covered(fs + [f], n)
    ensures f.delta.lo <= n ==> Covered(fs + [f], f.delta.hi)
  {
    var gs := fs + [f];
    forall b: nat | b < n ensures CoveredByte(gs, b) {
      assert CoveredByte(fs, b);
      var i :| 0 <= i < |fs| && fs[i].delta.lo <= b < fs[i].delta.hi;
      assert gs[i] == fs[i];
    }
    if f.delta.lo <= n {
      forall b: nat | b < f.delta.hi ensures CoveredByte(gs, b) {
        if f.delta.lo <= b {
          assert gs[|fs|] == f;
        }
      }
    }
  }

  lemma RecordKeeps(s: State, pid: nat, p: Proc, how: How)
    requires Inv(s) && pid < |s.procs| && ProcOk(s, s.procs[pid])
    requires s.procs[pid].HasDelta? || s.procs[pid].Advancing?
    requires p == if s.procs[pid].HasDelta? then Idle else Releasing
    ensures Inv(Record(SetProc(s, pid, p), s.procs[pid].delta, how))
  {
    var d := s.procs[pid].delta;
    var f := Finished(d, how);
    var t := Record(SetProc(s, pid, p), d, how);
    CoverMore(s.finished, f, d.lo);
    forall q | 0 <= q < |t.procs| ensures ProcOk(t, t.procs[q]) {
      if q != pid {
        match s.procs[q]
        case Idle =>
        case Releasing =>
        case KnowsOffset(lo) => CoverMore(s.finished, f, lo);
        case _ => CoverMore(s.finished, f, s.procs[q].delta.lo);
      }
    }
  }

  /** A process moves on without touching anything the others rely on. */
  lemma MoveKeeps(s: State, pid: nat, p: Proc)
    requires Inv(s) && pid < |s.procs| && ProcOk(s, p)
    requires InLock(p) == InLock(s.procs[pid])
    ensures Inv(SetProc(s, pid, p))
  {
    var t := SetProc(s, pid, p);
    forall q | 0 <= q < |t.procs| ensures ProcOk(t, t.procs[q]) {
      assert ProcOk(s, t.procs[q]);
    }
  }

  /** The lock holder writes the streak file: nobody else remembers the old one. */
  lemma StreakKeeps(s: State, pid: nat, p: Proc, found: bool)
    requires Inv(s) && pid < |s.procs| && s.procs[pid].SawStreak?
    requires p == Reconciling(s.procs[pid].delta) || p == Advancing(s.procs[pid].delta, BackedOff)
    ensures Inv(SetProc(s, pid, p).(streak := Tick(s.streak, found), ticks := s.ticks + [found]))
  {
    var t := SetProc(s, pid, p).(streak := Tick(s.streak, found), ticks := s.ticks + [found]);
    assert t.ticks[..|s.ticks|] == s.ticks;
    assert ProcOk(s, s.procs[pid]) && InLock(s.procs[pid]);
    forall q | 0 <= q < |t.procs| ensures ProcOk(t, t.procs[q]) {
      assert ProcOk(s, s.procs[q]);
      if q != pid {
        assert !InLock(s.procs[q]);
      }
    }
  }

  lemma LockKeeps(s: State, pid: nat, p: Proc, lock: Option<nat>)
    requires Inv(s) && pid < |s.procs| && ProcOk(s, p)
    requires if InLock(p) then s.lock == None && lock == Some(pid)
             else lock == (if s.lock == Some(pid) then None else s.lock)
    ensures Inv(SetProc(s, pid, p).(lock := lock))
  {
    var t := SetProc(s, pid, p).(lock := lock);
    forall q | 0 <= q < |t.procs| ensures ProcOk(t, t.procs[q]) {
      assert ProcOk(s, t.procs[q]);
    }
  }

  lemma AppendKeeps(s: State, bytes: nat)
    requires Inv(s)
    ensures Inv(s.(length := s.length + bytes))
  {
    var t := s.(length := s.length + bytes);
    forall q | 0 <= q < |t.procs| ensures ProcOk(t, t.procs[q]) {
      assert ProcOk(s, t.procs[q]);
    }
  }

  lemma StepKeeps(s: State, e: Event)
    requires Inv(s) && Enabled(s, e)
    ensures Inv(Apply(s, e))
  {
    if e.Append? {
      AppendKeeps(s, e.bytes);
    } else {
      assert ProcOk(s, s.procs[e.pid]);
      match e
      case ReadOffset(pid) => MoveKeeps(s, pid, KnowsOffset(s.offset));
      case ReadDelta(pid, eof) => MoveKeeps(s, pid, HasDelta(Delta(s.procs[pid].lo, eof)));
      case SkipUnlocked(pid, how) => RecordKeeps(s, pid, Idle, how);
      case TryLock(pid) =>
        if s.lock.None? {
          LockKeeps(s, pid, Holding(s.procs[pid].delta), Some(pid));
        } else {
          MoveKeeps(s, pid, Idle);
        }
      case ReadStreak(pid) => MoveKeeps(s, pid, SawStreak(s.procs[pid].delta, s.streak));
      case BackOff(pid) => StreakKeeps(s, pid, Advancing(s.procs[pid].delta, BackedOff), false);
      case Extract(pid, found) => StreakKeeps(s, pid, Reconciling(s.procs[pid].delta), found);
      case FinishMining(pid) => MoveKeeps(s, pid, Advancing(s.procs[pid].delta, Mined));
      case WriteOffset(pid) => RecordKeeps(s, pid, Releasing, s.procs[pid].how);
      case Release(pid) => LockKeeps(s, pid, Idle, Unlock(s, pid).lock);
      case Crash(pid) => LockKeeps(s, pid, Idle, Unlock(s, pid).lock);
    }
  }

  lemma {:induction false} RunKeeps(s: State, es: seq<Event>)
    requires Inv(s) && Legal(s, es)
    ensures Inv(After(s, es))
    decreases |es|
  {
    if es != [] {
      StepKeeps(s, es[0]);
      RunKeeps(Apply(s, es[0]), es[1..]);
    }
  }

  // ---------------------------------------------------------------------------
  // Safety of every interleaving
  // ---------------------------------------------------------------------------

  /** In every interleaving, with crashes anywhere, each byte below the stored offset was
      in a delta that some run read and finished with, the offset stays inside the
      transcript, at most one process is past the lock, and the streak file is what the
      lock-holding invocations made it, one after the other. */
  lemma NothingSkipped(length: nat, processes: nat, es: seq<Event>)
    requires Legal(Start(length, processes), es)
    ensures var s := After(Start(length, processes), es);
            && s.offset <= s.length
            && (forall b: nat :: b < s.offset ==> CoveredByte(s.finished, b))
            && (forall p, q :: 0 <= p < q < |s.procs| ==> !(InLock(s.procs[p]) && InLock(s.procs[q])))
            && s.streak == Ticks(RESET, s.ticks) && Sane(s.streak)
  {
    RunKeeps(Start(length, processes), es);
    TicksSane(After(Start(length, processes), es).ticks);
  }

  /** The offset is read before the lock is taken, so it can move back: a slow reader of
      an old delta overwrites the end a faster process stored. */
  lemma OffsetCanMoveBack() returns (before: seq<Event>, last: Event)
    ensures Legal(Start(10, 2), before + [last])
    ensures Legal(Start(10, 2), before)
    ensures After(Start(10, 2), before + [last]).offset < After(Start(10, 2), before).offset
  {
    var s0 := Start(10, 2);
    before := [ReadOffset(0), ReadDelta(0, 10), Append(10), ReadOffset(1), ReadDelta(1, 20), SkipUnlocked(1, Trivial)];
    last := SkipUnlocked(0, Trivial);
    var s1 := Apply(s0, before[0]);
    var s2 := Apply(s1, before[1]);
    var s3 := Apply(s2, before[2]);
    var s4 := Apply(s3, before[3]);
    var s5 := Apply(s4, before[4]);
    var s6 := Apply(s5, before[5]);
    assert Legal(s6, []);
    assert Legal(s5, before[5..]) && After(s5, before[5..]) == s6;
    assert Legal(s4, before[4..]) && After(s4, before[4..]) == s6;
    assert Legal(s3, before[3..]) && After(s3, before[3..]) == s6;
    assert Legal(s2, before[2..]) && After(s2, before[2..]) == s6;
    assert Legal(s1, before[1..]) && After(s1, before[1..]) == s6;
    AfterSnoc(s0, before, last);
  }

  lemma {:induction false} AfterSnoc(s: State, es: seq<Event>, e: Event)
    requires Legal(s, es) && Enabled(After(s, es), e)
    ensures Legal(s, es + [e]) && After(s, es + [e]) == Apply(After(s, es), e)
    decreases |es|
  {
    if es == [] {
      assert [e][1..] == [];
      assert es + [e] == [e];
    } else {
      assert (es + [e])[1..] == es[1..] + [e];
      AfterSnoc(Apply(s, es[0]), es[1..], e);
    }
  }

  // ---------------------------------------------------------------------------
  // One process at a time, and lines cut by the end of a read
  // ---------------------------------------------------------------------------

  /** A step moves the offset back if and only if it stores the end of a delta below it. */
  predicate MovesBack(s: State, e: Event) {
    (e.SkipUnlocked? || e.WriteOffset?) && Enabled(s, e) && s.procs[e.pid].delta.hi < s.offset
  }

  function End(fs: seq<Finished>): nat { if fs == [] then 0 else fs[|fs| - 1].delta.hi }

  /** Each finished delta starts where the one before it ended. */
  predicate Chain(fs: seq<Finished>) {
    forall i :: 0 <= i < |fs| ==> End(fs[..i]) == fs[i].delta.lo <= fs[i].delta.hi
  }

  predicate Single(s: State) {
    && |s.procs| == 1 && Chain(s.finished) && s.offset == End(s.finished)
    && match s.procs[0]
       case Idle => true
       case Releasing => true
       case KnowsOffset(lo) => lo == s.offset
       case p => p.delta.lo == s.offset <= p.delta.hi
  }

  lemma ChainGrows(fs: seq<Finished>, f: Finished)
    requires Chain(fs) && End(fs) == f.delta.lo <= f.delta.hi
    ensures Chain(fs + [f]) && End(fs + [f]) == f.delta.hi
  {
    var more := fs + [f];
    forall i | 0 <= i < |more| ensures End(more[..i]) == more[i].delta.lo <= more[i].delta.hi {
      if i < |fs| {
        assert more[..i] == fs[..i] && more[i] == fs[i];
      } else {
        assert more[..i] == fs;
      }
    }
  }

  lemma StepKeepsSingle(s: State, e: Event)
    requires Single(s) && Enabled(s, e)
    ensures Single(Apply(s, e)) && s.offset <= Apply(s, e).offset
    ensures !MovesBack(s, e)
  {
    if e.SkipUnlocked? {
      ChainGrows(s.finished, Finished(s.procs[0].delta, e.how));
    } else if e.WriteOffset? {
      ChainGrows(s.finished, Finished(s.procs[0].delta, s.procs[0].how));
    }
  }

  lemma {:induction false} RunKeepsSingle(s: State, es: seq<Event>)
    requires Single(s) && Legal(s, es)
    ensures Single(After(s, es)) && s.offset <= After(s, es).offset
    decreases |es|
  {
    if es != [] {
      StepKeepsSingle(s, es[0]);
      RunKeepsSingle(Apply(s, es[0]), es[1..]);
    }
  }

  /** A step lowers the offset if and only if it stores a delta whose end lies below it, and one
      process alone never does. */
  lemma OffsetMovesBackExactly(length: nat, processes: nat, es: seq<Event>, e: Event)
    requires Legal(Start(length, processes), es) && Enabled(After(Start(length, processes), es), e)
    ensures var s := After(Start(length, processes), es);
            && (Apply(s, e).offset < s.offset <==> MovesBack(s, e))
            && (processes == 1 ==> !MovesBack(s, e))
  {
    if processes == 1 {
      RunKeepsSingle(Start(length, 1), es);
      StepKeepsSingle(After(Start(length, 1), es), e);
    }
  }

  /** Some finished run read the whole line from byte `a` up to byte `b`. A line of which a read
      gets only a part is not parsed by it. */
  predicate ReadWhole(fs: seq<Finished>, a: nat, b: nat) {
    exists i :: 0 <= i < |fs| && fs[i].delta.lo <= a && b <= fs[i].delta.hi
  }

  /** Some stored end lies inside the line. */
  predicate Cut(fs: seq<Finished>, a: nat, b: nat) {
    exists i :: 0 <= i < |fs| && a < fs[i].delta.hi < b
  }

  lemma {:induction false} ChainRises(fs: seq<Finished>, i: nat, j: nat)
    requires Chain(fs) && i < j < |fs|
    ensures fs[i].delta.hi <= fs[j].delta.lo <= fs[j].delta.hi
  {
    assert fs[..j][j - 1] == fs[j - 1] && End(fs[..j]) == fs[j].delta.lo;
    if i < j - 1 {
      ChainRises(fs, i, j - 1);
    }
  }

  lemma CutOrWhole(fs: seq<Finished>, a: nat, b: nat)
    requires CoveredByte(fs, a)
    ensures ReadWhole(fs, a, b) || Cut(fs, a, b)
  {
    var i :| 0 <= i < |fs| && fs[i].delta.lo <= a < fs[i].delta.hi;
    assert b <= fs[i].delta.hi || a < fs[i].delta.hi < b;
  }

  lemma CutIsLost(fs: seq<Finished>, a: nat, b: nat)
    requires Chain(fs) && ReadWhole(fs, a, b)
    ensures !Cut(fs, a, b)
  {
    var i :| 0 <= i < |fs| && fs[i].delta.lo <= a && b <= fs[i].delta.hi;
    if j :| 0 <= j < |fs| && a < fs[j].delta.hi < b {
      if j < i {
        ChainRises(fs, j, i);
      } else if i < j {
        ChainRises(fs, i, j);
      }
    }
  }

  /** Below the stored offset every line that no stored end cuts was read whole by a finished
      run; with one process a line was read whole if and only if no stored end cuts it. */
  lemma LinesReadWhole(length: nat, processes: nat, es: seq<Event>, a: nat, b: nat)
    requires Legal(Start(length, processes), es) && a < b <= After(Start(length, processes), es).offset
    ensures var fs := After(Start(length, processes), es).finished;
            && (!Cut(fs, a, b) ==> ReadWhole(fs, a, b))
            && (processes == 1 ==> (ReadWhole(fs, a, b) <==> !Cut(fs, a, b)))
  {
    var s := After(Start(length, processes), es);
    NothingSkipped(length, processes, es);
    CutOrWhole(s.finished, a, b);
    if processes == 1 {
      RunKeepsSingle(Start(length, 1), es);
      if ReadWhole(s.finished, a, b) {
        CutIsLost(s.finished, a, b);
      }
    }
  }

  lemma {:induction false} AfterConcat(s: State, a: seq<Event>, b: seq<Event>)
    requires Legal(s, a) && Legal(After(s, a), b)
    ensures Legal(s, a + b) && After(s, a + b) == After(After(s, a), b)
    decreases |a|
  {
    if a == [] {
      assert a + b == b;
    } else {
      assert (a + b)[1..] == a[1..] + b;
      AfterConcat(Apply(s, a[0]), a[1..], b);
    }
  }

  /** A whole run of the only process that finds nothing worth mining. */
  function QuickRun(eof: nat): seq<Event> { [ReadOffset(0), ReadDelta(0, eof), SkipUnlocked(0, Trivial)] }

  lemma AfterQuickRun(s: State, eof: nat)
    requires s.procs == [Idle] && s.offset <= eof <= s.length
    ensures Legal(s, QuickRun(eof))
    ensures After(s, QuickRun(eof)) ==
            s.(offset := eof, finished := s.finished + [Finished(Delta(s.offset, eof), Trivial)])
  {
    var es := QuickRun(eof);
    var s1 := Apply(s, es[0]);
    var s2 := Apply(s1, es[1]);
    var s3 := Apply(s2, es[2]);
    assert Legal(s3, []);
    assert Legal(s2, es[2..]) && After(s2, es[2..]) == s3;
    assert Legal(s1, es[1..]) && After(s1, es[1..]) == s3;
    assert s3.procs == [Idle];
  }

  /** One process loses a line that is being written while it reads. */
  lemma CutLineExample() returns (es: seq<Event>)
    ensures Legal(Start(10, 1), es) && After(Start(10, 1), es).offset == 20
    ensures !ReadWhole(After(Start(10, 1), es).finished, 5, 12)
  {
    var s0 := Start(10, 1);
    assert s0.procs == [Idle];
    AfterQuickRun(s0, 10);
    var s1 := After(s0, QuickRun(10));
    AfterSnoc(s0, QuickRun(10), Append(10));
    var s2 := Apply(s1, Append(10));
    AfterQuickRun(s2, 20);
    AfterConcat(s0, QuickRun(10) + [Append(10)], QuickRun(20));
    es := QuickRun(10) + [Append(10)] + QuickRun(20);
    assert After(s0, es).finished == [Finished(Delta(0, 10), Trivial), Finished(Delta(10, 20), Trivial)];
  }

  // ---------------------------------------------------------------------------
  // A run that nobody disturbs
  // ---------------------------------------------------------------------------

  lemma Then(s: State, e: Event, es: seq<Event>)
    requires Enabled(s, e) && Legal(Apply(s, e), es)
    ensures Legal(s, [e] + es) && After(s, [e] + es) == After(Apply(s, e), es)
  {
    assert ([e] + es)[1..] == es;
  }

  lemma TwoSteps(s: State, a: Event, b: Event)
    requires Enabled(s, a) && Enabled(Apply(s, a), b)
    ensures Legal(s, [a, b]) && After(s, [a, b]) == Apply(Apply(s, a), b)
  {
    Then(Apply(s, a), b, []);
    Then(s, a, [b]);
    assert [b] + [] == [b] && [a] + [b] == [a, b];
  }

  lemma ThreeSteps(s: State, a: Event, b: Event, c: Event)
    requires Enabled(s, a) && Enabled(Apply(s, a), b) && Enabled(Apply(Apply(s, a), b), c)
    ensures Legal(s, [a, b, c]) && After(s, [a, b, c]) == Apply(Apply(Apply(s, a), b), c)
  {
    TwoSteps(Apply(s, a), b, c);
    Then(s, a, [b, c]);
    assert [a] + [b, c] == [a, b, c];
  }

  function Entering(pid: nat, eof: nat): seq<Event> { [ReadOffset(pid), ReadDelta(pid, eof), TryLock(pid)] }

  /** Up to the lock. A run that finds it taken ends there and leaves everything as it was. */
  lemma EntersAlone(s: State, pid: nat, eof: nat)
    requires pid < |s.procs| && s.procs[pid].Idle? && s.offset <= eof <= s.length
    ensures Legal(s, Entering(pid, eof))
    ensures After(s, Entering(pid, eof)) ==
            if s.lock.Some? then s
            else s.(lock := Some(pid), procs := s.procs[pid := Holding(Delta(s.offset, eof))])
  {
    ThreeSteps(s, ReadOffset(pid), ReadDelta(pid, eof), TryLock(pid));
    assert s.procs[pid := Idle] == s.procs;
  }

  function Mining(s: State, pid: nat, found: bool): seq<Event> {
    if s.streak.count >= 3 && s.streak.skip > 0 then [ReadStreak(pid), BackOff(pid)]
    else [ReadStreak(pid), Extract(pid, found), FinishMining(pid)]
  }

  /** The streak file after the run, in plain numbers. */
  function NextStreak(s: Streak, found: bool): Streak {
    if s.count >= 3 && s.skip > 0 then Streak(s.count, s.skip - 1)
    else if found then Streak(0, 0)
    else Streak(s.count + 1, if s.count + 1 >= 3 then 5 else 0)
  }

  lemma MinesAlone(s: State, pid: nat, d: Delta, found: bool)
    requires pid < |s.procs| && s.procs[pid] == Holding(d)
    ensures var backs := s.streak.count >= 3 && s.streak.skip > 0;
            && Legal(s, Mining(s, pid, found))
            && After(s, Mining(s, pid, found)) ==
               s.(procs := s.procs[pid := Advancing(d, if backs then BackedOff else Mined)],
                  streak := NextStreak(s.streak, found), ticks := s.ticks + [!backs && found])
  {
    if s.streak.count >= 3 && s.streak.skip > 0 {
      TwoSteps(s, ReadStreak(pid), BackOff(pid));
    } else {
      ThreeSteps(s, ReadStreak(pid), Extract(pid, found), FinishMining(pid));
    }
    assert After(s, Mining(s, pid, found)).procs[pid].Advancing?;
  }

  lemma EndsAlone(s: State, pid: nat, d: Delta, how: How)
    requires pid < |s.procs| && s.procs[pid] == Advancing(d, how) && s.lock == Some(pid)
    ensures Legal(s, [WriteOffset(pid), Release(pid)])
    ensures After(s, [WriteOffset(pid), Release(pid)]) ==
            s.(procs := s.procs[pid := Idle], lock := None, offset := d.hi, finished := s.finished + [Finished(d, how)])
  {
    TwoSteps(s, WriteOffset(pid), Release(pid));
    assert s.procs[pid := Releasing][pid := Idle] == s.procs[pid := Idle];
  }

  function WholeRun(s: State, pid: nat, eof: nat, found: bool): seq<Event> {
    Entering(pid, eof) + (Mining(s, pid, found) + [WriteOffset(pid), Release(pid)])
  }

  /** A run that nobody disturbs finishes with all the bytes from the stored offset on, stores their
      end, updates the streak and gives the lock back: it mines them unless three or more empty
      extractions in a row have left invocations to skip. */
  lemma SoloRun(s: State, pid: nat, eof: nat, found: bool)
    requires pid < |s.procs| && s.procs[pid].Idle? && s.lock.None? && s.offset <= eof <= s.length
    ensures var backs := s.streak.count >= 3 && s.streak.skip > 0;
            var d := Delta(s.offset, eof);
            && Legal(s, WholeRun(s, pid, eof, found))
            && After(s, WholeRun(s, pid, eof, found)) ==
               s.(offset := eof, finished := s.finished + [Finished(d, if backs then BackedOff else Mined)],
                  streak := NextStreak(s.streak, found), ticks := s.ticks + [!backs && found])
  {
    var d, last := Delta(s.offset, eof), [WriteOffset(pid), Release(pid)];
    EntersAlone(s, pid, eof);
    var t := After(s, Entering(pid, eof));
    MinesAlone(t, pid, d, found);
    var u := After(t, Mining(t, pid, found));
    EndsAlone(u, pid, d, u.procs[pid].how);
    AfterConcat(t, Mining(t, pid, found), last);
    AfterConcat(s, Entering(pid, eof), Mining(t, pid, found) + last);
    assert u.procs[pid := Idle] == s.procs;
  }

  /** A process that dies with the lock leaves it free, and offset and streak as they are, so the next
      run is such a run, over the same bytes again. */
  lemma CrashIsHarmless(s: State, holder: nat, pid: nat, eof: nat, found: bool)
    requires Inv(s) && s.lock == Some(holder) && holder < |s.procs|
    requires pid < |s.procs| && s.procs[pid].Idle? && s.offset <= eof <= s.length
    ensures var backs := s.streak.count >= 3 && s.streak.skip > 0;
            var d, es := Delta(s.offset, eof), [Crash(holder)] + WholeRun(s, pid, eof, found);
            && Legal(s, es)
            && After(s, es) ==
               s.(lock := None, procs := s.procs[holder := Idle],
                  offset := eof, finished := s.finished + [Finished(d, if backs then BackedOff else Mined)],
                  streak := NextStreak(s.streak, found), ticks := s.ticks + [!backs && found])
  {
    var t := Apply(s, Crash(holder));
    SoloRun(t, pid, eof, found);
    Then(s, Crash(holder), WholeRun(s, pid, eof, found));
  }
}
