/** Concurrent appends to one profile file, as interleaved steps: `append_fact`,
    `_append_fact_inner` and `_append_fact_locked` of memem/profiles.py. An append that
    would exceed the cap gives up the lock while a language model compacts its snapshot,
    and checks afterwards that the file is still what it was. The model's reply is
    arbitrary. What an append makes of a text is a parameter here; ProfileStore supplies it. */
module ProfileProtocol {
  import opened Wrappers

  const CHAR_CAP := 2500

  datatype Call = Call(section: string, line: string)

  datatype Result = Appended | Duplicate | CompactedAppended | RejectedFull | InvalidSection | Error

  /** How one append reads the file: the text it takes as its snapshot, the text with the
      new bullet, and whether the bullet is already there. None is a missing file. */
  datatype Profile = Profile(
    admissible: Call -> bool,
    rawOf: Option<string> -> string,
    newText: (Option<string>, Call) -> string,
    duplicate: (Option<string>, Call) -> bool)

  /** A missing file is treated like the template that stands in for it. */
  ghost predicate Coherent(p: Profile) {
    && p.rawOf(None) != ""
    && (forall v :: p.rawOf(Some(v)) == v)
    && (forall c :: p.newText(Some(p.rawOf(None)), c) == p.newText(None, c))
    && (forall c :: p.duplicate(Some(p.rawOf(None)), c) == p.duplicate(None, c))
  }

  predicate Overflows(p: Profile, file: Option<string>, c: Call) {
    !p.duplicate(file, c) && |p.newText(file, c)| > CHAR_CAP
  }

  predicate Fits(p: Profile, file: Option<string>, c: Call) {
    !p.duplicate(file, c) && |p.newText(file, c)| <= CHAR_CAP
  }

  // ---------------------------------------------------------------------------
  // Interleaved calls
  // ---------------------------------------------------------------------------

  /** Where a call stands. `at` counts the versions committed when it read the file, and `first`
      those committed when it first read it, if this is its second attempt; the states from
      Holding to Leaving, and Rechecking, own the lock. */
  datatype Proc =
    | Idle
    | Asking(c: Call)
    | Holding(c: Call, first: Option<nat>)
    | Deciding(c: Call, first: Option<nat>, seen: Option<string>)
    | Writing(c: Call, text: string, compacted: bool)
    | Leaving(c: Call, r: Result, at: nat, why: Why)
    | Compacting(c: Call, seen: Option<string>, at: nat)
    | Returning(c: Call, seen: Option<string>, at: nat, reply: string)
    | Rechecking(c: Call, seen: Option<string>, at: nat, reply: string)

  predicate InLock(q: Proc) {
    q.Holding? || q.Deciding? || q.Writing? || q.Leaving? || q.Rechecking?
  }

  /** One replacement of the file; `asked` is the text the compactor was given. */
  datatype Commit = Commit(c: Call, after: string, compacted: bool, asked: string)

  /** How a call came to its answer: at once, by a reply that was missing or too long, or in a
      second attempt after the file had changed. */
  datatype Why = AtOnce | BadReply(reply: Option<string>) | SecondAttempt(first: nat)

  datatype Outcome = Outcome(c: Call, r: Result, at: nat, why: Why)

  /** `log` and `done` are the history: the versions written, and the calls that returned. */
  datatype State = State(
    initial: Option<string>,
    file: Option<string>,
    lock: Option<nat>,
    procs: seq<Proc>,
    log: seq<Commit>,
    done: seq<Outcome>)

  datatype Event =
    | Begin(pid: nat, c: Call)
    | Lock(pid: nat)
    | Read(pid: nat)
    | Decide(pid: nat)
    | Write(pid: nat)
    | Leave(pid: nat)
    | Reply(pid: nat, reply: Option<string>)
    | Relock(pid: nat)
    | Recheck(pid: nat)
    | Crash(pid: nat)

  predicate Enabled(p: Profile, s: State, e: Event) {
    && e.pid < |s.procs|
    && var q := s.procs[e.pid];
       match e
       case Begin(_, c) => q.Idle? && p.admissible(c)
       case Lock(_) => q.Asking? && s.lock.None?
       case Read(_) => q.Holding?
       case Decide(_) => q.Deciding?
       case Write(_) => q.Writing?
       case Leave(_) => q.Leaving?
       case Reply(_, _) => q.Compacting?
       case Relock(_) => q.Returning? && s.lock.None?
       case Recheck(_) => q.Rechecking?
       case Crash(_) => true
  }

  function Set(s: State, pid: nat, q: Proc): State
    requires pid < |s.procs|
  {
    s.(procs := s.procs[pid := q])
  }

  function Unlock(s: State, pid: nat): State {
    if s.lock == Some(pid) then s.(lock := None) else s
  }

  function Cause(first: Option<nat>): Why { if first.Some? then SecondAttempt(first.value) else AtOnce }

  /** What the second phase compares: a missing file reads as the empty string here, not as the
      empty template. */
  function Current(file: Option<string>): string { if file.Some? then file.value else "" }

  function Apply(p: Profile, s: State, e: Event): State
    requires Enabled(p, s, e)
  {
    var pid, q := e.pid, s.procs[e.pid];
    match e
    case Begin(_, c) => Set(s, pid, Asking(c))
    case Lock(_) => Set(s, pid, Holding(q.c, None)).(lock := Some(pid))
    case Read(_) => Set(s, pid, Deciding(q.c, q.first, s.file))
    case Decide(_) =>
      if p.duplicate(q.seen, q.c) then Set(s, pid, Leaving(q.c, Duplicate, |s.log|, Cause(q.first)))
      else if Fits(p, q.seen, q.c) then Set(s, pid, Writing(q.c, p.newText(q.seen, q.c), false))
      else if q.first.Some? then Set(s, pid, Leaving(q.c, RejectedFull, |s.log|, Cause(q.first)))
      else Unlock(Set(s, pid, Compacting(q.c, q.seen, |s.log|)), pid)
    case Write(_) =>
      Set(s, pid, Leaving(q.c, if q.compacted then CompactedAppended else Appended, |s.log|, AtOnce))
      .(file := Some(q.text), log := s.log + [Commit(q.c, q.text, q.compacted, p.newText(s.file, q.c))])
    case Leave(_) => Unlock(Set(s, pid, Idle).(done := s.done + [Outcome(q.c, q.r, q.at, q.why)]), pid)
    case Reply(_, reply) =>
      if reply.None? || |reply.value| > CHAR_CAP
      then Set(s, pid, Idle).(done := s.done + [Outcome(q.c, RejectedFull, q.at, BadReply(reply))])
      else Set(s, pid, Returning(q.c, q.seen, q.at, reply.value))
    case Relock(_) => Set(s, pid, Rechecking(q.c, q.seen, q.at, q.reply)).(lock := Some(pid))
    case Recheck(_) =>
      if Current(s.file) != p.rawOf(q.seen) then Set(s, pid, Holding(q.c, Some(q.at)))
      else Set(s, pid, Writing(q.c, q.reply, true))
    case Crash(_) => Unlock(Set(s, pid, Idle), pid)
  }

  function Start(initial: Option<string>, processes: nat): State {
    State(initial, initial, None, seq(processes, _ => Idle), [], [])
  }

  predicate Legal(p: Profile, s: State, es: seq<Event>)
    decreases |es|
  {
    es == [] || (Enabled(p, s, es[0]) && Legal(p, Apply(p, s, es[0]), es[1..]))
  }

  function After(p: Profile, s: State, es: seq<Event>): State
    requires Legal(p, s, es)
    decreases |es|
  {
    if es == [] then s else After(p, Apply(p, s, es[0]), es[1..])
  }

  // ---------------------------------------------------------------------------
  // The serial history
  // ---------------------------------------------------------------------------

  /** The file after the first k commits. */
  function Version(s: State, k: nat): Option<string>
    requires k <= |s.log|
  {
    if k == 0 then s.initial else Some(s.log[k - 1].after)
  }

  /** A commit is the version before it with one bullet more, or a compaction, within the
      cap, of exactly that text. */
  predicate Justified(p: Profile, before: Option<string>, m: Commit) {
    && p.admissible(m.c) && |m.after| <= CHAR_CAP
    && m.asked == p.newText(before, m.c)
    && if m.compacted then before.Some? && Overflows(p, before, m.c)
       else Fits(p, before, m.c) && m.after == m.asked
  }

  /** The second attempt of a call whose first one overflowed; the file had changed since. */
  predicate Moved(p: Profile, s: State, c: Call, first: nat, at: nat)
    requires at <= |s.log|
  {
    first <= at && Overflows(p, Version(s, first), c) && Current(Version(s, at)) != p.rawOf(Version(s, first))
  }

  /** What a call may answer if it runs alone on the version it saw. It is rejected only when its
      reply was missing or over 2500 characters, or when its second attempt overflowed too. */
  predicate Answers(p: Profile, s: State, o: Outcome) {
    && o.at <= |s.log|
    && match o.r
       case Appended => o.at < |s.log| && s.log[o.at].c == o.c && !s.log[o.at].compacted
       case CompactedAppended => o.at < |s.log| && s.log[o.at].c == o.c && s.log[o.at].compacted
       case Duplicate => p.duplicate(Version(s, o.at), o.c)
       case RejectedFull =>
         && Overflows(p, Version(s, o.at), o.c)
         && (match o.why
             case BadReply(reply) => reply.None? || |reply.value| > 2500
             case SecondAttempt(first) => Moved(p, s, o.c, first, o.at)
             case AtOnce => false)
       case _ => false
  }

  predicate Serial(p: Profile, s: State) {
    && s.file == Version(s, |s.log|)
    && (forall k :: 0 <= k < |s.log| ==> Justified(p, Version(s, k), s.log[k]))
    && (forall i :: 0 <= i < |s.done| ==> Answers(p, s, s.done[i]))
  }

  predicate ProcOk(p: Profile, s: State, q: Proc) {
    && (!q.Idle? ==> p.admissible(q.c))
    && match q
       case Holding(c, first) => first.Some? ==> Moved(p, s, c, first.value, |s.log|)
       case Deciding(c, first, seen) => seen == s.file && (first.Some? ==> Moved(p, s, c, first.value, |s.log|))
       case Writing(c, text, compacted) => Justified(p, s.file, Commit(c, text, compacted, p.newText(s.file, c)))
       case Leaving(c, r, at, why) => Answers(p, s, Outcome(c, r, at, why))
       case Compacting(c, seen, at) => SawVersion(p, s, c, seen, at)
       case Returning(c, seen, at, reply) => SawVersion(p, s, c, seen, at) && |reply| <= CHAR_CAP
       case Rechecking(c, seen, at, reply) => SawVersion(p, s, c, seen, at) && |reply| <= CHAR_CAP
       case _ => true
  }

  predicate SawVersion(p: Profile, s: State, c: Call, seen: Option<string>, at: nat) {
    at <= |s.log| && seen == Version(s, at) && Overflows(p, seen, c) && (seen.Some? ==> s.file.Some?)
  }

  predicate Inv(p: Profile, s: State) {
    && Serial(p, s)
    && (forall i :: 0 <= i < |s.procs| ==> ProcOk(p, s, s.procs[i]))
    && (forall i :: 0 <= i < |s.procs| ==> (InLock(s.procs[i]) <==> s.lock == Some(i)))
  }

  /** A step of one process that leaves file and history alone. */
  lemma QuietKeeps(p: Profile, s: State, pid: nat, q: Proc, lock: Option<nat>)
    requires Inv(p, s) && pid < |s.procs| && ProcOk(p, s, q)
    requires if InLock(q) then (s.lock == None || s.lock == Some(pid)) && lock == Some(pid)
             else lock == (if s.lock == Some(pid) then None else s.lock)
    ensures Inv(p, Set(s, pid, q).(lock := lock))
  {
    var t := Set(s, pid, q).(lock := lock);
    SameHistory(p, s, t);
    forall i | 0 <= i < |t.procs| ensures ProcOk(p, t, t.procs[i]) {
      SameProc(p, s, t, t.procs[i]);
    }
  }

  lemma SameProc(p: Profile, s: State, t: State, q: Proc)
    requires t.initial == s.initial && t.file == s.file && t.log == s.log
    ensures ProcOk(p, t, q) <==> ProcOk(p, s, q)
  {
  }

  lemma SameHistory(p: Profile, s: State, t: State)
    requires t.initial == s.initial && t.file == s.file && t.log == s.log && t.done == s.done
    requires Serial(p, s)
    ensures Serial(p, t)
  {
    forall i | 0 <= i < |t.done| ensures Answers(p, t, t.done[i]) {
      assert Answers(p, s, s.done[i]);
    }
  }

  lemma AnswerKeeps(p: Profile, s: State, o: Outcome)
    requires Inv(p, s) && Answers(p, s, o)
    ensures Inv(p, s.(done := s.done + [o]))
  {
    var t := s.(done := s.done + [o]);
    forall i | 0 <= i < |t.procs| ensures ProcOk(p, t, t.procs[i]) {
      SameProc(p, s, t, t.procs[i]);
    }
    AnswerAdded(p, s, o);
  }

  lemma AnswerAdded(p: Profile, s: State, o: Outcome)
    requires Serial(p, s) && Answers(p, s, o)
    ensures Serial(p, s.(done := s.done + [o]))
  {
    var t := s.(done := s.done + [o]);
    forall i | 0 <= i < |t.done| ensures Answers(p, t, t.done[i]) {
      AnswerStays(p, s, t, if i < |s.done| then s.done[i] else o);
    }
  }

  lemma AnswerStays(p: Profile, s: State, t: State, o: Outcome)
    requires t.initial == s.initial && s.log <= t.log && Answers(p, s, o)
    ensures Answers(p, t, o)
  {
    assert Version(t, o.at) == Version(s, o.at);
  }

  /** A process outside the lock does not mind a new version. */
  lemma ProcStays(p: Profile, s: State, t: State, q: Proc)
    requires t.initial == s.initial && s.log <= t.log && t.file.Some?
    requires ProcOk(p, s, q) && !InLock(q)
    ensures ProcOk(p, t, q)
  {
    if q.Compacting? || q.Returning? {
      assert Version(t, q.at) == Version(s, q.at);
    }
  }

  lemma CommitKeepsSerial(p: Profile, s: State, m: Commit)
    requires Serial(p, s) && Justified(p, s.file, m)
    ensures Serial(p, s.(file := Some(m.after), log := s.log + [m]))
  {
    var t := s.(file := Some(m.after), log := s.log + [m]);
    forall k | 0 <= k < |t.log| ensures Justified(p, Version(t, k), t.log[k]) {
      assert k < |s.log| ==> Justified(p, Version(s, k), s.log[k]);
      assert Version(t, k) == Version(s, k);
    }
    forall i | 0 <= i < |t.done| ensures Answers(p, t, t.done[i]) {
      AnswerStays(p, s, t, s.done[i]);
    }
  }

  lemma WriteKeeps(p: Profile, s: State, pid: nat)
    requires Inv(p, s) && Enabled(p, s, Write(pid))
    ensures Inv(p, Apply(p, s, Write(pid)))
  {
    var t, q := Apply(p, s, Write(pid)), s.procs[pid];
    assert ProcOk(p, s, q) && InLock(q);
    var m := Commit(q.c, q.text, q.compacted, p.newText(s.file, q.c));
    CommitKeepsSerial(p, s, m);
    assert Serial(p, t) by {
      SerialIgnoresProcs(p, s.(file := Some(m.after), log := s.log + [m]), t);
    }
    forall i | 0 <= i < |t.procs| ensures ProcOk(p, t, t.procs[i]) {
      if i != pid {
        assert ProcOk(p, s, s.procs[i]) && !InLock(s.procs[i]);
        ProcStays(p, s, t, s.procs[i]);
      } else {
        assert t.log[|s.log|] == m;
      }
    }
  }

  lemma SerialIgnoresProcs(p: Profile, s: State, t: State)
    requires Serial(p, s) && t.initial == s.initial && t.file == s.file && t.log == s.log && t.done == s.done
    ensures Serial(p, t)
  {
    assert forall k :: 0 <= k <= |s.log| ==> Version(t, k) == Version(s, k);
    forall i | 0 <= i < |t.done| ensures Answers(p, t, t.done[i]) {
      AnswerStays(p, s, t, s.done[i]);
    }
  }

  /** The snapshot test passes only on the version that was compacted. */
  lemma RecheckSound(p: Profile, s: State, c: Call, seen: Option<string>, at: nat)
    requires Coherent(p) && SawVersion(p, s, c, seen, at)
    requires Current(s.file) == p.rawOf(seen)
    ensures s.file.Some? && Overflows(p, s.file, c)
    ensures p.newText(s.file, c) == p.newText(seen, c)
  {
  }

  lemma RecheckKeeps(p: Profile, s: State, pid: nat)
    requires Coherent(p) && Inv(p, s) && Enabled(p, s, Recheck(pid))
    ensures Inv(p, Apply(p, s, Recheck(pid)))
  {
    var q := s.procs[pid];
    assert ProcOk(p, s, q) && InLock(q);
    if Current(s.file) != p.rawOf(q.seen) {
      QuietKeeps(p, s, pid, Holding(q.c, Some(q.at)), Some(pid));
    } else {
      RecheckSound(p, s, q.c, q.seen, q.at);
      QuietKeeps(p, s, pid, Writing(q.c, q.reply, true), Some(pid));
    }
  }

  lemma DecideKeeps(p: Profile, s: State, pid: nat)
    requires Inv(p, s) && Enabled(p, s, Decide(pid))
    ensures Inv(p, Apply(p, s, Decide(pid)))
  {
    var q := s.procs[pid];
    assert ProcOk(p, s, q) && InLock(q);
    if p.duplicate(q.seen, q.c) {
      QuietKeeps(p, s, pid, Leaving(q.c, Duplicate, |s.log|, Cause(q.first)), Some(pid));
    } else if Fits(p, q.seen, q.c) {
      QuietKeeps(p, s, pid, Writing(q.c, p.newText(q.seen, q.c), false), Some(pid));
    } else if q.first.Some? {
      QuietKeeps(p, s, pid, Leaving(q.c, RejectedFull, |s.log|, Cause(q.first)), Some(pid));
    } else {
      QuietKeeps(p, s, pid, Compacting(q.c, q.seen, |s.log|), None);
    }
  }

  lemma FinishKeeps(p: Profile, s: State, pid: nat, o: Outcome)
    requires Inv(p, s) && pid < |s.procs| && Answers(p, s, o)
    ensures Inv(p, Unlock(Set(s, pid, Idle).(done := s.done + [o]), pid))
  {
    AnswerKeeps(p, s, o);
    QuietKeeps(p, s.(done := s.done + [o]), pid, Idle, Unlock(s, pid).lock);
  }

  lemma StepKeeps(p: Profile, s: State, e: Event)
    requires Coherent(p) && Inv(p, s) && Enabled(p, s, e)
    ensures Inv(p, Apply(p, s, e))
  {
    var pid, q := e.pid, s.procs[e.pid];
    assert ProcOk(p, s, q);
    match e
    case Begin(_, c) => QuietKeeps(p, s, pid, Asking(c), s.lock);
    case Lock(_) => QuietKeeps(p, s, pid, Holding(q.c, None), Some(pid));
    case Read(_) => QuietKeeps(p, s, pid, Deciding(q.c, q.first, s.file), Some(pid));
    case Decide(_) => DecideKeeps(p, s, pid);
    case Write(_) => WriteKeeps(p, s, pid);
    case Leave(_) => FinishKeeps(p, s, pid, Outcome(q.c, q.r, q.at, q.why));
    case Reply(_, reply) =>
      if reply.None? || |reply.value| > CHAR_CAP {
        FinishKeeps(p, s, pid, Outcome(q.c, RejectedFull, q.at, BadReply(reply)));
      } else {
        QuietKeeps(p, s, pid, Returning(q.c, q.seen, q.at, reply.value), s.lock);
      }
    case Relock(_) => QuietKeeps(p, s, pid, Rechecking(q.c, q.seen, q.at, q.reply), Some(pid));
    case Recheck(_) => RecheckKeeps(p, s, pid);
    case Crash(_) => QuietKeeps(p, s, pid, Idle, Unlock(s, pid).lock);
  }

  lemma {:induction false} RunKeeps(p: Profile, s: State, es: seq<Event>)
    requires Coherent(p) && Inv(p, s) && Legal(p, s, es)
    ensures Inv(p, After(p, s, es)) && After(p, s, es).initial == s.initial
    decreases |es|
  {
    if es != [] {
      StepKeeps(p, s, es[0]);
      RunKeeps(p, Apply(p, s, es[0]), es[1..]);
    }
  }

  // ---------------------------------------------------------------------------
  // Main results
  // ---------------------------------------------------------------------------

  /** Every interleaving of appends, with replies that may be anything or fail and with
      crashes anywhere, is a serial history: each version of the file is the one before it
      plus one bullet, or the compaction of exactly that text, and each call's answer is
      the one it would give alone on the version it saw. */
  lemma AppendsAreSerial(p: Profile, initial: Option<string>, processes: nat, es: seq<Event>)
    requires Coherent(p) && Legal(p, Start(initial, processes), es)
    ensures var s := After(p, Start(initial, processes), es);
            && s.initial == initial && Serial(p, s)
            && forall i, j :: 0 <= i < j < |s.procs| ==> !(InLock(s.procs[i]) && InLock(s.procs[j]))
  {
    RunKeeps(p, Start(initial, processes), es);
  }

  /** A file that starts within the cap never leaves it. */
  lemma CapHolds(p: Profile, initial: Option<string>, processes: nat, es: seq<Event>)
    requires Coherent(p) && Legal(p, Start(initial, processes), es)
    requires initial.Some? ==> |initial.value| <= CHAR_CAP
    ensures var file := After(p, Start(initial, processes), es).file;
            file.Some? ==> |file.value| <= 2500
  {
    RunKeeps(p, Start(initial, processes), es);
    var s := After(p, Start(initial, processes), es);
    if s.log != [] {
      assert Justified(p, Version(s, |s.log| - 1), s.log[|s.log| - 1]);
    }
  }

  /** No committed append is overwritten unseen: every later version was computed from a
      text that still shows it, or from a compaction the next link asked for. */
  lemma NoCommitUnseen(p: Profile, initial: Option<string>, processes: nat, es: seq<Event>, k: nat)
    requires Coherent(p) && Legal(p, Start(initial, processes), es)
    requires k + 1 < |After(p, Start(initial, processes), es).log|
    ensures var log := After(p, Start(initial, processes), es).log;
            && log[k + 1].asked == p.newText(Some(log[k].after), log[k + 1].c)
            && (!log[k + 1].compacted ==> log[k + 1].after == log[k + 1].asked)
  {
    RunKeeps(p, Start(initial, processes), es);
    var s := After(p, Start(initial, processes), es);
    assert Justified(p, Version(s, k + 1), s.log[k + 1]);
  }

  /** A missing file reads differently in the two phases, so its first version is never a
      compaction: such a call is rejected, or appends after somebody else created it. */
  lemma FirstVersionIsAppend(p: Profile, processes: nat, es: seq<Event>)
    requires Coherent(p) && Legal(p, Start(None, processes), es)
    requires After(p, Start(None, processes), es).log != []
    ensures !After(p, Start(None, processes), es).log[0].compacted
  {
    RunKeeps(p, Start(None, processes), es);
    var s := After(p, Start(None, processes), es);
    assert Justified(p, Version(s, 0), s.log[0]);
  }

  // ---------------------------------------------------------------------------
  // A call that nobody disturbs
  // ---------------------------------------------------------------------------

  /** Its answer and the file after it; `reply` is what the compactor returns if it is asked. */
  function Solo(p: Profile, file: Option<string>, c: Call, reply: Option<string>): (Result, Option<string>) {
    if p.duplicate(file, c) then (Duplicate, file)
    else if |p.newText(file, c)| <= 2500 then (Appended, Some(p.newText(file, c)))
    else if file.None? || reply.None? || |reply.value| > 2500 then (RejectedFull, file)
    else (CompactedAppended, reply)
  }

  function SoloStart(pid: nat, c: Call): seq<Event> { [Begin(pid, c), Lock(pid), Read(pid), Decide(pid)] }

  function SoloEnd(p: Profile, file: Option<string>, pid: nat, c: Call, reply: Option<string>): seq<Event> {
    if p.duplicate(file, c) then [Leave(pid)]
    else if |p.newText(file, c)| <= 2500 then [Write(pid), Leave(pid)]
    else if reply.None? || |reply.value| > 2500 then [Reply(pid, reply)]
    else if file.None? then [Reply(pid, reply), Relock(pid), Recheck(pid), Read(pid), Decide(pid), Leave(pid)]
    else [Reply(pid, reply), Relock(pid), Recheck(pid), Write(pid), Leave(pid)]
  }

  lemma {:induction false} AfterConcat(p: Profile, s: State, a: seq<Event>, b: seq<Event>)
    requires Legal(p, s, a) && Legal(p, After(p, s, a), b)
    ensures Legal(p, s, a + b) && After(p, s, a + b) == After(p, After(p, s, a), b)
    decreases |a|
  {
    if a == [] {
      assert a + b == b;
    } else {
      assert (a + b)[1..] == a[1..] + b;
      AfterConcat(p, Apply(p, s, a[0]), a[1..], b);
    }
  }

  /** One step in front of a run. */
  lemma Then(p: Profile, s: State, e: Event, es: seq<Event>)
    requires Enabled(p, s, e) && Legal(p, Apply(p, s, e), es)
    ensures Legal(p, s, [e] + es) && After(p, s, [e] + es) == After(p, Apply(p, s, e), es)
  {
    assert ([e] + es)[1..] == es;
  }

  /** The process `pid` of an otherwise unchanged state. */
  predicate Only(s: State, t: State, pid: nat, q: Proc, locked: bool)
    requires pid < |s.procs|
  {
    && t.procs == s.procs[pid := q] && t.lock == (if locked then Some(pid) else None)
    && t.file == s.file && t.log == s.log && t.done == s.done
  }

  lemma SoloBegins(p: Profile, s: State, pid: nat, c: Call)
    requires pid < |s.procs| && s.procs[pid].Idle? && s.lock.None? && p.admissible(c)
    ensures Legal(p, s, SoloStart(pid, c))
    ensures var t := After(p, s, SoloStart(pid, c));
            if p.duplicate(s.file, c) then Only(s, t, pid, Leaving(c, Duplicate, |s.log|, AtOnce), true)
            else if |p.newText(s.file, c)| <= 2500 then
              Only(s, t, pid, Writing(c, p.newText(s.file, c), false), true)
            else Only(s, t, pid, Compacting(c, s.file, |s.log|), false)
  {
    var es := SoloStart(pid, c);
    var s1 := Apply(p, s, es[0]);
    var s2 := Apply(p, s1, es[1]);
    var s3 := Apply(p, s2, es[2]);
    var s4 := Apply(p, s3, es[3]);
    Then(p, s3, es[3], []);
    Then(p, s2, es[2], [es[3]]);
    Then(p, s1, es[1], [es[2], es[3]]);
    Then(p, s, es[0], [es[1], es[2], es[3]]);
    assert es == [es[0]] + [es[1], es[2], es[3]];
    assert [es[1], es[2], es[3]] == [es[1]] + [es[2], es[3]] && [es[2], es[3]] == [es[2]] + [es[3]];
    assert [es[3]] == [es[3]] + [];
  }

  /** The call has returned `r`, the file is `file`, and everybody else is where he was. */
  predicate Returned(s: State, t: State, c: Call, r: Result, file: Option<string>) {
    && t.procs == s.procs && t.lock.None? && t.file == file
    && |t.done| == |s.done| + 1 && t.done[..|s.done|] == s.done
    && t.done[|s.done|].c == c && t.done[|s.done|].r == r
  }

  lemma LeaveReturns(p: Profile, s: State, t: State, pid: nat, c: Call, r: Result, at: nat, why: Why)
    requires pid < |s.procs| && s.procs[pid].Idle?
    requires t.procs == s.procs[pid := Leaving(c, r, at, why)] && t.lock == Some(pid) && t.done == s.done
    ensures Legal(p, t, [Leave(pid)]) && Returned(s, After(p, t, [Leave(pid)]), c, r, t.file)
  {
    Then(p, t, Leave(pid), []);
    assert [Leave(pid)] == [Leave(pid)] + [];
    assert s.procs[pid := Idle] == s.procs;
  }

  lemma WriteReturns(p: Profile, s: State, t: State, pid: nat, c: Call, text: string, compacted: bool)
    requires pid < |s.procs| && s.procs[pid].Idle?
    requires t.procs == s.procs[pid := Writing(c, text, compacted)] && t.lock == Some(pid) && t.done == s.done
    ensures var es := [Write(pid), Leave(pid)];
            && Legal(p, t, es)
            && Returned(s, After(p, t, es), c, if compacted then CompactedAppended else Appended, Some(text))
  {
    var r := if compacted then CompactedAppended else Appended;
    LeaveReturns(p, s, Apply(p, t, Write(pid)), pid, c, r, |t.log|, AtOnce);
    Then(p, t, Write(pid), [Leave(pid)]);
    assert [Write(pid), Leave(pid)] == [Write(pid)] + [Leave(pid)];
  }

  lemma ThreeSteps(p: Profile, s: State, a: Event, b: Event, c: Event)
    requires Enabled(p, s, a) && Enabled(p, Apply(p, s, a), b) && Enabled(p, Apply(p, Apply(p, s, a), b), c)
    ensures Legal(p, s, [a, b, c]) && After(p, s, [a, b, c]) == Apply(p, Apply(p, Apply(p, s, a), b), c)
  {
    var t := Apply(p, s, a);
    Then(p, Apply(p, t, b), c, []);
    Then(p, t, b, [c]);
    Then(p, s, a, [b, c]);
    assert [c] + [] == [c] && [b] + [c] == [b, c] && [a] + [b, c] == [a, b, c];
  }

  /** A reply within the cap, with the file as it was: it is written, unless there is no file. */
  lemma ReplyChecked(p: Profile, s: State, t: State, pid: nat, c: Call, text: string)
    requires Coherent(p) && pid < |s.procs| && |text| <= 2500
    requires Only(s, t, pid, Compacting(c, s.file, |s.log|), false)
    ensures var es := [Reply(pid, Some(text)), Relock(pid), Recheck(pid)];
            && Legal(p, t, es)
            && Only(s, After(p, t, es), pid,
                    if s.file.None? then Holding(c, Some(|s.log|)) else Writing(c, text, true), true)
  {
    ThreeSteps(p, t, Reply(pid, Some(text)), Relock(pid), Recheck(pid));
  }

  lemma SecondAttemptReturns(p: Profile, s: State, t: State, pid: nat, c: Call, first: nat)
    requires pid < |s.procs| && s.procs[pid].Idle?
    requires !p.duplicate(s.file, c) && |p.newText(s.file, c)| > 2500
    requires Only(s, t, pid, Holding(c, Some(first)), true)
    ensures var es := [Read(pid), Decide(pid), Leave(pid)];
            Legal(p, t, es) && Returned(s, After(p, t, es), c, RejectedFull, s.file)
  {
    ThreeSteps(p, t, Read(pid), Decide(pid), Leave(pid));
    assert s.procs[pid := Idle] == s.procs;
  }

  /** From the compaction on, with a reply within the cap. */
  lemma CompactionReturns(p: Profile, s: State, t: State, pid: nat, c: Call, text: string)
    requires Coherent(p) && pid < |s.procs| && s.procs[pid].Idle? && |text| <= 2500
    requires !p.duplicate(s.file, c) && |p.newText(s.file, c)| > 2500
    requires Only(s, t, pid, Compacting(c, s.file, |s.log|), false)
    ensures var es := SoloEnd(p, s.file, pid, c, Some(text));
            && Legal(p, t, es)
            && (if s.file.None? then Returned(s, After(p, t, es), c, RejectedFull, None)
                else Returned(s, After(p, t, es), c, CompactedAppended, Some(text)))
  {
    var start := [Reply(pid, Some(text)), Relock(pid), Recheck(pid)];
    ReplyChecked(p, s, t, pid, c, text);
    var u := After(p, t, start);
    if s.file.None? {
      SecondAttemptReturns(p, s, u, pid, c, |s.log|);
      AfterConcat(p, t, start, [Read(pid), Decide(pid), Leave(pid)]);
      assert SoloEnd(p, s.file, pid, c, Some(text)) == start + [Read(pid), Decide(pid), Leave(pid)];
    } else {
      WriteReturns(p, s, u, pid, c, text, true);
      AfterConcat(p, t, start, [Write(pid), Leave(pid)]);
      assert SoloEnd(p, s.file, pid, c, Some(text)) == start + [Write(pid), Leave(pid)];
    }
  }

  lemma SoloEnds(p: Profile, s: State, t: State, pid: nat, c: Call, reply: Option<string>)
    requires Coherent(p) && pid < |s.procs| && s.procs[pid].Idle?
    requires if p.duplicate(s.file, c) then Only(s, t, pid, Leaving(c, Duplicate, |s.log|, AtOnce), true)
             else if |p.newText(s.file, c)| <= 2500 then
               Only(s, t, pid, Writing(c, p.newText(s.file, c), false), true)
             else Only(s, t, pid, Compacting(c, s.file, |s.log|), false)
    ensures var es, (r, file) := SoloEnd(p, s.file, pid, c, reply), Solo(p, s.file, c, reply);
            Legal(p, t, es) && Returned(s, After(p, t, es), c, r, file)
  {
    if p.duplicate(s.file, c) {
      LeaveReturns(p, s, t, pid, c, Duplicate, |s.log|, AtOnce);
    } else if |p.newText(s.file, c)| <= 2500 {
      WriteReturns(p, s, t, pid, c, p.newText(s.file, c), false);
    } else if reply.None? || |reply.value| > 2500 {
      Then(p, t, Reply(pid, reply), []);
      assert [Reply(pid, reply)] == [Reply(pid, reply)] + [];
      assert s.procs[pid := Idle] == s.procs;
    } else {
      CompactionReturns(p, s, t, pid, c, reply.value);
    }
  }

  /** A call that runs alone reports a duplicate, appends within 2500 characters, or commits the
      compactor's reply if that is within them; only for want of such a reply, or of a file to
      compare with, is it rejected. */
  lemma SoloCall(p: Profile, s: State, pid: nat, c: Call, reply: Option<string>)
    requires Coherent(p) && pid < |s.procs| && s.procs[pid].Idle? && s.lock.None? && p.admissible(c)
    ensures var es, (r, file) := SoloStart(pid, c) + SoloEnd(p, s.file, pid, c, reply), Solo(p, s.file, c, reply);
            Legal(p, s, es) && Returned(s, After(p, s, es), c, r, file)
  {
    SoloBegins(p, s, pid, c);
    SoloEnds(p, s, After(p, s, SoloStart(pid, c)), pid, c, reply);
    AfterConcat(p, s, SoloStart(pid, c), SoloEnd(p, s.file, pid, c, reply));
  }

  /** A process that dies with the lock leaves it free and the file as it was, so the next call is
      answered as if it had run alone. */
  lemma CrashIsHarmless(p: Profile, s: State, holder: nat, pid: nat, c: Call, reply: Option<string>)
    requires Coherent(p) && Inv(p, s) && holder < |s.procs| && s.lock == Some(holder)
    requires pid < |s.procs| && s.procs[pid].Idle? && p.admissible(c)
    ensures var es := [Crash(holder)] + (SoloStart(pid, c) + SoloEnd(p, s.file, pid, c, reply));
            var (r, file) := Solo(p, s.file, c, reply);
            && Legal(p, s, es)
            && Returned(s.(procs := s.procs[holder := Idle]), After(p, s, es), c, r, file)
  {
    var t := Apply(p, s, Crash(holder));
    SoloCall(p, t, pid, c, reply);
    Then(p, s, Crash(holder), SoloStart(pid, c) + SoloEnd(p, s.file, pid, c, reply));
  }
}
