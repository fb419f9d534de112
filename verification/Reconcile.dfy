/** Reconcile-at-write: `_reconcile_candidates` and `_fallback_add_all` of memem/mine_delta.py,
    with the vault operations of memem/obsidian_store.py they call. The reply, the security
    scan, the stable ids and the outcome of each profile append are arbitrary. */
module Reconcile {
  import opened PyStrings
  import opened Wrappers

  import opened Memories
  import opened StoredText

  // ---------------------------------------------------------------------------
  // Candidates and reply
  // ---------------------------------------------------------------------------

  datatype Candidate = Candidate(title: string, content: string, project: string)

  /** A field of a reply: absent or falsy, a string, or something else that is truthy. */
  datatype Field = Absent | Str(text: string) | Other

  datatype Op = Add | Update | Supersede | Noop | Profile | Invalid

  datatype ProfileName = UserProfile | ProjectProfile | UnknownProfile

  datatype Item = Item(index: int, op: Op, target: Field, content: Field, profile: ProfileName, section: string)

  const EMPTY_ITEM := Item(0, Add, Absent, Absent, UnknownProfile, "")

  datatype Status = Appended | CompactedAppended | Duplicate | InvalidSection | RejectedFull | Error

  /** What the pass reads from outside: which candidates nearly repeat a memory, the stable id of
      a candidate in this session, fresh random ids, the security scan, the links written with
      a text, the schema of a profile and the result of the profile append of a candidate. */
  datatype Env = Env(
    nearExact: Candidate -> bool,
    stableId: Candidate -> Id,
    freshId: nat -> Id,
    threat: string -> bool,
    links: Linker,
    knownSection: (ProfileName, string) -> bool,
    append: nat -> Status)

  function StripDots(s: string): string {
    if s != "" && s[0] == '.' then StripDots(s[1..])
    else if s != "" && s[|s| - 1] == '.' then StripDots(s[..|s| - 1])
    else s
  }

  lemma {:induction false} StripDotsMeans(s: string) returns (a: nat, b: nat)
    ensures a <= b <= |s| && StripDots(s) == s[a..b]
    ensures forall i :: 0 <= i < |s| && !(a <= i < b) ==> s[i] == '.'
    ensures a < b ==> s[a] != '.' && s[b - 1] != '.'
  {
    if s != "" && s[0] == '.' {
      a, b := StripDotsMeans(s[1..]);
      a, b := a + 1, b + 1;
    } else if s != "" && s[|s| - 1] == '.' {
      a, b := StripDotsMeans(s[..|s| - 1]);
    } else {
      a, b := 0, |s|;
    }
  }

  /** A text is not junk if and only if ten characters lie between two that are no dots, once the
      white space around it is gone. */
  lemma JunkExactly(content: string)
    ensures |StripDots(Strip(content))| >= 10 <==>
            exists i, j :: 0 <= i <= j - 9 && j < |Strip(content)|
                           && Strip(content)[i] != '.' && Strip(content)[j] != '.'
  {
    var t := Strip(content);
    var a, b := StripDotsMeans(t);
    if b - a >= 10 {
      assert 0 <= a <= b - 1 - 9 && t[a] != '.' && t[b - 1] != '.';
    }
  }

  /** A new memory is refused when its text is junk or the scan objects to text or title. */
  predicate Makeable(env: Env, c: Candidate) {
    |StripDots(Strip(c.content))| >= 10 && !env.threat(c.content) && (c.title == "" || !env.threat(c.title))
  }

  lemma MakeableExactly(env: Env, c: Candidate)
    ensures Makeable(env, c) <==>
            && !env.threat(c.content) && (c.title != "" ==> !env.threat(c.title))
            && exists i, j :: 0 <= i <= j - 9 && j < |Strip(c.content)|
                              && Strip(c.content)[i] != '.' && Strip(c.content)[j] != '.'
  {
    JunkExactly(c.content);
  }

  function NewMem(env: Env, v: Vault, id: Id, c: Candidate): Mem { Fresh(Restored(env.links, v, id, c.content)) }

  function Matching(v: Vault, prefix: string): set<Id> { set id | id in v && prefix <= id }

  /** A full id, or a prefix of at least eight characters that fits one memory only. */
  ghost function Resolve(v: Vault, target: string): (r: Option<Id>)
    ensures r.Some? ==> r.value in v && target <= r.value
    ensures r.Some? <==> target in v || (|target| >= 8 && exists id :: Matching(v, target) == {id})
  {
    if target in v then Some(target)
    else if |target| >= 8 && exists id :: Matching(v, target) == {id} then
      var id :| Matching(v, target) == {id};
      assert id in Matching(v, target);
      Some(id)
    else None
  }

  // ---------------------------------------------------------------------------
  // One candidate
  // ---------------------------------------------------------------------------

  const CHANGE_CAP := 5
  const PROFILE_CAP := 3

  /** `calls` counts the calls of `append_fact`. */
  datatype State = State(vault: Vault, changes: nat, profileOps: nat, calls: nat, written: nat, skips: nat)

  datatype Decision =
    | ToAdd
    | ToUpdate(target: Id, text: string)
    | ToSupersede(target: Id)
    | ToSkip
    | Fails

  datatype Outcome =
    | Added(id: Id)
    | AlreadyThere(id: Id)
    | Updated(target: Id, text: string)
    | Superseded(target: Id, heir: Id)
    | InProfile(status: Status)
    | Skipped
    | Blocked

  predicate Took(s: Status) { s == Appended || s == CompactedAppended || s == Duplicate }

  /** The profile stage: the counters after it, and the operation to go on with, if any. */
  function Routed(env: Env, s: State, i: nat, c: Candidate, item: Item): (State, Option<Op>) {
    if item.op == Invalid then (s, Some(Add))
    else if item.op != Profile then (s, Some(item.op))
    else if item.profile == UnknownProfile || (item.profile == ProjectProfile && c.project == "general") then
      (s, Some(Add))
    else if s.profileOps >= PROFILE_CAP then (s.(profileOps := s.profileOps + 1), Some(Add))
    else if !env.knownSection(item.profile, item.section) then (s, Some(Add))
    else
      var s' := s.(profileOps := s.profileOps + 1, calls := s.calls + 1);
      if Took(env.append(i)) then (s', None) else (s', Some(Add))
  }

  function MergedText(c: Candidate, item: Item): string {
    if item.content.Str? && item.content.text != "" then item.content.text else c.content
  }

  predicate LongEnough(text: string, target: Mem) {
    |Strip(text)| >= 10 && 10 * |Strip(text)| >= 3 * |target.essence|
  }

  ghost predicate Usable(v: Vault, target: Field) {
    target.Str? && Resolve(v, target.text).Some? && !Protected(v[Resolve(v, target.text).value])
  }

  ghost function Decide(v: Vault, op: Op, c: Candidate, item: Item): Decision {
    if op == Noop then ToSkip
    else if op != Update && op != Supersede then ToAdd
    else if item.target.Other? then Fails
    else if !Usable(v, item.target) then ToAdd
    else
      var target := Resolve(v, item.target.text).value;
      if op == Supersede then ToSupersede(target)
      else if item.content.Other? then Fails
      else if LongEnough(MergedText(c, item), v[target]) then ToUpdate(target, MergedText(c, item))
      else ToAdd
  }

  predicate Changes(d: Decision) { d.ToUpdate? || d.ToSupersede? }

  function Capped(s: State, d: Decision): Decision {
    if Changes(d) && s.changes >= CHANGE_CAP then ToAdd else d
  }

  function Saved(env: Env, s: State, c: Candidate): State {
    var id := env.stableId(c);
    s.(vault := s.vault[id := NewMem(env, s.vault, id, c)], written := s.written + 1)
  }

  function Perform(env: Env, s: State, c: Candidate, d: Decision): (State, Outcome)
    requires Changes(d) ==> d.target in s.vault
  {
    match d
    case ToUpdate(target, text) =>
      if env.threat(text) then (s, Blocked)
      else
        var m := s.vault[target].(essence := Restored(env.links, s.vault, target, text));
        (s.(vault := s.vault[target := m], written := s.written + 1), Updated(target, text))
    case ToSupersede(target) =>
      if !Makeable(env, c) then (s, Blocked)
      else
        var id := env.stableId(c);
        var s' := if id in s.vault then s else Saved(env, s, c);
        (s'.(vault := Invalidated(env.links, s'.vault, target, id)), Superseded(target, id))
    case ToSkip => (s, Skipped)
    case _ =>
      if !Makeable(env, c) then (s, Blocked)
      else if env.stableId(c) in s.vault then (s.(skips := s.skips + 1), AlreadyThere(env.stableId(c)))
      else (Saved(env, s, c), Added(env.stableId(c)))
  }

  /** What a decision is about. */
  ghost predicate Fits(v: Vault, c: Candidate, item: Item, d: Decision) {
    match d
    case ToUpdate(target, text) =>
      && item.op == Update && item.target.Str? && item.target.text <= target
      && target in v && !Protected(v[target]) && text == MergedText(c, item) && LongEnough(text, v[target])
    case ToSupersede(target) =>
      && item.op == Supersede && item.target.Str? && item.target.text <= target
      && target in v && !Protected(v[target])
    case ToSkip => item.op == Noop
    case ToAdd => true
    case Fails => Escapes(v, item)
  }

  /** An exception escapes exactly when the target of a change is not a string, or the merged
      text of an update with a usable target is not. */
  ghost predicate Escapes(v: Vault, item: Item) {
    || ((item.op == Update || item.op == Supersede) && item.target.Other?)
    || (item.op == Update && item.content.Other? && item.target.Str?
        && exists id :: id in v && !Protected(v[id]) && Points(v, item.target.text, id))
  }

  /** A target names a memory by its full id or by a prefix that fits no other memory. */
  ghost predicate Points(v: Vault, target: string, id: Id) {
    || id == target
    || (target !in v && |target| >= 8 && target <= id && forall k :: k in v && target <= k ==> k == id)
  }

  lemma DecideFits(v: Vault, op: Op, c: Candidate, item: Item)
    requires op == item.op || op == Add
    ensures Fits(v, c, item, Decide(v, op, c, item))
    ensures op == item.op ==> (Decide(v, op, c, item).Fails? <==> Escapes(v, item))
  {
    if item.target.Str? {
      ResolvedPoints(v, item.target.text);
    }
  }

  lemma ResolvedPoints(v: Vault, target: string)
    ensures forall id :: id in v ==> (Resolve(v, target) == Some(id) <==> Points(v, target, id))
  {
    forall id | id in v && Points(v, target, id) ensures Resolve(v, target) == Some(id) {
      if id != target {
        assert Matching(v, target) == {id};
      }
    }
    if Resolve(v, target).Some? && target !in v {
      var id := Resolve(v, target).value;
      assert Matching(v, target) == {id};
      forall k | k in v && target <= k ensures k == id {
        assert k in Matching(v, target);
      }
    }
  }

  /** From a decision to the end of the step. */
  function Concluded(env: Env, s: State, c: Candidate, d: Decision): (State, Option<Outcome>)
    requires Changes(d) ==> d.target in s.vault
  {
    if d.Fails? then (s, None)
    else
      var counted := if Changes(d) then s.(changes := s.changes + 1) else s;
      var (s', outcome) := Perform(env, counted, c, Capped(s, d));
      (s', Some(outcome))
  }

  /** The state after one candidate and its outcome; no outcome when an exception escapes. */
  ghost function Step(env: Env, s: State, i: nat, c: Candidate, item: Item): (State, Option<Outcome>) {
    var (s1, op) := Routed(env, s, i, c, item);
    if op.None? then (s1, Some(InProfile(env.append(i))))
    else Concluded(env, s1, c, Decide(s1.vault, op.value, c, item))
  }

  // ---------------------------------------------------------------------------
  // The pass
  // ---------------------------------------------------------------------------

  /** The last item of the reply with that index. */
  function ItemFor(reply: seq<Item>, i: nat): Item {
    if reply == [] then EMPTY_ITEM
    else if reply[|reply| - 1].index == i then reply[|reply| - 1]
    else ItemFor(reply[..|reply| - 1], i)
  }

  /** The item of a candidate is the last one with its index; without one it is an addition. */
  lemma {:induction false} ItemForExactly(reply: seq<Item>, i: nat, k: nat)
    requires k <= |reply| && (k < |reply| ==> reply[k].index == i)
    requires forall m :: (if k < |reply| then k < m else 0 <= m) && m < |reply| ==> reply[m].index != i
    ensures k < |reply| ==> ItemFor(reply, i) == reply[k]
    ensures k == |reply| ==> ItemFor(reply, i).op == Add && ItemFor(reply, i).target.Absent?
  {
    if reply != [] && reply[|reply| - 1].index != i {
      var n := |reply| - 1;
      ItemForExactly(reply[..n], i, if k < n then k else n);
    }
  }

  datatype Result = Result(state: State, outcomes: seq<Outcome>, raised: bool)

  ghost function Pass(env: Env, s: State, cs: seq<Candidate>, reply: seq<Item>): Result
    decreases |cs|
  {
    if cs == [] then Result(s, [], false)
    else
      var front := Pass(env, s, cs[..|cs| - 1], reply);
      if front.raised then front
      else
        var i := |cs| - 1;
        var (s', outcome) := Step(env, front.state, i, cs[i], ItemFor(reply, i));
        match outcome
        case None => Result(s', front.outcomes, true)
        case Some(o) => Result(s', front.outcomes + [o], false)
  }

  function Start(v: Vault): State { State(v, 0, 0, 0, 0, 0) }

  /** The fallback saves every candidate under a fresh id, whatever the pass has done. */
  function FallbackAll(env: Env, v: Vault, cs: seq<Candidate>): Vault {
    if cs == [] then v
    else
      var n := |cs| - 1;
      var v' := FallbackAll(env, v, cs[..n]);
      var id := env.freshId(n);
      if Makeable(env, cs[n]) then v'[id := NewMem(env, v', id, cs[n])] else v'
  }

  /** Near-exact duplicates are set aside first, without asking for a reply. */
  function Surviving(env: Env, all: seq<Candidate>): seq<Candidate> {
    if all == [] then []
    else Surviving(env, all[..|all| - 1]) + if env.nearExact(all[|all| - 1]) then [] else [all[|all| - 1]]
  }

  /** The vault at the end of the reconcile path and whether an exception escaped it; there
      is no reply when the call fails or its output cannot be parsed. */
  ghost function Reconciled(env: Env, v: Vault, all: seq<Candidate>, reply: Option<seq<Item>>): (Vault, bool) {
    var cs := Surviving(env, all);
    if cs == [] then (v, false)
    else if reply.None? then (v, true)
    else
      var end := Pass(env, Start(v), cs, reply.value);
      (end.state.vault, end.raised)
  }

  ghost function WrittenVault(env: Env, v: Vault, all: seq<Candidate>, reply: Option<seq<Item>>): Vault {
    var (mid, raised) := Reconciled(env, v, all, reply);
    if raised then FallbackAll(env, mid, all) else mid
  }

  class Reconciler {
    const env: Env
    var vault: Vault
    var changes: nat
    var profileOps: nat
    var calls: nat
    var written: nat
    var skips: nat

    constructor (env: Env, vault: Vault)
      ensures this.env == env && View() == Start(vault) && changes == profileOps == calls == 0
    {
      this.env := env;
      this.vault := vault;
      changes, profileOps, calls, written, skips := 0, 0, 0, 0, 0;
    }

    function View(): State
      reads this
    {
      State(vault, changes, profileOps, calls, written, skips)
    }

    method FindUnambiguous(target: string) returns (found: Option<Id>)
      ensures found == Resolve(vault, target)
    {
      if target in vault {
        return Some(target);
      }
      if |target| >= 8 {
        var matches := Matching(vault, target);
        if |matches| == 1 {
          var id :| id in matches;
          OnlyMember(matches, id);
          return Some(id);
        }
      }
      return None;
    }

    /** The profile stage; `op` is what the candidate goes on with unless it is settled. */
    method Route(i: nat, c: Candidate, item: Item) returns (op: Op, settled: bool)
      modifies this
      ensures (View(), if settled then None else Some(op)) == Routed(env, old(View()), i, c, item)
    {
      op, settled := item.op, false;
      if op == Invalid {
        op := Add;
      }
      if op == Profile {
        if item.profile == UnknownProfile {
          op := Add;
        } else if item.profile == ProjectProfile && c.project == "general" {
          op := Add;
        } else {
          profileOps := profileOps + 1;
          if profileOps > PROFILE_CAP {
            op := Add;
          } else if !env.knownSection(item.profile, item.section) {
            profileOps := profileOps - 1;
            op := Add;
          } else {
            calls := calls + 1;
            var status := env.append(i);
            if status == Appended || status == CompactedAppended || status == Duplicate {
              settled := true;
            } else {
              op := Add;
            }
          }
        }
      }
    }

    /** Target resolution, the protected guard and the truncation guard. */
    method Aim(wanted: Op, c: Candidate, item: Item) returns (d: Decision)
      ensures d == Decide(vault, wanted, c, item)
    {
      var op := wanted;
      var target: Option<Id> := None;
      var targetLen := 0;
      if (op == Update || op == Supersede) && !item.target.Absent? {
        if item.target.Other? {
          return Fails;
        }
        var found := FindUnambiguous(item.target.text);
        if found.Some? && !Protected(vault[found.value]) {
          target, targetLen := found, |vault[found.value].essence|;
        } else {
          op := Add;
        }
      }
      if (op == Update || op == Supersede) && target.None? {
        op := Add;
      }
      var text := MergedText(c, item);
      if op == Update {
        if item.content.Other? {
          return Fails;
        }
        if |Strip(text)| < 10 || (targetLen != 0 && 10 * |Strip(text)| < 3 * targetLen) {
          op := Add;
        }
      }
      d := match op
        case Update => ToUpdate(target.value, text)
        case Supersede => ToSupersede(target.value)
        case Noop => ToSkip
        case _ => ToAdd;
    }

    method Save(c: Candidate, id: Id)
      requires id == env.stableId(c)
      modifies this
      ensures View() == Saved(env, old(View()), c)
    {
      vault := vault[id := NewMem(env, vault, id, c)];
      written := written + 1;
    }

    method Execute(c: Candidate, d: Decision) returns (outcome: Outcome)
      requires Changes(d) ==> d.target in vault
      requires !d.Fails?
      modifies this
      ensures (View(), outcome) == Perform(env, old(View()), c, d)
    {
      match d
      case ToAdd => outcome := PerformAdd(c);
      case ToUpdate(target, text) => outcome := PerformUpdate(c, target, text);
      case ToSupersede(target) => outcome := PerformSupersede(c, target);
      case ToSkip => outcome := Skipped;
    }

    method PerformAdd(c: Candidate) returns (outcome: Outcome)
      modifies this
      ensures (View(), outcome) == Perform(env, old(View()), c, ToAdd)
    {
      var id := env.stableId(c);
      if !Makeable(env, c) {
        return Blocked;
      }
      if id in vault {
        skips := skips + 1;
        return AlreadyThere(id);
      }
      Save(c, id);
      return Added(id);
    }

    method PerformUpdate(c: Candidate, target: Id, text: string) returns (outcome: Outcome)
      requires target in vault
      modifies this
      ensures (View(), outcome) == Perform(env, old(View()), c, ToUpdate(target, text))
    {
      if env.threat(text) {
        return Blocked;
      }
      vault := vault[target := vault[target].(essence := Restored(env.links, vault, target, text))];
      written := written + 1;
      return Updated(target, text);
    }

    method PerformSupersede(c: Candidate, target: Id) returns (outcome: Outcome)
      requires target in vault
      modifies this
      ensures (View(), outcome) == Perform(env, old(View()), c, ToSupersede(target))
    {
      var id := env.stableId(c);
      if !Makeable(env, c) {
        return Blocked;
      }
      if id !in vault {
        Save(c, id);
      }
      vault := Invalidated(env.links, vault, target, id);
      return Superseded(target, id);
    }

    method ReconcileOne(i: nat, c: Candidate, item: Item) returns (outcome: Option<Outcome>)
      modifies this
      ensures (View(), outcome) == Step(env, old(View()), i, c, item)
    {
      var op, settled := Route(i, c, item);
      if settled {
        return Some(InProfile(env.append(i)));
      }
      var d := Aim(op, c, item);
      if d.Fails? {
        return None;
      }
      outcome := Conclude(c, d);
    }

    method Conclude(c: Candidate, decided: Decision) returns (outcome: Option<Outcome>)
      requires Changes(decided) ==> decided.target in vault
      requires !decided.Fails?
      modifies this
      ensures (View(), outcome) == Concluded(env, old(View()), c, decided)
    {
      var d := decided;
      ghost var before := View();
      if Changes(d) {
        changes := changes + 1;
        if changes > CHANGE_CAP {
          d := ToAdd;
        }
      }
      assert d == Capped(before, decided);
      assert View() == if Changes(decided) then before.(changes := before.changes + 1) else before;
      var done := Execute(c, d);
      outcome := Some(done);
    }

    method Reconcile(cs: seq<Candidate>, reply: seq<Item>) returns (outcomes: seq<Outcome>, raised: bool)
      modifies this
      ensures Result(View(), outcomes, raised) == Pass(env, old(View()), cs, reply)
    {
      outcomes, raised := [], false;
      for i := 0 to |cs|
        invariant !raised && Result(View(), outcomes, raised) == Pass(env, old(View()), cs[..i], reply)
      {
        assert cs[..i + 1][..i] == cs[..i];
        var outcome := ReconcileOne(i, cs[i], ItemFor(reply, i));
        if outcome.None? {
          PassRaisedStays(env, old(View()), cs, reply, i + 1);
          raised := true;
          return;
        }
        outcomes := outcomes + [outcome.value];
      }
      assert cs[..|cs|] == cs;
    }

    method AddAll(cs: seq<Candidate>)
      modifies this
      ensures vault == FallbackAll(env, old(vault), cs)
    {
      for i := 0 to |cs|
        invariant vault == FallbackAll(env, old(vault), cs[..i])
      {
        assert cs[..i + 1][..i] == cs[..i];
        if Makeable(env, cs[i]) {
          var id := env.freshId(i);
          vault := vault[id := NewMem(env, vault, id, cs[i])];
          written := written + 1;
        }
      }
      assert cs[..|cs|] == cs;
    }

    method Survivors(all: seq<Candidate>) returns (cs: seq<Candidate>)
      ensures cs == Surviving(env, all)
    {
      cs := [];
      for i := 0 to |all|
        invariant cs == Surviving(env, all[..i])
      {
        assert all[..i + 1][..i] == all[..i];
        if !env.nearExact(all[i]) {
          cs := cs + [all[i]];
        }
      }
      assert all[..|all|] == all;
    }

    /** The caller: reconcile, and on an escaping exception add every candidate. */
    method Write(all: seq<Candidate>, reply: Option<seq<Item>>)
      requires View() == Start(vault)
      modifies this
      ensures vault == WrittenVault(env, old(vault), all, reply)
    {
      var cs := Survivors(all);
      if cs == [] {
        return;
      }
      var raised := true;
      if reply.Some? {
        var outcomes;
        outcomes, raised := Reconcile(cs, reply.value);
      }
      if raised {
        AddAll(all);
      }
    }
  }

  lemma OnlyMember(ids: set<Id>, id: Id)
    requires id in ids && |ids| == 1
    ensures ids == {id}
  {
    assert |ids - {id}| == 0;
  }

  lemma {:induction false} PassRaisedStays(env: Env, s: State, cs: seq<Candidate>, reply: seq<Item>, n: nat)
    requires n <= |cs| && Pass(env, s, cs[..n], reply).raised
    ensures Pass(env, s, cs, reply) == Pass(env, s, cs[..n], reply)
    decreases |cs|
  {
    if n == |cs| {
      assert cs[..n] == cs;
    } else {
      var front := cs[..|cs| - 1];
      assert front[..n] == cs[..n];
      PassRaisedStays(env, s, front, reply, n);
    }
  }

  // ---------------------------------------------------------------------------
  // What a pass leaves alone
  // ---------------------------------------------------------------------------

  function Changed(v0: Vault, v: Vault): set<Id> { set id | id in v0 && (id !in v || v[id] != v0[id]) }

  function Least(a: nat, b: nat): nat { if a < b then a else b }

  /** Nothing is lost, protection is as it was, protected memories are untouched, the caps hold. */
  predicate PassInv(v0: Vault, s: State) {
    && v0.Keys <= s.vault.Keys
    && (forall id :: id in v0 ==>
          s.vault[id].layer == v0[id].layer && s.vault[id].decayImmune == v0[id].decayImmune
          && (Protected(v0[id]) ==> s.vault[id] == v0[id]))
    && (forall id :: id in s.vault && id !in v0 ==> !Protected(s.vault[id]))
    && |Changed(v0, s.vault)| <= Least(s.changes, CHANGE_CAP)
    && s.calls <= s.profileOps && s.calls <= PROFILE_CAP
  }

  lemma ChangedGrows(v0: Vault, v: Vault, v': Vault, id: Id)
    requires v0.Keys <= v.Keys <= v'.Keys && forall k :: k in v && k != id ==> v'[k] == v[k]
    ensures |Changed(v0, v')| <= |Changed(v0, v)| + 1
    ensures id !in v0 ==> |Changed(v0, v')| <= |Changed(v0, v)|
  {
    if id in v0 {
      SubsetSize(Changed(v0, v'), Changed(v0, v) + {id});
    } else {
      SubsetSize(Changed(v0, v'), Changed(v0, v));
    }
  }

  lemma {:induction false} SubsetSize(a: set<Id>, b: set<Id>)
    requires a <= b
    ensures |a| <= |b|
  {
    assert b == a + (b - a);
  }

  lemma SaveKeeps(env: Env, v0: Vault, s: State, c: Candidate)
    requires PassInv(v0, s) && env.stableId(c) !in s.vault
    ensures PassInv(v0, Saved(env, s, c))
  {
    ChangedGrows(v0, s.vault, Saved(env, s, c).vault, env.stableId(c));
  }

  lemma ChangeKeeps(v0: Vault, s: State, target: Id, m: Mem)
    requires PassInv(v0, s) && s.changes < CHANGE_CAP && target in s.vault && !Protected(s.vault[target])
    requires m.layer == s.vault[target].layer && m.decayImmune == s.vault[target].decayImmune
    ensures PassInv(v0, s.(vault := s.vault[target := m], changes := s.changes + 1))
  {
    ChangedGrows(v0, s.vault, s.vault[target := m], target);
  }

  function BeforeSupersede(env: Env, s: State, c: Candidate): State {
    if env.stableId(c) in s.vault then s else Saved(env, s, c)
  }

  lemma SupersedeIs(env: Env, s: State, c: Candidate, target: Id)
    requires Makeable(env, c) && target in s.vault
    ensures var s1 := BeforeSupersede(env, s, c);
            && target in s1.vault
            && Perform(env, s.(changes := s.changes + 1), c, ToSupersede(target)).0 ==
                 s1.(vault := Invalidated(env.links, s1.vault, target, env.stableId(c)), changes := s1.changes + 1)
  {
  }

  lemma InvalidatedIs(links: Linker, v: Vault, target: Id, heir: Id)
    requires target in v
    ensures var m := Invalidated(links, v, target, heir)[target];
            && Invalidated(links, v, target, heir) == v[target := m]
            && m.layer == v[target].layer && m.decayImmune == v[target].decayImmune
  {
  }

  lemma SupersedeKeeps(env: Env, v0: Vault, s: State, c: Candidate, target: Id)
    requires PassInv(v0, s) && s.changes < CHANGE_CAP && target in s.vault && !Protected(s.vault[target])
    requires Makeable(env, c)
    ensures PassInv(v0, Perform(env, s.(changes := s.changes + 1), c, ToSupersede(target)).0)
  {
    var s1 := BeforeSupersede(env, s, c);
    if env.stableId(c) !in s.vault {
      SaveKeeps(env, v0, s, c);
      assert s1.vault[target] == s.vault[target];
    }
    SupersedeIs(env, s, c, target);
    InvalidatedIs(env.links, s1.vault, target, env.stableId(c));
    ChangeKeeps(v0, s1, target, Invalidated(env.links, s1.vault, target, env.stableId(c))[target]);
  }

  /** An allowed change: room under the cap, counted, and its target not protected. */
  lemma PerformKeeps(env: Env, v0: Vault, s: State, c: Candidate, d: Decision)
    requires PassInv(v0, s)
    requires Changes(d) ==> d.target in s.vault && !Protected(s.vault[d.target]) && s.changes < CHANGE_CAP
    ensures PassInv(v0, Perform(env, if Changes(d) then s.(changes := s.changes + 1) else s, c, d).0)
  {
    match d
    case ToUpdate(target, text) => UpdateKeeps(env, v0, s, c, target, text);
    case ToSupersede(target) =>
      if Makeable(env, c) {
        SupersedeKeeps(env, v0, s, c, target);
      }
    case ToSkip =>
    case _ => AddKeeps(env, v0, s, c, d);
  }

  lemma UpdateKeeps(env: Env, v0: Vault, s: State, c: Candidate, target: Id, text: string)
    requires PassInv(v0, s) && s.changes < CHANGE_CAP && target in s.vault && !Protected(s.vault[target])
    ensures PassInv(v0, Perform(env, s.(changes := s.changes + 1), c, ToUpdate(target, text)).0)
  {
    ChangeKeeps(v0, s, target, s.vault[target].(essence := Restored(env.links, s.vault, target, text)));
  }

  lemma AddKeeps(env: Env, v0: Vault, s: State, c: Candidate, d: Decision)
    requires PassInv(v0, s) && (d.ToAdd? || d.Fails?)
    ensures PassInv(v0, Perform(env, s, c, d).0)
  {
    if Makeable(env, c) && env.stableId(c) !in s.vault {
      SaveKeeps(env, v0, s, c);
    }
  }

  lemma RoutedKeeps(env: Env, v0: Vault, s: State, i: nat, c: Candidate, item: Item)
    ensures var (s1, op) := Routed(env, s, i, c, item);
            && s1.vault == s.vault && s1.changes == s.changes && s1.written == s.written && s1.skips == s.skips
            && (PassInv(v0, s) ==> PassInv(v0, s1))
            && (op.Some? ==> op.value == item.op || op.value == Add)
            && (op.Some? && op.value == Noop ==> item.op == Noop)
            && (op.None? ==> item.op == Profile && Took(env.append(i)))
            && (item.op == Update || item.op == Supersede ==> op == Some(item.op))
  {
  }

  lemma ConcludedKeeps(env: Env, v0: Vault, s: State, c: Candidate, item: Item, d: Decision)
    requires PassInv(v0, s) && Fits(s.vault, c, item, d)
    ensures PassInv(v0, Concluded(env, s, c, d).0)
  {
    if !d.Fails? {
      var capped := Capped(s, d);
      PerformKeeps(env, v0, if Changes(d) && !Changes(capped) then s.(changes := s.changes + 1) else s, c, capped);
    }
  }

  lemma StepKeeps(env: Env, v0: Vault, s: State, i: nat, c: Candidate, item: Item)
    requires PassInv(v0, s)
    ensures PassInv(v0, Step(env, s, i, c, item).0)
  {
    RoutedKeeps(env, v0, s, i, c, item);
    var (s1, op) := Routed(env, s, i, c, item);
    if op.Some? {
      DecideFits(s1.vault, op.value, c, item);
      ConcludedKeeps(env, v0, s1, c, item, Decide(s1.vault, op.value, c, item));
    }
  }

  lemma {:induction false} PassKeeps(env: Env, v0: Vault, s: State, cs: seq<Candidate>, reply: seq<Item>)
    requires PassInv(v0, s)
    ensures PassInv(v0, Pass(env, s, cs, reply).state)
    decreases |cs|
  {
    if cs != [] {
      PassKeeps(env, v0, s, cs[..|cs| - 1], reply);
      var front := Pass(env, s, cs[..|cs| - 1], reply);
      if !front.raised {
        StepKeeps(env, v0, front.state, |cs| - 1, cs[|cs| - 1], ItemFor(reply, |cs| - 1));
      }
    }
  }

  /** For any vault, candidates and reply, and even when an exception escapes: every protected
      memory is unchanged, at most five memories that were there before change, none is lost,
      and `append_fact` is called at most three times. */
  lemma {:induction false} PassIsSafe(env: Env, v: Vault, cs: seq<Candidate>, reply: seq<Item>)
    ensures var end := Pass(env, Start(v), cs, reply).state;
            && v.Keys <= end.vault.Keys
            && (forall id :: id in v && Protected(v[id]) ==> end.vault[id] == v[id])
            && (forall id :: id in end.vault && Protected(end.vault[id]) ==> id in v && Protected(v[id]))
            && |Changed(v, end.vault)| <= CHANGE_CAP
            && end.calls <= PROFILE_CAP
  {
    assert Changed(v, v) == {};
    PassKeeps(env, v, Start(v), cs, reply);
  }

  // ---------------------------------------------------------------------------
  // No update shrinks a memory to nothing
  // ---------------------------------------------------------------------------

  function Pow(b: nat, e: nat): nat { if e == 0 then 1 else b * Pow(b, e - 1) }

  /** At least 0.3^k of a starting length. */
  predicate Keeps(k: nat, start: nat, now: nat) { Pow(3, k) * start <= Pow(10, k) * now }

  lemma KeepsStep(k: nat, start: nat, now: nat, next: nat)
    requires Keeps(k, start, now) && 10 * next >= 3 * now
    ensures Keeps(k + 1, start, next)
  {
    var a, b := Pow(3, k), Pow(10, k);
    assert b * (10 * next) >= b * (3 * now);
    assert Pow(3, k + 1) * start == 3 * (a * start);
    assert Pow(10, k + 1) * next == b * (10 * next);
    assert b * (3 * now) == 3 * (b * now);
  }

  lemma {:induction false} KeepsLater(k: nat, m: nat, start: nat, now: nat)
    requires Keeps(k, start, now) && k <= m
    ensures Keeps(m, start, now)
  {
    if k < m {
      KeepsLater(k, m - 1, start, now);
      KeepsStep(m - 1, start, now, now);
    }
  }

  /** The truncation guard does what it is for, for a text, every target it admits and any links
      of the moment, if and only if the text is kept in full. */
  lemma GuardHoldsExactly(text: string)
    requires |Strip(text)| >= 10
    ensures KeptInFull(text) <==>
            forall links, m: Mem :: LongEnough(text, m) ==> 10 * |Stored(text, links)| >= 3 * |m.essence|
  {
    KeptInFullExactly(text);
    var longest := Fresh(seq(10 * |Strip(text)| / 3, _ => 'x'));
    assert LongEnough(text, longest);
    if forall links, m: Mem :: LongEnough(text, m) ==> 10 * |Stored(text, links)| >= 3 * |m.essence| {
      forall links ensures |Stored(text, links)| >= |Strip(text)| {
        assert 10 * |Stored(text, links)| >= 3 * |longest.essence|;
      }
    }
  }

  predicate EssenceKept(k: nat, before: Mem, now: Mem) {
    before.essence != "" ==> Settled(now.essence) && Keeps(k, |before.essence|, |now.essence|)
  }

  predicate EssencesKept(v0: Vault, s: State) {
    v0.Keys <= s.vault.Keys
    && forall id :: id in v0 ==> EssenceKept(Least(s.changes, CHANGE_CAP), v0[id], s.vault[id])
  }

  /** The merged texts of the updates a reply asks for are kept in full. */
  predicate UpdatesKept(cs: seq<Candidate>, reply: seq<Item>) {
    forall i: nat :: i < |cs| && ItemFor(reply, i).op == Update ==> KeptInFull(MergedText(cs[i], ItemFor(reply, i)))
  }

  lemma ChangedEssence(env: Env, s: State, c: Candidate, d: Decision, before: Mem, id: Id)
    requires Changes(d) && d.target in s.vault && id in s.vault && s.changes < CHANGE_CAP
    requires d.ToUpdate? ==> KeptInFull(d.text) && LongEnough(d.text, s.vault[d.target])
    requires EssenceKept(s.changes, before, s.vault[id])
    ensures var end := Perform(env, s.(changes := s.changes + 1), c, d).0;
            id in end.vault && EssenceKept(s.changes + 1, before, end.vault[id])
  {
    var end := Perform(env, s.(changes := s.changes + 1), c, d).0;
    if before.essence != "" {
      var now := s.vault[id].essence;
      if d.ToUpdate? && id == d.target {
        KeptSettles(d.text, env.links(s.vault, id, d.text));
      } else if d.ToSupersede? && id == d.target {
        var s1 := if env.stableId(c) in s.vault then s else Saved(env, s, c);
        InvalidatedPointsTo(env.links, s1.vault, id, env.stableId(c));
      }
      KeepsStep(s.changes, |before.essence|, |now|, |end.vault[id].essence|);
    }
  }

  lemma ConcludedKeepsEssences(env: Env, v0: Vault, s: State, c: Candidate, item: Item, d: Decision)
    requires EssencesKept(v0, s) && Fits(s.vault, c, item, d)
    requires item.op == Update ==> KeptInFull(MergedText(c, item))
    ensures EssencesKept(v0, Concluded(env, s, c, d).0)
  {
    if !d.Fails? && Changes(Capped(s, d)) {
      forall id | id in v0
        ensures var end := Perform(env, s.(changes := s.changes + 1), c, d).0;
                id in end.vault && EssenceKept(s.changes + 1, v0[id], end.vault[id])
      {
        ChangedEssence(env, s, c, d, v0[id], id);
      }
    }
  }

  lemma StepKeepsEssences(env: Env, v0: Vault, s: State, i: nat, c: Candidate, item: Item)
    requires EssencesKept(v0, s) && (item.op == Update ==> KeptInFull(MergedText(c, item)))
    ensures EssencesKept(v0, Step(env, s, i, c, item).0)
  {
    RoutedKeeps(env, v0, s, i, c, item);
    var (s1, op) := Routed(env, s, i, c, item);
    if op.Some? {
      DecideFits(s1.vault, op.value, c, item);
      ConcludedKeepsEssences(env, v0, s1, c, item, Decide(s1.vault, op.value, c, item));
    }
  }

  lemma FrontUpdatesKept(cs: seq<Candidate>, reply: seq<Item>, n: nat)
    requires UpdatesKept(cs, reply) && n < |cs|
    ensures UpdatesKept(cs[..n], reply)
    ensures ItemFor(reply, n).op == Update ==> KeptInFull(MergedText(cs[n], ItemFor(reply, n)))
  {
    forall i: nat | i < n && ItemFor(reply, i).op == Update
      ensures KeptInFull(MergedText(cs[..n][i], ItemFor(reply, i)))
    {
      assert cs[..n][i] == cs[i];
    }
  }

  lemma {:induction false} PassKeepsEssences(env: Env, v0: Vault, s: State, cs: seq<Candidate>, reply: seq<Item>)
    requires EssencesKept(v0, s) && UpdatesKept(cs, reply)
    ensures EssencesKept(v0, Pass(env, s, cs, reply).state)
    decreases |cs|
  {
    if cs != [] {
      var n := |cs| - 1;
      FrontUpdatesKept(cs, reply, n);
      PassKeepsEssences(env, v0, s, cs[..n], reply);
      var front := Pass(env, s, cs[..n], reply);
      if !front.raised {
        StepKeepsEssences(env, v0, front.state, n, cs[n], ItemFor(reply, n));
      }
    }
  }

  /** No pass takes an essence below 0.3^5 of its starting length, when the merged texts of its
      updates are kept in full and the essences of the vault are settled. */
  lemma {:induction false} EssenceBound(env: Env, v: Vault, cs: seq<Candidate>, reply: seq<Item>, id: Id)
    requires id in v && UpdatesKept(cs, reply)
    requires forall k :: k in v && v[k].essence != "" ==> Settled(v[k].essence)
    ensures var end := Pass(env, Start(v), cs, reply).state;
            id in end.vault && 243 * |v[id].essence| <= 100000 * |end.vault[id].essence|
  {
    PassKeepsEssences(env, v, Start(v), cs, reply);
    var end := Pass(env, Start(v), cs, reply).state;
    if v[id].essence != "" {
      KeepsLater(Least(end.changes, CHANGE_CAP), CHANGE_CAP, |v[id].essence|, |end.vault[id].essence|);
    }
    assert Pow(3, 5) == 243 && Pow(10, 5) == 100000 by {
      assert Pow(3, 2) == 9 && Pow(10, 2) == 100;
      assert Pow(3, 4) == 81 && Pow(10, 4) == 10000;
    }
  }

  lemma EmptyingUpdate(env: Env, v: Vault, id: Id, c: Candidate, text: string)
    requires id in v && !Protected(v[id]) && LongEnough(text, v[id]) && !env.threat(text)
    requires env.links(v, id, text) == [] && Stored(text, []) == ""
    ensures var item := Item(0, Update, Str(id), Str(text), UnknownProfile, "");
            var end := Pass(env, Start(v), [c], [item]).state.vault;
            id in end && end[id].essence == ""
  {
    UpdatePasses(env, v, id, c, text);
  }

  lemma LinksEmptied(text: string, m: Mem)
    requires text == LINKS && |m.essence| <= 60
    ensures LongEnough(text, m) && Stored(text, []) == ""
  {
    LinksLength();
    LinksAreEmptied(text);
  }

  /** The truncation guard measures a text before it is stored: a merged text that is nothing
      but generated links passes it and leaves a memory of up to 60 characters empty. */
  lemma LinksDefeatTheGuard(env: Env, v: Vault, id: Id, c: Candidate, text: string)
    requires id in v && !Protected(v[id]) && 0 < |v[id].essence| <= 60
    requires text == LINKS && !env.threat(text) && env.links(v, id, text) == []
    ensures var item := Item(0, Update, Str(id), Str(text), UnknownProfile, "");
            var end := Pass(env, Start(v), [c], [item]).state.vault;
            id in end && end[id].essence == ""
  {
    LinksEmptied(text, v[id]);
    EmptyingUpdate(env, v, id, c, text);
  }

  /** A pass of one update that nothing stops. */
  lemma UpdatePasses(env: Env, v: Vault, id: Id, c: Candidate, text: string)
    requires id in v && !Protected(v[id]) && LongEnough(text, v[id])
    ensures var item := Item(0, Update, Str(id), Str(text), UnknownProfile, "");
            var end := Pass(env, Start(v), [c], [item]);
            && !end.raised
            && (env.threat(text) ==> end.outcomes == [Blocked] && end.state.vault == v)
            && (!env.threat(text) ==>
                  end.state.vault == v[id := v[id].(essence := Restored(env.links, v, id, text))])
  {
    var item := Item(0, Update, Str(id), Str(text), UnknownProfile, "");
    assert text != "" by {
      assert Strip("") == "";
    }
    assert Resolve(v, id) == Some(id);
    assert ItemFor([item], 0) == item;
    assert [c][..0] == [];
    assert Pass(env, Start(v), [], [item]) == Result(Start(v), [], false);
    assert Step(env, Start(v), 0, c, item).1 == Some(if env.threat(text) then Blocked else Updated(id, text));
  }

  // ---------------------------------------------------------------------------
  // Every candidate has an outcome
  // ---------------------------------------------------------------------------

  /** What a candidate comes to after all degradations; none when a profile settles it. */
  ghost function Chosen(env: Env, s: State, i: nat, c: Candidate, item: Item): Option<Decision> {
    var (s1, op) := Routed(env, s, i, c, item);
    if op.None? then None else Some(Capped(s1, Decide(s1.vault, op.value, c, item)))
  }

  /** What an outcome says about the vault before and after. */
  ghost predicate Means(env: Env, v: Vault, v': Vault, c: Candidate, item: Item, o: Outcome) {
    match o
    case Added(id) =>
      id == env.stableId(c) && id !in v && id in v' && v' == v[id := v'[id]] && MadeFrom(v'[id], c.content)
    case AlreadyThere(id) => id == env.stableId(c) && id in v && v' == v
    case Updated(target, text) =>
      && item.op == Update && item.target.Str? && item.target.text <= target && text == MergedText(c, item)
      && target in v && !Protected(v[target]) && target in v'
      && v' == v[target := v[target].(essence := v'[target].essence)]
      && exists links :: v'[target].essence == Stored(text, links)
    case Superseded(target, heir) =>
      && item.op == Supersede && item.target.Str? && item.target.text <= target && target in v && !Protected(v[target])
      && heir == env.stableId(c) && heir in v' && target in v' && PointsTo(v[target], v'[target], heir)
      && (heir !in v ==> MadeFrom(v'[heir], c.content))
      && forall id :: id in v' && id != target && (id != heir || heir in v) ==> id in v && v'[id] == v[id]
    case InProfile(status) => item.op == Profile && Took(status) && v' == v
    case Skipped => item.op == Noop && v' == v
    case Blocked => v' == v && (!Makeable(env, c) || env.threat(MergedText(c, item)))
  }

  lemma PerformMeans(env: Env, s: State, c: Candidate, item: Item, d: Decision)
    requires Fits(s.vault, c, item, d) && !d.Fails?
    ensures var (s', o) := Perform(env, s, c, d); Means(env, s.vault, s'.vault, c, item, o)
  {
    if d.ToSupersede? {
      SupersedeMeans(env, s, c, item, d);
    } else {
      FreshIsMade(env.links, s.vault, env.stableId(c), c.content);
    }
  }

  lemma SupersedeMeans(env: Env, s: State, c: Candidate, item: Item, d: Decision)
    requires Fits(s.vault, c, item, d) && d.ToSupersede?
    ensures var (s', o) := Perform(env, s, c, d); Means(env, s.vault, s'.vault, c, item, o)
  {
    var id := env.stableId(c);
    FreshIsMade(env.links, s.vault, id, c.content);
    if Makeable(env, c) {
      InvalidatedPointsTo(env.links, BeforeSupersede(env, s, c).vault, d.target, id);
    }
  }

  lemma PerformKeepsIds(env: Env, s: State, c: Candidate, d: Decision)
    requires Changes(d) ==> d.target in s.vault
    ensures s.vault.Keys <= Perform(env, s, c, d).0.vault.Keys
  {
  }

  predicate Blocks(env: Env, c: Candidate, d: Decision) {
    match d
    case ToUpdate(_, text) => env.threat(text)
    case ToAdd => !Makeable(env, c)
    case ToSupersede(_) => !Makeable(env, c)
    case _ => false
  }

  lemma ConcludedMeans(env: Env, s: State, c: Candidate, item: Item, d: Decision)
    requires Fits(s.vault, c, item, d)
    ensures var (s', o) := Concluded(env, s, c, d);
            && s.vault.Keys <= s'.vault.Keys
            && (o.None? <==> d.Fails?)
            && (o.Some? ==> Means(env, s.vault, s'.vault, c, item, o.value))
            && (o == Some(Blocked) <==> Blocks(env, c, Capped(s, d)))
  {
    if !d.Fails? {
      var counted := if Changes(d) then s.(changes := s.changes + 1) else s;
      PerformMeans(env, counted, c, item, Capped(s, d));
      PerformKeepsIds(env, counted, c, Capped(s, d));
    }
  }

  /** Every candidate has exactly one outcome and the outcome tells what happened, unless an
      exception escapes; it is dropped exactly when the scan objects to the merged text of its
      update, or a memory made from it is refused. */
  lemma {:induction false} StepMeaning(env: Env, s: State, i: nat, c: Candidate, item: Item)
    ensures var (s', o) := Step(env, s, i, c, item);
            && s.vault.Keys <= s'.vault.Keys
            && (o.None? <==> Escapes(s.vault, item))
            && (o.Some? ==> Means(env, s.vault, s'.vault, c, item, o.value))
            && (o == Some(Blocked) <==>
                  var d := Chosen(env, s, i, c, item); d.Some? && Blocks(env, c, d.value))
  {
    RoutedKeeps(env, s.vault, s, i, c, item);
    var (s1, op) := Routed(env, s, i, c, item);
    if op.Some? {
      DecideFits(s1.vault, op.value, c, item);
      ConcludedMeans(env, s1, c, item, Decide(s1.vault, op.value, c, item));
    }
  }

  // ---------------------------------------------------------------------------
  // Which outcome a candidate gets
  // ---------------------------------------------------------------------------

  /** The item names a memory that it may change: in full or by an unambiguous prefix, not in
      layer 0 and not immune. */
  ghost predicate Aims(v: Vault, item: Item, op: Op, id: Id) {
    && item.op == op && item.target.Str? && id in v && Points(v, item.target.text, id)
    && v[id].layer != 0 && !v[id].decayImmune
  }

  /** The text of an update: the reply's content or, when that is empty or missing, the candidate's own. */
  predicate Gives(c: Candidate, item: Item, text: string) {
    match item.content
    case Str(given) => text == if given != "" then given else c.content
    case Absent => text == c.content
    case Other => false
  }

  /** An update of `id` with a text of ten characters and 30% of the essence it replaces. */
  ghost predicate AimsUpdate(v: Vault, c: Candidate, item: Item, id: Id, text: string) {
    && Aims(v, item, Update, id) && Gives(c, item, text)
    && |Strip(text)| >= 10 && 10 * |Strip(text)| >= 3 * |v[id].essence|
  }

  /** At most five of them are carried out. */
  ghost predicate Updates(s: State, c: Candidate, item: Item, id: Id, text: string) {
    AimsUpdate(s.vault, c, item, id, text) && s.changes < 5
  }

  ghost predicate Supersedes(s: State, item: Item, id: Id) { Aims(s.vault, item, Supersede, id) && s.changes < 5 }

  /** The item names a profile that exists for the candidate. */
  predicate ForProfile(c: Candidate, item: Item) {
    item.op == Profile && (item.profile == UserProfile || (item.profile == ProjectProfile && c.project != "general"))
  }

  /** The fact is passed on to the profile. */
  predicate Appends(env: Env, s: State, c: Candidate, item: Item) {
    ForProfile(c, item) && s.profileOps < 3 && env.knownSection(item.profile, item.section)
  }

  predicate Settles(env: Env, s: State, i: nat, c: Candidate, item: Item) {
    Appends(env, s, c, item) && env.append(i) in {Appended, CompactedAppended, Duplicate}
  }

  /** None of these: the candidate is to be added. */
  ghost predicate IsForAdding(env: Env, s: State, i: nat, c: Candidate, item: Item) {
    && item.op != Noop && !Escapes(s.vault, item) && !Settles(env, s, i, c, item)
    && (forall id :: !Supersedes(s, item, id)) && forall id, text :: !Updates(s, c, item, id, text)
  }

  lemma PointsOnce(v: Vault, target: string, id: Id)
    requires id in v && Points(v, target, id)
    ensures Resolve(v, target) == Some(id)
    ensures forall k :: k in v && Points(v, target, k) ==> k == id
  {
    ResolvedPoints(v, target);
  }

  /** What `Decide` makes of an update or replacement, in these terms. */
  lemma DecideExactly(v: Vault, c: Candidate, item: Item, id: Id, text: string)
    ensures Decide(v, item.op, c, item) == ToUpdate(id, text) <==> AimsUpdate(v, c, item, id, text)
    ensures Decide(v, item.op, c, item) == ToSupersede(id) <==> Aims(v, item, Supersede, id)
  {
    if item.target.Str? {
      ResolvedPoints(v, item.target.text);
    }
  }

  lemma RoutedExactly(env: Env, s: State, i: nat, c: Candidate, item: Item)
    ensures var (s1, op) := Routed(env, s, i, c, item);
            && (op.None? <==> Settles(env, s, i, c, item))
            && (op.Some? ==> op.value == if item.op == Profile || item.op == Invalid then Add else item.op)
            && s1.profileOps == s.profileOps
                 + (if ForProfile(c, item) && (Appends(env, s, c, item) || s.profileOps >= 3) then 1 else 0)
            && s1.calls == s.calls + (if Appends(env, s, c, item) then 1 else 0)
            && s1 == s.(profileOps := s1.profileOps, calls := s1.calls)
  {
  }

  /** The decision of a step once the cap is applied. */
  lemma ChosenExactly(env: Env, s: State, i: nat, c: Candidate, item: Item, id: Id, text: string)
    ensures var d := Chosen(env, s, i, c, item);
            && (d.None? <==> Settles(env, s, i, c, item))
            && (d == Some(ToUpdate(id, text)) <==> Updates(s, c, item, id, text))
            && (d == Some(ToSupersede(id)) <==> Supersedes(s, item, id))
            && (d == Some(ToSkip) <==> item.op == Noop)
            && (d == Some(Fails) <==> Escapes(s.vault, item))
  {
    RoutedExactly(env, s, i, c, item);
    DecideExactly(s.vault, c, item, id, text);
    DecideFits(s.vault, item.op, c, item);
  }

  /** The same for all targets and texts at once. */
  lemma AllChosenExactly(env: Env, s: State, i: nat, c: Candidate, item: Item)
    ensures var d := Chosen(env, s, i, c, item);
            && (forall id, text :: d == Some(ToUpdate(id, text)) <==> Updates(s, c, item, id, text))
            && (forall id :: d == Some(ToSupersede(id)) <==> Supersedes(s, item, id))
  {
    var d := Chosen(env, s, i, c, item);
    forall id, text ensures d == Some(ToUpdate(id, text)) <==> Updates(s, c, item, id, text) {
      ChosenExactly(env, s, i, c, item, id, text);
    }
    forall id ensures d == Some(ToSupersede(id)) <==> Supersedes(s, item, id) {
      ChosenExactly(env, s, i, c, item, id, "");
    }
  }

  lemma AddingIsChosen(env: Env, s: State, i: nat, c: Candidate, item: Item)
    ensures Chosen(env, s, i, c, item) == Some(ToAdd) <==> IsForAdding(env, s, i, c, item)
  {
    ChosenExactly(env, s, i, c, item, "", "");
    AllChosenExactly(env, s, i, c, item);
    var d := Chosen(env, s, i, c, item);
    assert d.Some? && d.value.ToUpdate? ==> Updates(s, c, item, d.value.target, d.value.text);
    assert d.Some? && d.value.ToSupersede? ==> Supersedes(s, item, d.value.target);
  }

  /** The outcome that goes with a decision. */
  function OutcomeOf(env: Env, v: Vault, c: Candidate, d: Decision): Option<Outcome> {
    match d
    case ToUpdate(id, text) => Some(if env.threat(text) then Blocked else Updated(id, text))
    case ToSupersede(id) => Some(if Makeable(env, c) then Superseded(id, env.stableId(c)) else Blocked)
    case ToSkip => Some(Skipped)
    case Fails => None
    case ToAdd =>
      var id := env.stableId(c);
      Some(if !Makeable(env, c) then Blocked else if id in v then AlreadyThere(id) else Added(id))
  }

  lemma StepOutcome(env: Env, s: State, i: nat, c: Candidate, item: Item)
    ensures var d := Chosen(env, s, i, c, item);
            Step(env, s, i, c, item).1 ==
              if d.None? then Some(InProfile(env.append(i))) else OutcomeOf(env, s.vault, c, d.value)
  {
    RoutedExactly(env, s, i, c, item);
    if Chosen(env, s, i, c, item).Some? {
      DecideFits(s.vault, Routed(env, s, i, c, item).1.value, c, item);
    }
  }

  /** Updates and replacements happen exactly when the item asks for them by a usable target,
      with a long enough text, under the cap, and neither scan nor junk check objects. */
  lemma ChangesExactly(env: Env, s: State, i: nat, c: Candidate, item: Item, id: Id, text: string)
    ensures var o := Step(env, s, i, c, item).1;
            && (o == Some(Updated(id, text)) <==> Updates(s, c, item, id, text) && !env.threat(text))
            && (o == Some(Superseded(id, env.stableId(c))) <==> Supersedes(s, item, id) && Makeable(env, c))
  {
    StepOutcome(env, s, i, c, item);
    ChosenExactly(env, s, i, c, item, id, text);
  }

  /** When the other outcomes occur. */
  lemma OthersExactly(env: Env, s: State, i: nat, c: Candidate, item: Item)
    ensures var o, id := Step(env, s, i, c, item).1, env.stableId(c);
            && (o == Some(InProfile(env.append(i))) <==> Settles(env, s, i, c, item))
            && (o == Some(Skipped) <==> item.op == Noop)
            && (o == Some(Added(id)) <==> IsForAdding(env, s, i, c, item) && Makeable(env, c) && id !in s.vault)
            && (o == Some(AlreadyThere(id)) <==> IsForAdding(env, s, i, c, item) && Makeable(env, c) && id in s.vault)
            && (o == Some(Blocked) <==>
                  || (!Makeable(env, c) && IsForAdding(env, s, i, c, item))
                  || (!Makeable(env, c) && exists k :: Supersedes(s, item, k))
                  || exists k, text :: Updates(s, c, item, k, text) && env.threat(text))
  {
    StepOutcome(env, s, i, c, item);
    AddingIsChosen(env, s, i, c, item);
    ChosenExactly(env, s, i, c, item, "", "");
    AllChosenExactly(env, s, i, c, item);
  }

  /** The item asks for a change of a memory it may change. */
  ghost predicate AsksForChange(v: Vault, c: Candidate, item: Item) {
    (exists id :: Aims(v, item, Supersede, id)) || exists id, text :: AimsUpdate(v, c, item, id, text)
  }

  lemma DecideChanges(v: Vault, c: Candidate, item: Item)
    ensures Changes(Decide(v, item.op, c, item)) <==> AsksForChange(v, c, item)
  {
    match Decide(v, item.op, c, item)
    case ToUpdate(id, text) => DecideExactly(v, c, item, id, text);
    case ToSupersede(id) => DecideExactly(v, c, item, id, "");
    case _ =>
      forall id ensures !Aims(v, item, Supersede, id) {
        DecideExactly(v, c, item, id, "");
      }
      forall id, text ensures !AimsUpdate(v, c, item, id, text) {
        DecideExactly(v, c, item, id, text);
      }
  }

  /** The counters of a pass: every change asked for with a usable target counts, carried out or
      not; of profile items those that reach the profile and those over the cap. */
  lemma CountersExactly(env: Env, s: State, i: nat, c: Candidate, item: Item)
    ensures var (s', o) := Step(env, s, i, c, item);
            && s'.changes == s.changes + (if AsksForChange(s.vault, c, item) then 1 else 0)
            && s'.profileOps == s.profileOps
                 + (if ForProfile(c, item) && (Appends(env, s, c, item) || s.profileOps >= 3) then 1 else 0)
            && s'.calls == s.calls + (if Appends(env, s, c, item) then 1 else 0)
            && s'.written == s.written + (match o
                                          case Some(Added(_)) => 1
                                          case Some(Updated(_, _)) => 1
                                          case Some(Superseded(_, heir)) => if heir in s.vault then 0 else 1
                                          case _ => 0)
            && s'.skips == s.skips + (if o.Some? && o.value.AlreadyThere? then 1 else 0)
  {
    RoutedExactly(env, s, i, c, item);
    DecideChanges(s.vault, c, item);
    if !Settles(env, s, i, c, item) {
      DecideFits(s.vault, Routed(env, s, i, c, item).1.value, c, item);
    }
  }

  /** How many of the first n candidates ask for a change when it is their turn. */
  ghost function Asked(env: Env, v: Vault, cs: seq<Candidate>, reply: seq<Item>, n: nat): nat
    requires n <= |cs|
  {
    if n == 0 then 0
    else
      var before := Pass(env, Start(v), cs[..n - 1], reply);
      Asked(env, v, cs, reply, n - 1)
      + if !before.raised && AsksForChange(before.state.vault, cs[n - 1], ItemFor(reply, n - 1)) then 1 else 0
  }

  lemma {:induction false} AskedCounted(env: Env, v: Vault, cs: seq<Candidate>, reply: seq<Item>, n: nat)
    requires n <= |cs| && !Pass(env, Start(v), cs[..n], reply).raised
    ensures Pass(env, Start(v), cs[..n], reply).state.changes == Asked(env, v, cs, reply, n)
  {
    if n > 0 {
      assert cs[..n][..n - 1] == cs[..n - 1];
      AskedCounted(env, v, cs, reply, n - 1);
      var before := Pass(env, Start(v), cs[..n - 1], reply).state;
      CountersExactly(env, before, n - 1, cs[n - 1], ItemFor(reply, n - 1));
    } else {
      assert cs[..0] == [];
    }
  }

  /** The first five changes a reply asks for are not turned into additions, the later ones are. */
  lemma FirstFiveChanges(env: Env, v: Vault, cs: seq<Candidate>, reply: seq<Item>, n: nat)
    requires n < |cs| && !Pass(env, Start(v), cs[..n], reply).raised
    ensures var before, item := Pass(env, Start(v), cs[..n], reply).state, ItemFor(reply, n);
            AsksForChange(before.vault, cs[n], item) ==>
              (IsForAdding(env, before, n, cs[n], item) <==> Asked(env, v, cs, reply, n) >= 5)
  {
    AskedCounted(env, v, cs, reply, n);
    var before, item := Pass(env, Start(v), cs[..n], reply).state, ItemFor(reply, n);
    if AsksForChange(before.vault, cs[n], item) {
      DecideChanges(before.vault, cs[n], item);
      DecideFits(before.vault, item.op, cs[n], item);
      if id :| Aims(before.vault, item, Supersede, id) {
        assert before.changes < 5 ==> Supersedes(before, item, id);
      } else {
        var id, text :| AimsUpdate(before.vault, cs[n], item, id, text);
        assert before.changes < 5 ==> Updates(before, cs[n], item, id, text);
      }
    }
  }

  /** What stays true of an outcome whatever happens later. */
  predicate Lasts(env: Env, v: Vault, c: Candidate, item: Item, o: Outcome) {
    match o
    case Added(id) => id == env.stableId(c) && id in v
    case AlreadyThere(id) => id == env.stableId(c) && id in v
    case Updated(target, text) => target in v && text == MergedText(c, item)
    case Superseded(target, heir) => target in v && heir == env.stableId(c) && heir in v
    case InProfile(status) => Took(status)
    case Skipped => item.op == Noop
    case Blocked => !Makeable(env, c) || env.threat(MergedText(c, item))
  }

  /** What the last candidate of a pass adds to it. */
  lemma PassStep(env: Env, s: State, cs: seq<Candidate>, reply: seq<Item>)
    requires cs != [] && !Pass(env, s, cs[..|cs| - 1], reply).raised
    ensures var n := |cs| - 1;
            var front, end := Pass(env, s, cs[..n], reply), Pass(env, s, cs, reply);
            && front.state.vault.Keys <= end.state.vault.Keys
            && (end.raised <==> Escapes(front.state.vault, ItemFor(reply, n)))
            && (end.raised ==> end.outcomes == front.outcomes)
            && (!end.raised ==>
                  && |end.outcomes| == |front.outcomes| + 1 && end.outcomes[..|front.outcomes|] == front.outcomes
                  && Means(env, front.state.vault, end.state.vault, cs[n], ItemFor(reply, n),
                           end.outcomes[|front.outcomes|]))
  {
    var n := |cs| - 1;
    var front := Pass(env, s, cs[..n], reply);
    StepMeaning(env, front.state, n, cs[n], ItemFor(reply, n));
  }

  /** No candidate is silently dropped: unless an exception escapes there is an outcome for
      each, and it is Blocked only for a text the scan or the junk check refuses. */
  lemma {:induction false} NoCandidateDropped(env: Env, s: State, cs: seq<Candidate>, reply: seq<Item>)
    ensures var end := Pass(env, s, cs, reply);
            && |end.outcomes| <= |cs| && (end.raised <==> |end.outcomes| < |cs|)
            && forall i: nat :: i < |end.outcomes| ==>
                 Lasts(env, end.state.vault, cs[i], ItemFor(reply, i), end.outcomes[i])
    decreases |cs|
  {
    if cs != [] {
      var n := |cs| - 1;
      var front, end := Pass(env, s, cs[..n], reply), Pass(env, s, cs, reply);
      NoCandidateDropped(env, s, cs[..n], reply);
      if !front.raised {
        PassStep(env, s, cs, reply);
        AllLast(env, front, end, cs, reply);
      }
    }
  }

  lemma AllLast(env: Env, front: Result, end: Result, cs: seq<Candidate>, reply: seq<Item>)
    requires cs != [] && |front.outcomes| == |cs| - 1 && front.outcomes <= end.outcomes && |end.outcomes| <= |cs|
    requires front.state.vault.Keys <= end.state.vault.Keys
    requires forall i: nat :: i < |cs| - 1 ==>
               Lasts(env, front.state.vault, cs[..|cs| - 1][i], ItemFor(reply, i), front.outcomes[i])
    requires var n := |cs| - 1;
             |end.outcomes| == |cs| ==>
               Means(env, front.state.vault, end.state.vault, cs[n], ItemFor(reply, n), end.outcomes[n])
    ensures forall i: nat :: i < |end.outcomes| ==>
              Lasts(env, end.state.vault, cs[i], ItemFor(reply, i), end.outcomes[i])
  {
    var n := |cs| - 1;
    forall i: nat | i < |end.outcomes|
      ensures Lasts(env, end.state.vault, cs[i], ItemFor(reply, i), end.outcomes[i])
    {
      if i < n {
        assert cs[..n][i] == cs[i];
        LastsOn(env, front.state.vault, end.state.vault, cs[i], ItemFor(reply, i), front.outcomes[i]);
      } else {
        MeansLasts(env, front.state.vault, end.state.vault, cs[n], ItemFor(reply, n), end.outcomes[n]);
      }
    }
  }

  lemma LastsOn(env: Env, v: Vault, v': Vault, c: Candidate, item: Item, o: Outcome)
    requires Lasts(env, v, c, item, o) && v.Keys <= v'.Keys
    ensures Lasts(env, v', c, item, o)
  {
  }

  lemma MeansLasts(env: Env, v: Vault, v': Vault, c: Candidate, item: Item, o: Outcome)
    requires Means(env, v, v', c, item, o)
    ensures Lasts(env, v', c, item, o)
  {
  }

  /** The first candidate whose item lets an exception escape. */
  ghost predicate EscapesAt(env: Env, s: State, cs: seq<Candidate>, reply: seq<Item>, i: nat)
    requires i < |cs|
  {
    var front := Pass(env, s, cs[..i], reply);
    !front.raised && Escapes(front.state.vault, ItemFor(reply, i))
  }

  lemma RaisesAtLast(env: Env, s: State, cs: seq<Candidate>, reply: seq<Item>)
    requires cs != []
    ensures Pass(env, s, cs, reply).raised <==>
            Pass(env, s, cs[..|cs| - 1], reply).raised || EscapesAt(env, s, cs, reply, |cs| - 1)
  {
    if !Pass(env, s, cs[..|cs| - 1], reply).raised {
      PassStep(env, s, cs, reply);
    }
  }

  lemma EscapesInFront(env: Env, s: State, cs: seq<Candidate>, reply: seq<Item>, n: nat, i: nat)
    requires i < n <= |cs|
    ensures EscapesAt(env, s, cs[..n], reply, i) <==> EscapesAt(env, s, cs, reply, i)
  {
    assert cs[..n][..i] == cs[..i];
  }

  ghost predicate EscapesSomewhere(env: Env, s: State, cs: seq<Candidate>, reply: seq<Item>) {
    exists i: nat :: i < |cs| && EscapesAt(env, s, cs, reply, i)
  }

  lemma EscapesSnoc(env: Env, s: State, cs: seq<Candidate>, reply: seq<Item>)
    requires cs != []
    ensures EscapesSomewhere(env, s, cs, reply) <==>
            EscapesSomewhere(env, s, cs[..|cs| - 1], reply) || EscapesAt(env, s, cs, reply, |cs| - 1)
  {
    var n := |cs| - 1;
    forall i: nat | i < n ensures EscapesAt(env, s, cs[..n], reply, i) <==> EscapesAt(env, s, cs, reply, i) {
      EscapesInFront(env, s, cs, reply, n, i);
    }
  }

  /** An exception escapes a pass if and only if it escapes one of its candidates. */
  lemma {:induction false} RaisesExactly(env: Env, s: State, cs: seq<Candidate>, reply: seq<Item>)
    ensures Pass(env, s, cs, reply).raised <==> EscapesSomewhere(env, s, cs, reply)
    decreases |cs|
  {
    if cs != [] {
      RaisesExactly(env, s, cs[..|cs| - 1], reply);
      RaisesAtLast(env, s, cs, reply);
      EscapesSnoc(env, s, cs, reply);
    }
  }

  predicate AllStrings(reply: seq<Item>) {
    forall i :: 0 <= i < |reply| ==> !reply[i].target.Other? && !reply[i].content.Other?
  }

  lemma {:induction false} ItemIsGiven(reply: seq<Item>, i: nat)
    ensures ItemFor(reply, i) == EMPTY_ITEM || ItemFor(reply, i) in reply
  {
    if reply != [] {
      ItemIsGiven(reply[..|reply| - 1], i);
    }
  }

  /** A reply whose targets and contents are strings or absent raises nothing, so every
      candidate has its outcome. */
  lemma StringsNeverRaise(env: Env, s: State, cs: seq<Candidate>, reply: seq<Item>)
    requires AllStrings(reply)
    ensures var end := Pass(env, s, cs, reply);
            && !end.raised && |end.outcomes| == |cs|
            && forall i: nat :: i < |cs| ==>
                 Lasts(env, end.state.vault, cs[i], ItemFor(reply, i), end.outcomes[i])
  {
    RaisesExactly(env, s, cs, reply);
    NoCandidateDropped(env, s, cs, reply);
    forall i: nat | i < |cs| ensures !EscapesAt(env, s, cs, reply, i) {
      ItemIsGiven(reply, i);
    }
  }

  predicate Creates(o: Outcome, id: Id) { o == Added(id) || (o.Superseded? && o.heir == id) }

  lemma CreatedIs(env: Env, v: Vault, v': Vault, c: Candidate, item: Item, o: Outcome, id: Id)
    requires Means(env, v, v', c, item, o) && v.Keys <= v'.Keys
    ensures id in v' <==> id in v || Creates(o, id)
  {
  }

  /** A pass puts an id into the vault exactly where an outcome says so. */
  lemma {:induction false} NewIdsExactly(env: Env, s: State, cs: seq<Candidate>, reply: seq<Item>, id: Id)
    ensures var end := Pass(env, s, cs, reply);
            id in end.state.vault <==>
              id in s.vault || exists i :: 0 <= i < |end.outcomes| && Creates(end.outcomes[i], id)
    decreases |cs|
  {
    if cs != [] {
      var n := |cs| - 1;
      var front, end := Pass(env, s, cs[..n], reply), Pass(env, s, cs, reply);
      NewIdsExactly(env, s, cs[..n], reply, id);
      if !front.raised {
        PassStep(env, s, cs, reply);
        if end.raised {
          StepMeaning(env, front.state, n, cs[n], ItemFor(reply, n));
        } else {
          var last := end.outcomes[|front.outcomes|];
          CreatedIs(env, front.state.vault, end.state.vault, cs[n], ItemFor(reply, n), last, id);
          forall i | 0 <= i < |front.outcomes| ensures end.outcomes[i] == front.outcomes[i] {
            assert end.outcomes[..|front.outcomes|][i] == front.outcomes[i];
          }
        }
      }
    }
  }

  // ---------------------------------------------------------------------------
  // Mining the same text again
  // ---------------------------------------------------------------------------

  /** Every decision of the pass is, or degrades to, a plain addition. */
  ghost predicate AllAdd(env: Env, s: State, cs: seq<Candidate>, reply: seq<Item>)
    decreases |cs|
  {
    cs != [] ==>
      var n := |cs| - 1;
      var front := Pass(env, s, cs[..n], reply);
      && AllAdd(env, s, cs[..n], reply) && !front.raised
      && Chosen(env, front.state, n, cs[n], ItemFor(reply, n)) == Some(ToAdd)
  }

  lemma AddStep(env: Env, s: State, i: nat, c: Candidate, item: Item)
    requires Chosen(env, s, i, c, item) == Some(ToAdd)
    ensures var (s', o) := Step(env, s, i, c, item);
            o.Some? && s.vault.Keys <= s'.vault.Keys && (Makeable(env, c) ==> env.stableId(c) in s'.vault)
  {
    StepMeaning(env, s, i, c, item);
    RoutedKeeps(env, s.vault, s, i, c, item);
  }

  /** Every candidate that can be made has its stable id in the vault. */
  predicate AllThere(env: Env, v: Vault, cs: seq<Candidate>) {
    forall i :: 0 <= i < |cs| && Makeable(env, cs[i]) ==> env.stableId(cs[i]) in v
  }

  lemma OneMoreThere(env: Env, v: Vault, v': Vault, cs: seq<Candidate>)
    requires cs != [] && AllThere(env, v, cs[..|cs| - 1]) && v.Keys <= v'.Keys
    requires Makeable(env, cs[|cs| - 1]) ==> env.stableId(cs[|cs| - 1]) in v'
    ensures AllThere(env, v', cs)
  {
    forall i | 0 <= i < |cs| && Makeable(env, cs[i]) ensures env.stableId(cs[i]) in v' {
      if i < |cs| - 1 {
        assert cs[..|cs| - 1][i] == cs[i];
        assert env.stableId(cs[i]) in v;
      }
    }
  }

  lemma {:induction false} AddsAreThere(env: Env, s: State, cs: seq<Candidate>, reply: seq<Item>)
    requires AllAdd(env, s, cs, reply)
    ensures var end := Pass(env, s, cs, reply); !end.raised && AllThere(env, end.state.vault, cs)
    decreases |cs|
  {
    if cs != [] {
      var n := |cs| - 1;
      AddsAreThere(env, s, cs[..n], reply);
      var front := Pass(env, s, cs[..n], reply);
      AddStep(env, front.state, n, cs[n], ItemFor(reply, n));
      OneMoreThere(env, front.state.vault, Pass(env, s, cs, reply).state.vault, cs);
    }
  }

  function MakeableCount(env: Env, cs: seq<Candidate>): nat {
    if cs == [] then 0
    else MakeableCount(env, cs[..|cs| - 1]) + if Makeable(env, cs[|cs| - 1]) then 1 else 0
  }

  lemma KnownPerform(env: Env, s: State, c: Candidate, d: Decision)
    requires (d.ToAdd? || d.ToSkip?) && (Makeable(env, c) ==> env.stableId(c) in s.vault)
    ensures var s' := Perform(env, s, c, d).0;
            && s'.vault == s.vault && s'.written == s.written
            && s'.skips == s.skips + if d.ToAdd? && Makeable(env, c) then 1 else 0
  {
  }

  lemma KnownStep(env: Env, s: State, i: nat, c: Candidate, item: Item)
    requires Makeable(env, c) ==> env.stableId(c) in s.vault
    requires var d := Chosen(env, s, i, c, item); d.Some? ==> d.value.ToAdd? || d.value.ToSkip?
    ensures var (s', o) := Step(env, s, i, c, item);
            && o.Some? && s'.vault == s.vault && s'.written == s.written
            && (Chosen(env, s, i, c, item) == Some(ToAdd) ==> s'.skips == s.skips + if Makeable(env, c) then 1 else 0)
  {
    RoutedKeeps(env, s.vault, s, i, c, item);
    var (s1, op) := Routed(env, s, i, c, item);
    if op.Some? {
      var d := Decide(s1.vault, op.value, c, item);
      DecideFits(s1.vault, op.value, c, item);
      KnownPerform(env, if Changes(d) then s1.(changes := s1.changes + 1) else s1, c, Capped(s1, d));
    }
  }

  lemma {:induction false} KnownAddsChangeNothing(env: Env, s: State, cs: seq<Candidate>, reply: seq<Item>)
    requires AllAdd(env, s, cs, reply)
    requires forall i :: 0 <= i < |cs| && Makeable(env, cs[i]) ==> env.stableId(cs[i]) in s.vault
    ensures var end := Pass(env, s, cs, reply);
            && !end.raised && end.state.vault == s.vault && end.state.written == s.written
            && end.state.skips == s.skips + MakeableCount(env, cs)
    decreases |cs|
  {
    if cs != [] {
      var n := |cs| - 1;
      assert forall i :: 0 <= i < n ==> cs[..n][i] == cs[i];
      KnownAddsChangeNothing(env, s, cs[..n], reply);
      KnownStep(env, Pass(env, s, cs[..n], reply).state, n, cs[n], ItemFor(reply, n));
    }
  }

  /** No decision of the pass changes a memory; profiles may settle candidates, and items may
      decline them. */
  ghost predicate NoneChanges(env: Env, s: State, cs: seq<Candidate>, reply: seq<Item>)
    decreases |cs|
  {
    cs != [] ==>
      var n := |cs| - 1;
      var front := Pass(env, s, cs[..n], reply);
      var d := Chosen(env, front.state, n, cs[n], ItemFor(reply, n));
      && NoneChanges(env, s, cs[..n], reply) && !front.raised
      && (d.Some? ==> !Changes(d.value) && !d.value.Fails?)
  }

  lemma {:induction false} KnownCandidatesChangeNothing(env: Env, s: State, cs: seq<Candidate>, reply: seq<Item>)
    requires NoneChanges(env, s, cs, reply)
    requires forall i :: 0 <= i < |cs| && Makeable(env, cs[i]) ==> env.stableId(cs[i]) in s.vault
    ensures var end := Pass(env, s, cs, reply);
            !end.raised && end.state.vault == s.vault && end.state.written == s.written
    decreases |cs|
  {
    if cs != [] {
      var n := |cs| - 1;
      assert forall i :: 0 <= i < n ==> cs[..n][i] == cs[i];
      KnownCandidatesChangeNothing(env, s, cs[..n], reply);
      KnownStep(env, Pass(env, s, cs[..n], reply).state, n, cs[n], ItemFor(reply, n));
    }
  }

  /** Running a batch whose decisions all resolve to additions once more changes nothing and
      reports no write, for any reply no decision of which changes a memory. */
  lemma {:induction false} RerunChangesNothing(
      env: Env, v: Vault, cs: seq<Candidate>, reply: seq<Item>, again: seq<Item>)
    requires AllAdd(env, Start(v), cs, reply)
    requires NoneChanges(env, Start(Pass(env, Start(v), cs, reply).state.vault), cs, again)
    ensures var v1 := Pass(env, Start(v), cs, reply).state.vault;
            var second := Pass(env, Start(v1), cs, again);
            !second.raised && second.state.vault == v1 && second.state.written == 0
  {
    AddsAreThere(env, Start(v), cs, reply);
    KnownCandidatesChangeNothing(env, Start(Pass(env, Start(v), cs, reply).state.vault), cs, again);
  }

  /** When the second reply resolves to additions too, each candidate that can be made is
      reported as known. */
  lemma {:induction false} RerunReportsKnown(env: Env, v: Vault, cs: seq<Candidate>, reply: seq<Item>, again: seq<Item>)
    requires AllAdd(env, Start(v), cs, reply)
    requires AllAdd(env, Start(Pass(env, Start(v), cs, reply).state.vault), cs, again)
    ensures var v1 := Pass(env, Start(v), cs, reply).state.vault;
            Pass(env, Start(v1), cs, again).state.skips == MakeableCount(env, cs)
  {
    AddsAreThere(env, Start(v), cs, reply);
    KnownAddsChangeNothing(env, Start(Pass(env, Start(v), cs, reply).state.vault), cs, again);
  }

  // ---------------------------------------------------------------------------
  // The fallback
  // ---------------------------------------------------------------------------

  ghost predicate FreshIds(env: Env, v: Vault) {
    (forall n :: env.freshId(n) !in v) && forall n, m :: env.freshId(n) == env.freshId(m) ==> n == m
  }


  lemma {:induction false} FallbackKeeps(env: Env, v: Vault, cs: seq<Candidate>)
    requires FreshIds(env, v)
    ensures var w := FallbackAll(env, v, cs);
            && (forall id :: id in v ==> id in w && w[id] == v[id])
            && (forall id :: id in w && id !in v ==> !Protected(w[id]) && exists n: nat :: id == env.freshId(n))
    decreases |cs|
  {
    if cs != [] {
      FallbackKeeps(env, v, cs[..|cs| - 1]);
    }
  }

  /** The fresh ids a fallback uses, and what it puts there. */
  lemma {:induction false} FallbackAt(env: Env, v: Vault, cs: seq<Candidate>, k: nat)
    requires FreshIds(env, v)
    ensures var w := FallbackAll(env, v, cs);
            && (env.freshId(k) in w <==> k < |cs| && Makeable(env, cs[k]))
            && (env.freshId(k) in w ==> MadeFrom(w[env.freshId(k)], cs[k].content))
    decreases |cs|
  {
    if cs != [] {
      var n := |cs| - 1;
      FallbackAt(env, v, cs[..n], k);
      if k < n {
        assert cs[..n][k] == cs[k] && env.freshId(k) != env.freshId(n);
      }
      NewMemHolds(env, FallbackAll(env, v, cs[..n]), env.freshId(n), cs[n]);
    }
  }

  lemma NewMemHolds(env: Env, v: Vault, id: Id, c: Candidate)
    ensures MadeFrom(NewMem(env, v, id, c), c.content)
  {
  }

  /** Reconcile and fallback together keep the same promises; after the fallback every
      candidate that can be made is in the vault. */
  lemma WriteIsSafe(env: Env, v: Vault, all: seq<Candidate>, reply: Option<seq<Item>>)
    requires FreshIds(env, Reconciled(env, v, all, reply).0)
    ensures var w := WrittenVault(env, v, all, reply);
            && v.Keys <= w.Keys
            && (forall id :: id in v && Protected(v[id]) ==> w[id] == v[id])
            && (forall id :: id in w && Protected(w[id]) ==> id in v && Protected(v[id]))
            && |Changed(v, w)| <= CHANGE_CAP
            && (Reconciled(env, v, all, reply).1 ==>
                  forall i: nat :: i < |all| && Makeable(env, all[i]) ==>
                    env.freshId(i) in w && MadeFrom(w[env.freshId(i)], all[i].content))
  {
    var mid := Reconciled(env, v, all, reply).0;
    assert Changed(v, v) == {};
    if reply.Some? {
      PassIsSafe(env, v, Surviving(env, all), reply.value);
    }
    FallbackKeeps(env, mid, all);
    forall i: nat | i < |all| && Makeable(env, all[i])
      ensures var w := FallbackAll(env, mid, all);
              env.freshId(i) in w && MadeFrom(w[env.freshId(i)], all[i].content)
    {
      FallbackAt(env, mid, all, i);
    }
    assert Changed(v, WrittenVault(env, v, all, reply)) == Changed(v, mid);
  }

  /** The near-exact candidates are set aside, and no others. */
  lemma {:induction false} SurvivingExactly(env: Env, all: seq<Candidate>)
    ensures forall c :: c in Surviving(env, all) <==> c in all && !env.nearExact(c)
    ensures forall c :: !env.nearExact(c) ==> multiset(Surviving(env, all))[c] == multiset(all)[c]
  {
    if all != [] {
      var n := |all| - 1;
      SurvivingExactly(env, all[..n]);
      assert all == all[..n] + [all[n]];
    }
  }

  lemma NoneSurvives(env: Env, all: seq<Candidate>)
    ensures Surviving(env, all) == [] <==> forall c :: c in all ==> env.nearExact(c)
  {
    SurvivingExactly(env, all);
    if c :| c in all && !env.nearExact(c) {
      assert c in Surviving(env, all);
    } else if Surviving(env, all) != [] {
      assert Surviving(env, all)[0] in Surviving(env, all);
    }
  }

  /** The pass runs when a candidate survives and there is a reply; without a reply every
      candidate goes to the fallback, and without survivors nothing happens. */
  lemma WriteExactly(env: Env, v: Vault, all: seq<Candidate>, reply: Option<seq<Item>>)
    ensures (forall c :: c in all ==> env.nearExact(c)) ==> WrittenVault(env, v, all, reply) == v
    ensures (exists c :: c in all && !env.nearExact(c)) && reply.None? ==>
              WrittenVault(env, v, all, reply) == FallbackAll(env, v, all)
    ensures (exists c :: c in all && !env.nearExact(c)) && reply.Some? ==>
              var end := Pass(env, Start(v), Surviving(env, all), reply.value);
              WrittenVault(env, v, all, reply) ==
                if end.raised then FallbackAll(env, end.state.vault, all) else end.state.vault
  {
    NoneSurvives(env, all);
  }

  /** A candidate is in the vault under its stable id and, once more, under a fresh one if and
      only if an exception escaped, the candidate can be made, and the pass had put it there
      or found it there before. */
  lemma StoredTwiceExactly(env: Env, v: Vault, all: seq<Candidate>, reply: Option<seq<Item>>, i: nat)
    requires i < |all| && FreshIds(env, Reconciled(env, v, all, reply).0)
    requires forall n :: env.freshId(n) != env.stableId(all[i])
    ensures var (mid, raised) := Reconciled(env, v, all, reply);
            var w := WrittenVault(env, v, all, reply);
            env.stableId(all[i]) in w && env.freshId(i) in w <==>
              raised && Makeable(env, all[i]) && env.stableId(all[i]) in mid
  {
    var (mid, raised) := Reconciled(env, v, all, reply);
    FallbackKeeps(env, mid, all);
    FallbackAt(env, mid, all, i);
  }

  /** After an escaping exception the fallback saves candidates again that the pass has already
      saved: the second copy has another id. */
  lemma FallbackDuplicates(env: Env, v: Vault, c: Candidate, d: Candidate)
    requires !env.nearExact(c) && !env.nearExact(d)
    requires Makeable(env, c) && env.stableId(c) !in v && forall n :: env.freshId(n) != env.stableId(c)
    requires FreshIds(env, v)
    ensures var reply := [Item(0, Add, Absent, Absent, UnknownProfile, ""),
                          Item(1, Update, Other, Absent, UnknownProfile, "")];
            var w := WrittenVault(env, v, [c, d], Some(reply));
            && env.stableId(c) in w && env.freshId(0) in w
            && MadeFrom(w[env.stableId(c)], c.content) && MadeFrom(w[env.freshId(0)], c.content)
  {
    var reply := [Item(0, Add, Absent, Absent, UnknownProfile, ""), Item(1, Update, Other, Absent, UnknownProfile, "")];
    TwoSurvive(env, c, d);
    TwoItems(reply[0], reply[1]);
    AddThenEscape(env, v, c, d, reply);
    var mid := Reconciled(env, v, [c, d], Some(reply)).0;
    assert MadeFrom(mid[env.stableId(c)], c.content);
    FallbackKeeps(env, mid, [c, d]);
    FallbackAt(env, mid, [c, d], 0);
    assert [c, d][0] == c;
  }

  lemma TwoSurvive(env: Env, c: Candidate, d: Candidate)
    requires !env.nearExact(c) && !env.nearExact(d)
    ensures Surviving(env, [c, d]) == [c, d]
  {
    assert [c, d][..1] == [c] && [c][..0] == [];
    assert Surviving(env, [c]) == [c];
  }

  lemma TwoItems(first: Item, second: Item)
    requires first.index == 0 && second.index == 1
    ensures ItemFor([first, second], 0) == first && ItemFor([first, second], 1) == second
  {
    var reply := [first, second];
    assert reply[..1] == [first];
    assert ItemFor([first], 0) == first;
  }

  lemma AddThenEscape(env: Env, v: Vault, c: Candidate, d: Candidate, reply: seq<Item>)
    requires Makeable(env, c) && env.stableId(c) !in v
    requires ItemFor(reply, 0).op == Add && ItemFor(reply, 1).op == Update && ItemFor(reply, 1).target.Other?
    ensures var end := Pass(env, Start(v), [c, d], reply);
            var id := env.stableId(c);
            end.raised && end.state.vault == v[id := NewMem(env, v, id, c)]
  {
    var cs := [c, d];
    assert cs[..1] == [c] && [c][..0] == [];
    assert Pass(env, Start(v), [], reply) == Result(Start(v), [], false);
    assert Pass(env, Start(v), [c], reply) == Result(Saved(env, Start(v), c), [Added(env.stableId(c))], false);
  }

  /** A clean candidate is lost when the scan objects to the text the reply merged for it. */
  lemma HostileMergeDropsCandidate(env: Env, v: Vault, id: Id, c: Candidate, text: string)
    requires id in v && !Protected(v[id]) && LongEnough(text, v[id]) && env.threat(text) && Makeable(env, c)
    ensures var item := Item(0, Update, Str(id), Str(text), UnknownProfile, "");
            var end := Pass(env, Start(v), [c], [item]);
            !end.raised && end.outcomes == [Blocked] && end.state.vault == v
  {
    UpdatePasses(env, v, id, c, text);
  }
}
