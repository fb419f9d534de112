/** The generated `_index.md`: `_generate_index` of memem/obsidian_store.py, and what the numbers
    of an index mean. */
module GeneratedIndex {
  import opened IndexLine
  import opened PyStrings
  import opened VaultIndex
  import opened Wrappers

  // ---------------------------------------------------------------------------
  // Generating
  // ---------------------------------------------------------------------------

  lemma EntriesUnion(v: Vault, a: set<string>, b: set<string>)
    requires Keyed(v) && a !! b
    ensures multiset(Entries(v, a + b)) == multiset(Entries(v, a)) + multiset(Entries(v, b))
  {
    assert Entries(v, a + b) == Entries(v, a) + Entries(v, b);
    assert Entries(v, a) !! Entries(v, b);
  }

  lemma {:induction false} EntriesSize(v: Vault, ids: set<string>)
    requires Keyed(v) && ids <= v.Keys
    ensures |multiset(Entries(v, ids))| == |ids|
    decreases ids
  {
    if ids == {} {
      assert Entries(v, ids) == {};
    } else {
      var k :| k in ids;
      EntriesSize(v, ids - {k});
      EntriesAdd(v, ids - {k}, k);
      assert ids - {k} + {k} == ids;
    }
  }

  function Projects(v: Vault, ids: set<string>): set<string> {
    set k | k in ids && k in v :: v[k].project
  }

  // The order of the vault's memories is that of their file names; ties keep it.

  predicate NoDuplicates(ids: seq<string>) { forall i, j :: 0 <= i < j < |ids| ==> ids[i] != ids[j] }

  predicate Known(v: Vault, ids: seq<string>) { forall i :: 0 <= i < |ids| ==> ids[i] in v }

  function OfProject(v: Vault, order: seq<string>, p: string): (ids: seq<string>)
    requires Known(v, order)
    ensures Known(v, ids)
  {
    if order == [] then []
    else
      var front := OfProject(v, order[..|order| - 1], p);
      if v[order[|order| - 1]].project == p then front + [order[|order| - 1]] else front
  }

  function InsertByDate(v: Vault, ids: seq<string>, k: string): (r: seq<string>)
    requires Known(v, ids) && k in v
    ensures Known(v, r)
  {
    if ids == [] || v[ids[0]].created < v[k].created then [k] + ids
    else [ids[0]] + InsertByDate(v, ids[1..], k)
  }

  function ByDate(v: Vault, ids: seq<string>): (r: seq<string>)
    requires Known(v, ids)
    ensures Known(v, r)
  {
    if ids == [] then [] else InsertByDate(v, ByDate(v, ids[..|ids| - 1]), ids[|ids| - 1])
  }

  function BulletsOf(v: Vault, ids: seq<string>): (bullets: seq<Line>)
    requires Known(v, ids)
    ensures |bullets| == |ids| && forall i :: 0 <= i < |bullets| ==> bullets[i] == BulletOf(v[ids[i]])
  {
    seq(|ids|, i requires 0 <= i < |ids| => BulletOf(v[ids[i]]))
  }

  /** The order of Python's strings. */
  predicate NotAfter(a: string, b: string) {
    a == "" || (b != "" && (a[0] < b[0] || (a[0] == b[0] && NotAfter(a[1..], b[1..]))))
  }

  function InsertName(names: seq<string>, p: string): seq<string> {
    if names == [] || NotAfter(p, names[0]) then [p] + names else [names[0]] + InsertName(names[1..], p)
  }

  function NamedProjects(v: Vault, order: seq<string>): seq<string>
    requires Known(v, order)
  {
    if order == [] then []
    else
      var front, p := NamedProjects(v, order[..|order| - 1]), v[order[|order| - 1]].project;
      if p == GENERAL || p in front then front else InsertName(front, p)
  }

  function SortedProjects(v: Vault, order: seq<string>): seq<string>
    requires Known(v, order)
  {
    NamedProjects(v, order) + if OfProject(v, order, GENERAL) == [] then [] else [GENERAL]
  }

  function SectionOf(v: Vault, order: seq<string>, p: string): seq<Line>
    requires Known(v, order)
  {
    Section(p, BulletsOf(v, ByDate(v, OfProject(v, order, p))))
  }

  function Front(v: Vault, order: seq<string>, names: seq<string>): seq<Line>
    requires Known(v, order)
  {
    if names == [] then [Title, Updated(|order|)]
    else Front(v, order, names[..|names| - 1]) + SectionOf(v, order, names[|names| - 1])
  }

  function Generated(v: Vault, order: seq<string>): seq<Line>
    requires Known(v, order)
  {
    Front(v, order, SortedProjects(v, order)) + [Blank]
  }

  method GenerateIndex(v: Vault, order: seq<string>) returns (lines: seq<Line>)
    requires Known(v, order)
    ensures lines == Generated(v, order)
  {
    var names := SortedProjects(v, order);
    lines := [Title, Updated(|order|)];
    for n := 0 to |names|
      invariant lines == Front(v, order, names[..n])
    {
      assert names[..n + 1][..n] == names[..n];
      lines := AddSection(lines, v, names[n], ByDate(v, OfProject(v, order, names[n])));
    }
    assert names[..|names|] == names;
    lines := lines + [Blank];
  }

  method AddSection(before: seq<Line>, v: Vault, name: string, members: seq<string>) returns (lines: seq<Line>)
    requires Known(v, members)
    ensures lines == before + Section(name, BulletsOf(v, members))
  {
    lines := before + [Blank, Heading(name, |members|)];
    ghost var bullets := BulletsOf(v, members);
    for m := 0 to |members|
      invariant lines == before + [Blank, Heading(name, |members|)] + bullets[..m]
    {
      lines := lines + [BulletOf(v[members[m]])];
    }
    assert bullets[..|members|] == bullets;
  }

  function Range(ids: seq<string>): set<string> { set k | k in ids }

  lemma {:induction false} OfProjectFacts(v: Vault, order: seq<string>, p: string)
    requires Known(v, order) && NoDuplicates(order)
    ensures var ids := OfProject(v, order, p);
            NoDuplicates(ids) && forall k :: k in ids <==> k in order && v[k].project == p
  {
    if order != [] {
      var n := |order| - 1;
      OfProjectFacts(v, order[..n], p);
      assert order == order[..n] + [order[n]];
    }
  }

  predicate DatesFall(v: Vault, ids: seq<string>)
    requires Known(v, ids)
  {
    forall i, j :: 0 <= i < j < |ids| ==> v[ids[i]].created >= v[ids[j]].created
  }

  lemma {:induction false} InsertByDateFacts(v: Vault, ids: seq<string>, k: string)
    requires Known(v, ids) && k in v && k !in ids && NoDuplicates(ids) && DatesFall(v, ids)
    ensures var r := InsertByDate(v, ids, k);
            NoDuplicates(r) && DatesFall(v, r) && forall x :: x in r <==> x == k || x in ids
  {
    if !(ids == [] || v[ids[0]].created < v[k].created) {
      var tail := ids[1..];
      InsertByDateFacts(v, tail, k);
      var rest := InsertByDate(v, tail, k);
      forall i | 0 <= i < |rest| ensures rest[i] != ids[0] && v[ids[0]].created >= v[rest[i]].created {
        assert rest[i] in rest;
        if rest[i] != k {
          var j: int :| 0 <= j < |tail| && tail[j] == rest[i];
          assert ids[j + 1] == rest[i];
        }
      }
      assert forall x :: x in ids <==> x == ids[0] || x in tail;
    }
  }

  /** Sorting keeps the ids and puts the newest first. */
  lemma {:induction false} ByDateFacts(v: Vault, ids: seq<string>)
    requires Known(v, ids) && NoDuplicates(ids)
    ensures var r := ByDate(v, ids);
            NoDuplicates(r) && DatesFall(v, r) && forall x :: x in r <==> x in ids
  {
    if ids != [] {
      var n := |ids| - 1;
      ByDateFacts(v, ids[..n]);
      assert ids == ids[..n] + [ids[n]];
      InsertByDateFacts(v, ByDate(v, ids[..n]), ids[n]);
    }
  }

  lemma {:induction false} NotAfterTotal(a: string, b: string)
    ensures NotAfter(a, b) || NotAfter(b, a)
  {
    if a != "" && b != "" && a[0] == b[0] {
      NotAfterTotal(a[1..], b[1..]);
    }
  }

  lemma {:induction false} NotAfterTrans(a: string, b: string, c: string)
    requires NotAfter(a, b) && NotAfter(b, c)
    ensures NotAfter(a, c)
  {
    if a != "" && a[0] == b[0] == c[0] {
      NotAfterTrans(a[1..], b[1..], c[1..]);
    }
  }

  predicate Ascending(names: seq<string>) {
    forall i, j :: 0 <= i < j < |names| ==> NotAfter(names[i], names[j])
  }

  lemma {:induction false} InsertNameFacts(names: seq<string>, p: string)
    requires p !in names && Distinct(names) && Ascending(names)
    ensures var r := InsertName(names, p);
            Distinct(r) && Ascending(r) && forall x :: x in r <==> x == p || x in names
  {
    if names != [] && NotAfter(p, names[0]) {
      forall i | 0 <= i < |names| ensures NotAfter(p, names[i]) {
        if i > 0 {
          NotAfterTrans(p, names[0], names[i]);
        }
      }
    } else if names != [] {
      var tail := names[1..];
      InsertNameFacts(tail, p);
      var rest := InsertName(tail, p);
      NotAfterTotal(p, names[0]);
      forall i | 0 <= i < |rest| ensures rest[i] != names[0] && NotAfter(names[0], rest[i]) {
        assert rest[i] in rest;
        if rest[i] != p {
          var j: int :| 0 <= j < |tail| && tail[j] == rest[i];
          assert names[j + 1] == rest[i];
        }
      }
      assert forall x :: x in names <==> x == names[0] || x in tail;
    }
  }

  lemma {:induction false} NamedProjectsFacts(v: Vault, order: seq<string>)
    requires Known(v, order)
    ensures var names := NamedProjects(v, order);
            && Distinct(names) && Ascending(names) && GENERAL !in names
            && forall p :: p in names <==> p != GENERAL && p in Projects(v, Range(order))
  {
    if order != [] {
      var n := |order| - 1;
      NamedProjectsFacts(v, order[..n]);
      var front, p := NamedProjects(v, order[..n]), v[order[n]].project;
      if p != GENERAL && p !in front {
        InsertNameFacts(front, p);
      }
      assert Range(order) == Range(order[..n]) + {order[n]} by {
        assert order == order[..n] + [order[n]];
      }
      assert Projects(v, Range(order)) == Projects(v, Range(order[..n])) + {p};
    } else {
      assert Projects(v, Range(order)) == {};
    }
  }

  /** The headings are the projects, each once, in ascending order and "general" last. */
  lemma SortedProjectsFacts(v: Vault, order: seq<string>)
    requires Known(v, order) && NoDuplicates(order)
    ensures var names := SortedProjects(v, order);
            && Distinct(names) && (forall p :: p in names <==> p in Projects(v, Range(order)))
            && Ascending(if names != [] && names[|names| - 1] == GENERAL then names[..|names| - 1] else names)
            && forall i :: 0 <= i < |names| - 1 ==> names[i] != GENERAL
  {
    NamedProjectsFacts(v, order);
    OfProjectFacts(v, order, GENERAL);
    var names, named, ids := SortedProjects(v, order), NamedProjects(v, order), OfProject(v, order, GENERAL);
    if ids != [] {
      assert ids[0] in ids && v[ids[0]].project in Projects(v, Range(order));
      assert names[..|names| - 1] == named;
    } else {
      assert names == named;
      forall k | k in order ensures v[k].project != GENERAL {
        assert k !in ids;
      }
      if names != [] {
        assert names[|names| - 1] in named;
      }
    }
  }

  lemma RangeHead(ids: seq<string>)
    requires ids != [] && NoDuplicates(ids)
    ensures ids[0] !in Range(ids[1..]) && Range(ids) == Range(ids[1..]) + {ids[0]}
  {
    assert ids == [ids[0]] + ids[1..];
  }

  lemma {:induction false} BulletsFiled(v: Vault, p: string, ids: seq<string>)
    requires Keyed(v) && Known(v, ids) && NoDuplicates(ids) && forall i :: 0 <= i < |ids| ==> v[ids[i]].project == p
    ensures Filed(Some(p), BulletsOf(v, ids)) == multiset(Entries(v, Range(ids)))
  {
    if ids == [] {
      assert Range(ids) == {} && Entries(v, {}) == {};
    } else {
      var rest := ids[1..];
      BulletsFiled(v, p, rest);
      assert BulletsOf(v, ids)[1..] == BulletsOf(v, rest);
      RangeHead(ids);
      EntriesAdd(v, Range(rest), ids[0]);
    }
  }

  /** A part of an index that lists exactly the memories `done`. */
  ghost predicate Built(lines: seq<Line>, v: Vault, done: set<string>) {
    && (forall n :: n in HeadingNames(lines) <==> n in Projects(v, done))
    && Filed(None, lines) == multiset(Entries(v, done))
    && Distinct(HeadingNames(lines)) && CountsExact(lines) && PreambleOk(lines)
  }

  lemma ProjectsAdd(v: Vault, done: set<string>, members: set<string>, p: string)
    requires Projects(v, members) == {p}
    ensures Projects(v, done + members) == Projects(v, done) + {p}
  {
    assert forall n :: n in Projects(v, done + members) <==> n in Projects(v, done) || n in Projects(v, members);
  }

  lemma SectionBuilt(
      lines: seq<Line>, v: Vault, done: set<string>, members: set<string>, p: string, bullets: seq<Line>)
    requires Keyed(v) && Built(lines, v, done) && members !! done
    requires p !in Projects(v, done) && Projects(v, members) == {p}
    requires forall i :: 0 <= i < |bullets| ==> bullets[i].Bullet?
    requires Filed(Some(p), bullets) == multiset(Entries(v, members))
    ensures Built(lines + Section(p, bullets), v, done + members)
  {
    SectionFollows(lines, p, bullets);
    BuiltMore(lines, lines + Section(p, bullets), v, done, members, p);
  }

  lemma SectionFollows(lines: seq<Line>, p: string, bullets: seq<Line>)
    requires Distinct(HeadingNames(lines)) && CountsExact(lines) && PreambleOk(lines) && p !in HeadingNames(lines)
    requires forall i :: 0 <= i < |bullets| ==> bullets[i].Bullet?
    ensures var more := lines + Section(p, bullets);
            && Filed(None, more) == Filed(None, lines) + Filed(Some(p), bullets)
            && HeadingNames(more) == HeadingNames(lines) + [p]
            && Distinct(HeadingNames(more)) && CountsExact(more) && PreambleOk(more)
  {
    SectionAdded(lines, p, bullets);
    PreambleMore(lines, Section(p, bullets));
  }

  lemma BuiltMore(lines: seq<Line>, more: seq<Line>, v: Vault, done: set<string>, members: set<string>, p: string)
    requires Keyed(v) && Built(lines, v, done) && members !! done && Projects(v, members) == {p}
    requires Filed(None, more) == Filed(None, lines) + multiset(Entries(v, members))
    requires HeadingNames(more) == HeadingNames(lines) + [p]
    requires Distinct(HeadingNames(more)) && CountsExact(more) && PreambleOk(more)
    ensures Built(more, v, done + members)
  {
    NamesBuilt(HeadingNames(lines), v, done, members, p);
    FiledBuilt(Filed(None, lines), multiset(Entries(v, members)), v, done, members);
  }

  lemma FiledBuilt(before: multiset<Entry>, more: multiset<Entry>, v: Vault, done: set<string>, members: set<string>)
    requires Keyed(v) && members !! done
    requires before == multiset(Entries(v, done)) && more == multiset(Entries(v, members))
    ensures before + more == multiset(Entries(v, done + members))
  {
    EntriesUnion(v, done, members);
  }

  lemma NamesBuilt(names: seq<string>, v: Vault, done: set<string>, members: set<string>, p: string)
    requires forall n :: n in names <==> n in Projects(v, done)
    requires Projects(v, members) == {p}
    ensures forall n :: n in names + [p] <==> n in Projects(v, done + members)
  {
    ProjectsAdd(v, done, members, p);
  }

  lemma PreambleMore(lines: seq<Line>, more: seq<Line>)
    requires PreambleOk(lines) && forall i :: 0 <= i < |more| ==> !more[i].Updated?
    ensures PreambleOk(lines + more)
  {
  }

  /** The members of the first n projects. */
  function Done(v: Vault, order: seq<string>, names: seq<string>): set<string>
    requires Known(v, order)
  {
    set k | k in order && v[k].project in names
  }

  lemma SectionOfProject(v: Vault, order: seq<string>, p: string)
    requires Keyed(v) && Known(v, order) && NoDuplicates(order)
    ensures var members, bullets := Range(OfProject(v, order, p)), BulletsOf(v, ByDate(v, OfProject(v, order, p)));
            && Filed(Some(p), bullets) == multiset(Entries(v, members))
            && forall i :: 0 <= i < |bullets| ==> bullets[i].Bullet?
  {
    var ids := OfProject(v, order, p);
    OfProjectFacts(v, order, p);
    ByDateFacts(v, ids);
    BulletsFiled(v, p, ByDate(v, ids));
    assert Range(ByDate(v, ids)) == Range(ids);
  }

  lemma TopBuilt(v: Vault, total: nat)
    ensures Built([Title, Updated(total)], v, {})
  {
    EmptyIndex(total);
    assert Projects(v, {}) == {} && Entries(v, {}) == {};
  }

  lemma {:induction false} FrontBuilt(v: Vault, order: seq<string>, names: seq<string>)
    requires Keyed(v) && Known(v, order) && NoDuplicates(order) && Distinct(names)
    requires forall p :: p in names ==> p in Projects(v, Range(order))
    ensures Built(Front(v, order, names), v, Done(v, order, names))
  {
    if names == [] {
      TopBuilt(v, |order|);
      assert Done(v, order, names) == {};
    } else {
      var n := |names| - 1;
      var front, p := names[..n], names[n];
      FrontBuilt(v, order, front);
      assert names == front + [p];
      DoneMore(v, order, front, p);
      SectionOfProject(v, order, p);
      SectionBuilt(Front(v, order, front), v, Done(v, order, front), Range(OfProject(v, order, p)), p,
                   BulletsOf(v, ByDate(v, OfProject(v, order, p))));
    }
  }

  lemma DoneMore(v: Vault, order: seq<string>, names: seq<string>, p: string)
    requires Known(v, order) && NoDuplicates(order) && p !in names && p in Projects(v, Range(order))
    ensures var members := Range(OfProject(v, order, p));
            && Done(v, order, names + [p]) == Done(v, order, names) + members
            && members !! Done(v, order, names)
            && Projects(v, members) == {p} && p !in Projects(v, Done(v, order, names))
  {
    OfProjectFacts(v, order, p);
    var k :| k in Range(order) && k in v && v[k].project == p;
    assert k in OfProject(v, order, p);
  }

  lemma SettleBlank(lines: seq<Line>)
    requires CountsExact(lines)
    ensures var more := lines + [Blank];
            && Filed(None, more) == Filed(None, lines) && HeadingNames(more) == HeadingNames(lines)
            && CountsExact(more)
  {
    assert [Blank][1..] == [];
    FiledConcat(None, lines, [Blank]);
    NamesConcat(lines, [Blank]);
    CountsConcat(lines, [Blank]);
  }

  /** The generated lines list the vault. */
  lemma GeneratedLists(v: Vault, order: seq<string>)
    requires Keyed(v) && NoDuplicates(order) && Known(v, order) && Range(order) == Active(v)
    ensures Lists(Generated(v, order), v) && HeadingNames(Generated(v, order)) == SortedProjects(v, order)
  {
    var names := SortedProjects(v, order);
    SortedProjectsFacts(v, order);
    FrontBuilt(v, order, names);
    FrontNames(v, order, names);
    assert Done(v, order, names) == Active(v);
    SettleBlank(Front(v, order, names));
    TotalExact(v, order, Generated(v, order));
    FrontTop(v, order, names);
    PreambleMore(Front(v, order, names), [Blank]);
  }

  lemma {:induction false} FrontTop(v: Vault, order: seq<string>, names: seq<string>)
    requires Known(v, order)
    ensures |Front(v, order, names)| >= 2 && Front(v, order, names)[1] == Updated(|order|)
  {
    if names != [] {
      FrontTop(v, order, names[..|names| - 1]);
    }
  }

  lemma TotalExact(v: Vault, order: seq<string>, lines: seq<Line>)
    requires Keyed(v) && NoDuplicates(order) && Range(order) == Active(v) && Filed(None, lines) == Listed(v)
    ensures Total(lines) == |order|
  {
    EntriesSize(v, Active(v));
    OrderSize(order);
    FiledSize(None, lines);
  }

  /** They are its index, read back as written, if and only if the lines and the projects of its
      active memories hold no line end. */
  lemma GeneratedIndexes(v: Vault, order: seq<string>)
    requires Keyed(v) && NoDuplicates(order) && Range(order) == Active(v)
    ensures Known(v, order) && Lists(Generated(v, order), v)
    ensures Indexes(Generated(v, order), v) <==>
            forall k :: k in v && v[k].active ==> !BreaksLine(v[k].line) && !BreaksLine(v[k].project)
  {
    assert forall i :: 0 <= i < |order| ==> order[i] in Range(order);
    GeneratedLists(v, order);
    SortedProjectsFacts(v, order);
    GeneratedReadable(v, Generated(v, order));
  }

  lemma {:induction false} OrderSize(order: seq<string>)
    requires NoDuplicates(order)
    ensures |Range(order)| == |order|
  {
    if order != [] {
      OrderSize(order[1..]);
      RangeHead(order);
    }
  }

  lemma {:induction false} FrontNames(v: Vault, order: seq<string>, names: seq<string>)
    requires Known(v, order)
    ensures HeadingNames(Front(v, order, names)) == names
  {
    if names == [] {
      EmptyIndex(|order|);
    } else {
      var n := |names| - 1;
      FrontNames(v, order, names[..n]);
      SectionFacts(None, names[n], BulletsOf(v, ByDate(v, OfProject(v, order, names[n]))));
      NamesConcat(Front(v, order, names[..n]), SectionOf(v, order, names[n]));
      assert names == names[..n] + [names[n]];
    }
  }

  /** In lines that list a vault, what is readable is told by the vault. */
  lemma GeneratedReadable(v: Vault, lines: seq<Line>)
    requires Keyed(v) && Lists(lines, v)
    requires forall n :: n in HeadingNames(lines) ==> n in Projects(v, Active(v))
    ensures AllReadable(lines) <==>
            forall k :: k in v && v[k].active ==> !BreaksLine(v[k].line) && !BreaksLine(v[k].project)
  {
    if AllReadable(lines) {
      forall k | k in v && v[k].active ensures !BreaksLine(v[k].line) && !BreaksLine(v[k].project) {
        assert EntryOf(v[k]) in Entries(v, Active(v));
        assert EntryOf(v[k]) in Filed(None, lines);
        FiledUnderHeading(None, lines, EntryOf(v[k]));
        var i := HeadingOfName(lines, v[k].project);
        assert Readable(lines[i]);
      }
    }
    if forall k :: k in v && v[k].active ==> !BreaksLine(v[k].line) && !BreaksLine(v[k].project) {
      forall i | 0 <= i < |lines| ensures Readable(lines[i]) {
        if lines[i].Heading? {
          NameOfHeading(lines, i);
          var k :| k in Active(v) && v[k].project == lines[i].name;
        } else if lines[i].Bullet? {
          var h := BulletIsFiled(None, lines, lines[i]);
          assert (h, lines[i]) in Entries(v, Active(v));
          var k :| k in Active(v) && (h, lines[i]) == EntryOf(v[k]);
        }
      }
    }
  }

  predicate Ahead(ids: seq<string>, a: string, b: string) {
    exists i, j :: 0 <= i < j < |ids| && ids[i] == a && ids[j] == b
  }

  lemma AheadLater(x: string, ids: seq<string>, a: string, b: string)
    requires Ahead(ids, a, b) || (x == a && b in ids)
    ensures Ahead([x] + ids, a, b)
  {
    var more := [x] + ids;
    if i, j :| 0 <= i < j < |ids| && ids[i] == a && ids[j] == b {
      assert more[i + 1] == a && more[j + 1] == b;
    } else {
      var j: int :| 0 <= j < |ids| && ids[j] == b;
      assert more[0] == a && more[j + 1] == b;
    }
  }

  lemma AheadSnoc(ids: seq<string>, x: string, a: string, b: string)
    ensures Ahead(ids + [x], a, b) <==> Ahead(ids, a, b) || (a in ids && b == x)
  {
    var more := ids + [x];
    if i, j :| 0 <= i < j < |ids| && ids[i] == a && ids[j] == b {
      assert more[i] == a && more[j] == b;
    }
    if a in ids && b == x {
      var i: int :| 0 <= i < |ids| && ids[i] == a;
      assert more[i] == a && more[|ids|] == b;
    }
  }

  lemma {:induction false} InsertKeepsAhead(v: Vault, ids: seq<string>, k: string, a: string, b: string)
    requires Known(v, ids) && k in v && Ahead(ids, a, b)
    ensures Ahead(InsertByDate(v, ids, k), a, b) && b in InsertByDate(v, ids, k)
  {
    var head, tail := ids[0], ids[1..];
    assert ids == [head] + tail;
    if v[head].created < v[k].created {
      AheadLater(k, ids, a, b);
    } else {
      var i, j :| 0 <= i < j < |ids| && ids[i] == a && ids[j] == b;
      assert tail[j - 1] == b;
      if i > 0 {
        assert tail[i - 1] == a;
        InsertKeepsAhead(v, tail, k, a, b);
      } else {
        InsertKeeps(v, tail, k, b);
      }
      AheadLater(head, InsertByDate(v, tail, k), a, b);
    }
  }

  lemma {:induction false} InsertKeeps(v: Vault, ids: seq<string>, k: string, x: string)
    requires Known(v, ids) && k in v
    ensures x in InsertByDate(v, ids, k) <==> x == k || x in ids
  {
    if ids != [] && v[ids[0]].created >= v[k].created {
      InsertKeeps(v, ids[1..], k, x);
      assert x in ids <==> x == ids[0] || x in ids[1..];
    }
  }

  lemma {:induction false} InsertBehindTie(v: Vault, ids: seq<string>, k: string, a: string)
    requires Known(v, ids) && k in v && DatesFall(v, ids) && a in ids && v[a].created == v[k].created
    ensures Ahead(InsertByDate(v, ids, k), a, k)
  {
    var head, tail := ids[0], ids[1..];
    var i: int :| 0 <= i < |ids| && ids[i] == a;
    InsertKeeps(v, tail, k, k);
    if i > 0 {
      assert tail[i - 1] == a;
      InsertBehindTie(v, tail, k, a);
    }
    AheadLater(head, InsertByDate(v, tail, k), a, k);
  }

  /** Memories of one date stay in the order they had. */
  lemma {:induction false} TiesStay(v: Vault, ids: seq<string>, a: string, b: string)
    requires Known(v, ids) && NoDuplicates(ids) && Ahead(ids, a, b) && v[a].created == v[b].created
    ensures Ahead(ByDate(v, ids), a, b)
  {
    var n := |ids| - 1;
    var front := ids[..n];
    assert ids == front + [ids[n]];
    AheadSnoc(front, ids[n], a, b);
    ByDateFacts(v, front);
    if Ahead(front, a, b) {
      TiesStay(v, front, a, b);
      InsertKeepsAhead(v, ByDate(v, front), ids[n], a, b);
    } else {
      InsertBehindTie(v, ByDate(v, front), ids[n], a);
    }
  }

  lemma {:induction false} OfProjectInOrder(v: Vault, order: seq<string>, p: string, a: string, b: string)
    requires Known(v, order) && Ahead(OfProject(v, order, p), a, b)
    ensures Ahead(order, a, b)
  {
    if order != [] {
      var n := |order| - 1;
      var front := order[..n];
      assert order == front + [order[n]];
      AheadSnoc(front, order[n], a, b);
      if v[order[n]].project == p {
        AheadSnoc(OfProject(v, front, p), order[n], a, b);
      }
      if Ahead(OfProject(v, front, p), a, b) {
        OfProjectInOrder(v, front, p, a, b);
      } else {
        OfProjectFrom(v, front, p, a);
      }
    }
  }

  lemma {:induction false} OfProjectFrom(v: Vault, order: seq<string>, p: string, a: string)
    requires Known(v, order) && a in OfProject(v, order, p)
    ensures a in order
  {
    var n := |order| - 1;
    if a in OfProject(v, order[..n], p) {
      OfProjectFrom(v, order[..n], p, a);
    }
  }

  /** A section holds exactly the memories of its project, the newest first, and those of one date in
      the order of the vault. */
  lemma GeneratedInOrder(v: Vault, order: seq<string>, p: string) returns (ids: seq<string>)
    requires Known(v, order) && NoDuplicates(order)
    ensures Known(v, ids) && SectionOf(v, order, p) == [Blank, Heading(p, |ids|)] + BulletsOf(v, ids)
    ensures NoDuplicates(ids)
    ensures forall i, j :: 0 <= i < j < |ids| ==>
              v[ids[i]].created >= v[ids[j]].created
              && (v[ids[i]].created == v[ids[j]].created ==> Ahead(order, ids[i], ids[j]))
    ensures forall k :: k in ids <==> k in order && v[k].project == p
  {
    var members := OfProject(v, order, p);
    ids := ByDate(v, members);
    OfProjectFacts(v, order, p);
    ByDateFacts(v, members);
    forall i, j | 0 <= i < j < |ids| && v[ids[i]].created == v[ids[j]].created ensures Ahead(order, ids[i], ids[j]) {
      OneIsAhead(members, ids[i], ids[j]);
      if Ahead(members, ids[j], ids[i]) {
        TiesStay(v, members, ids[j], ids[i]);
      }
      OfProjectInOrder(v, order, p, ids[i], ids[j]);
    }
  }

  lemma OneIsAhead(ids: seq<string>, a: string, b: string)
    requires a in ids && b in ids && a != b
    ensures Ahead(ids, a, b) || Ahead(ids, b, a)
  {
    var i: int :| 0 <= i < |ids| && ids[i] == a;
    var j: int :| 0 <= j < |ids| && ids[j] == b;
    assert i < j || j < i;
  }

  lemma {:induction false} FrontBegins(v: Vault, order: seq<string>, names: seq<string>)
    requires Known(v, order)
    ensures [Title, Updated(|order|)] <= Front(v, order, names)
  {
    if names != [] {
      FrontBegins(v, order, names[..|names| - 1]);
    }
  }

  /** The generated lines begin with the title and the total and end with a blank one. */
  lemma GeneratedFrame(v: Vault, order: seq<string>)
    requires Known(v, order)
    ensures var lines := Generated(v, order);
            [Title, Updated(|order|)] <= lines && lines[|lines| - 1] == Blank
  {
    FrontBegins(v, order, SortedProjects(v, order));
  }

  /** From a generated index on, the incremental index is right throughout a run if and only if
      the generated one is read back as written and every operation meets its condition. */
  lemma RefinesGenerated(v: Vault, order: seq<string>, ops: seq<Op>)
    requires Keyed(v) && Known(v, order) && NoDuplicates(order) && Range(order) == Active(v)
    ensures AlwaysIndexes(Generated(v, order), v, ops) <==>
            && (forall k :: k in v && v[k].active ==> !BreaksLine(v[k].line) && !BreaksLine(v[k].project))
            && AllFollowed(SortedProjects(v, order), v, ops)
  {
    GeneratedIndexes(v, order);
    GeneratedLists(v, order);
    if Indexes(Generated(v, order), v) {
      IncrementalRefines(Generated(v, order), v, ops);
    }
  }

  // ---------------------------------------------------------------------------
  // What the numbers of an index mean
  // ---------------------------------------------------------------------------

  function FiledAs(under: Option<string>, lines: seq<Line>, name: string): multiset<Entry>
    decreases |lines|
  {
    if lines == [] then multiset{}
    else if lines[0].Bullet? && under == Some(name) then
      multiset{(under, lines[0])} + FiledAs(under, lines[1..], name)
    else FiledAs(Under(under, lines[0]), lines[1..], name)
  }

  lemma {:induction false} FiledAsAt(under: Option<string>, lines: seq<Line>, name: string, x: Entry)
    ensures FiledAs(under, lines, name)[x] == if x.0 == Some(name) then Filed(under, lines)[x] else 0
    decreases |lines|
  {
    if lines != [] {
      FiledAsAt(Under(under, lines[0]), lines[1..], name, x);
    }
  }

  lemma {:induction false} FiledAsRun(under: Option<string>, lines: seq<Line>, name: string)
    requires name !in HeadingNames(lines)
    ensures |FiledAs(under, lines, name)| == if under == Some(name) then Run(lines) else 0
    decreases |lines|
  {
    if lines != [] {
      FiledAsRun(Under(under, lines[0]), lines[1..], name);
    }
  }

  lemma DistinctTail(names: seq<string>)
    requires names != [] && Distinct(names)
    ensures names[0] !in names[1..] && Distinct(names[1..])
  {
    var rest := names[1..];
    forall j | 0 <= j < |rest| ensures rest[j] != names[0] {
      assert rest[j] == names[j + 1];
    }
  }

  lemma {:induction false} FiledAsSize(under: Option<string>, lines: seq<Line>, i: nat)
    requires i < |lines| && lines[i].Heading? && Distinct(HeadingNames(lines)) && under != Some(lines[i].name)
    ensures |FiledAs(under, lines, lines[i].name)| == Run(lines[i + 1..])
    decreases |lines|
  {
    var name, names := lines[i].name, HeadingNames(lines);
    if i == 0 {
      DistinctTail(names);
      FiledAsRun(Some(name), lines[1..], name);
    } else {
      NameOfHeading(lines[1..], i - 1);
      if lines[0].Heading? {
        DistinctTail(names);
        assert HeadingNames(lines[1..]) == names[1..];
      }
      FiledAsSize(Under(under, lines[0]), lines[1..], i - 1);
      assert lines[1..][i..] == lines[i + 1..];
    }
  }

  function Members(v: Vault, project: string): set<string> {
    set k | k in v && v[k].active && v[k].project == project
  }

  /** In an index the number in a heading is the number of active memories of that project,
      and the number in the date line that of all active memories. */
  lemma NumbersAreExact(lines: seq<Line>, v: Vault, i: nat)
    requires Keyed(v) && Lists(lines, v) && i < |lines| && lines[i].Heading?
    ensures lines[i].count == |Members(v, lines[i].name)|
    ensures lines[1].total == |Active(v)|
  {
    var name := lines[i].name;
    var ids := Members(v, name);
    FiledAsSize(None, lines, i);
    forall x ensures FiledAs(None, lines, name)[x] == multiset(Entries(v, ids))[x] {
      FiledAsAt(None, lines, name, x);
      MembersEntries(v, name, x);
    }
    assert FiledAs(None, lines, name) == multiset(Entries(v, ids));
    EntriesSize(v, ids);
    EntriesSize(v, Active(v));
    FiledSize(None, lines);
  }

  lemma MembersEntries(v: Vault, name: string, x: Entry)
    ensures x in Entries(v, Members(v, name)) <==> x in Entries(v, Active(v)) && x.0 == Some(name)
  {
    if x in Entries(v, Active(v)) && x.0 == Some(name) {
      var k :| k in Active(v) && x == EntryOf(v[k]);
      assert k in Members(v, name);
    }
    if x in Entries(v, Members(v, name)) {
      var k :| k in Members(v, name) && x == EntryOf(v[k]);
      assert k in Active(v);
    }
  }
}
